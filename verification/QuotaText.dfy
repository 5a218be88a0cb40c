/** The bounded text readers of task quotas: one file at a time, and every byte of it or an error. */
module QuotaText {
  import opened Bytes

  datatype Errno = EINTR | EOVERFLOW | EINVAL | Other(code: int)

  datatype Answer = Failed(error: Errno) | Data(chunk: string)

  /** An open file: what is left to read, and how often the kernel may still interrupt a read. */
  class File {
    var rest: string
    var interruptions: nat
    var broken: bool
    var closed: bool

    /** `read`: a prefix of what is left, nothing only at the end, or a failure. */
    method Read(most: nat) returns (a: Answer)
      requires most > 0 && !closed
      modifies this
      ensures closed == old(closed)
      ensures a.Failed? && a.error == EINTR ==>
                interruptions < old(interruptions) && rest == old(rest) && broken == old(broken)
      ensures a.Failed? && a.error != EINTR ==> broken
      ensures a.Data? ==>
                && old(rest) == a.chunk + rest && |a.chunk| <= most && (a.chunk == "" <==> old(rest) == "")
                && broken == old(broken) && interruptions == old(interruptions)
    {
      var interrupted: bool, fails: bool, error: Errno, count: int := *, *, *, *;
      if interrupted && interruptions > 0 {
        interruptions := interruptions - 1;
        return Failed(EINTR);
      }
      if fails && error != EINTR {
        broken := true;
        return Failed(error);
      }
      if rest == "" { return Data(""); }
      if count < 1 || count > most || count > |rest| { count := 1; }
      a := Data(rest[..count]);
      rest := rest[count..];
    }
  }

  /** What a whole file amounts to for a buffer of `size` bytes. */
  function Whole(content: string, size: nat): (r: Result<string, Errno>) {
    if |content| >= size then Err(EOVERFLOW)
    else if '\0' in content then Err(EINVAL)
    else Ok(content)
  }

  /** `icode_quota_read` after its open: the buffer never overflows and never holds part of a file as the whole. */
  method ReadAll(file: File, buffer: array<char>) returns (r: Result<nat, Errno>)
    requires !file.closed && !file.broken && buffer.Length > 0
    modifies file, buffer
    ensures file.closed
    ensures file.broken ==> r.Err?
    ensures !file.broken ==>
              match Whole(old(file.rest), buffer.Length)
              case Err(e) => r == Err(e)
              case Ok(content) => r == Ok(|content|) && buffer[..|content|] == content && buffer[|content|] == '\0'
  {
    var size, used := buffer.Length, 0;
    var failure: Option<Errno> := None;
    ghost var content := file.rest;
    while true
      invariant !file.closed && 0 <= used <= size - 1
      invariant !file.broken && failure == None ==> content == buffer[..used] + file.rest
      invariant failure == None && !file.broken
      decreases |file.rest|, file.interruptions
    {
      var a := file.Read(if used < size - 1 then size - 1 - used else 1);
      if a.Failed? && a.error == EINTR { continue; }
      if a.Failed? {
        failure := Some(a.error);
        break;
      }
      if a.chunk == "" { break; }
      if used == size - 1 {
        failure := Some(EOVERFLOW);
        break;
      }
      ghost var before, left := buffer[..used], file.rest;
      assert content == before + (a.chunk + left);
      forall k | 0 <= k < |a.chunk| { buffer[used + k] := a.chunk[k]; }
      assert buffer[..used + |a.chunk|] == before + a.chunk;
      assert before + (a.chunk + left) == before + a.chunk + left;
      used := used + |a.chunk|;
    }
    file.closed := true;
    if failure.Some? { return Err(failure.value); }
    if exists k :: 0 <= k < used && buffer[k] == '\0' { return Err(EINVAL); }
    buffer[used] := '\0';
    return Ok(used);
  }

  // ----- words ----------------------------------------------------------------------------

  predicate Blank(c: char) { c == ' ' || c == '\n' || c == '\t' }

  /** `text[i..j]` is a maximal run of characters that are not blank. */
  predicate Token(text: string, i: nat, j: nat) {
    && i < j <= |text| && (forall k :: i <= k < j ==> !Blank(text[k]))
    && (i == 0 || Blank(text[i - 1])) && (j == |text| || Blank(text[j]))
  }

  ghost predicate Contains(text: string, word: string) {
    exists i: nat, j: nat :: Token(text, i, j) && text[i..j] == word
  }

  /** Every token that starts before `start` has been compared. */
  ghost predicate Passed(text: string, word: string, start: nat) {
    forall i: nat, j: nat :: Token(text, i, j) && i < start ==> text[i..j] != word
  }

  /** `icode_quota_has_word`; an empty word is found exactly where the text ends in a blank. */
  method HasWord(text: string, word: string) returns (found: bool)
    ensures found <==> Contains(text, word) || (word == "" && text != "" && Blank(text[|text| - 1]))
  {
    var start := 0;
    while start < |text|
      invariant 0 <= start <= |text| && Passed(text, word, start)
      invariant start == 0 || start == |text| || Blank(text[start])
      invariant 0 < start == |text| ==> !Blank(text[start - 1]) || word != ""
    {
      var from := start;
      while start < |text| && (text[start] == ' ' || text[start] == '\n' || text[start] == '\t')
        invariant from <= start <= |text| && forall k :: from <= k < start ==> Blank(text[k])
      {
        start := start + 1;
      }
      var end := start;
      while end < |text| && text[end] != ' ' && text[end] != '\n' && text[end] != '\t'
        invariant start <= end <= |text| && forall k :: start <= k < end ==> !Blank(text[k])
      {
        end := end + 1;
      }
      if end - start == |word| && text[start..end] == word {
        if start < end { assert Token(text, start, end); }
        return true;
      }
      forall i: nat, j: nat | Token(text, i, j) && i < end ensures text[i..j] != word {
        if i >= from { OnlyToken(text, from, start, end, i, j); }
      }
      start := end;
    }
    found := false;
  }

  lemma OnlyToken(text: string, from: nat, start: nat, end: nat, i: nat, j: nat)
    requires from <= start <= end <= |text| && Token(text, i, j) && from <= i < end
    requires (forall k :: from <= k < start ==> Blank(text[k])) && (forall k :: start <= k < end ==> !Blank(text[k]))
    requires end == |text| || Blank(text[end])
    ensures i == start && j == end
  {
    assert !Blank(text[i]);
    assert i > 0 ==> Blank(text[i - 1]);
    assert j < |text| ==> Blank(text[j]);
  }

  // ----- lines ----------------------------------------------------------------------------

  /** Where the line starting at `i` ends. */
  function LineEnd(text: string, i: nat): (e: nat)
    requires i <= |text|
    ensures i <= e <= |text| && (e < |text| ==> text[e] == '\n') && forall k :: i <= k < e ==> text[k] != '\n'
    decreases |text| - i
  {
    if i == |text| || text[i] == '\n' then i else LineEnd(text, i + 1)
  }

  /** The newline-terminated lines of a text, and what follows the last newline if anything does. */
  function Lines(text: string): (lines: seq<string>) {
    if text == "" then []
    else
      var e := LineEnd(text, 0);
      [text[..e]] + (if e == |text| then [] else Lines(text[e + 1..]))
  }

  predicate Unpopulated(line: string) { line == "populated 0" }

  predicate AboutPopulation(line: string) { "populated " <= line }

  lemma PopulationLine(line: string)
    ensures Unpopulated(line) <==> line == "populated 0"
    ensures AboutPopulation(line) <==> "populated " <= line
  {}

  /** How many lines say that nothing is populated. */
  function Mentions(lines: seq<string>): (n: nat) {
    if lines == [] then 0 else (if Unpopulated(lines[0]) then 1 else 0) + Mentions(lines[1..])
  }

  /** The kernel reports no live process in the subtree: exactly one such line, and no other of its kind. */
  predicate SaysEmpty(text: string) {
    && Mentions(Lines(text)) == 1
    && forall line :: line in Lines(text) && AboutPopulation(line) ==> Unpopulated(line)
  }

  lemma {:induction false} LineEndShift(text: string, from: nat, i: nat)
    requires from <= i <= |text|
    ensures LineEnd(text, i) == from + LineEnd(text[from..], i - from)
    decreases |text| - i
  {
    if i < |text| && text[i] != '\n' { LineEndShift(text, from, i + 1); }
  }

  lemma FirstLine(text: string)
    requires text != ""
    ensures var e := LineEnd(text, 0); Lines(text) == [text[..e]] + Lines(text[if e == |text| then e else e + 1..])
  {
    hide LineEnd;
    var e := LineEnd(text, 0);
    assert e == |text| ==> text[e..] == "";
  }

  /** One more line read: what it adds to the verdict on the lines from it on. */
  lemma NextLine(text: string, line: nat)
    requires line < |text|
    ensures var e := LineEnd(text, line);
            Lines(text[line..]) == [text[line..e]] + Lines(text[if e == |text| then e else e + 1..])
  {
    hide LineEnd, Lines;
    var e, rest := LineEnd(text, line), text[line..];
    LineEndShift(text, line, line);
    FirstLine(rest);
    assert rest[..e - line] == text[line..e];
    var next := if e == |text| then e else e + 1;
    assert rest[next - line..] == text[next..];
  }

  predicate Verdict(lines: seq<string>, seen: nat) {
    Mentions(lines) + seen == 1 && forall line :: line in lines && AboutPopulation(line) ==> Unpopulated(line)
  }

  lemma VerdictStep(current: string, rest: seq<string>, seen: nat)
    ensures Verdict([current] + rest, seen) <==>
              if Unpopulated(current) then Verdict(rest, seen + 1) else !AboutPopulation(current) && Verdict(rest, seen)
  {
    var lines := [current] + rest;
    assert lines[1..] == rest && lines[0] == current;
    assert current in lines && forall line :: line in rest ==> line in lines;
    assert forall line :: line in lines ==> line == current || line in rest;
    assert Unpopulated(current) ==> Mentions(lines) == 1 + Mentions(rest);
  }

  /** The scan of `cgroup.events` in `icode_quota_empty`. */
  method ScanEvents(text: string) returns (r: Result<(), Errno>)
    ensures r.Ok? <==> SaysEmpty(text)
  {
    hide Verdict, SaysEmpty, Lines, Unpopulated, AboutPopulation, LineEnd;
    var line, populated := 0, -1;
    assert text[0..] == text;
    VerdictIsEmptiness(text);
    while line < |text|
      invariant 0 <= line <= |text| && (populated == -1 || populated == 0)
      invariant SaysEmpty(text) <==> Verdict(Lines(text[line..]), if populated == 0 then 1 else 0)
      decreases |text| - line
    {
      var e := LineEnd(text, line);
      var current := text[line..e];
      NextLine(text, line);
      ghost var rest := Lines(text[if e == |text| then e else e + 1..]);
      VerdictStep(current, rest, if populated == 0 then 1 else 0);
      PopulationLine(current);
      if current == "populated 0" {
        if populated != -1 {
          SeenTwice(rest);
          return Err(EINVAL);
        }
        populated := 0;
      } else if "populated " <= current {
        return Err(Other(16));
      }
      line := if e == |text| then e else e + 1;
    }
    assert text[line..] == "";
    NothingLeft(if populated == 0 then 1 else 0);
    if populated != 0 { return Err(EINVAL); }
    return Ok(());
  }

  lemma VerdictIsEmptiness(text: string)
    ensures Verdict(Lines(text), 0) <==> SaysEmpty(text)
  {}

  lemma SeenTwice(rest: seq<string>)
    ensures !Verdict(rest, 2)
  {}

  lemma NothingLeft(seen: nat)
    ensures Verdict(Lines(""), seen) <==> seen == 1
  {}
}
