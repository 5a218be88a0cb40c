/**
 Security identifiers: the worker prints a binary SID as text, the coordinator parses
 that text back.  The two directions are exact inverses on all inputs either accepts.
 */
module Sid {
  import opened Bytes

  // ----- decimal numerals -----------------------------------------------------------

  predicate IsDigit(c: char) { '0' <= c <= '9' }

  predicate Digits(s: string) { forall i :: 0 <= i < |s| ==> IsDigit(s[i]) }

  function Digit(d: nat): (c: char)
    requires d < 10
    ensures IsDigit(c)
  {
    d as char + '0'
  }

  function DigitValue(c: char): (d: nat)
    requires IsDigit(c)
    ensures d < 10 && Digit(d) == c
  {
    (c - '0') as int
  }

  /** Python's `str` of a non-negative integer. */
  function Decimal(n: nat): (s: string)
    ensures s != [] && Digits(s)
  {
    if n < 10 then [Digit(n)] else Decimal(n / 10) + [Digit(n % 10)]
  }

  /** The fixed pattern `0|[1-9][0-9]*`. */
  predicate Canonical(s: string) {
    s != [] && Digits(s) && (s[0] == '0' ==> |s| == 1)
  }

  /** Python's `int` of a digit string. */
  function Value(s: string): (n: nat)
    requires Digits(s)
  {
    if s == [] then 0 else 10 * Value(s[..|s| - 1]) + DigitValue(s[|s| - 1])
  }

  function Power10(k: nat): (n: nat)
    ensures n > 0
  {
    if k == 0 then 1 else 10 * Power10(k - 1)
  }

  lemma {:induction false} DecimalRoundTrip(n: nat)
    ensures Canonical(Decimal(n)) && Value(Decimal(n)) == n
    ensures n > 0 ==> Decimal(n)[0] != '0'
  {
    if n >= 10 {
      DecimalRoundTrip(n / 10);
      var s := Decimal(n);
      assert s[..|s| - 1] == Decimal(n / 10);
    } else {
      assert Decimal(n)[..0] == [];
    }
  }

  lemma TenTimes(v: nat, d: nat)
    requires d < 10
    ensures (10 * v + d) / 10 == v && (10 * v + d) % 10 == d
  {}

  lemma {:induction false} CanonicalRoundTrip(s: string)
    requires Canonical(s)
    ensures Decimal(Value(s)) == s
    ensures s[0] != '0' ==> Value(s) > 0
  {
    hide Digit, DigitValue, Canonical, IsDigit;
    CanonicalParts(s);
    var front, last := s[..|s| - 1], s[|s| - 1];
    assert s == front + [last];
    if |s| > 1 {
      CanonicalRoundTrip(front);
      TenTimes(Value(front), DigitValue(last));
      assert Value(s) >= 10;
    } else {
      FirstDigit(last);
    }
  }

  lemma FirstDigit(c: char)
    requires IsDigit(c)
    ensures c != '0' ==> DigitValue(c) > 0
  {}

  lemma CanonicalParts(s: string)
    requires Canonical(s)
    ensures s != [] && Digits(s) && IsDigit(s[|s| - 1])
    ensures |s| > 1 ==> s[0] != '0' && Canonical(s[..|s| - 1]) && s[..|s| - 1][0] == s[0]
  {}

  lemma {:induction false} DecimalLength(n: nat, k: nat)
    requires k > 0 && n < Power10(k)
    ensures |Decimal(n)| <= k
  {
    if n >= 10 {
      assert k > 1;
      DecimalLength(n / 10, k - 1);
    }
  }

  lemma {:induction false} DecimalLengthAtLeast(n: nat, k: nat)
    requires k > 0 && n >= Power10(k - 1)
    ensures |Decimal(n)| >= k
  {
    if k > 1 { DecimalLengthAtLeast(n / 10, k - 1); }
  }

  // ----- dash-separated text --------------------------------------------------------

  function Join(parts: seq<string>): (s: string)
    requires parts != []
  {
    if |parts| == 1 then parts[0] else parts[0] + "-" + Join(parts[1..])
  }

  /** Python's `text.split("-")`. */
  function Split(s: string): (parts: seq<string>)
    ensures parts != []
  {
    if s == [] then [[]]
    else
      var rest := Split(s[1..]);
      if s[0] == '-' then [[]] + rest else [[s[0]] + rest[0]] + rest[1..]
  }

  lemma {:induction false} SplitPrefix(word: string, rest: string)
    requires '-' !in word
    ensures Split(word + "-" + rest) == [word] + Split(rest)
    ensures Split(word) == [word]
  {
    if word != [] {
      SplitPrefix(word[1..], rest);
      var s := word + "-" + rest;
      assert s[1..] == word[1..] + "-" + rest;
      assert word[0] in word && s[0] == word[0];
      assert word == [word[0]] + word[1..];
    } else {
      assert ("-" + rest)[1..] == rest;
      assert word + "-" + rest == "-" + rest;
    }
  }

  lemma {:induction false} SplitJoin(parts: seq<string>)
    requires parts != [] && forall i :: 0 <= i < |parts| ==> '-' !in parts[i]
    ensures Split(Join(parts)) == parts
  {
    if |parts| == 1 {
      SplitPrefix(parts[0], []);
    } else {
      SplitJoin(parts[1..]);
      SplitPrefix(parts[0], Join(parts[1..]));
      assert parts == [parts[0]] + parts[1..];
    }
  }

  lemma {:induction false} JoinSplit(s: string)
    ensures Join(Split(s)) == s
  {
    if s != [] {
      JoinSplit(s[1..]);
      var rest := Split(s[1..]);
      var parts := Split(s);
      if s[0] == '-' {
        assert parts[1..] == rest;
        assert s == [] + "-" + s[1..];
      } else {
        assert parts[1..] == rest[1..];
        if |rest| > 1 {
          assert Join(parts) == parts[0] + "-" + Join(rest[1..]);
          assert s == [s[0]] + (rest[0] + "-" + Join(rest[1..]));
        }
      }
    }
  }

  // ----- binary SIDs ----------------------------------------------------------------

  /** The shape `_text_sid` demands of the bytes it prints. */
  predicate WellFormed(b: Bytes) {
    |b| >= 12 && b[0] == 1 && 1 <= b[1] <= 15 && |b| == 8 + 4 * b[1]
  }

  /** Little-endian 32-bit words of a byte string, in order. */
  function Words(b: Bytes): (w: seq<nat>)
    requires |b| % 4 == 0
    ensures 4 * |w| == |b|
  {
    if b == [] then [] else [LittleEndian(b[..4])] + Words(b[4..])
  }

  function FromWords(w: seq<nat>): (b: Bytes)
    ensures |b| == 4 * |w|
  {
    if w == [] then [] else ToLittleEndian(w[0], 4) + FromWords(w[1..])
  }

  lemma {:induction false} WordsRoundTrip(b: Bytes)
    requires |b| % 4 == 0
    ensures FromWords(Words(b)) == b
    ensures forall i :: 0 <= i < |Words(b)| ==> Words(b)[i] < WORD32
  {
    if b != [] {
      WordsRoundTrip(b[4..]);
      LittleEndianRoundTrip(b[..4]);
      assert Power256(4) == WORD32 by { Power256Values(); }
      assert Words(b)[1..] == Words(b[4..]);
      assert b == b[..4] + b[4..];
    }
  }

  lemma {:induction false} FromWordsRoundTrip(w: seq<nat>)
    requires forall i :: 0 <= i < |w| ==> w[i] < WORD32
    ensures |FromWords(w)| % 4 == 0 && Words(FromWords(w)) == w
  {
    if w != [] {
      FromWordsRoundTrip(w[1..]);
      Power256Values();
      FromLittleEndian(w[0], 4);
      var b := FromWords(w);
      assert b[..4] == ToLittleEndian(w[0], 4) && b[4..] == FromWords(w[1..]);
    }
  }

  function Decimals(values: seq<nat>): (parts: seq<string>)
    ensures |parts| == |values|
    ensures forall i :: 0 <= i < |values| ==> parts[i] == Decimal(values[i])
  {
    seq(|values|, i requires 0 <= i < |values| => Decimal(values[i]))
  }

  /** `_text_sid`: the canonical text of a binary SID, or nothing where it raises. */
  function TextSid(b: Bytes): (text: Option<string>) {
    if !WellFormed(b) then None
    else Some(Join(["S", "1"] + Decimals([BigEndian(b[2..8])] + Words(b[8..]))))
  }

  /** The numeric fields `sid_bytes` reads off the split text. */
  function Values(parts: seq<string>): (values: seq<nat>)
    requires forall i :: 0 <= i < |parts| ==> Digits(parts[i])
    ensures |values| == |parts|
    ensures forall i :: 0 <= i < |parts| ==> values[i] == Value(parts[i])
  {
    seq(|parts|, i requires 0 <= i < |parts| => Value(parts[i]))
  }

  /** The sub-authorities from the one at byte `at` on, least significant byte first, each after a dash. */
  function Tail(b: Bytes, at: nat): (text: string)
    requires at <= |b| && (|b| - at) % 4 == 0
    decreases |b| - at
  {
    if at == |b| then ""
    else "-" + Decimal(Octets4(b[at], b[at + 1], b[at + 2], b[at + 3])) + Tail(b, at + 4)
  }

  /** The six bytes of the identifier authority, most significant first. */
  function Authority(b: Bytes): (n: nat)
    requires |b| >= 8
  {
    Octets6(b[7], b[6], b[5], b[4], b[3], b[2])
  }

  lemma {:induction false} TailIs(b: Bytes, at: nat, first: string)
    requires at <= |b| && (|b| - at) % 4 == 0
    ensures Join([first] + Decimals(Words(b[at..]))) == first + Tail(b, at)
    decreases |b| - at
  {
    hide Decimal;
    if at == |b| {
      assert Decimals(Words(b[at..])) == [];
      assert first + "" == first;
    } else {
      var w := b[at..];
      WordsInNumbers(w[..4]);
      assert w[4..] == b[at + 4..];
      var n := LittleEndian(w[..4]);
      assert Decimals(Words(w)) == [Decimal(n)] + Decimals(Words(w[4..]));
      TailIs(b, at + 4, Decimal(n));
      JoinCons(first, Decimals(Words(w)));
      assert first + ("-" + Decimal(n) + Tail(b, at + 4)) == first + "-" + (Decimal(n) + Tail(b, at + 4));
    }
  }

  /** The text of a SID, byte by byte ([MS-DTYP] sections 2.4.2.1 and 2.4.2.2). */
  lemma TextInNumbers(b: Bytes)
    requires |b| >= 12 && b[0] == 1 && 1 <= b[1] <= 15 && |b| == 8 + 4 * b[1]
    ensures TextSid(b) == Some("S-1-" + Decimal(Authority(b)) + Tail(b, 8))
  {
    hide Decimal, Words, BigEndian, Join, Tail;
    var a := b[2..8];
    WordsInNumbers(a);
    var parts := Decimals([BigEndian(a)] + Words(b[8..]));
    assert parts == [Decimal(Authority(b))] + Decimals(Words(b[8..]));
    TailIs(b, 8, Decimal(Authority(b)));
    SidHead(parts, Decimal(Authority(b)), Tail(b, 8));
  }

  lemma SidHead(parts: seq<string>, first: string, rest: string)
    requires parts != [] && Join(parts) == first + rest
    ensures Join(["S", "1"] + parts) == "S-1-" + first + rest
  {
    hide Join;
    JoinCons("1", parts);
    JoinCons("S", ["1"] + parts);
    assert ["S", "1"] + parts == ["S"] + (["1"] + parts);
    assert "S" + "-" + ("1" + "-" + (first + rest)) == "S-1-" + first + rest;
  }

  /** Only such bytes have a text. */
  lemma TextNeeds(b: Bytes)
    ensures TextSid(b).Some? <==> |b| >= 12 && b[0] == 1 && 1 <= b[1] <= 15 && |b| == 8 + 4 * b[1]
  {
    hide Decimal, Words, BigEndian, Join;
  }

  lemma SomeDecimals()
    ensures Decimal(5) == "5" && Decimal(32) == "32" && Decimal(544) == "544"
  {
    assert Decimal(3) == "3" && Decimal(54) == "54";
  }

  lemma AuthorityFive(b: Bytes)
    requires |b| >= 8 && b[2..8] == [0, 0, 0, 0, 0, 5]
    ensures Authority(b) == 5
  {
    var a := b[2..8];
    assert a[0] == b[2] && a[1] == b[3] && a[2] == b[4] && a[3] == b[5] && a[4] == b[6] && a[5] == b[7];
  }

  /** The built-in Administrators group. */
  lemma Administrators()
    ensures TextSid([1, 2, 0, 0, 0, 0, 0, 5, 32, 0, 0, 0, 32, 2, 0, 0]) == Some("S-1-5-32-544")
  {
    hide TextSid, Decimal, Authority;
    var b: Bytes := [1, 2, 0, 0, 0, 0, 0, 5, 32, 0, 0, 0, 32, 2, 0, 0];
    TextInNumbers(b);
    SomeDecimals();
    AuthorityFive(b);
    assert "S-1-" + "5" + "-32-544" == "S-1-5-32-544";
    assert Tail(b, 16) == "" && Tail(b, 12) == "-544" && Tail(b, 8) == "-32-544";
  }

  /** `sid_bytes`: the binary SID a text denotes, or nothing where it raises. */
  function SidBytes(text: string): (b: Option<Bytes>) {
    if |text| > 184 then None
    else
      var parts := Split(text);
      if |parts| < 4 || parts[..2] != ["S", "1"] || |parts| > 18 then None
      else if exists i :: 2 <= i < |parts| && !Canonical(parts[i]) then None
      else
        var values := Values(parts[2..]);
        if values[0] >= WORD48 || exists i :: 1 <= i < |values| && values[i] >= WORD32 then None
        else Some([1, |values| - 1] + ToBigEndian(values[0], 6) + FromWords(values[1..]))
  }

  lemma {:induction false} JoinLength(parts: seq<string>, width: nat)
    requires parts != [] && forall i :: 0 <= i < |parts| ==> |parts[i]| <= width
    ensures |Join(parts)| <= (width + 1) * |parts| - 1
  {
    if |parts| > 1 { JoinLength(parts[1..], width); }
  }

  lemma {:induction false} JoinLengthExactly(parts: seq<string>, width: nat)
    requires parts != [] && forall i :: 0 <= i < |parts| ==> |parts[i]| == width
    ensures |Join(parts)| == (width + 1) * |parts| - 1
  {
    if |parts| > 1 { JoinLengthExactly(parts[1..], width); }
  }

  lemma PowersOfTen()
    ensures Power10(9) == 1_000_000_000 && Power10(10) == 10_000_000_000
    ensures Power10(14) == 100_000_000_000_000 && Power10(15) == 1_000_000_000_000_000
  {
    assert Power10(5) == 100_000;
    assert Power10(10) == 10_000_000_000;
    assert Power10(15) == 1_000_000_000_000_000;
  }

  lemma WordDecimals(words: seq<nat>)
    requires words != [] && forall i :: 0 <= i < |words| ==> words[i] < WORD32
    ensures |Join(Decimals(words))| <= 11 * |words| - 1
  {
    PowersOfTen();
    forall i | 0 <= i < |words| ensures |Decimal(words[i])| <= 10 {
      DecimalLength(words[i], 10);
    }
    JoinLength(Decimals(words), 10);
  }

  lemma AuthorityDecimal(b: Bytes)
    requires |b| == 6
    ensures |Decimal(BigEndian(b))| <= 15
  {
    BigEndianRoundTrip(b);
    Power256Values();
    PowersOfTen();
    DecimalLength(BigEndian(b), 15);
  }

  /** No printed SID is longer than the 184 characters the parser admits. */
  lemma TextFits(b: Bytes)
    requires WellFormed(b)
    ensures |TextSid(b).value| <= 184
  {
    hide Decimal, Words, BigEndian, Join, Digits, LittleEndian;
    var authority, words := BigEndian(b[2..8]), Words(b[8..]);
    AuthorityDecimal(b[2..8]);
    WordsRoundTrip(b[8..]);
    WordDecimals(words);
    var tail := [Decimal(authority)] + Decimals(words);
    assert Decimals([authority] + words) == tail;
    JoinCons(Decimal(authority), Decimals(words));
    JoinCons("1", tail);
    JoinCons("S", ["1"] + tail);
    assert ["S", "1"] + tail == ["S"] + (["1"] + tail);
  }

  /** All fifteen sub-authorities and the authority at their largest. */
  function LongestSid(): (b: Bytes) {
    [1, 15] + ToBigEndian(WORD48 - 1, 6) + FromWords(LargestWords())
  }

  function LargestWords(): (words: seq<nat>) { seq(15, i => WORD32 - 1) }

  /** The bound is reached. */
  lemma LongestText()
    ensures WellFormed(LongestSid()) && |TextSid(LongestSid()).value| == 184
  {
    hide Decimal, Words, BigEndian, Join, Digits, LittleEndian, ToBigEndian, FromWords;
    var b, words := LongestSid(), LargestWords();
    Power256Values();
    PowersOfTen();
    FromBigEndian(WORD48 - 1, 6);
    FromWordsRoundTrip(words);
    assert b[2..8] == ToBigEndian(WORD48 - 1, 6) && b[8..] == FromWords(words);
    DecimalLength(WORD48 - 1, 15);
    DecimalLengthAtLeast(WORD48 - 1, 15);
    DecimalLength(WORD32 - 1, 10);
    DecimalLengthAtLeast(WORD32 - 1, 10);
    JoinLengthExactly(Decimals(words), 10);
    var tail := [Decimal(WORD48 - 1)] + Decimals(words);
    assert Decimals([WORD48 - 1] + words) == tail;
    JoinCons(Decimal(WORD48 - 1), Decimals(words));
    JoinCons("1", tail);
    JoinCons("S", ["1"] + tail);
    assert ["S", "1"] + tail == ["S"] + (["1"] + tail);
  }

  lemma JoinCons(first: string, rest: seq<string>)
    requires rest != []
    ensures Join([first] + rest) == first + "-" + Join(rest)
  {
    assert ([first] + rest)[1..] == rest;
  }

  lemma CanonicalDigits(s: string)
    requires Canonical(s)
    ensures Digits(s) && '-' !in s
  {}

  /** Parsing inverts printing: every binary SID survives the trip through text. */
  lemma ParseAfterPrint(b: Bytes)
    requires WellFormed(b)
    ensures SidBytes(TextSid(b).value) == Some(b)
  {
    hide Decimal, Words, BigEndian, Join, Split, Digits, Canonical, LittleEndian, FromWords, ToBigEndian, Value;
    var authority, words := BigEndian(b[2..8]), Words(b[8..]);
    var values := [authority] + words;
    var parts := ["S", "1"] + Decimals(values);
    BigEndianRoundTrip(b[2..8]);
    Power256Values();
    WordsRoundTrip(b[8..]);
    forall i | 2 <= i < |parts| ensures Canonical(parts[i]) && Value(parts[i]) == values[i - 2] && '-' !in parts[i] {
      DecimalRoundTrip(values[i - 2]);
      CanonicalDigits(parts[i]);
    }
    SplitJoin(parts);
    TextFits(b);
    assert Values(parts[2..]) == values;
    assert values[1..] == words;
    assert parts[..2] == ["S", "1"];
    assert b == [b[0], b[1]] + b[2..8] + b[8..];
  }

  /** Printing inverts parsing: the parser accepts canonical text only. */
  lemma PrintAfterParse(text: string)
    requires SidBytes(text).Some?
    ensures WellFormed(SidBytes(text).value)
    ensures TextSid(SidBytes(text).value) == Some(text)
  {
    hide Decimal, Words, BigEndian, Join, Split, Digits, LittleEndian, FromWords, ToBigEndian, Value;
    var parts := Split(text);
    var values := Values(parts[2..]);
    var b := SidBytes(text).value;
    Power256Values();
    FromBigEndian(values[0], 6);
    FromWordsRoundTrip(values[1..]);
    assert b[2..8] == ToBigEndian(values[0], 6) && b[8..] == FromWords(values[1..]);
    assert [values[0]] + values[1..] == values;
    forall i | 0 <= i < |values| ensures Decimal(values[i]) == parts[2..][i] {
      CanonicalRoundTrip(parts[i + 2]);
    }
    assert Decimals(values) == parts[2..];
    assert parts == ["S", "1"] + parts[2..] by { assert parts == parts[..2] + parts[2..]; }
    JoinSplit(text);
  }

  /** Distinct binary SIDs print as distinct texts, and distinct accepted texts parse to distinct SIDs. */
  lemma TextIsInjective(a: Bytes, b: Bytes)
    requires WellFormed(a) && WellFormed(b)
    ensures TextSid(a) == TextSid(b) <==> a == b
  {
    ParseAfterPrint(a);
    ParseAfterPrint(b);
  }
}
