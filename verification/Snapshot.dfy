/**
 The bounded full-configuration snapshot: the worker that reads it and owns the memory the
 query returned, and the coordinator's reading of the worker's report.
 */
module Snapshot {
  import opened Bytes
  import opened Sid

  datatype Entry = Entry(sid: string, attributes: int)

  datatype Raw = Raw(
    schema: int,
    entries: seq<Entry>,
    apiCode: Option<int>,
    complete: bool,
    attempted: int,
    freed: int,
    arrayFreed: bool,
    libraryFreed: bool,
    reaped: Option<bool>)

  /** The shared exemption table: binary SID to attribute word. */
  type Table = map<Bytes, int>

  // ----- the coordinator's reading of a report --------------------------------------

  predicate Released(raw: Raw) {
    && raw.schema == 1
    && raw.apiCode == Some(0)
    && raw.complete && raw.arrayFreed && raw.libraryFreed && raw.reaped == Some(true)
    && |raw.entries| <= 4096
    && raw.attempted == |raw.entries| && raw.freed == |raw.entries|
  }

  /** One pass over the entries, `None` from the first entry the reader refuses. */
  function Fold(entries: seq<Entry>): (m: Option<Table>) {
    if entries == [] then Some(map[])
    else
      var before := Fold(entries[..|entries| - 1]);
      var e := entries[|entries| - 1];
      if before == None || SidBytes(e.sid) == None || SidBytes(e.sid).value in before.value
         || !(0 <= e.attributes < WORD32) then None
      else Some(before.value[SidBytes(e.sid).value := e.attributes])
  }

  function MappingOf(raw: Raw): (m: Option<Table>) {
    if Released(raw) then Fold(raw.entries) else None
  }

  /** What a table that faithfully lists the entries looks like, with no reference to a pass. */
  predicate Lists(m: Table, entries: seq<Entry>) {
    && (forall i :: 0 <= i < |entries| ==> Listed(m, entries[i]))
    && (forall i, j :: 0 <= i < j < |entries| ==> SidBytes(entries[i].sid) != SidBytes(entries[j].sid))
    && |m| == |entries|
  }

  predicate Listed(m: Table, e: Entry) {
    && SidBytes(e.sid).Some? && SidBytes(e.sid).value in m
    && m[SidBytes(e.sid).value] == e.attributes && 0 <= e.attributes < WORD32
  }

  /** Every key of the table comes from some entry. */
  ghost predicate Covered(m: Table, entries: seq<Entry>) {
    forall b :: b in m ==> Names(entries, b)
  }

  ghost predicate Names(entries: seq<Entry>, b: Bytes) {
    exists i :: 0 <= i < |entries| && SidBytes(entries[i].sid) == Some(b)
  }

  lemma {:induction false} FoldStaysFailed(entries: seq<Entry>, k: nat)
    requires k <= |entries| && Fold(entries[..k]) == None
    ensures Fold(entries) == None
  {
    if k < |entries| {
      assert entries[..|entries| - 1][..k] == entries[..k];
      FoldStaysFailed(entries[..|entries| - 1], k);
    } else {
      assert entries[..k] == entries;
    }
  }

  lemma {:induction false} FoldLists(entries: seq<Entry>)
    requires Fold(entries).Some?
    ensures Lists(Fold(entries).value, entries) && Covered(Fold(entries).value, entries)
  {
    hide SidBytes, Lists, Covered;
    if entries == [] {
      EmptyLists();
    } else {
      var front, last := entries[..|entries| - 1], entries[|entries| - 1];
      FoldLists(front);
      assert entries == front + [last];
      ListExtends(Fold(front).value, front, last);
      CoverExtends(Fold(front).value, front, last);
    }
  }

  lemma EmptyLists()
    ensures Lists(map[], []) && Covered(map[], [])
  {}

  lemma ListExtends(m: Table, front: seq<Entry>, last: Entry)
    requires Lists(m, front) && Covered(m, front)
    requires SidBytes(last.sid).Some? && SidBytes(last.sid).value !in m && 0 <= last.attributes < WORD32
    ensures Lists(m[SidBytes(last.sid).value := last.attributes], front + [last])
  {
    hide SidBytes, Covered;
    var key := SidBytes(last.sid).value;
    forall i | 0 <= i < |front|
      ensures Listed(m[key := last.attributes], front[i]) && SidBytes(front[i].sid) != Some(key)
    {
      assert Listed(m, front[i]);
    }
  }

  lemma CoverExtends(m: Table, front: seq<Entry>, last: Entry)
    requires Covered(m, front) && SidBytes(last.sid).Some?
    ensures Covered(m[SidBytes(last.sid).value := last.attributes], front + [last])
  {
    hide SidBytes;
    var entries := front + [last];
    forall b | b in m[SidBytes(last.sid).value := last.attributes] ensures Names(entries, b) {
      if Some(b) == SidBytes(last.sid) {
        assert SidBytes(entries[|front|].sid) == Some(b);
      } else {
        var i :| 0 <= i < |front| && SidBytes(front[i].sid) == Some(b);
        assert SidBytes(entries[i].sid) == Some(b);
      }
    }
  }

  lemma {:induction false} ListsFold(entries: seq<Entry>)
    requires forall i :: 0 <= i < |entries| ==>
               SidBytes(entries[i].sid).Some? && 0 <= entries[i].attributes < WORD32
    requires forall i, j :: 0 <= i < j < |entries| ==> SidBytes(entries[i].sid) != SidBytes(entries[j].sid)
    ensures Fold(entries).Some?
  {
    hide SidBytes, Lists;
    if entries != [] {
      var front, last := entries[..|entries| - 1], entries[|entries| - 1];
      ListsFold(front);
      FoldLists(front);
      forall i | 0 <= i < |front| ensures SidBytes(front[i].sid) != SidBytes(last.sid) {
        assert SidBytes(entries[i].sid) != SidBytes(entries[|front|].sid);
      }
      assert SidBytes(last.sid).Some? && !Names(front, SidBytes(last.sid).value);
    }
  }

  /**
   A report is accepted exactly when it is fully released and some table lists it; the table is
   then determined, and has one key for every entry and no other.
   */
  lemma MappingMeaning(raw: Raw)
    ensures MappingOf(raw).Some? <==> Released(raw) && exists m :: Lists(m, raw.entries)
    ensures MappingOf(raw).Some? ==> Lists(MappingOf(raw).value, raw.entries)
    ensures forall m :: MappingOf(raw).Some? && Lists(m, raw.entries) ==> m == MappingOf(raw).value
  {
    hide SidBytes, Lists, Covered, Fold;
    if MappingOf(raw).Some? { FoldLists(raw.entries); }
    if Released(raw) && exists m :: Lists(m, raw.entries) {
      var m :| Lists(m, raw.entries);
      ListedFolds(m, raw.entries);
    }
    forall m | MappingOf(raw).Some? && Lists(m, raw.entries) ensures m == MappingOf(raw).value {
      SameList(m, MappingOf(raw).value, raw.entries);
    }
  }

  lemma ListedFolds(m: Table, entries: seq<Entry>)
    requires Lists(m, entries)
    ensures Fold(entries).Some?
  {
    hide SidBytes, Fold;
    forall i | 0 <= i < |entries| ensures SidBytes(entries[i].sid).Some? && 0 <= entries[i].attributes < WORD32 {
      assert Listed(m, entries[i]);
    }
    ListsFold(entries);
  }

  lemma SameList(m: Table, m': Table, entries: seq<Entry>)
    requires Lists(m, entries) && Lists(m', entries) && Covered(m', entries)
    ensures m == m'
  {
    hide SidBytes;
    forall b | b in m' ensures b in m && m[b] == m'[b] {
      assert Names(entries, b);
      var i :| 0 <= i < |entries| && SidBytes(entries[i].sid) == Some(b);
      assert Listed(m, entries[i]) && Listed(m', entries[i]);
    }
    assert m'.Keys <= m.Keys;
    SubsetOfSameSize(m'.Keys, m.Keys);
  }

  /** Every attribute word an accepted report carries fits in 32 bits. */
  lemma MappingRange(raw: Raw)
    requires MappingOf(raw).Some?
    ensures forall b :: b in MappingOf(raw).value ==> 0 <= MappingOf(raw).value[b] < WORD32
  {
    hide SidBytes, Fold;
    var m := MappingOf(raw).value;
    FoldLists(raw.entries);
    forall b | b in m ensures 0 <= m[b] < WORD32 {
      assert Names(raw.entries, b);
      var i :| 0 <= i < |raw.entries| && SidBytes(raw.entries[i].sid) == Some(b);
      assert Listed(m, raw.entries[i]);
    }
  }

  lemma SubsetOfSameSize<T>(a: set<T>, b: set<T>)
    requires a <= b && |a| == |b|
    ensures a == b
  {
    var rest := b - a;
    assert b == a + rest;
    assert |b| == |a| + |rest|;
  }

  /** `_mapping`, entry by entry. */
  method Mapping(raw: Raw) returns (result: Option<Table>)
    ensures result == MappingOf(raw)
  {
    hide SidBytes;
    if raw.schema != 1 { return None; }
    if raw.apiCode != Some(0) || !raw.complete || !raw.arrayFreed || !raw.libraryFreed
       || raw.reaped != Some(true) || |raw.entries| > 4096 { return None; }
    if raw.attempted != |raw.entries| || raw.freed != |raw.entries| { return None; }
    var table: Table := map[];
    for i := 0 to |raw.entries|
      invariant Fold(raw.entries[..i]) == Some(table)
    {
      var item := raw.entries[i];
      assert raw.entries[..i + 1][..i] == raw.entries[..i];
      var binary := SidBytes(item.sid);
      if binary == None || binary.value in table || !(0 <= item.attributes < WORD32) {
        FoldStaysFailed(raw.entries, i + 1);
        return None;
      }
      table := table[binary.value := item.attributes];
    }
    assert raw.entries[..|raw.entries|] == raw.entries;
    return Some(table);
  }

  // ----- the worker -------------------------------------------------------------------

  datatype Slot = Slot(pointer: nat, attributes: int)

  /** The outcome of one release call; it may also raise. */
  datatype Outcome = Returned(ok: bool) | Raised

  /** Everything the operating system answers during one collection. */
  datatype Host = Host(
    loads: bool,
    query: Option<int>,
    count: nat,
    table: nat,
    slot: nat -> Slot,
    validSid: nat -> bool,
    length: nat -> int,
    bytesAt: (nat, nat) -> Bytes,
    heap: bool,
    heapFree: nat -> Outcome,
    freeLibrary: Outcome)

  /** The answers that come from the documented calling convention, whatever else goes wrong. */
  ghost predicate Conforms(host: Host) {
    && (forall p, n :: |host.bytesAt(p, n)| == n)
    && (forall i :: 0 <= host.slot(i).attributes < WORD32)
    && host.count < WORD32
  }

  function Pointers(host: Host, n: nat): (p: seq<nat>)
    ensures |p| == n && forall i :: 0 <= i < n ==> p[i] == host.slot(i).pointer
  {
    if n == 0 then [] else Pointers(host, n - 1) + [host.slot(n - 1).pointer]
  }

  /** The query succeeded and no two of the addresses it returned are the same. */
  ghost predicate Unaliased(host: Host) {
    && host.loads && host.query == Some(0) && host.count <= 4096 && (host.count != 0 ==> host.table != 0)
    && (forall i :: 0 <= i < host.count ==> host.slot(i).pointer != 0 && host.slot(i).pointer != host.table)
    && (forall i, j :: 0 <= i < j < host.count ==> host.slot(i).pointer != host.slot(j).pointer)
    && (forall i :: 0 <= i < host.count ==> host.validSid(host.slot(i).pointer))
  }

  /** The bytes the worker copies for slot `i`. */
  function SidAt(host: Host, i: nat): (b: Bytes) {
    var p := host.slot(i).pointer;
    if host.length(p) < 0 then [] else host.bytesAt(p, host.length(p))
  }

  /** `e` is the printed form of what slot `i` points at. */
  ghost predicate Prints(host: Host, i: nat, e: Entry) {
    TextSid(SidAt(host, i)) == Some(e.sid) && e.attributes == host.slot(i).attributes
  }

  ghost predicate Readable(host: Host, i: nat) {
    12 <= host.length(host.slot(i).pointer) <= 68 && WellFormed(SidAt(host, i))
  }

  /** A collection that may call itself complete: every entry readable and distinct, every release confirmed. */
  ghost predicate Complete(host: Host) {
    && Unaliased(host)
    && ReadablePrefix(host, host.count)
    && host.heap
    && (forall i :: 0 <= i < host.count ==> host.heapFree(i) == Returned(true))
    && (host.table != 0 ==> host.heapFree(host.count) == Returned(true))
    && host.freeLibrary == Returned(true)
  }

  predicate Distinct<T(==)>(s: seq<T>) { forall i, j :: 0 <= i < j < |s| ==> s[i] != s[j] }

  /** `collect`; `released` is the sequence of addresses handed to the heap, in order. */
  method Collect(host: Host) returns (result: Raw, released: seq<nat>)
    requires Conforms(host)
    ensures Distinct(released)
    ensures released != [] ==> Unaliased(host)
    ensures forall p :: p in released ==> p == host.table || p in Pointers(host, host.count)
    ensures result.complete <==> Complete(host)
    ensures result.complete ==> released == Pointers(host, host.count) + (if host.table != 0 then [host.table] else [])
    ensures result.complete ==>
              && result.schema == 1 && result.apiCode == Some(0) && result.arrayFreed && result.libraryFreed
              && result.reaped == None
              && |result.entries| == result.attempted == result.freed == host.count
              && forall i :: 0 <= i < host.count ==> Prints(host, i, result.entries[i])
  {
    result := Raw(1, [], None, false, 0, 0, false, false, None);
    released := [];
    var pointers: seq<nat>, graphSafe, valid := [], false, false;
    if host.loads {
      result := result.(apiCode := host.query);
      pointers, graphSafe := Graph(host);
      if graphSafe {
        var entries, readable := ReadEntries(host, pointers);
        result, valid := result.(entries := entries), readable;
      }
    }
    if graphSafe && host.heap {
      var freed, arrayFreed, raised;
      released, freed, arrayFreed, raised := Release(host, pointers);
      result := result.(attempted := |pointers|, freed := freed, arrayFreed := arrayFreed);
      valid := valid && !raised;
    }
    if host.loads {
      match host.freeLibrary {
        case Returned(ok) => result := result.(libraryFreed := ok);
        case Raised => valid := false;
      }
    }
    result := result.(complete := valid && graphSafe && result.arrayFreed && result.libraryFreed
      && result.attempted == host.count && result.freed == host.count && |result.entries| == host.count);
  }

  /** The ownership-graph check: every address distinct and not the array's own. */
  method Graph(host: Host) returns (pointers: seq<nat>, safe: bool)
    requires host.loads
    ensures safe <==> Unaliased(host)
    ensures safe ==> pointers == Pointers(host, host.count)
  {
    pointers, safe := [], false;
    if host.query != Some(0) || host.count > 4096 || (host.count != 0 && host.table == 0) { return; }
    for i := 0 to host.count
      invariant pointers == Pointers(host, i)
      invariant forall k :: 0 <= k < i ==>
                  host.slot(k).pointer != 0 && host.slot(k).pointer != host.table && host.validSid(host.slot(k).pointer)
      invariant forall j, k :: 0 <= j < k < i ==> host.slot(j).pointer != host.slot(k).pointer
    {
      var pointer := host.slot(i).pointer;
      if pointer == 0 || pointer == host.table || pointer in pointers {
        assert pointer in pointers ==> exists k :: 0 <= k < i && host.slot(k).pointer == pointer;
        return;
      }
      pointers := pointers + [pointer];
      if !host.validSid(pointer) { return; }
    }
    safe := true;
  }

  /** The release pass: one failing release skips no other. */
  method Release(host: Host, pointers: seq<nat>)
    returns (released: seq<nat>, freed: nat, arrayFreed: bool, raised: bool)
    ensures released == pointers + (if host.table != 0 then [host.table] else [])
    ensures freed == |pointers| && arrayFreed && !raised <==>
              && (forall k :: 0 <= k < |pointers| ==> host.heapFree(k) == Returned(true))
              && (host.table != 0 ==> host.heapFree(|pointers|) == Returned(true))
  {
    released, freed, arrayFreed, raised := [], 0, false, false;
    for i := 0 to |pointers|
      invariant released == pointers[..i]
      invariant 0 <= freed <= i
      invariant freed == i && !raised <==> forall k :: 0 <= k < i ==> host.heapFree(k) == Returned(true)
    {
      released := released + [pointers[i]];
      match host.heapFree(i) {
        case Returned(ok) => freed := if ok then freed + 1 else freed;
        case Raised => raised := true;
      }
    }
    if host.table == 0 {
      arrayFreed := true;
    } else {
      released := released + [host.table];
      match host.heapFree(|pointers|) {
        case Returned(ok) => arrayFreed := ok;
        case Raised => raised := true;
      }
    }
  }

  /** The copying pass: texts and attributes up to the first unreadable or repeated SID. */
  method ReadEntries(host: Host, pointers: seq<nat>) returns (entries: seq<Entry>, readable: bool)
    requires Conforms(host) && pointers == Pointers(host, host.count)
    ensures readable <==> ReadablePrefix(host, host.count)
    ensures readable ==> |entries| == host.count
    ensures forall i :: 0 <= i < |entries| ==> Prints(host, i, entries[i])
  {
    hide TextSid, WellFormed, ReadablePrefix;
    entries, readable := [], false;
    var identities: set<Bytes> := {};
    ReadableEmpty(host);
    for i := 0 to |pointers|
      invariant |entries| == i
      invariant ReadablePrefix(host, i)
      invariant identities == SidSet(host, i)
      invariant forall k :: 0 <= k < i ==> Prints(host, k, entries[k])
    {
      var length := host.length(pointers[i]);
      ReadableStep(host, i);
      if !(12 <= length <= 68) { return; }
      var binary := host.bytesAt(pointers[i], length);
      var text := TextSid(binary);
      if text == None { return; }
      if binary in identities { return; }
      identities := identities + {binary};
      entries := entries + [Entry(text.value, host.slot(i).attributes)];
    }
    readable := true;
  }

  /** The first `n` slots are readable and pairwise distinct. */
  ghost predicate ReadablePrefix(host: Host, n: nat) {
    && (forall i :: 0 <= i < n ==> Readable(host, i))
    && (forall i, j :: 0 <= i < j < n ==> SidAt(host, i) != SidAt(host, j))
  }

  function SidSet(host: Host, n: nat): (s: set<Bytes>) {
    if n == 0 then {} else SidSet(host, n - 1) + {SidAt(host, n - 1)}
  }

  lemma {:induction false} SidSetMembers(host: Host, n: nat, b: Bytes)
    ensures b in SidSet(host, n) <==> exists k :: 0 <= k < n && SidAt(host, k) == b
  {
    if n > 0 { SidSetMembers(host, n - 1, b); }
  }

  lemma ReadableEmpty(host: Host)
    ensures ReadablePrefix(host, 0)
  {}

  /** One more slot extends a readable prefix exactly when it is readable and new; otherwise no longer one is readable.
      */
  lemma ReadableStep(host: Host, i: nat)
    requires ReadablePrefix(host, i)
    ensures ReadablePrefix(host, i + 1) <==>
              12 <= host.length(host.slot(i).pointer) <= 68 && TextSid(SidAt(host, i)).Some?
                && SidAt(host, i) !in SidSet(host, i)
    ensures forall n :: i < n && ReadablePrefix(host, n) ==> ReadablePrefix(host, i + 1)
  {
    hide TextSid, WellFormed;
    PrintableIff(SidAt(host, i));
    SidSetMembers(host, i, SidAt(host, i));
    if ReadablePrefix(host, i + 1) { assert Readable(host, i); }
    forall j | 0 <= j < i && SidAt(host, i) !in SidSet(host, i) ensures SidAt(host, j) != SidAt(host, i) {}
  }

  lemma PrintableIff(b: Bytes)
    ensures TextSid(b).Some? <==> WellFormed(b)
  {}

  /**
   End to end: once the coordinator has reaped the worker, a complete report maps exactly the
   SIDs the operating system listed, one key per listed entry, to the listed attributes.
   */
  lemma CompleteReportMaps(host: Host, result: Raw)
    requires Conforms(host) && Complete(host)
    requires Released(result.(reaped := Some(true))) && |result.entries| == host.count
    requires forall i :: 0 <= i < host.count ==> Prints(host, i, result.entries[i])
    ensures var m := MappingOf(result.(reaped := Some(true)));
            && m.Some? && |m.value| == host.count
            && forall i :: 0 <= i < host.count ==>
                && SidAt(host, i) in m.value
                && m.value[SidAt(host, i)] == host.slot(i).attributes
  {
    forall i | 0 <= i < host.count ensures SidBytes(result.entries[i].sid) == Some(SidAt(host, i)) {
      assert Readable(host, i);
      ParseAfterPrint(SidAt(host, i));
    }
    ListsFold(result.entries);
    FoldLists(result.entries);
    forall i | 0 <= i < host.count ensures Listed(Fold(result.entries).value, result.entries[i]) {}
  }
}
