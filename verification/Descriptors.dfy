/**
 Closing inherited descriptors before a payload runs: everything from 3 up goes, except the
 descriptors the launcher means to hand over.
 */
module Descriptors {

  const UINT_MAX: int := 0xFFFF_FFFF
  const INT_MAX: int := 0x7FFF_FFFF

  /** A C `int`. */
  type Fd = x: int | -0x8000_0000 <= x <= 0x7FFF_FFFF

  datatype Range = Range(low: int, high: int)

  predicate In(x: int, r: Range) { r.low <= x <= r.high }

  function Without(open: set<int>, r: Range): (s: set<int>) { set x | x in open && !In(x, r) }

  /** The process's descriptor table, and the `close_range` calls made on it. */
  class FdTable {
    var open: set<int>
    var calls: seq<Range>
    var refused: bool

    predicate Valid()
      reads this
    {
      forall x :: x in open ==> 0 <= x <= INT_MAX
    }

    /** The system call: an inverted range is refused; any call may fail with part of its work done. */
    method CloseRange(low: int, high: int) returns (rc: int)
      requires 0 <= low <= UINT_MAX && 0 <= high <= UINT_MAX
      modifies this
      ensures calls == old(calls) + [Range(low, high)]
      ensures rc == 0 || rc == -1
      ensures rc == 0 ==> low <= high && open == Without(old(open), Range(low, high)) && refused == old(refused)
      ensures rc == -1 ==> refused && Without(old(open), Range(low, high)) <= open <= old(open)
    {
      calls := calls + [Range(low, high)];
      var fails: bool, left: set<int> := *, *;
      if low > high || fails {
        refused := true;
        open := Without(open, Range(low, high)) + open * left;
        return -1;
      }
      open := Without(open, Range(low, high));
      return 0;
    }
  }

  // ----- what is to be kept --------------------------------------------------------------

  predicate Ascending(ds: seq<int>) { forall i, j :: 0 <= i < j < |ds| ==> ds[i] < ds[j] }

  function Elements(ds: seq<int>): (s: set<int>) { set d | d in ds }

  /** The descriptors named, a negative number naming none. */
  function Named(ds: seq<int>): (s: set<int>) { set d | d in ds && d >= 0 }

  /** No standard descriptor is named, and none twice. */
  predicate Acceptable(ds: seq<int>) {
    && (forall d :: d in ds ==> d < 0 || d >= 3)
    && (forall i, j :: 0 <= i < j < |ds| ==> ds[i] < 0 || ds[i] != ds[j])
  }

  /** The numbers from `start` up to `d`, as a range if there are any. */
  function Gap(start: int, d: int): (rs: seq<Range>) {
    if d > start then [Range(start, d - 1)] else []
  }

  /** The gaps between the kept descriptors, from `start` to the end of the number space. */
  function Gaps(ds: seq<int>, start: int): (rs: seq<Range>)
    ensures rs != []
  {
    if ds == [] then [Range(start, UINT_MAX)] else Gap(start, ds[0]) + Gaps(ds[1..], ds[0] + 1)
  }

  lemma TailAscends(ds: seq<int>)
    requires Ascending(ds) && ds != []
    ensures Ascending(ds[1..]) && forall d :: d in ds[1..] ==> d > ds[0] && d in ds
  {
    forall i, j | 0 <= i < j < |ds| - 1 ensures ds[1..][i] < ds[1..][j] {
      assert ds[i + 1] < ds[j + 1];
    }
  }

  /** Where the last gap starts. */
  function Next(ds: seq<int>, start: int): (n: int) { if ds == [] then start else ds[|ds| - 1] + 1 }

  lemma {:induction false} GapsSnoc(ds: seq<int>, d: int, start: int)
    ensures var gaps := Gaps(ds, start);
            && gaps == gaps[..|gaps| - 1] + [Range(Next(ds, start), UINT_MAX)]
            && Gaps(ds + [d], start) == gaps[..|gaps| - 1] + Gap(Next(ds, start), d) + [Range(d + 1, UINT_MAX)]
  {
    hide Gap;
    if ds == [] {
      assert ([] + [d])[1..] == [];
      assert Gaps([d], start) == Gap(start, d) + [Range(d + 1, UINT_MAX)];
      assert [] + [d] == [d];
    } else {
      assert (ds + [d])[1..] == ds[1..] + [d];
      var head, gaps := Gap(start, ds[0]), Gaps(ds[1..], ds[0] + 1);
      GapsSnoc(ds[1..], d, ds[0] + 1);
      assert (head + gaps)[..|head + gaps| - 1] == head + gaps[..|gaps| - 1];
    }
  }

  /** The gaps are well ordered, and hold exactly the numbers from `start` up that are not kept. */
  lemma {:induction false} GapsMean(ds: seq<int>, start: int, x: int)
    requires Ascending(ds) && 0 <= start <= UINT_MAX && forall d :: d in ds ==> start <= d <= INT_MAX
    ensures forall r :: r in Gaps(ds, start) ==> start <= r.low <= r.high <= UINT_MAX
    ensures (exists r :: r in Gaps(ds, start) && In(x, r)) <==> start <= x <= UINT_MAX && x !in ds
  {
    if ds == [] {
      assert Range(start, UINT_MAX) in Gaps(ds, start);
    } else {
      var first, rest := ds[0], ds[1..];
      TailAscends(ds);
      assert first in ds;
      GapsMean(rest, first + 1, x);
      var gaps := Gaps(rest, first + 1);
      var head := Gap(start, first);
      assert Gaps(ds, start) == head + gaps;
      assert forall r :: r in Gaps(ds, start) <==> r in head || r in gaps;
      assert x in ds <==> x == first || x in rest;
      if start <= x < first {
        assert Range(start, first - 1) in Gaps(ds, start);
      } else if x > first && x <= UINT_MAX && x !in rest {
        var r :| r in gaps && In(x, r);
        assert r in Gaps(ds, start);
      }
    }
  }

  lemma Inhabited(ds: seq<int>)
    ensures ds != [] ==> ds[0] in Elements(ds)
  {}

  /** One set has one ascending listing, so two functions that close its gaps make the same calls. */
  lemma {:induction false} OneListing(a: seq<int>, b: seq<int>)
    requires Ascending(a) && Ascending(b) && Elements(a) == Elements(b)
    ensures a == b
  {
    if a == [] {
      Inhabited(b);
    } else {
      assert a[0] in Elements(a) && a[0] in Elements(b);
      assert b[0] in Elements(b) && b[0] in Elements(a);
      assert a[0] == b[0];
      TailAscends(a);
      TailAscends(b);
      forall x ensures x in a[1..] <==> x in Elements(a) - {a[0]} {
        if x in a[1..] { assert x in a; }
      }
      forall x ensures x in b[1..] <==> x in Elements(b) - {b[0]} {
        if x in b[1..] { assert x in b; }
      }
      assert Elements(a[1..]) == Elements(b[1..]);
      OneListing(a[1..], b[1..]);
    }
  }

  /** What a successful call leaves: the standard three and what was named, and the calls it made. */
  ghost predicate Kept(before: set<int>, after: set<int>, made: seq<Range>, named: seq<int>, listed: seq<int>) {
    && after == (set x | x in before && (0 <= x < 3 || x in named))
    && Ascending(listed) && Elements(listed) == Named(named)
    && made == Gaps(listed, 3)
  }

  /** Neither a standard descriptor nor a named one is closed, whatever fails. */
  predicate Spared(before: set<int>, after: set<int>, named: seq<int>) {
    after <= before && forall x :: x in before && (0 <= x < 3 || x in named) ==> x in after
  }

  lemma TwoNamed(a: int, b: int)
    ensures Acceptable([a, b]) <==> (a < 0 || a >= 3) && (b < 0 || b >= 3) && (a < 0 || a != b)
    ensures forall x :: x in [a, b] <==> x == a || x == b
  {
    var ds := [a, b];
    assert ds[0] == a && ds[1] == b;
    assert a in ds && b in ds;
  }

  predicate Rearranged(x: int, y: int, z: int, a: int, b: int, c: int) {
    || (x == a && y == b && z == c) || (x == a && y == c && z == b) || (x == b && y == a && z == c)
    || (x == b && y == c && z == a) || (x == c && y == a && z == b) || (x == c && y == b && z == a)
  }

  /** The exchange sort of the three slots. */
  method SortSlots(slots: array<int>)
    requires slots.Length == 3
    modifies slots
    ensures slots[0] <= slots[1] <= slots[2]
    ensures Rearranged(slots[0], slots[1], slots[2], old(slots[0]), old(slots[1]), old(slots[2]))
  {
    for i := 0 to 3
      invariant Rearranged(slots[0], slots[1], slots[2], old(slots[0]), old(slots[1]), old(slots[2]))
      invariant i > 0 ==> slots[0] <= slots[1] && slots[0] <= slots[2]
      invariant i > 1 ==> slots[1] <= slots[2]
    {
      for j := i + 1 to 3
        invariant Rearranged(slots[0], slots[1], slots[2], old(slots[0]), old(slots[1]), old(slots[2]))
        invariant i > 0 ==> slots[0] <= slots[1] && slots[0] <= slots[2]
        invariant i > 1 ==> slots[1] <= slots[2]
        invariant i == 0 && j > 1 ==> slots[0] <= slots[1]
        invariant i == 0 && j > 2 ==> slots[0] <= slots[2]
        invariant i == 1 && j > 2 ==> slots[1] <= slots[2]
      {
        if slots[j] < slots[i] { slots[i], slots[j] := slots[j], slots[i]; }
      }
    }
  }

  /** A slot is refused if it names a standard descriptor or repeats the slot before it. */
  predicate SlotOk(value: int, previous: int) { value < 0 || (value >= 3 && value != previous) }

  lemma ThreeNamed(a: int, b: int, c: int)
    ensures Acceptable([a, b, c]) <==>
              && (a < 0 || a >= 3) && (b < 0 || b >= 3) && (c < 0 || c >= 3)
              && (a < 0 || (a != b && a != c)) && (b < 0 || b != c)
    ensures forall x :: x in [a, b, c] <==> x == a || x == b || x == c
  {
    var ds := [a, b, c];
    assert ds[0] == a && ds[1] == b && ds[2] == c;
    assert a in ds && b in ds && c in ds;
    if (a < 0 || a >= 3) && (b < 0 || b >= 3) && (c < 0 || c >= 3) && (a < 0 || (a != b && a != c))
      && (b < 0 || b != c) {
      forall i, j | 0 <= i < j < 3 ensures ds[i] < 0 || ds[i] != ds[j] {}
    }
  }

  /** Sorted, a repetition is a repetition of a neighbour. */
  lemma SortedSlots(x: int, y: int, z: int, a: int, b: int, c: int)
    requires Rearranged(x, y, z, a, b, c) && x <= y <= z
    ensures Acceptable([a, b, c]) <==> SlotOk(x, -1) && SlotOk(y, x) && SlotOk(z, y)
    ensures forall v :: v in [a, b, c] <==> v == x || v == y || v == z
  {
    ThreeNamed(a, b, c);
  }

  /** Everything below `start` that is not listed has been closed, by exactly the gaps passed so far. */
  predicate Closing(before: set<int>, open: set<int>, made: seq<Range>, listed: seq<int>, start: int) {
    && Ascending(listed) && (forall x :: x in listed ==> 3 <= x < start)
    && 3 <= start <= INT_MAX + 1 && start == Next(listed, 3)
    && open == (set x | x in before && (x < 3 || x >= start || x in listed))
    && made + [Range(start, UINT_MAX)] == Gaps(listed, 3)
  }

  lemma ClosingStarts(before: set<int>)
    ensures Closing(before, before, [], [], 3)
  {}

  lemma ClosingSkips(before: set<int>, open: set<int>, made: seq<Range>, listed: seq<int>, start: int, d: int)
    requires Closing(before, open, made, listed, start) && start <= d <= INT_MAX
    ensures var r := Range(start, d - 1);
            Closing(before, if d > start then Without(open, r) else open, made + Gap(start, d), listed + [d], d + 1)
  {
    hide Gaps;
    var r, gaps := Range(start, d - 1), Gaps(listed, 3);
    assert made == gaps[..|gaps| - 1];
    GapsSnoc(listed, d, 3);
    var now := if d > start then Without(open, r) else open;
    forall x ensures x in now <==> x in before && (x < 3 || x >= d + 1 || x in listed + [d]) {
      assert x in listed + [d] <==> x in listed || x == d;
    }
  }

  lemma ClosingEnds(before: set<int>, open: set<int>, made: seq<Range>, listed: seq<int>, start: int, named: seq<int>)
    requires Closing(before, open, made, listed, start) && Elements(listed) == Named(named)
    requires forall x :: x in before ==> 0 <= x <= INT_MAX
    ensures Kept(before, Without(open, Range(start, UINT_MAX)), made + [Range(start, UINT_MAX)], named, listed)
  {
    assert forall x :: x in listed <==> x in Elements(listed);
    assert forall x :: x in Named(named) <==> x in named && x >= 0;
  }

  lemma ClosingSpares(before: set<int>, open: set<int>, made: seq<Range>, listed: seq<int>, start: int,
                      named: seq<int>, high: int,
                     now: set<int>)
    requires Closing(before, open, made, listed, start) && high >= start - 1
    requires forall x :: x in named && x >= 0 ==> x in listed || x < 3 || x > high
    requires forall x :: x in before ==> 0 <= x <= INT_MAX
    requires Without(open, Range(start, high)) <= now <= open
    ensures Spared(before, now, named)
  {
    forall x | x in before && (0 <= x < 3 || x in named) ensures x in now {
      assert x in Without(open, Range(start, high));
    }
  }

  /** One gap between two kept descriptors. */
  method CloseGap(table: FdTable, start: int, descriptor: int, ghost before: set<int>, ghost made: seq<Range>,
                  ghost listed: seq<int>, ghost named: seq<int>)
    returns (rc: int)
    requires table.Valid() && !table.refused && start < descriptor <= INT_MAX
    requires Closing(before, table.open, made, listed, start) && forall x :: x in before ==> 0 <= x <= INT_MAX
    requires forall x :: x in named && x >= 0 ==> x in listed || x < 3 || x >= descriptor
    modifies table
    ensures table.Valid() && table.calls == old(table.calls) + Gap(start, descriptor)
    ensures Spared(before, table.open, named)
    ensures rc == 0 || rc == -1
    ensures table.refused <==> rc != 0
    ensures rc == 0 ==> table.open == Without(old(table.open), Range(start, descriptor - 1))
  {
    hide Closing, Spared;
    ClosingBounds(before, table.open, made, listed, start);
    rc := table.CloseRange(start, descriptor - 1);
    ClosingSpares(before, old(table.open), made, listed, start, named, descriptor - 1, table.open);
  }

  /** The last gap, up to the end of the number space. */
  method CloseRest(table: FdTable, start: int, ghost before: set<int>, ghost made: seq<Range>, ghost listed: seq<int>,
                   ghost named: seq<int>)
    returns (rc: int)
    requires table.Valid() && !table.refused
    requires Closing(before, table.open, made, listed, start) && forall x :: x in before ==> 0 <= x <= INT_MAX
    requires forall x :: x in listed <==> x in named && x >= 0
    modifies table
    ensures table.Valid() && table.calls == old(table.calls) + [Range(start, UINT_MAX)]
    ensures Spared(before, table.open, named)
    ensures rc == 0 || rc == -1
    ensures table.refused <==> rc != 0
    ensures rc == 0 ==> Kept(before, table.open, made + [Range(start, UINT_MAX)], named, listed)
  {
    hide Closing, Spared, Kept;
    ClosingBounds(before, table.open, made, listed, start);
    rc := table.CloseRange(start, UINT_MAX);
    ClosingSpares(before, old(table.open), made, listed, start, named, UINT_MAX, table.open);
    if rc == 0 {
      forall v ensures v in Elements(listed) <==> v in Named(named) {}
      ClosingEnds(before, old(table.open), made, listed, start, named);
    }
  }

  lemma ClosingBounds(before: set<int>, open: set<int>, made: seq<Range>, listed: seq<int>, start: int)
    requires Closing(before, open, made, listed, start)
    ensures 3 <= start <= INT_MAX + 1
  {}

  lemma CallsSince(before: seq<Range>, calls: seq<Range>, more: seq<Range>)
    requires before <= calls
    ensures before <= calls + more && (calls + more)[|before|..] == calls[|before|..] + more
  {}

  /** `close_inherited_descriptors`. */
  method CloseInherited(table: FdTable, firstArgument: Fd, secondArgument: Fd) returns (rc: int, ghost listed: seq<int>)
    requires table.Valid() && !table.refused
    modifies table
    ensures table.Valid() && old(table.calls) <= table.calls
    ensures rc == 0 <==> Acceptable([firstArgument, secondArgument]) && !table.refused
    ensures rc == 0 ==>
              Kept(old(table.open), table.open, table.calls[|old(table.calls)|..], [firstArgument, secondArgument],
                   listed)
    ensures Spared(old(table.open), table.open, [firstArgument, secondArgument])
    ensures rc != 0 && !table.refused ==> rc == -1 && table.open == old(table.open) && table.calls == old(table.calls)
  {
    hide Closing, Kept, Acceptable, Spared;
    ghost var named := [firstArgument, secondArgument];
    TwoNamed(firstArgument, secondArgument);
    var first, second := firstArgument, secondArgument;
    listed := [];
    ClosingStarts(table.open);
    ClosingSpared(table.open, table.open, [], [], 3, named);
    if first < 0 { first, second := second, -1; }
    if second >= 0 && second < first { first, second := second, first; }
    if first < 0 {
      rc := CloseRest(table, 3, old(table.open), [], [], named);
      assert table.calls[|old(table.calls)|..] == [] + [Range(3, UINT_MAX)];
      return;
    }
    if first < 3 || (second >= 0 && (second < 3 || second == first)) { return -1, []; }
    if first > 3 {
      rc := CloseGap(table, 3, first, old(table.open), [], [], named);
      if rc != 0 { return -1, []; }
    }
    ghost var made := table.calls[|old(table.calls)|..];
    ClosingSkips(old(table.open), old(table.open), [], [], 3, first);
    assert made == [] + Gap(3, first) && [first] == [] + [first];
    listed := [first];
    if second >= 0 {
      ghost var open, calls := table.open, table.calls;
      if second > first + 1 {
        rc := CloseGap(table, first + 1, second, old(table.open), made, listed, named);
        if rc != 0 { return -1, []; }
      }
      ClosingSkips(old(table.open), open, made, listed, first + 1, second);
      assert table.calls == calls + Gap(first + 1, second);
      CallsSince(old(table.calls), calls, Gap(first + 1, second));
      made := table.calls[|old(table.calls)|..];
      assert [first, second] == [first] + [second];
      listed := [first, second];
      first := second;
    }
    ghost var calls := table.calls;
    rc := CloseRest(table, first + 1, old(table.open), made, listed, named);
    CallsSince(old(table.calls), calls, [Range(first + 1, UINT_MAX)]);
  }

  /** What the slots before `i` amount to. */
  ghost predicate Listed(listed: seq<int>, x: int, y: int, z: int, i: int) {
    forall v :: v in listed <==> v >= 0 && ((i > 0 && v == x) || (i > 1 && v == y) || (i > 2 && v == z))
  }

  /** `close_inherited_descriptors_with_workspace`. */
  method CloseInheritedWithWorkspace(table: FdTable, first: Fd, second: Fd, workspace: Fd)
    returns (rc: int, ghost listed: seq<int>)
    requires table.Valid() && !table.refused
    modifies table
    ensures table.Valid() && old(table.calls) <= table.calls
    ensures rc == 0 <==> Acceptable([first, second, workspace]) && !table.refused
    ensures rc == 0 ==>
              Kept(old(table.open), table.open, table.calls[|old(table.calls)|..], [first, second, workspace], listed)
    ensures Spared(old(table.open), table.open, [first, second, workspace])
  {
    hide Closing, Kept, Spared, Acceptable, Without, Named;
    if workspace < 0 {
      rc, listed := CloseInherited(table, first, second);
      WithoutWorkspace(old(table.open), table.open, first, second, workspace);
      return;
    }
    var slots := new int[3];
    slots[0], slots[1], slots[2] := first, second, workspace;
    SortSlots(slots);
    rc, listed := CloseSlots(table, slots, [first, second, workspace]);
  }

  /** The loop over the sorted slots. */
  method CloseSlots(table: FdTable, slots: array<int>, ghost named: seq<int>) returns (rc: int, ghost listed: seq<int>)
    requires table.Valid() && !table.refused && slots.Length == 3 && |named| == 3
    requires slots[0] <= slots[1] <= slots[2] <= INT_MAX
    requires Rearranged(slots[0], slots[1], slots[2], named[0], named[1], named[2])
    modifies table
    ensures table.Valid() && old(table.calls) <= table.calls
    ensures rc == 0 <==> Acceptable(named) && !table.refused
    ensures rc == 0 ==> Kept(old(table.open), table.open, table.calls[|old(table.calls)|..], named, listed)
    ensures Spared(old(table.open), table.open, named)
  {
    hide Closing, Kept, Spared, Acceptable, Rearranged;
    ghost var x, y, z := slots[0], slots[1], slots[2];
    assert named == [named[0], named[1], named[2]];
    SortedSlots(x, y, z, named[0], named[1], named[2]);
    var start := 3;
    listed := [];
    ClosingStarts(table.open);
    assert table.calls[|table.calls|..] == [];
    for i := 0 to 3
      invariant table.Valid() && old(table.calls) <= table.calls && !table.refused
      invariant Closing(old(table.open), table.open, table.calls[|old(table.calls)|..], listed, start)
      invariant (i > 0 ==> SlotOk(x, -1) && x < start) && (i > 1 ==> SlotOk(y, x) && y < start)
                && (i > 2 ==> SlotOk(z, y) && z < start)
      invariant (i == 1 && x >= 0 ==> start == x + 1) && (i == 2 && y >= 0 ==> start == y + 1)
      invariant 3 <= start <= INT_MAX + 1
      invariant start == 3 || (i > 0 && start <= slots[i - 1] + 1)
      invariant Listed(listed, x, y, z, i)
    {
      ghost var open, made := table.open, table.calls[|old(table.calls)|..];
      if slots[i] >= 0 {
        if slots[i] < 3 || (i > 0 && slots[i] == slots[i - 1]) {
          ClosingSpared(old(table.open), open, made, listed, start, named);
          return -1, [];
        }
        var descriptor := slots[i];
        if descriptor > start {
          rc := CloseGap(table, start, descriptor, old(table.open), made, listed, named);
          if rc != 0 { return -1, []; }
        }
        assert table.calls[|old(table.calls)|..] == made + Gap(start, descriptor);
        ClosingSkips(old(table.open), open, made, listed, start, descriptor);
        listed := listed + [descriptor];
        start := descriptor + 1;
      }
    }
    ghost var open, made := table.open, table.calls[|old(table.calls)|..];
    rc := CloseRest(table, start, old(table.open), made, listed, named);
    assert table.calls[|old(table.calls)|..] == made + [Range(start, UINT_MAX)];
  }

  lemma ClosingSpared(before: set<int>, open: set<int>, made: seq<Range>, listed: seq<int>, start: int, named: seq<int>)
    requires Closing(before, open, made, listed, start)
    requires forall x :: x in named && x >= 0 ==> x in listed || x < 3 || x >= start
    ensures Spared(before, open, named)
  {}

  lemma WithoutWorkspace(before: set<int>, after: set<int>, first: int, second: int, workspace: int)
    requires workspace < 0 && forall x :: x in before ==> x >= 0
    ensures Acceptable([first, second, workspace]) <==> Acceptable([first, second])
    ensures Spared(before, after, [first, second]) ==> Spared(before, after, [first, second, workspace])
    ensures forall made, listed ::
              Kept(before, after, made, [first, second], listed) ==>
                Kept(before, after, made, [first, second, workspace], listed)
  {
    TwoNamed(first, second);
    ThreeNamed(first, second, workspace);
    assert Named([first, second, workspace]) == Named([first, second]);
  }

  /** Two successful closings that keep the same descriptors leave the same table by the same calls. */
  lemma SameKeptSameCalls(before: set<int>, a: set<int>, b: set<int>, madeA: seq<Range>, madeB: seq<Range>,
                          namedA: seq<int>, namedB: seq<int>, listedA: seq<int>, listedB: seq<int>)
    requires (forall x :: x in before ==> x >= 0) && Named(namedA) == Named(namedB)
    requires Kept(before, a, madeA, namedA, listedA) && Kept(before, b, madeB, namedB, listedB)
    ensures a == b && madeA == madeB
  {
    OneListing(listedA, listedB);
    forall x ensures x >= 0 ==> (x in namedA <==> x in namedB) {
      assert x in Named(namedA) <==> x in namedA && x >= 0;
      assert x in Named(namedB) <==> x in namedB && x >= 0;
    }
  }

  /** Every range a successful closing passed was well ordered and spared nothing else. */
  lemma CallsWellOrdered(before: set<int>, after: set<int>, made: seq<Range>, named: seq<int>, listed: seq<int>, x: int)
    requires Kept(before, after, made, named, listed) && Acceptable(named)
    requires forall d :: d in named ==> d <= INT_MAX
    ensures forall r :: r in made ==> 3 <= r.low <= r.high <= UINT_MAX
    ensures (exists r :: r in made && In(x, r)) <==> 3 <= x <= UINT_MAX && x !in named
  {
    forall d ensures d in listed <==> d in named && d >= 0 {
      assert d in Elements(listed) <==> d in Named(named);
    }
    GapsMean(listed, 3, x);
  }
}
