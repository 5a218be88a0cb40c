/**
 The installed-source probe's ledger of native calls.  It sees one callback at a time and only
 decides at the end; what its success means is stated about the callbacks alone.
 */
module TraceMonitor {
  import opened Bytes

  const MAX_NODES: nat := 32
  const MAX_ALLOCATIONS: nat := 128

  datatype Verdict = Pass | Refused(reason: string) | Unexplained

  /** One wrapped call and how it came back; `None` results are calls that raised. */
  datatype Callback =
    | BackendMade
    | Opened(resource: int, result: Option<int>)
    | CloseCalled(handle: int, result: Option<int>)
    | QueryEntered(handle: int)
    | QueryLeft
    | InfoReturned(pointer: int, raised: bool)
    | FreeCalled(pointer: int, returnedNull: bool)
    | ReadReturned(content: Option<Bytes>, before: nat)
    | PolicyReturned(raw: Bytes, verdict: Verdict)

  type Log = seq<Callback>

  // ----- the log, on its own ----------------------------------------------------------------

  /** The handles a resource's backend opened, in order. */
  function Opens(log: Log, resource: int): (hs: seq<int>) {
    if log == [] then []
    else
      var c := log[|log| - 1];
      Opens(log[..|log| - 1], resource)
      + if c.Opened? && c.resource == resource && c.result.Some? then [c.result.value] else []
  }

  /** Helper nodes first, then verifier nodes. */
  function Acquired(log: Log): (hs: seq<int>) { Opens(log, 0) + Opens(log, 1) }

  function Closes(log: Log): (cs: seq<(int, Option<int>)>) {
    if log == [] then []
    else
      var c := log[|log| - 1];
      Closes(log[..|log| - 1]) + if c.CloseCalled? then [(c.handle, c.result)] else []
  }

  /** The handle whose security is being queried, if it is one that was opened. */
  function Current(log: Log): (h: Option<int>) {
    if log == [] then None
    else
      var front, c := log[..|log| - 1], log[|log| - 1];
      match c
      case QueryEntered(handle) => if handle in Acquired(front) then Some(handle) else None
      case QueryLeft => None
      case _ => Current(front)
  }

  function Reads(log: Log): (rs: seq<(Option<int>, Bytes)>) {
    if log == [] then []
    else
      var front, c := log[..|log| - 1], log[|log| - 1];
      Reads(front) + if c.ReadReturned? && c.content.Some? then [(Current(front), c.content.value)] else []
  }

  function Policies(log: Log): (ps: seq<(Bytes, Verdict)>) {
    if log == [] then []
    else
      var c := log[|log| - 1];
      Policies(log[..|log| - 1]) + if c.PolicyReturned? then [(c.raw, c.verdict)] else []
  }

  /** The handles behind every owned buffer, in order. */
  function Buffers(log: Log): (bs: seq<Option<int>>) {
    if log == [] then []
    else
      var front, c := log[..|log| - 1], log[|log| - 1];
      Buffers(front) + if c.InfoReturned? && c.pointer != 0 then [Current(front)] else []
  }

  function Backends(log: Log): (n: nat) {
    if log == [] then 0 else Backends(log[..|log| - 1]) + if log[|log| - 1].BackendMade? then 1 else 0
  }

  /** Whether a pointer's last generation is still owned; `None` if it was ever owned twice at once or freed unowned. */
  function Owned(log: Log, pointer: int): (o: Option<bool>) {
    if log == [] then Some(false)
    else
      var before, c := Owned(log[..|log| - 1], pointer), log[|log| - 1];
      if c.InfoReturned? && c.pointer == pointer && pointer != 0 then
        (if before == Some(false) then Some(true) else None)
      else if c.FreeCalled? && c.pointer == pointer then (if before == Some(true) then Some(false) else None)
      else before
  }

  /** The last owned buffer. */
  function LastPointer(log: Log): (p: int) {
    if log == [] then 0
    else
      var c := log[|log| - 1];
      if c.InfoReturned? && c.pointer != 0 then c.pointer else LastPointer(log[..|log| - 1])
  }

  /** A callback the ledger has nothing to hold against, after the callbacks of `log`. */
  predicate Fits(log: Log, c: Callback) {
    match c
    case Opened(resource, result) =>
      && result.Some? && (resource == 0 || resource == 1) && |Opens(log, resource)| < MAX_NODES
      && result.value !in Acquired(log)
    case CloseCalled(handle, result) =>
      && result.Some? && result.value != 0 && handle in Acquired(log)
      && forall i :: 0 <= i < |Closes(log)| ==> Closes(log)[i].0 != handle
    case InfoReturned(pointer, raised) =>
      && !raised
      && (pointer != 0 ==> Current(log).Some? && Owned(log, pointer) == Some(false) && |Buffers(log)| < MAX_ALLOCATIONS)
    case FreeCalled(pointer, returnedNull) => returnedNull && Owned(log, pointer) == Some(true)
    case ReadReturned(content, before) => content.Some? && OneFreshBuffer(log, before)
    case PolicyReturned(raw, verdict) => verdict != Unexplained && TwoEqualReads(log, raw)
    case _ => true
  }

  /** The read owned exactly one buffer, through the handle being queried, and it has been freed again. */
  predicate OneFreshBuffer(log: Log, before: nat) {
    && |Buffers(log)| == before + 1 && Current(log).Some? && Buffers(log)[before] == Current(log)
    && Owned(log, LastPointer(log)) == Some(false)
  }

  /** The next handle in line was read twice since the last decision, both times as `raw`, and nothing was refused. */
  predicate TwoEqualReads(log: Log, raw: Bytes) {
    var n := |Policies(log)|;
    && |Reads(log)| == 2 * n + 2 && n < |Acquired(log)|
    && Reads(log)[2 * n] == (Some(Acquired(log)[n]), raw) && Reads(log)[2 * n + 1] == (Some(Acquired(log)[n]), raw)
    && (n > 0 ==> Policies(log)[n - 1].1 == Pass)
  }

  predicate Faultless(log: Log) {
    forall i :: 0 <= i < |log| ==> Fits(log[..i], log[i])
  }

  function Reversed<T>(s: seq<T>): (r: seq<T>)
    ensures |r| == |s|
  {
    seq(|s|, i requires 0 <= i < |s| => s[|s| - 1 - i])
  }

  predicate Distinct(hs: seq<int>) { forall i, j :: 0 <= i < j < |hs| ==> hs[i] != hs[j] }

  /** Nothing is left open, owned, or read without a decision, and the handles were closed in reverse. */
  ghost predicate Balanced(log: Log) {
    && Backends(log) == 2 && 2 <= |Opens(log, 0)| && 2 <= |Opens(log, 1)|
    && |Closes(log)| == |Acquired(log)|
    && (forall i :: 0 <= i < |Closes(log)| ==> Closes(log)[i].0 == Reversed(Acquired(log))[i])
    && (forall pointer: int :: Owned(log, pointer) == Some(false))
    && |Policies(log)| <= |Acquired(log)|
    && |Reads(log)| == 2 * |Policies(log)| && |Buffers(log)| == |Reads(log)|
    && forall i :: 0 <= i < |Reads(log)| ==>
         Reads(log)[i].0 == Some(Acquired(log)[i / 2]) && Buffers(log)[i] == Some(Acquired(log)[i / 2])
  }

  /** What a receipt means, in terms of the callbacks alone. */
  ghost predicate Clean(log: Log) { Faultless(log) && Balanced(log) }

  /** What can be concluded from that about handles and decisions. */
  ghost predicate Orderly(log: Log) {
    && Distinct(Acquired(log)) && |Opens(log, 0)| <= MAX_NODES && |Opens(log, 1)| <= MAX_NODES
    && |Policies(log)| <= |Acquired(log)| && 2 * |Policies(log)| == |Reads(log)|
    && forall i :: 0 <= i < |Policies(log)| ==>
         && Reads(log)[2 * i] == (Some(Acquired(log)[i]), Policies(log)[i].0)
         && Reads(log)[2 * i + 1] == (Some(Acquired(log)[i]), Policies(log)[i].0)
         && (i + 1 < |Policies(log)| ==> Policies(log)[i].1 == Pass)
  }

  // ----- one more callback --------------------------------------------------------------------

  lemma Snoc(log: Log, c: Callback)
    ensures var l := log + [c];
            && (forall r: int ::
                  Opens(l, r) == Opens(log, r) + if c.Opened? && c.resource == r
                    && c.result.Some? then [c.result.value] else [])
            && Closes(l) == Closes(log) + (if c.CloseCalled? then [(c.handle, c.result)] else [])
            && Reads(l) == Reads(log) + (if c.ReadReturned? && c.content.Some? then [(Current(log), c.content.value)]
                                         else [])
            && Policies(l) == Policies(log) + (if c.PolicyReturned? then [(c.raw, c.verdict)] else [])
            && Buffers(l) == Buffers(log) + (if c.InfoReturned? && c.pointer != 0 then [Current(log)] else [])
            && Backends(l) == Backends(log) + (if c.BackendMade? then 1 else 0)
  {
    assert (log + [c])[..|log|] == log;
  }

  lemma SnocCurrent(log: Log, c: Callback)
    ensures Current(log + [c]) ==
              match c
              case QueryEntered(handle) => if handle in Acquired(log) then Some(handle) else None
              case QueryLeft => None
              case _ => Current(log)
  {
    assert (log + [c])[..|log|] == log;
  }

  lemma SnocOwned(log: Log, c: Callback, pointer: int)
    ensures Owned(log + [c], pointer) ==
              if c.InfoReturned? && c.pointer == pointer && pointer != 0 then
                (if Owned(log, pointer) == Some(false) then Some(true) else None)
              else if c.FreeCalled? && c.pointer == pointer then
                (if Owned(log, pointer) == Some(true) then Some(false) else None)
              else Owned(log, pointer)
  {
    assert (log + [c])[..|log|] == log;
  }

  lemma AlwaysFits(log: Log, c: Callback)
    requires c.BackendMade? || c.QueryEntered? || c.QueryLeft?
    ensures Fits(log, c)
  {}

  lemma SnocFaultless(log: Log, c: Callback)
    ensures Faultless(log + [c]) <==> Faultless(log) && Fits(log, c)
    ensures LastPointer(log + [c]) == if c.InfoReturned? && c.pointer != 0 then c.pointer else LastPointer(log)
  {
    hide Fits;
    var all := log + [c];
    assert all[..|log|] == log && all[|log|] == c;
    assert forall i :: 0 <= i < |log| ==> all[..i] == log[..i];
  }

  // ----- the ledger ---------------------------------------------------------------------------

  /** The `index`-th handle a resource opened. */
  datatype Node = Node(resource: int, index: nat)

  datatype Allocation = Allocation(node: Node, attempted: bool, confirmed: bool)

  datatype Event = Event(node: Node, result: Verdict)

  /** The node lists and the handle table follow the opens. */
  ghost predicate NodesFollow(log: Log, helper: seq<Node>, verifier: seq<Node>, handles: map<int, Node>) {
    && |helper| == |Opens(log, 0)| <= MAX_NODES && |verifier| == |Opens(log, 1)| <= MAX_NODES
    && (forall i :: 0 <= i < |helper| ==>
          helper[i] == Node(0, i) && Opens(log, 0)[i] in handles && handles[Opens(log, 0)[i]] == Node(0, i))
    && (forall i :: 0 <= i < |verifier| ==>
          verifier[i] == Node(1, i) && Opens(log, 1)[i] in handles && handles[Opens(log, 1)[i]] == Node(1, i))
    && (forall h :: h in handles ==>
          && (handles[h].resource == 0 || handles[h].resource == 1)
          && handles[h].index < |Opens(log, handles[h].resource)|
             && Opens(log, handles[h].resource)[handles[h].index] == h)
  }

  ghost predicate ClosesFollow(log: Log, handles: map<int, Node>, closed: seq<Node>) {
    && |closed| == |Closes(log)|
    && (forall i :: 0 <= i < |closed| ==> Closes(log)[i].0 in handles && handles[Closes(log)[i].0] == closed[i])
  }

  /** A recorded node stands for a recorded handle. */
  predicate StandsFor(handles: map<int, Node>, node: Option<Node>, handle: Option<int>) {
    match handle
    case None => node == None
    case Some(h) => h in handles && node == Some(handles[h])
  }

  ghost predicate BuffersFollow(log: Log, handles: map<int, Node>, allocations: seq<Allocation>,
                                active: map<int, nat>) {
    && |allocations| == |Buffers(log)| && 0 !in active
    && (forall i :: 0 <= i < |allocations| ==> StandsFor(handles, Some(allocations[i].node), Buffers(log)[i]))
    && (forall p: int :: Owned(log, p) == Some(p in active))
    && (forall p :: p in active ==> active[p] < |allocations| && !allocations[active[p]].attempted)
    && (forall p, q :: p in active && q in active && p != q ==> active[p] != active[q])
    && (forall k :: 0 <= k < |allocations| && allocations[k].confirmed ==> allocations[k].attempted)
    && (forall p :: p in active && active[p] + 1 == |allocations| ==> p == LastPointer(log))
    && (LastPointer(log) in active ==> active[LastPointer(log)] + 1 == |allocations|)
    && Owing(allocations, active)
  }

  /** A buffer not known to be free is still owned through some pointer. */
  ghost predicate Owing(allocations: seq<Allocation>, active: map<int, nat>) {
    forall k: nat :: k < |allocations| && !allocations[k].confirmed ==> HeldBy(active, k)
  }

  ghost predicate HeldBy(active: map<int, nat>, k: nat) { exists p :: p in active && active[p] == k }

  lemma OwingMore(allocations: seq<Allocation>, active: map<int, nat>, p: int, a: Allocation)
    requires Owing(allocations, active) && p !in active
    ensures Owing(allocations + [a], active[p := |allocations|])
  {
    var more := active[p := |allocations|];
    assert p in more && more[p] == |allocations|;
    forall k | 0 <= k < |allocations| && !allocations[k].confirmed ensures HeldBy(more, k) {
      assert HeldBy(active, k);
      var q :| q in active && active[q] == k;
      assert q in more && more[q] == k;
    }
  }

  lemma OwingLess(allocations: seq<Allocation>, active: map<int, nat>, p: int, a: Allocation)
    requires Owing(allocations, active) && p in active && active[p] < |allocations| && a.confirmed
    ensures Owing(allocations[active[p] := a], active - {p})
  {
    var less := active - {p};
    forall k | 0 <= k < |allocations| && k != active[p] && !allocations[k].confirmed ensures HeldBy(less, k) {
      assert HeldBy(active, k);
      var q :| q in active && active[q] == k;
      assert q in less && less[q] == k;
    }
  }

  ghost predicate ReadsFollow(log: Log, handles: map<int, Node>, observed: seq<Option<Node>>,
                              pending: seq<(Option<Node>, Bytes)>, events: seq<Event>) {
    && |observed| == |Reads(log)| && |events| == |Policies(log)| && |Reads(log)| == 2 * |events| + |pending|
    && (forall i :: 0 <= i < |observed| ==> StandsFor(handles, observed[i], Reads(log)[i].0))
    && (forall k :: 0 <= k < |pending| ==> pending[k] == (observed[2 * |events| + k], Reads(log)[2 * |events| + k].1))
    && (forall i :: 0 <= i < |events| ==>
          && Reads(log)[2 * i].1 == Policies(log)[i].0 && Reads(log)[2 * i + 1].1 == Policies(log)[i].0
          && events[i].result == Policies(log)[i].1 && (i + 1 < |events| ==> events[i].result == Pass))
  }

  /** The ledger's fields. */
  datatype Books = Books(
    helper: seq<Node>,
    verifier: seq<Node>,
    backends: nat,
    handles: map<int, Node>,
    closed: seq<Node>,
    allocations: seq<Allocation>,
    active: map<int, nat>,
    observed: seq<Option<Node>>,
    pending: seq<(Option<Node>, Bytes)>,
    events: seq<Event>,
    current: Option<Node>)

  ghost predicate Follows(log: Log, b: Books) {
    && b.backends == Backends(log) && NodesFollow(log, b.helper, b.verifier, b.handles)
    && ClosesFollow(log, b.handles, b.closed) && BuffersFollow(log, b.handles, b.allocations, b.active)
    && ReadsFollow(log, b.handles, b.observed, b.pending, b.events) && StandsFor(b.handles, b.current, Current(log))
  }

  /** Each of the first `n` nodes, twice. */
  function Twice(nodes: seq<Node>, n: nat): (ns: seq<Option<Node>>)
    requires n <= |nodes|
  {
    seq(2 * n, i requires 0 <= i < 2 * n => Some(nodes[i / 2]))
  }

  function Owners(allocations: seq<Allocation>): (ns: seq<Option<Node>>) {
    seq(|allocations|, i requires 0 <= i < |allocations| => Some(allocations[i].node))
  }

  class Observation {
    var helper: seq<Node>
    var verifier: seq<Node>
    var backends: nat
    var handles: map<int, Node>
    var closed: seq<Node>
    var allocations: seq<Allocation>
    var active: map<int, nat>
    var observed: seq<Option<Node>>
    var pending: seq<(Option<Node>, Bytes)>
    var events: seq<Event>
    var current: Option<Node>
    var fault: bool
    ghost var log: Log

    ghost function State(): (b: Books)
      reads this
    {
      Books(helper, verifier, backends, handles, closed, allocations, active, observed, pending, events, current)
    }

    /** The flag is up exactly when some callback did not fit; until then the ledger follows the log. */
    ghost predicate Valid()
      reads this
    {
      (fault <==> !Faultless(log)) && (!fault ==> Follows(log, State()))
    }

    constructor ()
      ensures Valid() && log == []
    {
      helper, verifier, backends, handles, closed := [], [], 0, map[], [];
      allocations, active, observed, pending, events, current, fault := [], map[], [], [], [], None, false;
      log := [];
    }

    /** `Backend.__init__`. */
    method BackendCreated() returns (resource: nat)
      requires Valid()
      modifies this
      ensures Valid() && log == old(log) + [BackendMade]
    {
      hide Follows, Faultless, Fits, Opens, Closes, Reads, Policies, Buffers, Owned, Current, Backends, LastPointer,
        StandsFor;
      SnocFaultless(log, BackendMade);
      AlwaysFits(log, BackendMade);
      if !fault { BackendFollows(log, State()); }
      resource := backends;
      backends := backends + 1;
      log := log + [BackendMade];
    }

    /** `opened`, and an open that raised. */
    method HandleOpened(resource: int, result: Option<int>)
      requires Valid()
      modifies this
      ensures Valid() && log == old(log) + [Opened(resource, result)]
    {
      hide Follows, Faultless, Fits, Opens, Closes, Reads, Policies, Buffers, Owned, Current, Backends, LastPointer,
        StandsFor;
      var c := Opened(resource, result);
      SnocFaultless(log, c);
      if !fault { OpenFits(log, c, State()); }
      log := log + [c];
      if result == None || !(resource == 0 || resource == 1) {
        fault := true;
        return;
      }
      var nodes, handle := if resource == 0 then helper else verifier, result.value;
      if |nodes| >= MAX_NODES || handle in handles {
        fault := true;
        return;
      }
      var node := Node(resource, |nodes|);
      if !fault { OpenFollows(old(log), c, State()); }
      if resource == 0 { helper := helper + [node]; } else { verifier := verifier + [node]; }
      handles := handles[handle := node];
    }

    /** `close`, and a close that raised. */
    method HandleClosed(handle: int, result: Option<int>)
      requires Valid()
      modifies this
      ensures Valid() && log == old(log) + [CloseCalled(handle, result)]
    {
      hide Follows, Faultless, Fits, Opens, Closes, Reads, Policies, Buffers, Owned, Current, Backends, LastPointer,
        StandsFor;
      var c := CloseCalled(handle, result);
      SnocFaultless(log, c);
      if !fault { CloseFits(log, c, State()); }
      log := log + [c];
      if result == None || handle !in handles || handles[handle] in closed || result.value == 0 {
        fault := true;
        return;
      }
      if !fault { CloseFollows(old(log), c, State()); }
      closed := closed + [handles[handle]];
    }

    /** Entering and leaving `query_security`. */
    method Query(entering: bool, handle: int)
      requires Valid()
      modifies this
      ensures Valid() && log == old(log) + [if entering then QueryEntered(handle) else QueryLeft]
    {
      hide Follows, Faultless, Fits, Opens, Closes, Reads, Policies, Buffers, Owned, Current, Backends, LastPointer,
        StandsFor;
      var c := if entering then QueryEntered(handle) else QueryLeft;
      SnocFaultless(log, c);
      AlwaysFits(log, c);
      if !fault { QueryFollows(log, c, State()); }
      log := log + [c];
      current := if entering && handle in handles then Some(handles[handle]) else None;
    }

    /** `allocated`, after a query that returned or raised. */
    method InfoQueried(pointer: int, raised: bool)
      requires Valid()
      modifies this
      ensures Valid() && log == old(log) + [InfoReturned(pointer, raised)]
    {
      hide Follows, Faultless, Fits, Opens, Closes, Reads, Policies, Buffers, Owned, Current, Backends, LastPointer,
        StandsFor;
      var c := InfoReturned(pointer, raised);
      SnocFaultless(log, c);
      if !fault { InfoFits(log, c, State()); }
      log := log + [c];
      if raised { fault := true; }
      if pointer != 0 && (current == None || pointer in active || |allocations| >= MAX_ALLOCATIONS) {
        fault := true;
        return;
      }
      if !fault { InfoFollows(old(log), c, State()); }
      if pointer == 0 { return; }
      active := active[pointer := |allocations|];
      allocations := allocations + [Allocation(current.value, false, false)];
    }

    /** `freeing`, the release itself, and `freed`. */
    method Freed(pointer: int, returnedNull: bool)
      requires Valid()
      modifies this
      ensures Valid() && log == old(log) + [FreeCalled(pointer, returnedNull)]
    {
      hide Follows, Faultless, Fits, Opens, Closes, Reads, Policies, Buffers, Owned, Current, Backends, LastPointer,
        StandsFor;
      var c := FreeCalled(pointer, returnedNull);
      SnocFaultless(log, c);
      if !fault { FreeFits(log, c, State()); }
      log := log + [c];
      if pointer !in active || active[pointer] >= |allocations| || allocations[active[pointer]].attempted {
        fault := true;
        return;
      }
      var n := active[pointer];
      if !returnedNull {
        allocations := allocations[n := allocations[n].(attempted := true)];
        fault := true;
        return;
      }
      if !fault { FreeFollows(old(log), c, State()); }
      allocations := allocations[n := allocations[n].(attempted := true, confirmed := true)];
      active := active - {pointer};
    }

    /** The reader's `read`, with the number of allocations there were when it began. */
    method ReadDone(content: Option<Bytes>, before: nat)
      requires Valid() && before <= |allocations|
      modifies this
      ensures Valid() && log == old(log) + [ReadReturned(content, before)]
    {
      hide Follows, Faultless, Fits, Opens, Closes, Reads, Policies, Buffers, Owned, Current, Backends, LastPointer,
        StandsFor;
      var c := ReadReturned(content, before);
      SnocFaultless(log, c);
      if !fault { ReadFits(log, c, State()); }
      log := log + [c];
      if content == None {
        fault := true;
        return;
      }
      var mine := allocations[before..];
      if |mine| != 1 || Some(mine[0].node) != current || !mine[0].confirmed { fault := true; }
      if !fault { ReadFollows(old(log), c, State()); }
      observed := observed + [current];
      pending := pending + [(current, content.value)];
    }

    /** `policy`. */
    method PolicyDecided(raw: Bytes, verdict: Verdict)
      requires Valid()
      modifies this
      ensures Valid() && log == old(log) + [PolicyReturned(raw, verdict)]
    {
      hide Follows, Faultless, Fits, Opens, Closes, Reads, Policies, Buffers, Owned, Current, Backends, LastPointer,
        StandsFor;
      var c := PolicyReturned(raw, verdict);
      SnocFaultless(log, c);
      if !fault { PolicyFits(log, c, State()); }
      log := log + [c];
      if verdict == Unexplained {
        fault := true;
        return;
      }
      var acquired, ordinal := helper + verifier, |events|;
      if |pending| != 2 || ordinal >= |acquired|
        || (exists k :: 0 <= k < 2 && pending[k] != (Some(acquired[ordinal]), raw))
         || (events != [] && events[|events| - 1].result != Pass) {
        fault := true;
        return;
      }
      if !fault { PolicyFollows(old(log), c, State()); }
      events := events + [Event(acquired[ordinal], verdict)];
      pending := [];
    }

    /** `receipt`: it succeeds exactly when the callbacks are clean. */
    method Receipt() returns (ok: bool)
      requires Valid()
      ensures ok <==> Clean(log)
    {
      hide Follows, Faultless, Balanced, Reversed, Twice, Owners;
      if fault { return false; }
      var acquired := helper + verifier;
      SettledIsBalanced(log, State());
      if backends != 2 || !(2 <= |helper| <= MAX_NODES && 2 <= |verifier| <= MAX_NODES) { return false; }
      if closed != Reversed(acquired) || active != map[] || pending != [] { return false; }
      if |observed| != |allocations| || |observed| != 2 * |events| || |events| > |acquired| { return false; }
      var expected := Twice(acquired, |events|);
      if observed != expected || Owners(allocations) != expected { return false; }
      if exists i :: 0 <= i < |allocations| && !allocations[i].confirmed { return false; }
      ok := true;
    }
  }

  /** The receipt's own test. */
  predicate Settled(b: Books) {
    var acquired := b.helper + b.verifier;
    && b.backends == 2 && 2 <= |b.helper| <= MAX_NODES && 2 <= |b.verifier| <= MAX_NODES
    && b.closed == Reversed(acquired) && b.active == map[] && b.pending == []
    && |b.observed| == |b.allocations| == 2 * |b.events| && |b.events| <= |acquired|
    && b.observed == Twice(acquired, |b.events|) && Owners(b.allocations) == Twice(acquired, |b.events|)
    && forall i :: 0 <= i < |b.allocations| ==> b.allocations[i].confirmed
  }

  lemma AcquiredDistinct(log: Log, helper: seq<Node>, verifier: seq<Node>, handles: map<int, Node>)
    requires NodesFollow(log, helper, verifier, handles)
    ensures Distinct(Acquired(log)) && |Acquired(log)| == |helper + verifier|
    ensures forall i :: 0 <= i < |Acquired(log)| ==>
              Acquired(log)[i] in handles && handles[Acquired(log)[i]] == (helper + verifier)[i]
  {
    hide Opens;
    forall i | 0 <= i < |Acquired(log)|
      ensures Acquired(log)[i] in handles && handles[Acquired(log)[i]] == (helper + verifier)[i]
    {
      if i < |helper| { assert helper[i] == Node(0, i); }
        else { assert verifier[i - |helper|] == Node(1, i - |helper|); }
    }
    forall i, j | 0 <= i < j < |Acquired(log)| ensures Acquired(log)[i] != Acquired(log)[j] {
      assert (helper + verifier)[i] != (helper + verifier)[j];
    }
  }

  /** A node determines its handle. */
  lemma SameHandle(log: Log, helper: seq<Node>, verifier: seq<Node>, handles: map<int, Node>, g: int, h: int)
    requires NodesFollow(log, helper, verifier, handles) && g in handles && h in handles && handles[g] == handles[h]
    ensures g == h
  {
    hide Opens;
  }

  /** While the ledger follows the callbacks, its own test asks for exactly the balance. */
  lemma SettledIsBalanced(log: Log, b: Books)
    requires Follows(log, b)
    ensures Settled(b) <==> Balanced(log)
  {
    hide Follows, Settled, Balanced;
    if Settled(b) { SettledBalances(log, b); }
    if Balanced(log) { BalancedSettles(log, b); }
  }

  lemma SettledBalances(log: Log, b: Books)
    requires Follows(log, b) && Settled(b)
    ensures Balanced(log)
  {
    hide Opens, Closes, Reads, Policies, Buffers, Owned, Current, Backends;
    assert forall i :: 0 <= i < |b.observed| ==> b.observed[i] == Twice(b.helper + b.verifier, |b.events|)[i];
    assert forall i :: 0 <= i < |b.allocations| ==> Some(b.allocations[i].node) == Owners(b.allocations)[i];
    AcquiredDistinct(log, b.helper, b.verifier, b.handles);
    ClosedInReverse(log, b.helper, b.verifier, b.handles, b.closed);
    var acquired := Acquired(log);
    forall i | 0 <= i < 2 * |b.events|
      ensures Reads(log)[i].0 == Some(acquired[i / 2]) && Buffers(log)[i] == Some(acquired[i / 2])
    {
      assert StandsFor(b.handles, b.observed[i], Reads(log)[i].0);
      assert StandsFor(b.handles, Some(b.allocations[i].node), Buffers(log)[i]);
      SameHandle(log, b.helper, b.verifier, b.handles, Reads(log)[i].0.value, acquired[i / 2]);
      SameHandle(log, b.helper, b.verifier, b.handles, Buffers(log)[i].value, acquired[i / 2]);
    }
  }

  lemma ClosedInReverse(log: Log, helper: seq<Node>, verifier: seq<Node>, handles: map<int, Node>, closed: seq<Node>)
    requires NodesFollow(log, helper, verifier, handles) && ClosesFollow(log, handles, closed)
    requires closed == Reversed(helper + verifier)
    ensures |Closes(log)| == |Acquired(log)|
    ensures forall i :: 0 <= i < |Closes(log)| ==> Closes(log)[i].0 == Reversed(Acquired(log))[i]
  {
    hide Opens, Closes;
    AcquiredDistinct(log, helper, verifier, handles);
    forall i | 0 <= i < |Closes(log)| ensures Closes(log)[i].0 == Reversed(Acquired(log))[i] {
      var j := |Acquired(log)| - 1 - i;
      assert closed[i] == (helper + verifier)[j];
      SameHandle(log, helper, verifier, handles, Closes(log)[i].0, Acquired(log)[j]);
    }
  }

  lemma BalancedSettles(log: Log, b: Books)
    requires Follows(log, b) && Balanced(log)
    ensures Settled(b)
  {
    hide Opens, Closes, Reads, Policies, Buffers, Owned, Current, Backends;
    AcquiredDistinct(log, b.helper, b.verifier, b.handles);
    var nodes := b.helper + b.verifier;
    forall i | 0 <= i < |b.closed| ensures b.closed[i] == Reversed(nodes)[i] {
      assert Closes(log)[i].0 == Reversed(Acquired(log))[i];
    }
    assert b.closed == Reversed(nodes);
    forall p: int ensures p !in b.active {
      assert Owned(log, p) == Some(p in b.active);
    }
    assert b.active == map[];
    forall i | 0 <= i < 2 * |b.events|
      ensures b.observed[i] == Some(nodes[i / 2]) && Some(b.allocations[i].node) == Some(nodes[i / 2])
    {
      assert StandsFor(b.handles, b.observed[i], Reads(log)[i].0);
      assert StandsFor(b.handles, Some(b.allocations[i].node), Buffers(log)[i]);
    }
    assert b.observed == Twice(nodes, |b.events|) && Owners(b.allocations) == Twice(nodes, |b.events|);
  }

  // ----- what clean callbacks amount to --------------------------------------------------------

  /** Faultless callbacks always have a ledger that follows them. */
  lemma {:induction false} LedgerExists(log: Log) returns (b: Books)
    requires Faultless(log)
    ensures Follows(log, b)
  {
    hide Follows, Fits, Faultless;
    if log == [] {
      b := Books([], [], 0, map[], [], [], map[], [], [], [], None);
      NothingFollows(b);
    } else {
      var front, c := log[..|log| - 1], log[|log| - 1];
      assert log == front + [c];
      SnocFaultless(front, c);
      b := LedgerExists(front);
      b := OneMore(front, c, b);
    }
  }

  lemma NothingFollows(b: Books)
    requires b == Books([], [], 0, map[], [], [], map[], [], [], [], None)
    ensures Follows([], b)
  {}

  lemma OneMore(log: Log, c: Callback, b: Books) returns (after: Books)
    requires Follows(log, b) && Fits(log, c)
    ensures Follows(log + [c], after)
  {
    hide Follows, Fits;
    match c {
      case BackendMade =>
        BackendFollows(log, b);
        after := b.(backends := b.backends + 1);
      case Opened(resource, result) =>
        OpenFits(log, c, b);
        OpenFollows(log, c, b);
        after := WithOpen(b, c);
      case CloseCalled(handle, result) =>
        CloseFits(log, c, b);
        CloseFollows(log, c, b);
        after := b.(closed := b.closed + [b.handles[handle]]);
      case QueryEntered(handle) =>
        QueryFollows(log, c, b);
        after := b.(current := if handle in b.handles then Some(b.handles[handle]) else None);
      case QueryLeft =>
        QueryFollows(log, c, b);
        after := b.(current := None);
      case InfoReturned(pointer, raised) =>
        InfoFits(log, c, b);
        InfoFollows(log, c, b);
        after := WithBuffer(b, pointer);
      case FreeCalled(pointer, returnedNull) =>
        FreeFits(log, c, b);
        FreeFollows(log, c, b);
        after := WithoutBuffer(b, pointer);
      case ReadReturned(content, before) =>
        ReadFits(log, c, b);
        ReadFollows(log, c, b);
        after := b.(observed := b.observed + [b.current], pending := b.pending + [(b.current, content.value)]);
      case PolicyReturned(raw, verdict) =>
        PolicyFits(log, c, b);
        PolicyFollows(log, c, b);
        after := b.(pending := [], events := b.events + [Event((b.helper + b.verifier)[|b.events|], verdict)]);
    }
  }

  /** No handle is opened twice, and every decision rests on two equal reads of its own handle after a pass. */
  lemma CleanIsOrderly(log: Log)
    requires Clean(log)
    ensures Orderly(log)
  {
    hide Opens, Closes, Reads, Policies, Buffers, Owned, Current, Backends, Faultless;
    var b := LedgerExists(log);
    AcquiredDistinct(log, b.helper, b.verifier, b.handles);
    forall i | 0 <= i < |Policies(log)|
      ensures Reads(log)[2 * i] == (Some(Acquired(log)[i]), Policies(log)[i].0)
      ensures Reads(log)[2 * i + 1] == (Some(Acquired(log)[i]), Policies(log)[i].0)
      ensures i + 1 < |Policies(log)| ==> Policies(log)[i].1 == Pass
    {
      assert 2 * i / 2 == i && (2 * i + 1) / 2 == i;
      assert b.events[i].result == Policies(log)[i].1;
    }
  }

  /** A clean log closes every handle it opened exactly once. */
  lemma CleanClosesOnce(log: Log, h: int)
    requires Clean(log)
    ensures h in Acquired(log) <==> exists i :: 0 <= i < |Closes(log)| && Closes(log)[i].0 == h
    ensures forall i, j :: 0 <= i < j < |Closes(log)| ==> Closes(log)[i].0 != Closes(log)[j].0
  {
    hide Acquired, Closes, Reads, Policies, Buffers, Owned, Backends, Opens, Faultless;
    CleanIsOrderly(log);
    var acquired, closes := Acquired(log), Closes(log);
    forall i | 0 <= i < |closes| ensures closes[i].0 == acquired[|acquired| - 1 - i] && closes[i].0 in acquired {
      assert closes[i].0 == Reversed(acquired)[i];
    }
    if h in acquired {
      var j :| 0 <= j < |acquired| && acquired[j] == h;
      var k := |acquired| - 1 - j;
      assert 0 <= k < |Closes(log)| && Closes(log)[k].0 == h;
    }
  }

  // ----- the ledger's checks, and its updates ------------------------------------------------------

  lemma BackendFollows(log: Log, b: Books)
    requires Follows(log, b)
    ensures Follows(log + [BackendMade], b.(backends := b.backends + 1))
  {
    hide Opens, Closes, Reads, Policies, Buffers, Owned, Current, Backends, Owing, LastPointer;
    Snoc(log, BackendMade);
    SnocCurrent(log, BackendMade);
    SnocFaultless(log, BackendMade);
    forall p: int { SnocOwned(log, BackendMade, p); }
  }

  function NodesOf(b: Books, resource: int): (nodes: seq<Node>) { if resource == 0 then b.helper else b.verifier }

  lemma OpenFits(log: Log, c: Callback, b: Books)
    requires Follows(log, b) && c.Opened?
    ensures Fits(log, c) <==>
              && c.result.Some? && (c.resource == 0 || c.resource == 1) && |NodesOf(b, c.resource)| < MAX_NODES
              && c.result.value !in b.handles
  {
    hide Opens, Closes, Reads, Policies, Buffers, Owned, Current, Backends, BuffersFollow, ReadsFollow, ClosesFollow;
    if c.result.Some? { HandleIsAcquired(log, b.helper, b.verifier, b.handles, c.result.value); }
  }

  function WithOpen(b: Books, c: Callback): (after: Books)
    requires c.Opened? && c.result.Some?
  {
    var node := Node(c.resource, |NodesOf(b, c.resource)|);
    b.(helper := if c.resource == 0 then b.helper + [node] else b.helper,
       verifier := if c.resource == 0 then b.verifier else b.verifier + [node],
       handles := b.handles[c.result.value := node])
  }

  lemma OpenFollows(log: Log, c: Callback, b: Books)
    requires Follows(log, b) && c.Opened? && c.result.Some? && c.result.value !in b.handles
    requires (c.resource == 0 || c.resource == 1) && |NodesOf(b, c.resource)| < MAX_NODES
    ensures Follows(log + [c], WithOpen(b, c))
  {
    hide Opens, Closes, Reads, Policies, Buffers, Owned, Current, Backends, Owing, LastPointer;
    Snoc(log, c);
    SnocCurrent(log, c);
    SnocFaultless(log, c);
    forall p: int { SnocOwned(log, c, p); }
  }

  lemma CloseFits(log: Log, c: Callback, b: Books)
    requires Follows(log, b) && c.CloseCalled?
    ensures Fits(log, c) <==>
              c.result.Some? && c.result.value != 0 && c.handle in b.handles && b.handles[c.handle] !in b.closed
  {
    hide Opens, Closes, Reads, Policies, Buffers, Owned, Current, Backends, BuffersFollow, ReadsFollow;
    HandleIsAcquired(log, b.helper, b.verifier, b.handles, c.handle);
    if c.handle in b.handles {
      forall i | 0 <= i < |b.closed| ensures Closes(log)[i].0 == c.handle <==> b.closed[i] == b.handles[c.handle] {
        if b.closed[i] == b.handles[c.handle] {
          SameHandle(log, b.helper, b.verifier, b.handles, Closes(log)[i].0, c.handle);
        }
      }
    }
  }

  lemma CloseFollows(log: Log, c: Callback, b: Books)
    requires Follows(log, b) && c.CloseCalled? && c.handle in b.handles
    ensures Follows(log + [c], b.(closed := b.closed + [b.handles[c.handle]]))
  {
    hide Opens, Closes, Reads, Policies, Buffers, Owned, Current, Backends, Owing, LastPointer;
    Snoc(log, c);
    SnocCurrent(log, c);
    SnocFaultless(log, c);
    forall p: int { SnocOwned(log, c, p); }
  }

  lemma QueryFollows(log: Log, c: Callback, b: Books)
    requires Follows(log, b) && (c.QueryEntered? || c.QueryLeft?)
    ensures Follows(log + [c],
                    b.(current := if c.QueryEntered? && c.handle in b.handles then Some(b.handles[c.handle]) else None))
  {
    hide Opens, Closes, Reads, Policies, Buffers, Owned, Current, Backends, Owing, LastPointer;
    Snoc(log, c);
    SnocCurrent(log, c);
    SnocFaultless(log, c);
    forall p: int { SnocOwned(log, c, p); }
    if c.QueryEntered? { HandleIsAcquired(log, b.helper, b.verifier, b.handles, c.handle); }
  }

  lemma HandleIsAcquired(log: Log, helper: seq<Node>, verifier: seq<Node>, handles: map<int, Node>, h: int)
    requires NodesFollow(log, helper, verifier, handles)
    ensures h in handles <==> h in Acquired(log)
  {
    hide Opens;
    if h in handles {
      assert Opens(log, handles[h].resource)[handles[h].index] in Acquired(log);
    }
    if h in Opens(log, 0) {
      var i :| 0 <= i < |Opens(log, 0)| && Opens(log, 0)[i] == h;
      assert helper[i] == Node(0, i);
    }
    if h in Opens(log, 1) {
      var i :| 0 <= i < |Opens(log, 1)| && Opens(log, 1)[i] == h;
      assert verifier[i] == Node(1, i);
    }
  }

  lemma InfoFits(log: Log, c: Callback, b: Books)
    requires Follows(log, b) && c.InfoReturned?
    ensures Fits(log, c) <==>
              && !c.raised
              && (c.pointer != 0 ==> b.current.Some? && c.pointer !in b.active && |b.allocations| < MAX_ALLOCATIONS)
  {
    hide Opens, Closes, Reads, Policies, Buffers, Owned, Current, Backends, NodesFollow, ReadsFollow, ClosesFollow,
      Owing;
    assert Owned(log, c.pointer) == Some(c.pointer in b.active);
  }

  function WithBuffer(b: Books, pointer: int): (after: Books)
    requires pointer != 0 ==> b.current.Some?
  {
    if pointer == 0 then b
    else b.(allocations := b.allocations + [Allocation(b.current.value, false, false)],
            active := b.active[pointer := |b.allocations|])
  }

  lemma InfoFollows(log: Log, c: Callback, b: Books)
    requires Follows(log, b) && c.InfoReturned? && (c.pointer != 0 ==> b.current.Some? && c.pointer !in b.active)
    ensures Follows(log + [c], WithBuffer(b, c.pointer))
  {
    hide Opens, Closes, Reads, Policies, Buffers, Owned, Current, Backends, Owing, LastPointer;
    Snoc(log, c);
    SnocCurrent(log, c);
    SnocFaultless(log, c);
    forall p: int { SnocOwned(log, c, p); }
    if c.pointer != 0 { OwingMore(b.allocations, b.active, c.pointer, Allocation(b.current.value, false, false)); }
  }

  lemma FreeFits(log: Log, c: Callback, b: Books)
    requires Follows(log, b) && c.FreeCalled?
    ensures Fits(log, c) <==> c.returnedNull && c.pointer in b.active
    ensures c.pointer in b.active ==>
              && b.active[c.pointer] < |b.allocations|
              && !b.allocations[b.active[c.pointer]].attempted
  {
    hide Opens, Closes, Reads, Policies, Buffers, Owned, Current, Backends, NodesFollow, ReadsFollow, ClosesFollow,
      Owing;
    assert Owned(log, c.pointer) == Some(c.pointer in b.active);
  }

  function WithoutBuffer(b: Books, pointer: int): (after: Books)
    requires pointer in b.active && b.active[pointer] < |b.allocations|
  {
    var n := b.active[pointer];
    b.(allocations := b.allocations[n := b.allocations[n].(attempted := true, confirmed := true)],
       active := b.active - {pointer})
  }

  lemma FreeFollows(log: Log, c: Callback, b: Books)
    requires Follows(log, b) && c.FreeCalled? && c.pointer in b.active && b.active[c.pointer] < |b.allocations|
    ensures Follows(log + [c], WithoutBuffer(b, c.pointer))
  {
    hide Opens, Closes, Reads, Policies, Buffers, Owned, Current, Backends, Owing, LastPointer;
    Snoc(log, c);
    SnocCurrent(log, c);
    SnocFaultless(log, c);
    forall p: int { SnocOwned(log, c, p); }
    OwingLess(b.allocations, b.active, c.pointer, WithoutBuffer(b, c.pointer).allocations[b.active[c.pointer]]);
  }

  /** The newest buffer is confirmed free exactly when its pointer is not owned. */
  lemma LastFreed(log: Log, b: Books)
    requires Follows(log, b) && b.allocations != []
    ensures b.allocations[|b.allocations| - 1].confirmed <==> Owned(log, LastPointer(log)) == Some(false)
  {
    hide Opens, Closes, Reads, Policies, Buffers, Owned, Current, Backends, NodesFollow, ReadsFollow, ClosesFollow,
      LastPointer;
    var k, p := |b.allocations| - 1, LastPointer(log);
    assert Owned(log, p) == Some(p in b.active);
    if !b.allocations[k].confirmed {
      assert HeldBy(b.active, k);
      var q :| q in b.active && b.active[q] == k;
      assert q == p;
    }
  }

  lemma ReadFits(log: Log, c: Callback, b: Books)
    requires Follows(log, b) && c.ReadReturned?
    ensures Fits(log, c) <==>
              && c.content.Some? && c.before + 1 == |b.allocations|
              && Some(b.allocations[c.before].node) == b.current && b.allocations[c.before].confirmed
  {
    hide Opens, Closes, Reads, Policies, Buffers, Owned, Current, Backends, ReadsFollow, ClosesFollow, LastPointer,
      Owing;
    if c.before + 1 == |b.allocations| {
      LastFreed(log, b);
      assert StandsFor(b.handles, Some(b.allocations[c.before].node), Buffers(log)[c.before]);
      if b.current == Some(b.allocations[c.before].node) {
        SameHandle(log, b.helper, b.verifier, b.handles, Buffers(log)[c.before].value, Current(log).value);
      }
    }
  }

  lemma ReadFollows(log: Log, c: Callback, b: Books)
    requires Follows(log, b) && c.ReadReturned? && c.content.Some?
    ensures Follows(log + [c], b.(observed := b.observed + [b.current],
                                  pending := b.pending + [(b.current, c.content.value)]))
  {
    hide Opens, Closes, Reads, Policies, Buffers, Owned, Current, Backends, Owing, LastPointer;
    Snoc(log, c);
    SnocCurrent(log, c);
    SnocFaultless(log, c);
    forall p: int { SnocOwned(log, c, p); }
  }

  /** The ledger's test before a decision. */
  predicate Ready(b: Books, raw: Bytes) {
    var acquired := b.helper + b.verifier;
    && |b.pending| == 2 && |b.events| < |acquired|
    && (forall k :: 0 <= k < 2 ==> b.pending[k] == (Some(acquired[|b.events|]), raw))
    && (b.events == [] || b.events[|b.events| - 1].result == Pass)
  }

  lemma PolicyFits(log: Log, c: Callback, b: Books)
    requires Follows(log, b) && c.PolicyReturned?
    ensures Fits(log, c) <==> c.verdict != Unexplained && Ready(b, c.raw)
  {
    hide Opens, Closes, Reads, Policies, Buffers, Owned, Current, Backends, BuffersFollow, ClosesFollow, LastPointer;
    AcquiredDistinct(log, b.helper, b.verifier, b.handles);
    var n := |b.events|;
    if |b.pending| == 2 && n < |Acquired(log)| {
      PendingRead(log, b, c.raw, 0);
      PendingRead(log, b, c.raw, 1);
    }
    if n > 0 { assert b.events[n - 1].result == Policies(log)[n - 1].1; }
  }

  lemma PendingRead(log: Log, b: Books, raw: Bytes, k: nat)
    requires Follows(log, b) && k < |b.pending| && |b.events| < |Acquired(log)| == |b.helper + b.verifier|
    ensures 2 * |b.events| + k < |Reads(log)|
    ensures b.pending[k] == (Some((b.helper + b.verifier)[|b.events|]), raw)
            <==> Reads(log)[2 * |b.events| + k] == (Some(Acquired(log)[|b.events|]), raw)
  {
    hide Opens, Closes, Reads, Policies, Buffers, Owned, Current, Backends, BuffersFollow, ClosesFollow;
    AcquiredDistinct(log, b.helper, b.verifier, b.handles);
    var i, h := 2 * |b.events| + k, Acquired(log)[|b.events|];
    assert b.pending[k] == (b.observed[i], Reads(log)[i].1);
    assert StandsFor(b.handles, b.observed[i], Reads(log)[i].0);
    if b.observed[i] == Some(b.handles[h]) {
      SameHandle(log, b.helper, b.verifier, b.handles, Reads(log)[i].0.value, h);
    }
  }

  lemma PolicyFollows(log: Log, c: Callback, b: Books)
    requires Follows(log, b) && c.PolicyReturned? && Ready(b, c.raw)
    ensures Follows(log + [c],
                    b.(pending := [], events := b.events + [Event((b.helper + b.verifier)[|b.events|], c.verdict)]))
  {
    hide Opens, Closes, Reads, Policies, Buffers, Owned, Current, Backends, Owing, LastPointer;
    Snoc(log, c);
    SnocCurrent(log, c);
    SnocFaultless(log, c);
    forall p: int { SnocOwned(log, c, p); }
    var n := 2 * |b.events|;
    assert b.pending[0] == (b.observed[n + 0], Reads(log)[n + 0].1)
      && b.pending[1] == (b.observed[n + 1], Reads(log)[n + 1].1);
  }
}
