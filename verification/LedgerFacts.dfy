/**
 What the coordinator's methods may rely on when they hold a flushable ledger, and the relations
 their contracts use to say how one call moves the ledger and the world.
 */
module LedgerFacts {
  import opened Bytes
  import opened Sid
  import opened Snapshot
  import opened Ledger
  import opened Protocol
  import opened LedgerSteps

  // ----- what a flushable ledger lets its reader rely on -------------------------------

  lemma OwnedFacts(w: World, l: Ledger)
    requires Flushable(w, l) && l.owned
    ensures l.operation.Some? && ManifestOK(l.operation.value) && l.bootstrap.Some?
    ensures l.operation.value.identity == l.bootstrap.value.identity
    ensures BaselineUnowned(l.observations, l.operation.value.identity)
    ensures Seen(l.observations, Baseline).Some? && (w.foreign || Seen(l.observations, Baseline) == Some(w.original))
    ensures l.phase == AddIntent ==> !l.addVerified && !HasKind(l.commands, Delete) && !l.deleteVerified && !l.exact
    ensures l.exact ==> l.deleteVerified
    ensures l.deleteVerified ==> l.phase == Cleaned
    ensures l.deleteVerified == l.othersPreserved
    ensures l.readonlyPrepared && l.parent.Some?
  {
    hide SidBytes, MappingOf, RecordOK, FixedOK;
  }

  lemma OwnedCommands(w: World, l: Ledger)
    requires Flushable(w, l) && l.owned
    ensures l.readonlyPrepared && l.parent.Some?
    ensures l.phase == CleanupIntent ==> Commandable(l, Delete)
    ensures l.phase == AddIntent && !HasKind(l.commands, Add) ==> Commandable(l, Add)
  {
    hide Flushable, SidBytes, HasKind;
    OwnedFacts(w, l);
  }

  lemma UnownedFacts(w: World, l: Ledger)
    requires Flushable(w, l) && !l.owned
    ensures w.live == None && (w.foreign || w.table == w.original)
    ensures !l.exact && !l.deleteVerified && !l.addVerified && !HasKind(l.commands, Add) && !HasKind(l.commands, Delete)
    ensures l.phase == Frozen || l.phase == Prepared || l.phase == Bound
    ensures l.phase != Frozen ==> l.fixed.accountSid.Some?
    ensures l.bootstrap.Some? ==> BootstrapOK(l.bootstrap.value)
    ensures l.phase == Bound ==> l.bootstrap.Some? && l.readonlyPrepared && l.parent.Some?
    ensures l.phase == Prepared ==> l.operation == None
  {
    hide SidBytes, MappingOf, RecordOK, FixedOK;
  }

  lemma UnownedIfBound(w: World, l: Ledger)
    requires Flushable(w, l) && l.phase == Bound
    ensures !l.owned && w.live == None && l.readonlyPrepared && l.parent.Some? && !l.finishedConsumed
  {
    hide SidBytes, MappingOf, RecordOK, FixedOK;
  }

  lemma NotAddedYet(w: World, l: Ledger)
    requires Flushable(w, l) && !l.owned
    ensures AfterAdd !in l.observations
  {
    hide SidBytes, MappingOf, RecordOK, FixedOK;
  }

  lemma SmallFacts(w: World, l: Ledger)
    requires Flushable(w, l)
    ensures |l.readings| <= |l.commands| <= 32
    ensures forall n :: 0 <= n < |l.commands| ==> RecordOK(l.fixed.session, n, l.commands[n])
    ensures Follows(w.durable, l) && Accepted(l)
    ensures |w.durable.commands| <= |l.commands|
    ensures forall n :: 0 <= n < |w.durable.commands| ==> RecordFollows(w.durable.commands[n], l.commands[n])
    ensures l.phase == AddIntent || l.phase == Added || l.phase == CleanupIntent || l.phase == Cleaned ==> l.owned
    ensures l.owned ==> l.operation.Some?
    ensures forall n :: n in w.resumed ==> n < |l.commands|
  {
    hide SidBytes, MappingOf, RecordOK, RecordFollows, FixedOK;
  }

  lemma FlushedStays(w: World, l: Ledger)
    requires Flushable(w, l)
    ensures Flushable(w.(durable := l), l)
  {
    hide SidBytes, MappingOf, Accepted, InTime, Bounded;
    FollowsRefl(l);
  }

  lemma ChangedStays(w: World, l: Ledger, attributes: Option<int>)
    requires Flushable(w, l) && w.live.Some?
    ensures Flushable(Step(w, Changed(attributes)), l)
  {
    hide SidBytes, MappingOf, Accepted, InTime, Bounded, Follows;
  }

  lemma ForeignStays(w: World, l: Ledger, table: Table)
    requires Flushable(w, l)
    ensures Flushable(Step(w, Foreign(table)), l)
  {
    hide SidBytes, MappingOf, Accepted, InTime, Bounded, Follows;
  }

  lemma GoneStays(w: World, l: Ledger)
    requires Flushable(w, l)
    ensures Flushable(Step(w, Gone), l)
  {
    hide SidBytes, MappingOf, Accepted, InTime, Bounded, Follows;
  }

  lemma ServedStays(w: World, l: Ledger, r: Request)
    requires Flushable(w, l)
    ensures Flushable(Step(w, Served(r)), l)
  {
    hide SidBytes, MappingOf, Accepted, InTime, Bounded, Follows;
  }

  lemma ResumedStays(w: World, l: Ledger, n: nat, sid: Option<string>)
    requires Flushable(w, l) && !l.exact && (sid.Some? ==> l.owned)
    requires n < |l.commands| && l.commands[n].resumePermitted && l.commands[n].resumeAttempted == Some(true)
    ensures Flushable(Step(w, Resumed(n, sid)), l)
  {
    hide SidBytes, MappingOf, Accepted, InTime, Bounded, Follows;
    ResumeTruthful(w, n, sid, l);
  }

  lemma LiveFacts(w: World)
    requires Sound(w) && w.live.Some?
    ensures w.live.value < |w.durable.commands|
    ensures w.durable.commands[w.live.value].kind == Add || w.durable.commands[w.live.value].kind == Delete
  {
    hide SidBytes, MappingOf, Accepted, InTime, Bounded, Target;
  }

  lemma FreshStays(w: World)
    requires Sound(w)
    ensures Flushable(w, w.durable)
  {
    hide SidBytes, MappingOf, Accepted, InTime, Bounded, Target;
    FollowsRefl(w.durable);
  }

  lemma ServedNotYet(w: World, r: Request)
    requires Sound(w) && !Consumed(w.durable, r)
    ensures r !in w.served
  {
    hide SidBytes, MappingOf, Accepted, InTime, Bounded, Target;
  }

  lemma KindAt(commands: seq<Record>, n: nat)
    requires n < |commands|
    ensures HasKind(commands, commands[n].kind)
  {}

  lemma KindGrows(before: seq<Record>, after: seq<Record>, kind: Kind)
    requires HasKind(before, kind) && |before| <= |after| && after[..|before|] == before
    ensures HasKind(after, kind)
  {
    var n :| 0 <= n < |before| && before[n].kind == kind;
    assert after[n] == after[..|before|][n];
  }

  /** When an observation of this kind may be recorded. */
  predicate Observable(l: Ledger, v: View) {
    && !l.exact && !l.deleteVerified
    && match v
       case BaselineFirst => l.operation == None
       case Baseline => l.operation == None && BaselineFirst in l.observations
       case AfterAdd => l.owned && !l.addVerified && HasKind(l.commands, Add)
       case PreDelete => l.owned
       case PostDelete => l.owned && PreDelete in l.observations
  }

  lemma Observed(w: World, l: Ledger, v: View, raw: Raw)
    requires Flushable(w, l) && Observable(l, v) && MappingOf(raw).Some?
    ensures Flushable(w, l.(observations := l.observations[v := raw]))
  {
    hide Flushable, MappingOf;
    match v {
      case BaselineFirst => BaselineObserved(w, l, v, raw);
      case Baseline => BaselineObserved(w, l, v, raw);
      case AfterAdd => AdditionObserved(w, l, raw);
      case PreDelete => CleanupObserved(w, l, v, raw);
      case PostDelete => CleanupObserved(w, l, v, raw);
    }
  }

  /** One more table read may have been taken; nothing else in the ledger moved. */
  predicate Measured(before: Ledger, after: Ledger) {
    && after == before.(commands := after.commands, files := after.files, readings := after.readings)
    && (after.commands == before.commands
        || (|after.commands| == |before.commands| + 1 && after.commands[..|before.commands|] == before.commands
            && after.commands[|before.commands|].kind == Get))
  }

  /** As `Measured`, and the view `v` may now hold a new report. */
  predicate Viewed(before: Ledger, after: Ledger, v: View) {
    && Measured(before, after.(observations := before.observations))
    && forall u :: u != v ==>
         (u in after.observations <==> u in before.observations)
           && Seen(after.observations, u) == Seen(before.observations, u)
  }

  lemma ObservableReadable(l: Ledger, v: View)
    requires Observable(l, v)
    ensures !l.exact && !l.deleteVerified
  {}

  lemma MeasuredViewed(before: Ledger, after: Ledger, v: View)
    requires Measured(before, after) && Observable(before, v)
    ensures Viewed(before, after, v) && Observable(after, v)
  {
    hide MappingOf, HasKind;
    if v == AfterAdd { KindGrows(before.commands, after.commands, Add); }
  }

  lemma NowViewed(before: Ledger, after: Ledger, v: View, raw: Raw)
    requires Viewed(before, after, v)
    ensures var l := after.(observations := after.observations[v := raw]);
            Viewed(before, l, v) && v in l.observations && Seen(l.observations, v) == MappingOf(raw)
  {
    hide MappingOf;
  }

  /** Nobody but another writer can have moved the table. */
  predicate Untouched(before: World, after: World) {
    && after.original == before.original && (before.foreign ==> after.foreign)
    && (after.foreign || after.table == before.table)
  }

  /** Nothing is running. */
  predicate Still(before: World, after: World) {
    before.live == None && after.live == None && Untouched(before, after) && after.served == before.served
  }

  /** Nothing but the disk image and, while a child runs or another writer is active, the table may have moved. */
  predicate Steady(before: World, after: World) {
    && after.live == before.live && after.resumed == before.resumed && after.served == before.served
    && after.original == before.original && (before.foreign ==> after.foreign)
    && (before.live == None ==> Untouched(before, after))
  }

  /** As `Steady`, except that the running child may have been stopped. */
  predicate Settling(before: World, after: World) {
    && after.resumed == before.resumed && after.served == before.served && after.original == before.original
    && (before.foreign ==> after.foreign)
    && (before.live == None ==> after.live == None && Untouched(before, after))
  }

  /** What `_argv` demands of the ledger before it builds a command line. */
  predicate Commandable(l: Ledger, kind: Kind) {
    kind == Add || kind == Delete ==>
      && l.bootstrap.Some? && l.owned && l.operation.Some?
      && l.bootstrap.value.identity.positiveSid != l.bootstrap.value.identity.reviewerSid
      && "S-1-15-2-" <= l.bootstrap.value.identity.positiveSid
      && (if kind == Add then l.phase == AddIntent && !HasKind(l.commands, Add) else l.phase == CleanupIntent)
  }

  /** There is room for `k` more commands. */
  predicate Room(l: Ledger, k: nat) { |l.commands| + k <= 32 }

  /** The entry is there after an addition, and not there after a removal. */
  predicate Done(w: World, kind: Kind) {
    (kind == Add ==> Target(w) in w.table) && (kind == Delete ==> Target(w) !in w.table)
  }

  /** A child of this kind knows its entry from the ledger on disk. */
  predicate Directed(w: World, kind: Kind) {
    kind == Add || kind == Delete ==> w.durable.operation.Some?
  }

  lemma DoneStays(before: World, after: World, kind: Kind)
    requires before.live == None && Steady(before, after) && Directed(before, kind)
    requires Kept(before.durable.operation, after.durable.operation)
    ensures Done(before, kind) ==> after.foreign || Done(after, kind)
  {}

  /** The child ended by itself with exit code 0, and did what it was started for. */
  predicate Obeyed(w: World, r: Record) {
    !r.timedOut && r.exitCode == Some(0) && (w.foreign || Done(w, r.kind))
  }

  /** What `_argv` and its caller established before a child of this kind may be allocated. */
  predicate Runnable(l: Ledger, kind: Kind) {
    && !l.exact && !l.deleteVerified
    && (kind == Add ==> l.phase == AddIntent && l.operation.Some?)
    && (kind == Delete ==>
          && l.phase == CleanupIntent && l.operation.Some?
          && SidBytes(l.operation.value.identity.positiveSid).Some?
          && Seen(l.observations, PreDelete).Some?
          && SidBytes(l.operation.value.identity.positiveSid).value in Seen(l.observations, PreDelete).value
          && AsRecorded(l.target, Seen(l.observations, PreDelete).value,
                        SidBytes(l.operation.value.identity.positiveSid).value))
  }

  /** The ledger changed in its command list and file set only, by at most one new record. */
  predicate OneMoreCommand(before: Ledger, after: Ledger, kind: Kind) {
    && after == before.(commands := after.commands, files := after.files)
    && (after.commands == before.commands
        || (|after.commands| == |before.commands| + 1 && after.commands[..|before.commands|] == before.commands
            && after.commands[|before.commands|].kind == kind))
  }

  /** The world after a run of the newest command. */
  predicate Ran(before: World, after: World, n: nat, kind: Kind) {
    && after.served == before.served && after.original == before.original && after.resumed <= before.resumed + {n}
    && (before.foreign ==> after.foreign)
    && (kind == Get || kind == Abi ==> after.live == None && Untouched(before, after))
  }

  function WithFiles(l: Ledger, files: set<string>): (l': Ledger)
    ensures l'.files == files && l'.commands == l.commands && l'.fixed == l.fixed
  {
    l.(files := files)
  }

  function WithReadings(l: Ledger, readings: seq<Read>): (l': Ledger)
    ensures l'.readings == readings && l'.commands == l.commands
  {
    l.(readings := readings)
  }

  function WithBootstrap(l: Ledger, b: Option<Bootstrap>): (l': Ledger)
    ensures l'.bootstrap == b
  {
    l.(bootstrap := b)
  }

  lemma SameParts(l: Ledger)
    ensures WithFiles(l, l.files) == l && WithReadings(l, l.readings) == l && WithBootstrap(l, l.bootstrap) == l
  {}

  /** The ledger with one command record replaced. */
  function WithRecord(l: Ledger, n: nat, r: Record): (l': Ledger)
    requires n < |l.commands|
    ensures |l'.commands| == |l.commands| && l'.files == l.files
  {
    l.(commands := l.commands[n := r])
  }

  lemma RecordTwice(l: Ledger, n: nat, r: Record, s: Record)
    requires n < |l.commands|
    ensures WithRecord(WithRecord(l, n, r), n, s) == WithRecord(l, n, s)
    ensures WithRecord(l, n, l.commands[n]) == l
  {
    assert l.commands[n := r][n := s] == l.commands[n := s];
    assert l.commands[n := l.commands[n]] == l.commands;
  }

  /** Changing the newest record leaves it one new record. */
  lemma NewestChanged(before: Ledger, l: Ledger, after: Ledger, kind: Kind, n: nat)
    requires OneMoreCommand(before, l, kind) && n == |before.commands| && |l.commands| == |after.commands| == n + 1
    requires after == WithRecord(l, n, after.commands[n]) && after.commands[n].kind == kind
    ensures OneMoreCommand(before, after, kind)
  {
    assert after.commands[..n] == l.commands[..n];
  }

  /** The three stretches of a run: its allocation, the child, and the cleanup. */
  lemma RanThrough(before: World, admitted: World, ran: World, after: World, n: nat, kind: Kind)
    requires before.live == None && Steady(before, admitted) && Ran(admitted, ran, n, kind) && Settling(ran, after)
    ensures Ran(before, after, n, kind)
  {}

  lemma SteadyIsRan(before: World, after: World, n: nat, kind: Kind)
    requires before.live == None && Steady(before, after)
    ensures after.live == None && Ran(before, after, n, kind)
  {}

  lemma NothingSettles(w: World)
    ensures Settling(w, w)
  {}

  lemma StaySteady(before: World, between: World, after: World)
    ensures Steady(before, before)
    ensures Steady(before, between) && Steady(between, after) ==>
            Steady(before, after) && after.resumed == between.resumed
  {}

  lemma SettledSteadily(before: World, settled: World, after: World)
    requires Settling(before, settled) && Steady(settled, after)
    ensures Settling(before, after) && after.live == settled.live
  {}

  lemma StillRead(before: World, after: World, table: Table)
    requires before.live == None && (before.foreign || table == before.table) && Steady(before, after)
    ensures after.live == None && (after.foreign || table == after.table) && (before.foreign ==> after.foreign)
  {}

  /** A resumed child, whatever it and the cleanup after it did. */
  lemma ResumedRuns(before: World, resumed: World, after: World, n: nat, kind: Kind, sid: Option<string>)
    requires before.live == None && resumed == Step(before, Resumed(n, sid)) && Settling(resumed, after)
    requires sid.Some? <==> kind == Add || kind == Delete
    ensures Ran(before, after, n, kind)
  {}

  lemma NothingRun(l: Ledger, w: World, n: nat, kind: Kind)
    requires w.live == None
    ensures OneMoreCommand(l, l, kind) && Ran(w, w, n, kind)
  {}

  lemma RecordFacts(w: World, l: Ledger, n: nat)
    requires Flushable(w, l) && n < |l.commands|
    ensures RecordOK(l.fixed.session, n, l.commands[n])
    ensures n < |w.durable.commands| ==> RecordFollows(w.durable.commands[n], l.commands[n])
    ensures n in w.resumed ==> l.commands[n].resumePermitted && l.commands[n].resumeAttempted != Some(false)
  {
    hide SidBytes, MappingOf, RecordOK, RecordFollows, FixedOK;
  }

  lemma NotResumedYet(w: World, l: Ledger)
    requires Flushable(w, l)
    ensures |l.commands| !in w.resumed
  {
    hide SidBytes, MappingOf, Accepted;
  }

  lemma ReadingsFit(w: World, l: Ledger)
    requires Flushable(w, l)
    ensures |l.readings| <= |l.commands|
  {
    hide Accepted, Follows, Truthful;
  }

  lemma EasilyRunnable(l: Ledger)
    requires !l.exact && !l.deleteVerified
    ensures Runnable(l, Get) && Runnable(l, Abi)
  {}

  lemma OwnedKind(w: World, l: Ledger, n: nat)
    requires Flushable(w, l) && n < |l.commands| && (l.commands[n].kind == Add || l.commands[n].kind == Delete)
    ensures l.owned
  {
    hide SidBytes, MappingOf, RecordOK, RecordFollows, FixedOK;
    assert HasKind(l.commands, l.commands[n].kind);
  }

  function PermittedRecord(r: Record, pid: int, created: int): (s: Record) {
    r.(state := Ready, pid := Some(pid), created := Some(created), resumePermitted := true, resumeAttempted := None)
  }

  /** A command that ended early, noted by the live instance that knows whether it reached the resumption. */
  function NotedRecord(r: Record): (s: Record) {
    if r.resumeAttempted == None then r.(resumeAttempted := Some(false)) else r
  }

  lemma NotedKeeps(r: Record)
    ensures NotedRecord(r).kind == r.kind
            && (r.resumeAttempted == Some(true) <==> NotedRecord(r).resumeAttempted == Some(true))
  {}

  lemma AttemptUnmoved(before: seq<Record>, after: seq<Record>, n: nat)
    requires AddAttempted(before) && n < |before| == |after| && after == before[n := after[n]] && before[n].kind != Add
    ensures AddAttempted(after)
  {
    var k :| 0 <= k < |before| && before[k].kind == Add && MayHaveRun(before[k]);
    assert after[k] == before[k];
  }

  predicate CleanEnd(r: Record) {
    r.state == Reaped && r.reaped && r.resumePermitted && r.resumeAttempted == Some(true) && r.resumeReturned == Some(1)
    && r.exitCode.Some?
  }

  lemma WaitedRecord(session: string, n: nat, r: Record, timedOut: bool)
    requires RecordOK(session, n, r)
    ensures RecordOK(session, n, r.(timedOut := timedOut)) && RecordFollows(r, r.(timedOut := timedOut))
    ensures r.state == Ready ==> !r.reaped
  {}

  lemma ExitedRecord(session: string, n: nat, r: Record, code: int)
    requires RecordOK(session, n, r) && r.resumePermitted && r.resumeAttempted == Some(true)
    requires r.resumeReturned == Some(1) && r.exitCode == None && 0 <= code < WORD32
    ensures var done := r.(exitCode := Some(code), reaped := true, state := Reaped);
            RecordOK(session, n, done) && RecordFollows(r, done) && CleanEnd(done)
  {}

  lemma RunnableFacts(w: World, l: Ledger, kind: Kind)
    requires Flushable(w, l) && Runnable(l, kind)
    ensures kind == Add ==> !l.addVerified && l.owned
    ensures kind == Delete ==> l.owned && PreDelete in l.observations
  {
    hide SidBytes, MappingOf, RecordOK, FixedOK;
  }

  lemma AttemptKept(before: seq<Record>, after: seq<Record>)
    requires AddAttempted(before) && |before| <= |after| && after[..|before|] == before
    ensures AddAttempted(after)
  {
    var n :| 0 <= n < |before| && before[n].kind == Add && MayHaveRun(before[n]);
    assert after[n] == after[..|before|][n];
  }

  lemma NothingMeasured(l: Ledger, w: World, w': World)
    requires w.live == None && Steady(w, w')
    ensures Measured(l, l) && Still(w, w')
  {}

  lemma GetMeasured(before: Ledger, after: Ledger, w: World, w': World)
    requires OneMoreCommand(before, after, Get) && Still(w, w) && Ran(w, w', |before.commands|, Get)
    ensures Measured(before, after) && Still(w, w')
    ensures after.readings == before.readings
    ensures |after.commands| > |before.commands| ==> after.commands[|before.commands|].kind == Get
  {}

  lemma ReadingMeasured(before: Ledger, after: Ledger, w: World, w': World, w'': World)
    requires Measured(before, after) && Still(w, w') && Steady(w', w'')
    ensures forall readings :: Measured(before, WithReadings(after, readings))
    ensures Still(w, w'') && Untouched(w', w'')
  {}

  // ----- attaching, requesting, adding ----------------------------------------------------

  lemma PreparedFacts(w: World, l: Ledger)
    requires Flushable(w, l) && l.phase == Prepared
    ensures l.operation == None && !l.owned && w.live == None && !l.exact && !l.deleteVerified
    ensures l.fixed.accountSid.Some? && (l.parent == None ==> l.bootstrap == None)
  {
    hide SidBytes, MappingOf, RecordOK, FixedOK;
  }

  /** A parent can be prepared for: nothing has been yet, there is room for one command and time left. */
  predicate Preparable(l: Ledger, clock: int) {
    !l.readonlyPrepared && Room(l, 1) && InPreparation(l, clock)
  }

  predicate InPreparation(l: Ledger, clock: int) {
    l.fixed.preparedMs.Some? && clock < l.fixed.preparedMs.value + 180000
  }

  predicate Attachable(l: Ledger, w: World, clock: int) {
    l.phase == Prepared && l == w.durable && l.parent == None && Preparable(l, clock)
  }

  /** What `verify_parent` demands of the ledger. */
  predicate ParentBound(l: Ledger, w: World) { l == w.durable && l.parent.Some? && l.readonlyPrepared }

  /** The bootstrap the coordinator puts together from what it froze, prepared and observed. */
  function Derived(f: Fixed, p: Parent, positiveSid: string, reviewerSid: string): (b: Option<Bootstrap>)
    ensures b.Some? ==> BootstrapOK(b.value) && BootstrapBound(f, b, Some(p))
    ensures b.Some? ==> b.value.identity.positiveSid == positiveSid && b.value.identity.reviewerSid == reviewerSid
    ensures b.Some? ==> b.value.identity.created == p.created
    ensures b.Some? ==> f.preparedMs.Some? && b.value.deadlineMs == f.preparedMs.value + 180000
  {
    if f.accountSid == None || f.ports == None || f.preparedMs == None then None
    else
      var d := Identity(f.context, f.accountSid.value, p.pid, p.created, f.positiveProfile, f.reviewerProfile,
                        positiveSid, reviewerSid, f.nonce, f.ports.value.0, f.ports.value.1);
      var b := Bootstrap(d, f.session, f.preparedMs.value, f.preparedMs.value + 180000);
      if BootstrapOK(b) then Some(b) else None
  }

  /** Nothing is running; the served slots may have moved. */
  predicate Quiet(before: World, after: World) {
    before.live == None && after.live == None && Untouched(before, after)
  }

  /** What `consume_request` demands before it touches a slot. */
  predicate Requestable(l: Ledger, r: Request) {
    match r
    case ProfileCreated => l.phase == Bound && l.operation == None && !l.owned && !l.profileConsumed
    case ProbeFinished => l.phase == Added && l.operation.Some? && l.owned && l.addVerified && !l.finishedConsumed
  }

  /** One of the two entries is in the table before anything was added. */
  predicate Preoccupied(l: Ledger, w: World) {
    l.bootstrap.Some? && IdentityOK(l.bootstrap.value.identity)
    && (Positive(l.bootstrap.value.identity) in w.table || Reviewer(l.bootstrap.value.identity) in w.table)
  }

  /** A ledger an addition can start from. */
  predicate Addable(l: Ledger, w: World) {
    Requestable(l, ProfileCreated) && l == w.durable && Room(l, 4) && !Preoccupied(l, w)
  }

  /** A ledger a whole service can start from: two baseline reads, an addition and its read, and a pass of three. */
  predicate Servable(l: Ledger, w: World) { Addable(l, w) && Room(l, 7) }

  function WithConsumed(l: Ledger, r: Request): (l': Ledger)
    ensures l'.commands == l.commands && l'.bootstrap == l.bootstrap && l'.target == l.target
    ensures l'.operation == l.operation && l'.owned == l.owned && l'.parent == l.parent && l'.phase == l.phase
    ensures l'.readonlyPrepared == l.readonlyPrepared
    ensures r == ProfileCreated ==> l'.finishedConsumed == l.finishedConsumed
  {
    match r
    case ProfileCreated => l.(profileConsumed := true)
    case ProbeFinished => l.(finishedConsumed := true)
  }

  lemma RequestConsumed(w: World, l: Ledger, r: Request)
    requires Flushable(w, l) && Requestable(l, r)
    ensures Flushable(w, WithConsumed(l, r)) && Consumed(WithConsumed(l, r), r) && !Consumed(l, r)
    ensures WithConsumed(l, r).operation == l.operation
  {
    hide Flushable;
    if r == ProfileCreated { ProfileRequestConsumed(w, l); } else { FinishedRequestConsumed(w, l); }
  }

  lemma SeenRange(observations: map<View, Raw>, v: View)
    requires Seen(observations, v).Some?
    ensures forall s :: s in Seen(observations, v).value ==> 0 <= Seen(observations, v).value[s] < WORD32
  {
    hide MappingOf;
    MappingRange(observations[v]);
  }

  /** The addition is on record, and the table is the original one plus exactly the owned entry. */
  predicate Owning(w: World, l: Ledger) {
    && l.phase == Added && l.addVerified && l.operation.Some? && IdentityOK(l.operation.value.identity)
    && l.target.Some? && w.live == None && w.durable == l
    && (w.foreign || w.table == w.original[Positive(l.operation.value.identity) := l.target.value])
  }

  // ----- what a pass may meet ------------------------------------------------------------------

  /** What a pass needs of the ledger it starts from. */
  predicate Cleanable(l: Ledger, w: World, abnormal: bool) {
    && l == w.durable && (abnormal || ParentBound(l, w))
    && if l.owned then Room(l, 3) else l.bootstrap.Some?
  }

  /** The entry is there, but no addition is on record or it does not look as the addition left it. */
  predicate Foreigner(commands: seq<Record>, target: Option<int>, table: Table, sid: Bytes) {
    sid in table && !(AddAttempted(commands) && AsRecorded(target, table, sid))
  }

  /** The first observation of the pass held the operation's entry. */
  predicate FoundBefore(l: Ledger) {
    && l.operation.Some? && IdentityOK(l.operation.value.identity) && Seen(l.observations, PreDelete).Some?
    && Positive(l.operation.value.identity) in Seen(l.observations, PreDelete).value
  }

  /** A pass from `l` over `w` that ended in `after` saw an entry that `l` does not account for. */
  predicate Disputed(l: Ledger, w: World, after: Ledger) {
    && FoundBefore(after)
    && Foreigner(l.commands, l.target, Seen(after.observations, PreDelete).value,
                 Positive(after.operation.value.identity))
    && (w.live == None ==> Seen(after.observations, PreDelete).value == w.table)
  }

  /** The operation's window has closed. */
  predicate Late(l: Ledger, clock: int) { l.operation.Some? && l.operation.value.deadlineMs <= clock }

  lemma LateAlready(before: Ledger, after: Ledger, kind: Kind, clock: int)
    requires OneMoreCommand(before, after, kind)
    ensures Late(after, clock) <==> Late(before, clock)
  {}

  /** A repeated pass has no deadline of its own. */
  predicate OnTime(l: Ledger, already: bool, clock: int) {
    already || (l.operation.Some? && clock < l.operation.value.deadlineMs)
  }

  /** No error before the pass from `before` to `after`, no other writer, and no missed deadline. */
  predicate Prompt(before: Ledger, w: World, after: Ledger, clock: int) {
    before.firstError == None && !w.foreign && OnTime(after, before.phase == Cleaned, clock)
  }

  /** The table is `before` without the entry of `m`, and holds neither of its two. */
  predicate Unmixed(w: World, before: Table, m: Manifest) {
    && IdentityOK(m.identity) && w.table == before - {Positive(m.identity)}
    && Positive(m.identity) !in w.table && Reviewer(m.identity) !in w.table
  }

  /** The table holds what it first did, and at most the entry of `m` besides. */
  predicate Matches(before: Table, original: Table, m: Manifest) {
    && IdentityOK(m.identity) && before - {Positive(m.identity)} == original
    && Positive(m.identity) !in original && Reviewer(m.identity) !in before
  }

  /** Besides the operation's own entry, the observed table is the baseline. */
  predicate NothingOdd(l: Ledger, before: Table) {
    && l.operation.Some? && IdentityOK(l.operation.value.identity)
    && Seen(l.observations, Baseline) == Some(before - {Positive(l.operation.value.identity)})
    && Reviewer(l.operation.value.identity) !in before
  }

  lemma TableBefore(w: World, l: Ledger, before: Table)
    requires Sound(w) && Flushable(w, l) && l.owned && w.durable == l && (w.foreign || before == w.table)
    ensures !w.foreign ==>
              && l.operation.Some? && Matches(before, w.original, l.operation.value)
              && Seen(l.observations, Baseline) == Some(before - {Positive(l.operation.value.identity)})
              && Reviewer(l.operation.value.identity) !in before
  {
    hide SidBytes, MappingOf, Accepted, InTime, Bounded, Truthful, IdentityOK;
    OwnedFacts(w, l);
    var d := l.operation.value.identity;
    BaselineFacts(l.observations, d);
    TwoEntries(d);
    if !w.foreign {
      assert Target(w) == Positive(d);
      assert w.original - {Target(w)} == w.original;
    }
  }

  lemma TwoEntries(d: Identity)
    requires IdentityOK(d)
    ensures Positive(d) != Reviewer(d)
  {
    PrintAfterParse(d.positiveSid);
    PrintAfterParse(d.reviewerSid);
  }

  lemma DisputedIs(start: Ledger, w: World, examined: Ledger, l: Ledger, before: Table)
    requires start.commands <= examined.commands && examined.target == start.target && examined.operation.Some?
    requires l == examined || l == WithFailure(examined, OwnerConflict)
    requires Seen(examined.observations, PreDelete) == Some(before) && IdentityOK(examined.operation.value.identity)
    ensures Foreigner(examined.commands, examined.target, before, Positive(examined.operation.value.identity))
            && (w.live == None ==> before == w.table) ==>
              Disputed(start, w, l)
  {
    hide IdentityOK, Seen, Positive;
    if AddAttempted(start.commands) { AttemptKept(start.commands, examined.commands); }
  }

  lemma SameDispute(start: Ledger, w: World, l: Ledger, l': Ledger)
    requires l'.operation == l.operation && l'.observations == l.observations
    ensures Disputed(start, w, l) <==> Disputed(start, w, l')
  {}

  lemma DisputeCarries(start: Ledger, w: World, settled: Ledger, w': World, after: Ledger)
    requires settled.commands == start.commands && settled.target == start.target
    requires w.live == None ==> w'.live == None && Untouched(w, w')
    ensures Disputed(settled, w', after) ==> w'.foreign || Disputed(start, w, after)
  {}

  lemma ServableFacts(w: World, l: Ledger)
    requires Flushable(w, l)
    ensures Servable(l, w) ==> ParentBound(l, w) && Addable(l, w) && w.live == None && !l.finishedConsumed && Room(l, 7)
  {
    hide Flushable, IdentityOK;
    if l.phase == Phase.Bound { UnownedIfBound(w, l); }
  }

  lemma ServableStill(l: Ledger, w: World, w': World)
    requires Steady(w, w') && w'.durable == w.durable
    ensures Servable(l, w) && w.live == None ==> w'.foreign || (Servable(l, w') && Addable(l, w'))
  {
    hide IdentityOK;
  }

  /** After the addition the second request can be taken. */
  lemma OwningReady(w: World, l: Ledger)
    requires Flushable(w, l) && Owning(w, l)
    ensures ParentBound(l, w) && l == w.durable && l.operation.Some? && w.live == None
    ensures !l.finishedConsumed ==> Requestable(l, ProbeFinished)
  {
    hide Flushable, IdentityOK;
    SmallFacts(w, l);
    OwnedCommands(w, l);
  }

  lemma StillOwning(w: World, w': World)
    requires Steady(w, w') && w'.durable == w.durable && w.live == None
    ensures w'.live == None && Untouched(w, w') && forall l :: ParentBound(l, w) <==> ParentBound(l, w')
  {}

  /** Nothing but another writer can dispute an entry the addition has just proved. */
  lemma OwningUndisputed(w: World, l: Ledger, w': World, after: Ledger)
    requires Flushable(w, l) && Owning(w, l) && Untouched(w, w') && w'.live == None
    requires after.operation == l.operation
    ensures Disputed(l, w', after) ==> w'.foreign
  {
    hide SidBytes, MappingOf, FixedOK, RecordOK, IdentityOK;
    SmallFacts(w, l);
    var n :| 0 <= n < |l.commands| && AddSucceeded(l.commands[n]);
    assert RecordOK(l.fixed.session, n, l.commands[n]);
    Permitted(l.fixed.session, n, l.commands[n]);
    assert AddAttempted(l.commands);
  }

  lemma Permitted(session: string, n: nat, r: Record)
    requires RecordOK(session, n, r) && AddSucceeded(r)
    ensures MayHaveRun(r)
  {}

  lemma Unchanged(before: World, requested: World, seen: World)
    requires (before.live == None ==> Quiet(before, requested)) && Steady(requested, seen)
    ensures before.live == None ==> seen.live == None && Untouched(before, seen)
    ensures requested.foreign ==> seen.foreign
  {}

  lemma PassSettled(before: World, withdrawn: World, reaped: World, settled: World)
    requires Steady(before, withdrawn)
    requires Settling(withdrawn, reaped) || reaped == withdrawn
    requires Steady(reaped, settled) || settled == reaped
    ensures settled.live == reaped.live
    ensures before.live == None ==> settled.live == None && Untouched(before, settled)
  {}

  lemma NowUnmixed(w: World, l: Ledger, before: Table)
    requires Sound(w) && Flushable(w, l) && l.owned && w.durable == l && l.operation.Some?
    requires IdentityOK(l.operation.value.identity)
    requires w.foreign || Matches(before, w.original, l.operation.value)
    ensures !w.foreign
            && (Done(w, Delete) || (Positive(l.operation.value.identity) !in before && before == w.table)) ==>
              Unmixed(w, before, l.operation.value)
  {
    hide SidBytes, MappingOf, Accepted, InTime, Bounded, Truthful, IdentityOK, Positive, Reviewer;
    var d := l.operation.value.identity;
    assert Target(w) == Positive(d);
    if !w.foreign && Target(w) !in w.table {
      assert w.original - {Target(w)} == w.original && w.table - {Target(w)} == w.table;
      assert w.table == before - {Positive(d)};
    }
  }

  lemma RestoredIsExact(w: World, l: Ledger)
    requires Sound(w) && Restored(w, l)
    ensures !w.foreign && l.firstError == None ==> l.exact
  {
    hide SidBytes, MappingOf, Accepted, InTime, Bounded, Truthful, IdentityOK;
    if !w.foreign {
      assert Target(w) == Positive(l.operation.value.identity);
      assert w.original - {Target(w)} == w.original && w.table - {Target(w)} == w.table;
    }
  }

  // ----- cleaning up -----------------------------------------------------------------------

  predicate Within(m: Manifest, completedMs: Option<int>) {
    completedMs.Some? && m.startedMs <= completedMs.value < m.deadlineMs
  }

  /** A cleanup pass over an operation `m`; `already` if an earlier pass had completed. */
  predicate Cleaning(l: Ledger, m: Manifest, already: bool) {
    && l.phase == CleanupIntent && l.owned && !l.exact && !l.deleteVerified && l.operation == Some(m)
    && (already && l.firstError == None ==> Within(m, l.completedMs))
  }

  /** A finished pass: neither SID is left, and the claim of exact restoration is neither missing nor false. */
  predicate Restored(w: World, l: Ledger) {
    && l.phase == Cleaned && l.owned && l.deleteVerified && l.operation.Some? && IdentityOK(l.operation.value.identity)
    && w.live == None && w.durable == l
    && Seen(l.observations, Baseline).Some? && Seen(l.observations, PostDelete).Some?
    && (w.foreign || Seen(l.observations, Baseline).value == w.original)
    && (w.foreign || Seen(l.observations, PostDelete).value == w.table)
    && Positive(l.operation.value.identity) !in Seen(l.observations, PostDelete).value
    && Reviewer(l.operation.value.identity) !in Seen(l.observations, PostDelete).value
    && (l.exact <==> l.firstError == None && Seen(l.observations, PostDelete) == Seen(l.observations, Baseline))
  }

  lemma CleanedFacts(w: World, l: Ledger)
    requires Flushable(w, l)
    ensures l.phase == Cleaned && l.firstError == None ==> l.operation.Some? && Within(l.operation.value, l.completedMs)
    ensures l.exact ==> l.firstError == None
    ensures l.owned ==> l.operation.Some?
  {
    hide SidBytes, MappingOf, RecordOK, FixedOK;
  }

  lemma CleaningFacts(w: World, l: Ledger, m: Manifest, already: bool)
    requires Flushable(w, l) && Cleaning(l, m, already)
    ensures ManifestOK(m) && IdentityOK(m.identity) && Seen(l.observations, Baseline).Some?
    ensures w.foreign || Seen(l.observations, Baseline).value == w.original
    ensures Positive(m.identity) !in Seen(l.observations, Baseline).value
    ensures Observable(l, PreDelete) && (PreDelete in l.observations ==> Observable(l, PostDelete))
  {
    hide SidBytes, MappingOf, RecordOK, FixedOK;
    OwnedFacts(w, l);
  }

  lemma CleaningStays(l: Ledger, m: Manifest, already: bool, code: ErrorCode)
    requires Cleaning(l, m, already)
    ensures var f := WithFailure(l, code);
            && Cleaning(f, m, already) && f.operation == l.operation && f.observations == l.observations
            && f.commands == l.commands && f.target == l.target
            && f.firstError == (if l.firstError == None then Some(code) else l.firstError)
    ensures l.operation == Some(m)
  {}

  lemma CleaningViewed(before: Ledger, after: Ledger, v: View, m: Manifest, already: bool)
    requires Cleaning(before, m, already) && Viewed(before, after, v)
    ensures Cleaning(after, m, already) && after.owned && after.operation == before.operation == Some(m)
    ensures after.firstError == before.firstError && after.target == before.target
    ensures before.commands <= after.commands
    ensures forall u :: u != v ==>
              Seen(after.observations, u) == Seen(before.observations, u)
                && (u in after.observations <==> u in before.observations)
  {
    hide MappingOf;
  }

  lemma CleaningOwned(l: Ledger, m: Manifest, already: bool)
    requires Cleaning(l, m, already)
    ensures l.owned && l.operation == Some(m) && l.phase == CleanupIntent
  {}

  lemma CompletedInteger(w: World, l: Ledger)
    requires Flushable(w, l)
    ensures l.completedMs.Some? ==> Integer(l.completedMs.value)
  {
    hide SidBytes, MappingOf, RecordOK, FixedOK;
  }

  lemma MakeRestored(w: World, l: Ledger, after: Table)
    requires Flushable(w, l) && w.durable == l && w.live == None && l.phase == Cleaned && l.deleteVerified
    requires Seen(l.observations, PostDelete) == Some(after) && (w.foreign || after == w.table)
    requires l.exact <==> Some(after) == Seen(l.observations, Baseline) && l.firstError == None
    ensures Restored(w, l)
  {
    hide SidBytes, MappingOf, RecordOK, FixedOK;
    SmallFacts(w, l);
    OwnedFacts(w, l);
  }

  /** The ledger a successful pass leaves; a repeated pass keeps the first completion time. */
  function AsCleaned(l: Ledger, already: bool, completed: int): (l': Ledger) {
    l.(phase := Cleaned, deleteVerified := true, othersPreserved := true,
       exact := l.firstError == None && Seen(l.observations, PostDelete) == Seen(l.observations, Baseline),
       completedMs := if already then l.completedMs else Some(completed))
  }

  lemma AsCleanedFacts(l: Ledger, already: bool, completed: int)
    ensures var l' := AsCleaned(l, already, completed);
            && l'.phase == Cleaned && l'.deleteVerified && l'.operation == l.operation && l'.owned == l.owned
            && l'.observations == l.observations && l'.firstError == l.firstError
            && (l'.exact <==>
                l.firstError == None && Seen(l.observations, PostDelete) == Seen(l.observations, Baseline))
  {
    hide Seen;
  }

  lemma PassCompleted(w: World, l: Ledger, already: bool, after: Table, completed: int)
    requires Flushable(w, l) && w.live == None && l.operation.Some? && Cleaning(l, l.operation.value, already)
    requires Seen(l.observations, PostDelete) == Some(after) && Seen(l.observations, PreDelete).Some?
    requires w.foreign || after == w.table
    requires IdentityOK(l.operation.value.identity)
    requires after == Seen(l.observations, PreDelete).value - {Positive(l.operation.value.identity)}
    requires Reviewer(l.operation.value.identity) !in after
    requires Integer(completed) && l.operation.value.startedMs <= completed
    requires !already && l.firstError == None ==> completed < l.operation.value.deadlineMs
    ensures Flushable(w, AsCleaned(l, already, completed))
  {
    hide Flushable, Seen, IdentityOK, Positive, Reviewer;
    CleaningFacts(w, l, l.operation.value, already);
    CompletedInteger(w, l);
    var l' := AsCleaned(l, already, completed);
    CleanedUp(w, l, l'.exact, l'.completedMs);
  }

  lemma SucceededIs(r: Record)
    requires CleanEnd(r)
    ensures r.kind == Add && !r.timedOut && r.exitCode == Some(0) ==> AddSucceeded(r)
    ensures r.reaped
  {}

  /** The first error after a method that raised `error`, or raised something without a code of its own. */
  predicate Noted(before: Ledger, after: Ledger, error: Option<ErrorCode>) {
    after.firstError == if before.firstError == None then error else before.firstError
  }

  /** `after` is `before` with `sid` added, whatever attribute it was given. */
  predicate OneMore(before: Table, sid: Bytes, after: Table) {
    sid in after && after == before[sid := after[sid]]
  }

  /** What each code that `created` can raise says about the ledger and the clock; it raises no other. */
  ghost predicate Explained(l: Ledger, clock: int, error: ErrorCode) {
    match error
    case CreatedRequest => l.phase == Bound
    case GetFailed => (l.phase == Bound && l.operation == None) || (l.phase == AddIntent && HasKind(l.commands, Add))
    case BaselineDelta => l.phase == Bound && Seen(l.observations, BaselineFirst) != Seen(l.observations, Baseline)
    case Preexisting => l.phase == Bound && PreexistingExplained(l)
    case LedgerFailed =>
      && l.phase == Bound && l.bootstrap.Some? && IdentityOK(l.bootstrap.value.identity)
      && BaselineUnowned(l.observations, l.bootstrap.value.identity)
    case AddFailed => l.phase == AddIntent && (AfterAdd in l.observations ==> NoCleanAddition(l.commands))
    case AddDelta => l.phase == AddIntent && DeltaShown(l)
    case Deadline => l.phase == AddIntent && l.operation.Some? && l.operation.value.deadlineMs <= clock
    case _ => false
  }

  lemma Explains(l: Ledger, clock: int, error: ErrorCode)
    requires match error
             case CreatedRequest => l.phase == Bound
             case LedgerFailed =>
               && l.phase == Bound && l.bootstrap.Some? && IdentityOK(l.bootstrap.value.identity)
               && BaselineUnowned(l.observations, l.bootstrap.value.identity)
             case GetFailed => l.phase == AddIntent && HasKind(l.commands, Add)
             case AddFailed => l.phase == AddIntent && AfterAdd !in l.observations
             case _ => false
    ensures Explained(l, clock, error)
  {}

  predicate PreexistingExplained(l: Ledger) {
    && l.bootstrap.Some? && IdentityOK(l.bootstrap.value.identity) && Seen(l.observations, Baseline).Some?
    && (Positive(l.bootstrap.value.identity) in Seen(l.observations, Baseline).value
        || Reviewer(l.bootstrap.value.identity) in Seen(l.observations, Baseline).value)
  }

  predicate NoCleanAddition(commands: seq<Record>) {
    forall n :: 0 <= n < |commands| ==> !AddSucceeded(commands[n])
  }

  predicate DeltaShown(l: Ledger) {
    && l.operation.Some? && IdentityOK(l.operation.value.identity) && Seen(l.observations, Baseline).Some?
    && Seen(l.observations, AfterAdd).Some?
    && !OneMore(Seen(l.observations, Baseline).value, Positive(l.operation.value.identity),
                Seen(l.observations, AfterAdd).value)
  }

  lemma BaselineFacts(observations: map<View, Raw>, d: Identity)
    requires IdentityOK(d) && BaselineUnowned(observations, d)
    ensures Seen(observations, Baseline).Some?
    ensures Positive(d) !in Seen(observations, Baseline).value && Reviewer(d) !in Seen(observations, Baseline).value
  {}

  lemma NotJustAdded(after: Table, second: Table, positive: Bytes, reviewer: Bytes)
    requires positive !in second && reviewer !in second
    requires positive !in after || after - {positive} != second || reviewer in after - {positive}
    ensures !OneMore(second, positive, after)
  {
    assert OneMore(second, positive, after) ==> after - {positive} == second;
  }

  lemma DeltaExplained(w: World, l: Ledger, clock: int, after: Table)
    requires Flushable(w, l) && l.owned && l.phase == AddIntent && Seen(l.observations, AfterAdd) == Some(after)
    requires var positive, reviewer := Positive(l.operation.value.identity), Reviewer(l.operation.value.identity);
             positive !in after || Seen(l.observations, Baseline) != Some(after - {positive})
               || reviewer in after - {positive}
    ensures Explained(l, clock, AddDelta)
  {
    hide Flushable, Seen, Positive, Reviewer, IdentityOK;
    OwnedFacts(w, l);
    BaselineFacts(l.observations, l.operation.value.identity);
    NotJustAdded(after, Seen(l.observations, Baseline).value, Positive(l.operation.value.identity),
                 Reviewer(l.operation.value.identity));
  }

  /** A table that nobody else wrote holds exactly one more entry after the addition. */
  lemma AdditionSeen(w: World, l: Ledger, after: Table, r: Record)
    requires Sound(w) && Flushable(w, l) && l.owned && Directed(w, Add) && r.kind == Add
    requires w.foreign || after == w.table
    ensures Obeyed(w, r) ==> !r.timedOut && r.exitCode == Some(0)
    ensures Obeyed(w, r) && !w.foreign ==>
              && l.operation.Some? && IdentityOK(l.operation.value.identity)
              && var positive := Positive(l.operation.value.identity);
              positive in after && Some(after - {positive}) == Seen(l.observations, Baseline)
              && Reviewer(l.operation.value.identity) !in after - {positive}
  {
    hide SidBytes, MappingOf, Accepted, InTime, Bounded, Truthful, IdentityOK;
    OwnedFacts(w, l);
    BaselineFacts(l.observations, l.operation.value.identity);
    if Obeyed(w, r) && !w.foreign {
      assert Target(w) == Positive(l.operation.value.identity);
      assert w.original - {Target(w)} == w.original;
    }
  }

  /** The command came back, and it is the only addition on record: none ended cleanly. */
  lemma AddFailedExplained(w: World, l: Ledger, clock: int, n: nat)
    requires Flushable(w, l) && l.phase == AddIntent && n < |l.commands| && l.commands[n].kind == Add
    requires !l.commands[n].reaped || l.commands[n].timedOut || l.commands[n].exitCode != Some(0)
    ensures Explained(l, clock, AddFailed)
  {
    hide SidBytes, MappingOf, RecordOK, FixedOK;
    assert CommandsOK(l.fixed.session, l.commands);
  }

  lemma FailureKeeps(l: Ledger, code: ErrorCode, clock: int)
    requires Explained(l, clock, code)
    ensures Noted(l, WithFailure(l, code), Some(code)) && Explained(WithFailure(l, code), clock, code)
  {}
}
