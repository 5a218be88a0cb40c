/**
 The protocol is not safe by never doing anything: from every prepared ledger an undisturbed,
 timely operation leads to a durable claim of exact restoration, and it is a legal run.
 */
module Attainable {
  import opened Bytes
  import opened Sid
  import opened Snapshot
  import opened Ledger
  import opened Protocol
  import opened LedgerSteps
  import opened LedgerFacts
  import opened WholeRuns

  /** A run so far, the world after it, and a ledger that may be flushed next. */
  ghost predicate At(w0: World, run: seq<Event>, w: World, l: Ledger) {
    Legal(w0, run) && w == After(w0, run) && Sound(w) && Flushable(w, l) && Undisturbed(run) && !w.foreign
  }

  lemma Emitted(w0: World, run: seq<Event>, w: World, l: Ledger, e: Event)
    requires At(w0, run, w, l) && Guard(w, e) && !e.Foreign? && Flushable(Step(w, e), l)
    ensures At(w0, run + [e], Step(w, e), l)
  {
    hide Legal, After, Sound, Flushable, Guard;
    StepKeeps(w, e);
    Append(w0, run, e);
  }

  lemma OnDisk(w0: World, run: seq<Event>, w: World, l: Ledger)
    requires At(w0, run, w, l)
    ensures At(w0, run + [Flushed(l)], w.(durable := l), l)
  {
    hide Legal, After, Sound, Flushable;
    FlushedStays(w, l);
    Emitted(w0, run, w, l, Flushed(l));
  }

  /** What one operation needs of its surroundings. */
  datatype Plan = Plan(bootstrap: Bootstrap, startedMs: int, completedMs: int, attributes: int, clean: Raw, added: Raw)

  function ManifestOf(p: Plan): (m: Manifest) { Manifest(p.bootstrap.identity, p.startedMs, p.startedMs + 60000) }

  ghost predicate Possible(w: World, p: Plan) {
    && Fresh(w) && w.durable.phase == Prepared
    && BootstrapBound(w.durable.fixed, Some(p.bootstrap),
                      Some(Parent(p.bootstrap.identity.pid, p.bootstrap.identity.created)))
    && ManifestOK(ManifestOf(p)) && 0 <= p.attributes < WORD32
    && p.startedMs <= p.completedMs < p.startedMs + 60000 && Integer(p.completedMs)
    && IdentityOK(p.bootstrap.identity)
    && Positive(p.bootstrap.identity) !in w.table && Reviewer(p.bootstrap.identity) !in w.table
    && MappingOf(p.clean) == Some(w.table)
    && MappingOf(p.added) == Some(w.table[Positive(p.bootstrap.identity) := p.attributes])
  }

  /** Nothing but what is named differs from the prepared ledger. */
  ghost predicate Quiescent(w0: World, w: World, l: Ledger, p: Plan) {
    && l.fixed == w0.durable.fixed && l.bootstrap == Some(p.bootstrap) && l.firstError == None && l.cleanupError == None
    && l.readonlyPrepared && l.parent.Some? && l.outerJob.Some? && l.profileConsumed && !l.exact && !l.deleteVerified
       && !l.othersPreserved
    && w.live == None && w.original == w0.table && w.served == {}
  }

  lemma FreshFacts(w: World, p: Plan)
    requires Possible(w, p)
    ensures Legal(w, []) && After(w, []) == w && Sound(w) && Flushable(w, w.durable) && !w.foreign && w.live == None
    ensures w.original == w.table && w.resumed == {} && w.served == {}
    ensures var d := w.durable;
            && d.phase == Prepared && d.parent == None && d.bootstrap == None && d.operation == None && d.commands == []
            && d.observations == map[] && d.firstError == None && d.cleanupError == None && !d.owned
               && !d.readonlyPrepared
            && d.outerJob == None && !d.exact && !d.deleteVerified && !d.othersPreserved && !d.addVerified
    ensures BootstrapOK(p.bootstrap) && Natural32(p.bootstrap.identity.pid) && Natural64(p.bootstrap.identity.created)
  {
    hide SidBytes, MappingOf;
    ReachableSound(w, []);
    FreshStays(w);
    UnownedFacts(w, w.durable);
  }

  /** Attach, prepare, bootstrap, and the request: nothing has touched the table yet. */
  lemma Bound(w0: World, p: Plan) returns (l: Ledger)
    requires Possible(w0, p)
    ensures At(w0, [], w0, l) && Quiescent(w0, w0, l, p)
    ensures l.phase == Phase.Bound && l.operation == None && !l.owned && l.commands == [] && l.observations == map[]
            && !l.addVerified
  {
    hide SidBytes, MappingOf, Legal, After, Sound, Flushable, Fresh, BootstrapBound, ManifestOK, IdentityOK,
      BootstrapOK, Natural32, Natural64;
    FreshFacts(w0, p);
    l := w0.durable;
    var parent := Parent(p.bootstrap.identity.pid, p.bootstrap.identity.created);
    ParentAttached(w0, l, parent);
    l := l.(parent := Some(parent), outerJob := Some(ParentJobName(l.fixed.session)));
    ReadonlyPrepared(w0, l);
    l := l.(readonlyPrepared := true);
    BootstrapDerived(w0, l, p.bootstrap);
    l := l.(bootstrap := Some(p.bootstrap));
    BoundToParent(w0, l);
    l := l.(phase := Phase.Bound);
    ProfileRequestConsumed(w0, l);
    l := l.(profileConsumed := true);
  }

  /** Both baselines, the operation, and the intent. */
  lemma Intended(w0: World, p: Plan) returns (l: Ledger)
    requires Possible(w0, p)
    ensures At(w0, [], w0, l) && Quiescent(w0, w0, l, p)
    ensures l.phase == AddIntent && l.operation == Some(ManifestOf(p)) && l.owned && l.commands == [] && !l.addVerified
    ensures Seen(l.observations, Baseline) == Some(w0.table)
  {
    hide SidBytes, MappingOf, Legal, After, Sound, Flushable, Fresh, BootstrapBound, ManifestOK, IdentityOK,
      BootstrapOK, Positive, Reviewer;
    FreshFacts(w0, p);
    l := Bound(w0, p);
    BaselineObserved(w0, l, BaselineFirst, p.clean);
    l := l.(observations := l.observations[BaselineFirst := p.clean]);
    BaselineObserved(w0, l, Baseline, p.clean);
    l := l.(observations := l.observations[Baseline := p.clean]);
    OperationFrozen(w0, l, ManifestOf(p));
    l := l.(operation := Some(ManifestOf(p)));
    IntentRecorded(w0, l);
    l := l.(phase := AddIntent, owned := true, intentMs := Some(l.operation.value.startedMs), target := None);
  }

  /** A child that was allowed to run, ran, and came back with exit status 0. */
  function Ready(session: string, n: nat, kind: Kind): (r: Record) {
    PermittedRecord(NewRecord(session, n, kind), 1, 1)
  }

  function Attempted(session: string, n: nat, kind: Kind): (r: Record) {
    Ready(session, n, kind).(resumeAttempted := Some(true))
  }

  function Done(session: string, n: nat, kind: Kind): (r: Record) {
    Attempted(session, n, kind).(resumeReturned := Some(1), exitCode := Some(0), reaped := true, state := Reaped)
  }

  lemma RecordsOK(session: string, n: nat, kind: Kind)
    ensures RecordOK(session, n, Ready(session, n, kind)) && RecordOK(session, n, Attempted(session, n, kind))
    ensures RecordOK(session, n, Done(session, n, kind))
    ensures RecordFollows(Ready(session, n, kind), Attempted(session, n, kind))
            && RecordFollows(Ready(session, n, kind), Done(session, n, kind))
    ensures kind == Add ==> AddSucceeded(Done(session, n, kind)) && MayHaveRun(Done(session, n, kind))
    ensures Ready(session, n, kind).kind == Attempted(session, n, kind).kind == Done(session, n, kind).kind == kind
  {}

  /** What a mutating child may start from. */
  ghost predicate Startable(w: World, l: Ledger, p: Plan, kind: Kind) {
    && l.operation == Some(ManifestOf(p)) && l.owned && |l.commands| < 32 && w.live == None && !l.exact
       && !l.deleteVerified
    && match kind
       case Add => l.phase == AddIntent && !HasKind(l.commands, Add) && !l.addVerified
       case Delete =>
         && l.phase == CleanupIntent && PreDelete in l.observations && AddAttempted(l.commands)
         && SidBytes(p.bootstrap.identity.positiveSid).Some? && Seen(l.observations, PreDelete).Some?
         && SidBytes(p.bootstrap.identity.positiveSid).value in Seen(l.observations, PreDelete).value
         && AsRecorded(l.target, Seen(l.observations, PreDelete).value,
                       SidBytes(p.bootstrap.identity.positiveSid).value)
       case _ => false
  }

  /** The record exists and is durable with its permission; the child has not run. */
  lemma MadeReady(w0: World, run: seq<Event>, w: World, l: Ledger, p: Plan, kind: Kind) returns (l': Ledger)
    requires At(w0, run, w, l) && Startable(w, l, p, kind)
    ensures l' == l.(files := l'.files, commands := l.commands + [Ready(l.fixed.session, |l.commands|, kind)])
    ensures At(w0, run + [Flushed(l')], w.(durable := l'), l') && |l.commands| !in w.resumed
    ensures MayResume(w.(durable := l'), |l.commands|, Some(p.bootstrap.identity.positiveSid))
  {
    hide SidBytes, MappingOf, Legal, After, Sound, Flushable, HasKind, AddAttempted, RecordOK, NewRecord,
      PermittedRecord, Seen;
    var n, session := |l.commands|, l.fixed.session;
    NotResumedYet(w, l);
    SmallFacts(w, l);
    RecordsOK(session, n, kind);
    OutputCreated(w, l);
    l' := l.(files := l.files + {OutputName(n)});
    CommandAllocated(w, l', kind);
    l' := l'.(commands := l'.commands + [NewRecord(session, n, kind)]);
    RecordChanged(w, l', n, Ready(session, n, kind));
    l' := l'.(commands := l'.commands[n := Ready(session, n, kind)]);
    assert l'.commands == l.commands + [Ready(session, n, kind)];
    if kind == Delete { AttemptKept(l.commands, l'.commands); }
    OnDisk(w0, run, w, l');
    ReadyIs(session, n, kind);
  }

  lemma ReadyIs(session: string, n: nat, kind: Kind)
    ensures Ready(session, n, kind).state == CommandState.Ready && Ready(session, n, kind).resumeAttempted == None
    ensures Ready(session, n, kind).kind == kind
  {}

  /** It runs, makes its one change, and is gone. */
  lemma Ran(w0: World, run: seq<Event>, w: World, l: Ledger, p: Plan, kind: Kind, n: nat)
    returns (run': seq<Event>, w': World, l': Ledger)
    requires At(w0, run, w, l) && w.durable == l && w.live == None && n + 1 == |l.commands| && n !in w.resumed
    requires l.commands[n] == Ready(l.fixed.session, n, kind) && (kind == Add || kind == Delete)
    requires MayResume(w, n, Some(p.bootstrap.identity.positiveSid)) && l.owned && !l.exact
    requires kind == Add ==> !l.addVerified
    requires l.operation == Some(ManifestOf(p)) && IdentityOK(p.bootstrap.identity) && 0 <= p.attributes < WORD32
    ensures l' == l.(commands := l.commands[n := Done(l.fixed.session, n, kind)])
    ensures At(w0, run', w', l') && w'.live == None && w'.original == w.original && w'.served == w.served
    ensures w'.table == if kind == Add then w.table[Positive(p.bootstrap.identity) := p.attributes]
            else w.table - {Positive(p.bootstrap.identity)}
    ensures run <= run' && Resumed(n, Some(p.bootstrap.identity.positiveSid)) in run'
  {
    hide SidBytes, MappingOf, Legal, After, Sound, Flushable, RecordOK, Ready, Attempted, Done, Positive, IdentityOK,
      HasKind;
    var session, sid := l.fixed.session, Some(p.bootstrap.identity.positiveSid);
    RecordsOK(session, n, kind);
    AttemptedIs(session, n, kind);
    RecordChanged(w, l, n, Attempted(session, n, kind));
    var l1 := l.(commands := l.commands[n := Attempted(session, n, kind)]);
    ResumedStays(w, l1, n, sid);
    Emitted(w0, run, w, l1, Resumed(n, sid));
    var w1, run1 := Step(w, Resumed(n, sid)), run + [Resumed(n, sid)];
    var effect := if kind == Add then Some(p.attributes) else None;
    ChangedStays(w1, l1, effect);
    Emitted(w0, run1, w1, l1, Changed(effect));
    var w2, run2 := Step(w1, Changed(effect)), run1 + [Changed(effect)];
    GoneStays(w2, l1);
    Emitted(w0, run2, w2, l1, Gone);
    w', run' := Step(w2, Gone), run2 + [Gone];
    RecordChanged(w', l1, n, Done(session, n, kind));
    l' := l1.(commands := l1.commands[n := Done(session, n, kind)]);
    assert l'.commands == l.commands[n := Done(session, n, kind)];
  }

  lemma AttemptedIs(session: string, n: nat, kind: Kind)
    ensures var r := Attempted(session, n, kind); r.resumePermitted && r.resumeAttempted == Some(true)
    ensures var r := Done(session, n, kind); r.resumePermitted && r.resumeAttempted == Some(true)
  {}

  /** The addition: one entry more, verified, and then withdrawn for cleanup. */
  lemma AddedThenWithdrawn(w0: World, p: Plan) returns (run: seq<Event>, w: World, l: Ledger)
    requires Possible(w0, p)
    ensures At(w0, run, w, l) && l.operation == Some(ManifestOf(p)) && l.owned && l.firstError == None
            && l.cleanupError == None
    ensures l.phase == CleanupIntent && |l.commands| == 1 && AddAttempted(l.commands) && !l.exact && !l.deleteVerified
    ensures w.live == None && w.original == w0.table
            && w.table == w0.table[Positive(p.bootstrap.identity) := p.attributes]
    ensures Seen(l.observations, Baseline) == Some(w0.table) && l.target == Some(p.attributes)
    ensures Resumed(0, Some(p.bootstrap.identity.positiveSid)) in run
  {
    hide SidBytes, MappingOf, Legal, After, Sound, Flushable, Fresh, BootstrapBound, ManifestOK, IdentityOK, Positive,
      Reviewer, Done, Ready,
      MayResume, HasKind, AddSucceeded, AddAttempted, RecordOK;
    l := Intended(w0, p);
    NoAdd(l);
    l := MadeReady(w0, [], w0, l, p, Add);
    w := w0.(durable := l);
    run, w, l := Ran(w0, [] + [Flushed(l)], w, l, p, Add, 0);
    RecordsOK(l.fixed.session, 0, Add);
    KindAt(l.commands, 0);
    OneAttempt(l);
    AdditionObserved(w, l, p.added);
    l := l.(observations := l.observations[AfterAdd := p.added]);
    TargetRecorded(w, l, Some(p.attributes));
    l := l.(target := Some(p.attributes));
    OwnedFacts(w, l);
    AdditionVerified(w, l, 0);
    l := l.(phase := Added, addVerified := true);
    SuccessWithdrawn(w, l);
    l := l.(phase := CleanupIntent, exact := false, deleteVerified := false, othersPreserved := false);
  }

  lemma NoAdd(l: Ledger)
    requires l.commands == []
    ensures !HasKind(l.commands, Add)
  {}

  lemma OneAttempt(l: Ledger)
    requires |l.commands| > 0 && l.commands[0].kind == Add && MayHaveRun(l.commands[0])
    ensures AddAttempted(l.commands)
  {}

  /**
   For every prepared ledger, every bootstrap and clock values that fit it, and every table without
   the two SIDs that the worker can report, the protocol has a run that adds the entry, removes it,
   and ends with a durable and true claim of exact restoration.
   */
  lemma ExactRestorationIsAttainable(w0: World, p: Plan) returns (run: seq<Event>)
    requires Possible(w0, p)
    ensures Legal(w0, run) && Undisturbed(run) && After(w0, run).durable.exact && After(w0, run).table == w0.table
    ensures After(w0, run).durable.operation == Some(ManifestOf(p))
    ensures Resumed(0, Some(p.bootstrap.identity.positiveSid)) in run
            && Resumed(1, Some(p.bootstrap.identity.positiveSid)) in run
  {
    hide SidBytes, MappingOf, Legal, After, Sound, Flushable, Fresh, BootstrapBound, ManifestOK, IdentityOK, Positive,
      Reviewer, Done, Ready,
      MayResume, HasKind, AddAttempted, RecordOK;
    var w, l;
    run, w, l := AddedThenWithdrawn(w0, p);
    ghost var d, added := p.bootstrap.identity, run;
    CleanupObserved(w, l, PreDelete, p.added);
    l := l.(observations := l.observations[PreDelete := p.added]);
    PositiveIs(d);
    l := MadeReady(w0, run, w, l, p, Delete);
    run, w := run + [Flushed(l)], w.(durable := l);
    run, w, l := Ran(w0, run, w, l, p, Delete, 1);
    StaysIn(added, run, Resumed(0, Some(d.positiveSid)));
    assert w.table == w0.table;
    CleanupObserved(w, l, PostDelete, p.clean);
    l := l.(observations := l.observations[PostDelete := p.clean]);
    CleanedUp(w, l, true, Some(p.completedMs));
    l := l.(phase := Cleaned, deleteVerified := true, othersPreserved := true, exact := true,
            completedMs := Some(p.completedMs));
    OnDisk(w0, run, w, l);
    run := run + [Flushed(l)];
  }

  lemma StaysIn(a: seq<Event>, b: seq<Event>, e: Event)
    requires a <= b && e in a
    ensures e in b
  {
    var k :| 0 <= k < |a| && a[k] == e;
    assert b[k] == e;
  }

  lemma PositiveIs(d: Identity)
    requires IdentityOK(d)
    ensures SidBytes(d.positiveSid).Some? && SidBytes(d.positiveSid).value == Positive(d)
  {
    hide SidBytes;
  }
}
