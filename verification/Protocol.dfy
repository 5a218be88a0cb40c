/**
 The write-ahead protocol between the coordinator, its durable ledger and the shared table.

 A run is a sequence of events.  `Guard` says when one event may follow a given world; it
 looks at that world only.  The theorems below are about whole runs and all their prefixes,
 and a crash is a run cut short at any event.
 */
module Protocol {
  import opened Bytes
  import opened Sid
  import opened Snapshot
  import opened Ledger

  datatype Request = ProfileCreated | ProbeFinished

  datatype Event =
    | Flushed(ledger: Ledger)                          // the ledger reached the disk
    | Resumed(command: nat, sid: Option<string>)       // a child process may now run
    | Changed(attributes: Option<int>)                 // the running child set or removed its entry
    | Foreign(table: Table)                            // another writer changed the table
    | Gone                                             // no child that can change the table is left
    | Served(request: Request)                         // one request slot's bytes were handed out

  /**
   What survives the coordinator: the durable ledger and the operating system's table.
   `foreign` says that somebody other than the coordinator's own children has written the table.
   */
  datatype World = World(
    durable: Ledger,
    original: Table,
    table: Table,
    foreign: bool,
    live: Option<nat>,
    resumed: set<nat>,
    served: set<Request>)

  predicate Kept<T(==)>(before: Option<T>, after: Option<T>) { before.Some? ==> after == before }

  /** How one command record may differ between two flushes. */
  predicate RecordFollows(r: Record, s: Record) {
    && s.kind == r.kind && s.job == r.job && s.output == r.output
    && Kept(r.pid, s.pid) && Kept(r.created, s.created) && Kept(r.exitCode, s.exitCode)
    && (r.resumePermitted ==> s.resumePermitted)
    && (r.resumePermitted && r.resumeAttempted == Some(false) ==> s.resumeAttempted == Some(false))
    && (r.resumeAttempted == Some(true) ==> s.resumeAttempted == Some(true))
  }

  predicate CommandsFollow(before: seq<Record>, after: seq<Record>) {
    |before| <= |after| && forall n :: 0 <= n < |before| ==> RecordFollows(before[n], after[n])
  }

  /** How the ledger may differ between two flushes, however many steps lie between them. */
  predicate Follows(a: Ledger, b: Ledger) {
    && b.fixed == a.fixed
    && Kept(a.bootstrap, b.bootstrap) && Kept(a.operation, b.operation) && Kept(a.parent, b.parent)
    && (a.owned ==> b.owned) && (a.readonlyPrepared ==> b.readonlyPrepared)
    && (a.profileConsumed ==> b.profileConsumed) && (a.finishedConsumed ==> b.finishedConsumed)
    && CommandsFollow(a.commands, b.commands)
    && a.readings <= b.readings
    && (a.operation.Some? ==>
          Seen(b.observations, BaselineFirst) == Seen(a.observations, BaselineFirst)
          && Seen(b.observations, Baseline) == Seen(a.observations, Baseline))
    && Kept(a.firstError, b.firstError)
    && (a.addVerified ==> b.addVerified && b.target == a.target)
  }

  /** A ledger that claims nothing the world contradicts. */
  predicate Truthful(w: World, l: Ledger) {
    && (forall n :: n in w.resumed ==>
          n < |l.commands| && l.commands[n].resumePermitted && l.commands[n].resumeAttempted != Some(false))
    && (l.owned ==> w.foreign || Seen(l.observations, Baseline) == Some(w.original))
    && (l.exact ==> w.live == None && (w.foreign || w.table == w.original))
    && (l.cleanupError.Some? ==> l.firstError.Some?)
    && (w.live.Some? ==> l.owned)
    && (!l.owned ==> w.foreign || w.table == w.original)
  }

  /** A cleaned operation with no recorded error was cleaned inside its window. */
  predicate InTime(l: Ledger) {
    l.phase == Cleaned && l.firstError == None ==>
      && l.operation.Some? && l.completedMs.Some?
      && l.operation.value.startedMs <= l.completedMs.value < l.operation.value.deadlineMs
  }

  /** One output file and at most one reading per command, beside the fixed files. */
  predicate Bounded(l: Ledger) {
    && |l.files - {OutputName(|l.commands|)}| <= 11 + |l.commands|
    && |l.readings| <= |l.commands|
  }

  predicate Flushable(w: World, l: Ledger) {
    Accepted(l) && Follows(w.durable, l) && Truthful(w, l) && InTime(l) && Bounded(l)
  }

  /** The table gives `sid` the attribute that was recorded after the addition, if one was. */
  predicate AsRecorded(target: Option<int>, table: Table, sid: Bytes) {
    target.Some? && sid in table ==> table[sid] == target.value
  }

  /** Resuming is allowed for the newest durable record only, with nothing else still running. */
  predicate MayResume(w: World, n: nat, sid: Option<string>) {
    var d := w.durable;
    && w.live == None && n !in w.resumed && n + 1 == |d.commands|
    && d.commands[n].state == Ready && d.commands[n].resumeAttempted == None
    && !d.exact && !d.deleteVerified
    && match d.commands[n].kind {
         case Get => sid == None
         case Abi => sid == None
         case Add =>
           d.phase == AddIntent && d.operation.Some? && sid == Some(d.operation.value.identity.positiveSid)
         case Delete =>
           && d.phase == CleanupIntent && d.operation.Some? && sid == Some(d.operation.value.identity.positiveSid)
           && AddAttempted(d.commands)
           && Seen(d.observations, PreDelete).Some?
           && SidBytes(sid.value).Some? && SidBytes(sid.value).value in Seen(d.observations, PreDelete).value
           && AsRecorded(d.target, Seen(d.observations, PreDelete).value, SidBytes(sid.value).value)
       }
  }

  predicate Consumed(l: Ledger, r: Request) {
    match r
    case ProfileCreated => l.profileConsumed
    case ProbeFinished => l.finishedConsumed
  }

  predicate Guard(w: World, e: Event) {
    match e
    case Flushed(l) => Flushable(w, l)
    case Resumed(n, sid) => MayResume(w, n, sid)
    case Changed(attributes) =>
      && w.live.Some? && w.live.value < |w.durable.commands|
      && match w.durable.commands[w.live.value].kind {
           case Add => attributes.Some? && 0 <= attributes.value < WORD32
           case Delete => attributes == None
           case _ => false
         }
    case Foreign(table) => true
    case Gone => true
    case Served(r) => Consumed(w.durable, r) && r !in w.served
  }

  /** The SID the operation owns, once there is an operation. */
  function Target(w: World): (b: Bytes) {
    if w.durable.operation.Some? && IdentityOK(w.durable.operation.value.identity)
    then Positive(w.durable.operation.value.identity) else []
  }

  function Step(w: World, e: Event): (w': World) {
    match e
    case Flushed(l) => w.(durable := l)
    case Resumed(n, sid) => w.(resumed := w.resumed + {n}, live := if sid.Some? then Some(n) else w.live)
    case Changed(attributes) =>
      w.(table := if attributes.Some? then w.table[Target(w) := attributes.value] else w.table - {Target(w)})
    case Foreign(table) => w.(table := table, foreign := true)
    case Gone => w.(live := None)
    case Served(r) => w.(served := w.served + {r})
  }

  function After(w: World, run: seq<Event>): (w': World) {
    if run == [] then w else Step(After(w, run[..|run| - 1]), run[|run| - 1])
  }

  predicate Legal(w: World, run: seq<Event>) {
    run == [] || (Legal(w, run[..|run| - 1]) && Guard(After(w, run[..|run| - 1]), run[|run| - 1]))
  }

  /** A prepared (or still frozen) ledger nothing has happened to, over any table at all. */
  predicate Fresh(w: World) {
    var d := w.durable;
    && Accepted(d) && (d.phase == Frozen || d.phase == Prepared)
    && d.commands == [] && d.readings == [] && d.observations == map[] && |d.files| <= 11
    && d.bootstrap == None && d.operation == None && d.parent == None && d.outerJob == None && !d.readonlyPrepared
    && !d.profileConsumed && !d.finishedConsumed && d.firstError == None && d.cleanupError == None
    && w.table == w.original && !w.foreign && w.live == None && w.resumed == {} && w.served == {}
  }

  /** What every reachable world satisfies. */
  predicate Sound(w: World) {
    && Accepted(w.durable) && Truthful(w, w.durable) && InTime(w.durable) && Bounded(w.durable)
    && (w.live.Some? ==>
          && w.live.value in w.resumed && w.durable.operation.Some?
          && (w.durable.commands[w.live.value].kind == Add || w.durable.commands[w.live.value].kind == Delete))
    && (w.foreign || w.table - {Target(w)} == w.original - {Target(w)})
    && (w.durable.owned ==> w.foreign || Target(w) !in w.original)
    && (forall r :: r in w.served ==> Consumed(w.durable, r))
  }

  lemma SubsetSize<T>(a: set<T>, b: set<T>)
    requires a <= b
    ensures |a| <= |b|
  {
    assert b == a + (b - a);
  }

  // ----- one step ---------------------------------------------------------------------

  lemma FlushKeeps(w: World, l: Ledger)
    requires Sound(w) && Flushable(w, l)
    ensures Sound(w.(durable := l))
  {
    hide SidBytes, MappingOf;
    var w' := w.(durable := l);
    if w.durable.operation.Some? {
      assert Target(w') == Target(w);
    } else {
      assert w.foreign || w.table == w.original;
    }
  }

  lemma ResumeTruthful(w: World, n: nat, sid: Option<string>, l: Ledger)
    requires Truthful(w, l) && !l.exact && (sid.Some? ==> l.owned)
    requires n < |l.commands| && l.commands[n].resumePermitted && l.commands[n].resumeAttempted != Some(false)
    ensures Truthful(Step(w, Resumed(n, sid)), l)
  {
    hide MappingOf;
  }

  lemma ResumeKeeps(w: World, n: nat, sid: Option<string>)
    requires Sound(w) && MayResume(w, n, sid)
    ensures Sound(Step(w, Resumed(n, sid)))
  {
    hide SidBytes, MappingOf, Accepted, InTime, Bounded, Truthful, Target;
    ReadyIsPermitted(w.durable, n);
    if sid.Some? {
      assert HasKind(w.durable.commands, w.durable.commands[n].kind);
    }
    ResumeTruthful(w, n, sid, w.durable);
    SameTarget(w, Step(w, Resumed(n, sid)));
  }

  lemma SameTarget(w: World, w': World)
    requires w'.durable == w.durable
    ensures Target(w') == Target(w)
  {}

  lemma ReadyIsPermitted(l: Ledger, n: nat)
    requires Accepted(l) && n < |l.commands| && l.commands[n].state == Ready
    ensures l.commands[n].resumePermitted
    ensures HasKind(l.commands, Add) || HasKind(l.commands, Delete) ==> l.owned
  {
    hide SidBytes, MappingOf;
    assert RecordOK(l.fixed.session, n, l.commands[n]);
  }

  lemma ChangeKeeps(w: World, attributes: Option<int>)
    requires Sound(w) && Guard(w, Changed(attributes))
    ensures Sound(Step(w, Changed(attributes)))
  {
    hide SidBytes, MappingOf, Accepted, InTime, Bounded;
    var w' := Step(w, Changed(attributes));
    assert w'.table - {Target(w)} == w.table - {Target(w)};
  }

  lemma ForeignKeeps(w: World, table: Table)
    requires Sound(w)
    ensures Sound(Step(w, Foreign(table)))
  {
    hide SidBytes, MappingOf, Accepted, InTime, Bounded, Target;
    SameTarget(w, Step(w, Foreign(table)));
  }

  lemma GoneKeeps(w: World)
    requires Sound(w)
    ensures Sound(w.(live := None))
  {
    hide SidBytes, MappingOf, Accepted, InTime, Bounded, Target;
    SameTarget(w, w.(live := None));
  }

  lemma ServeKeeps(w: World, r: Request)
    requires Sound(w) && Consumed(w.durable, r)
    ensures Sound(w.(served := w.served + {r}))
  {
    hide SidBytes, MappingOf, Accepted, InTime, Bounded, Target;
    SameTarget(w, w.(served := w.served + {r}));
  }

  lemma StepKeeps(w: World, e: Event)
    requires Sound(w) && Guard(w, e)
    ensures Sound(Step(w, e))
  {
    hide Sound, MayResume, Flushable, Consumed, Target;
    match e {
      case Flushed(l) => FlushKeeps(w, l);
      case Resumed(n, sid) => ResumeKeeps(w, n, sid);
      case Changed(attributes) => ChangeKeeps(w, attributes);
      case Foreign(table) => ForeignKeeps(w, table);
      case Gone => GoneKeeps(w);
      case Served(r) => ServeKeeps(w, r);
    }
  }

  // ----- whole runs -------------------------------------------------------------------

  lemma {:induction false} LegalPrefix(w: World, run: seq<Event>, k: nat)
    requires Legal(w, run) && k <= |run|
    ensures Legal(w, run[..k])
  {
    hide Guard, After, Step;
    if k < |run| {
      LegalPrefix(w, run[..|run| - 1], k);
      assert run[..|run| - 1][..k] == run[..k];
    } else {
      assert run[..k] == run;
    }
  }

  lemma {:induction false} ReachableSound(w: World, run: seq<Event>)
    requires Fresh(w) && Legal(w, run)
    ensures Sound(After(w, run))
  {
    if run == [] {
      assert w.durable.files - {OutputName(0)} <= w.durable.files;
      SubsetSize(w.durable.files - {OutputName(0)}, w.durable.files);
      assert w.table - {Target(w)} == w.original - {Target(w)};
    } else {
      ReachableSound(w, run[..|run| - 1]);
      StepKeeps(After(w, run[..|run| - 1]), run[|run| - 1]);
    }
  }

  lemma Append(w: World, run: seq<Event>, e: Event)
    requires Legal(w, run) && Guard(After(w, run), e)
    ensures Legal(w, run + [e]) && After(w, run + [e]) == Step(After(w, run), e)
  {
    assert (run + [e])[..|run|] == run;
  }

  lemma RecordFollowsTrans(r: Record, s: Record, t: Record)
    requires RecordFollows(r, s) && RecordFollows(s, t)
    ensures RecordFollows(r, t)
  {}

  lemma FollowsTrans(a: Ledger, b: Ledger, c: Ledger)
    requires Follows(a, b) && Follows(b, c)
    ensures Follows(a, c)
  {
    hide MappingOf;
    forall n | 0 <= n < |a.commands| ensures RecordFollows(a.commands[n], c.commands[n]) {
      RecordFollowsTrans(a.commands[n], b.commands[n], c.commands[n]);
    }
  }

  /** Ledgers on disk only ever move forward. */
  lemma {:induction false} DurableFollows(w: World, run: seq<Event>, i: nat)
    requires Fresh(w) && Legal(w, run) && i <= |run|
    ensures Follows(After(w, run[..i]).durable, After(w, run).durable)
    ensures After(w, run[..i]).resumed <= After(w, run).resumed
    ensures After(w, run[..i]).served <= After(w, run).served
    ensures After(w, run).original == w.original
  {
    hide Follows, Flushable;
    if i == |run| {
      assert run[..i] == run;
      FollowsRefl(After(w, run).durable);
      if run != [] { DurableFollows(w, run[..|run| - 1], |run| - 1); }
    } else {
      var front := run[..|run| - 1];
      DurableFollows(w, front, i);
      assert front[..i] == run[..i];
      LastStepFollows(After(w, front), run[|run| - 1]);
      FollowsTrans(After(w, run[..i]).durable, After(w, front).durable, After(w, run).durable);
    }
  }

  lemma FollowsRefl(a: Ledger)
    ensures Follows(a, a)
  {}

  lemma LastStepFollows(w: World, e: Event)
    requires Guard(w, e)
    ensures Follows(w.durable, Step(w, e).durable)
  {
    FollowsRefl(w.durable);
  }
}
