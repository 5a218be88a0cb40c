/**
 One payload from the launcher's first step to its last, with the namespace's init and the payload
 running beside it: what the error pipe, the two frames and the exit status can be relied on for.

 A run interleaves the steps of the three processes in any order their guards allow.
 */
module Launch {
  import opened Bytes
  import opened ResourceChannel

  datatype Stage = Preparing | Configuring | Awaiting | Supervising | Waiting | Reading | Finishing | Reporting | Over

  datatype Init = Unborn | Starting | Watching | Dead

  datatype Payload = Absent | SettingUp | Executing | Gone

  datatype Event =
    // the launcher
    | QuotaPrepared(ok: bool)
    | ConfiguredSent(ok: bool)
    | AckRead(ok: bool)
    | SetUpFailed                      // namespaces, listener hand-off, pipes or fork
    | InitForked
    | Waited(ok: bool)
    | MarkerRead(count: int)
    | QuotaFinished(ok: bool)
    | Reported(ok: bool)
    // the namespace's init
    | InitFailed(written: bool)        // any failure before it has a payload
    | PayloadForked
    | InitExited(status: int)
    // the payload
    | PayloadFailed(status: int, written: bool)
    | PayloadExecuted
    | PayloadExited(status: int, descendants: bool)

  datatype World = World(
    stage: Stage,
    preexecFailed: bool,
    cleanupFailed: bool,
    result: int,
    attempted: seq<Phase>,             // frames the launcher tried to send
    delivered: seq<Phase>,             // frames the socket took
    acked: bool,
    waited: bool,
    readOk: bool,
    init: Init,
    initStatus: int,
    payload: Payload,
    payloadStatus: Option<int>,
    busy: bool,                        // descendants of the payload are left in its leaf
    leafRemoved: bool,
    executed: bool,                    // the command was ever started
    marks: nat)                        // bytes ever written to the error pipe

  const FIRST := World(Preparing, false, false, 0, [], [], false, false, false, Unborn, 1, Absent, None, false, false,
                       false, 0)

  /** Somebody still holds the writing end of the error pipe; the launcher closed its own. */
  predicate WriterOpen(w: World) { w.init == Starting || w.payload == SettingUp }

  predicate Populated(w: World) { w.payload == SettingUp || w.payload == Executing || w.busy }

  function Terminal(w: World): (p: Phase) {
    if w.cleanupFailed then CleanupFailed else if w.preexecFailed then PreexecFailed else Finished
  }

  predicate Guard(w: World, e: Event) {
    match e
    case QuotaPrepared(ok) => w.stage == Preparing
    case ConfiguredSent(ok) => w.stage == Configuring
    case AckRead(ok) => w.stage == Awaiting
    case SetUpFailed => w.stage == Supervising
    case InitForked => w.stage == Supervising
    case Waited(ok) => w.stage == Waiting && (ok ==> w.init == Dead)
    case MarkerRead(count) =>
      // any read may fail; a successful one returns what is there, and nothing only when no writer is left
      && w.stage == Reading && (count >= 0 ==> count == (if w.marks < 2 then w.marks else 2))
      && (count == 0 ==> !WriterOpen(w))
    case QuotaFinished(ok) => w.stage == Finishing && (ok ==> !Populated(w))
    case Reported(ok) => w.stage == Reporting
    case InitFailed(written) => w.init == Starting
    case PayloadForked => w.init == Starting && !w.leafRemoved
    case InitExited(status) =>
      // killed at any time, or the status of a reaped payload
      (w.init == Starting || w.init == Watching) && (status == 0 ==> w.payload == Gone && w.payloadStatus == Some(0))
    case PayloadFailed(status, written) => w.payload == SettingUp && status != 0  // an exit, or killed
    case PayloadExecuted => w.payload == SettingUp
    case PayloadExited(status, descendants) => w.payload == Executing
  }

  function Step(w: World, e: Event): (w': World) {
    match e
    case QuotaPrepared(ok) =>
      w.(stage := if ok then Configuring else Reporting, result := if ok then w.result else 1,
         preexecFailed := w.preexecFailed || !ok)
    case ConfiguredSent(ok) =>
      w.(attempted := w.attempted + [Configured], delivered := if ok then w.delivered + [Configured] else w.delivered,
         stage := if ok then Awaiting else Finishing, result := if ok then w.result else 1,
         preexecFailed := w.preexecFailed || !ok)
    case AckRead(ok) =>
      w.(stage := if ok then Supervising else Finishing, acked := w.acked || ok, result := if ok then w.result else 1,
         preexecFailed := w.preexecFailed || !ok)
    case SetUpFailed => w.(stage := Finishing, result := 1, preexecFailed := true)
    case InitForked => w.(stage := Waiting, init := Starting)
    case Waited(ok) => w.(stage := Reading, waited := ok, result := if ok then w.initStatus else 1)
    case MarkerRead(count) => w.(stage := Finishing, readOk := count >= 0, preexecFailed := w.preexecFailed
                                 || count == 1)
    case QuotaFinished(ok) =>
      w.(stage := Reporting, leafRemoved := w.leafRemoved || ok, result := if ok then w.result else 1,
         cleanupFailed := w.cleanupFailed || !ok)
    case Reported(ok) =>
      w.(stage := Over, attempted := w.attempted + [Terminal(w)],
         delivered := if ok then w.delivered + [Terminal(w)] else w.delivered, result := if ok then w.result else 1)
    case InitFailed(written) => w.(init := Dead, initStatus := 1, marks := if written then w.marks + 1 else w.marks)
    case PayloadForked => w.(init := Watching, payload := SettingUp)
    case InitExited(status) =>
      // the kernel ends every process of the namespace with its init
      w.(init := Dead, initStatus := status, busy := false, payload := if w.payload == Absent then Absent else Gone)
    case PayloadFailed(status, written) =>
      w.(payload := Gone, payloadStatus := Some(status), marks := if written then w.marks + 1 else w.marks)
    case PayloadExecuted => w.(payload := Executing, executed := true)
    case PayloadExited(status, descendants) => w.(payload := Gone, payloadStatus := Some(status), busy := descendants)
  }

  function After(run: seq<Event>): (w: World) {
    if run == [] then FIRST else Step(After(run[..|run| - 1]), run[|run| - 1])
  }

  predicate Legal(run: seq<Event>) {
    run == [] || (Legal(run[..|run| - 1]) && Guard(After(run[..|run| - 1]), run[|run| - 1]))
  }

  // ----- what holds after every event ------------------------------------------------------

  /** The processes. */
  predicate ProcessesAgree(init: Init, initStatus: int, payload: Payload, payloadStatus: Option<int>, busy: bool,
                           leafRemoved: bool,
                           executed: bool, marks: nat) {
    && (payload != Absent ==> init == Watching || init == Dead)
    && (init == Watching ==> payload != Absent)
    && (init == Dead ==> payload == Absent || payload == Gone)
    && (busy ==> payload == Gone && init == Watching)
    && (init == Unborn ==> payload == Absent && !busy && marks == 0 && !executed)
    && (payload == Absent ==> !executed && payloadStatus == None)
    && (payload == SettingUp ==> !executed && payloadStatus == None && marks == 0)
    && (payload == Executing ==> executed && payloadStatus == None)
    && (init == Starting ==> marks == 0)
    && marks <= 1 && (marks == 1 ==> !executed)
    && (payloadStatus == Some(0) ==> executed)
    && (init == Dead && initStatus == 0 ==> payloadStatus == Some(0))
    && (leafRemoved ==> payload != SettingUp && payload != Executing && !busy)
  }

  predicate ProcessesSound(w: World) {
    ProcessesAgree(w.init, w.initStatus, w.payload, w.payloadStatus, w.busy, w.leafRemoved, w.executed, w.marks)
  }

  /** The launcher's own record. */
  predicate RecordSound(w: World) {
    && (w.stage == Preparing || w.stage == Configuring ==> w.attempted == [] && w.delivered == [] && w.init == Unborn)
    && (w.stage == Preparing || w.stage == Configuring || w.stage == Awaiting || w.stage == Supervising ==>
          w.init == Unborn && w.result == 0 && !w.preexecFailed && !w.leafRemoved)
    && (w.stage == Awaiting || w.stage == Supervising || w.stage == Waiting || w.stage == Reading ==>
          w.attempted == [Configured] && w.delivered == [Configured] && !w.leafRemoved)
    && (w.stage == Finishing ==> w.attempted == [Configured] && !w.leafRemoved)
    && (w.stage == Reporting ==>
          w.attempted == [Configured] || (w.attempted == [] && w.preexecFailed && !w.cleanupFailed && w.init == Unborn))
    && (w.stage == Over ==>
          || w.attempted == [Configured, Terminal(w)]
          || (w.attempted == [PreexecFailed] && w.preexecFailed && !w.cleanupFailed && w.init == Unborn))
    && (w.stage == Over || w.delivered == w.attempted
        || (w.attempted == [Configured] && w.delivered == [] && w.preexecFailed))
    && (w.stage == Supervising || w.stage == Waiting || w.stage == Reading || w.init != Unborn ==>
          w.acked && w.attempted != [] && w.attempted[0] == Configured && w.delivered != []
            && w.delivered[0] == Configured)
    && (w.cleanupFailed ==> (w.stage == Reporting || w.stage == Over) && w.result == 1)
    && (w.stage == Reporting && !w.cleanupFailed && w.attempted != [] ==> w.leafRemoved)
    && (w.stage == Over && Terminal(w) == Finished ==> w.leafRemoved)
  }

  /** The launcher's flag, its reading of the pipe and its exit status against what happened. */
  predicate VerdictSound(w: World) {
    && (w.stage == Waiting || w.stage == Reading ==> !w.preexecFailed && w.init != Unborn)
    && (w.preexecFailed ==> !w.executed && (w.init == Unborn || w.marks == 1))
    && (w.readOk && !w.preexecFailed ==> w.marks == 0 && !WriterOpen(w))
    && (w.stage == Waiting ==> w.result == 0 && !w.readOk)
    && (w.stage == Reading ==> !w.readOk && (w.result == 0 ==> w.waited && w.init == Dead && w.initStatus == 0))
    && (w.stage == Finishing || w.stage == Reporting || w.stage == Over ==>
          w.result == 0 ==> w.waited && w.init == Dead && w.initStatus == 0 && !w.cleanupFailed)
    && (w.stage == Finishing || w.stage == Reporting || w.stage == Over ==> w.init == Unborn ==> w.preexecFailed)
    && (w.stage == Over && w.result == 0 ==> w.delivered == [Configured, Terminal(w)])
    && (w.waited ==> w.init == Dead)
    && (w.init == Unborn ==> !w.waited && !w.readOk)
  }

  predicate Sound(w: World) { ProcessesSound(w) && RecordSound(w) && VerdictSound(w) }

  predicate OfInit(e: Event) { e.InitFailed? || e.PayloadForked? || e.InitExited? }

  predicate OfPayload(e: Event) { e.PayloadFailed? || e.PayloadExecuted? || e.PayloadExited? }

  lemma InitKeepsProcesses(w: World, e: Event)
    requires Sound(w) && Guard(w, e) && OfInit(e)
    ensures ProcessesSound(Step(w, e))
  {
    hide RecordSound, VerdictSound, Terminal;
  }

  lemma PayloadKeepsProcesses(w: World, e: Event)
    requires Sound(w) && Guard(w, e) && OfPayload(e)
    ensures ProcessesSound(Step(w, e))
  {
    hide RecordSound, VerdictSound, Terminal;
  }

  lemma LauncherKeepsProcesses(w: World, e: Event)
    requires Sound(w) && Guard(w, e) && !OfInit(e) && !OfPayload(e)
    ensures ProcessesSound(Step(w, e))
  {
    hide ProcessesSound, Guard, Step;
    match e
    case InitForked => ForkKeepsProcesses(w);
    case QuotaFinished(ok) => FinishKeepsProcesses(w, ok);
    case QuotaPrepared(ok) => EarlyKeepsProcesses(w, e);
    case ConfiguredSent(ok) => EarlyKeepsProcesses(w, e);
    case AckRead(ok) => EarlyKeepsProcesses(w, e);
    case SetUpFailed => EarlyKeepsProcesses(w, e);
    case Waited(ok) => LateKeepsProcesses(w, e);
    case MarkerRead(count) => LateKeepsProcesses(w, e);
    case Reported(ok) => LateKeepsProcesses(w, e);
  }

  /** Before there are processes the launcher touches its own record only, */
  lemma EarlyKeepsProcesses(w: World, e: Event)
    requires ProcessesSound(w) && (e.QuotaPrepared? || e.ConfiguredSent? || e.AckRead? || e.SetUpFailed?)
    ensures ProcessesSound(Step(w, e))
  {
    hide ProcessesAgree, Step;
    match e
    case QuotaPrepared(ok) => QuotaKeepsProcesses(w, ok);
    case ConfiguredSent(ok) => ConfiguredKeepsProcesses(w, ok);
    case AckRead(ok) => AckKeepsProcesses(w, ok);
    case SetUpFailed => SetUpKeepsProcesses(w);
  }

  lemma QuotaKeepsProcesses(w: World, ok: bool)
    requires ProcessesSound(w)
    ensures ProcessesSound(Step(w, QuotaPrepared(ok)))
  {
    hide ProcessesAgree;
  }

  lemma ConfiguredKeepsProcesses(w: World, ok: bool)
    requires ProcessesSound(w)
    ensures ProcessesSound(Step(w, ConfiguredSent(ok)))
  {
    hide ProcessesAgree;
  }

  lemma AckKeepsProcesses(w: World, ok: bool)
    requires ProcessesSound(w)
    ensures ProcessesSound(Step(w, AckRead(ok)))
  {
    hide ProcessesAgree;
  }

  lemma SetUpKeepsProcesses(w: World)
    requires ProcessesSound(w)
    ensures ProcessesSound(Step(w, SetUpFailed))
  {
    hide ProcessesAgree;
  }

  /** and so it does when they are gone. */
  lemma LateKeepsProcesses(w: World, e: Event)
    requires ProcessesSound(w) && (e.Waited? || e.MarkerRead? || e.Reported?)
    ensures ProcessesSound(Step(w, e))
  {
    hide ProcessesAgree, Terminal;
    match e
    case Waited(ok) =>
    case MarkerRead(count) =>
    case Reported(ok) =>
  }

  lemma ForkKeepsProcesses(w: World)
    requires Sound(w) && Guard(w, InitForked)
    ensures ProcessesSound(Step(w, InitForked))
  {
    hide VerdictSound, Terminal;
  }

  lemma FinishKeepsProcesses(w: World, ok: bool)
    requires Sound(w) && Guard(w, QuotaFinished(ok))
    ensures ProcessesSound(Step(w, QuotaFinished(ok)))
  {
    hide VerdictSound, RecordSound;
  }

  lemma OthersKeepStage(w: World, e: Event)
    requires OfInit(e) || OfPayload(e)
    ensures Step(w, e).stage == w.stage
  {
    match e
    case InitFailed(written) =>
    case PayloadForked =>
    case InitExited(status) =>
    case PayloadFailed(status, written) =>
    case PayloadExecuted =>
    case PayloadExited(status, descendants) =>
  }

  lemma ProcessesKept(w: World, e: Event)
    requires Sound(w) && Guard(w, e)
    ensures ProcessesSound(Step(w, e))
  {
    hide ProcessesSound, RecordSound, VerdictSound, Guard, Step;
    if OfInit(e) {
      InitKeepsProcesses(w, e);
    } else if OfPayload(e) {
      PayloadKeepsProcesses(w, e);
    } else {
      LauncherKeepsProcesses(w, e);
    }
  }

  lemma RecordKept(w: World, e: Event)
    requires Sound(w) && Guard(w, e)
    ensures RecordSound(Step(w, e))
  {}

  lemma VerdictKept(w: World, e: Event)
    requires Sound(w) && Guard(w, e)
    ensures VerdictSound(Step(w, e))
  {}

  lemma {:induction false} ReachableSound(run: seq<Event>)
    requires Legal(run)
    ensures Sound(After(run))
  {
    hide ProcessesSound, RecordSound, VerdictSound, Guard, Step;
    if run == [] {
      FirstSound();
    } else {
      var front, e := run[..|run| - 1], run[|run| - 1];
      ReachableSound(front);
      ProcessesKept(After(front), e);
      RecordKept(After(front), e);
      VerdictKept(After(front), e);
    }
  }

  lemma FirstSound()
    ensures Sound(FIRST)
  {}

  // ----- what a reader of the transcript may rely on -----------------------------------------

  /** Whatever the interleaving, one failure byte at most, and never from a task whose command started. */
  lemma AtMostOneMarker(run: seq<Event>)
    requires Legal(run)
    ensures After(run).marks <= 1
    ensures After(run).marks == 1 ==> !After(run).executed
  {
    hide After, Legal, Guard, Step, RecordSound, VerdictSound;
    ReachableSound(run);
  }

  predicate IsTerminal(p: Phase) { p != Configured }

  /** Over a whole run one terminal frame is attempted, as the last one; CONFIGURED comes before it or not at all. */
  lemma OneTerminalFrame(run: seq<Event>)
    requires Legal(run)
    ensures var w := After(run);
            && (w.stage == Over ==>
                  && |w.attempted| > 0 && IsTerminal(w.attempted[|w.attempted| - 1])
                  && (w.attempted == [PreexecFailed] || (|w.attempted| == 2 && w.attempted[0] == Configured)))
            && (w.stage != Over ==> forall p :: p in w.attempted ==> !IsTerminal(p))
  {
    hide After, Legal, Guard, Step, ProcessesSound, VerdictSound;
    ReachableSound(run);
    var w := After(run);
    assert w.stage != Over ==> w.attempted == [] || w.attempted == [Configured];
  }

  /** Neither init nor payload exists before CONFIGURED was taken by the socket and its acknowledgement accepted. */
  lemma SupervisionFollowsAcknowledgement(run: seq<Event>)
    requires Legal(run) && (After(run).init != Unborn || After(run).payload != Absent || After(run).executed)
    ensures After(run).acked && After(run).delivered != [] && After(run).delivered[0] == Configured
  {
    hide After, Legal, Guard, Step;
    ReachableSound(run);
  }

  /** PREEXEC_FAILED is never wrong: the command was not started, and will not be. */
  lemma PreexecFailedIsTrue(run: seq<Event>)
    requires Legal(run) && PreexecFailed in After(run).attempted
    ensures !After(run).executed
  {
    hide After, Legal, Guard, Step;
    ReachableSound(run);
  }

  /** FINISHED means the payload leaf is gone, and with it every process that was or could be in it. */
  lemma FinishedMeansEmpty(run: seq<Event>)
    requires Legal(run) && Finished in After(run).attempted
    ensures var w := After(run); w.leafRemoved && !Populated(w) && !w.cleanupFailed && !w.preexecFailed && w.acked
  {
    hide After, Legal, Guard, Step;
    ReachableSound(run);
  }

  /** What the launcher learned: whether the pipe could be read, and init's status if waiting for it succeeded. */
  predicate Saw(w: World, readOk: bool, status: Option<int>) {
    w.readOk == readOk && w.waited == status.Some? && (status.Some? ==> w.initStatus == status.value)
  }

  /** A run that reported FINISHED to a launcher that learned this much. */
  predicate FinishedKnowing(run: seq<Event>, readOk: bool, status: Option<int>) {
    Legal(run) && Finished in After(run).attempted && Saw(After(run), readOk, status)
  }

  /** FINISHED, and a readable pipe or init's status 0: no failure byte was written. */
  lemma FinishedWithoutMarker(run: seq<Event>, readOk: bool, status: Option<int>)
    requires FinishedKnowing(run, readOk, status) && (readOk || status == Some(0))
    ensures After(run).marks == 0
  {
    hide After, Legal, Guard, Step;
    ReachableSound(run);
  }

  /**
   "FINISHED implies no marker" is false as it stands.  Over everything the launcher can have
   learned, it holds exactly when the pipe was read or init was reaped with status 0.
   */
  lemma FinishedRulesOutMarker(readOk: bool, status: Option<int>)
    ensures (forall run :: FinishedKnowing(run, readOk, status) ==> After(run).marks == 0)
            <==> readOk || status == Some(0)
  {
    hide After, Legal, FinishedKnowing;
    if readOk || status == Some(0) {
      forall run | FinishedKnowing(run, readOk, status) ensures After(run).marks == 0 {
        FinishedWithoutMarker(run, readOk, status);
      }
    } else {
      var run := UnheardMarker(status);
    }
  }

  /** The error pipe does not block, so a read fails only while it is empty and somebody may hold its writing end. */
  predicate PipeReads(run: seq<Event>) {
    run == [] || (
      var e := run[|run| - 1];
      && PipeReads(run[..|run| - 1])
      && (e.MarkerRead? && e.count < 0 ==> After(run[..|run| - 1]).marks == 0 && After(run[..|run| - 1]).init != Dead))
  }

  predicate PastReading(s: Stage) { s == Finishing || s == Reporting || s == Over }

  /** Nobody has been waited for before there is an init, and who has been waited for is dead. */
  lemma WaitedIsDead(w: World)
    requires Sound(w)
    ensures w.waited ==> w.init == Dead
    ensures w.stage == Preparing || w.stage == Configuring || w.stage == Awaiting || w.stage == Supervising ==>
            !w.waited
  {
    hide ProcessesSound;
  }

  lemma ReapedStep(w: World, e: Event)
    requires Guard(w, e) && (e.MarkerRead? && e.count < 0 ==> w.init != Dead) && (w.waited ==> w.init == Dead)
    requires w.stage == Preparing || w.stage == Configuring || w.stage == Awaiting || w.stage == Supervising ==>
             !w.waited
    requires w.waited && PastReading(w.stage) ==> w.readOk
    ensures Step(w, e).waited && PastReading(Step(w, e).stage) ==> Step(w, e).readOk
  {
    hide Step;
    if OfInit(e) || OfPayload(e) {
      OthersKeepReading(w, e);
    } else if e.Waited? || e.MarkerRead? {
      WaitAndRead(w, e);
    } else {
      LauncherKeepsReading(w, e);
    }
  }

  lemma OthersKeepReading(w: World, e: Event)
    requires OfInit(e) || OfPayload(e)
    ensures Step(w, e).stage == w.stage && Step(w, e).waited == w.waited && Step(w, e).readOk == w.readOk
  {
    match e
    case InitFailed(written) =>
    case PayloadForked =>
    case InitExited(status) =>
    case PayloadFailed(status, written) =>
    case PayloadExecuted =>
    case PayloadExited(status, descendants) =>
  }

  lemma WaitAndRead(w: World, e: Event)
    requires e.Waited? || e.MarkerRead?
    ensures e.Waited? ==> Step(w, e).stage == Reading
    ensures e.MarkerRead? ==> Step(w, e).waited == w.waited && Step(w, e).readOk == (e.count >= 0)
  {
    match e
    case Waited(ok) =>
    case MarkerRead(count) =>
  }

  lemma LauncherKeepsReading(w: World, e: Event)
    requires !OfInit(e) && !OfPayload(e) && !e.Waited? && !e.MarkerRead?
    ensures Step(w, e).waited == w.waited && Step(w, e).readOk == w.readOk
  {
    match e
    case QuotaPrepared(ok) =>
    case ConfiguredSent(ok) =>
    case AckRead(ok) =>
    case SetUpFailed =>
    case InitForked =>
    case QuotaFinished(ok) =>
    case Reported(ok) =>
  }

  /** With such a pipe, the read succeeds once init has been reaped. */
  lemma {:induction false} ReapedMeansRead(run: seq<Event>)
    requires Legal(run) && PipeReads(run)
    ensures After(run).waited && PastReading(After(run).stage) ==> After(run).readOk
  {
    hide Guard, Step, Sound;
    if run == [] {
    } else {
      var front := run[..|run| - 1];
      ReapedMeansRead(front);
      ReachableSound(front);
      WaitedIsDead(After(front));
      ReapedStep(After(front), run[|run| - 1]);
    }
  }

  /** For runs over such a pipe, "FINISHED implies no marker" holds exactly when it was read or init was reaped. */
  lemma FinishedRulesOutMarkerInPipe(readOk: bool, status: Option<int>)
    ensures (forall run :: FinishedKnowing(run, readOk, status) && PipeReads(run) ==> After(run).marks == 0)
            <==> readOk || status.Some?
  {
    hide After, Legal, PipeReads, FinishedKnowing;
    if readOk || status.Some? {
      forall run | FinishedKnowing(run, readOk, status) && PipeReads(run) ensures After(run).marks == 0 {
        KnownRead(run, readOk, status);
        FinishedWithoutMarker(run, true, status);
      }
    } else {
      var run := UnheardMarker(status);
    }
  }

  lemma FinishedIsOver(run: seq<Event>)
    requires Legal(run) && Finished in After(run).attempted
    ensures After(run).stage == Over
  {
    hide After, Legal, Guard, Step;
    ReachableSound(run);
  }

  lemma KnownRead(run: seq<Event>, readOk: bool, status: Option<int>)
    requires FinishedKnowing(run, readOk, status) && PipeReads(run) && (readOk || status.Some?)
    ensures FinishedKnowing(run, true, status)
  {
    hide After, Legal, PipeReads;
    FinishedIsOver(run);
    if !readOk { ReapedMeansRead(run); }
  }

  lemma Extend(run: seq<Event>, e: Event)
    requires Legal(run) && Guard(After(run), e)
    ensures Legal(run + [e]) && After(run + [e]) == Step(After(run), e)
    ensures PipeReads(run) && !(e.MarkerRead? && e.count < 0) ==> PipeReads(run + [e])
    ensures PipeReads(run) && After(run).marks == 0 && After(run).init != Dead ==> PipeReads(run + [e])
  {
    hide Guard, Step;
    assert (run + [e])[..|run|] == run;
  }

  /** A run to FINISHED with a byte nobody heard, for whatever the launcher can see of init but status 0. */
  lemma UnheardMarker(status: Option<int>) returns (run: seq<Event>)
    requires status != Some(0)
    ensures FinishedKnowing(run, false, status) && After(run).marks == 1
    ensures status == None ==> PipeReads(run)
  {
    hide After, Legal, PipeReads;
    run := if status == None then Unawaited() else Reaped(status.value);
    if status == None { UnawaitedUnheard(); } else { ReapedUnheard(status.value); }
    Extend(run, QuotaFinished(true));
    run := run + [QuotaFinished(true)];
    Extend(run, Reported(true));
    run := run + [Reported(true)];
  }

  const OPENING: seq<Event> := [QuotaPrepared(true), ConfiguredSent(true), AckRead(true), InitForked]

  const WAITING := FIRST.(stage := Waiting, attempted := [Configured], delivered := [Configured], acked := true,
                          init := Starting)

  /** Waiting fails, the pipe is still empty, and init fails afterwards. */
  function Unawaited(): (run: seq<Event>) { OPENING + [Waited(false)] + [MarkerRead(-1)] + [InitFailed(true)] }

  /** The payload fails before its command, init passes on any failure, and the read of the pipe fails. */
  function Reaped(status: int): (run: seq<Event>) {
    OPENING + [PayloadForked] + [PayloadFailed(1, true)] + [InitExited(status)] + [Waited(true)] + [MarkerRead(-1)]
  }

  lemma UnawaitedUnheard()
    ensures Legal(Unawaited()) && PipeReads(Unawaited())
    ensures After(Unawaited()) == WAITING.(stage := Finishing, result := 1, init := Dead, marks := 1)
  {
    hide After, Legal, PipeReads;
    Opened();
    var run := OPENING;
    Extend(run, Waited(false));
    run := run + [Waited(false)];
    Extend(run, MarkerRead(-1));
    run := run + [MarkerRead(-1)];
    Extend(run, InitFailed(true));
  }

  lemma ReapedUnheard(status: int)
    requires status != 0
    ensures Legal(Reaped(status))
    ensures After(Reaped(status)) == WAITING.(stage := Finishing, result := status, waited := true, init := Dead,
                                              initStatus := status, payload := Gone, payloadStatus := Some(1),
                                                marks := 1)
  {
    hide After, Legal, PipeReads;
    Opened();
    var run := OPENING;
    Extend(run, PayloadForked);
    run := run + [PayloadForked];
    Extend(run, PayloadFailed(1, true));
    run := run + [PayloadFailed(1, true)];
    Extend(run, InitExited(status));
    run := run + [InitExited(status)];
    Extend(run, Waited(true));
    run := run + [Waited(true)];
    Extend(run, MarkerRead(-1));
  }

  lemma Opened()
    ensures Legal(OPENING) && PipeReads(OPENING) && After(OPENING) == WAITING
  {
    hide After, Legal, PipeReads;
    Start();
    var a: seq<Event> := [] + [QuotaPrepared(true)];
    var b, c := a + [ConfiguredSent(true)], a + [ConfiguredSent(true)] + [AckRead(true)];
    Extend([], QuotaPrepared(true));
    Extend(a, ConfiguredSent(true));
    Extend(b, AckRead(true));
    Extend(c, InitForked);
    assert c + [InitForked] == OPENING;
  }

  lemma Start()
    ensures Legal([]) && PipeReads([]) && After([]) == FIRST
  {}

  /** Exit status 0 is earned: the command ran, it exited 0, its leaf is gone, and FINISHED was delivered. */
  lemma ZeroMeansSuccess(run: seq<Event>)
    requires Legal(run) && After(run).stage == Over && After(run).result == 0
    ensures var w := After(run);
            w.executed && w.payloadStatus == Some(0) && w.leafRemoved && w.delivered == [Configured, Finished]
  {
    hide After, Legal, Guard, Step;
    ReachableSound(run);
  }

  // ----- the launcher's own events ---------------------------------------------------------------

  predicate OfLauncher(e: Event) { !OfInit(e) && !OfPayload(e) }

  function Own(run: seq<Event>): (own: seq<Event>) {
    if run == [] then []
    else Own(run[..|run| - 1]) + if OfLauncher(run[|run| - 1]) then [run[|run| - 1]] else []
  }

  /** Everything up to the quota's end: a failure on the way, or a payload waited for and its pipe read. */
  predicate Supervision(own: seq<Event>) {
    || own == [QuotaPrepared(true), ConfiguredSent(false)]
    || own == [QuotaPrepared(true), ConfiguredSent(true), AckRead(false)]
    || own == [QuotaPrepared(true), ConfiguredSent(true), AckRead(true), SetUpFailed]
    || (|own| == 6 && own[..4] == OPENING && own[4].Waited? && own[5].MarkerRead?)
  }

  /** Without a quota there is nothing to finish; with one it is always finished. */
  predicate Wound(own: seq<Event>) {
    || own == [QuotaPrepared(false)]
    || (own != [] && own[|own| - 1].QuotaFinished? && Supervision(own[..|own| - 1]))
  }

  predicate AtStage(stage: Stage, own: seq<Event>) {
    match stage
    case Preparing => own == []
    case Configuring => own == [QuotaPrepared(true)]
    case Awaiting => own == [QuotaPrepared(true), ConfiguredSent(true)]
    case Supervising => own == [QuotaPrepared(true), ConfiguredSent(true), AckRead(true)]
    case Waiting => own == OPENING
    case Reading => |own| == 5 && own[..4] == OPENING && own[4].Waited?
    case Finishing => Supervision(own)
    case Reporting => Wound(own)
    case Over => own != [] && own[|own| - 1].Reported? && Wound(own[..|own| - 1])
  }

  lemma StageStep(w: World, e: Event, own: seq<Event>)
    requires AtStage(w.stage, own) && Guard(w, e) && OfLauncher(e)
    ensures AtStage(Step(w, e).stage, own + [e])
  {
    hide Terminal, WriterOpen, Populated;
    assert (own + [e])[..|own|] == own;
    match e
    case QuotaPrepared(ok) =>
    case ConfiguredSent(ok) =>
    case AckRead(ok) =>
    case SetUpFailed =>
    case InitForked =>
    case Waited(ok) =>
    case MarkerRead(count) => assert (own + [e])[..4] == own[..4];
    case QuotaFinished(ok) =>
    case Reported(ok) =>
  }

  /** What the launcher does, and in which order, whatever init and payload do meanwhile. */
  lemma {:induction false} LauncherTranscript(run: seq<Event>)
    requires Legal(run)
    ensures AtStage(After(run).stage, Own(run))
  {
    hide Guard, Step, AtStage, OfInit, OfPayload;
    if run == [] {
      NothingDone();
    } else {
      var front, e := run[..|run| - 1], run[|run| - 1];
      LauncherTranscript(front);
      if OfLauncher(e) {
        StageStep(After(front), e, Own(front));
      } else {
        OthersKeepStage(After(front), e);
        assert Own(front) + [] == Own(front);
      }
    }
  }

  lemma NothingDone()
    ensures AtStage(Preparing, [])
  {}

  /** What tells the launcher that the command was not started. */
  predicate Blames(e: Event) {
    e == QuotaPrepared(false) || e == ConfiguredSent(false) || e == AckRead(false) || e == SetUpFailed
      || e == MarkerRead(1)
  }

  /** What went wrong with something the launcher did itself. */
  predicate Fails(e: Event) {
    || e == QuotaPrepared(false) || e == ConfiguredSent(false) || e == AckRead(false) || e == SetUpFailed
    || e == Waited(false) || e == QuotaFinished(false) || e == Reported(false)
  }

  predicate Blamed(run: seq<Event>) { exists e :: e in run && Blames(e) }

  predicate Failed(run: seq<Event>) { exists e :: e in run && Fails(e) }

  lemma FlagsStep(w: World, e: Event)
    requires Guard(w, e) && (e.Waited? ==> w.result == 0) && (w.waited ==> w.init == Dead)
    ensures var w' := Step(w, e);
            && w'.preexecFailed == (w.preexecFailed || Blames(e))
            && w'.cleanupFailed == (w.cleanupFailed || e == QuotaFinished(false))
            && (Fails(e) ==> w'.result == 1)
            && (e == Waited(true) ==> w'.result == w'.initStatus && w'.waited)
            && (!Fails(e) && e != Waited(true) ==> w'.result == w.result && w'.waited == w.waited)
            && (w.waited ==> w'.initStatus == w.initStatus)
  {
    hide Terminal, WriterOpen, Populated;
    match e
    case QuotaPrepared(ok) =>
    case ConfiguredSent(ok) =>
    case AckRead(ok) =>
    case SetUpFailed =>
    case InitForked =>
    case Waited(ok) =>
    case MarkerRead(count) =>
    case QuotaFinished(ok) =>
    case Reported(ok) =>
    case InitFailed(written) =>
    case PayloadForked =>
    case InitExited(status) =>
    case PayloadFailed(status, written) =>
    case PayloadExecuted =>
    case PayloadExited(status, descendants) =>
  }

  /** The launcher's record, from the events alone. */
  predicate Recorded(w: World, run: seq<Event>) {
    && (w.preexecFailed <==> Blamed(run)) && (w.cleanupFailed <==> QuotaFinished(false) in run)
    && (Failed(run) ==> w.result == 1)
    && (!Failed(run) ==> w.result == if Waited(true) in run then w.initStatus else 0)
    && (!Failed(run) && Waited(true) in run ==> w.waited)
  }

  lemma {:induction false} OwnIsOwn(run: seq<Event>, e: Event)
    ensures e in Own(run) <==> e in run && OfLauncher(e)
  {
    hide OfLauncher;
    if run != [] {
      OwnIsOwn(run[..|run| - 1], e);
      assert run == run[..|run| - 1] + [run[|run| - 1]];
    }
  }

  lemma {:induction false} RecordIs(run: seq<Event>)
    requires Legal(run)
    ensures Recorded(After(run), run)
  {
    hide Guard, Step, Fails, Blames, AtStage, Sound;
    if run == [] {
    } else {
      var front, e := run[..|run| - 1], run[|run| - 1];
      RecordIs(front);
      ReachableSound(front);
      LauncherTranscript(front);
      WaitedIsDead(After(front));
      if e.Waited? { NotWaitedTwice(front, e); }
      FlagsStep(After(front), e);
      MoreMembers(front, e);
    }
  }

  lemma MoreMembers(run: seq<Event>, e: Event)
    ensures Blamed(run + [e]) <==> Blamed(run) || Blames(e)
    ensures Failed(run + [e]) <==> Failed(run) || Fails(e)
    ensures forall d :: d in run + [e] <==> d in run || d == e
  {
    hide Blames, Fails;
    assert forall d :: d in run + [e] <==> d in run || d == e;
  }

  lemma NotWaitedTwice(run: seq<Event>, e: Event)
    requires Legal(run) && AtStage(After(run).stage, Own(run)) && Sound(After(run)) && Guard(After(run), e) && e.Waited?
    ensures After(run).result == 0 && !Failed(run)
  {
    hide After, Legal, Own;
    if Failed(run) {
      var f :| f in run && Fails(f);
      OwnIsOwn(run, f);
    }
  }

  /** The terminal frame of a finished run, from its events: a failed cleanup outranks a command that never started. */
  lemma TerminalFrame(run: seq<Event>)
    requires Legal(run) && After(run).stage == Over
    ensures CleanupFailed in After(run).attempted <==> QuotaFinished(false) in run
    ensures PreexecFailed in After(run).attempted <==> Blamed(run) && QuotaFinished(false) !in run
    ensures Finished in After(run).attempted <==> !Blamed(run) && QuotaFinished(false) !in run
  {
    hide After, Legal, Guard, Step, Blamed, ProcessesSound, VerdictSound;
    ReachableSound(run);
    RecordIs(run);
    var w := After(run);
    assert Terminal(w) == w.attempted[|w.attempted| - 1];
  }

  /** The exit status of a finished run, from its events: init's, unless something the launcher did itself failed. */
  lemma ExitStatus(run: seq<Event>)
    requires Legal(run) && After(run).stage == Over
    ensures Failed(run) ==> After(run).result == 1
    ensures !Failed(run) ==> Waited(true) in run && After(run).result == After(run).initStatus
  {
    hide After, Legal, Guard, Step, Failed;
    RecordIs(run);
    LauncherTranscript(run);
    WaitedOrFailed(run, Own(run));
  }

  lemma WaitedOrFailed(run: seq<Event>, own: seq<Event>)
    requires own == Own(run) && AtStage(Over, own)
    ensures Failed(run) || Waited(true) in run
  {
    hide Own;
    forall e | e in own ensures e in run { OwnIsOwn(run, e); }
    var front := own[..|own| - 1];
    if front == [QuotaPrepared(false)] {
      assert front[0] in own;
    } else {
      var begun := front[..|front| - 1];
      assert forall i :: 0 <= i < |begun| ==> begun[i] == own[i];
      assert |begun| == 6 ==> begun[4] in own;
      assert |begun| < 6 ==> begun[|begun| - 1] in own;
    }
  }

  lemma FramesStep(w: World, e: Event)
    ensures Step(w, e).attempted
            == w.attempted + (if e.ConfiguredSent? then [Configured] else if e.Reported? then [Terminal(w)] else [])
    ensures Step(w, e).delivered
            == w.delivered + (if e == ConfiguredSent(true) then [Configured]
                              else if e == Reported(true) then [Terminal(w)] else [])
  {
    hide Terminal;
    match e
    case QuotaPrepared(ok) =>
    case ConfiguredSent(ok) =>
    case AckRead(ok) =>
    case SetUpFailed =>
    case InitForked =>
    case Waited(ok) =>
    case MarkerRead(count) =>
    case QuotaFinished(ok) =>
    case Reported(ok) =>
    case InitFailed(written) =>
    case PayloadForked =>
    case InitExited(status) =>
    case PayloadFailed(status, written) =>
    case PayloadExecuted =>
    case PayloadExited(status, descendants) =>
  }

  /** The frames the socket took: CONFIGURED if it was sent, and the last one tried if that was. */
  predicate FramesTaken(w: World, run: seq<Event>) {
    && (Reported(true) in run ==> w.attempted != [])
    && w.delivered == (if ConfiguredSent(true) in run then [Configured] else [])
                      + (if Reported(true) in run then [w.attempted[|w.attempted| - 1]] else [])
  }

  lemma {:induction false} FramesAre(run: seq<Event>)
    requires Legal(run)
    ensures FramesTaken(After(run), run)
  {
    hide Guard, Step, AtStage, Terminal;
    if run == [] {
    } else {
      var front, e := run[..|run| - 1], run[|run| - 1];
      FramesAre(front);
      LauncherTranscript(front);
      FramesStep(After(front), e);
      MoreMembers(front, e);
      if e.ConfiguredSent? || e.Reported? { NotTwice(front, e); }
    }
  }

  /** When a frame is sent, neither it nor a later one has been. */
  lemma NotTwice(run: seq<Event>, e: Event)
    requires AtStage(After(run).stage, Own(run)) && Guard(After(run), e)
    ensures e.ConfiguredSent? ==> ConfiguredSent(true) !in run && Reported(true) !in run
    ensures e.Reported? ==> Reported(true) !in run
  {
    hide After, Own;
    OwnIsOwn(run, ConfiguredSent(true));
    OwnIsOwn(run, Reported(true));
    if e.Reported? { NotReported(Own(run)); }
  }

  lemma NotReported(own: seq<Event>)
    requires Wound(own)
    ensures Reported(true) !in own
  {
    var front := own[..|own| - 1];
    assert own == front + [own[|own| - 1]];
    if |front| == 6 { assert front == front[..4] + [front[4], front[5]]; }
  }

  // ----- the launcher itself ---------------------------------------------------------------------

  class Launcher {
    var world: World
    var run: seq<Event>
    var preexecFailed: bool
    var cleanupFailed: bool
    var result: int

    ghost predicate Valid()
      reads this
    {
      && Legal(run) && world == After(run)
      && preexecFailed == world.preexecFailed && cleanupFailed == world.cleanupFailed && result == world.result
    }

    constructor ()
      ensures Valid() && world == FIRST
    {
      world, run := FIRST, [];
      preexecFailed, cleanupFailed, result := false, false, 0;
    }

    method Emit(e: Event)
      requires Valid() && Guard(world, e)
      modifies this
      ensures Valid() && world == Step(old(world), e)
    {
      hide Legal, After, Guard, Step;
      Extend(run, e);
      run := run + [e];
      world := Step(world, e);
      preexecFailed, cleanupFailed, result := world.preexecFailed, world.cleanupFailed, world.result;
    }

    /** Init and payload take any number of steps. */
    method Others()
      requires Valid()
      modifies this
      ensures Valid() && world.stage == old(world).stage
    {
      hide Legal, After, Guard, Step, Valid;
      var steps: int := *;
      var i := 0;
      while i < steps
        invariant Valid() && world.stage == old(world).stage
      {
        var e: Event := *;
        if (OfInit(e) || OfPayload(e)) && Guard(world, e) {
          OthersKeepStage(world, e);
          Emit(e);
        }
        i := i + 1;
      }
    }

    /** The waiting half of `supervise_task`. */
    method Supervise()
      requires Valid() && world.stage == Supervising
      modifies this
      ensures Valid() && world.stage == Finishing
    {
      hide Legal, After;
      var ready: bool := *;
      if !ready {
        Emit(SetUpFailed);
        return;
      }
      Emit(InitForked);
      Others();
      var reaped: bool := *;
      Emit(Waited(reaped && world.init == Dead));
      Others();
      var count: int := *;
      if count < 0 || !Guard(world, MarkerRead(count)) { count := -1; }
      Emit(MarkerRead(count));
    }

    /** CONFIGURED, its acknowledgement, and the payload. */
    method Configure()
      requires Valid() && world.stage == Configuring
      modifies this
      ensures Valid() && world.stage == Finishing
    {
      hide Legal, After;
      var sent: bool, answered: bool := *, *;
      Emit(ConfiguredSent(sent));
      if !sent { return; }
      Emit(AckRead(answered));
      if answered { Supervise(); }
    }

    /** From the quota to the exit status. */
    method Run()
      requires Valid() && world.stage == Preparing
      modifies this
      ensures Valid() && world.stage == Over && result == world.result
    {
      hide Legal, After, Terminal, Populated, WriterOpen;
      var prepared: bool := *;
      Emit(QuotaPrepared(prepared));
      if prepared {
        Configure();
        Finish();
      }
      Others();
      Report();
      Others();
    }

    method Report()
      requires Valid() && world.stage == Reporting
      modifies this
      ensures Valid() && world.stage == Over
    {
      hide Legal, After, Terminal;
      var taken: bool := *;
      Emit(Reported(taken));
    }

    method Finish()
      requires Valid() && world.stage == Finishing
      modifies this
      ensures Valid() && world.stage == Reporting
    {
      hide Legal, After;
      Others();
      var removed: bool := *;
      Emit(QuotaFinished(removed && !Populated(world)));
    }
  }
}
