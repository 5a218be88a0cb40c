/**
 The coordinator's durable ledger, and the validator every reopen runs over the whole of it.
 The validator is split by what each part reads, in the order the source checks it.
 */
module Ledger {
  import opened Bytes
  import opened Sid
  import opened Snapshot

  datatype Phase = Frozen | Prepared | Bound | AddIntent | Added | CleanupIntent | Cleaned

  datatype ErrorCode =
    | CreatedRequest | GetFailed | Preexisting | BaselineDelta | AddFailed | AddDelta | Deadline
    | ParentFailed | FinishedRequest | ForeignDelta | OwnerConflict | CleanupFailed | LedgerFailed

  datatype Kind = Get | Abi | Add | Delete

  datatype CommandState = Allocated | Ready | Reaped | ReapedAfterFailure | CleanupUnknown

  /** One child process, from before it exists to after it is gone. */
  datatype Record = Record(
    kind: Kind,
    job: string,
    output: string,
    state: CommandState,
    pid: Option<int>,
    created: Option<int>,
    resumePermitted: bool,
    resumeAttempted: Option<bool>,
    resumeReturned: Option<int>,
    exitCode: Option<int>,
    timedOut: bool,
    reaped: bool)

  datatype View = BaselineFirst | Baseline | AfterAdd | PreDelete | PostDelete

  datatype Read = Read(startedMs: int, finishedMs: int, command: int)

  datatype Context = Context(
    repository: string, sourceSha: string, runId: string, runAttempt: int, job: string, matrix: string)

  /** The fields a bootstrap and the operation frozen from it have in common. */
  datatype Identity = Identity(
    context: Context, accountSid: string, pid: int, created: int,
    positiveProfile: string, reviewerProfile: string, positiveSid: string, reviewerSid: string,
    nonce: string, ipv4: int, ipv6: int)

  datatype Bootstrap = Bootstrap(identity: Identity, session: string, preparedMs: int, deadlineMs: int)

  datatype Manifest = Manifest(identity: Identity, startedMs: int, deadlineMs: int)

  datatype Parent = Parent(pid: int, created: int)

  /** What freezing and preparing settle once and for all. */
  datatype Fixed = Fixed(
    context: Context, session: string, accountSid: Option<string>, positiveProfile: string,
    reviewerProfile: string, nonce: string, ports: Option<(int, int)>, preparedMs: Option<int>)

  datatype Ledger = Ledger(
    fixed: Fixed,
    phase: Phase,
    bootstrap: Option<Bootstrap>,
    operation: Option<Manifest>,
    owned: bool,
    intentMs: Option<int>,
    target: Option<int>,
    commands: seq<Record>,
    observations: map<View, Raw>,
    readings: seq<Read>,
    files: set<string>,
    profileConsumed: bool,
    finishedConsumed: bool,
    parent: Option<Parent>,
    outerJob: Option<string>,
    readonlyPrepared: bool,
    firstError: Option<ErrorCode>,
    cleanupError: Option<ErrorCode>,
    addVerified: bool,
    deleteVerified: bool,
    othersPreserved: bool,
    exact: bool,
    completedMs: Option<int>)

  // ----- scalar shapes ----------------------------------------------------------------

  predicate Integer(n: int) { 0 <= n < 0x8000_0000_0000_0000 }

  predicate Natural32(n: int) { 1 <= n < WORD32 }

  predicate Natural64(n: int) { 1 <= n < WORD64 }

  predicate HexText(s: string, n: nat) {
    |s| == n && forall i :: 0 <= i < n ==> '0' <= s[i] <= '9' || 'a' <= s[i] <= 'f'
  }

  predicate ProfileName(s: string) { |s| == 38 && "icode-" <= s && HexText(s[6..], 32) }

  predicate ContextOK(c: Context) {
    && c.repository == "ayukyo/icode" && c.job == "windows-reviewer-snapshot-probe"
    && (c.matrix == "x64" || c.matrix == "ARM64") && HexText(c.sourceSha, 40)
    && 1 <= |c.runId| <= 20 && Digits(c.runId) && c.runId[0] != '0' && Natural32(c.runAttempt)
  }

  predicate IdentityOK(d: Identity) {
    && ContextOK(d.context) && HexText(d.nonce, 32)
    && ProfileName(d.positiveProfile) && ProfileName(d.reviewerProfile) && d.positiveProfile != d.reviewerProfile
    && SidBytes(d.accountSid).Some? && SidBytes(d.positiveSid).Some? && SidBytes(d.reviewerSid).Some?
    && "S-1-5-21-" <= d.accountSid && "S-1-15-2-" <= d.positiveSid && "S-1-15-2-" <= d.reviewerSid
    && d.positiveSid != d.reviewerSid
    && Natural32(d.pid) && Natural64(d.created) && 1 <= d.ipv4 <= 65535 && 1 <= d.ipv6 <= 65535
  }

  /** `_bootstrap_expected` raises outside this. */
  predicate BootstrapOK(b: Bootstrap) {
    && IdentityOK(b.identity) && HexText(b.session, 32)
    && Integer(b.preparedMs) && Integer(b.deadlineMs) && b.deadlineMs - b.preparedMs == 180000
  }

  /** Constructing the operation manifest raises outside this. */
  predicate ManifestOK(m: Manifest) {
    && IdentityOK(m.identity)
    && Integer(m.startedMs) && Integer(m.deadlineMs) && 0 < m.deadlineMs - m.startedMs <= 60000
  }

  function Positive(d: Identity): (b: Bytes)
    requires IdentityOK(d)
  {
    SidBytes(d.positiveSid).value
  }

  function Reviewer(d: Identity): (b: Bytes)
    requires IdentityOK(d)
  {
    SidBytes(d.reviewerSid).value
  }

  function JobName(session: string, n: nat): (s: string) {
    "Local\\ICODE.Positive." + session + ".command." + Decimal(n)
  }

  function ParentJobName(session: string): (s: string) {
    "Local\\ICODE.Positive." + session + ".parent"
  }

  function OutputName(n: nat): (s: string) { "command-" + Decimal(n) + ".out" }

  /** The mapping an observation was accepted with, if it was taken at all. */
  function Seen(observations: map<View, Raw>, v: View): (t: Option<Table>) {
    if v in observations then MappingOf(observations[v]) else None
  }

  // ----- the validator, part by part --------------------------------------------------

  predicate FixedOK(f: Fixed) {
    && ContextOK(f.context) && HexText(f.session, 32)
    && ProfileName(f.positiveProfile) && ProfileName(f.reviewerProfile) && f.positiveProfile != f.reviewerProfile
    && HexText(f.nonce, 32)
    && (f.preparedMs.Some? ==> Integer(f.preparedMs.value))
    && (f.ports.Some? ==> 1 <= f.ports.value.0 <= 65535 && 1 <= f.ports.value.1 <= 65535)
  }

  predicate ScalarsOK(intentMs: Option<int>, completedMs: Option<int>, target: Option<int>, files: set<string>) {
    && (intentMs.Some? ==> Integer(intentMs.value))
    && (completedMs.Some? ==> Integer(completedMs.value))
    && (target.Some? ==> 0 <= target.value < WORD32)
    && |files| <= 64
  }

  predicate RecordOK(session: string, n: nat, r: Record) {
    && r.job == JobName(session, n) && r.output == OutputName(n)
    && (r.pid.Some? ==> Natural32(r.pid.value)) && (r.created.Some? ==> Natural64(r.created.value))
    && (r.exitCode.Some? ==> 0 <= r.exitCode.value < WORD32)
    && (r.resumeReturned.Some? ==> 0 <= r.resumeReturned.value < WORD32)
    && (r.pid == None <==> r.created == None)
    && (r.resumePermitted ==> r.pid.Some?)
    && (r.state == Allocated ==> r.pid == None && !r.resumePermitted && r.resumeAttempted == Some(false))
    && (r.state == Ready ==> r.resumePermitted && !r.reaped)
    && (r.state == Reaped || r.state == ReapedAfterFailure ==> r.reaped)
    && (r.state == CleanupUnknown ==> !r.reaped)
  }

  predicate CommandsOK(session: string, commands: seq<Record>) {
    && |commands| <= 32
    && (forall n :: 0 <= n < |commands| ==> RecordOK(session, n, commands[n]))
    && (forall m, n :: 0 <= m < n < |commands| ==> !(commands[m].kind == Add && commands[n].kind == Add))
  }

  predicate HasKind(commands: seq<Record>, kind: Kind) {
    exists n :: 0 <= n < |commands| && commands[n].kind == kind
  }

  predicate ReadsOK(readings: seq<Read>, commands: seq<Record>) {
    && |readings| <= 32
    && forall i :: 0 <= i < |readings| ==>
         && Integer(readings[i].startedMs) && readings[i].startedMs <= readings[i].finishedMs
            && Integer(readings[i].finishedMs)
         && 0 <= readings[i].command < |commands| && commands[readings[i].command].kind == Get
  }

  predicate ObservationsOK(observations: map<View, Raw>) {
    forall v :: v in observations ==> MappingOf(observations[v]).Some?
  }

  predicate AccountOK(phase: Phase, accountSid: Option<string>, bootstrap: Option<Bootstrap>, parent: Option<Parent>) {
    if phase == Frozen then bootstrap == None && accountSid == None && parent == None
    else accountSid.Some? && "S-1-5-21-" <= accountSid.value && SidBytes(accountSid.value).Some?
  }

  predicate BootstrapBound(fixed: Fixed, bootstrap: Option<Bootstrap>, parent: Option<Parent>) {
    bootstrap.Some? ==>
      var b := bootstrap.value;
      && BootstrapOK(b) && b.session == fixed.session && Some(b.identity.accountSid) == fixed.accountSid
      && b.identity.context == fixed.context
      && parent == Some(Parent(b.identity.pid, b.identity.created))
      && b.identity.nonce == fixed.nonce
      && b.identity.positiveProfile == fixed.positiveProfile && b.identity.reviewerProfile == fixed.reviewerProfile
      && fixed.ports == Some((b.identity.ipv4, b.identity.ipv6)) && fixed.preparedMs == Some(b.preparedMs)
  }

  /** Both baseline reads are on record, agree, and hold neither of the two SIDs. */
  predicate BaselineUnowned(observations: map<View, Raw>, d: Identity)
    requires IdentityOK(d)
  {
    && Seen(observations, BaselineFirst).Some? && Seen(observations, Baseline).Some?
    && Seen(observations, BaselineFirst) == Seen(observations, Baseline)
    && Positive(d) !in Seen(observations, Baseline).value
    && Reviewer(d) !in Seen(observations, Baseline).value
  }

  predicate Admitted(phase: Phase) {
    phase == Bound || phase == AddIntent || phase == Added || phase == CleanupIntent || phase == Cleaned
  }

  predicate OwnedPhase(phase: Phase) {
    phase == AddIntent || phase == Added || phase == CleanupIntent || phase == Cleaned
  }

  predicate OperationBound(operation: Option<Manifest>, bootstrap: Option<Bootstrap>, phase: Phase,
                           profileConsumed: bool, readonlyPrepared: bool, parent: Option<Parent>,
                           outerJob: Option<string>, observations: map<View, Raw>) {
    operation.Some? ==>
      && ManifestOK(operation.value) && bootstrap.Some? && profileConsumed
      && operation.value.identity == bootstrap.value.identity
      && Admitted(phase) && readonlyPrepared && parent.Some? && outerJob.Some?
      && BaselineUnowned(observations, operation.value.identity)
  }

  predicate IntentBound(owned: bool, operation: Option<Manifest>, intentMs: Option<int>, phase: Phase) {
    if owned then operation.Some? && intentMs == Some(operation.value.startedMs) && OwnedPhase(phase)
    else (phase == Frozen || phase == Prepared || phase == Bound) && intentMs == None
  }

  predicate UnownedClaims(owned: bool, target: Option<int>, claims: bool) {
    !owned ==> target == None && !claims
  }

  predicate AdmittedBound(phase: Phase, bootstrap: Option<Bootstrap>, readonlyPrepared: bool,
                          parent: Option<Parent>, outerJob: Option<string>) {
    Admitted(phase) ==> bootstrap.Some? && readonlyPrepared && parent.Some? && outerJob.Some?
  }

  predicate ViewOrder(observations: map<View, Raw>, owned: bool, commands: seq<Record>, phase: Phase) {
    && (Baseline in observations ==> BaselineFirst in observations)
    && (AfterAdd in observations || PreDelete in observations || PostDelete in observations ==> owned)
    && (AfterAdd in observations ==> HasKind(commands, Add))
    && (PostDelete in observations ==> PreDelete in observations)
    && (HasKind(commands, Delete) ==> (phase == CleanupIntent || phase == Cleaned) && PreDelete in observations)
    && (HasKind(commands, Add) || HasKind(commands, Delete) ==> owned)
  }

  /** The record of an addition that ran to a clean end. */
  predicate AddSucceeded(r: Record) {
    && r.kind == Add && r.resumePermitted && r.resumeAttempted == Some(true) && r.resumeReturned == Some(1)
    && r.reaped && !r.timedOut && r.exitCode == Some(0)
  }

  predicate AddBound(addVerified: bool, phase: Phase, operation: Option<Manifest>, target: Option<int>,
                     observations: map<View, Raw>, commands: seq<Record>) {
    && (addVerified ==>
          && (phase == Added || phase == CleanupIntent || phase == Cleaned)
          && target.Some? && operation.Some? && IdentityOK(operation.value.identity)
          && Seen(observations, Baseline).Some?
          && Seen(observations, AfterAdd)
               == Some(Seen(observations, Baseline).value[Positive(operation.value.identity) := target.value])
          && exists n :: 0 <= n < |commands| && AddSucceeded(commands[n]))
    && (phase == Added ==> addVerified)
  }

  predicate DeleteBound(deleteVerified: bool, othersPreserved: bool, phase: Phase, operation: Option<Manifest>,
                        observations: map<View, Raw>) {
    && deleteVerified == othersPreserved
    && (deleteVerified ==>
          && phase == Cleaned && operation.Some? && IdentityOK(operation.value.identity)
          && Seen(observations, PreDelete).Some? && Seen(observations, PostDelete).Some?
          && Seen(observations, PostDelete).value
             == Seen(observations, PreDelete).value - {Positive(operation.value.identity)}
          && Positive(operation.value.identity) !in Seen(observations, PostDelete).value
          && Reviewer(operation.value.identity) !in Seen(observations, PostDelete).value)
  }

  predicate RestorationBound(l: Ledger) {
    l.exact ==>
      && l.phase == Cleaned && l.firstError == None && l.operation.Some? && l.completedMs.Some?
      && l.operation.value.startedMs <= l.completedMs.value < l.operation.value.deadlineMs
      && l.deleteVerified && l.cleanupError == None
      && Seen(l.observations, PostDelete) == Seen(l.observations, Baseline)
  }

  predicate ParentOK(parent: Option<Parent>, outerJob: Option<string>, session: string) {
    && (parent.Some? ==> Natural32(parent.value.pid) && Natural64(parent.value.created))
    && (outerJob.Some? ==> outerJob.value == ParentJobName(session))
  }

  /** `ledger`: the whole validator. */
  predicate Accepted(l: Ledger) {
    && FixedOK(l.fixed)
    && ScalarsOK(l.intentMs, l.completedMs, l.target, l.files)
    && CommandsOK(l.fixed.session, l.commands)
    && ReadsOK(l.readings, l.commands)
    && ObservationsOK(l.observations)
    && AccountOK(l.phase, l.fixed.accountSid, l.bootstrap, l.parent)
    && BootstrapBound(l.fixed, l.bootstrap, l.parent)
    && OperationBound(l.operation, l.bootstrap, l.phase, l.profileConsumed, l.readonlyPrepared, l.parent, l.outerJob,
                      l.observations)
    && IntentBound(l.owned, l.operation, l.intentMs, l.phase)
    && UnownedClaims(l.owned, l.target, l.addVerified || l.deleteVerified || l.othersPreserved || l.exact)
    && AdmittedBound(l.phase, l.bootstrap, l.readonlyPrepared, l.parent, l.outerJob)
    && ViewOrder(l.observations, l.owned, l.commands, l.phase)
    && (l.finishedConsumed ==> l.owned && l.addVerified)
    && AddBound(l.addVerified, l.phase, l.operation, l.target, l.observations, l.commands)
    && DeleteBound(l.deleteVerified, l.othersPreserved, l.phase, l.operation, l.observations)
    && RestorationBound(l)
    && ParentOK(l.parent, l.outerJob, l.fixed.session)
  }

  /** `has_add_attempt`: some addition may have been resumed. */
  predicate AddAttempted(commands: seq<Record>) {
    exists n :: 0 <= n < |commands| && commands[n].kind == Add && MayHaveRun(commands[n])
  }

  predicate MayHaveRun(r: Record) {
    r.resumePermitted && r.resumeAttempted != Some(false) && r.pid.Some? && r.created.Some?
  }
}
