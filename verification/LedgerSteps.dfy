/**
 Every change the coordinator makes to the ledger in memory, one lemma a change: what may be
 flushed before it may be flushed after it, whatever the disk still holds.
 */
module LedgerSteps {
  import opened Bytes
  import opened Sid
  import opened Snapshot
  import opened Ledger
  import opened Protocol

  lemma ParentAttached(w: World, l: Ledger, p: Parent)
    requires Flushable(w, l) && l.phase == Prepared && l.parent == None && Natural32(p.pid) && Natural64(p.created)
    ensures Flushable(w, l.(parent := Some(p), outerJob := Some(ParentJobName(l.fixed.session))))
  {
    hide SidBytes, MappingOf, RecordOK, RecordFollows, CommandsFollow, FixedOK, BootstrapOK, ManifestOK, IdentityOK;
  }

  lemma ReadonlyPrepared(w: World, l: Ledger)
    requires Flushable(w, l) && l.phase == Prepared
    ensures Flushable(w, l.(readonlyPrepared := true))
  {
    hide SidBytes, MappingOf, RecordOK, RecordFollows, CommandsFollow, FixedOK, BootstrapOK, ManifestOK, IdentityOK;
  }

  lemma BootstrapDerived(w: World, l: Ledger, b: Bootstrap)
    requires Flushable(w, l) && l.phase == Prepared && l.bootstrap == None
    requires BootstrapBound(l.fixed, Some(b), l.parent)
    ensures Flushable(w, l.(bootstrap := Some(b)))
  {
    hide SidBytes, MappingOf, RecordOK, RecordFollows, CommandsFollow, FixedOK, BootstrapOK, ManifestOK, IdentityOK;
  }

  lemma BoundToParent(w: World, l: Ledger)
    requires Flushable(w, l) && l.phase == Prepared
    requires l.bootstrap.Some? && l.readonlyPrepared && l.parent.Some? && l.outerJob.Some?
    ensures Flushable(w, l.(phase := Bound))
  {
    hide SidBytes, MappingOf, RecordOK, RecordFollows, CommandsFollow, FixedOK, BootstrapOK, ManifestOK, IdentityOK;
  }

  /** `_failure`: the first error stays, the claim of restoration goes. */
  function WithFailure(l: Ledger, code: ErrorCode): (l': Ledger) {
    l.(firstError := if l.firstError == None then Some(code) else l.firstError, exact := false)
  }

  lemma Failed(w: World, l: Ledger, code: ErrorCode)
    requires Flushable(w, l)
    ensures Flushable(w, WithFailure(l, code))
  {
    hide SidBytes, MappingOf, RecordOK, RecordFollows, CommandsFollow, FixedOK, BootstrapOK, ManifestOK, IdentityOK;
  }

  lemma CleanupFailedToo(w: World, l: Ledger)
    requires Flushable(w, l)
    ensures Flushable(w, WithFailure(l.(cleanupError := Some(CleanupFailed)), CleanupFailed))
  {
    hide SidBytes, MappingOf, RecordOK, RecordFollows, CommandsFollow, FixedOK, BootstrapOK, ManifestOK, IdentityOK;
  }

  lemma ProfileRequestConsumed(w: World, l: Ledger)
    requires Flushable(w, l)
    ensures Flushable(w, l.(profileConsumed := true))
  {
    hide SidBytes, MappingOf, RecordOK, RecordFollows, CommandsFollow, FixedOK, BootstrapOK, ManifestOK, IdentityOK;
  }

  lemma FinishedRequestConsumed(w: World, l: Ledger)
    requires Flushable(w, l) && l.owned && l.addVerified
    ensures Flushable(w, l.(finishedConsumed := true))
  {
    hide SidBytes, MappingOf, RecordOK, RecordFollows, CommandsFollow, FixedOK, BootstrapOK, ManifestOK, IdentityOK;
  }

  lemma ReadingTaken(w: World, l: Ledger, r: Read)
    requires Flushable(w, l) && |l.readings| < |l.commands|
    requires Integer(r.startedMs) && r.startedMs <= r.finishedMs && Integer(r.finishedMs)
    requires 0 <= r.command < |l.commands| && l.commands[r.command].kind == Get
    ensures Flushable(w, l.(readings := l.readings + [r]))
  {
    hide SidBytes, MappingOf, RecordOK, RecordFollows, CommandsFollow, FixedOK, BootstrapOK, ManifestOK, IdentityOK;
    assert l.readings <= l.readings + [r];
  }

  lemma BaselineObserved(w: World, l: Ledger, v: View, raw: Raw)
    requires Flushable(w, l) && l.operation == None && MappingOf(raw).Some?
    requires v == BaselineFirst || (v == Baseline && BaselineFirst in l.observations)
    ensures Flushable(w, l.(observations := l.observations[v := raw]))
  {
    hide SidBytes, MappingOf, RecordOK, RecordFollows, CommandsFollow, FixedOK, BootstrapOK, ManifestOK, IdentityOK;
  }

  lemma AdditionObserved(w: World, l: Ledger, raw: Raw)
    requires Flushable(w, l) && l.owned && !l.addVerified && HasKind(l.commands, Add) && MappingOf(raw).Some?
    ensures Flushable(w, l.(observations := l.observations[AfterAdd := raw]))
  {
    hide SidBytes, MappingOf, RecordOK, RecordFollows, CommandsFollow, FixedOK, BootstrapOK, ManifestOK, IdentityOK;
  }

  lemma CleanupObserved(w: World, l: Ledger, v: View, raw: Raw)
    requires Flushable(w, l) && l.owned && !l.deleteVerified && !l.exact && MappingOf(raw).Some?
    requires v == PreDelete || (v == PostDelete && PreDelete in l.observations)
    ensures Flushable(w, l.(observations := l.observations[v := raw]))
  {
    hide SidBytes, MappingOf, RecordOK, RecordFollows, CommandsFollow, FixedOK, BootstrapOK, ManifestOK, IdentityOK;
  }

  lemma OperationFrozen(w: World, l: Ledger, m: Manifest)
    requires Flushable(w, l) && l.phase == Bound && l.operation == None && l.bootstrap.Some? && l.profileConsumed
    requires ManifestOK(m) && m.identity == l.bootstrap.value.identity && BaselineUnowned(l.observations, m.identity)
    ensures Flushable(w, l.(operation := Some(m)))
  {
    hide SidBytes, MappingOf, RecordOK, RecordFollows, CommandsFollow, FixedOK, BootstrapOK, ManifestOK, IdentityOK;
  }

  lemma IntentRecorded(w: World, l: Ledger)
    requires Flushable(w, l) && l.phase == Bound && l.operation.Some? && !l.owned
    requires w.foreign || Seen(l.observations, Baseline) == Some(w.original)
    ensures Flushable(w, l.(phase := AddIntent, owned := true, intentMs := Some(l.operation.value.startedMs),
                            target := None))
  {
    hide SidBytes, MappingOf, RecordOK, RecordFollows, CommandsFollow, FixedOK, BootstrapOK, IdentityOK;
  }

  lemma TargetRecorded(w: World, l: Ledger, attributes: Option<int>)
    requires Flushable(w, l) && l.owned && !l.addVerified && (attributes.Some? ==> 0 <= attributes.value < WORD32)
    ensures Flushable(w, l.(target := attributes))
  {
    hide SidBytes, MappingOf, RecordOK, RecordFollows, CommandsFollow, FixedOK, BootstrapOK, ManifestOK, IdentityOK;
  }

  lemma AdditionVerified(w: World, l: Ledger, n: nat)
    requires Flushable(w, l) && l.owned && l.operation.Some? && l.target.Some?
    requires n < |l.commands| && AddSucceeded(l.commands[n])
    requires !HasKind(l.commands, Delete) && !l.deleteVerified && !l.othersPreserved && !l.exact
    requires Seen(l.observations, AfterAdd)
          == Some(Seen(l.observations, Baseline).value[Positive(l.operation.value.identity) := l.target.value])
    ensures Flushable(w, l.(phase := Added, addVerified := true))
  {
    hide SidBytes, MappingOf, RecordOK, RecordFollows, CommandsFollow, FixedOK, BootstrapOK, IdentityOK;
  }

  lemma SuccessWithdrawn(w: World, l: Ledger)
    requires Flushable(w, l) && l.owned
    ensures Flushable(w, l.(phase := CleanupIntent, exact := false, deleteVerified := false, othersPreserved := false))
  {
    hide SidBytes, MappingOf, RecordOK, RecordFollows, CommandsFollow, FixedOK, BootstrapOK, ManifestOK, IdentityOK;
  }

  lemma CleanedUp(w: World, l: Ledger, exact: bool, completedMs: Option<int>)
    requires Flushable(w, l) && l.owned && l.operation.Some?
    requires Seen(l.observations, PreDelete).Some? && Seen(l.observations, PostDelete).Some?
    requires Seen(l.observations, PostDelete).value
          == Seen(l.observations, PreDelete).value - {Positive(l.operation.value.identity)}
    requires Reviewer(l.operation.value.identity) !in Seen(l.observations, PostDelete).value
    requires completedMs.Some? ==> Integer(completedMs.value)
    requires l.firstError == None ==>
          completedMs.Some? && l.operation.value.startedMs <= completedMs.value < l.operation.value.deadlineMs
    requires exact ==>
          && l.firstError == None
          && Seen(l.observations, PostDelete) == Seen(l.observations, Baseline)
          && w.live == None && (w.foreign || w.table == w.original)
    ensures Flushable(w, l.(phase := Cleaned, deleteVerified := true, othersPreserved := true, exact := exact,
                            completedMs := completedMs))
  {
    hide SidBytes, MappingOf, RecordOK, RecordFollows, CommandsFollow, FixedOK, BootstrapOK, IdentityOK;
  }

  // ----- command records --------------------------------------------------------------

  function NewRecord(session: string, n: nat, kind: Kind): (r: Record)
    ensures r.kind == kind
  {
    Record(kind, JobName(session, n), OutputName(n), Allocated, None, None, false, Some(false), None, None, false,
           false)
  }

  lemma OutputCreated(w: World, l: Ledger)
    requires Flushable(w, l) && |l.commands| < 32
    ensures Flushable(w, l.(files := l.files + {OutputName(|l.commands|)}))
  {
    hide SidBytes, MappingOf, RecordOK, RecordFollows, CommandsFollow, FixedOK, BootstrapOK, ManifestOK, IdentityOK,
      Bounded;
    OutputBounded(l);
  }

  lemma OutputBounded(l: Ledger)
    requires Bounded(l) && |l.commands| < 32
    ensures var l' := l.(files := l.files + {OutputName(|l.commands|)}); Bounded(l') && |l'.files| <= 64
  {
    var name := OutputName(|l.commands|);
    var files := l.files + {name};
    assert files - {name} == l.files - {name};
    assert files == (files - {name}) + {name};
  }

  lemma CommandAllocated(w: World, l: Ledger, kind: Kind)
    requires Flushable(w, l) && |l.commands| < 32
    requires kind == Add ==> l.owned && !HasKind(l.commands, Add)
    requires kind == Delete ==> l.owned && l.phase == CleanupIntent && PreDelete in l.observations
    ensures Flushable(w, l.(commands := l.commands + [NewRecord(l.fixed.session, |l.commands|, kind)]))
  {
    hide SidBytes, MappingOf, RecordFollows, Accepted, InTime;
    var n, r := |l.commands|, NewRecord(l.fixed.session, |l.commands|, kind);
    var l' := l.(commands := l.commands + [r]);
    KindsExtended(l, r);
    AllocatedBounded(l, r);
    CommandsExtended(w, l, l');
  }

  lemma KindsExtended(l: Ledger, r: Record)
    requires Accepted(l) && |l.commands| < 32 && r == NewRecord(l.fixed.session, |l.commands|, r.kind)
    requires r.kind == Add ==> !HasKind(l.commands, Add)
    ensures CommandsOK(l.fixed.session, l.commands + [r])
    ensures HasKind(l.commands + [r], Add) ==> r.kind == Add || l.owned
    ensures HasKind(l.commands + [r], Delete) ==>
              r.kind == Delete
                || (l.owned && (l.phase == CleanupIntent || l.phase == Cleaned) && PreDelete in l.observations)
  {
    hide SidBytes, MappingOf, FixedOK, BootstrapBound, OperationBound, DeleteBound, RestorationBound, AddBound;
    var after := l.commands + [r];
    forall k | 0 <= k < |after| ensures RecordOK(l.fixed.session, k, after[k]) {}
  }

  lemma AllocatedBounded(l: Ledger, r: Record)
    requires Bounded(l)
    ensures Bounded(l.(commands := l.commands + [r]))
  {
    var n := |l.commands|;
    assert l.files <= (l.files - {OutputName(n)}) + {OutputName(n)};
    SubsetSize(l.files, (l.files - {OutputName(n)}) + {OutputName(n)});
    SubsetSize(l.files - {OutputName(n + 1)}, l.files);
  }

  /** Kinds present before an extension or an update in place are present after it. */
  lemma CommandsExtended(w: World, l: Ledger, l': Ledger)
    requires Flushable(w, l) && CommandsOK(l.fixed.session, l'.commands) && l' == l.(commands := l'.commands)
    requires |l.commands| <= |l'.commands|
    requires forall n :: 0 <= n < |l.commands| ==> l'.commands[n].kind == l.commands[n].kind
    requires CommandsFollow(w.durable.commands, l'.commands) && Bounded(l')
    requires forall n :: n in w.resumed ==>
               n < |l'.commands| && l'.commands[n].resumePermitted && l'.commands[n].resumeAttempted != Some(false)
    requires l.addVerified ==> forall n :: 0 <= n < |l.commands| && AddSucceeded(l.commands[n]) ==>
             AddSucceeded(l'.commands[n])
    requires HasKind(l'.commands, Add) ==> l.owned
    requires HasKind(l'.commands, Delete) ==>
               l.owned && (l.phase == CleanupIntent || l.phase == Cleaned) && PreDelete in l.observations
    ensures Flushable(w, l')
  {
    hide SidBytes, MappingOf, CommandsOK, RecordOK, RecordFollows, CommandsFollow, FixedOK, ScalarsOK, ObservationsOK,
      BootstrapBound, OperationBound, DeleteBound, IntentBound, AddSucceeded;
    assert HasKind(l.commands, Add) ==> HasKind(l'.commands, Add);
  }

  /** One record changes in place; the rest of the ledger stays as it was. */
  lemma RecordChanged(w: World, l: Ledger, n: nat, r: Record)
    requires Flushable(w, l) && n < |l.commands| && RecordOK(l.fixed.session, n, r)
    requires r.kind == l.commands[n].kind
    requires n < |w.durable.commands| ==> RecordFollows(w.durable.commands[n], r)
    requires n in w.resumed ==> r.resumePermitted && r.resumeAttempted != Some(false)
    requires l.addVerified ==> r.kind != Add
    ensures Flushable(w, l.(commands := l.commands[n := r]))
  {
    hide SidBytes, MappingOf, RecordOK, RecordFollows, FixedOK, BootstrapOK, ManifestOK, IdentityOK;
    var l' := l.(commands := l.commands[n := r]);
    KindsKept(l.commands, n, r, Add);
    KindsKept(l.commands, n, r, Delete);
    CommandsStillOK(l.fixed.session, l.commands, n, r);
    CommandsExtended(w, l, l');
  }

  lemma KindsKept(commands: seq<Record>, n: nat, r: Record, kind: Kind)
    requires n < |commands| && r.kind == commands[n].kind
    ensures HasKind(commands[n := r], kind) <==> HasKind(commands, kind)
  {
    forall k | 0 <= k < |commands| ensures commands[n := r][k].kind == commands[k].kind {}
  }

  lemma CommandsStillOK(session: string, commands: seq<Record>, n: nat, r: Record)
    requires CommandsOK(session, commands) && n < |commands| && RecordOK(session, n, r) && r.kind == commands[n].kind
    ensures CommandsOK(session, commands[n := r])
  {
    hide RecordOK;
  }
}
