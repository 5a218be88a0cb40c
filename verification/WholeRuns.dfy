/**
 What every run of the coordinator guarantees, whoever else writes the table, however often it
 crashes and recovers, and wherever it is cut short.
 */
module WholeRuns {
  import opened Bytes
  import opened Sid
  import opened Snapshot
  import opened Ledger
  import opened Protocol

  /** The ledger on disk after the first `i` events. */
  function DiskAt(w: World, run: seq<Event>, i: nat): (l: Ledger)
    requires i <= |run|
  {
    After(w, run[..i]).durable
  }

  predicate Undisturbed(run: seq<Event>) {
    forall k :: 0 <= k < |run| ==> !run[k].Foreign?
  }

  lemma SoundAt(w: World, run: seq<Event>, i: nat)
    requires Fresh(w) && Legal(w, run) && i <= |run|
    ensures Legal(w, run[..i]) && Sound(After(w, run[..i]))
  {
    hide Fresh, Guard, After, Sound, Legal;
    LegalPrefix(w, run, i);
    ReachableSound(w, run[..i]);
  }

  lemma GuardAt(w: World, run: seq<Event>, i: nat)
    requires Fresh(w) && Legal(w, run) && i < |run|
    ensures Guard(After(w, run[..i]), run[i]) && After(w, run[..i + 1]) == Step(After(w, run[..i]), run[i])
  {
    hide Fresh, Guard, Step;
    LegalPrefix(w, run, i + 1);
    assert run[..i + 1][..i] == run[..i];
  }

  /** Between two points of one run the disk moves forward only. */
  lemma Forward(w: World, run: seq<Event>, i: nat, j: nat)
    requires Fresh(w) && Legal(w, run) && i <= j <= |run|
    ensures Follows(DiskAt(w, run, i), DiskAt(w, run, j))
    ensures After(w, run[..i]).resumed <= After(w, run[..j]).resumed
    ensures After(w, run[..i]).served <= After(w, run[..j]).served
    ensures After(w, run[..j]).original == w.original
  {
    hide Fresh, After, Legal, Follows;
    LegalPrefix(w, run, j);
    DurableFollows(w, run[..j], i);
    assert run[..j][..i] == run[..i];
  }

  /** No ledger that reaches the disk is later rejected by the validator that reads it back. */
  lemma EveryLedgerAccepted(w: World, run: seq<Event>, i: nat)
    requires Fresh(w) && Legal(w, run) && i <= |run|
    ensures Accepted(DiskAt(w, run, i))
    ensures i < |run| && run[i].Flushed? ==> Accepted(run[i].ledger)
  {
    hide Fresh, After, Legal, Accepted, Truthful, InTime, Bounded, Follows;
    SoundAt(w, run, i);
    if i < |run| { GuardAt(w, run, i); }
  }

  // ----- processes ----------------------------------------------------------------------

  lemma ResumedFrom(w: World, run: seq<Event>, i: nat, j: nat)
    requires Fresh(w) && Legal(w, run) && i < j <= |run| && run[i].Resumed?
    ensures run[i].command !in After(w, run[..i]).resumed && run[i].command in After(w, run[..j]).resumed
  {
    hide Fresh, After, Legal, Follows, AddAttempted;
    GuardAt(w, run, i);
    Forward(w, run, i + 1, j);
  }

  lemma ResumedRecord(w: World, n: nat)
    requires Sound(w) && n in w.resumed
    ensures n < |w.durable.commands| && w.durable.commands[n].resumePermitted
            && w.durable.commands[n].resumeAttempted != Some(false)
  {
    hide Accepted, InTime, Bounded, Target;
  }

  /**
   Write-ahead: when an addition may run, and at every later moment, the disk holds the owned
   intent, the operation, both baselines without either SID, and the permission itself.
   */
  lemma WriteAhead(w: World, run: seq<Event>, i: nat, j: nat)
    requires Fresh(w) && Legal(w, run) && i <= j <= |run| && i < |run| && run[i].Resumed?
    requires run[i].command < |DiskAt(w, run, i).commands| && DiskAt(w, run, i).commands[run[i].command].kind == Add
    ensures var d := DiskAt(w, run, j);
            && d.owned && d.operation.Some? && run[i].sid == Some(d.operation.value.identity.positiveSid)
            && IdentityOK(d.operation.value.identity) && BaselineUnowned(d.observations, d.operation.value.identity)
            && run[i].command < |d.commands| && d.commands[run[i].command].kind == Add
            && d.commands[run[i].command].resumePermitted
            && d.commands[run[i].command].resumeAttempted != Some(false)
  {
    hide Fresh, After, Legal, Follows, Sound, IdentityOK, BaselineUnowned, Accepted;
    GuardAt(w, run, i);
    SoundAt(w, run, i);
    SoundAt(w, run, j);
    EveryLedgerAccepted(w, run, j);
    Forward(w, run, i, j);
    AddIntended(DiskAt(w, run, i), DiskAt(w, run, j), run[i].command);
    if i < j {
      ResumedFrom(w, run, i, j);
      ResumedRecord(After(w, run[..j]), run[i].command);
    } else {
      ReadyPermitted(After(w, run[..i]), run[i].command);
    }
  }

  lemma ReadyPermitted(w: World, n: nat)
    requires Sound(w) && n < |w.durable.commands| && w.durable.commands[n].state == Ready
    ensures w.durable.commands[n].resumePermitted
  {
    hide Truthful, InTime, Bounded, Target;
    ReadyIsPermitted(w.durable, n);
  }

  lemma AddIntended(d: Ledger, e: Ledger, n: nat)
    requires d.phase == AddIntent && d.operation.Some? && n < |d.commands| && d.commands[n].kind == Add
    requires Follows(d, e) && Accepted(e)
    ensures e.owned && e.operation == d.operation && IdentityOK(e.operation.value.identity)
    ensures BaselineUnowned(e.observations, e.operation.value.identity)
    ensures n < |e.commands| && e.commands[n].kind == Add
  {
    hide SidBytes, MappingOf, RecordOK, FixedOK;
    assert RecordFollows(d.commands[n], e.commands[n]);
    assert HasKind(e.commands, Add);
  }

  lemma FalseStays(d: Ledger, e: Ledger, n: nat)
    requires Follows(d, e) && n < |d.commands| && d.commands[n].resumePermitted
             && d.commands[n].resumeAttempted == Some(false)
    ensures n < |e.commands| && e.commands[n].resumeAttempted == Some(false)
  {
    hide Seen;
    assert RecordFollows(d.commands[n], e.commands[n]);
  }

  /**
   A durable "not attempted" beside a durable permission means the process never runs: not
   before that moment, and not after it, whoever recovers.
   */
  lemma NotAttemptedMeansNever(w: World, run: seq<Event>, i: nat, n: nat, k: nat)
    requires Fresh(w) && Legal(w, run) && i <= |run| && n < |DiskAt(w, run, i).commands|
    requires DiskAt(w, run, i).commands[n].resumePermitted
             && DiskAt(w, run, i).commands[n].resumeAttempted == Some(false)
    requires k < |run| && run[k].Resumed?
    ensures run[k].command != n
  {
    hide Fresh, After, Legal, Follows, Sound, Accepted;
    if run[k].command == n {
      if k < i {
        ResumedFrom(w, run, k, i);
        SoundAt(w, run, i);
        ResumedRecord(After(w, run[..i]), n);
      } else {
        GuardAt(w, run, k);
        Forward(w, run, i, k);
        FalseStays(DiskAt(w, run, i), DiskAt(w, run, k), n);
      }
    }
  }

  lemma ResumedOnce(w: World, run: seq<Event>, i: nat, j: nat)
    requires Fresh(w) && Legal(w, run) && i < j < |run| && run[i].Resumed? && run[j].Resumed?
    ensures run[i].command != run[j].command
  {
    hide Fresh, After, Legal, AddAttempted, Seen;
    ResumedFrom(w, run, i, j);
    GuardAt(w, run, j);
  }

  lemma OneAddRecord(l: Ledger, m: nat, n: nat)
    requires Accepted(l) && m < |l.commands| && n < |l.commands| && l.commands[m].kind == Add
             && l.commands[n].kind == Add
    ensures m == n
  {
    hide SidBytes, MappingOf, RecordOK, FixedOK;
    assert CommandsOK(l.fixed.session, l.commands);
  }

  /** Over a whole history of crashes and recoveries, at most one addition ever runs. */
  lemma AtMostOneAddition(w: World, run: seq<Event>, i: nat, j: nat)
    requires Fresh(w) && Legal(w, run) && i < j < |run| && run[i].Resumed? && run[j].Resumed?
    requires run[i].command < |DiskAt(w, run, i).commands| && DiskAt(w, run, i).commands[run[i].command].kind == Add
    requires run[j].command < |DiskAt(w, run, j).commands|
    ensures DiskAt(w, run, j).commands[run[j].command].kind != Add
  {
    hide Fresh, After, Legal, Accepted, Follows;
    WriteAhead(w, run, i, j);
    ResumedOnce(w, run, i, j);
    EveryLedgerAccepted(w, run, j);
    if DiskAt(w, run, j).commands[run[j].command].kind == Add {
      OneAddRecord(DiskAt(w, run, j), run[i].command, run[j].command);
    }
  }

  /** Each request slot's bytes are handed out at most once, and only after its consumption is on disk. */
  lemma ServedAtMostOnce(w: World, run: seq<Event>, i: nat, j: nat)
    requires Fresh(w) && Legal(w, run) && i < j < |run| && run[i].Served? && run[j].Served?
    ensures Consumed(DiskAt(w, run, i), run[i].request) && run[i].request != run[j].request
  {
    hide Fresh, After, Legal, Consumed;
    GuardAt(w, run, i);
    GuardAt(w, run, j);
    Forward(w, run, i + 1, j);
  }

  lemma DistinctSids(d: Identity)
    requires IdentityOK(d)
    ensures Positive(d) != Reviewer(d)
  {
    hide SidBytes, TextSid;
    PrintAfterParse(d.positiveSid);
    PrintAfterParse(d.reviewerSid);
  }

  lemma OwnedBaseline(l: Ledger)
    requires Accepted(l) && l.operation.Some?
    ensures IdentityOK(l.operation.value.identity) && BaselineUnowned(l.observations, l.operation.value.identity)
    ensures HasKind(l.commands, Delete) ==> l.owned
  {
    hide SidBytes, MappingOf, RecordOK, FixedOK;
  }

  /**
   A deletion runs only for the positive SID, never `reviewer_sid`; only after a durable attempt
   to add it, when both baselines lacked it and the newest observation holds it, with the attribute
   recorded after the addition if one was.
   */
  lemma DeletesOnlyItsOwn(w: World, run: seq<Event>, i: nat)
    requires Fresh(w) && Legal(w, run) && i < |run| && run[i].Resumed?
    requires run[i].command < |DiskAt(w, run, i).commands| && DiskAt(w, run, i).commands[run[i].command].kind == Delete
    ensures var d := DiskAt(w, run, i);
            && d.owned && d.operation.Some? && IdentityOK(d.operation.value.identity)
            && run[i].sid == Some(d.operation.value.identity.positiveSid)
            && Positive(d.operation.value.identity) != Reviewer(d.operation.value.identity)
            && AddAttempted(d.commands)
            && BaselineUnowned(d.observations, d.operation.value.identity)
            && Seen(d.observations, PreDelete).Some?
               && Positive(d.operation.value.identity) in Seen(d.observations, PreDelete).value
            && (d.target.Some? ==>
                  Seen(d.observations, PreDelete).value[Positive(d.operation.value.identity)] == d.target.value)
  {
    hide Fresh, After, Legal, Accepted, IdentityOK, BaselineUnowned, AddAttempted, SidBytes;
    GuardAt(w, run, i);
    EveryLedgerAccepted(w, run, i);
    var d := DiskAt(w, run, i);
    OwnedBaseline(d);
    assert HasKind(d.commands, Delete);
    DistinctSids(d.operation.value.identity);
  }

  // ----- what may be claimed --------------------------------------------------------------

  lemma ExactFacts(l: Ledger)
    requires Accepted(l) && l.exact
    ensures l.phase == Cleaned && l.firstError == None && l.cleanupError == None && l.deleteVerified
            && l.operation.Some?
    ensures l.completedMs.Some? && l.operation.value.startedMs <= l.completedMs.value < l.operation.value.deadlineMs
    ensures Seen(l.observations, PostDelete).Some? && Seen(l.observations, PostDelete) == Seen(l.observations, Baseline)
  {
    hide SidBytes, MappingOf, RecordOK, FixedOK;
  }

  /** The first error stays on disk as it was, and rules out a claim of exact restoration for good. */
  lemma FirstErrorStays(w: World, run: seq<Event>, i: nat, j: nat)
    requires Fresh(w) && Legal(w, run) && i <= j <= |run| && DiskAt(w, run, i).firstError.Some?
    ensures DiskAt(w, run, j).firstError == DiskAt(w, run, i).firstError && !DiskAt(w, run, j).exact
  {
    hide Fresh, After, Legal, Accepted;
    Forward(w, run, i, j);
    EveryLedgerAccepted(w, run, j);
    if DiskAt(w, run, j).exact { ExactFacts(DiskAt(w, run, j)); }
  }

  lemma {:induction false} UndisturbedTable(w: World, run: seq<Event>)
    requires Fresh(w) && Legal(w, run) && Undisturbed(run)
    ensures !After(w, run).foreign
  {
    hide Guard;
    if run != [] {
      var front := run[..|run| - 1];
      assert forall k :: 0 <= k < |front| ==> front[k] == run[k];
      UndisturbedTable(w, front);
      assert !run[|run| - 1].Foreign?;
    }
  }

  lemma ExactTruth(w: World)
    requires Sound(w) && w.durable.exact
    ensures w.live == None && (w.foreign || w.table == w.original)
  {
    hide Accepted, InTime, Bounded, Target, Seen;
  }

  /**
   Restoration: whenever the disk claims it, no process that could change the table is left, the
   two observations agree, no error was ever recorded and the operation ended inside its window.
   If nobody else wrote the table, it is the original table, entry for entry.
   */
  lemma RestorationIsTrue(w: World, run: seq<Event>, i: nat)
    requires Fresh(w) && Legal(w, run) && i <= |run| && DiskAt(w, run, i).exact
    ensures var d := DiskAt(w, run, i);
            && After(w, run[..i]).live == None && d.firstError == None && d.operation.Some? && d.completedMs.Some?
            && d.operation.value.startedMs <= d.completedMs.value < d.operation.value.deadlineMs
            && Seen(d.observations, PostDelete).Some?
               && Seen(d.observations, PostDelete) == Seen(d.observations, Baseline)
    ensures Undisturbed(run[..i]) ==> After(w, run[..i]).table == w.table
  {
    hide Fresh, After, Legal, Accepted, Sound;
    SoundAt(w, run, i);
    ExactTruth(After(w, run[..i]));
    EveryLedgerAccepted(w, run, i);
    ExactFacts(DiskAt(w, run, i));
    Forward(w, run, 0, i);
    OriginalIsInitial(w);
    if Undisturbed(run[..i]) { UndisturbedTable(w, run[..i]); }
  }

  lemma OriginalIsInitial(w: World)
    requires Fresh(w)
    ensures w.original == w.table
  {
    hide Accepted;
  }

  /** No process runs, and the table does not move by our hand, while the disk still claims success. */
  lemma SuccessWithdrawnFirst(w: World, run: seq<Event>, i: nat)
    requires Fresh(w) && Legal(w, run) && i < |run| && (run[i].Resumed? || run[i].Changed?)
    ensures !DiskAt(w, run, i).exact
    ensures run[i].Resumed? ==> !DiskAt(w, run, i).deleteVerified
  {
    hide Fresh, After, Legal, Accepted, Sound, AddAttempted, Seen;
    GuardAt(w, run, i);
    SoundAt(w, run, i);
    if DiskAt(w, run, i).exact { ExactTruth(After(w, run[..i])); }
  }

  lemma OthersKept(w: World)
    requires Sound(w) && !w.foreign
    ensures w.table - {Target(w)} == w.original - {Target(w)}
    ensures w.durable.operation == None ==> w.table == w.original
  {
    hide InTime, Bounded, Target, SidBytes, MappingOf, RecordOK, FixedOK;
  }

  /** Without another writer, every entry but the operation's own keeps its value at every moment. */
  lemma OtherEntriesUntouched(w: World, run: seq<Event>, i: nat, sid: Bytes)
    requires Fresh(w) && Legal(w, run) && i <= |run| && Undisturbed(run[..i])
    requires var d := DiskAt(w, run, i);
             d.operation.Some? && IdentityOK(d.operation.value.identity) ==> sid != Positive(d.operation.value.identity)
    ensures sid in After(w, run[..i]).table <==> sid in w.table
    ensures sid in w.table ==> After(w, run[..i]).table[sid] == w.table[sid]
  {
    hide Fresh, After, Legal, Accepted, Sound, IdentityOK, Positive;
    SoundAt(w, run, i);
    UndisturbedTable(w, run[..i]);
    var now := After(w, run[..i]);
    OthersKept(now);
    Forward(w, run, 0, i);
    OriginalIsInitial(w);
    if now.durable.operation.Some? {
      EveryLedgerAccepted(w, run, i);
      OwnedBaseline(now.durable);
      assert sid != Target(now);
      assert sid in now.table <==> sid in now.table - {Target(now)};
      assert sid in now.original <==> sid in now.original - {Target(now)};
    }
  }
}
