/**
 The coordinator itself: one mutable ledger in memory, flushed step by step.

 Every native call may fail, and every child that may be running may change the table between
 any two steps.  Each method keeps `Valid`, which says that the events emitted so far form a
 legal run and that the ledger in memory could be flushed right now.
 */
module Coordinator {
  import opened Bytes
  import opened Sid
  import opened Snapshot
  import opened Ledger
  import opened Protocol
  import opened LedgerSteps
  import opened LedgerFacts
  import opened WholeRuns
  import T = Transcript

  /** What recovery found of one recorded command: its process, its named job, and processes left in the job. */
  datatype Probe = Probe(process: bool, job: bool, members: bool)

  /** A command that never recorded a process is only passed over when its job is found and empty. */
  predicate ReapedAs(r: Record, p: Probe) {
    (p.process ==> p.job) && (r.pid == None ==> p.job && !p.members && !p.process)
  }

  class Admin {
    var data: Ledger
    var world: World
    var clock: int
    const start: World
    const past: seq<Event>
    var run: seq<Event>
    ghost var asked: T.Log      // what has been asked of the system
    ghost var troubles: nat     // how often its answer did not help

    ghost predicate Valid()
      reads `data, `world, `clock, `run
    {
      && Fresh(start) && Legal(start, run) && past <= run && world == After(start, run)
      && Sound(world) && Flushable(world, data)
      && Integer(clock) && (data.operation.Some? ==> data.operation.value.startedMs <= clock)
    }

    /** `reopen`: a new coordinator over whatever an earlier one left behind, even a running child. */
    constructor Reopen(start: World, past: seq<Event>, left: World, now: int)
      requires Fresh(start) && Legal(start, past) && left == After(start, past) && Integer(now)
      requires left.durable.operation.Some? ==> left.durable.operation.value.startedMs <= now
      ensures Valid() && this.start == start && this.past == past && world == left && data == left.durable
              && clock == now
      ensures run == past
    {
      hide Fresh, Legal, After, Integer, Flushable, Sound;
      ReachableSound(start, past);
      FreshStays(left);
      this.start, this.past, this.run := start, past, past;
      world, data, clock := left, left.durable, now;
      asked, troubles := [], 0;
    }

    /** The parts of `Valid` that say what may be done next. */
    lemma Known()
      requires Valid()
      ensures Flushable(world, data) && Sound(world) && Integer(clock)
      ensures data.operation.Some? ==> data.operation.value.startedMs <= clock
    {
      hide Fresh, Legal, After, Integer, Flushable, Sound;
    }

    /** The ledger in memory changes; the disk does not. */
    method Put(l: Ledger)
      requires Valid() && Flushable(world, l)
      requires l.operation.Some? ==> l.operation.value.startedMs <= clock
      modifies `data
      ensures Valid() && data == l
    {
      hide Fresh, Legal, After, Integer, Flushable, Sound;
      data := l;
    }

    // ----- the operating system ---------------------------------------------------------

    /** One question, and whether the answer helps. */
    method Ask(act: T.Act) returns (ok: bool)
      modifies `asked, `troubles
      ensures asked == T.Noted(old(asked), act, ok) && troubles == old(troubles) + (if ok then 0 else 1)
    {
      ok := *;
      Tally(act, ok, ok);
    }

    method Tally(act: T.Act, answered: bool, helps: bool)
      modifies `asked, `troubles
      ensures asked == T.Noted(old(asked), act, answered)
      ensures troubles == old(troubles) + (if helps then 0 else 1)
    {
      asked := T.Noted(asked, act, answered);
      if !helps { troubles := troubles + 1; }
    }

    method Emit(e: Event)
      requires Valid() && Guard(world, e) && Flushable(Step(world, e), data)
      modifies `world, `run
      ensures Valid() && world == Step(old(world), e) && run == old(run) + [e]
    {
      hide Fresh, Flushable, Guard, Sound, Step, Integer;
      StepKeeps(world, e);
      Append(start, run, e);
      world := Step(world, e);
      run := run + [e];
    }

    /** A monotonic millisecond clock. */
    method NowMs() returns (now: int)
      requires Valid()
      modifies `clock
      ensures Valid() && now == clock && old(clock) <= clock
    {
      hide Fresh, Flushable, Sound, Legal, After;
      now := *;
      if now < clock || now >= 0x8000_0000_0000_0000 { now := clock; }
      clock := now;
    }

    /** A child that may be running touches the table, another writer does, or neither. */
    method Interfere()
      requires Valid()
      modifies `world, `run
      ensures Valid() && Steady(old(world), world) && world.durable == old(world.durable)
      ensures old(run) <= run
    {
      hide Fresh, Flushable, Sound, Legal, After, Integer;
      var act: bool, foreign: bool := *, *;
      if foreign {
        var table: Table := *;
        ForeignStays(world, data, table);
        Emit(Foreign(table));
      }
      if world.live == None || !act { return; }
      LiveFacts(world);
      var attributes: int := *;
      if attributes < 0 || attributes >= WORD32 { attributes := 0; }
      var effect := if world.durable.commands[world.live.value].kind == Add then Some(attributes) else None;
      ChangedStays(world, data, effect);
      Emit(Changed(effect));
    }

    /** `Store.flush`: true means the ledger is on disk; false says nothing, it may be there or not. */
    method Flush() returns (ok: bool)
      requires Valid()
      modifies `world, `run, `asked, `troubles
      ensures Valid() && Steady(old(world), world) && old(run) <= run
      ensures world.durable == data || (!ok && world.durable == old(world.durable))
      ensures asked == T.Noted(old(asked), T.Written, ok) && (old(world).foreign ==> world.foreign)
      ensures old(troubles) <= troubles && (ok <==> troubles == old(troubles))
    {
      hide Fresh, Sound, Legal, After, Integer, Flushable;
      Interfere();
      ok := Ask(T.Written);
      var written: bool := *;  // whatever the call returned
      if !ok && !written { return; }
      FlushedStays(world, data);
      Emit(Flushed(data));
    }

    /** `verify_store`: memory must equal the disk, and the whole validator must accept it. */
    method VerifyStore() returns (ok: bool)
      requires Valid()
      modifies `world, `run, `asked, `troubles
      ensures Valid() && Steady(old(world), world) && world.durable == old(world.durable) && old(run) <= run
      ensures (ok ==> asked == old(asked) + [T.Compared]) && |asked| == |old(asked)| + 1
      ensures (old(world).foreign ==> world.foreign) && old(troubles) <= troubles
      ensures ok <==> data == world.durable && troubles == old(troubles)
      ensures !ok ==> T.Stuck(asked) || data != world.durable
    {
      hide Fresh, Sound, Legal, After, Integer, Flushable, Accepted;
      Interfere();
      SmallFacts(world, data);
      assert Accepted(data);  // the first check of `verify_store` never refuses
      ok := Ask(T.Compared);
      if data != world.durable { ok := false; }
    }

    /** `_failure`. */
    method Failure(code: ErrorCode) returns (ok: bool)
      requires Valid()
      modifies `data, `world, `run, `asked, `troubles
      ensures Valid() && Steady(old(world), world) && old(run) <= run
      ensures data == WithFailure(old(data), code)
      ensures world.durable == data || (!ok && world.durable == old(world.durable))
      ensures asked == T.Noted(old(asked), T.Written, ok) && (old(world).foreign ==> world.foreign)
      ensures old(troubles) <= troubles && (ok <==> troubles == old(troubles))
    {
      hide Fresh, Sound, Legal, After, Integer, Flushable;
      Failed(world, data, code);
      data := WithFailure(data, code);
      ok := Flush();
    }

    /** `_failure` and the exception of the same code, which the ledger and the clock bear out. */
    method Refuse(code: ErrorCode) returns (error: Option<ErrorCode>)
      requires Valid() && Explained(data, clock, code)
      modifies `data, `world, `run, `asked, `troubles
      ensures Valid() && Steady(old(world), world) && data == WithFailure(old(data), code)
      ensures error == Some(code) && Noted(old(data), data, error) && Explained(data, clock, code)
      ensures old(troubles) <= troubles && (old(world).foreign ==> world.foreign)
    {
      hide Valid, WithFailure, Explained;
      FailureKeeps(data, code, clock);
      var noted := Failure(code);
      error := Some(code);
    }

    /** `publish` and `publish_manifest`: a public file is written, then the ledger flushed. */
    method Publish() returns (ok: bool)
      requires Valid()
      modifies `world, `run, `asked, `troubles
      ensures Valid() && Steady(old(world), world) && old(run) <= run
      ensures world.durable == data || world.durable == old(world.durable)
      ensures ok ==> world.durable == data
      ensures (old(world).foreign ==> world.foreign) && old(troubles) <= troubles && (ok <==> troubles == old(troubles))
      ensures if ok then asked == old(asked) + [T.Published, T.Written] else T.Stuck(asked)
    {
      hide Valid;
      ok := Ask(T.Published);
      if ok { ok := Flush(); }
    }

    // ----- one child process --------------------------------------------------------------

    /** One update of a command record, as the source writes it: in memory only. */
    method SetRecord(n: nat, r: Record)
      requires Valid() && n < |data.commands| && RecordOK(data.fixed.session, n, r)
      requires RecordFollows(data.commands[n], r)
      requires r.resumeAttempted != Some(true) ==> n !in world.resumed
      requires data.addVerified ==> r.kind != Add
      modifies `data
      ensures Valid() && data == WithRecord(old(data), n, r) && data.commands[n] == r
      ensures data.fixed == old(data).fixed && data.exact == old(data).exact
              && data.addVerified == old(data).addVerified
    {
      hide Fresh, Sound, Legal, After, Integer, Flushable, RecordOK;
      RecordFacts(world, data, n);
      RecordChanged(world, data, n, r);
      data := data.(commands := data.commands[n := r]);
    }

    /** `_argv`: whether a command line for this kind may be built at all. */
    method Argv(kind: Kind) returns (ok: bool)
      requires Valid()
      modifies `clock
      ensures Valid() && old(clock) <= clock
      ensures ok <==> Commandable(data, kind) && !(kind == Add && Late(data, clock))
      ensures ok && kind == Add ==> !HasKind(data.commands, Add)
    {
      hide Fresh, Sound, Legal, After, Integer, Flushable;
      if kind == Get || kind == Abi { return true; }
      if data.bootstrap == None { return false; }
      var d := data.bootstrap.value.identity;
      if d.positiveSid == d.reviewerSid || !("S-1-15-2-" <= d.positiveSid) { return false; }
      if !data.owned || data.operation == None { return false; }
      if kind == Add {
        if data.phase != AddIntent || HasKind(data.commands, Add) { return false; }
        var now := NowMs();
        ok := now < data.operation.value.deadlineMs;
      } else {
        ok := data.phase == CleanupIntent;
      }
    }

    /** `run_fixed`. */
    method RunFixed(kind: Kind) returns (result: Option<Record>)
      requires Valid() && world.live == None && Runnable(data, kind)
      requires kind == Delete ==> AddAttempted(data.commands)
      modifies this
      ensures old(clock) <= clock
      ensures Valid() && OneMoreCommand(old(data), data, kind) && Ran(old(world), world, |old(data).commands|, kind)
      ensures result.Some? ==>
                && |data.commands| == |old(data).commands| + 1 && result.value == data.commands[|old(data).commands|]
                && CleanEnd(result.value) && world.durable == data && world.live == None
                && asked == T.Child(old(asked)) && OutputName(|old(data).commands|) in data.files
      ensures old(troubles) <= troubles
      ensures result == None ==>
                || old(troubles) < troubles || !Commandable(old(data), kind) || !Room(old(data), 1)
                || (kind == Add && Late(old(data), clock))
      ensures result.Some? && troubles == old(troubles) ==> Obeyed(world, result.value)
    {
      hide Valid, Sound, Integer, Flushable, Runnable, CleanEnd, RecordOK, AddAttempted, HasKind, OneMoreCommand, Ran,
        Steady,
        Settling, WithRecord, NewRecord, Obeyed, Commandable, Late;
      result := None;
      NothingRun(data, world, |data.commands|, kind);
      var permitted := Argv(kind);
      if !permitted || |data.commands| >= 32 { return; }
      var n := |data.commands|;
      var admitted := Allocate(kind);
      SteadyIsRan(old(world), world, n, kind);
      if !admitted { return; }
      ghost var newData, newWorld := data, world;
      var finished, started := RunChild(n);
      NewestChanged(old(data), newData, data, kind, n);
      LateAlready(old(data), data, kind, clock);
      ghost var ran, ranWorld := data, world;
      var released := FinishRun(n, finished, started);
      NewestChanged(old(data), ran, data, kind, n);
      RanThrough(old(world), newWorld, ranWorld, world, n, kind);
      if finished && released { result := Some(data.commands[n]); }
    }

    /** `store.write` of a new output file; it may fail before or after the new identity is noted. */
    method CreateOutput() returns (written: bool)
      requires Valid() && |data.commands| < 32
      modifies `data, `asked, `troubles
      ensures Valid() && data == WithFiles(old(data), data.files)
      ensures written ==> OutputName(|data.commands|) in data.files
      ensures asked == T.Noted(old(asked), T.OutputMade, written) && old(troubles) <= troubles
      ensures written <==> troubles == old(troubles)
    {
      hide Valid, Sound, Integer, Flushable, OutputName, WithFiles;
      Known();
      SameParts(data);
      var noted: bool := *;
      written := Ask(T.OutputMade);
      if noted || written { NoteOutput(); }
    }

    method NoteOutput()
      requires Valid() && |data.commands| < 32
      modifies `data
      ensures Valid() && data == WithFiles(old(data), old(data).files + {OutputName(|old(data).commands|)})
    {
      hide Valid, Sound, Integer, Flushable, OutputName;
      Known();
      OutputCreated(world, data);
      Put(data.(files := data.files + {OutputName(|data.commands|)}));
    }

    /** The output file and the first durable record of a command. */
    method Allocate(kind: Kind) returns (ok: bool)
      requires Valid() && world.live == None && Runnable(data, kind) && |data.commands| < 32
      requires kind == Delete ==> AddAttempted(data.commands)
      requires kind == Add ==> !HasKind(data.commands, Add)
      modifies `data, `world, `run, `asked, `troubles
      ensures Valid() && OneMoreCommand(old(data), data, kind) && Steady(old(world), world)
      ensures ok ==>
                && world.durable == data && |data.commands| == |old(data).commands| + 1
                && data.commands[|old(data).commands|] == NewRecord(data.fixed.session, |old(data).commands|, kind)
                && |old(data).commands| !in world.resumed && Runnable(data, kind)
                && (kind == Delete ==> AddAttempted(data.commands)) && OutputName(|old(data).commands|) in data.files
      ensures old(troubles) <= troubles && (ok <==> troubles == old(troubles))
      ensures ok ==> asked == old(asked) + [T.OutputMade, T.Written]
    {
      hide Fresh, Sound, Legal, After, Integer, Flushable, RecordOK, AddAttempted, HasKind, NewRecord;
      ok := CreateOutput();
      if !ok { return; }
      var n, r := |data.commands|, NewRecord(data.fixed.session, |data.commands|, kind);
      ghost var before := data.commands;
      NotResumedYet(world, data);
      RunnableFacts(world, data, kind);
      CommandAllocated(world, data, kind);
      data := data.(commands := data.commands + [r]);
      if kind == Delete { AttemptKept(before, data.commands); }
      ok := Flush();
    }

    /** The child is alone in its job, and has a process number and a creation time. */
    method IdentifyChild() returns (ok: bool, pid: int, created: int)
      modifies `asked, `troubles
      ensures ok ==> Natural32(pid) && Natural64(created)
      ensures asked == T.Noted(old(asked), T.Identified, ok) && troubles == old(troubles) + (if ok then 0 else 1)
    {
      ok, pid, created := *, *, *;
      if !Natural32(pid) || !Natural64(created) { ok := false; }
      Tally(T.Identified, ok, ok);
    }

    /** The body of the `try`: from the first durable record to the last. */
    method RunChild(n: nat) returns (finished: bool, started: bool)
      requires Valid() && world.durable == data && world.live == None && n + 1 == |data.commands| && n !in world.resumed
      requires data.commands[n] == NewRecord(data.fixed.session, n, data.commands[n].kind)
      requires Runnable(data, data.commands[n].kind)
      requires data.commands[n].kind == Delete ==> AddAttempted(data.commands)
      modifies this
      ensures old(clock) <= clock
      ensures Valid() && |data.commands| == n + 1 && data == WithRecord(old(data), n, data.commands[n])
      ensures data.commands[n].kind == old(data).commands[n].kind && data.addVerified == old(data).addVerified
      ensures Ran(old(world), world, n, data.commands[n].kind)
      ensures data.commands[n].resumeAttempted != Some(true) ==> n !in world.resumed
      ensures finished ==> started && CleanEnd(data.commands[n]) && world.durable == data && world.live == None
      ensures data.commands[n].reaped ==> world.live == None
      ensures data.addVerified ==> data.commands[n].kind != Add
      ensures started <==> |asked| > |old(asked)| + 1
      ensures finished ==> asked == T.Running(T.Permission(old(asked) + [T.Spawned, T.Identified]))
      ensures old(troubles) <= troubles
      ensures !finished ==>
                old(troubles) < troubles || (data.commands[n].kind == Add && Late(data, clock))
      ensures finished && troubles == old(troubles) ==> Obeyed(world, data.commands[n])
    {
      hide Fresh, Sound, Legal, After, Integer, Flushable, AddAttempted, HasKind, WithRecord;
      RunnableFacts(world, data, data.commands[n].kind);
      RecordTwice(data, n, data.commands[n], data.commands[n]);
      finished, started := false, false;
      // job, output handle, attribute list, CreateProcess
      var spawned := Ask(T.Spawned);
      if !spawned { return; }
      started := true;
      var admitted, pid, created := IdentifyChild();
      if !admitted { return; }
      var durable := Admit(n, pid, created);
      ghost var ready := PermittedRecord(old(data).commands[n], pid, created);
      if durable { finished := ResumeAndWait(n); }
      RecordTwice(old(data), n, ready, data.commands[n]);
    }

    /** Durable permission to resume, then the two deadlines. */
    method Admit(n: nat, pid: int, created: int) returns (ok: bool)
      requires Valid() && world.live == None && n + 1 == |data.commands| && n !in world.resumed
      requires data.commands[n] == NewRecord(data.fixed.session, n, data.commands[n].kind)
      requires Runnable(data, data.commands[n].kind)
      requires data.commands[n].kind == Delete ==> AddAttempted(data.commands)
      requires Natural32(pid) && Natural64(created)
      modifies this
      ensures old(clock) <= clock
      ensures Valid() && |data.commands| == n + 1 && Steady(old(world), world)
      ensures data == WithRecord(old(data), n, PermittedRecord(old(data).commands[n], pid, created))
      ensures data.commands[n] == PermittedRecord(old(data).commands[n], pid, created)
      ensures data.addVerified == old(data).addVerified
      ensures Runnable(data, data.commands[n].kind) && (data.commands[n].kind == Delete ==> AddAttempted(data.commands))
      ensures ok ==> world.durable == data && asked == T.Permission(old(asked))
      ensures |old(asked)| <= |asked| && old(troubles) <= troubles
      ensures ok && data.commands[n].kind == Add ==> clock < data.operation.value.deadlineMs
      ensures !ok ==>
                old(troubles) < troubles || (data.commands[n].kind == Add && Late(data, clock))
    {
      hide Fresh, Sound, Legal, After, Integer, Flushable, AddAttempted, HasKind;
      RunnableFacts(world, data, data.commands[n].kind);
      SetRecord(n, PermittedRecord(data.commands[n], pid, created));
      if data.commands[n].kind == Delete { AttemptUnmoved(old(data).commands, data.commands, n); }
      ok := Flush();
      if ok { ok := Ask(T.InBudget); }
      if ok && data.commands[n].kind == Add {
        var now := NowMs();
        if now >= data.operation.value.deadlineMs { ok := false; }
      }
    }

    /** From the durable permission to resume up to the durable end of the child. */
    method ResumeAndWait(n: nat) returns (finished: bool)
      requires Valid() && world.live == None && world.durable == data && n + 1 == |data.commands| && n !in world.resumed
      requires var r := data.commands[n];
               r.state == Ready && r.resumePermitted && r.resumeAttempted == None && r.pid.Some? && r.exitCode == None
      requires Runnable(data, data.commands[n].kind)
      requires data.commands[n].kind == Delete ==> AddAttempted(data.commands)
      modifies `data, `world, `run, `asked, `troubles
      ensures Valid() && |data.commands| == n + 1 && data == WithRecord(old(data), n, data.commands[n])
      ensures data.commands[n].kind == old(data).commands[n].kind && data.addVerified == old(data).addVerified
      ensures Ran(old(world), world, n, data.commands[n].kind)
      ensures data.commands[n].resumeAttempted == Some(true)
      ensures finished ==> CleanEnd(data.commands[n]) && world.durable == data && world.live == None
      ensures data.commands[n].reaped ==> world.live == None
      ensures finished ==> asked == T.Running(old(asked))
      ensures |old(asked)| <= |asked| && old(troubles) <= troubles
      ensures !finished ==> old(troubles) < troubles
      ensures finished && troubles == old(troubles) ==> Obeyed(world, data.commands[n])
    {
      hide Valid, Sound, Integer, Flushable, HasKind, WithRecord, AddAttempted, Ran, Settling, Step, CleanEnd;
      finished := false;
      Known();
      RecordFacts(world, data, n);
      RunnableFacts(world, data, data.commands[n].kind);
      var kind, ready := data.commands[n].kind, data.commands[n];
      var sid := if kind == Add || kind == Delete then Some(data.operation.value.identity.positiveSid) else None;
      Resume(n, sid);
      ghost var resumed, resumedWorld := data.commands[n], world;
      finished := NoteReturn(n);
      RecordTwice(old(data), n, resumed, data.commands[n]);
      ResumedRuns(old(world), resumedWorld, world, n, kind, sid);
    }

    /** `ResumeThread`: the previous suspend count, which is 1 for a thread that now runs. */
    method WakeChild() returns (raised: bool, previous: int)
      modifies `asked, `troubles
      ensures 0 <= previous < WORD32
      ensures asked == T.Noted(old(asked), T.Woken, !raised && previous == 1)
      ensures troubles == old(troubles) + (if !raised && previous == 1 then 0 else 1)
    {
      raised, previous := *, *;
      if previous < 0 || previous >= WORD32 { previous := 0xFFFF_FFFF; }  // -1, the failure value
      Tally(T.Woken, !raised && previous == 1, !raised && previous == 1);
    }

    /** `ResumeThread` came back with the previous suspend count, or not at all. */
    method NoteReturn(n: nat) returns (finished: bool)
      requires Valid() && n + 1 == |data.commands|
      requires var r := data.commands[n];
               && RecordOK(data.fixed.session, n, r) && r.state == Ready && r.resumePermitted
               && r.resumeAttempted == Some(true) && r.pid.Some? && r.exitCode == None && !r.reaped
      requires data.addVerified ==> data.commands[n].kind != Add
      requires Directed(world, data.commands[n].kind)
      modifies `data, `world, `run, `asked, `troubles
      ensures Valid() && |data.commands| == n + 1 && data == WithRecord(old(data), n, data.commands[n])
      ensures data.commands[n].kind == old(data).commands[n].kind && data.addVerified == old(data).addVerified
      ensures Settling(old(world), world)
      ensures data.commands[n].resumeAttempted == Some(true)
      ensures finished ==> CleanEnd(data.commands[n]) && world.durable == data && world.live == None
      ensures data.commands[n].reaped ==> world.live == None
      ensures finished ==> asked == T.Running(old(asked))
      ensures |old(asked)| <= |asked| && old(troubles) <= troubles
      ensures !finished ==> old(troubles) < troubles && T.Stuck(asked)
      ensures finished && troubles == old(troubles) ==> Obeyed(world, data.commands[n])
    {
      hide Valid, Sound, Integer, Flushable, HasKind, WithRecord, Settling;
      finished := false;
      RecordTwice(data, n, data.commands[n], data.commands[n]);
      NothingSettles(world);
      var raised, previous := WakeChild();
      if raised { return; }
      SetRecord(n, data.commands[n].(resumeReturned := Some(previous)));
      if previous != 1 { return; }
      ghost var returned := data.commands[n];
      finished := AwaitChild(n);
      RecordTwice(old(data), n, returned, data.commands[n]);
    }

    /** The attempt is noted in memory, then the thread resumes. */
    method Resume(n: nat, sid: Option<string>)
      requires Valid() && n + 1 == |data.commands| && n !in world.resumed && MayResume(world, n, sid)
      requires RecordOK(data.fixed.session, n, data.commands[n])
      requires data.commands[n].state == Ready && data.commands[n].resumePermitted
               && data.commands[n].resumeAttempted == None
      requires data.addVerified ==> data.commands[n].kind != Add
      requires sid.Some? <==> data.commands[n].kind == Add || data.commands[n].kind == Delete
      requires !data.exact
      modifies `data, `world, `run
      ensures Valid() && |data.commands| == n + 1
      ensures data.commands[n] == old(data).commands[n].(resumeAttempted := Some(true))
      ensures data == WithRecord(old(data), n, data.commands[n])
      ensures data.addVerified == old(data).addVerified && data.fixed == old(data).fixed
      ensures world == Step(old(world), Resumed(n, sid)) && world.durable == old(world).durable
    {
      hide Fresh, Sound, Legal, After, Integer, Flushable, HasKind, WithRecord, MayResume;
      SetRecord(n, data.commands[n].(resumeAttempted := Some(true)));
      if sid.Some? { OwnedKind(world, data, n); }
      ResumedStays(world, data, n, sid);
      Emit(Resumed(n, sid));
    }

    /** `WaitForSingleObject`: 0 for a child that ended, 258 for one that did not, or a failure. */
    method WaitForChild() returns (waited: int)
      modifies `asked, `troubles
      ensures asked == T.Noted(old(asked), T.Awaited, waited == 0 || waited == 258)
      ensures troubles == old(troubles) + (if waited == 0 then 0 else 1)
    {
      waited := *;
      Tally(T.Awaited, waited == 0 || waited == 258, waited == 0);
    }

    /** `GetExitCodeProcess`; an exit code of 0 helps only if the child has done what it was started for. */
    method ExitCode(n: nat) returns (known: bool, code: int)
      requires n < |data.commands|
      modifies `asked, `troubles
      ensures known ==> 0 <= code < WORD32
      ensures asked == T.Noted(old(asked), T.ExitRead, known)
      ensures troubles == old(troubles) + (if known && code == 0 && Done(world, data.commands[n].kind) then 0 else 1)
    {
      hide Target;
      known, code := *, *;
      if code < 0 || code >= WORD32 { known, code := false, 0; }
      Tally(T.ExitRead, known, known && code == 0 && Done(world, data.commands[n].kind));
    }

    /** The last record of a child that ended by itself. */
    method RecordExit(n: nat, done: Record) returns (ok: bool)
      requires Valid() && n < |data.commands| && RecordOK(data.fixed.session, n, done)
      requires RecordFollows(data.commands[n], done) && done.resumeAttempted == Some(true)
      requires data.addVerified ==> done.kind != Add
      modifies `data, `world, `run, `asked, `troubles
      ensures Valid() && data == WithRecord(old(data), n, done) && data.commands[n] == done
      ensures data.addVerified == old(data).addVerified
      ensures Steady(old(world), world) && Kept(old(world).durable.operation, world.durable.operation)
      ensures ok ==> world.durable == data
      ensures asked == T.Noted(old(asked), T.Written, ok)
      ensures old(troubles) <= troubles && (ok <==> troubles == old(troubles))
    {
      hide Valid, Sound, Integer, Flushable, RecordOK, RecordFollows, WithRecord, Steady;
      SetRecord(n, done);
      Known();
      DataFollows(world, data);
      ok := Flush();
    }

    /** Waiting, stopping what is left of the job, and recording the exit. */
    method AwaitChild(n: nat) returns (finished: bool)
      requires Valid() && n + 1 == |data.commands|
      requires var r := data.commands[n];
               && RecordOK(data.fixed.session, n, r) && r.state == Ready && r.resumePermitted
               && r.resumeAttempted == Some(true) && r.pid.Some? && r.resumeReturned == Some(1) && r.exitCode == None
      requires data.addVerified ==> data.commands[n].kind != Add
      requires Directed(world, data.commands[n].kind)
      modifies `data, `world, `run, `asked, `troubles
      ensures Valid() && |data.commands| == n + 1 && data == WithRecord(old(data), n, data.commands[n])
      ensures data.commands[n].kind == old(data).commands[n].kind && data.addVerified == old(data).addVerified
      ensures Settling(old(world), world)
      ensures data.commands[n].resumeAttempted == Some(true)
      ensures finished ==> CleanEnd(data.commands[n]) && world.durable == data && world.live == None
      ensures data.commands[n].reaped ==> world.live == None
      ensures finished ==> asked == old(asked) + [T.Awaited, T.Emptied, T.ExitRead, T.Written]
      ensures |old(asked)| <= |asked| && old(troubles) <= troubles
      ensures !finished ==> old(troubles) < troubles && T.Stuck(asked)
      ensures finished && troubles == old(troubles) ==> Obeyed(world, data.commands[n])
    {
      hide Valid, Sound, Integer, Flushable, HasKind, WithRecord, RecordOK, RecordFollows, CleanEnd, Done, Target,
        Obeyed;
      finished := false;
      RecordTwice(data, n, data.commands[n], data.commands[n]);
      Interfere();
      var waited := WaitForChild();
      WaitedRecord(data.fixed.session, n, data.commands[n], waited == 258);
      var r := data.commands[n].(timedOut := waited == 258);
      SetRecord(n, r);
      if waited != 0 && waited != 258 { return; }
      finished := EndChild(n);
      RecordTwice(old(data), n, r, data.commands[n]);
    }

    /** Nothing is left of the child in its job; then its exit code. */
    method EndChild(n: nat) returns (finished: bool)
      requires Valid() && n + 1 == |data.commands|
      requires var r := data.commands[n];
               && RecordOK(data.fixed.session, n, r) && r.state == Ready && r.resumePermitted
               && r.resumeAttempted == Some(true) && r.pid.Some? && r.resumeReturned == Some(1) && r.exitCode == None
               && !r.reaped
      requires data.addVerified ==> data.commands[n].kind != Add
      requires Directed(world, data.commands[n].kind)
      modifies `data, `world, `run, `asked, `troubles
      ensures Valid() && |data.commands| == n + 1 && data == WithRecord(old(data), n, data.commands[n])
      ensures data.commands[n].kind == old(data).commands[n].kind && data.addVerified == old(data).addVerified
      ensures Settling(old(world), world)
      ensures data.commands[n].resumeAttempted == Some(true)
      ensures finished ==> CleanEnd(data.commands[n]) && world.durable == data && world.live == None
      ensures data.commands[n].reaped ==> world.live == None
      ensures finished ==> asked == old(asked) + [T.Emptied, T.ExitRead, T.Written]
      ensures |old(asked)| <= |asked| && old(troubles) <= troubles
      ensures !finished ==> old(troubles) < troubles && T.Stuck(asked)
      ensures finished && troubles == old(troubles) && !old(data).commands[n].timedOut ==>
                Obeyed(world, data.commands[n])
    {
      hide Valid, Sound, Integer, Flushable, HasKind, WithRecord, RecordOK, RecordFollows, CleanEnd, Done, Target;
      finished := false;
      var r := data.commands[n];
      RecordTwice(data, n, r, r);
      Interfere();
      var emptied := Ask(T.Emptied);
      if !emptied { return; }
      Known();
      GoneStays(world, data);
      Emit(Gone);
      var known, code := ExitCode(n);
      if !known { return; }
      ExitedRecord(data.fixed.session, n, r, code);
      ghost var ended := world;
      finished := RecordExit(n, r.(exitCode := Some(code), reaped := true, state := Reaped));
      DoneStays(ended, world, r.kind);
    }

    /** The `finally`: stop what still runs, release every handle, and record what is certain. */
    method FinishRun(n: nat, finished: bool, started: bool) returns (released: bool)
      requires Valid() && n + 1 == |data.commands|
      requires data.commands[n].resumeAttempted != Some(true) ==> n !in world.resumed
      requires data.addVerified ==> data.commands[n].kind != Add
      requires finished ==> started && CleanEnd(data.commands[n]) && world.durable == data && world.live == None
      requires data.commands[n].reaped ==> world.live == None
      modifies `data, `world, `run, `asked, `troubles
      ensures Valid() && |data.commands| == n + 1 && data == WithRecord(old(data), n, data.commands[n])
      ensures data.commands[n].kind == old(data).commands[n].kind
      ensures Settling(old(world), world)
      ensures finished && released ==>
                && CleanEnd(data.commands[n]) && world.durable == data && world.live == None
                && data == old(data) && world == old(world) && asked == T.Ending(old(asked), false, true)
      ensures !released ==> data.commands[n].state == CleanupUnknown && !data.commands[n].reaped
      ensures !finished ==> data.commands[n].resumeAttempted == NotedRecord(old(data).commands[n]).resumeAttempted
      ensures !finished && released ==>
                && world.durable == data && (started ==> data.commands[n].reaped && world.live == None)
                && var r := old(data).commands[n];
                data.commands[n] == NotedRecord(
                  if started && !r.reaped then r.(reaped := true, state := ReapedAfterFailure) else r)
      ensures old(troubles) <= troubles && (!released ==> old(troubles) < troubles)
      ensures released ==> asked == T.Ending(old(asked), started && !old(data).commands[n].reaped, finished)
    {
      hide Valid, Sound, Integer, Flushable, HasKind, WithRecord, RecordOK, RecordFollows, Steady, Done, Target;
      released := true;
      NothingSettles(world);
      Known();
      RecordTwice(data, n, data.commands[n], data.commands[n]);
      RecordFacts(world, data, n);
      if started && !data.commands[n].reaped {
        released := StopChild(n);
      }
      var closed := Ask(T.Closed);
      ghost var stopped, stoppedWorld := data.commands[n], world;
      released := NoteEnd(n, finished, released && closed);
      SettledSteadily(old(world), stoppedWorld, world);
      RecordTwice(old(data), n, stopped, data.commands[n]);
    }

    /** What the end of a run leaves in the record, given that everything owned was released, or not. */
    method NoteEnd(n: nat, finished: bool, settled: bool) returns (released: bool)
      requires Valid() && n + 1 == |data.commands|
      requires data.commands[n].resumeAttempted != Some(true) ==> n !in world.resumed
      requires data.addVerified ==> data.commands[n].kind != Add
      modifies `data, `world, `run, `asked, `troubles
      ensures Valid() && |data.commands| == n + 1 && data == WithRecord(old(data), n, data.commands[n])
      ensures data.commands[n].kind == old(data).commands[n].kind && Steady(old(world), world)
      ensures finished && settled ==> released && data == old(data) && world == old(world)
      ensures !settled ==> !released
      ensures !released ==>
                var r := if finished then old(data).commands[n] else NotedRecord(old(data).commands[n]);
                data.commands[n] == r.(reaped := false, state := CleanupUnknown)
      ensures old(troubles) <= troubles && (settled && !released ==> old(troubles) < troubles)
      ensures released ==> asked == old(asked) + if finished then [] else [T.Written]
      ensures !finished && released ==> world.durable == data && data.commands[n] == NotedRecord(old(data).commands[n])
    {
      hide Valid, Sound, Integer, Flushable, HasKind, WithRecord, RecordOK, RecordFollows, Steady, NotedRecord;
      released := settled;
      RecordTwice(data, n, data.commands[n], data.commands[n]);
      NotedKeeps(data.commands[n]);
      StaySteady(world, world, world);
      if !finished {
        var flushed := NoteFailure(n);
        released := released && flushed;
      }
      if !released {
        ghost var noted := world;
        RecordTwice(old(data), n, data.commands[n], data.commands[n]);
        NoteUnknown(n, old(data));
        StaySteady(old(world), noted, world);
      }
    }

    method NoteUnknown(n: nat, ghost before: Ledger)
      requires Valid() && n + 1 == |data.commands| == |before.commands|
      requires data == WithRecord(before, n, data.commands[n])
      requires data.commands[n].resumeAttempted != Some(true) ==> n !in world.resumed
      requires data.addVerified ==> data.commands[n].kind != Add
      modifies `data, `world, `run, `asked, `troubles
      ensures Valid() && |data.commands| == n + 1 && data == WithRecord(before, n, data.commands[n])
      ensures data.commands[n] == old(data).commands[n].(reaped := false, state := CleanupUnknown)
      ensures Steady(old(world), world) && old(troubles) <= troubles
    {
      hide Fresh, Sound, Legal, After, Integer, Flushable, HasKind, WithRecord;
      var unknown := data.commands[n].(reaped := false, state := CleanupUnknown);
      RecordFacts(world, data, n);
      RecordTwice(before, n, data.commands[n], unknown);
      SetRecord(n, unknown);
      var flushed := Flush();
    }

    method StopChild(n: nat) returns (stopped: bool)
      requires Valid() && n + 1 == |data.commands| && !data.commands[n].reaped
      requires data.commands[n].resumeAttempted != Some(true) ==> n !in world.resumed
      requires data.addVerified ==> data.commands[n].kind != Add
      modifies `data, `world, `run, `asked, `troubles
      ensures Valid() && |data.commands| == n + 1 && data == WithRecord(old(data), n, data.commands[n])
      ensures data.commands[n].kind == old(data).commands[n].kind && data.addVerified == old(data).addVerified
      ensures data.commands[n].resumeAttempted == old(data).commands[n].resumeAttempted
      ensures stopped ==>
              world.live == None
                && data.commands[n] == old(data).commands[n].(reaped := true, state := ReapedAfterFailure)
      ensures !stopped ==> data == old(data)
      ensures Settling(old(world), world)
      ensures asked == T.Noted(old(asked), T.Stopped, stopped)
      ensures old(troubles) <= troubles && (stopped <==> troubles == old(troubles))
    {
      hide Fresh, Sound, Legal, After, Integer, Flushable, HasKind, WithRecord;
      RecordTwice(data, n, data.commands[n], data.commands[n]);
      RecordFacts(world, data, n);
      Interfere();
      stopped := Ask(T.Stopped);
      if !stopped { return; }
      GoneStays(world, data);
      Emit(Gone);
      SetRecord(n, data.commands[n].(reaped := true, state := ReapedAfterFailure));
    }

    method NoteFailure(n: nat) returns (flushed: bool)
      requires Valid() && n + 1 == |data.commands|
      requires data.commands[n].resumeAttempted != Some(true) ==> n !in world.resumed
      requires data.addVerified ==> data.commands[n].kind != Add
      modifies `data, `world, `run, `asked, `troubles
      ensures Valid() && |data.commands| == n + 1 && data == WithRecord(old(data), n, data.commands[n])
      ensures data.commands[n].kind == old(data).commands[n].kind && data.addVerified == old(data).addVerified
      ensures data.commands[n].resumeAttempted != Some(true) ==> n !in world.resumed
      ensures data.commands[n] == NotedRecord(old(data).commands[n])
      ensures Steady(old(world), world) && (flushed ==> world.durable == data)
      ensures asked == T.Noted(old(asked), T.Written, flushed)
      ensures old(troubles) <= troubles && (flushed <==> troubles == old(troubles))
    {
      hide Fresh, Sound, Legal, After, Integer, Flushable, HasKind, WithRecord;
      RecordTwice(data, n, data.commands[n], data.commands[n]);
      RecordFacts(world, data, n);
      if data.commands[n].resumeAttempted == None {
        // this live instance knows it never reached Resume
        SetRecord(n, data.commands[n].(resumeAttempted := Some(false)));
      }
      flushed := Flush();
    }

    // ----- reading the table ------------------------------------------------------------------

    /** A report the coordinator can credit: the worker left its own end open, and the rest maps. */
    predicate Usable(raw: Raw) {
      raw.reaped == None && MappingOf(raw.(reaped := Some(true))).Some?
    }

    /** The worker's report: incomplete, or a faithful listing of the table at that moment. */
    method Worker() returns (raw: Raw)
      modifies `asked, `troubles
      ensures asked == T.Noted(old(asked), T.Reported, Usable(raw))
      ensures troubles == old(troubles) + (if Usable(raw) then 0 else 1)
      ensures raw.reaped == None && MappingOf(raw.(reaped := Some(true))).Some? ==>
                MappingOf(raw.(reaped := Some(true))) == Some(world.table)
    {
      hide MappingOf;
      raw := *;
      if MappingOf(raw.(reaped := Some(true))) != Some(world.table) { raw := raw.(reaped := Some(false)); }
      Tally(T.Reported, Usable(raw), Usable(raw));
    }

    /** `full_get`. */
    method FullGet() returns (raw: Option<Raw>)
      requires Valid() && world.live == None && !data.exact && !data.deleteVerified
      modifies this
      ensures Valid() && Measured(old(data), data) && Still(old(world), world) && old(clock) <= clock
      ensures raw.Some? ==>
                MappingOf(raw.value).Some? && (world.foreign || MappingOf(raw.value) == Some(world.table))
                  && world.durable == data
      ensures raw.Some? ==>
                && asked == T.Report(old(asked)) && |data.commands| == |old(data).commands| + 1
                && |data.readings| == |old(data).readings| + 1
                && data.readings[|old(data).readings|].command == |old(data).commands|
                && old(clock) <= data.readings[|old(data).readings|].startedMs
                && data.readings[|old(data).readings|].finishedMs == clock
      ensures old(troubles) <= troubles
      ensures raw == None ==> old(troubles) < troubles || old(data) != old(world).durable || !Room(old(data), 1)
    {
      hide Valid, Sound, Flushable, MappingOf, Integer, Measured, Still, Steady;
      raw := None;
      var started := NowMs();
      Known();
      var listed := RunGet();
      if !listed { return; }
      var report := Worker();
      if report.reaped != None || MappingOf(report.(reaped := Some(true))) == None { return; }
      ghost var read, reaped := data, world;
      var noted := NoteReading(started);
      ReadingMeasured(old(data), read, old(world), reaped, world);
      if noted { raw := Some(report.(reaped := Some(true))); }
    }

    /** The child that writes the report. */
    method RunGet() returns (ok: bool)
      requires Valid() && world.live == None && !data.exact && !data.deleteVerified
      modifies this
      ensures Valid() && Measured(old(data), data) && Still(old(world), world) && old(clock) <= clock
      ensures world.live == None
      ensures ok ==> |data.readings| < |data.commands| && data.commands[|data.commands| - 1].kind == Get
      ensures data.readings == old(data).readings
      ensures ok ==> |data.commands| == |old(data).commands| + 1 && asked == T.Child(old(asked) + [T.Compared])
      ensures old(troubles) <= troubles
      ensures !ok ==> old(troubles) < troubles || old(data) != old(world).durable || !Room(old(data), 1)
    {
      hide Valid, Sound, Flushable, MappingOf, Runnable, OneMoreCommand, Ran, Steady, Integer, CleanEnd, Measured, Done;
      Known();
      ReadingsFit(world, data);
      EasilyRunnable(data);
      ok := VerifyStore();
      NothingMeasured(data, old(world), world);
      if !ok { return; }
      ghost var before := world;
      var result := RunFixed(Get);
      GetMeasured(old(data), data, before, world);
      ok := result.Some? && !result.value.timedOut && result.value.exitCode == Some(0);
    }

    /** The durable note that the newest command was a table read. */
    method NoteReading(started: int) returns (ok: bool)
      requires Valid() && Integer(started) && started <= clock && world.live == None
      requires |data.readings| < |data.commands| && data.commands[|data.commands| - 1].kind == Get
      modifies this
      ensures Valid() && data == WithReadings(old(data), data.readings) && Steady(old(world), world)
              && old(clock) <= clock
      ensures ok ==>
                && world.durable == data && asked == old(asked) + [T.ReaderFound, T.Written]
                && data.readings == old(data).readings + [Read(started, clock, |data.commands| - 1)]
      ensures old(troubles) <= troubles && (ok <==> troubles == old(troubles))
    {
      hide Valid, Sound, Flushable, Steady, WithReadings;
      SameParts(data);
      StaySteady(world, world, world);
      var readerKnown := Ask(T.ReaderFound);
      if !readerKnown { return false; }
      var finished := NowMs();
      Known();
      ok := StoreReading(Read(started, finished, |data.commands| - 1));
    }

    method StoreReading(reading: Read) returns (ok: bool)
      requires Valid() && |data.readings| < |data.commands|
      requires Integer(reading.startedMs) && reading.startedMs <= reading.finishedMs && Integer(reading.finishedMs)
      requires 0 <= reading.command < |data.commands| && data.commands[reading.command].kind == Get
      modifies `data, `world, `run, `asked, `troubles
      ensures Valid() && data == WithReadings(old(data), old(data).readings + [reading]) && Steady(old(world), world)
      ensures ok ==> world.durable == data
      ensures asked == T.Noted(old(asked), T.Written, ok)
      ensures old(troubles) <= troubles && (ok <==> troubles == old(troubles))
    {
      hide Valid, Sound, Flushable, Integer, Steady;
      Known();
      ReadingTaken(world, data, reading);
      Put(data.(readings := data.readings + [reading]));
      ok := Flush();
    }

    /** `_read`. */
    method ReadView(v: View) returns (value: Option<Table>)
      requires Valid() && world.live == None && Observable(data, v)
      modifies this
      ensures Valid() && Viewed(old(data), data, v) && Still(old(world), world) && old(clock) <= clock
      ensures value.Some? ==>
                (world.foreign || value.value == world.table) && Seen(data.observations, v) == value
                  && v in data.observations && world.durable == data
      ensures value.Some? ==> asked == T.Read(old(asked)) && |data.commands| == |old(data).commands| + 1
      ensures old(troubles) <= troubles
      ensures value == None ==> old(troubles) < troubles || old(data) != old(world).durable || !Room(old(data), 1)
    {
      hide Valid, Sound, Integer, Flushable, MappingOf, HasKind, Observable, Measured, Viewed, Seen;
      value := None;
      ObservableReadable(data, v);
      var raw := FullGet();
      MeasuredViewed(old(data), data, v);
      if raw == None { return; }
      Known();
      Observed(world, data, v, raw.value);
      ghost var before := data;
      Put(data.(observations := data.observations[v := raw.value]));
      NowViewed(old(data), before, v, raw.value);
      var flushed := Flush();
      if flushed { value := MappingOf(raw.value); }
    }

    // ----- reaping and mutating -----------------------------------------------------------------

    /** What is left of one recorded command, and whether its job could be emptied. */
    method LookFor(i: nat) returns (process: bool, jobFound: bool, members: bool, stopped: bool)
      requires i < |data.commands|
      modifies `asked, `troubles
      ensures data.commands[i].pid == None ==> !process
      ensures var helps := if jobFound then stopped && (data.commands[i].pid == None ==> !members)
                           else !process && data.commands[i].pid.Some?;
              asked == T.Noted(old(asked), T.Reaped(i), helps) && troubles == old(troubles) + (if helps then 0 else 1)
    {
      process, jobFound, members, stopped := *, *, *, *;
      if data.commands[i].pid == None { process := false; }
      var helps := if jobFound then stopped && (data.commands[i].pid == None ==> !members)
                         else !process && data.commands[i].pid.Some?;
      Tally(T.Reaped(i), helps, helps);
    }

    /** `reap_commands`: after it succeeds no recorded child is left that could change the table. */
    method ReapCommands() returns (ok: bool, probes: seq<Probe>)
      requires Valid()
      modifies `world, `run, `asked, `troubles
      ensures Valid() && world.durable == old(world).durable && Settling(old(world), world)
      ensures ok ==> world.live == None && data == world.durable
      ensures ok ==> |probes| == |data.commands| && forall i :: 0 <= i < |probes| ==>
              ReapedAs(data.commands[i], probes[i])
      ensures (old(world).foreign ==> world.foreign) && old(troubles) <= troubles
      ensures ok <==> data == old(world).durable && troubles == old(troubles)
      ensures ok ==> asked == T.Reaps(old(asked) + [T.Compared], |data.commands|)
    {
      hide Valid, Sound, Integer, Flushable;
      probes := [];
      ok := VerifyStore();
      if !ok { return; }
      ok := false;
      Known();
      if world.live.Some? { LiveFacts(world); }
      for i := 0 to |data.commands|
        invariant Valid() && data == world.durable == old(world).durable && Settling(old(world), world)
        invariant world.live.Some? ==> i <= world.live.value < |data.commands|
        invariant asked == T.Reaps(old(asked) + [T.Compared], i) && troubles == old(troubles)
        invariant |probes| == i && forall j :: 0 <= j < i ==> ReapedAs(data.commands[j], probes[j])
      {
        Interfere();
        var process, jobFound, members, stopped := LookFor(i);
        if !jobFound && (process || data.commands[i].pid == None) { return; }  // job or identity unknown
        if jobFound && !stopped { return; }
        if world.live == Some(i) {
          Known();
          GoneStays(world, data);
          Emit(Gone);
        }
        if jobFound && members && data.commands[i].pid == None { return; }
        probes := probes + [Probe(process, jobFound, members)];
      }
      ok := true;
    }

    /** `command`. */
    method Command(kind: Kind) returns (result: Option<Record>)
      requires Valid() && (kind == Add || kind == Delete) && Runnable(data, kind)
      requires kind == Delete ==> AddAttempted(data.commands)
      modifies this
      ensures Valid() && OneMoreCommand(old(data), data, kind) && old(clock) <= clock
      ensures world.original == old(world).original && world.served == old(world).served
              && (old(world).foreign ==> world.foreign)
      ensures result.Some? ==>
                && |data.commands| == |old(data).commands| + 1 && result.value == data.commands[|old(data).commands|]
                && CleanEnd(result.value) && world.durable == data && world.live == None
                && asked == T.Command(old(asked), |old(data).commands|) && old(data).readonlyPrepared
      ensures old(troubles) <= troubles
      ensures result == None ==>
                || old(troubles) < troubles || old(data) != old(world).durable || !old(data).readonlyPrepared
                || !Commandable(old(data), kind) || !Room(old(data), 1)
                || (kind == Add && Late(old(data), clock))
      ensures result.Some? && troubles == old(troubles) ==> Obeyed(world, result.value)
    {
      hide Valid, Sound, Integer, Flushable, RecordOK, AddAttempted, Obeyed, Commandable;
      result := None;
      var verified := VerifyStore();
      if !verified || !data.readonlyPrepared { return; }
      var tool := Ask(T.ToolChecked);
      if !tool { return; }
      var reaped, probes := ReapCommands();
      if !reaped { return; }
      result := RunFixed(kind);
    }

    // ----- attaching the parent ------------------------------------------------------------------

    /** `attach_parent`, with the failure its caller records. */
    method AttachParent(pid: int) returns (ok: bool)
      requires Valid()
      modifies this
      ensures Valid() && old(clock) <= clock
      ensures old(data).phase != Prepared ==> !ok && data == old(data) && world == old(world)
      ensures ok ==>
                && data.phase == Bound && world.durable == data && data.bootstrap.Some?
                && data.parent == Some(Parent(pid, data.bootstrap.value.identity.created))
      ensures old(data).phase == Prepared && !ok ==> data.firstError.Some? || data.phase == Bound
      ensures old(troubles) <= troubles && (ok ==> asked == T.Attached(old(asked)))
      ensures !ok ==> old(troubles) < troubles || !Attachable(old(data), old(world), clock)
    {
      hide Valid, Sound, Integer, Flushable;
      ok := false;
      if data.phase != Prepared { return; }
      var bound := BindParent(pid);
      if !bound { var noted := Failure(ParentFailed); return; }
      Known();
      BoundToParent(world, data);
      Put(data.(phase := Bound));
      var flushed := Flush();
      if flushed { ok := Publish(); }
    }

    /** The native half: the parent's identity, the read-only preparation, then the bootstrap. */
    method BindParent(pid: int) returns (ok: bool)
      requires Valid() && data.phase == Prepared
      modifies this
      ensures Valid() && data.phase == Prepared && old(clock) <= clock
      ensures ok ==>
                && data.readonlyPrepared && data.outerJob.Some? && data.bootstrap.Some?
                && data.parent == Some(Parent(pid, data.bootstrap.value.identity.created))
                && asked == T.Prepared(old(asked))
      ensures old(troubles) <= troubles
      ensures !ok ==> old(troubles) < troubles || !Attachable(old(data), old(world), clock)
    {
      hide Valid, Natural32, Natural64, Steady;
      ok := false;
      var verified := VerifyStore();
      if !verified || data.parent.Some? { return; }
      var known, created := IdentifyParent(pid);
      if known { ok := AdmitParent(Parent(pid, created)); }
    }

    /** The process behind `pid`, alive, in a job of its own, with its creation time. */
    method IdentifyParent(pid: int) returns (known: bool, created: int)
      modifies `asked, `troubles
      ensures known ==> Natural32(pid) && Natural64(created)
      ensures asked == T.Noted(old(asked), T.ParentIdentified, known)
      ensures troubles == old(troubles) + (if known then 0 else 1)
    {
      known, created := *, *;
      if !Natural32(pid) || !Natural64(created) { known := false; }
      Tally(T.ParentIdentified, known, known);
    }

    method AdmitParent(parent: Parent) returns (ok: bool)
      requires Valid() && data.phase == Prepared && data.parent == None && Natural32(parent.pid)
               && Natural64(parent.created)
      modifies this
      ensures Valid() && data.phase == Prepared && old(clock) <= clock
      ensures ok ==>
                && data.readonlyPrepared && data.outerJob.Some? && data.parent == Some(parent)
                && data.bootstrap.Some? && data.bootstrap.value.identity.created == parent.created
                && asked == T.Admitted(old(asked))
      ensures old(troubles) <= troubles
      ensures !ok ==> old(troubles) < troubles || !Preparable(old(data), clock)
    {
      hide Valid, Natural32, Natural64;
      ok := StoreParent(parent);
      if ok { ok := PrepareReadonly(); }
      if ok { ok := RecordBootstrap(parent); }
    }

    /** The authenticated parent and its job, on disk before anything is prepared for it. */
    method StoreParent(parent: Parent) returns (ok: bool)
      requires Valid() && data.phase == Prepared && data.parent == None && Natural32(parent.pid)
               && Natural64(parent.created)
      modifies `data, `world, `run, `asked, `troubles
      ensures Valid() && data == old(data).(parent := Some(parent), outerJob := data.outerJob)
      ensures data.outerJob == Some(ParentJobName(data.fixed.session)) && data.bootstrap == None
      ensures asked == T.Noted(old(asked), T.Written, ok)
      ensures old(troubles) <= troubles && (ok <==> troubles == old(troubles))
    {
      hide Valid, Sound, Integer, Flushable, Natural32, Natural64, Steady;
      Known();
      PreparedFacts(world, data);
      ParentAttached(world, data, parent);
      Put(data.(parent := Some(parent), outerJob := Some(ParentJobName(data.fixed.session))));
      ok := Flush();
    }

    /** `readonly_prepare`, with the one child it runs. */
    method PrepareReadonly() returns (ok: bool)
      requires Valid() && data.phase == Prepared
      modifies this
      ensures Valid() && old(clock) <= clock
      ensures OneMoreCommand(old(data), data.(readonlyPrepared := old(data).readonlyPrepared), Abi)
      ensures ok ==>
                && !old(data).readonlyPrepared && data.readonlyPrepared && data.parent.Some? && world.durable == data
                && asked == T.Child(old(asked)) + [T.ReadonlyChecked, T.Written]
                && |data.commands| == |old(data).commands| + 1
                && Obeyed(world, data.commands[|old(data).commands|])
      ensures old(troubles) <= troubles
      ensures !ok ==> old(troubles) < troubles || old(data).readonlyPrepared || old(data).parent == None
                      || !Room(old(data), 1)
    {
      hide Valid, Sound, Integer, Flushable, HasKind, RecordOK, CleanEnd, Target;
      ok := false;
      Known();
      PreparedFacts(world, data);
      EasilyRunnable(data);
      if data.readonlyPrepared || data.parent == None { return; }
      var result := RunFixed(Abi);
      if result == None || result.value.timedOut || result.value.exitCode != Some(0) { return; }
      var admitted := Ask(T.ReadonlyChecked);
      if !admitted { return; }
      Known();
      ReadonlyPrepared(world, data);
      Put(data.(readonlyPrepared := true));
      ok := Flush();
    }

    /** The identities of the two profiles: two package SIDs that differ. */
    method DeriveSids(parent: Parent) returns (positiveSid: string, reviewerSid: string)
      modifies `asked, `troubles
      ensures var helps := Derived(data.fixed, parent, positiveSid, reviewerSid).Some?;
              asked == T.Noted(old(asked), T.SidsDerived, helps) && troubles == old(troubles) + (if helps then 0 else 1)
    {
      hide Derived;
      positiveSid, reviewerSid := *, *;
      var helps := Derived(data.fixed, parent, positiveSid, reviewerSid).Some?;
      Tally(T.SidsDerived, helps, helps);
    }

    method RecordBootstrap(parent: Parent) returns (ok: bool)
      requires Valid() && data.phase == Prepared && data.parent == Some(parent) && data.bootstrap == None
      modifies this
      ensures Valid() && old(clock) <= clock && data == WithBootstrap(old(data), data.bootstrap)
      ensures ok ==>
                && data.bootstrap.Some? && data.bootstrap.value.identity.created == parent.created
                && clock < data.bootstrap.value.deadlineMs
                && asked == old(asked) + [T.SidsDerived, T.Written]
      ensures old(troubles) <= troubles
      ensures !ok ==> old(troubles) < troubles || !InPreparation(old(data), clock)
    {
      hide Valid, Sound, Integer, Flushable, BootstrapOK, BootstrapBound, InPreparation, WithBootstrap;
      SameParts(data);
      ok := false;
      var b := DeriveBootstrap(parent);
      if b.Some? { ok := StoreBootstrap(b.value); }
    }

    /** The bootstrap for this parent, as long as its own deadline has not passed. */
    method DeriveBootstrap(parent: Parent) returns (b: Option<Bootstrap>)
      requires Valid() && data.parent == Some(parent)
      modifies `clock, `asked, `troubles
      ensures Valid() && old(clock) <= clock
      ensures b.Some? ==>
                && BootstrapBound(data.fixed, b, data.parent) && b.value.identity.created == parent.created
                && clock < b.value.deadlineMs
      ensures old(troubles) <= troubles && (b.Some? ==> asked == old(asked) + [T.SidsDerived])
      ensures b == None ==> old(troubles) < troubles || !InPreparation(data, clock)
    {
      hide Valid, Sound, Integer, Flushable, BootstrapOK, BootstrapBound, Derived;
      var positiveSid, reviewerSid := DeriveSids(parent);
      var now := NowMs();
      b := Derived(data.fixed, parent, positiveSid, reviewerSid);
      if b.Some? && now >= b.value.deadlineMs { b := None; }
    }

    method StoreBootstrap(b: Bootstrap) returns (ok: bool)
      requires Valid() && data.phase == Prepared && data.bootstrap == None
               && BootstrapBound(data.fixed, Some(b), data.parent)
      modifies `data, `world, `run, `asked, `troubles
      ensures Valid() && data == WithBootstrap(old(data), Some(b))
      ensures asked == T.Noted(old(asked), T.Written, ok)
      ensures old(troubles) <= troubles && (ok <==> troubles == old(troubles))
    {
      hide Valid, Sound, Integer, Flushable, BootstrapBound, Steady;
      Known();
      BootstrapDerived(world, data, b);
      Put(data.(bootstrap := Some(b)));
      ok := Flush();
    }

    // ----- requests ----------------------------------------------------------------------------

    /** `verify_parent`. */
    method VerifyParent() returns (ok: bool)
      requires Valid()
      modifies `world, `run, `asked, `troubles
      ensures Valid() && Steady(old(world), world) && world.durable == old(world.durable)
      ensures old(troubles) <= troubles
      ensures ok <==> ParentBound(data, world) && troubles == old(troubles)
      ensures if ok then asked == T.Parent(old(asked)) else T.Stuck(asked) || !ParentBound(data, world)
    {
      hide Valid;
      ok := VerifyStore();
      if !ok || data.parent == None || !data.readonlyPrepared { return false; }
      ok := Ask(T.ParentSeen);
    }

    /** `parent_only`. */
    method ParentOnly() returns (ok: bool, alone: bool)
      requires Valid()
      modifies `world, `run, `asked, `troubles
      ensures Valid() && Steady(old(world), world) && world.durable == old(world.durable)
      ensures (old(world).foreign ==> world.foreign) && old(troubles) <= troubles
      ensures if ok then ParentBound(data, world) else !alone && (T.Stuck(asked) || !ParentBound(data, world))
      ensures ok && alone ==> asked == T.Parent(old(asked)) + [T.ParentAlone]
      ensures ok && alone <==> ParentBound(data, world) && troubles == old(troubles)
      ensures !ok ==> old(troubles) < troubles || !ParentBound(data, world)
    {
      hide Valid;
      ok := VerifyParent();
      alone := false;
      if ok { alone := Ask(T.ParentAlone); }
    }

    /** `_request`: the slot is consumed on disk before its bytes are looked at, and at most once. */
    method TakeRequest(r: Request) returns (ok: bool)
      requires Valid()
      modifies this
      ensures Valid() && old(clock) <= clock && (data == old(data) || data == WithConsumed(old(data), r))
      ensures old(world).live == None ==> Quiet(old(world), world)
      ensures ok ==> Requestable(old(data), r) && data == WithConsumed(old(data), r) && world.durable == data
      ensures ok && r == ProfileCreated ==>
                && data.phase == Bound && data.operation == None && !data.owned
                && data.profileConsumed
      ensures data.firstError == old(data).firstError && data.phase == old(data).phase
      ensures data.operation == old(data).operation
      ensures ok ==> asked == T.Taken(old(asked), r) && r in world.served && ParentBound(data, world)
      ensures old(troubles) <= troubles && (old(world).foreign ==> world.foreign)
      ensures !ok ==> old(troubles) < troubles || !ParentBound(old(data), old(world)) || !Requestable(old(data), r)
    {
      hide Valid, Sound, Integer, Flushable;
      var live := VerifyParent();
      if !live || !Requestable(data, r) { return false; }
      live := VerifyParent();
      if !live { return false; }
      var read := Ask(T.SlotRead(r));
      if !read { return false; }
      Known();
      RequestConsumed(world, data, r);
      ServedNotYet(world, r);
      Put(WithConsumed(data, r));
      ok := Flush();
      if !ok { return; }
      Known();
      ServedStays(world, data, r);
      Emit(Served(r));
      ok := VerifyStore();
      var now := NowMs();
      if ok { ok := Ask(T.RequestBound(r)); }
    }

    // ----- the addition ------------------------------------------------------------------------

    /** `created`. */
    method Created() returns (ok: bool, error: Option<ErrorCode>)
      requires Valid()
      modifies this
      ensures Valid() && old(clock) <= clock && Noted(old(data), data, error)
      ensures ok ==> error == None && Owning(world, data)
      ensures error.Some? ==> Explained(data, clock, error.value)
      ensures !ok && error == None ==> T.Stuck(asked) || old(data).phase != Bound
      ensures ok ==> asked == T.Created(old(asked), |old(data).commands|)
                     && |data.commands| == |old(data).commands| + 4
                     && data.finishedConsumed == old(data).finishedConsumed
      ensures old(troubles) <= troubles && (old(world).foreign ==> world.foreign)
      ensures !ok ==>
                || old(troubles) < troubles || world.foreign || !Addable(old(data), old(world))
                || !Integer(clock + 60000) || Late(data, clock)
    {
      hide Valid, Sound, Integer, Flushable, Owning, IdentityOK, HasKind, Seen, BootstrapOK, BaselineUnowned, Steady,
        WithConsumed, MappingOf, Explained;
      ok, error := false, None;
      if data.phase != Bound { return; }
      Known();
      UnownedIfBound(world, data);
      var granted := TakeRequest(ProfileCreated);
      if !granted {
        Explains(data, clock, CreatedRequest);
        error := Refuse(CreatedRequest);
        return;
      }
      var second;
      second, error := Baselines();
      if second == None { return; }
      ok, error := Operate();
    }

    /** From two agreeing baselines to the proof of the addition. */
    method Operate() returns (ok: bool, error: Option<ErrorCode>)
      requires Valid() && data.phase == Bound && data.operation == None && data.profileConsumed
      requires data.bootstrap.Some? && BootstrapOK(data.bootstrap.value) && IdentityOK(data.bootstrap.value.identity)
      requires BaselineUnowned(data.observations, data.bootstrap.value.identity)
      requires world.durable == data && Seen(data.observations, Baseline).Some?
               && (world.foreign || Seen(data.observations, Baseline).value == world.original)
      modifies this
      ensures Valid() && old(clock) <= clock && Noted(old(data), data, error)
      ensures ok ==> error == None && Owning(world, data)
      ensures error.Some? ==> Explained(data, clock, error.value)
      ensures !ok && error == None ==> T.Stuck(asked)
      ensures ok ==>
                && asked == T.Added(T.Frozen(old(asked)) + [T.Written], |old(data).commands|)
                && |data.commands| == |old(data).commands| + 2 && data.finishedConsumed == old(data).finishedConsumed
      ensures old(troubles) <= troubles && (old(world).foreign ==> world.foreign)
      ensures !ok ==>
                || old(troubles) < troubles || world.foreign || !Room(old(data), 2)
                || !Integer(clock + 60000) || Late(data, clock)
    {
      hide Valid, Sound, Integer, Flushable, Owning, IdentityOK, HasKind, Seen, BootstrapOK, BaselineUnowned, Steady,
        MappingOf, Explained;
      ok, error := false, None;
      Known();
      UnownedIfBound(world, data);
      var frozen := FreezeOperation();
      if !frozen {
        Explains(data, clock, LedgerFailed);
        error := Refuse(LedgerFailed);
        return;
      }
      var intended := RecordIntent();
      if intended { ok, error := Addition(); }
    }

    /** The durable write that comes before any process that could add the entry. */
    method RecordIntent() returns (ok: bool)
      requires Valid() && data.phase == Bound && data.operation.Some? && !data.owned && world.live == None
      requires world.foreign || Seen(data.observations, Baseline) == Some(world.original)
      modifies this
      ensures Valid() && clock == old(clock) && data.firstError == old(data).firstError
      ensures data == old(data).(phase := AddIntent, owned := true, target := None,
                                 intentMs := Some(old(data).operation.value.startedMs))
      ensures world.live == None && AfterAdd !in data.observations && !HasKind(data.commands, Add)
      ensures Steady(old(world), world) && (old(world).foreign ==> world.foreign) && (ok ==> world.durable == data)
      ensures asked == T.Noted(old(asked), T.Written, ok)
      ensures old(troubles) <= troubles && (ok <==> troubles == old(troubles))
    {
      hide Valid, Sound, Integer, Flushable, Seen, HasKind, BootstrapOK;
      Known();
      NotAddedYet(world, data);
      UnownedFacts(world, data);
      IntentRecorded(world, data);
      Put(data.(phase := AddIntent, owned := true, intentMs := Some(data.operation.value.startedMs), target := None));
      ok := Flush();
    }

    /** Both baseline reads, and the three reasons to stop after them. */
    method Baselines() returns (second: Option<Table>, error: Option<ErrorCode>)
      requires Valid() && data.phase == Bound && data.operation == None && !data.owned && data.profileConsumed
      modifies this
      ensures Valid() && old(clock) <= clock && Noted(old(data), data, error) && world.live == None
      ensures error.Some? ==> Explained(data, clock, error.value)
      ensures second == None ==> error.Some?
      ensures second.Some? ==>
                && error == None
                && data.phase == Bound && data.operation == None && !data.owned && data.profileConsumed
                && data.bootstrap.Some? && BootstrapOK(data.bootstrap.value)
                   && IdentityOK(data.bootstrap.value.identity)
                && BaselineUnowned(data.observations, data.bootstrap.value.identity)
                && Seen(data.observations, Baseline) == second && (world.foreign || second.value == world.original)
                && world.durable == data
                && asked == T.Read(T.Read(old(asked))) && |data.commands| == |old(data).commands| + 2
      ensures old(troubles) <= troubles && (old(world).foreign ==> world.foreign)
      ensures data.finishedConsumed == old(data).finishedConsumed
      ensures second == None ==>
                old(troubles) < troubles || world.foreign || old(data) != old(world).durable || !Room(old(data), 2)
                || Preoccupied(old(data), old(world))
    {
      hide Valid, Sound, Integer, Flushable, MappingOf, HasKind, IdentityOK, Positive, Reviewer;
      second, error := None, None;
      Known();
      UnownedFacts(world, data);
      var first := ReadView(BaselineFirst);
      if first == None { error := Refuse(GetFailed); return; }
      Known();
      UnownedFacts(world, data);
      var again := ReadView(Baseline);
      if again == None { error := Refuse(GetFailed); return; }
      Known();
      UnownedFacts(world, data);
      var d := data.bootstrap.value.identity;
      if first != again { error := Refuse(BaselineDelta); return; }
      if Positive(d) in again.value || Reviewer(d) in again.value { error := Refuse(Preexisting); return; }
      second := again;
    }

    /** `freeze_operation`. */
    method FreezeOperation() returns (ok: bool)
      requires Valid() && data.phase == Bound && data.operation == None && data.profileConsumed
      requires data.bootstrap.Some? && BootstrapOK(data.bootstrap.value)
      requires BaselineUnowned(data.observations, data.bootstrap.value.identity)
      modifies this
      ensures Valid() && old(clock) <= clock && data == old(data).(operation := data.operation)
      ensures old(world).live == None ==> Quiet(old(world), world)
      ensures ok ==>
                && data.operation == Some(Manifest(data.bootstrap.value.identity, clock, clock + 60000))
                && world.durable == data
                && asked == T.Frozen(old(asked))
      ensures old(troubles) <= troubles
      ensures !ok ==>
                old(troubles) < troubles || !ParentBound(old(data), old(world)) || !Integer(clock + 60000)
    {
      hide Valid, BaselineUnowned, BootstrapOK;
      var live := VerifyParent();
      ok := false;
      if live { ok := StartOperation(); }
    }

    /** The operation starts now, and lasts 60 seconds. */
    method StartOperation() returns (ok: bool)
      requires Valid() && data.phase == Bound && data.operation == None && data.profileConsumed
      requires data.bootstrap.Some? && BootstrapOK(data.bootstrap.value)
      requires BaselineUnowned(data.observations, data.bootstrap.value.identity)
      modifies this
      ensures Valid() && old(clock) <= clock && data == old(data).(operation := data.operation)
              && Steady(old(world), world)
      ensures ok ==> data.operation.Some? && world.durable == data
      ensures data.operation.Some? ==>
              data.operation == Some(Manifest(data.bootstrap.value.identity, clock, clock + 60000))
      ensures ok ==> asked == old(asked) + [T.Written, T.Compared] + [T.Published, T.Written]
      ensures old(troubles) <= troubles
      ensures !ok ==> old(troubles) < troubles || !Integer(clock + 60000)
    {
      hide Valid, BaselineUnowned, IdentityOK;
      ok := false;
      Known();
      var started := NowMs();
      var m := Manifest(data.bootstrap.value.identity, started, started + 60000);
      if ManifestOK(m) { ok := StoreOperation(m); }
    }

    method StoreOperation(m: Manifest) returns (ok: bool)
      requires Valid() && data.phase == Bound && data.operation == None && data.profileConsumed
      requires data.bootstrap.Some? && ManifestOK(m) && m.identity == data.bootstrap.value.identity
               && m.startedMs <= clock
      requires BaselineUnowned(data.observations, m.identity)
      modifies `data, `world, `run, `asked, `troubles
      ensures Valid() && data == old(data).(operation := Some(m)) && Steady(old(world), world)
      ensures ok ==> world.durable == data
      ensures ok ==> asked == old(asked) + [T.Written, T.Compared] + [T.Published, T.Written]
      ensures old(troubles) <= troubles && (ok <==> troubles == old(troubles))
    {
      hide Valid, Sound, Flushable, BaselineUnowned, ManifestOK, Integer;
      Known();
      OperationFrozen(world, data, m);
      Put(data.(operation := Some(m)));
      ok := Flush();
      if ok { ok := VerifyStore(); }
      if ok { ok := Publish(); }
    }

    /** From the durable intent to the durable proof that exactly the owned entry was added. */
    method Addition() returns (ok: bool, error: Option<ErrorCode>)
      requires Valid() && data.phase == AddIntent && data.owned && world.live == None && AfterAdd !in data.observations
      requires world.durable == data && !HasKind(data.commands, Add)
      modifies this
      ensures Valid() && old(clock) <= clock && Noted(old(data), data, error)
      ensures ok ==> error == None && Owning(world, data)
      ensures error.Some? ==> Explained(data, clock, error.value)
      ensures !ok && error == None ==> T.Stuck(asked)
      ensures ok ==> asked == T.Added(old(asked), |old(data).commands|)
                     && |data.commands| == |old(data).commands| + 2
      ensures old(troubles) <= troubles && (old(world).foreign ==> world.foreign)
      ensures ok ==> data.finishedConsumed == old(data).finishedConsumed
      ensures !ok ==>
                || old(troubles) < troubles || world.foreign || !Room(old(data), 2)
                || Late(data, clock)
    {
      hide Valid, Sound, Integer, Flushable, RecordOK, HasKind, Seen, ManifestOK, IdentityOK, CleanEnd,
        MappingOf, Commandable, Explained;
      ok, error := false, None;
      Known();
      OwnedFacts(world, data);
      OwnedCommands(world, data);
      var n := |data.commands|;
      var command := Command(Add);
      if command == None {
        Explains(data, clock, AddFailed);
        error := Refuse(AddFailed);
        return;
      }
      KindAt(data.commands, n);
      Known();
      OwnedFacts(world, data);
      ghost var before := data.commands;
      var after := ReadView(AfterAdd);
      assert data.commands[n] == command.value;
      KindAt(data.commands, n);
      if after == None {
        Explains(data, clock, GetFailed);
        error := Refuse(GetFailed);
        return;
      }
      ok, error := VerifyAddition(n, after.value);
    }

    /** What the report says of the owned entry goes to disk before anything is concluded from it. */
    method RecordTarget(attributes: Option<int>) returns (ok: bool)
      requires Valid() && data.owned && !data.addVerified && (attributes.Some? ==> 0 <= attributes.value < WORD32)
      modifies `data, `world, `run, `asked, `troubles
      ensures Valid() && data == old(data).(target := attributes) && Steady(old(world), world)
      ensures world.durable == data || (!ok && world.durable == old(world).durable)
      ensures asked == T.Noted(old(asked), T.Written, ok)
      ensures old(troubles) <= troubles && (ok <==> troubles == old(troubles))
    {
      hide Valid, Sound, Flushable, Integer;
      Known();
      TargetRecorded(world, data, attributes);
      Put(data.(target := attributes));
      ok := Flush();
    }

    /** The checks between the report after the addition and the claim made from it. */
    method VerifyAddition(n: nat, after: Table) returns (ok: bool, error: Option<ErrorCode>)
      requires Valid() && data.phase == AddIntent && data.owned && world.live == None
      requires world.foreign || after == world.table
      requires Seen(data.observations, AfterAdd) == Some(after) && Directed(world, Add)
      requires n < |data.commands| && data.commands[n].kind == Add && CleanEnd(data.commands[n])
      modifies this
      ensures Valid() && old(clock) <= clock && Noted(old(data), data, error)
      ensures ok ==> error == None && Owning(world, data)
      ensures error.Some? ==> Explained(data, clock, error.value)
      ensures !ok && error == None ==> T.Stuck(asked)
      ensures ok ==> asked == old(asked) + [T.Written] + [T.Written] + [T.Published, T.Written]
                     && data.commands == old(data).commands
      ensures old(troubles) <= troubles && (old(world).foreign ==> world.foreign)
      ensures ok ==> data.finishedConsumed == old(data).finishedConsumed
      ensures !ok ==>
                || old(troubles) < troubles || world.foreign || !Obeyed(old(world), old(data).commands[n])
                || Late(data, clock)
    {
      hide Valid, Sound, Integer, Flushable, CleanEnd, HasKind, Seen, IdentityOK, Positive, BaselineUnowned, Owning,
        Explained, Steady;
      ok, error := false, None;
      Known();
      OwnedFacts(world, data);
      SeenRange(data.observations, AfterAdd);
      var positive := Positive(data.operation.value.identity);
      var attributes := if positive in after then Some(after[positive]) else None;
      DataFollows(world, data);
      var recorded := RecordTarget(attributes);
      StillRead(old(world), world, after);
      if !recorded { return; }
      DoneStays(old(world), world, Add);
      ok, error := JudgeAddition(n, after);
    }

    method JudgeAddition(n: nat, after: Table) returns (ok: bool, error: Option<ErrorCode>)
      requires Valid() && data.phase == AddIntent && data.owned && world.live == None
      requires world.foreign || after == world.table
      requires Seen(data.observations, AfterAdd) == Some(after) && Directed(world, Add)
      requires n < |data.commands| && data.commands[n].kind == Add && CleanEnd(data.commands[n])
      requires data.operation.Some? && IdentityOK(data.operation.value.identity)
      requires var positive := Positive(data.operation.value.identity);
               data.target == if positive in after then Some(after[positive]) else None
      modifies this
      ensures Valid() && old(clock) <= clock && Noted(old(data), data, error)
      ensures ok ==> error == None && Owning(world, data)
      ensures error.Some? ==> Explained(data, clock, error.value)
      ensures !ok && error == None ==> T.Stuck(asked)
      ensures ok ==> asked == old(asked) + [T.Written] + [T.Published, T.Written]
                     && data.commands == old(data).commands
      ensures old(troubles) <= troubles && (old(world).foreign ==> world.foreign)
      ensures ok ==> data.finishedConsumed == old(data).finishedConsumed
      ensures !ok ==>
                || old(troubles) < troubles || world.foreign || !Obeyed(old(world), old(data).commands[n])
                || Late(data, clock)
    {
      hide Valid, Sound, Integer, Flushable, CleanEnd, AddSucceeded, HasKind, Seen, SidBytes, Positive, Reviewer,
        IdentityOK,
        BaselineUnowned, Owning, OneMore, Explained, WithFailure, Noted, Steady, Obeyed, Directed;
      ok, error := false, None;
      Known();
      OwnedFacts(world, data);
      var m, command, second := data.operation.value, data.commands[n], Seen(data.observations, Baseline).value;
      var positive, reviewer := Positive(m.identity), Reviewer(m.identity);
      var rest := after - {positive};
      AdditionSeen(world, data, after, command);
      SucceededIs(command);
      if !command.reaped || command.timedOut || command.exitCode != Some(0) {
        AddFailedExplained(world, data, clock, n);
        error := Refuse(AddFailed);
        return;
      }
      if positive !in after || rest != second || reviewer in rest {
        DeltaExplained(world, data, clock, after);
        error := Refuse(AddDelta);
        return;
      }
      assert after == second[positive := after[positive]];
      ok, error := ClaimAddition(n, after);
    }

    method ClaimAddition(n: nat, after: Table) returns (ok: bool, error: Option<ErrorCode>)
      requires Valid() && data.phase == AddIntent && data.owned && world.live == None
               && (world.foreign || after == world.table)
      requires n < |data.commands| && AddSucceeded(data.commands[n])
      requires data.operation.Some? && IdentityOK(data.operation.value.identity) && data.target.Some?
      requires Seen(data.observations, AfterAdd) == Some(after) && Seen(data.observations, Baseline).Some?
      requires after == Seen(data.observations, Baseline).value[Positive(data.operation.value.identity)
                                                                := data.target.value]
      modifies this
      ensures Valid() && old(clock) <= clock && Noted(old(data), data, error)
      ensures ok ==> error == None && Owning(world, data) && clock < data.operation.value.deadlineMs
      ensures error.Some? ==> Explained(data, clock, error.value)
      ensures !ok && error == None ==> T.Stuck(asked)
      ensures ok ==>
                && asked == old(asked) + [T.Written] + [T.Published, T.Written]
                && data == old(data).(phase := Added, addVerified := true)
      ensures old(troubles) <= troubles && (old(world).foreign ==> world.foreign)
      ensures !ok ==> old(troubles) < troubles || Late(data, clock)
    {
      hide Valid, Sound, Integer, Flushable, HasKind, Seen, IdentityOK, Positive, AddSucceeded;
      ok, error := false, None;
      var now := NowMs();
      if now >= data.operation.value.deadlineMs { error := Refuse(Deadline); return; }
      Known();
      OwnedFacts(world, data);
      AdditionVerified(world, data, n);
      Put(data.(phase := Added, addVerified := true));
      var flushed := Flush();
      if flushed { ok := Publish(); }
    }

    // ----- cleaning up ---------------------------------------------------------------------------

    /** `finished`. */
    method Finished() returns (ok: bool, error: Option<ErrorCode>)
      requires Valid()
      modifies this
      ensures Valid() && old(clock) <= clock && Kept(old(data).firstError, data.firstError)
      ensures ok ==> error == None && Restored(world, data)
      ensures error.Some? ==> Noted(old(data), data, error)
      ensures !ok ==> error.Some? || data.cleanupError.Some? || T.Stuck(asked)
      ensures error == Some(ParentFailed) ==> data.phase == Cleaned || data.cleanupError.Some? || T.Stuck(asked)
      ensures ok && data.firstError == None ==>
                asked == T.Finished(old(asked), |old(data).commands|, FoundBefore(data))
      ensures old(troubles) <= troubles && (old(world).foreign ==> world.foreign)
      ensures data.operation == old(data).operation
      ensures !ok ==>
                || old(troubles) < troubles || world.foreign || !ParentBound(old(data), old(world))
                || !Requestable(old(data), ProbeFinished) || !Room(old(data), 3)
                || Disputed(old(data), old(world), data)
      ensures ok && Prompt(old(data), world, data, clock) ==> data.exact
    {
      hide Valid, Sound, Integer, Flushable, Restored, Settling, Quiet, Steady, Disputed, OnTime;
      ok, error := false, None;
      var granted := TakeRequest(ProbeFinished);
      if !granted { error := Some(FinishedRequest); var noted := Failure(FinishedRequest); return; }
      ghost var consumed, requested := data, world;
      var live, alone := ParentOnly();
      ghost var seen := world;
      Unchanged(old(world), requested, seen);
      if !live { return; }
      if !alone {
        error := Some(ParentFailed);
        var noted := Failure(ParentFailed);
        if noted { var cleaned := Cleanup(true); }
        return;
      }
      ok := Cleanup(false);
      DisputeCarries(old(data), old(world), consumed, seen, data);
    }

    /** `cleanup`: what `CleanupBody` raises becomes a durable failure. */
    method Cleanup(abnormal: bool) returns (ok: bool)
      requires Valid()
      modifies this
      ensures Valid() && old(clock) <= clock && Kept(old(data).firstError, data.firstError)
              && data.owned == old(data).owned
      ensures ok && data.owned ==> Restored(world, data) && data.phase == Cleaned
      ensures ok && !data.owned ==> world.durable == data && data.phase == old(data).phase && data.bootstrap.Some?
      ensures !ok ==> data.firstError.Some? && data.cleanupError.Some? && !data.exact
      ensures old(troubles) <= troubles && (old(world).foreign ==> world.foreign)
      ensures data.operation == old(data).operation
      ensures !ok ==>
                || old(troubles) < troubles || !Cleanable(old(data), old(world), abnormal)
                || (data.owned && (world.foreign || Disputed(old(data), old(world), data)))
      ensures ok && data.owned && data.firstError == None ==>
                asked
                == T.Cleaned(old(asked), |old(data).commands|, abnormal, old(data).parent.Some?, FoundBefore(data))
      ensures ok && !data.owned ==>
                && data == old(data) && T.Receipted(asked)
                && asked == T.Unowned(old(asked), |old(data).commands|, abnormal, old(data).parent.Some?)
      ensures ok && data.owned && Prompt(old(data), world, data, clock) ==> data.exact
    {
      hide Valid, Sound, Integer, Flushable, MappingOf, Seen, IdentityOK, Positive, Reviewer;
      ok := CleanupBody(abnormal);
      if ok { return; }
      ghost var failed := data;
      Known();
      CleanupFailedToo(world, data);
      Put(WithFailure(data.(cleanupError := Some(CleanupFailed)), CleanupFailed));
      SameDispute(old(data), old(world), failed, data);
      var noted := Flush();
    }

    /** The body of the `try`. */
    method CleanupBody(abnormal: bool) returns (ok: bool)
      requires Valid()
      modifies this
      ensures Valid() && old(clock) <= clock && Kept(old(data).firstError, data.firstError)
              && data.owned == old(data).owned
      ensures ok && data.owned ==> Restored(world, data)
      ensures ok && !data.owned ==> world.durable == data && data.phase == old(data).phase && data.bootstrap.Some?
      ensures old(troubles) <= troubles && (old(world).foreign ==> world.foreign)
      ensures data.operation == old(data).operation
      ensures !ok ==>
                || old(troubles) < troubles || !Cleanable(old(data), old(world), abnormal)
                || (data.owned && (world.foreign || Disputed(old(data), old(world), data)))
      ensures ok && data.owned && data.firstError == None ==>
                asked
                == T.Cleaned(old(asked), |old(data).commands|, abnormal, old(data).parent.Some?, FoundBefore(data))
      ensures ok && !data.owned ==>
                && data == old(data)
                && asked == T.Unowned(old(asked), |old(data).commands|, abnormal, old(data).parent.Some?)
      ensures ok && data.owned && Prompt(old(data), world, data, clock) ==> data.exact
    {
      hide Valid, Sound, Integer, Flushable, Restored, Cleaning, Disputed, FoundBefore, OnTime, MappingOf, Untouched;
      var already := data.phase == Cleaned;
      ok := BeginPass(abnormal, already);
      if !ok { return; }
      if !data.owned {
        ok := VerifyStore();
        if data.bootstrap == None { ok := false; }
        if ok { ok := Publish(); }
        return;
      }
      ghost var settled, started := world, data;
      ok := CleanupOwned(already);
      DisputeCarries(old(data), old(world), started, settled, data);
    }

    /** What comes before a pass: success withdrawn on disk, nothing of ours running, the parent settled. */
    method BeginPass(abnormal: bool, already: bool) returns (ok: bool)
      requires Valid() && already == (data.phase == Cleaned)
      modifies `data, `world, `run, `asked, `troubles
      ensures Valid() && data.firstError == old(data).firstError && data.owned == old(data).owned
      ensures (!data.owned ==> data == old(data)) && data.operation == old(data).operation
      ensures data.commands == old(data).commands && data.target == old(data).target
      ensures data.bootstrap == old(data).bootstrap
      ensures ok ==>
                && data == world.durable && world.live == None
                && (data.owned ==> data.operation.Some? && Cleaning(data, data.operation.value, already))
                && asked == T.Settled(T.Reaps(T.Withdrawn(old(asked), data.owned) + [T.Compared], |data.commands|),
                                      abnormal, old(data).parent.Some?)
      ensures old(world).live == None ==> world.live == None && Untouched(old(world), world)
      ensures (old(world).foreign ==> world.foreign) && old(troubles) <= troubles
      ensures ok <==>
                && old(data) == old(world).durable && (abnormal || ParentBound(old(data), old(world)))
                && troubles == old(troubles)
    {
      hide Valid, Sound, Integer, Flushable, Cleaning, Settling, Steady;
      ok := Withdraw(already);
      ghost var withdrawn := world;
      PassSettled(old(world), withdrawn, withdrawn, withdrawn);
      if !ok { return; }
      var probes;
      ok, probes := ReapCommands();
      ghost var reaped := world;
      PassSettled(old(world), withdrawn, reaped, reaped);
      if !ok { return; }
      ok := SettleParent(abnormal);
      PassSettled(old(world), withdrawn, reaped, world);
    }

    /** An owned operation's earlier success is withdrawn on disk before anything is observed again. */
    method Withdraw(already: bool) returns (ok: bool)
      requires Valid() && already == (data.phase == Cleaned)
      modifies `data, `world, `run, `asked, `troubles
      ensures Valid() && data.firstError == old(data).firstError && data.owned == old(data).owned
      ensures (!data.owned ==> data == old(data)) && data.operation == old(data).operation
      ensures data.commands == old(data).commands && data.target == old(data).target && data.parent == old(data).parent
      ensures data.bootstrap == old(data).bootstrap && data.readonlyPrepared == old(data).readonlyPrepared
      ensures ok ==>
              data == world.durable
                && (data.owned ==> data.operation.Some? && Cleaning(data, data.operation.value, already))
                && asked == T.Withdrawn(old(asked), data.owned)
      ensures Steady(old(world), world)
      ensures ok && data.owned ==>
                data == old(data).(phase := CleanupIntent, exact := false, deleteVerified := false,
                                   othersPreserved := false)
      ensures (old(world).foreign ==> world.foreign) && old(troubles) <= troubles
      ensures ok <==> old(data) == old(world).durable && troubles == old(troubles)
    {
      hide Valid, Sound, Integer, Flushable, Steady;
      ok := VerifyStore();
      ghost var verified := world;
      if !ok || !data.owned { return; }
      Known();
      CleanedFacts(world, data);
      SuccessWithdrawn(world, data);
      Put(data.(phase := CleanupIntent, exact := false, deleteVerified := false, othersPreserved := false));
      ok := Flush();
      StaySteady(old(world), verified, world);
    }

    /** `stop_parent_job` after an abnormal end, `parent_only` after a normal one. */
    method SettleParent(abnormal: bool) returns (ok: bool)
      requires Valid()
      modifies `world, `run, `asked, `troubles
      ensures Valid() && Steady(old(world), world) && world.durable == old(world.durable)
      ensures ok ==> asked == T.Settled(old(asked), abnormal, data.parent.Some?)
      ensures (old(world).foreign ==> world.foreign) && old(troubles) <= troubles
      ensures ok <==> (abnormal || ParentBound(data, old(world))) && troubles == old(troubles)
    {
      hide Valid;
      if abnormal {
        if data.parent == None { return true; }
        Interfere();
        ok := Ask(T.ParentStopped);
      } else {
        var alone: bool;
        ok, alone := ParentOnly();
        if !alone { ok := false; }
      }
    }

    /** The owned half: observe, decide, remove, observe again. */
    method CleanupOwned(already: bool) returns (ok: bool)
      requires Valid() && world.live == None && data.operation.Some? && Cleaning(data, data.operation.value, already)
      requires world.durable == data
      modifies this
      ensures Valid() && old(clock) <= clock && Kept(old(data).firstError, data.firstError) && data.owned
      ensures ok ==> Restored(world, data)
      ensures old(troubles) <= troubles && (old(world).foreign ==> world.foreign)
      ensures data.operation == old(data).operation
      ensures !ok ==>
                || old(troubles) < troubles || world.foreign || !Room(old(data), 3)
                || Disputed(old(data), old(world), data)
      ensures ok && data.firstError == None ==>
                asked == T.Pass(old(asked), |old(data).commands|, FoundBefore(data))
      ensures ok && old(data).firstError == None && !world.foreign && OnTime(data, already, clock) ==> data.exact
    {
      hide Valid, Sound, Integer, Flushable, Restored, Cleaning, Seen, Positive, Reviewer, IdentityOK, Matches,
        Unmixed, Foreigner, Disputed, Done, WithFailure;
      ghost var m := data.operation.value;
      var before := Examine(already);
      CleaningOwned(data, m, already);
      if before == None { ok := false; return; }
      ghost var examined := data;
      ok := CheckOwner(before.value, already);
      CleaningOwned(data, m, already);
      if !ok {
        DisputedIs(old(data), old(world), examined, data, before.value);
        return;
      }
      Known();
      CleaningFacts(world, data, m, already);
      var positive := Positive(data.operation.value.identity);
      if positive in before.value {
        ok := Remove(before.value, already);
        CleaningOwned(data, m, already);
        if !ok { return; }
      }
      Known();
      NowUnmixed(world, data, before.value);
      ok := Confirm(before.value, already);
      if ok {
        Known();
        RestoredIsExact(world, data);
      }
    }

    /** The table before the removal: the deadline, then any entry that is neither ours nor the baseline's. */
    method Examine(already: bool) returns (before: Option<Table>)
      requires Valid() && world.live == None && data.operation.Some? && Cleaning(data, data.operation.value, already)
      requires world.durable == data
      modifies this
      ensures Valid() && old(clock) <= clock && Kept(old(data).firstError, data.firstError) && world.live == None
      ensures data.operation == old(data).operation && Cleaning(data, old(data).operation.value, already)
      ensures before.Some? ==>
                && world.durable == data && Seen(data.observations, PreDelete) == before
                && PreDelete in data.observations
                && (world.foreign
                    || (before.value == world.table
                        && Matches(before.value, world.original, old(data).operation.value)))
                && |data.commands| == |old(data).commands| + 1
                && (data.firstError == None ==> asked == T.Read(old(asked)) + [T.Compared])
      ensures before.Some? && old(data).firstError == None && !world.foreign && OnTime(data, already, clock) ==>
                data.firstError == None
      ensures before.Some? && data.firstError == None ==> NothingOdd(data, before.value)
      ensures before.Some? && !already && Late(old(data), old(clock)) && old(data).firstError == None ==>
                data.firstError == Some(Deadline)
      ensures Still(old(world), world) && data.target == old(data).target
      ensures old(data).commands <= data.commands
      ensures old(troubles) <= troubles
      ensures before == None ==> old(troubles) < troubles || !Room(old(data), 1)
    {
      hide Valid, Sound, Integer, Flushable, Seen, Observable, Matches, IdentityOK, Positive, Reviewer,
        Cleaning, WithFailure, Measured, MappingOf;
      Known();
      ghost var started, m := data, data.operation.value;
      CleaningFacts(world, data, m, already);
      CleaningOwned(data, m, already);
      before := ReadView(PreDelete);
      CleaningViewed(started, data, PreDelete, m, already);
      if before == None { return; }
      var ok := VerifyStore();
      if !ok { return None; }
      Known();
      TableBefore(world, data, before.value);
      CleaningStays(data, m, already, Deadline);
      ok := NoteLate(already);
      CleaningStays(data, m, already, ForeignDelta);
      if ok { ok := NoteForeign(before.value, already); }
      if !ok { before := None; }
    }

    /** A missed deadline is recorded, and does not stop the removal. */
    method NoteLate(already: bool) returns (ok: bool)
      requires Valid() && world.live == None && data.operation.Some? && Cleaning(data, data.operation.value, already)
      requires world.durable == data
      modifies this
      ensures Valid() && old(clock) <= clock && Kept(old(data).firstError, data.firstError) && world.live == None
      ensures data.observations == old(data).observations && data.operation == old(data).operation
      ensures Cleaning(data, old(data).operation.value, already)
      ensures ok ==> world.durable == data
      ensures Steady(old(world), world)
      ensures var late := !already && data.operation.value.deadlineMs <= clock;
              && data == (if late then WithFailure(old(data), Deadline) else old(data))
              && (!late ==> asked == old(asked))
      ensures old(troubles) <= troubles && (ok <==> troubles == old(troubles))
      ensures ok && data.firstError == None ==> already || clock < data.operation.value.deadlineMs
    {
      hide Valid, Sound, Integer, Flushable, Cleaning, WithFailure;
      CleaningStays(data, data.operation.value, already, Deadline);
      ok := true;
      if !already {
        var now := NowMs();
        if now >= data.operation.value.deadlineMs { ok := Failure(Deadline); }
      }
    }

    /** So is any entry that is neither ours nor the baseline's. */
    method NoteForeign(before: Table, already: bool) returns (ok: bool)
      requires Valid() && world.live == None && data.operation.Some? && Cleaning(data, data.operation.value, already)
      requires world.durable == data
      modifies `data, `world, `run, `asked, `troubles
      ensures Valid() && Kept(old(data).firstError, data.firstError) && world.live == None
      ensures data.observations == old(data).observations && data.operation == old(data).operation
      ensures Cleaning(data, old(data).operation.value, already)
      ensures ok ==> world.durable == data
      ensures Steady(old(world), world)
      ensures var m := old(data).operation.value;
              && IdentityOK(m.identity) && Seen(old(data).observations, Baseline).Some?
              && var others := before - {Positive(m.identity)};
              && var odd := Seen(old(data).observations, Baseline) != Some(others) || Reviewer(m.identity) in before;
              && data == (if odd then WithFailure(old(data), ForeignDelta) else old(data))
              && (!odd ==> asked == old(asked))
      ensures old(troubles) <= troubles && (ok <==> troubles == old(troubles))
      ensures ok && data.firstError == None ==>
                && IdentityOK(data.operation.value.identity) && Seen(data.observations, Baseline).Some?
                && before - {Positive(data.operation.value.identity)} == Seen(data.observations, Baseline).value
                && Reviewer(data.operation.value.identity) !in before
    {
      hide Valid, Sound, Integer, Flushable, Seen, IdentityOK, Positive, Reviewer, Cleaning, WithFailure;
      ok := true;
      Known();
      var m := data.operation.value;
      CleaningFacts(world, data, m, already);
      CleaningStays(data, m, already, ForeignDelta);
      if before - {Positive(m.identity)} != Seen(data.observations, Baseline).value || Reviewer(m.identity) in before {
        ok := Failure(ForeignDelta);
      }
    }

    /** `has_add_attempt`: asked of the durable ledger, not of memory. */
    method HasAddAttempt() returns (ok: bool, attempted: bool)
      requires Valid()
      modifies `world, `run, `asked, `troubles
      ensures Valid() && Steady(old(world), world) && world.durable == old(world.durable)
      ensures ok ==> attempted == AddAttempted(world.durable.commands)
      ensures asked == T.Noted(old(asked), T.AttemptRead, ok)
      ensures old(troubles) <= troubles && (ok <==> troubles == old(troubles))
    {
      hide Valid, Sound, Integer, Flushable, MayHaveRun;
      Interfere();
      ok := Ask(T.AttemptRead);
      attempted := exists n :: 0 <= n < |world.durable.commands| && world.durable.commands[n].kind == Add
                               && MayHaveRun(world.durable.commands[n]);
    }

    /** An entry is ours only after a durable attempt to add it, and only as that attempt left it. */
    method CheckOwner(before: Table, already: bool) returns (ok: bool)
      requires Valid() && world.live == None && data.operation.Some? && Cleaning(data, data.operation.value, already)
      requires world.durable == data && Seen(data.observations, PreDelete) == Some(before)
               && PreDelete in data.observations
      modifies this
      ensures Valid() && old(clock) <= clock && Kept(old(data).firstError, data.firstError)
      ensures data.operation == old(data).operation && Cleaning(data, old(data).operation.value, already)
      ensures ok ==>
                && world.live == None && data == old(data) && world.durable == data
                && IdentityOK(data.operation.value.identity)
                && (Positive(data.operation.value.identity) in before ==> AddAttempted(data.commands))
                && AsRecorded(data.target, before, Positive(data.operation.value.identity))
                && asked == T.Claimed(old(asked), Positive(data.operation.value.identity) in before)
      ensures Steady(old(world), world) && (data == old(data) || data == WithFailure(old(data), OwnerConflict))
      ensures old(troubles) <= troubles
      ensures IdentityOK(old(data).operation.value.identity)
      ensures var l := old(data);
              ok <==>
                && troubles == old(troubles)
                && !Foreigner(l.commands, l.target, before, Positive(l.operation.value.identity))
    {
      hide Valid, Sound, Integer, Flushable, Seen, AddAttempted, Positive, IdentityOK, Cleaning, WithFailure;
      Known();
      CleaningFacts(world, data, data.operation.value, already);
      CleaningStays(data, data.operation.value, already, OwnerConflict);
      var positive := Positive(data.operation.value.identity);
      if positive in before {
        var known, attempted := HasAddAttempt();
        if !known { return false; }
        if !attempted || (data.target.Some? && before[positive] != data.target.value) {
          var noted := Failure(OwnerConflict);
          return false;
        }
      }
      ok := Flush();
    }

    /** The delete command. */
    method Remove(before: Table, already: bool) returns (ok: bool)
      requires Valid() && world.live == None && data.operation.Some? && Cleaning(data, data.operation.value, already)
      requires world.durable == data
      requires Seen(data.observations, PreDelete) == Some(before) && PreDelete in data.observations
      requires IdentityOK(data.operation.value.identity) && Positive(data.operation.value.identity) in before
      requires AddAttempted(data.commands) && AsRecorded(data.target, before, Positive(data.operation.value.identity))
      modifies this
      ensures Valid() && old(clock) <= clock && Kept(old(data).firstError, data.firstError)
      ensures data.operation == old(data).operation && Cleaning(data, old(data).operation.value, already)
      ensures ok ==>
                && world.live == None && data.observations == old(data).observations && world.durable == data
                && data.firstError == old(data).firstError && |data.commands| == |old(data).commands| + 1
                && !data.commands[|old(data).commands|].timedOut
                && data.commands[|old(data).commands|].exitCode == Some(0)
                && asked == T.Command(old(asked), |old(data).commands|)
      ensures world.original == old(world).original && (old(world).foreign ==> world.foreign)
      ensures old(troubles) <= troubles
      ensures !ok ==> old(troubles) < troubles || !Room(old(data), 1)
      ensures ok && troubles == old(troubles) ==> world.foreign || Done(world, Delete)
    {
      hide Valid, Sound, Integer, Flushable, Seen, AddAttempted, SidBytes, Commandable;
      Known();
      OwnedCommands(world, data);
      var command := Command(Delete);
      if command == None { return false; }
      ok := command.value.reaped && !command.value.timedOut && command.value.exitCode == Some(0);
      if !ok { var noted := Failure(CleanupFailed); }
    }

    /** The second observation, and what may be claimed from the two. */
    method Confirm(before: Table, already: bool) returns (ok: bool)
      requires Valid() && world.live == None && data.operation.Some? && Cleaning(data, data.operation.value, already)
      requires world.durable == data
      requires Seen(data.observations, PreDelete) == Some(before) && PreDelete in data.observations
      modifies this
      ensures Valid() && old(clock) <= clock && Kept(old(data).firstError, data.firstError) && data.owned
      ensures ok ==> Restored(world, data)
      ensures Seen(data.observations, PreDelete) == Some(before) && data.operation == old(data).operation
      ensures ok && data.firstError == None ==> asked == T.Read(old(asked)) + [T.Written] + [T.Published, T.Written]
      ensures (old(world).foreign ==> world.foreign) && world.original == old(world).original
      ensures old(troubles) <= troubles
      ensures !ok ==>
                || old(troubles) < troubles || world.foreign || !Room(old(data), 1)
                || !Unmixed(old(world), before, old(data).operation.value)
      ensures ok && old(data).firstError == None && OnTime(data, already, clock) ==> data.firstError == None
    {
      hide Valid, Sound, Integer, Flushable, Seen, Restored, Observable, Positive, Reviewer, IdentityOK, Cleaning,
        WithFailure, Measured, MappingOf;
      ok := false;
      Known();
      var m := data.operation.value;
      CleaningFacts(world, data, m, already);
      var positive, reviewer := Positive(m.identity), Reviewer(m.identity);
      CleaningOwned(data, m, already);
      ghost var started := data;
      var after := ReadView(PostDelete);
      CleaningViewed(started, data, PostDelete, m, already);
      if after == None { return; }
      if after.value != before - {positive} || positive in after.value || reviewer in after.value {
        CleaningStays(data, m, already, CleanupFailed);
        var noted := Failure(CleanupFailed);
        return;
      }
      ok := Conclude(after.value, already);
    }

    method Conclude(after: Table, already: bool) returns (ok: bool)
      requires Valid() && world.live == None && data.operation.Some? && Cleaning(data, data.operation.value, already)
      requires Seen(data.observations, PostDelete) == Some(after) && Seen(data.observations, PreDelete).Some?
      requires world.foreign || after == world.table
      requires IdentityOK(data.operation.value.identity)
      requires after == Seen(data.observations, PreDelete).value - {Positive(data.operation.value.identity)}
      requires Reviewer(data.operation.value.identity) !in after
      modifies this
      ensures Valid() && old(clock) <= clock && Kept(old(data).firstError, data.firstError) && data.owned
      ensures ok ==> Restored(world, data)
      ensures var late := !already && data.operation.value.deadlineMs <= clock;
              var noted := if late then WithFailure(old(data), Deadline) else old(data);
              && (ok ==> data == AsCleaned(noted, already, clock)) && (ok && late ==> data.firstError.Some?)
              && (ok ==> asked == (if late then old(asked) + [T.Written] else old(asked))
                                  + [T.Written] + [T.Published, T.Written])
      ensures data.observations == old(data).observations && data.operation == old(data).operation
      ensures (old(world).foreign ==> world.foreign) && world.original == old(world).original
      ensures old(troubles) <= troubles && (ok <==> troubles == old(troubles))
    {
      hide Valid, Sound, Integer, Flushable, Seen, Restored, Positive, Reviewer, IdentityOK, Cleaning, AsCleaned,
        WithFailure;
      CleaningStays(data, data.operation.value, already, Deadline);
      CleaningOwned(data, data.operation.value, already);
      var completed := NowMs();
      if !already && completed >= data.operation.value.deadlineMs {
        ok := Failure(Deadline);
        if !ok { return; }
      }
      ghost var noted := data;
      ok := Complete(after, already, completed);
      AsCleanedFacts(noted, already, completed);
    }

    method Complete(after: Table, already: bool, completed: int) returns (ok: bool)
      requires Valid() && world.live == None && data.operation.Some? && Cleaning(data, data.operation.value, already)
      requires Seen(data.observations, PostDelete) == Some(after) && Seen(data.observations, PreDelete).Some?
      requires world.foreign || after == world.table
      requires IdentityOK(data.operation.value.identity)
      requires after == Seen(data.observations, PreDelete).value - {Positive(data.operation.value.identity)}
      requires Reviewer(data.operation.value.identity) !in after
      requires completed == clock
      requires !already && data.firstError == None ==> completed < data.operation.value.deadlineMs
      modifies `data, `world, `run, `asked, `troubles
      ensures Valid() && data.firstError == old(data).firstError && data.owned
      ensures ok ==> Restored(world, data)
      ensures data == AsCleaned(old(data), already, completed)
      ensures ok ==> asked == old(asked) + [T.Written] + [T.Published, T.Written]
      ensures (old(world).foreign ==> world.foreign) && world.original == old(world).original
      ensures old(troubles) <= troubles && (ok <==> troubles == old(troubles))
    {
      hide Valid, Sound, Integer, Flushable, Seen, Positive, Reviewer, IdentityOK, Restored, Steady, Cleaning,
        AsCleaned;
      Known();
      CleaningOwned(data, data.operation.value, already);
      PassCompleted(world, data, already, after, completed);
      AsCleanedFacts(data, already, completed);
      Put(AsCleaned(data, already, completed));
      ok := PublishCleaned(after);
    }

    method PublishCleaned(after: Table) returns (ok: bool)
      requires Valid() && world.live == None && data.phase == Cleaned && data.deleteVerified
      requires Seen(data.observations, PostDelete) == Some(after) && (world.foreign || after == world.table)
      requires data.exact <==> Some(after) == Seen(data.observations, Baseline) && data.firstError == None
      modifies `world, `run, `asked, `troubles
      ensures Valid() && (ok ==> Restored(world, data))
      ensures ok ==> asked == old(asked) + [T.Written] + [T.Published, T.Written]
      ensures (old(world).foreign ==> world.foreign) && world.original == old(world).original
      ensures old(troubles) <= troubles && (ok <==> troubles == old(troubles))
    {
      hide Valid, Sound, Integer, Flushable, Seen, Restored;
      ok := Flush();
      if ok { ok := Publish(); }
      if ok {
        Known();
        MakeRestored(world, data, after);
      }
    }

    // ----- whole sessions ------------------------------------------------------------------------

    /** `wait_request`: the parent is checked again before every look at the slot. */
    method WaitRequest(r: Request) returns (ok: bool, ghost looks: nat)
      requires Valid()
      modifies `world, `run, `asked, `troubles
      ensures Valid() && Steady(old(world), world) && world.durable == old(world).durable
      ensures ok ==> asked == T.Waited(old(asked), r, looks) && (r == ProbeFinished ==> data.operation.Some?)
      ensures (old(world).foreign ==> world.foreign) && old(troubles) <= troubles
      ensures !ok ==>
                || old(troubles) < troubles || !ParentBound(data, old(world))
                || (r == ProbeFinished && data.operation == None)
    {
      hide Valid;
      ok, looks := false, 0;
      if r == ProbeFinished {
        var verified := VerifyStore();
        if !verified || data.operation == None { return; }
      }
      var polls: int := *;
      if polls < 0 { polls := 0; }
      for i := 0 to polls
        invariant Valid() && Steady(old(world), world) && world.durable == old(world).durable
        invariant asked == T.Waited(old(asked), r, i) && troubles == old(troubles)
      {
        var live := VerifyParent();
        if !live { return; }
        var seen: bool := *;
        Tally(T.SlotSeen(r), true, true);
        looks := i + 1;
        if seen { return true, looks; }
      }
      Tally(T.InBudget, false, false);  // the request did not come in time
    }

    /** The body of `serve`, and the stage an exception out of it is filed under. */
    method ServeBody() returns (ok: bool, stage: ErrorCode, ghost added: bool, ghost looks: (nat, nat))
      requires Valid()
      modifies this
      ensures Valid() && old(clock) <= clock && Kept(old(data).firstError, data.firstError)
      ensures ok ==> Restored(world, data)
      ensures ok && data.firstError == None ==>
                asked == T.Served(old(asked), |old(data).commands|, looks, FoundBefore(data))
      ensures stage == CreatedRequest || stage == LedgerFailed || stage == FinishedRequest
      ensures stage == CreatedRequest ==> data == old(data)
      ensures (stage == FinishedRequest <==> added) && (ok ==> added)
      ensures (old(world).foreign ==> world.foreign) && old(troubles) <= troubles
      ensures !ok ==>
                || old(troubles) < troubles || world.foreign || !Servable(old(data), old(world))
                || !Integer(clock + 60000) || Late(data, clock)
      ensures ok && Servable(old(data), old(world)) && old(data).firstError == None && !world.foreign
              && !Late(data, clock) ==>
                data.exact
    {
      hide Valid, Restored, Owning, Steady, Disputed, Addable, Flushable, Sound, FoundBefore, Servable, Requestable,
        ParentBound, MappingOf, IdentityOK, Seen;
      stage, added, looks := CreatedRequest, false, (0, 0);
      ghost var first, second := 0, 0;
      Known();
      ServableFacts(world, data);
      ok, first := WaitRequest(ProfileCreated);
      ServableStill(data, old(world), world);
      if !ok { return; }
      stage := LedgerFailed;
      var code;
      ok, code := Created();
      if !ok { return; }
      added, stage := true, FinishedRequest;
      ghost var owning, owned := data, world;
      Known();
      OwningReady(world, data);
      ok := VerifyStore();
      StillOwning(owned, world);
      if !ok { return; }
      ghost var verified := world;
      ok, second := WaitRequest(ProbeFinished);
      StillOwning(verified, world);
      looks := (first, second);
      if !ok { return; }
      ghost var waited := world;
      ok, code := Finished();
      OwningUndisputed(owned, owning, waited, data);
    }

    /** `serve`: whatever goes wrong is on record, and a pass over what may be left has been made. */
    method Serve() returns (ok: bool, ghost looks: (nat, nat))
      requires Valid()
      modifies this
      ensures Valid() && old(clock) <= clock && Kept(old(data).firstError, data.firstError)
      ensures ok ==> Restored(world, data)
      ensures !ok ==> data.firstError.Some? && !data.exact
      ensures !ok ==>
                || data.phase == Cleaned || data.cleanupError.Some?
                || (!data.owned && T.Receipted(asked))
      ensures ok && data.firstError == None ==>
                asked == T.Served(old(asked), |old(data).commands|, looks, FoundBefore(data))
      ensures old(troubles) <= troubles
      ensures !ok ==>
                || old(troubles) < troubles || world.foreign || !Servable(old(data), old(world))
                || !Integer(clock + 60000) || Late(data, clock)
      ensures ok && Servable(old(data), old(world)) && old(data).firstError == None && !world.foreign
              && !Late(data, clock) ==>
                data.exact
    {
      hide Valid, Flushable, Sound, Servable, FoundBefore, Disputed, Cleanable, MappingOf, Seen, IdentityOK;
      Known();
      var stage: ErrorCode;
      ghost var added;
      ok, stage, added, looks := ServeBody();
      if ok { return; }
      var noted := Failure(stage);
      if data.phase != Cleaned { var cleaned := Cleanup(true); }
      Known();
      CleanedFacts(world, data);
    }
  }

  /** An earlier crash never leaves an operation that starts after the crash. */
  lemma StartedBefore(admin: Admin, k: nat)
    requires admin.Valid() && k <= |admin.run|
    ensures var d := After(admin.start, admin.run[..k]).durable;
            d.operation.Some? ==> d.operation.value.startedMs <= admin.clock
  {
    hide Fresh, Legal, After, Flushable, Sound, Integer;
    DurableFollows(admin.start, admin.run, k);
    DataFollows(admin.world, admin.data);
  }

  lemma DataFollows(w: World, l: Ledger)
    requires Flushable(w, l)
    ensures Kept(w.durable.operation, l.operation)
  {
    hide SidBytes, MappingOf, Accepted, Truthful, InTime, Bounded;
  }

  /** One coordinator's life: attach and serve, or recover. */
  method Session(admin: Admin)
    requires admin.Valid()
    modifies admin
    ensures admin.Valid() && old(admin.clock) <= admin.clock
  {
    var recovering: bool, attaching: bool, pid: int := *, *, *;
    if recovering {
      var cleaned := admin.Cleanup(true);
    } else {
      if attaching {
        var attached := admin.AttachParent(pid);
        if !attached { return; }
      }
      ghost var looks;
      var served;
      served, looks := admin.Serve();
    }
  }

  /**
   Any number of coordinators, one after another, over the same ledger and table.  Each is cut
   short after any of its events, and the next one starts from what was left behind.
   */
  method Campaign(initial: World, sessions: nat, first: int) returns (history: seq<Event>, left: World)
    requires Fresh(initial) && Integer(first)
    ensures Legal(initial, history) && left == After(initial, history)
    ensures forall i :: 0 <= i <= |history| ==> Accepted(DiskAt(initial, history, i))
  {
    hide Fresh, Legal, After, Flushable, Sound, Integer, Accepted, DiskAt;
    history, left := [], initial;
    var clock := first;
    NothingHappened(initial);
    for i := 0 to sessions
      invariant Legal(initial, history) && left == After(initial, history) && Integer(clock)
      invariant left.durable.operation.Some? ==> left.durable.operation.value.startedMs <= clock
    {
      var admin := new Admin.Reopen(initial, history, left, clock);
      Session(admin);
      var crash: nat := *;
      if crash > |admin.run| || crash < |history| { crash := |admin.run|; }
      LegalPrefix(initial, admin.run, crash);
      StartedBefore(admin, crash);
      history := admin.run[..crash];
      left := After(initial, history);
      clock := admin.clock;
    }
    forall i | 0 <= i <= |history| ensures Accepted(DiskAt(initial, history, i)) {
      EveryLedgerAccepted(initial, history, i);
    }
  }

  lemma NothingHappened(w: World)
    requires Fresh(w)
    ensures Legal(w, []) && After(w, []) == w && w.durable.operation == None
  {
    hide Accepted;
  }
}
