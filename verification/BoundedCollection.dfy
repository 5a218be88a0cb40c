/**
 Collecting a child's two output streams under one shared bound: the loop of both macOS runners,
 which differ in the bound and in what they do with an incomplete result.
 */
module BoundedCollection {
  import opened Bytes

  const NATIVE_BOUND: nat := 65536
  const CHUNK: nat := 4096

  datatype Reason = Timeout | OutputExceeded | Interrupted | ExitUnknown | PipeCloseUnknown

  /** Two pipes, written by the child however it likes, and the time that is left. */
  class Child {
    const out: Bytes               // all the child will ever write to its standard output
    const err: Bytes               // and to its standard error
    var restOut: Bytes
    var restErr: Bytes
    var time: nat
    var closed: seq<nat>

    function Rest(k: nat): (b: Bytes)
      reads this
    {
      if k == 0 then restOut else restErr
    }

    /** `selector.select`: some of the streams still registered, in some order, none twice. */
    method Select(registered: set<nat>) returns (ready: seq<nat>)
      requires time > 0
      modifies this`time
      ensures time < old(time)
      ensures (forall k :: k in ready ==> k in registered) && forall i, j :: 0 <= i < j < |ready| ==>
              ready[i] != ready[j]
    {
      time := time - 1;
      ready := *;
      if (exists k :: k in ready && k !in registered) || (exists i, j :: 0 <= i < j < |ready| && ready[i] == ready[j]) {
        ready := [];
      }
    }

    /** `os.read` of a ready stream: at least one byte unless the stream has ended, or an error. */
    method Read(k: nat, most: nat) returns (chunk: Option<Bytes>)
      requires (k == 0 || k == 1) && most > 0
      modifies this`restOut, this`restErr
      ensures Rest(1 - k) == old(Rest(1 - k))
      ensures chunk.None? ==> Rest(k) == old(Rest(k))
      ensures chunk.Some? ==>
                && old(Rest(k)) == chunk.value + Rest(k) && |chunk.value| <= most
                   && (chunk.value == [] <==> old(Rest(k)) == [])
    {
      var fails: bool, count: int := *, *;
      if fails { return None; }
      var rest := Rest(k);
      if rest == [] { return Some([]); }
      if count < 1 || count > most || count > |rest| { count := 1; }
      chunk := Some(rest[..count]);
      if k == 0 { restOut := rest[count..]; } else { restErr := rest[count..]; }
    }
  }

  /** What has been kept of the two streams. */
  predicate KeptOf(outKept: Bytes, errKept: Bytes, out: Bytes, err: Bytes) { outKept <= out && errKept <= err }

  /** What a finished loop says about the streams. */
  predicate Verdict(outKept: Bytes, errKept: Bytes, out: Bytes, err: Bytes, bound: nat, reason: Option<Reason>) {
    && KeptOf(outKept, errKept, out, err) && |outKept| + |errKept| <= bound
    && (reason == None ==> outKept == out && errKept == err)
    && (reason == Some(OutputExceeded) ==> |outKept| + |errKept| == bound && |out| + |err| > bound)
  }

  /** The loop's own state: what is kept and what is left make up each stream, and an unregistered stream has ended. */
  ghost predicate Collecting(child: Child, outKept: Bytes, errKept: Bytes, registered: set<nat>, bound: nat)
    reads child
  {
    && child.out == outKept + child.restOut && child.err == errKept + child.restErr
    && |outKept| + |errKept| <= bound && registered <= {0, 1}
    && (0 !in registered ==> child.restOut == []) && (1 !in registered ==> child.restErr == [])
  }

  /** One ready stream. */
  method Step(child: Child, k: nat, outBefore: Bytes, errBefore: Bytes, registeredBefore: set<nat>, bound: nat)
    returns (outKept: Bytes, errKept: Bytes, registered: set<nat>, reason: Option<Reason>)
    requires Collecting(child, outBefore, errBefore, registeredBefore, bound) && k in registeredBefore
    modifies child`restOut, child`restErr
    ensures reason == None ==>
              && Collecting(child, outKept, errKept, registered, bound)
              && registeredBefore - {k} <= registered
    ensures reason.Some? ==> reason != Some(Timeout) && Verdict(outKept, errKept, child.out, child.err, bound, reason)
  {
    outKept, errKept, registered, reason := outBefore, errBefore, registeredBefore, None;
    var room := bound - |outKept| - |errKept|;
    var chunk := child.Read(k, if CHUNK < room + 1 then CHUNK else room + 1);
    if chunk == None {
      reason := Some(Interrupted);
    } else if chunk.value == [] {
      registered := registered - {k};
    } else if |chunk.value| > room {
      if k == 0 { outKept := outKept + chunk.value[..room]; } else { errKept := errKept + chunk.value[..room]; }
      reason := Some(OutputExceeded);
    } else if k == 0 {
      outKept := outKept + chunk.value;
    } else {
      errKept := errKept + chunk.value;
    }
  }

  /** The collection loop. */
  method Collect(child: Child, bound: nat) returns (outKept: Bytes, errKept: Bytes, reason: Option<Reason>)
    requires child.restOut == child.out && child.restErr == child.err
    modifies child`restOut, child`restErr, child`time
    ensures Verdict(outKept, errKept, child.out, child.err, bound, reason)
    ensures reason == Some(Timeout) ==> child.time == 0
  {
    hide Verdict;
    outKept, errKept, reason := [], [], None;
    var registered: set<nat> := {0, 1};
    while registered != {}
      invariant Collecting(child, outKept, errKept, registered, bound) && reason == None
      decreases child.time
    {
      if child.time == 0 {
        StoppedEarly(child, outKept, errKept, registered, bound);
        return outKept, errKept, Some(Timeout);
      }
      var ready := child.Select(registered);
      ghost var left := child.time;
      for i := 0 to |ready|
        invariant Collecting(child, outKept, errKept, registered, bound) && reason == None && child.time == left
        invariant forall j :: i <= j < |ready| ==> ready[j] in registered
      {
        outKept, errKept, registered, reason := Step(child, ready[i], outKept, errKept, registered, bound);
        if reason.Some? { return; }
      }
    }
    Ended(child, outKept, errKept, bound);
  }

  lemma StoppedEarly(child: Child, outKept: Bytes, errKept: Bytes, registered: set<nat>, bound: nat)
    requires Collecting(child, outKept, errKept, registered, bound)
    ensures Verdict(outKept, errKept, child.out, child.err, bound, Some(Timeout))
  {}

  lemma Ended(child: Child, outKept: Bytes, errKept: Bytes, bound: nat)
    requires Collecting(child, outKept, errKept, {}, bound)
    ensures Verdict(outKept, errKept, child.out, child.err, bound, None)
  {}

  /** A loop that neither timed out nor was interrupted accepts exactly the outputs that fit. */
  lemma FitsExactly(outKept: Bytes, errKept: Bytes, out: Bytes, err: Bytes, bound: nat, reason: Option<Reason>)
    requires Verdict(outKept, errKept, out, err, bound, reason) && (reason == None || reason == Some(OutputExceeded))
    ensures reason == None <==> |out| + |err| <= bound
  {
    if reason == None { assert |out| + |err| == |outKept| + |errKept|; }
  }

  datatype Output = Output(exit: Option<int>, reason: Option<Reason>, out: Bytes, err: Bytes, complete: bool)

  /** `bounded_native`: the loop, then whatever cleanup the child still needs; each pipe is closed once. */
  method BoundedNative(child: Child) returns (r: Output)
    requires child.restOut == child.out && child.restErr == child.err && child.closed == []
    modifies child
    ensures r.out <= child.out && r.err <= child.err && |r.out| + |r.err| <= 65536
    ensures r.complete <==> r.reason == None
    ensures r.complete ==> r.out == child.out && r.err == child.err && r.exit.Some?
    ensures |child.out| + |child.err| > 65536 ==> !r.complete
    ensures r.reason == Some(OutputExceeded) ==> |child.out| + |child.err| > 65536
    ensures child.closed == [0, 1]
  {
    var outKept, errKept, reason := Collect(child, NATIVE_BOUND);
    var exit: Option<int> := None;
    var code: int, waited: bool := *, *;
    if reason == None {
      if waited { exit := Some(code); } else { reason := Some(Timeout); }
    }
    if exit == None {
      // the group is killed, then waited for
      var reaped: bool := *;
      if reaped { exit := Some(code); } else if reason == None { reason := Some(ExitUnknown); }
    }
    for k := 0 to 2
      invariant child.closed == if k == 0 then [] else if k == 1 then [0] else [0, 1]
      invariant reason == Some(OutputExceeded) ==> |child.out| + |child.err| > NATIVE_BOUND
      invariant (reason == None ==> outKept == child.out && errKept == child.err && exit.Some?)
    {
      child.closed := child.closed + [k];
      var fails: bool := *;
      if fails && reason == None { reason := Some(PipeCloseUnknown); }
    }
    r := Output(exit, reason, outKept, errKept, reason == None);
  }

  /** How a collection for the binding ended, and what it leaves in the two output files. */
  datatype Ending = Ending(failure: Option<Reason>, exit: Option<int>, out: Bytes, err: Bytes)

  /**
   The inner `collect` of the process-group binding.  The child is killed if need be and reaped
   before the pipes are closed; a child that cannot be reaped leaves them open.
   */
  method CollectForBinding(child: Child, bound: nat, decodes: Bytes -> bool)
    returns (r: Option<(Bytes, Bytes)>, end: Ending)
    requires child.restOut == child.out && child.restErr == child.err && child.closed == []
    modifies child
    ensures Verdict(end.out, end.err, child.out, child.err, bound, end.failure)
    ensures r.Some? <==> end.failure == None && end.exit == Some(0) && decodes(end.out) && decodes(end.err)
    ensures r.Some? ==> r.value == (child.out, child.err)
    ensures |child.out| + |child.err| > bound ==> r == None
    ensures child.closed == if end.exit.Some? then [0, 1] else []
    ensures end.failure == None ==> end.exit.Some?
  {
    var outKept, errKept, failure := Collect(child, bound);
    var code: int, waited: bool, reaped: bool := *, *, *;
    if failure == None {
      if waited { reaped := true; } else { failure := Some(Timeout); }
    }
    if !reaped {
      end := Ending(failure, None, outKept, errKept);
      return None, end;
    }
    child.closed := [0, 1];
    end := Ending(failure, Some(code), outKept, errKept);
    if failure.Some? || code != 0 || !decodes(outKept) || !decodes(errKept) { return None, end; }
    r := Some((outKept, errKept));
  }
}
