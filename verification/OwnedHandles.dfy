/**
 Cleanup that attempts every owned release, and the one place where a handle changes hands only
 after the cleanup around it has succeeded.
 */
module OwnedHandles {
  import opened Bytes

  /** One owned thing to give back, and what giving it back may raise. */
  datatype Release = Close(handle: int) | Free(pointer: int)

  datatype Failure = Failure(name: string) | Unreleased(release: Release)

  /** The process's open handles and unfreed allocations, every release ever attempted, and which of them failed. */
  class Process {
    var handles: set<int>
    var allocations: set<int>
    var releases: seq<Release>
    var failed: seq<Release>

    predicate Owns(r: Release)
      reads this
    {
      match r case Close(h) => h in handles case Free(p) => p in allocations
    }

    /** `CloseHandle` or `LocalFree`.  It may fail; attempted twice, it would be attempted on something not owned. */
    method Attempt(r: Release) returns (failure: Option<Failure>)
      requires Owns(r)
      modifies this
      ensures releases == old(releases) + [r]
      ensures handles == old(handles) - (if r.Close? then {r.handle} else {})
      ensures allocations == old(allocations) - (if r.Free? then {r.pointer} else {})
      ensures failure == None || failure == Some(Unreleased(r))
      ensures failed == old(failed) + if failure.Some? then [r] else []
    {
      var fails: bool := *;
      match r {
        case Close(h) => handles := handles - {h};
        case Free(p) => allocations := allocations - {p};
      }
      releases := releases + [r];
      if !fails { return None; }
      failed := failed + [r];
      failure := Some(Unreleased(r));
    }

    method Descriptor() returns (p: int, failure: Option<Failure>)
      modifies this
      ensures handles == old(handles) && releases == old(releases) && failed == old(failed)
      ensures failure.Some? ==> allocations == old(allocations)
      ensures failure.None? ==> p !in old(allocations) && allocations == old(allocations) + {p}
    {
      p := *;
      if p in allocations { return p, Some(Failure("descriptor")); }
      allocations := allocations + {p};
      failure := None;
    }

    method CreateFile() returns (h: int, failure: Option<Failure>)
      modifies this
      ensures allocations == old(allocations) && releases == old(releases) && failed == old(failed)
      ensures failure.Some? ==> handles == old(handles)
      ensures failure.None? ==> h !in old(handles) && handles == old(handles) + {h}
    {
      h := *;
      if h in handles { return h, Some(Failure("open_file")); }
      handles := handles + {h};
      failure := None;
    }
  }

  /** What `_release_owned` raises, given the active exception and the failures of its actions. */
  function Raised(primary: Option<Failure>, errors: seq<Failure>): (r: Option<Failure>) {
    if primary.Some? then primary else if errors == [] then None else Some(errors[0])
  }

  predicate Distinct(rs: seq<Release>) { forall i, j :: 0 <= i < j < |rs| ==> rs[i] != rs[j] }

  function Handles(rs: seq<Release>): (hs: set<int>) { set r | r in rs && r.Close? :: r.handle }

  function Pointers(rs: seq<Release>): (ps: set<int>) { set r | r in rs && r.Free? :: r.pointer }

  function Errors(rs: seq<Release>): (es: seq<Failure>) { seq(|rs|, i requires 0 <= i < |rs| => Unreleased(rs[i])) }

  /** `_release_owned`: every action is attempted, once and in order, and every failure is an error of its own. */
  method ReleaseOwned(process: Process, primary: Option<Failure>, actions: seq<Release>)
    returns (raised: Option<Failure>, errors: seq<Failure>)
    requires Distinct(actions) && forall r :: r in actions ==> process.Owns(r)
    modifies process
    ensures process.handles == old(process.handles) - Handles(actions)
    ensures process.allocations == old(process.allocations) - Pointers(actions)
    ensures process.releases == old(process.releases) + actions
    ensures exists fs: seq<Release> ::
              process.failed == old(process.failed) + fs && errors == Errors(fs)
                && (forall f :: f in fs ==> f in actions)
    ensures raised == Raised(primary, errors) && |errors| <= |actions|
    ensures raised == None <==> primary == None && process.failed == old(process.failed)
  {
    errors := [];
    ghost var fs: seq<Release> := [];
    for i := 0 to |actions|
      invariant process.handles == old(process.handles) - Handles(actions[..i])
      invariant process.allocations == old(process.allocations) - Pointers(actions[..i])
      invariant process.releases == old(process.releases) + actions[..i]
      invariant forall j :: i <= j < |actions| ==> process.Owns(actions[j])
      invariant process.failed == old(process.failed) + fs && errors == Errors(fs) && |fs| <= i
      invariant forall f :: f in fs ==> f in actions
    {
      assert actions[..i + 1] == actions[..i] + [actions[i]];
      assert forall r :: r in actions[..i] ==> r != actions[i];
      var e := process.Attempt(actions[i]);
      if e.Some? {
        errors := errors + [e.value];
        fs := fs + [actions[i]];
      }
    }
    assert actions[..|actions|] == actions;
    raised := Raised(primary, errors);
  }

  function FreeOf(descriptor: Option<int>): (r: Option<Release>) {
    if descriptor.Some? then Some(Free(descriptor.value)) else None
  }

  function CloseOf(handle: Option<int>): (r: Option<Release>) {
    if handle.Some? then Some(Close(handle.value)) else None
  }

  /** A descriptor and a handle, as far as they are still owned. */
  function Left(descriptor: Option<int>, handle: Option<int>): (rs: seq<Release>) {
    (if descriptor.Some? then [Free(descriptor.value)] else []) + (if handle.Some? then [Close(handle.value)] else [])
  }

  lemma LeftIs(descriptor: Option<int>, handle: Option<int>)
    ensures var rs := Left(descriptor, handle);
            && Distinct(rs) && |rs| <= 2
            && (forall r :: r in rs <==> Some(r) == FreeOf(descriptor) || Some(r) == CloseOf(handle))
            && Pointers(rs) == (if descriptor.Some? then {descriptor.value} else {})
            && Handles(rs) == (if handle.Some? then {handle.value} else {})
  {
    var rs := Left(descriptor, handle);
    assert descriptor.Some? ==> rs[0] == Free(descriptor.value);
    assert handle.Some? ==> rs[|rs| - 1] == Close(handle.value);
  }

  /** `open_file`: the caller gets an open handle, or nothing at all is left open. */
  method OpenFile(process: Process) returns (r: Result<int, Failure>)
    modifies process
    ensures process.allocations == old(process.allocations) && old(process.releases) <= process.releases
    ensures r.Ok? ==>
              && r.value !in old(process.handles) && process.handles == old(process.handles) + {r.value}
              && process.failed == old(process.failed)
              && exists p: int :: process.releases == old(process.releases) + [Free(p)]
    ensures r.Err? ==>
              && process.handles == old(process.handles) && |process.releases| <= |old(process.releases)| + 2
              && Distinct(process.releases[|old(process.releases)|..])
  {
    hide Handles, Pointers, Errors;
    var allocation, refused := process.Descriptor();
    if refused.Some? { return Err(refused.value); }
    var descriptor: Option<int> := Some(allocation);
    var handle: Option<int> := None;
    var transferred := false;
    var primary: Option<Failure> := None;
    ghost var released: seq<Release> := [];
    var h, unopened := process.CreateFile();
    if unopened.Some? {
      primary := unopened;
    } else {
      handle := Some(h);
      var verified: bool := *;  // identity, security and final path
      if !verified {
        primary := Some(Failure("file_namespace"));
      } else {
        // descriptor cleanup comes first: a failure here must not strand the handle
        descriptor := None;
        LeftIs(Some(allocation), None);
        var errors;
        primary, errors := ReleaseOwned(process, None, Left(Some(allocation), None));
        released := Left(Some(allocation), None);
        if primary == None { transferred := true; }
      }
    }
    var pending := Left(descriptor, if transferred then None else handle);
    LeftIs(descriptor, if transferred then None else handle);
    var raised, errors := ReleaseOwned(process, primary, pending);
    assert process.releases == old(process.releases) + (released + pending);
    assert (old(process.releases) + (released + pending))[|old(process.releases)|..] == released + pending;
    if raised.Some? { return Err(raised.value); }
    r := Ok(h);
  }
}
