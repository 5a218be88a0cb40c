/**
 Whether a directory's access list only went through Windows' own one-way inheritance
 normalization: one control bit, and inherited entries added around the old ones.
 */
module AceNormalization {
  import opened Bytes

  const SE_DACL_AUTO_INHERITED: bv16 := 0x0400
  const SE_DACL_PROTECTED: bv16 := 0x1000

  // ----- the origin marker ------------------------------------------------------------------

  /** The flag byte without `INHERITED_ACE` (0x10). */
  function WithoutOrigin(flags: byte): (f: byte)
    ensures f % 0x10 == flags % 0x10 && f / 0x20 == flags / 0x20 && f / 0x10 % 2 == 0
  {
    if flags / 0x10 % 2 == 1 then flags - 0x10 else flags
  }

  predicate WholeAce(ace: Bytes) { |ace| >= 4 && LittleEndian(ace[2..4]) == |ace| }

  /** Two entries that differ in their origin marker at most. */
  predicate SameButOrigin(a: Bytes, b: Bytes) {
    && |a| == |b| && |a| >= 4 && (forall i :: 0 <= i < |a| && i != 1 ==> a[i] == b[i])
    && a[1] % 0x10 == b[1] % 0x10 && a[1] / 0x20 == b[1] / 0x20
  }

  /** `_normalize_inherited_ace_flag`; an entry whose length field is wrong is an error. */
  method NormalizeInheritedAceFlag(ace: Bytes) returns (r: Option<Bytes>)
    ensures r.Some? <==> WholeAce(ace)
    ensures r.Some? ==> SameButOrigin(ace, r.value) && r.value[1] / 0x10 % 2 == 0 && WholeAce(r.value)
  {
    if |ace| < 4 || LittleEndian(ace[2..4]) != |ace| { return None; }
    var normalized := ace[1 := WithoutOrigin(ace[1])];
    assert normalized[2..4] == ace[2..4];
    r := Some(normalized);
  }

  /** Normal forms decide "same but for the origin". */
  lemma NormalFormsDecide(a: Bytes, b: Bytes)
    requires WholeAce(a) && WholeAce(b)
    ensures a[1 := WithoutOrigin(a[1])] == b[1 := WithoutOrigin(b[1])] <==> SameButOrigin(a, b)
  {
    var m, n := a[1 := WithoutOrigin(a[1])], b[1 := WithoutOrigin(b[1])];
    if m == n {
      assert |m| == |n|;
      forall i | 0 <= i < |a| && i != 1 ensures a[i] == b[i] { assert m[i] == n[i]; }
      assert m[1] == n[1];
    }
  }

  // ----- subsequences -----------------------------------------------------------------------

  /** `f` names places in `new`, from left to right, that hold the elements of `old`. */
  predicate Embeds(f: seq<nat>, earlier: seq<Bytes>, later: seq<Bytes>) {
    && |f| == |earlier| && (forall i :: 0 <= i < |f| ==> f[i] < |later| && later[f[i]] == earlier[i])
    && (forall i, j :: 0 <= i < j < |f| ==> f[i] < f[j])
  }

  ghost predicate Subsequence(earlier: seq<Bytes>, later: seq<Bytes>) { exists f :: Embeds(f, earlier, later) }

  /** Taking the first match every time. */
  predicate Greedy(earlier: seq<Bytes>, later: seq<Bytes>)
    decreases |later|
  {
    earlier == [] || (later != [] && Greedy(if earlier[0] == later[0] then earlier[1..] else earlier, later[1..]))
  }

  function Shift(f: seq<nat>): (g: seq<nat>)
    ensures |g| == |f|
  {
    seq(|f|, i requires 0 <= i < |f| => f[i] + 1)
  }

  lemma {:induction false} GreedyEmbeds(earlier: seq<Bytes>, later: seq<Bytes>) returns (f: seq<nat>)
    requires Greedy(earlier, later)
    ensures Embeds(f, earlier, later)
    decreases |later|
  {
    if earlier == [] { return []; }
    if earlier[0] == later[0] {
      var g := GreedyEmbeds(earlier[1..], later[1..]);
      f := [0] + Shift(g);
      forall i | 0 <= i < |f| ensures f[i] < |later| && later[f[i]] == earlier[i] {
        if i > 0 { assert f[i] == g[i - 1] + 1 && later[1..][g[i - 1]] == earlier[1..][i - 1]; }
      }
    } else {
      var g := GreedyEmbeds(earlier, later[1..]);
      f := Shift(g);
      forall i | 0 <= i < |f| ensures f[i] < |later| && later[f[i]] == earlier[i] {
        assert later[1..][g[i]] == earlier[i];
      }
    }
  }

  /** The greedy test misses no embedding. */
  lemma {:induction false} GreedyIsComplete(f: seq<nat>, earlier: seq<Bytes>, later: seq<Bytes>)
    requires Embeds(f, earlier, later)
    ensures Greedy(earlier, later)
    decreases |later|
  {
    if earlier != [] {
      assert f[0] < |later|;
      if earlier[0] == later[0] {
        var g := seq(|f| - 1, i requires 0 <= i < |f| - 1 => (f[i + 1] - 1) as nat);
        forall i | 0 <= i < |g| ensures g[i] < |later[1..]| && later[1..][g[i]] == earlier[1..][i] {
          assert f[0] < f[i + 1] && later[f[i + 1]] == earlier[i + 1];
        }
        GreedyIsComplete(g, earlier[1..], later[1..]);
      } else {
        assert f[0] != 0;
        var g := seq(|f|, i requires 0 <= i < |f| => if f[i] > 0 then (f[i] - 1) as nat else 0);
        forall i | 0 <= i < |g| ensures g[i] < |later[1..]| && later[1..][g[i]] == earlier[i] && f[i] == g[i] + 1 {
          assert i == 0 || f[0] < f[i];
          assert later[f[i]] == earlier[i];
        }
        GreedyIsComplete(g, earlier, later[1..]);
      }
    }
  }

  lemma GreedyIsSubsequence(earlier: seq<Bytes>, later: seq<Bytes>)
    ensures Greedy(earlier, later) <==> Subsequence(earlier, later)
  {
    if Greedy(earlier, later) { var f := GreedyEmbeds(earlier, later); }
    if Subsequence(earlier, later) {
      var f :| Embeds(f, earlier, later);
      GreedyIsComplete(f, earlier, later);
    }
  }

  /** The shared-iterator test: each old entry is looked for after the place of the one before it. */
  method InheritedPreserved(earlier: seq<Bytes>, later: seq<Bytes>) returns (ok: bool)
    ensures ok <==> Subsequence(earlier, later)
  {
    GreedyIsSubsequence(earlier, later);
    var next := 0;
    assert earlier[0..] == earlier && later[0..] == later;
    for i := 0 to |earlier|
      invariant 0 <= next <= |later| && (Greedy(earlier, later) <==> Greedy(earlier[i..], later[next..]))
    {
      var found := false;
      while !found && next < |later|
        invariant 0 <= next <= |later|
        invariant if found then Greedy(earlier, later) <==> Greedy(earlier[i + 1..], later[next..])
                  else Greedy(earlier, later) <==> Greedy(earlier[i..], later[next..])
        decreases |later| - next, !found
      {
        assert later[next..][1..] == later[next + 1..] && earlier[i..][1..] == earlier[i + 1..];
        found := later[next] == earlier[i];
        next := next + 1;
      }
      if !found { return false; }
    }
    ok := true;
  }

  // ----- the entries that were added ----------------------------------------------------------

  function TotalBytes(aces: seq<Bytes>): (n: nat) {
    if aces == [] then 0 else TotalBytes(aces[..|aces| - 1]) + |aces[|aces| - 1]|
  }

  /** The first `k` new entries are the first `index` old ones and `added`, which keep their order. */
  ghost predicate Partition(earlier: seq<Bytes>, later: seq<Bytes>, index: nat, k: nat, added: seq<Bytes>,
                            places: seq<nat>)
    requires index <= |earlier| && k <= |later|
  {
    && |added| + index == k
    && multiset(later[..k]) == multiset(earlier[..index]) + multiset(added)
    && TotalBytes(later[..k]) == TotalBytes(earlier[..index]) + TotalBytes(added)
    && Embeds(places, added, later) && forall i :: 0 <= i < |places| ==> places[i] < k
  }

  lemma TotalSnoc(aces: seq<Bytes>, ace: Bytes)
    ensures TotalBytes(aces + [ace]) == TotalBytes(aces) + |ace|
  {
    assert (aces + [ace])[..|aces|] == aces;
  }

  lemma TakeOld(earlier: seq<Bytes>, later: seq<Bytes>, index: nat, k: nat, added: seq<Bytes>, places: seq<nat>)
    requires index < |earlier| && k < |later| && Partition(earlier, later, index, k, added, places)
             && later[k] == earlier[index]
    ensures Partition(earlier, later, index + 1, k + 1, added, places)
  {
    hide TotalBytes, Embeds;
    assert later[..k + 1] == later[..k] + [later[k]] && earlier[..index + 1] == earlier[..index] + [earlier[index]];
    TotalSnoc(later[..k], later[k]);
    TotalSnoc(earlier[..index], earlier[index]);
  }

  lemma TakeNew(earlier: seq<Bytes>, later: seq<Bytes>, index: nat, k: nat, added: seq<Bytes>, places: seq<nat>)
    requires index <= |earlier| && k < |later| && Partition(earlier, later, index, k, added, places)
    ensures Partition(earlier, later, index, k + 1, added + [later[k]], places + [k])
  {
    hide TotalBytes;
    assert later[..k + 1] == later[..k] + [later[k]];
    TotalSnoc(later[..k], later[k]);
    TotalSnoc(added, later[k]);
  }

  /** The second loop: what is left of the new list once the old entries are taken out of it, first match first. */
  method AddedInherited(earlier: seq<Bytes>, later: seq<Bytes>) returns (added: seq<Bytes>)
    ensures Subsequence(earlier, later) ==>
              && multiset(later) == multiset(earlier) + multiset(added)
              && |added| == |later| - |earlier| && TotalBytes(added) == TotalBytes(later) - TotalBytes(earlier)
              && Subsequence(added, later)
  {
    hide Partition, TotalBytes, Embeds, Subsequence;
    GreedyIsSubsequence(earlier, later);
    added := [];
    var index := 0;
    ghost var places: seq<nat> := [];
    PartitionStarts(earlier, later);
    assert earlier[0..] == earlier && later[0..] == later;
    for k := 0 to |later|
      invariant 0 <= index <= |earlier| && Partition(earlier, later, index, k, added, places)
      invariant Greedy(earlier, later) <==> Greedy(earlier[index..], later[k..])
    {
      GreedyStep(earlier, later, index, k);
      if index < |earlier| && later[k] == earlier[index] {
        TakeOld(earlier, later, index, k, added, places);
        index := index + 1;
      } else {
        TakeNew(earlier, later, index, k, added, places);
        added, places := added + [later[k]], places + [k];
      }
    }
    PartitionEnds(earlier, later, index, added, places);
  }

  lemma PartitionStarts(earlier: seq<Bytes>, later: seq<Bytes>)
    ensures Partition(earlier, later, 0, 0, [], [])
  {}

  lemma GreedyStep(earlier: seq<Bytes>, later: seq<Bytes>, index: nat, k: nat)
    requires index <= |earlier| && k < |later|
    ensures Greedy(earlier[index..], later[k..]) <==>
              Greedy(if index < |earlier| && later[k] == earlier[index] then earlier[index + 1..]
                     else earlier[index..], later[k + 1..])
  {
    assert later[k..][1..] == later[k + 1..];
    if index < |earlier| {
      assert earlier[index..][1..] == earlier[index + 1..];
    } else {
      assert earlier[index..] == [];
    }
  }

  lemma PartitionEnds(earlier: seq<Bytes>, later: seq<Bytes>, index: nat, added: seq<Bytes>, places: seq<nat>)
    requires index <= |earlier| && Partition(earlier, later, index, |later|, added, places)
    requires Greedy(earlier, later) <==> Greedy(earlier[index..], later[|later|..])
    ensures Greedy(earlier, later) ==>
              && multiset(later) == multiset(earlier) + multiset(added)
              && |added| == |later| - |earlier| && TotalBytes(added) == TotalBytes(later) - TotalBytes(earlier)
              && Subsequence(added, later)
  {
    hide TotalBytes, Embeds;
    assert later[|later|..] == [] && later[..|later|] == later;
    if Greedy(earlier, later) { assert index == |earlier| && earlier[..index] == earlier; }
  }

  // ----- the whole comparison -------------------------------------------------------------------

  datatype Snapshot = Snapshot(
    control: bv16, explicitAces: seq<Bytes>, inheritedAces: seq<Bytes>, aceCount: int, bytesInUse: int,
    revision: int, present: bool, defaulted: bool, identity: int)

  datatype Code =
    | Control | Protected | ExplicitAces | InheritedAces | AceCount | AclLength | Revision | Presence | Defaulted
    | FileIdentity

  /** The one control bit was off and is on, and no other changed. */
  predicate AutoInherited(before: bv16, after: bv16) { TurnedOn(before, after, 0x0400) }

  predicate TurnedOn(before: bv16, after: bv16, bit: bv16) { before & bit == 0 && after == before | bit }

  lemma Toggle(x: bv16, y: bv16, bit: bv16)
    ensures (x ^ y) == bit <==> y == x ^ bit
  {}

  lemma SetBit(x: bv16, bit: bv16)
    requires x & bit == 0
    ensures x ^ bit == x | bit
  {}

  lemma BitIsSet(x: bv16, bit: bv16)
    ensures (x | bit) & bit == bit
  {}

  lemma BitTurnedOn(x: bv16, y: bv16, bit: bv16)
    requires bit != 0 && x & bit == 0
    ensures y == x | bit <==> (x ^ y) == bit && y & bit != 0
  {
    Toggle(x, y, bit);
    SetBit(x, bit);
    BitIsSet(x, bit);
  }

  lemma ControlDelta(before: bv16, after: bv16)
    ensures AutoInherited(before, after) <==>
              Toggled(before, after, SE_DACL_AUTO_INHERITED)
  {
    hide TurnedOn, Toggled;
    ToggledOn(before, after, SE_DACL_AUTO_INHERITED);
  }

  predicate Toggled(before: bv16, after: bv16, bit: bv16) {
    (before ^ after) == bit && before & bit == 0 && after & bit != 0
  }

  lemma ToggledOn(before: bv16, after: bv16, bit: bv16)
    requires bit != 0
    ensures TurnedOn(before, after, bit) <==> Toggled(before, after, bit)
  {
    if before & bit == 0 { BitTurnedOn(before, after, bit); }
  }

  /** Which invariants a pair of snapshots violates. */
  ghost predicate Violates(before: Snapshot, after: Snapshot, c: Code) {
    match c
    case Control => !AutoInherited(before.control, after.control)
    case Protected => before.control & 0x1000 != 0 || after.control & 0x1000 != 0
    case ExplicitAces => before.explicitAces != after.explicitAces
    case InheritedAces => !Subsequence(before.inheritedAces, after.inheritedAces)
    case AceCount =>
      Subsequence(before.inheritedAces, after.inheritedAces)
      && after.aceCount - before.aceCount != |after.inheritedAces| - |before.inheritedAces|
    case AclLength =>
      Subsequence(before.inheritedAces, after.inheritedAces)
      && after.bytesInUse - before.bytesInUse != TotalBytes(after.inheritedAces) - TotalBytes(before.inheritedAces)
    case Revision => before.revision != after.revision
    case Presence => !before.present || !after.present
    case Defaulted => before.defaulted || after.defaulted
    case FileIdentity => before.identity != after.identity
  }

  /** `_workspace_dacl_baseline_normalization_failure_codes`: exactly the violated invariants. */
  method FailureCodes(before: Snapshot, after: Snapshot) returns (codes: seq<Code>)
    ensures forall c :: c in codes <==> Violates(before, after, c)
  {
    codes := [];
    ControlDelta(before.control, after.control);
    var transition := (before.control ^ after.control) == SE_DACL_AUTO_INHERITED
                      && before.control & SE_DACL_AUTO_INHERITED == 0 && after.control & SE_DACL_AUTO_INHERITED != 0;
    if !transition { codes := codes + [Control]; }
    if before.control & SE_DACL_PROTECTED != 0 || after.control & SE_DACL_PROTECTED != 0 {
      codes := codes + [Protected];
    }
    codes := InheritanceCodes(before, after, codes);
    if before.revision != after.revision { codes := codes + [Revision]; }
    if !before.present || !after.present { codes := codes + [Presence]; }
    if before.defaulted || after.defaulted { codes := codes + [Defaulted]; }
    if before.identity != after.identity { codes := codes + [FileIdentity]; }
  }

  method InheritanceCodes(before: Snapshot, after: Snapshot, soFar: seq<Code>) returns (codes: seq<Code>)
    requires forall c :: c in soFar ==> c == Control || c == Protected
    ensures forall c :: c in codes <==>
              c in soFar || ((c == ExplicitAces || c == InheritedAces || c == AceCount || c == AclLength)
                             && Violates(before, after, c))
  {
    codes := soFar;
    if before.explicitAces != after.explicitAces { codes := codes + [ExplicitAces]; }
    var preserved := InheritedPreserved(before.inheritedAces, after.inheritedAces);
    if !preserved { codes := codes + [InheritedAces]; }
    var added := AddedInherited(before.inheritedAces, after.inheritedAces);
    if preserved {
      if after.aceCount - before.aceCount != |added| { codes := codes + [AceCount]; }
      if after.bytesInUse - before.bytesInUse != TotalBytes(added) { codes := codes + [AclLength]; }
    }
  }
}
