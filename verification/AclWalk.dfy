/**
 The walk over an ancestor directory's access list ([MS-DTYP] sections 2.4.5 and 2.4.4.1): no
 entry may let anybody but a trusted identity change what lies below.
 */
module AclWalk {
  import opened Bytes

  const MUTATION: bv32 := 0x500D_0156
  const INHERIT_ONLY: nat := 8
  const ALLOW: nat := 0
  const DENY: nat := 1

  datatype Refusal = AncestorOwner | AncestorAcl | AncestorWritable

  /** An entry starts at `at` and, with the length it declares, ends inside the list. */
  predicate Fits(acl: Bytes, at: nat) {
    at + 4 <= |acl| && SizeAt(acl, at) >= 4 && at + SizeAt(acl, at) <= |acl|
  }

  function SizeAt(acl: Bytes, at: nat): (n: nat)
    requires at + 4 <= |acl|
  {
    LittleEndian(acl[at + 2..at + 4])
  }

  /** Where the entry at `index` starts, if all before it fit. */
  function StartOf(acl: Bytes, index: nat): (at: Option<nat>) {
    if index == 0 then Some(8)
    else match StartOf(acl, index - 1)
      case None => None
      case Some(at) => if Fits(acl, at) then Some(at + SizeAt(acl, at)) else None
  }

  function Count(acl: Bytes): (n: nat)
    requires |acl| >= 8
  {
    LittleEndian(acl[4..6])
  }

  /** The entry takes part in the decision: it applies to the directory itself, and is not a denial. */
  predicate Counts(acl: Bytes, at: nat)
    requires at + 4 <= |acl|
  {
    acl[at + 1] / INHERIT_ONLY % 2 == 0 && acl[at] != DENY
  }

  predicate Mutates(mask: nat)
    requires mask < WORD32
  {
    mask as bv32 & 0x500D_0156 != 0
  }

  function MaskAt(acl: Bytes, at: nat): (mask: nat)
    requires at + 8 <= |acl|
    ensures mask < WORD32
  {
    LittleEndianRoundTrip(acl[at + 4..at + 8]);
    assert Power256(4) == WORD32;
    LittleEndian(acl[at + 4..at + 8])
  }

  /** A counting entry is a well-formed allowance. */
  predicate WellFormedEntry(acl: Bytes, at: nat)
    requires Fits(acl, at)
  {
    Counts(acl, at) ==> acl[at] == ALLOW && SizeAt(acl, at) >= 20
  }

  /** And it allows no change below, or allows it to a trusted identity. */
  predicate Harmless(acl: Bytes, at: nat, trusted: set<Bytes>)
    requires Fits(acl, at) && WellFormedEntry(acl, at)
  {
    Counts(acl, at) && Mutates(MaskAt(acl, at)) ==> acl[at + 8..at + SizeAt(acl, at)] in trusted
  }

  predicate EntryOK(acl: Bytes, index: nat, trusted: set<Bytes>) {
    match StartOf(acl, index)
    case None => false
    case Some(at) => Fits(acl, at) && WellFormedEntry(acl, at) && Harmless(acl, at, trusted)
  }

  predicate Shaped(acl: Bytes, index: nat) {
    match StartOf(acl, index)
    case None => false
    case Some(at) => Fits(acl, at) && WellFormedEntry(acl, at)
  }

  method TestMask(mask: nat) returns (mutates: bool)
    requires mask < WORD32
    ensures mutates == Mutates(mask)
  {
    mutates := mask as bv32 & MUTATION != 0;
  }

  /** `verify_ancestor` on a list the system returned and its owner. */
  method VerifyAncestor(acl: Bytes, owner: Bytes, trusted: set<Bytes>) returns (r: Option<Refusal>)
    requires |acl| >= 8
    ensures r == None <==> owner in trusted && forall i: nat :: i < Count(acl) ==> EntryOK(acl, i, trusted)
    ensures r == None <==> owner in trusted && Protects(acl, trusted)
    ensures r == Some(AncestorOwner) <==> owner !in trusted
    ensures r == Some(AncestorAcl) ==> exists i: nat :: i < Count(acl) && !Shaped(acl, i)
    ensures r == Some(AncestorWritable) ==>
              exists i: nat :: i < Count(acl) && Shaped(acl, i) && !EntryOK(acl, i, trusted)
                && forall k: nat :: k < i ==> EntryOK(acl, k, trusted)
  {
    hide LittleEndian, Mutates, MaskAt, Protects;
    AcceptedMeansProtected(acl, trusted);
    if owner !in trusted { return Some(AncestorOwner); }
    var count, offset := Count(acl), 8;
    for i := 0 to count
      invariant 8 <= offset <= |acl| && StartOf(acl, i) == Some(offset)
      invariant forall k: nat :: k < i ==> EntryOK(acl, k, trusted)
    {
      if offset + 4 > |acl| {
        assert !Shaped(acl, i) && !EntryOK(acl, i, trusted);
        return Some(AncestorAcl);
      }
      var kind, flags, size := acl[offset], acl[offset + 1], SizeAt(acl, offset);
      if size < 4 || offset + size > |acl| {
        assert !Shaped(acl, i) && !EntryOK(acl, i, trusted);
        return Some(AncestorAcl);
      }
      if flags / INHERIT_ONLY % 2 == 0 && kind != DENY {
        if kind != ALLOW || size < 20 {
          assert !Shaped(acl, i) && !EntryOK(acl, i, trusted);
          return Some(AncestorAcl);
        }
        var mask, identity := MaskAt(acl, offset), acl[offset + 8..offset + size];
        var mutates := TestMask(mask);
        if mutates && identity !in trusted {
          assert Shaped(acl, i) && !EntryOK(acl, i, trusted);
          return Some(AncestorWritable);
        }
      }
      assert EntryOK(acl, i, trusted);
      offset := offset + size;
    }
    // the source's last test, `offset > len(acl)`, has nothing left to find
    assert offset <= |acl|;
    r := None;
  }

  /** The walk's offsets only move forward, and never past the end of the list. */
  lemma {:induction false} OffsetsInside(acl: Bytes, i: nat)
    requires |acl| >= 8
    ensures StartOf(acl, i).Some? ==> 8 + 4 * i <= StartOf(acl, i).value <= |acl|
  {
    hide LittleEndian;
    if i > 0 { OffsetsInside(acl, i - 1); }
  }

  // ----- the list as [MS-DTYP] describes it: entries one after another -----------------------------

  function Joined(aces: seq<Bytes>): (b: Bytes) {
    if aces == [] then [] else Joined(aces[..|aces| - 1]) + aces[|aces| - 1]
  }

  /** A whole entry: its type, its flags, and the length it declares. */
  predicate Ace(a: Bytes) { |a| >= 4 && Octets2(a[2], a[3]) == |a| }

  /**
   An entry that is neither a denial (1) nor for inheritance only (8) is an allowance (0), and gives none of the rights
   that change what lies below to anybody but trusted identities.
   */
  predicate HarmlessAce(a: Bytes, trusted: set<Bytes>)
    requires Ace(a)
  {
    a[0] != 1 && a[1] / 8 % 2 == 0 ==>
      && a[0] == 0 && |a| >= 20
      && (Mutates(Octets4(a[4], a[5], a[6], a[7])) ==> a[8..] in trusted)
  }

  /** The two readings of one entry agree. */
  lemma EntryInNumbers(a: Bytes)
    requires |a| >= 4
    ensures SizeAt(a, 0) == Octets2(a[2], a[3]) && (Counts(a, 0) <==> a[0] != 1 && a[1] / 8 % 2 == 0)
    ensures |a| >= 8 ==> MaskAt(a, 0) == Octets4(a[4], a[5], a[6], a[7])
  {
    WordsInNumbers(a[2..4]);
    if |a| >= 8 { WordsInNumbers(a[4..8]); }
  }

  /** The declared number of entries follow the header, whatever comes after them. */
  predicate Holds(acl: Bytes, aces: seq<Bytes>)
    requires |acl| >= 8
  {
    |aces| == Octets2(acl[4], acl[5]) && Joined(aces) <= acl[8..] && forall i :: 0 <= i < |aces| ==> Ace(aces[i])
  }

  ghost predicate Protects(acl: Bytes, trusted: set<Bytes>)
    requires |acl| >= 8
  {
    exists aces: seq<Bytes> :: Holds(acl, aces) && forall i :: 0 <= i < |aces| ==> HarmlessAce(aces[i], trusted)
  }

  /** The walk's condition on offsets is the same as that on the list of entries. */
  lemma AcceptedMeansProtected(acl: Bytes, trusted: set<Bytes>)
    requires |acl| >= 8
    ensures (forall i: nat :: i < Count(acl) ==> EntryOK(acl, i, trusted)) <==> Protects(acl, trusted)
  {
    hide LittleEndian, Mutates, Counts, StartOf, HarmlessAce, EntryOK, Octets2;
    WordsInNumbers(acl[4..6]);
    if forall i: nat :: i < Count(acl) ==> EntryOK(acl, i, trusted) {
      var aces := FirstAces(acl, Count(acl), trusted);
      assert Holds(acl, aces);
    }
    if Protects(acl, trusted) {
      var aces: seq<Bytes> :| Holds(acl, aces) && forall i :: 0 <= i < |aces| ==> HarmlessAce(aces[i], trusted);
      forall i: nat | i < Count(acl) ensures EntryOK(acl, i, trusted) {
        ListedEntry(acl, aces, i, trusted);
      }
    }
  }

  lemma ListedEntry(acl: Bytes, aces: seq<Bytes>, i: nat, trusted: set<Bytes>)
    requires |acl| >= 8 && Holds(acl, aces) && i < |aces| && HarmlessAce(aces[i], trusted)
    ensures EntryOK(acl, i, trusted)
  {
    hide LittleEndian, Mutates, Counts, StartOf, Octets4;
    AcesStart(acl, aces, i);
    SameEntry(acl, 8 + |Joined(aces[..i])|, aces[i]);
    EntryInNumbers(aces[i]);
  }

  /** An entry reads the same inside the list as on its own. */
  lemma SameEntry(acl: Bytes, at: nat, a: Bytes)
    requires |a| >= 4 && at + |a| <= |acl| && acl[at..at + |a|] == a
    ensures SizeAt(acl, at) == SizeAt(a, 0) && Counts(acl, at) == Counts(a, 0) && acl[at] == a[0]
    ensures |a| >= 8 ==> MaskAt(acl, at) == MaskAt(a, 0) && acl[at + 8..at + |a|] == a[8..]
  {
    hide LittleEndian;
    Slices(acl, at, |a|, 2, 4);
    assert acl[at] == acl[at..at + |a|][0] && acl[at + 1] == acl[at..at + |a|][1];
    if |a| >= 8 {
      Slices(acl, at, |a|, 4, 8);
      Slices(acl, at, |a|, 8, |a|);
    }
  }

  lemma Slices(b: Bytes, at: nat, n: nat, i: nat, j: nat)
    requires at + n <= |b| && i <= j <= n
    ensures b[at..at + n][i..j] == b[at + i..at + j]
  {
    var x, y := b[at..at + n][i..j], b[at + i..at + j];
    assert forall k :: 0 <= k < j - i ==> x[k] == y[k];
  }

  lemma {:induction false} FirstAces(acl: Bytes, n: nat, trusted: set<Bytes>) returns (aces: seq<Bytes>)
    requires |acl| >= 8 && forall i: nat :: i < n ==> EntryOK(acl, i, trusted)
    ensures |aces| == n && StartOf(acl, n) == Some(8 + |Joined(aces)|) && Joined(aces) <= acl[8..]
    ensures forall i :: 0 <= i < n ==> Ace(aces[i]) && HarmlessAce(aces[i], trusted)
  {
    hide LittleEndian, Mutates, Counts;
    if n == 0 { return []; }
    var front := FirstAces(acl, n - 1, trusted);
    var at := StartOf(acl, n - 1).value;
    assert EntryOK(acl, n - 1, trusted);
    var a := acl[at..at + SizeAt(acl, at)];
    SameEntry(acl, at, a);
    EntryInNumbers(a);
    aces := front + [a];
    assert aces[..n - 1] == front;
    assert Joined(aces) == Joined(front) + a == acl[8..][..at - 8] + acl[8..][at - 8..at - 8 + |a|];
  }

  lemma {:induction false} AcesStart(acl: Bytes, aces: seq<Bytes>, i: nat)
    requires |acl| >= 8 && Holds(acl, aces) && i <= |aces|
    ensures StartOf(acl, i) == Some(8 + |Joined(aces[..i])|) && Joined(aces[..i]) <= acl[8..]
    ensures i < |aces| ==>
              var at := 8 + |Joined(aces[..i])|; at + |aces[i]| <= |acl| && acl[at..at + |aces[i]|] == aces[i]
    decreases |aces| - i
  {
    hide LittleEndian;
    JoinedPrefix(aces, i);
    if i < |aces| {
      JoinedPrefix(aces, i + 1);
      assert aces[..i + 1][..i] == aces[..i];
      var at := |Joined(aces[..i])|;
      assert Joined(aces[..i + 1]) <= acl[8..];
      assert aces[i] == Joined(aces[..i + 1])[at..] == acl[8..][at..at + |aces[i]|];
    }
    StartsAt(acl, aces, i);
  }

  lemma {:induction false} StartsAt(acl: Bytes, aces: seq<Bytes>, i: nat)
    requires |acl| >= 8 && Holds(acl, aces) && i <= |aces|
    ensures StartOf(acl, i) == Some(8 + |Joined(aces[..i])|)
  {
    hide LittleEndian;
    if i > 0 {
      StartsAt(acl, aces, i - 1);
      JoinedPrefix(aces, i);
      assert aces[..i][..i - 1] == aces[..i - 1];
      var at, a := |Joined(aces[..i - 1])|, aces[i - 1];
      assert Joined(aces[..i]) <= acl[8..];
      assert a == Joined(aces[..i])[at..] == acl[8..][at..at + |a|] == acl[8 + at..8 + at + |a|];
      SameEntry(acl, 8 + at, a);
      EntryInNumbers(a);
    }
  }

  lemma {:induction false} JoinedPrefix(aces: seq<Bytes>, i: nat)
    requires i <= |aces|
    ensures Joined(aces[..i]) <= Joined(aces)
  {
    if i < |aces| {
      JoinedPrefix(aces[..|aces| - 1], i);
      assert aces[..|aces| - 1][..i] == aces[..i];
    } else {
      assert aces[..i] == aces;
    }
  }
}
