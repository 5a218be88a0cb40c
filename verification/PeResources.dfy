/**
 The resource tree ("PE Format", section "The .rsrc Section"): a recursive walk that ends on any
 bytes, and lists exactly the leaves the tree leads to.
 */
module PeResources {
  import opened Bytes
  import opened PeReader
  import opened PeDirectories

  const MANIFEST_TYPE: nat := 24

  datatype Key = Id(number: nat) | Name(units: seq<nat>)

  /** One resource data entry and the bytes it stands for. */
  datatype Data = Data(rva: nat, size: nat, raw: Bytes)

  datatype Leaf = Leaf(path: seq<Key>, data: Data)

  /** The tree's image and its declared range. */
  datatype Tree = Tree(pe: Image, base: nat, size: nat)

  /** Bytes of the tree's own metadata: inside the declared range, complete in one region. */
  function Meta(t: Tree, offset: nat, count: nat): (b: Option<Bytes>)
    ensures b.Some? ==> |b.value| == count
  {
    if offset + count > t.size then None else Content(t.pe, t.base + offset, count)
  }

  function Word16(b: Bytes, at: nat): (n: nat)
    requires at + 2 <= |b|
  {
    LittleEndian(b[at..at + 2])
  }

  function Word32(b: Bytes, at: nat): (n: nat)
    requires at + 4 <= |b|
  {
    LittleEndian(b[at..at + 4])
  }

  /** Fields are stored least significant byte first. */
  lemma FieldsInNumbers(b: Bytes, at: nat)
    requires at + 4 <= |b|
    ensures Word16(b, at) == Octets2(b[at], b[at + 1])
    ensures Word32(b, at) == Octets4(b[at], b[at + 1], b[at + 2], b[at + 3])
  {
    WordsInNumbers(b[at..at + 2]);
    WordsInNumbers(b[at..at + 4]);
  }

  /** How many named and how many numbered entries a directory declares. */
  function HeaderAt(t: Tree, offset: nat): (h: Option<(nat, nat)>) {
    match Meta(t, offset, 16)
    case None => None
    case Some(b) => if Word32(b, 0) != 0 then None else Some((Word16(b, 12), Word16(b, 14)))
  }

  /** The two words of the entry at `index`. */
  function EntryAt(t: Tree, offset: nat, index: nat): (e: Option<(nat, nat)>) {
    match Meta(t, offset + 16 + index * 8, 8)
    case None => None
    case Some(b) => Some((Word32(b, 0), Word32(b, 4)))
  }

  function Units(b: Bytes): (us: seq<nat>)
    requires |b| % 2 == 0
    ensures |us| == |b| / 2
  {
    seq(|b| / 2, i requires 0 <= i < |b| / 2 => Word16(b, 2 * i))
  }

  /** Strict UTF-16: every high surrogate is followed by a low one, and no low one stands alone. */
  predicate Utf16(us: seq<nat>) {
    us == []
    || (if 0xD800 <= us[0] < 0xDC00 then |us| > 1 && 0xDC00 <= us[1] < 0xE000 && Utf16(us[2..])
        else !(0xDC00 <= us[0] < 0xE000) && Utf16(us[1..]))
  }

  /** A Unicode scalar value. */
  predicate Scalar(c: nat) { c < 0xD800 || 0xE000 <= c < 0x11_0000 }

  /** One or two UTF-16 code units. */
  function Encoded(c: nat): (us: seq<nat>)
    requires Scalar(c)
    ensures us != []
  {
    if c < 0x1_0000 then [c] else [0xD800 + (c - 0x1_0000) / 0x400, 0xDC00 + (c - 0x1_0000) % 0x400]
  }

  function EncodedAll(cs: seq<nat>): (us: seq<nat>)
    requires forall c :: c in cs ==> Scalar(c)
  {
    if cs == [] then [] else Encoded(cs[0]) + EncodedAll(cs[1..])
  }

  ghost predicate Decodable(us: seq<nat>) {
    exists cs: seq<nat> :: (forall c :: c in cs ==> Scalar(c)) && EncodedAll(cs) == us
  }

  lemma {:induction false} EncodedIsUtf16(cs: seq<nat>)
    requires forall c :: c in cs ==> Scalar(c)
    ensures Utf16(EncodedAll(cs))
  {
    if cs != [] {
      EncodedIsUtf16(cs[1..]);
      var us, first := EncodedAll(cs), Encoded(cs[0]);
      assert us[|first|..] == EncodedAll(cs[1..]);
      assert us[0] == first[0] && (|first| == 2 ==> us[1] == first[1]);
    }
  }

  lemma {:induction false} Decoded(us: seq<nat>) returns (cs: seq<nat>)
    requires Utf16(us) && forall u :: u in us ==> u < 0x1_0000
    ensures (forall c :: c in cs ==> Scalar(c)) && EncodedAll(cs) == us
  {
    if us == [] { return []; }
    var pair := 0xD800 <= us[0] < 0xDC00;
    var n := if pair then 2 else 1;
    var c := if pair then 0x1_0000 + 0x400 * (us[0] - 0xD800) + (us[1] - 0xDC00) else us[0];
    assert us[0] in us && (pair ==> us[1] in us);
    assert Encoded(c) == us[..n];
    assert forall u :: u in us[n..] ==> u in us;
    var rest := Decoded(us[n..]);
    cs := [c] + rest;
    assert cs[1..] == rest && us == us[..n] + us[n..];
  }

  /** The strict reading accepts exactly the encodings of scalar values. */
  lemma Utf16IsDecodable(us: seq<nat>)
    requires forall u :: u in us ==> u < 0x1_0000
    ensures Utf16(us) <==> Decodable(us)
  {
    if Utf16(us) { var cs := Decoded(us); }
    if Decodable(us) {
      var cs: seq<nat> :| (forall c :: c in cs ==> Scalar(c)) && EncodedAll(cs) == us;
      EncodedIsUtf16(cs);
    }
  }

  /** What the first word of an entry names, given that it must be a name exactly when `named`. */
  function KeyOf(t: Tree, encoded: nat, named: bool): (k: Option<Key>) {
    if (encoded >= 0x8000_0000) != named then None
    else if encoded < 0x8000_0000 then (if encoded > 0xFFFF then None else Some(Id(encoded)))
    else
      match Meta(t, encoded - 0x8000_0000, 2)
      case None => None
      case Some(l) =>
        var length := Word16(l, 0);
        if length == 0 then None
        else match Meta(t, encoded - 0x8000_0000 + 2, length * 2)
          case None => None
          case Some(b) => if Utf16(Units(b)) && 0 !in Units(b) then Some(Name(Units(b))) else None
  }

  /** The data entry at `target`; an empty resource claims no bytes, only an address inside the image. */
  function DataAt(t: Tree, target: nat): (d: Option<Data>) {
    match Meta(t, target, 16)
    case None => None
    case Some(b) =>
      var rva, length := Word32(b, 0), Word32(b, 4);
      if Word32(b, 12) != 0 then None
      else if length == 0 then (if rva > t.pe.sizeOfImage then None else Some(Data(rva, 0, [])))
      else match Content(t.pe, rva, length)
        case None => None
        case Some(raw) => Some(Data(rva, length, raw))
  }

  /** The entry at `index` is the first step of `keys`, and the rest of `keys` leads to `d`. */
  ghost predicate StepLeads(t: Tree, offset: nat, index: nat, keys: seq<Key>, d: Data)
    decreases |keys|, 0
  {
    && keys != [] && HeaderAt(t, offset).Some? && index < HeaderAt(t, offset).value.0 + HeaderAt(t, offset).value.1
    && EntryAt(t, offset, index).Some?
    && var (encoded, target) := EntryAt(t, offset, index).value;
    && KeyOf(t, encoded, index < HeaderAt(t, offset).value.0) == Some(keys[0])
    && if |keys| == 1 then target < 0x8000_0000 && DataAt(t, target) == Some(d)
       else target >= 0x8000_0000 && Leads(t, target - 0x8000_0000, keys[1..], d)
  }

  /** From the directory at `offset`, `keys` lead to the data entry `d`. */
  ghost predicate Leads(t: Tree, offset: nat, keys: seq<Key>, d: Data)
    decreases |keys|, 1
  {
    keys != [] && exists index: nat :: StepLeads(t, offset, index, keys, d)
  }

  predicate DistinctPaths(leaves: seq<Leaf>) {
    forall i, j :: 0 <= i < j < |leaves| ==> leaves[i].path != leaves[j].path
  }

  predicate IsManifest(l: Leaf) { |l.path| > 0 && l.path[0] == Id(24) }

  function Manifests(leaves: seq<Leaf>): (ms: seq<Leaf>) {
    if leaves == [] then []
    else Manifests(leaves[..|leaves| - 1]) + (if IsManifest(leaves[|leaves| - 1]) then [leaves[|leaves| - 1]] else [])
  }

  function TotalSize(leaves: seq<Leaf>): (n: nat) {
    if leaves == [] then 0 else TotalSize(leaves[..|leaves| - 1]) + leaves[|leaves| - 1].data.size
  }

  /** The leaves found below one directory: full paths, all different, all through `path`. */
  ghost predicate Below(found: seq<Leaf>, path: seq<Key>) {
    && DistinctPaths(found)
    && forall l :: l in found ==> |l.path| == 3 && path <= l.path
  }

  /** `found` is exactly what the directory at `offset` leads to. */
  ghost predicate Complete(t: Tree, offset: nat, path: seq<Key>, found: seq<Leaf>) {
    forall keys: seq<Key>, d: Data :: |keys| == 3 - |path| ==>
      (Leads(t, offset, keys, d) <==> Leaf(path + keys, d) in found)
  }

  /** `found` is exactly what its first `n` entries lead to. */
  ghost predicate CompleteTo(t: Tree, offset: nat, path: seq<Key>, found: seq<Leaf>, n: nat) {
    forall keys: seq<Key>, d: Data :: |keys| == 3 - |path| ==>
      ((exists index: nat :: index < n && StepLeads(t, offset, index, keys, d)) <==> Leaf(path + keys, d) in found)
  }

  /** The leaves below one entry share the key after `path`; those of earlier entries have others. */
  ghost predicate Keyed(found: seq<Leaf>, at: nat, keys: set<Key>) {
    forall l :: l in found ==> |l.path| > at && l.path[at] in keys
  }

  /** The directories entered, in order, none of them twice. */
  ghost predicate VisitedOnce(visited: set<nat>, order: seq<nat>) {
    && (forall o :: o in visited <==> o in order)
    && (forall i, j :: 0 <= i < j < |order| ==> order[i] != order[j])
  }

  predicate Permitted(manifests: seq<Leaf>, policy: Bytes -> bool) {
    forall l :: l in manifests ==> 0 < l.data.size <= 4096 && policy(l.data.raw)
  }

  lemma OnceOnly(visited: set<nat>, order: seq<nat>)
    requires VisitedOnce(visited, order)
    ensures NoTwice(order)
  {}

  lemma VisitNew(visited: set<nat>, order: seq<nat>, offset: nat)
    requires VisitedOnce(visited, order) && offset !in visited
    ensures VisitedOnce(visited + {offset}, order + [offset])
  {}

  // ----- what a walk costs, if nothing in the tree is refused ------------------------------------

  /** Directories entered, in order, and what is charged for them and for what lies below. */
  datatype Cost = Cost(dirs: seq<nat>, read: nat, resources: nat, manifests: nat)

  const NOTHING := Cost([], 0, 0, 0)

  function Plus(a: Cost, b: Cost): (c: Cost) {
    Cost(a.dirs + b.dirs, a.read + b.read, a.resources + b.resources, a.manifests + b.manifests)
  }

  /** Bytes read for a key. */
  function KeyCost(t: Tree, encoded: nat): (n: nat) {
    if encoded < 0x8000_0000 then 0
    else match Meta(t, encoded - 0x8000_0000, 2)
      case None => 2
      case Some(l) => 2 + 2 * Word16(l, 0)
  }

  /** The data entry at `target`, if it may be a leaf; a manifest has to be of a permitted size and content. */
  function LeafCost(t: Tree, policy: Bytes -> bool, target: nat, manifest: bool): (c: Option<Cost>) {
    match DataAt(t, target)
    case None => None
    case Some(d) =>
      if manifest && (d.size == 0 || d.size > 4096 || !policy(d.raw)) then None
      else Some(Cost([], 16 + d.size, 1, if manifest then d.size else 0))
  }

  /** The entry at `index`: a key, and a directory or a leaf, whichever its depth demands. */
  function EntryCost(t: Tree, policy: Bytes -> bool, offset: nat, named: nat, index: nat, path: seq<Key>)
    : (c: Option<Cost>)
    requires |path| < 3
    decreases 3 - |path|, 0, 0
  {
    match EntryAt(t, offset, index)
    case None => None
    case Some((encoded, target)) =>
      match KeyOf(t, encoded, index < named)
      case None => None
      case Some(key) =>
        var below := if |path| < 2 then
                       (if target < 0x8000_0000 then None else NodeCost(t, policy, target - 0x8000_0000, path + [key]))
                     else if target >= 0x8000_0000 then None
                     else LeafCost(t, policy, target, path[0] == Id(24));
        match below
        case None => None
        case Some(c) => Some(Plus(Cost([], 8 + KeyCost(t, encoded), 1, 0), c))
  }

  /** The keys of the first `n` entries. */
  function KeysTo(t: Tree, offset: nat, named: nat, n: nat): (ks: set<Key>) {
    if n == 0 then {}
    else
      KeysTo(t, offset, named, n - 1)
      + match EntryAt(t, offset, n - 1)
        case None => {}
        case Some((encoded, _)) =>
          match KeyOf(t, encoded, n - 1 < named) case None => {} case Some(key) => {key}
  }

  /** The entry at `index` repeats an earlier key. */
  predicate Repeats(t: Tree, offset: nat, named: nat, index: nat) {
    match EntryAt(t, offset, index)
    case None => false
    case Some((encoded, _)) =>
      match KeyOf(t, encoded, index < named) case None => false case Some(key) => key in KeysTo(t, offset, named, index)
  }

  function EntriesCost(t: Tree, policy: Bytes -> bool, offset: nat, named: nat, path: seq<Key>, n: nat)
    : (c: Option<Cost>)
    requires |path| < 3
    decreases 3 - |path|, 1, n
  {
    if n == 0 then Some(NOTHING)
    else
      match EntriesCost(t, policy, offset, named, path, n - 1)
      case None => None
      case Some(before) =>
        match EntryCost(t, policy, offset, named, n - 1, path)
        case None => None
        case Some(c) => if Repeats(t, offset, named, n - 1) then None else Some(Plus(before, c))
  }

  /** The directory at `offset`. */
  function NodeCost(t: Tree, policy: Bytes -> bool, offset: nat, path: seq<Key>): (c: Option<Cost>)
    requires |path| < 3
    decreases 3 - |path|, 2, 0
  {
    match HeaderAt(t, offset)
    case None => None
    case Some((named, ids)) =>
      match EntriesCost(t, policy, offset, named, path, named + ids)
      case None => None
      case Some(c) => Some(Plus(Cost([offset], 16, 0, 0), c))
  }

  /** The directory's own header and its first `n` entries. */
  function CostTo(t: Tree, policy: Bytes -> bool, offset: nat, named: nat, path: seq<Key>, n: nat): (c: Option<Cost>)
    requires |path| < 3
  {
    match EntriesCost(t, policy, offset, named, path, n)
    case None => None
    case Some(c) => Some(Plus(Cost([offset], 16, 0, 0), c))
  }

  /** There is no entry at `index`, or it repeats a key, or it could not be paid for. */
  predicate NoEntry(t: Tree, offset: nat, named: nat, index: nat, left: Budget) {
    match EntryAt(t, offset, index)
    case None => true
    case Some((encoded, _)) =>
      || KeyOf(t, encoded, index < named) == None || Repeats(t, offset, named, index)
      || left.resources < 1 || left.read < 8 + KeyCost(t, encoded)
  }

  predicate Affordable(c: Option<Cost>, left: Budget) {
    c.Some? && c.value.read <= left.read && c.value.resources <= left.resources && c.value.manifests <= left.manifests
  }

  predicate NoTwice(order: seq<nat>) { forall i, j :: 0 <= i < j < |order| ==> order[i] != order[j] }

  /** The budgets cover it, and no directory is entered twice. */
  predicate Covered(c: Cost, left: Budget, order: seq<nat>) {
    c.read <= left.read && c.resources <= left.resources && c.manifests <= left.manifests && NoTwice(order + c.dirs)
  }

  function Spend(left: Budget, c: Cost): (after: Budget)
    requires c.read <= left.read && c.resources <= left.resources && c.manifests <= left.manifests
  {
    left.(read := left.read - c.read, resources := left.resources - c.resources,
          manifests := left.manifests - c.manifests)
  }

  /** Nothing there can be walked with what is left. */
  predicate Barred(c: Option<Cost>, left: Budget, order: seq<nat>) { c.None? || !Covered(c.value, left, order) }

  /** What was paid for, and what is left of it. */
  predicate Paid(c: Option<Cost>, before: Budget, after: Budget, orderBefore: seq<nat>, order: seq<nat>) {
    && c.Some? && Covered(c.value, before, orderBefore)
    && after == Spend(before, c.value) && order == orderBefore + c.value.dirs
  }

  class Walk {
    const inspection: Inspection
    const tree: Tree
    const policy: Bytes -> bool
    var visited: set<nat>
    var order: seq<nat>
    var leaves: seq<Leaf>
    var manifests: seq<Leaf>

    ghost predicate Valid()
      reads this, inspection
    {
      && inspection.Valid() && inspection.pe == tree.pe
      && VisitedOnce(visited, order)
      && manifests == Manifests(leaves) && Permitted(manifests, policy)
    }

    constructor (inspection: Inspection, base: nat, size: nat, policy: Bytes -> bool)
      requires inspection.Valid()
      ensures Valid() && this.inspection == inspection && tree == Tree(inspection.pe, base, size)
              && this.policy == policy
      ensures visited == {} && order == [] && leaves == [] && manifests == []
    {
      this.inspection, tree, this.policy := inspection, Tree(inspection.pe, base, size), policy;
      visited, order, leaves, manifests := {}, [], [], [];
    }

    /** `metadata`. */
    method Metadata(offset: nat, count: nat) returns (r: Result<Bytes, Error>)
      requires Valid()
      modifies inspection
      ensures Valid() && Within(inspection.left, old(inspection.left))
      ensures inspection.left == old(inspection.left).(read := inspection.left.read)
      ensures r.Ok? ==>
                && Meta(tree, offset, count) == Some(r.value)
                && inspection.left.read + count == old(inspection.left).read
      ensures r.Err? ==> Meta(tree, offset, count) == None || count > old(inspection.left).read
    {
      hide Accepted, VisitedOnce, Permitted, Manifests, Content;
      if offset + count > tree.size { return Err(InvalidResource); }
      r := inspection.Read(tree.base + offset, count);
    }

    /** `key`. */
    method ReadKey(encoded: nat, named: bool) returns (r: Result<Key, Error>)
      requires Valid() && (encoded >= HIGH_BIT) == named
      modifies inspection
      ensures Valid() && Within(inspection.left, old(inspection.left))
      ensures inspection.left == old(inspection.left).(read := inspection.left.read)
      ensures r.Ok? ==>
                && KeyOf(tree, encoded, named) == Some(r.value)
                && inspection.left.read + KeyCost(tree, encoded) == old(inspection.left).read
      ensures r.Err? ==> KeyOf(tree, encoded, named) == None || KeyCost(tree, encoded) > old(inspection.left).read
    {
      hide Accepted, VisitedOnce, Permitted, Manifests, Content, Meta, Utf16, Units, LittleEndian;
      if encoded < HIGH_BIT {
        if encoded > 0xFFFF { return Err(InvalidResource); }
        return Ok(Id(encoded));
      }
      var offset := encoded - HIGH_BIT;
      var prefix := Metadata(offset, 2);
      if prefix.Err? { return Err(prefix.error); }
      var length := Word16(prefix.value, 0);
      if length == 0 { return Err(InvalidResource); }
      var text := Metadata(offset + 2, length * 2);
      if text.Err? { return Err(text.error); }
      var units := Units(text.value);
      if !Utf16(units) || 0 in units { return Err(InvalidResource); }
      r := Ok(Name(units));
    }

    /** One directory entry: its key, which must be new, and its target. */
    method ReadEntry(offset: nat, index: nat, named: nat, keys: set<Key>) returns (r: Result<(Key, nat), Error>)
      requires Valid() && keys == KeysTo(tree, offset, named, index)
      modifies inspection
      ensures Valid() && Within(inspection.left, old(inspection.left))
      ensures inspection.left == old(inspection.left).(read := inspection.left.read,
                                                       resources := inspection.left.resources)
      ensures r.Ok? ==>
                && r.value.0 !in keys && inspection.left.resources + 1 == old(inspection.left).resources
                && EntryAt(tree, offset, index).Some? && EntryAt(tree, offset, index).value.1 == r.value.1
                && KeyOf(tree, EntryAt(tree, offset, index).value.0, index < named) == Some(r.value.0)
                && inspection.left.read + 8 + KeyCost(tree, EntryAt(tree, offset, index).value.0)
                   == old(inspection.left).read
      ensures r.Err? ==> NoEntry(tree, offset, named, index, old(inspection.left))
    {
      hide Accepted, VisitedOnce, Permitted, Manifests, Meta, KeyOf, KeyCost, KeysTo, LittleEndian;
      if inspection.left.resources < 1 { return Err(BudgetExceeded); }
      inspection.left := inspection.left.(resources := inspection.left.resources - 1);
      var words := Metadata(offset + 16 + index * 8, 8);
      if words.Err? { return Err(words.error); }
      var encoded, target := Word32(words.value, 0), Word32(words.value, 4);
      if (encoded >= HIGH_BIT) != (index < named) {
        MisplacedKey(tree, encoded, index < named);
        return Err(InvalidResource);
      }
      var name := ReadKey(encoded, index < named);
      if name.Err? { return Err(name.error); }
      if name.value in keys { return Err(InvalidResource); }
      r := Ok((name.value, target));
    }

    /** A data entry, and for a manifest its size budget and its policy. */
    method ReadData(target: nat, manifest: bool) returns (r: Result<Data, Error>)
      requires Valid()
      modifies inspection
      ensures Valid() && Within(inspection.left, old(inspection.left))
      ensures r.Ok? ==>
                && DataAt(tree, target) == Some(r.value)
                   && inspection.left.resources + 1 == old(inspection.left).resources
                && inspection.left.manifests + (if manifest then r.value.size else 0) == old(inspection.left).manifests
                && (manifest ==> 0 < r.value.size <= MANIFEST_LIMIT && policy(r.value.raw))
      ensures var c := LeafCost(tree, policy, target, manifest);
              if r.Ok? then Affordable(c, old(inspection.left))
                && inspection.left == Spend(old(inspection.left), c.value)
              else !Affordable(c, old(inspection.left))
    {
      hide Accepted, VisitedOnce, Permitted, Manifests, Meta, Content, LittleEndian;
      if inspection.left.resources < 1 { return Err(BudgetExceeded); }
      inspection.left := inspection.left.(resources := inspection.left.resources - 1);
      var words := Metadata(target, 16);
      if words.Err? { return Err(words.error); }
      var rva, length := Word32(words.value, 0), Word32(words.value, 4);
      if Word32(words.value, 12) != 0 { return Err(InvalidResource); }
      if manifest {
        if length == 0 { return Err(InvalidManifest); }
        if length > MANIFEST_LIMIT || length > inspection.left.manifests { return Err(BudgetExceeded); }
        inspection.left := inspection.left.(manifests := inspection.left.manifests - length);
      }
      var raw: Bytes := [];
      if length != 0 {
        var content := inspection.Read(rva, length);
        if content.Err? { return Err(content.error); }
        raw := content.value;
      } else if rva > tree.pe.sizeOfImage {
        return Err(InvalidResource);
      }
      if manifest && !policy(raw) { return Err(InvalidManifest); }
      r := Ok(Data(rva, length, raw));
    }

    /** One leaf is added, and is a manifest too if it lies below type 24. */
    method AddLeaf(path: seq<Key>, target: nat) returns (e: Option<Error>, ghost found: seq<Leaf>)
      requires Valid() && |path| == 3
      modifies this`leaves, this`manifests, inspection
      ensures Valid() && Within(inspection.left, old(inspection.left))
      ensures e.None? ==>
                && leaves == old(leaves) + found && |found| == 1 && found[0].path == path
                && DataAt(tree, target) == Some(found[0].data)
                && inspection.left.resources + 1 == old(inspection.left).resources
                && inspection.left.manifests + TotalSize(manifests) == old(inspection.left).manifests
                   + TotalSize(old(manifests))
      ensures var c := LeafCost(tree, policy, target, path[0] == Id(MANIFEST_TYPE));
              if e.None? then Affordable(c, old(inspection.left))
                && inspection.left == Spend(old(inspection.left), c.value)
              else !Affordable(c, old(inspection.left))
    {
      hide Accepted, VisitedOnce, Meta, Content, DataAt, LeafCost, Affordable, Spend;
      found := [];
      var manifest := path[0] == Id(MANIFEST_TYPE);
      var d := ReadData(target, manifest);
      if d.Err? { return Some(d.error), found; }
      var leaf := Leaf(path, d.value);
      found := [leaf];
      assert (leaves + [leaf])[..|leaves|] == leaves;
      assert (manifests + [leaf])[..|manifests|] == manifests;
      leaves := leaves + [leaf];
      if manifest { manifests := manifests + [leaf]; }
      e := None;
    }

    /** The budgets, against what has been found since `before` and what was a manifest then. */
    ghost predicate Spent(before: Budget, manifestsBefore: nat, found: nat)
      reads this, inspection
    {
      && Within(inspection.left, before)
      && inspection.left.resources + 2 * found <= before.resources
      && inspection.left.manifests + TotalSize(manifests) == before.manifests + manifestsBefore
    }

    /** What one directory entry adds. */
    method Entry(offset: nat, index: nat, header: (nat, nat), path: seq<Key>, keys: set<Key>)
      returns (e: Option<Error>, ghost name: Key, ghost found: seq<Leaf>, key: Option<Key>)
      requires Valid() && |path| < 3 && HeaderAt(tree, offset) == Some(header) && index < header.0 + header.1
      requires keys == KeysTo(tree, offset, header.0, index)
      modifies this, inspection
      ensures Valid() && old(order) <= order
      ensures e.None? ==>
                && key == Some(name) && name !in keys && leaves == old(leaves) + found
                && Share(tree, offset, index, path, name, found)
                && Spent(old(inspection.left), old(TotalSize(manifests)), |found|)
                && KeysTo(tree, offset, header.0, index + 1) == keys + {name}
      ensures var c := EntryCost(tree, policy, offset, header.0, index, path);
              if e.None? then
                && Paid(c, old(inspection.left), inspection.left, old(order), order)
                   && !Repeats(tree, offset, header.0, index)
              else Barred(c, old(inspection.left), old(order)) || Repeats(tree, offset, header.0, index)
      decreases 3 - |path|, 0
    {
      hide Accepted, VisitedOnce, Permitted, Manifests, Meta, HeaderAt, EntryAt, KeyOf, DataAt, StepLeads, Below,
        Complete,
        Share, TotalSize, EntryCost, NodeCost, LeafCost, KeysTo, Repeats, Paid, Barred, NoEntry, KeyCost, Affordable;
      found, key, name := [], None, Id(0);
      var entry := ReadEntry(offset, index, header.0, keys);
      if entry.Err? {
        EntryUnread(tree, policy, offset, header.0, index, path, old(inspection.left), order);
        return Some(entry.error), name, found, None;
      }
      name := entry.value.0;
      KeyRead(tree, offset, header.0, index, name);
      ghost var read := inspection.left;
      var leafPath, target := path + [entry.value.0], entry.value.1;
      if |leafPath| < 3 {
        if target < HIGH_BIT {
          Misplaced(tree, policy, offset, header.0, index, path, old(inspection.left), order);
          return Some(InvalidResource), name, found, None;
        }
        e, found := Node(target - HIGH_BIT, leafPath);
        BelowCosts(tree, policy, offset, header.0, index, path,
                   NodeCost(tree, policy, target - HIGH_BIT, leafPath), old(inspection.left), read, inspection.left,
                     old(order), order);
        if e.Some? { return e, name, found, None; }
        DirectoryShare(tree, offset, index, path, name, target, found);
      } else {
        if target >= HIGH_BIT {
          Misplaced(tree, policy, offset, header.0, index, path, old(inspection.left), order);
          return Some(InvalidResource), name, found, None;
        }
        e, found := AddLeaf(leafPath, target);
        assert leafPath[0] == path[0];
        OnceOnly(visited, order);
        LeafCosts(tree, policy, target, path[0] == Id(MANIFEST_TYPE), read, inspection.left, order);
        BelowCosts(tree, policy, offset, header.0, index, path,
                   LeafCost(tree, policy, target, path[0] == Id(MANIFEST_TYPE)), old(inspection.left), read,
                     inspection.left,
                   old(order), order);
        if e.Some? { return e, name, found, None; }
        LeafShare(tree, offset, index, path, name, target, found[0]);
        assert found == [found[0]];
      }
      key := Some(entry.value.0);
    }

    /** `node`. */
    method Node(offset: nat, path: seq<Key>) returns (e: Option<Error>, ghost found: seq<Leaf>)
      requires Valid() && |path| < 3
      modifies this, inspection
      ensures Valid() && old(order) <= order
      ensures e.None? ==>
                && leaves == old(leaves) + found && Below(found, path) && Complete(tree, offset, path, found)
                && offset !in old(visited) && offset in order
                && Spent(old(inspection.left), old(TotalSize(manifests)), |found|)
      ensures var c := NodeCost(tree, policy, offset, path);
              if e.None? then Paid(c, old(inspection.left), inspection.left, old(order), order)
              else Barred(c, old(inspection.left), old(order))
      decreases 3 - |path|, 1
    {
      hide Accepted, VisitedOnce, Permitted, Meta, EntryAt, KeyOf, DataAt, StepLeads, Below, Complete, CompleteTo,
        Keyed, Share,
        TotalSize, Manifests, EntryCost, NodeCost, EntriesCost, KeysTo, Repeats, Paid, Barred, HeaderAt;
      found := [];
      if offset in visited {
        Revisited(tree, policy, offset, path, visited, inspection.left, order);
        return Some(ResourceCycleOrAlias), found;
      }
      VisitNew(visited, order, offset);
      visited, order := visited + {offset}, order + [offset];
      var header;
      e, header := Header(offset);
      if e.Some? {
        Headless(tree, policy, offset, path, old(inspection.left), old(order));
        return e, found;
      }
      ghost var before := old(inspection.left);
      var keys: set<Key> := {};
      NothingFound(tree, offset, path);
      NodeStarts(tree, policy, offset, path, header, before, inspection.left, old(order), order);
      for index := 0 to header.0 + header.1
        invariant Valid() && old(order) <= order && offset in order
        invariant leaves == old(leaves) + found && Below(found, path) && Keyed(found, |path|, keys)
        invariant CompleteTo(tree, offset, path, found, index)
        invariant Spent(before, old(TotalSize(manifests)), |found|)
        invariant keys == KeysTo(tree, offset, header.0, index)
        invariant Paid(CostTo(tree, policy, offset, header.0, path, index), before, inspection.left, old(order), order)
      {
        ghost var name, sub, left, entered := Id(0), [], inspection.left, order;
        var key: Option<Key>;
        e, name, sub, key := Entry(offset, index, header, path, keys);
        EntryPaid(tree, policy, offset, header, path, index, before, left, inspection.left, old(order), entered, order,
                  e);
        if e.Some? { return e, found; }
        SharesAdd(tree, offset, index, path, name, keys, found, sub);
        found := found + sub;
        keys := keys + {key.value};
      }
      AllFound(tree, offset, path, found, header.0 + header.1);
      NodeCosts(tree, policy, offset, path, header);
      e := None;
    }

    /** The sixteen bytes a directory begins with. */
    method Header(offset: nat) returns (e: Option<Error>, header: (nat, nat))
      requires Valid()
      modifies inspection
      ensures Valid() && Within(inspection.left, old(inspection.left))
      ensures e.None? ==> HeaderAt(tree, offset) == Some(header) && 16 <= old(inspection.left).read
                          && inspection.left == old(inspection.left).(read := old(inspection.left).read - 16)
      ensures e.Some? ==> HeaderAt(tree, offset) == None || old(inspection.left).read < 16
    {
      hide Accepted, VisitedOnce, Permitted, Manifests, Meta, LittleEndian;
      header := (0, 0);
      var raw := Metadata(offset, 16);
      if raw.Err? { return Some(raw.error), header; }
      if Word32(raw.value, 0) != 0 { return Some(InvalidResource), header; }
      header := (Word16(raw.value, 12), Word16(raw.value, 14));
      e := None;
    }

    /** `resources`: exactly the leaves the tree leads to, and among them at least one manifest. */
    method Resources() returns (e: Option<Error>)
      requires Valid() && visited == {} && order == [] && leaves == [] && manifests == []
      modifies this, inspection
      ensures Valid()
      ensures e.None? ==>
                && Listed(tree, leaves) && manifests == Manifests(leaves) && manifests != []
                && Within(inspection.left, old(inspection.left))
                && inspection.left.resources + 2 * |leaves| <= old(inspection.left).resources
                && inspection.left.manifests + TotalSize(manifests) == old(inspection.left).manifests
      ensures e.None? <==> Walkable(tree, policy, old(inspection.left))
    {
      hide Leads, Meta, HeaderAt, Below, Complete, NodeCost, TotalSize, NoTwice;
      e := None;
      ghost var found: seq<Leaf> := [];
      NoManifests();
      if tree.size != 0 {
        e, found := Node(0, []);
        if e.Some? { return; }
        assert leaves == found;
        WholeTree(tree, found);
        ManifestsHaveSize(manifests, policy);
      }
      if manifests == [] { e := Some(InvalidManifest); }
    }
  }

  /** The tree can be walked to its end with what is left, and holds a manifest. */
  predicate Walkable(t: Tree, policy: Bytes -> bool, left: Budget) {
    t.size != 0
    && match NodeCost(t, policy, 0, [])
       case None => false
       case Some(c) => Covered(c, left, []) && c.manifests > 0
  }

  lemma ManifestsHaveSize(manifests: seq<Leaf>, policy: Bytes -> bool)
    requires Permitted(manifests, policy)
    ensures TotalSize(manifests) > 0 <==> manifests != []
  {
    if manifests != [] { assert manifests[|manifests| - 1] in manifests; }
  }

  /** The leaves are the tree's, each once, under three keys each. */
  ghost predicate Listed(t: Tree, leaves: seq<Leaf>) {
    && DistinctPaths(leaves) && (forall l :: l in leaves ==> |l.path| == 3)
    && forall keys: seq<Key>, d: Data :: |keys| == 3 ==> (Leads(t, 0, keys, d) <==> Leaf(keys, d) in leaves)
  }

  lemma WholeTree(t: Tree, found: seq<Leaf>)
    requires Below(found, []) && Complete(t, 0, [], found)
    ensures Listed(t, found)
  {
    hide Leads;
    forall keys: seq<Key>, d: Data | |keys| == 3 ensures Leads(t, 0, keys, d) <==> Leaf(keys, d) in found {
      assert [] + keys == keys;
    }
  }

  lemma {:induction false} ManifestsAre(leaves: seq<Leaf>, l: Leaf)
    ensures l in Manifests(leaves) <==> l in leaves && IsManifest(l)
  {
    if leaves != [] {
      ManifestsAre(leaves[..|leaves| - 1], l);
      assert leaves == leaves[..|leaves| - 1] + [leaves[|leaves| - 1]];
    }
  }

  /** Three keys lead to one data entry at most, so no leaf shadows another. */
  lemma LeavesAreFunctional(t: Tree, leaves: seq<Leaf>, keys: seq<Key>, d: Data, d': Data)
    requires Listed(t, leaves) && |keys| == 3 && Leads(t, 0, keys, d) && Leads(t, 0, keys, d')
    ensures d == d'
  {
    hide Leads;
    var i :| 0 <= i < |leaves| && leaves[i] == Leaf(keys, d);
    var j :| 0 <= j < |leaves| && leaves[j] == Leaf(keys, d');
    DistinctIndex(leaves, i, j);
  }

  lemma DistinctIndex(leaves: seq<Leaf>, i: nat, j: nat)
    requires DistinctPaths(leaves) && i < |leaves| && j < |leaves| && leaves[i].path == leaves[j].path
    ensures i == j
  {}

  // ----- paying for the walk ----------------------------------------------------------------------

  lemma MisplacedKey(t: Tree, encoded: nat, named: bool)
    requires (encoded >= HIGH_BIT) != named
    ensures KeyOf(t, encoded, named) == None
  {}

  lemma EntryUnread(t: Tree, policy: Bytes -> bool, offset: nat, named: nat, index: nat, path: seq<Key>, left: Budget,
                    order: seq<nat>)
    requires |path| < 3 && NoEntry(t, offset, named, index, left)
    ensures Barred(EntryCost(t, policy, offset, named, index, path), left, order) || Repeats(t, offset, named, index)
  {
    hide EntryAt, KeyOf, KeyCost, NodeCost, LeafCost, KeysTo;
  }

  /** The key of an entry that was read, and what the keys so far become with it. */
  lemma KeyRead(t: Tree, offset: nat, named: nat, index: nat, name: Key)
    requires EntryAt(t, offset, index).Some?
    requires KeyOf(t, EntryAt(t, offset, index).value.0, index < named) == Some(name)
    ensures KeysTo(t, offset, named, index + 1) == KeysTo(t, offset, named, index) + {name}
    ensures Repeats(t, offset, named, index) <==> name in KeysTo(t, offset, named, index)
  {
    hide EntryAt, KeyOf;
  }

  lemma Misplaced(t: Tree, policy: Bytes -> bool, offset: nat, named: nat, index: nat, path: seq<Key>, left: Budget,
                  order: seq<nat>)
    requires |path| < 3 && EntryAt(t, offset, index).Some?
    requires (EntryAt(t, offset, index).value.1 < HIGH_BIT) == (|path| < 2)
    ensures Barred(EntryCost(t, policy, offset, named, index, path), left, order)
  {
    hide EntryAt, KeyOf, KeyCost, NodeCost, LeafCost;
  }

  lemma LeafCosts(t: Tree, policy: Bytes -> bool, target: nat, manifest: bool, left: Budget, after: Budget,
                  order: seq<nat>)
    requires NoTwice(order)
    ensures var c := LeafCost(t, policy, target, manifest);
            && (Affordable(c, left) && after == Spend(left, c.value) ==> Paid(c, left, after, order, order))
            && (!Affordable(c, left) ==> Barred(c, left, order))
  {
    hide DataAt;
    assert order + [] == order;
  }
  /** An entry's key and words come on top of what lies below it. */
  lemma BelowCosts(t: Tree, policy: Bytes -> bool, offset: nat, named: nat, index: nat, path: seq<Key>,
                   below: Option<Cost>,
                   before: Budget, read: Budget, after: Budget, orderBefore: seq<nat>, order: seq<nat>)
    requires |path| < 3 && EntryAt(t, offset, index).Some?
    requires KeyOf(t, EntryAt(t, offset, index).value.0, index < named).Some?
    requires var (encoded, target) := EntryAt(t, offset, index).value;
             && (target < HIGH_BIT) == (|path| == 2)
             && below == (if |path| < 2
                          then NodeCost(t, policy, target - HIGH_BIT, path + [KeyOf(t, encoded, index < named).value])
                          else LeafCost(t, policy, target, path[0] == Id(MANIFEST_TYPE)))
             && before.resources >= 1 && before.read >= 8 + KeyCost(t, encoded)
             && read == before.(resources := before.resources - 1, read := before.read - 8 - KeyCost(t, encoded))
    ensures Paid(below, read, after, orderBefore, order) ==>
              Paid(EntryCost(t, policy, offset, named, index, path), before, after, orderBefore, order)
    ensures Barred(below, read, orderBefore) ==>
            Barred(EntryCost(t, policy, offset, named, index, path), before, orderBefore)
  {
    hide EntryAt, KeyOf, KeyCost, NodeCost, LeafCost, NoTwice;
    if below.Some? { assert [] + below.value.dirs == below.value.dirs; }
  }

  lemma Revisited(t: Tree, policy: Bytes -> bool, offset: nat, path: seq<Key>, visited: set<nat>, left: Budget,
                  order: seq<nat>)
    requires |path| < 3 && VisitedOnce(visited, order) && offset in visited
    ensures Barred(NodeCost(t, policy, offset, path), left, order)
  {
    hide HeaderAt, EntriesCost;
    var c := NodeCost(t, policy, offset, path);
    if c.Some? {
      var i :| 0 <= i < |order| && order[i] == offset;
      var all := order + c.value.dirs;
      assert all[i] == offset == all[|order|];
    }
  }

  lemma Headless(t: Tree, policy: Bytes -> bool, offset: nat, path: seq<Key>, left: Budget, order: seq<nat>)
    requires |path| < 3 && (HeaderAt(t, offset) == None || left.read < 16)
    ensures Barred(NodeCost(t, policy, offset, path), left, order)
  {
    hide HeaderAt, EntriesCost;
  }

  lemma NodeStarts(t: Tree, policy: Bytes -> bool, offset: nat, path: seq<Key>, header: (nat, nat), before: Budget,
                   left: Budget,
                   orderBefore: seq<nat>, order: seq<nat>)
    requires |path| < 3 && 16 <= before.read && left == before.(read := before.read - 16)
    requires order == orderBefore + [offset] && exists visited: set<nat> :: VisitedOnce(visited, order)
    ensures Paid(CostTo(t, policy, offset, header.0, path, 0), before, left, orderBefore, order)
    ensures KeysTo(t, offset, header.0, 0) == {}
  {
    assert [offset] + [] == [offset];
  }

  /** The first entries cost no more than all of them, and enter the same directories first. */
  lemma {:induction false} EntriesPrefix(t: Tree, policy: Bytes -> bool, offset: nat, named: nat, path: seq<Key>,
                                         k: nat, n: nat)
    requires |path| < 3 && k <= n && EntriesCost(t, policy, offset, named, path, n).Some?
    ensures EntriesCost(t, policy, offset, named, path, k).Some?
    ensures var some, all := EntriesCost(t, policy, offset, named, path, k).value,
            EntriesCost(t, policy, offset, named, path, n).value;
            && some.read <= all.read && some.resources <= all.resources && some.manifests <= all.manifests
               && some.dirs <= all.dirs
  {
    hide EntryCost, Repeats;
    if k < n { EntriesPrefix(t, policy, offset, named, path, k, n - 1); }
  }

  lemma EntryPaid(t: Tree, policy: Bytes -> bool, offset: nat, header: (nat, nat), path: seq<Key>, index: nat,
                  before: Budget,
                  left: Budget, after: Budget, orderBefore: seq<nat>, entered: seq<nat>, order: seq<nat>,
                    e: Option<Error>)
    requires |path| < 3 && HeaderAt(t, offset) == Some(header) && index < header.0 + header.1
    requires Paid(CostTo(t, policy, offset, header.0, path, index), before, left, orderBefore, entered)
    requires var c := EntryCost(t, policy, offset, header.0, index, path);
             if e.None? then Paid(c, left, after, entered, order) && !Repeats(t, offset, header.0, index)
             else Barred(c, left, entered) || Repeats(t, offset, header.0, index)
    ensures e.None? ==> Paid(CostTo(t, policy, offset, header.0, path, index + 1), before, after, orderBefore, order)
    ensures e.Some? ==> Barred(NodeCost(t, policy, offset, path), before, orderBefore)
  {
    hide EntryCost, Repeats, HeaderAt, NoTwice;
    var c, so := EntryCost(t, policy, offset, header.0, index, path),
        EntriesCost(t, policy, offset, header.0, path, index).value;
    if e.None? {
      assert orderBefore + ([offset] + (so.dirs + c.value.dirs)) == (orderBefore + ([offset] + so.dirs)) + c.value.dirs;
    } else {
      EntryBars(t, policy, offset, header, path, index, before, left, orderBefore, entered);
    }
  }

  lemma EntriesStep(t: Tree, policy: Bytes -> bool, offset: nat, named: nat, path: seq<Key>, k: nat)
    requires |path| < 3 && EntriesCost(t, policy, offset, named, path, k + 1).Some?
    ensures EntriesCost(t, policy, offset, named, path, k).Some? && EntryCost(t, policy, offset, named, k, path).Some?
    ensures !Repeats(t, offset, named, k)
    ensures EntriesCost(t, policy, offset, named, path, k + 1).value
            == Plus(EntriesCost(t, policy, offset, named, path, k).value,
                    EntryCost(t, policy, offset, named, k, path).value)
  {
    hide EntryCost, Repeats;
  }

  /** If the whole directory can be walked, so can its next entry. */
  lemma EntryBars(t: Tree, policy: Bytes -> bool, offset: nat, header: (nat, nat), path: seq<Key>, index: nat,
                  before: Budget,
                  left: Budget, orderBefore: seq<nat>, entered: seq<nat>)
    requires |path| < 3 && HeaderAt(t, offset) == Some(header) && index < header.0 + header.1
    requires Paid(CostTo(t, policy, offset, header.0, path, index), before, left, orderBefore, entered)
    requires Barred(EntryCost(t, policy, offset, header.0, index, path), left, entered)
             || Repeats(t, offset, header.0, index)
    ensures Barred(NodeCost(t, policy, offset, path), before, orderBefore)
  {
    hide EntryCost, Repeats, HeaderAt, NoTwice, EntriesCost, NodeCost;
    NodeCosts(t, policy, offset, path, header);
    var n := header.0 + header.1;
    if !Barred(NodeCost(t, policy, offset, path), before, orderBefore) {
      EntriesPrefix(t, policy, offset, header.0, path, index + 1, n);
      EntriesStep(t, policy, offset, header.0, path, index);
      var so, more, all := EntriesCost(t, policy, offset, header.0, path, index).value,
        EntriesCost(t, policy, offset, header.0, path, index + 1).value,
          EntriesCost(t, policy, offset, header.0, path, n).value;
      StillCovered(offset, so, EntryCost(t, policy, offset, header.0, index, path).value, all, before, left,
                   orderBefore, entered);
    }
  }

  lemma StillCovered(offset: nat, so: Cost, c: Cost, all: Cost, before: Budget, left: Budget, orderBefore: seq<nat>,
                     entered: seq<nat>)
    requires var more := Plus(so, c);
             more.read <= all.read && more.resources <= all.resources && more.manifests <= all.manifests
               && more.dirs <= all.dirs
    requires Covered(Plus(Cost([offset], 16, 0, 0), all), before, orderBefore)
    requires Paid(Some(Plus(Cost([offset], 16, 0, 0), so)), before, left, orderBefore, entered)
    ensures Covered(c, left, entered)
  {
    hide NoTwice;
    var whole, n := orderBefore + ([offset] + all.dirs), |orderBefore| + 1 + |so.dirs + c.dirs|;
    assert entered + c.dirs == orderBefore + ([offset] + (so.dirs + c.dirs)) == whole[..n];
    NoTwicePrefix(whole, n);
  }

  lemma NoTwicePrefix(order: seq<nat>, n: nat)
    requires NoTwice(order) && n <= |order|
    ensures NoTwice(order[..n])
  {}

  lemma NodeCosts(t: Tree, policy: Bytes -> bool, offset: nat, path: seq<Key>, header: (nat, nat))
    requires |path| < 3 && HeaderAt(t, offset) == Some(header)
    ensures NodeCost(t, policy, offset, path) == CostTo(t, policy, offset, header.0, path, header.0 + header.1)
  {
    hide HeaderAt, EntriesCost;
  }

  // ----- one entry's share of the walk ------------------------------------------------------

  /** What the entry at `index` contributes. */
  ghost predicate Share(t: Tree, offset: nat, index: nat, path: seq<Key>, name: Key, sub: seq<Leaf>) {
    && Below(sub, path + [name])
    && forall keys: seq<Key>, d: Data :: |keys| == 3 - |path| ==>
       (StepLeads(t, offset, index, keys, d) <==> Leaf(path + keys, d) in sub)
  }

  lemma ThroughName(path: seq<Key>, name: Key, keys: seq<Key>, d: Data, sub: seq<Leaf>)
    requires Below(sub, path + [name]) && keys != []
    ensures Leaf(path + keys, d) in sub ==> keys[0] == name
    ensures keys[0] == name ==> path + keys == (path + [name]) + keys[1..]
  {
    if Leaf(path + keys, d) in sub {
      assert path + [name] <= path + keys;
      assert (path + keys)[|path|] == (path + [name])[|path|];
    }
    if keys[0] == name { assert keys == [name] + keys[1..]; }
  }

  /** A subdirectory's share is what the directory it points at leads to. */
  lemma DirectoryShare(t: Tree, offset: nat, index: nat, path: seq<Key>, name: Key, target: nat, sub: seq<Leaf>)
    requires |path| < 2 && HeaderAt(t, offset).Some?
             && index < HeaderAt(t, offset).value.0 + HeaderAt(t, offset).value.1
    requires EntryAt(t, offset, index).Some? && EntryAt(t, offset, index).value.1 == target && target >= HIGH_BIT
    requires KeyOf(t, EntryAt(t, offset, index).value.0, index < HeaderAt(t, offset).value.0) == Some(name)
    requires Below(sub, path + [name]) && Complete(t, target - HIGH_BIT, path + [name], sub)
    ensures Share(t, offset, index, path, name, sub)
  {
    hide HeaderAt, EntryAt, KeyOf, DataAt, Leads, Below;
    forall keys: seq<Key>, d: Data | |keys| == 3 - |path|
      ensures StepLeads(t, offset, index, keys, d) <==> Leaf(path + keys, d) in sub
    {
      ThroughName(path, name, keys, d, sub);
      assert |keys[1..]| == 3 - |path + [name]|;
      assert Leads(t, target - HIGH_BIT, keys[1..], d) <==> Leaf((path + [name]) + keys[1..], d) in sub;
    }
  }

  /** A data entry's share is its one leaf. */
  lemma LeafShare(t: Tree, offset: nat, index: nat, path: seq<Key>, name: Key, target: nat, leaf: Leaf)
    requires |path| == 2 && HeaderAt(t, offset).Some?
             && index < HeaderAt(t, offset).value.0 + HeaderAt(t, offset).value.1
    requires EntryAt(t, offset, index).Some? && EntryAt(t, offset, index).value.1 == target && target < HIGH_BIT
    requires KeyOf(t, EntryAt(t, offset, index).value.0, index < HeaderAt(t, offset).value.0) == Some(name)
    requires DataAt(t, target) == Some(leaf.data) && leaf.path == path + [name]
    ensures Share(t, offset, index, path, name, [leaf])
  {
    hide HeaderAt, EntryAt, KeyOf, DataAt;
    forall keys: seq<Key>, d: Data | |keys| == 3 - |path|
      ensures StepLeads(t, offset, index, keys, d) <==> Leaf(path + keys, d) in [leaf]
    {
      assert keys == [keys[0]];
      assert (path + keys)[2] == keys[0] && (path + [name])[2] == name;
    }
  }

  /** Shares of entries with different keys add up. */
  lemma SharesAdd(t: Tree, offset: nat, index: nat, path: seq<Key>, name: Key, keys: set<Key>, found: seq<Leaf>,
                  sub: seq<Leaf>)
    requires |path| < 3 && name !in keys && Below(found, path) && Keyed(found, |path|, keys)
    requires CompleteTo(t, offset, path, found, index) && Share(t, offset, index, path, name, sub)
    ensures Below(found + sub, path) && Keyed(found + sub, |path|, keys + {name})
    ensures CompleteTo(t, offset, path, found + sub, index + 1)
  {
    hide StepLeads;
    forall l | l in sub ensures |l.path| == 3 && path <= l.path && l.path[|path|] == name {
      assert path + [name] <= l.path;
      assert l.path[|path|] == (path + [name])[|path|];
    }
    forall i, j | 0 <= i < j < |found + sub| ensures (found + sub)[i].path != (found + sub)[j].path {
      if i < |found| <= j {
        assert found[i] in found && sub[j - |found|] in sub;
      }
    }
    forall ks: seq<Key>, d: Data | |ks| == 3 - |path|
      ensures (exists k: nat :: k < index + 1 && StepLeads(t, offset, k, ks, d)) <==> Leaf(path + ks, d) in found + sub
    {
      assert (exists k: nat :: k < index + 1 && StepLeads(t, offset, k, ks, d))
         <==> (exists k: nat :: k < index && StepLeads(t, offset, k, ks, d)) || StepLeads(t, offset, index, ks, d);
    }
  }

  lemma NothingFound(t: Tree, offset: nat, path: seq<Key>)
    ensures Below([], path) && Keyed([], |path|, {}) && CompleteTo(t, offset, path, [], 0)
  {}

  lemma AllFound(t: Tree, offset: nat, path: seq<Key>, found: seq<Leaf>, n: nat)
    requires |path| < 3 && CompleteTo(t, offset, path, found, n) && HeaderAt(t, offset).Some?
    requires n == HeaderAt(t, offset).value.0 + HeaderAt(t, offset).value.1
    ensures Complete(t, offset, path, found)
  {
    hide HeaderAt, EntryAt, KeyOf, DataAt;
    forall keys: seq<Key>, d: Data | |keys| == 3 - |path|
      ensures Leads(t, offset, keys, d) <==> Leaf(path + keys, d) in found
    {
      assert forall index: nat :: StepLeads(t, offset, index, keys, d) ==> index < n;
    }
  }

  // ----- the whole inspection ----------------------------------------------------------------

  datatype Directories = Directories(
    architecture: Architecture, ordinary: seq<Module>, delay: seq<Module>, resources: seq<Leaf>, manifests: seq<Leaf>)

  /** What a successful inspection says about an image, under one set of budgets. */
  ghost predicate Describes(m: Image, policy: Bytes -> bool, d: Directories) {
    && Accepted(m) && d.architecture == m.architecture && |m.directories| >= 14 && m.directories[11] == (0, 0)
    && (if m.directories[1].1 == 0 then d.ordinary == []
        else ImportsMean(m, m.directories[1].0, m.directories[1].1, false, d.ordinary))
    && (if m.directories[13].1 == 0 then d.delay == []
        else ImportsMean(m, m.directories[13].0, m.directories[13].1, true, d.delay))
    && Listed(Tree(m, m.directories[2].0, m.directories[2].1), d.resources) && d.manifests == Manifests(d.resources)
       && d.manifests != []
    && Permitted(d.manifests, policy)
    && |d.ordinary| + |d.delay| <= MODULE_LIMIT && TotalSymbols(d.ordinary) + TotalSymbols(d.delay) <= SYMBOL_LIMIT
    && 2 * |d.resources| <= RESOURCE_LIMIT && TotalSize(d.manifests) <= MANIFEST_TOTAL_LIMIT
  }

  /** A declared pair is both zero or neither, and a declared range is complete in one region. */
  predicate PairOK(m: Image, pair: (nat, nat)) {
    (pair.0 != 0) == (pair.1 != 0) && (pair.1 != 0 ==> Content(m, pair.0, pair.1).Some?)
  }

  predicate PairsOK(m: Image) {
    && |m.directories| >= 14 && PairOK(m, m.directories[1]) && PairOK(m, m.directories[2])
    && PairOK(m, m.directories[11]) && PairOK(m, m.directories[13]) && m.directories[11] == (0, 0)
  }

  method CheckPairs(inspection: Inspection) returns (e: Option<Error>)
    requires inspection.Valid()
    ensures e.None? <==> PairsOK(inspection.pe)
  {
    hide Accepted, Content;
    var ds := inspection.pe.directories;
    if |ds| < 14 { return Some(DirectoryNotDeclared); }
    var indices := [1, 2, 11, 13];
    for i := 0 to 4
      invariant forall k :: 0 <= k < i ==> PairOK(inspection.pe, ds[indices[k]])
    {
      e := CheckPair(inspection, ds[indices[i]]);
      if e.Some? {
        assert !PairOK(inspection.pe, ds[indices[i]]);
        return;
      }
    }
    assert forall k :: 0 <= k < 4 ==> PairOK(inspection.pe, ds[indices[k]]);
    assert indices[0] == 1 && indices[1] == 2 && indices[2] == 11 && indices[3] == 13;
    if ds[11] != (0, 0) { return Some(UnsupportedBoundImport); }
    e := None;
  }

  method CheckPair(inspection: Inspection, pair: (nat, nat)) returns (e: Option<Error>)
    requires inspection.Valid()
    ensures e.None? <==> PairOK(inspection.pe, pair)
  {
    hide Accepted, Content;
    var (rva, size) := pair;
    if (rva != 0) != (size != 0) { return Some(DirectoryPairInvalid); }
    e := None;
    if size != 0 { e := inspection.Check(rva, size); }
  }

  /** The modules a declared pair stands for; none at all if it is absent. */
  ghost predicate TableMeans(m: Image, pair: (nat, nat), delay: bool, modules: seq<Module>) {
    if pair.1 == 0 then modules == [] else ImportsMean(m, pair.0, pair.1, delay, modules)
  }

  predicate TableAfforded(b: Budget, m: Image, pair: (nat, nat), delay: bool, modules: seq<Module>) {
    pair.1 == 0 || Affords(b, m, pair.0, delay, modules)
  }

  /** What reading them leaves. */
  function AfterTable(b: Budget, m: Image, pair: (nat, nat), delay: bool, modules: seq<Module>): (after: Budget)
    requires TableAfforded(b, m, pair, delay, modules)
  {
    if pair.1 == 0 then b
    else b.(read := b.read - DescriptorsCost(m, pair.0, delay, modules) - Stride(delay),
            modules := b.modules - |modules|, symbols := b.symbols - TotalSymbols(modules))
  }

  /** Both import tables and the resources can be read in this order, out of one set of budgets. */
  ghost predicate Readable(m: Image, policy: Bytes -> bool, ordinary: seq<Module>, delay: seq<Module>)
    requires |m.directories| >= 14
  {
    var ds := m.directories;
    && TableMeans(m, ds[1], false, ordinary) && TableMeans(m, ds[13], true, delay)
    && TableAfforded(FULL, m, ds[1], false, ordinary)
    && var left := AfterTable(FULL, m, ds[1], false, ordinary);
    && TableAfforded(left, m, ds[13], true, delay)
    && Walkable(Tree(m, ds[2].0, ds[2].1), policy, AfterTable(left, m, ds[13], true, delay))
  }

  ghost predicate Inspectable(m: Image, policy: Bytes -> bool) {
    && Accepted(m) && PairsOK(m)
    && exists ordinary: seq<Module>, delay: seq<Module> :: Readable(m, policy, ordinary, delay)
  }

  lemma TablesAreUnique(m: Image, pair: (nat, nat), delay: bool, modules: seq<Module>)
    requires Accepted(m) && TableMeans(m, pair, delay, modules)
    ensures forall others: seq<Module> :: TableMeans(m, pair, delay, others) ==> others == modules
  {
    hide Accepted, ImportsMean;
    forall others: seq<Module> | TableMeans(m, pair, delay, others) ensures others == modules {
      if pair.1 != 0 { ImportsAreUnique(m, pair.0, pair.1, delay, modules, others); }
    }
  }

  /** `inspect_directories` on an accepted image. */
  method InspectImage(m: Image, policy: Bytes -> bool) returns (r: Result<Directories, Error>)
    requires Accepted(m)
    ensures r.Ok? <==> Inspectable(m, policy)
    ensures r.Ok? ==> Describes(m, policy, r.value)
  {
    hide Accepted, Content, ImportsMean, Listed, TotalSymbols, TotalSize, Manifests, Permitted, VisitedOnce, PairOK,
      DescriptorsCost, Walkable;
    var context := new Inspection(m);
    var e := CheckPairs(context);
    if e.Some? { return Err(e.value); }
    var ds := m.directories;
    var ordinary := context.Imports(ds[1].0, ds[1].1, false);
    if ordinary.Err? { return Err(ordinary.error); }
    TablesAreUnique(m, ds[1], false, ordinary.value);
    assert context.left == AfterTable(FULL, m, ds[1], false, ordinary.value);
    var delay := context.Imports(ds[13].0, ds[13].1, true);
    if delay.Err? { return Err(delay.error); }
    TablesAreUnique(m, ds[13], true, delay.value);
    var walk := new Walk(context, ds[2].0, ds[2].1, policy);
    NoManifests();
    e := walk.Resources();
    if e.Some? { return Err(e.value); }
    assert Readable(m, policy, ordinary.value, delay.value);
    r := Ok(Directories(m.architecture, ordinary.value, delay.value, walk.leaves, walk.manifests));
  }

  /** `inspect_directories`: it succeeds exactly on an accepted image whose directories can all be read. */
  method Inspect(image: Bytes, expected: Architecture, policy: Bytes -> bool)
    returns (r: Result<Directories, Error>, m: Image)
    ensures r.Ok? <==> m.bytes == image && m.architecture == expected && Inspectable(m, policy)
    ensures r.Ok? ==> Describes(m, policy, r.value)
    ensures m.bytes != image || m.architecture != expected || !Accepted(m) ==>
              forall other: Image :: other.bytes == image && other.architecture == expected ==> !Accepted(other)
  {
    hide Accepted, Describes, PairsOK, Readable;
    var parsed := Parse(image, expected);
    m := Image([], expected, [], 0, [], []);
    if parsed.Err? { return Err(Format(parsed.error)), m; }
    m := parsed.value;
    r := InspectImage(m, policy);
  }

  lemma NoManifests()
    ensures TotalSize([]) == 0 && Manifests([]) == []
  {}
}
