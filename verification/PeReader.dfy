/**
 Bounded PE32+ headers ("PE Format", sections "DOS header" to "Section Table (Section Headers)")
 and reads of complete, file-backed RVA ranges.
 */
module PeReader {
  import opened Bytes

  const IMAGE_LIMIT: nat := 8 * 1024 * 1024
  const RVA_LIMIT: nat := 0x1_0000_0000
  const DOS_SIZE: nat := 64
  const COFF_SIZE: nat := 20
  const OPTIONAL_BASE_SIZE: nat := 112
  const SECTION_SIZE: nat := 40
  const SECTION_LIMIT: nat := 96
  const DIRECTORY_LIMIT: nat := 16

  datatype Reason =
    | ImageLimit | TruncatedHeaders | InvalidSignature | ArchitectureMismatch | UnsupportedSectionCount
    | UnsupportedDirectoryCount | InvalidHeaderRange | InvalidSectionRange | OverlappingSections
    | InvalidRvaRange | RvaNotFileBacked

  datatype Architecture = X64 | Arm64

  datatype Section = Section(va: nat, virtualSize: nat, rawSize: nat, rawStart: nat)

  /** RVAs `start` up to `end`, found in the file from `file` on. */
  datatype Region = Region(start: nat, end: nat, file: nat)

  datatype Span = Span(start: nat, end: nat)

  datatype Image = Image(
    bytes: Bytes, architecture: Architecture, directories: seq<(nat, nat)>, sizeOfImage: nat,
    sections: seq<Section>, regions: seq<Region>)

  // ----- overlap ------------------------------------------------------------------------

  predicate Apart(a: Span, b: Span) { a.end <= b.start || b.end <= a.start }

  predicate ClearOf(a: Span, spans: seq<Span>) { forall b :: b in spans ==> Apart(a, b) }

  /** No two spans share an address. */
  predicate Disjoint(spans: seq<Span>) {
    spans == [] || (ClearOf(spans[0], spans[1..]) && Disjoint(spans[1..]))
  }

  predicate NonEmpty(spans: seq<Span>) { forall s :: s in spans ==> s.start < s.end }

  predicate Before(a: Span, b: Span) { a.start < b.start || (a.start == b.start && a.end <= b.end) }

  predicate Ordered(spans: seq<Span>) { forall i, j :: 0 <= i < j < |spans| ==> Before(spans[i], spans[j]) }

  function Insert(a: Span, spans: seq<Span>): (r: seq<Span>) {
    if spans == [] || Before(a, spans[0]) then [a] + spans else [spans[0]] + Insert(a, spans[1..])
  }

  /** Python's `sorted`. */
  function Sorted(spans: seq<Span>): (r: seq<Span>) {
    if spans == [] then [] else Insert(spans[0], Sorted(spans[1..]))
  }

  lemma {:induction false} InsertMembers(a: Span, spans: seq<Span>)
    ensures forall s :: s in Insert(a, spans) <==> s == a || s in spans
  {
    if !(spans == [] || Before(a, spans[0])) {
      InsertMembers(a, spans[1..]);
      assert forall s :: s in spans <==> s == spans[0] || s in spans[1..];
    }
  }

  lemma {:induction false} InsertOrdered(a: Span, spans: seq<Span>)
    requires Ordered(spans)
    ensures Ordered(Insert(a, spans))
  {
    if !(spans == [] || Before(a, spans[0])) {
      var rest := Insert(a, spans[1..]);
      forall i, j | 0 <= i < j < |spans| - 1 ensures Before(spans[1..][i], spans[1..][j]) {
        assert Before(spans[i + 1], spans[j + 1]);
      }
      InsertOrdered(a, spans[1..]);
      InsertMembers(a, spans[1..]);
      forall j | 0 < j < |[spans[0]] + rest| ensures Before(spans[0], ([spans[0]] + rest)[j]) {
        var s := rest[j - 1];
        assert s in rest;
        if s != a {
          var k :| 0 <= k < |spans| - 1 && spans[1..][k] == s;
          assert Before(spans[0], spans[k + 1]);
        }
      }
    } else if spans != [] {
      forall j | 0 < j <= |spans| ensures Before(a, ([a] + spans)[j]) {
        if j > 1 { assert Before(spans[0], spans[j - 1]); }
      }
    }
  }

  lemma {:induction false} InsertDisjoint(a: Span, spans: seq<Span>)
    ensures Disjoint(Insert(a, spans)) <==> ClearOf(a, spans) && Disjoint(spans)
  {
    if spans == [] || Before(a, spans[0]) {
      assert ([a] + spans)[1..] == spans;
    } else {
      var rest := Insert(a, spans[1..]);
      InsertDisjoint(a, spans[1..]);
      InsertMembers(a, spans[1..]);
      assert ([spans[0]] + rest)[1..] == rest;
      assert ClearOf(spans[0], rest) <==> Apart(spans[0], a) && ClearOf(spans[0], spans[1..]) by {
        assert a in rest;
        assert forall s :: s in spans[1..] ==> s in rest;
      }
      assert ClearOf(a, spans) <==> Apart(a, spans[0]) && ClearOf(a, spans[1..]) by {
        assert forall s :: s in spans <==> s == spans[0] || s in spans[1..];
      }
    }
  }

  lemma {:induction false} SortedFacts(spans: seq<Span>)
    ensures Ordered(Sorted(spans)) && (forall s :: s in Sorted(spans) <==> s in spans)
    ensures Disjoint(Sorted(spans)) <==> Disjoint(spans)
  {
    if spans != [] {
      SortedFacts(spans[1..]);
      InsertOrdered(spans[0], Sorted(spans[1..]));
      InsertMembers(spans[0], Sorted(spans[1..]));
      InsertDisjoint(spans[0], Sorted(spans[1..]));
      assert forall s :: s in spans <==> s == spans[0] || s in spans[1..];
    }
  }

  /** Each span of an ordered list starts where the one before it ended, or later. */
  predicate Chained(spans: seq<Span>, from: nat) {
    spans == [] || (from <= spans[0].start && Chained(spans[1..], spans[0].end))
  }

  /** The running-end test decides disjointness, once the spans are sorted and none is empty. */
  lemma {:induction false} ChainIsDisjointness(spans: seq<Span>, from: nat)
    requires Ordered(spans) && NonEmpty(spans)
    ensures Chained(spans, from) <==> Disjoint(spans) && forall s :: s in spans ==> from <= s.start
  {
    if spans != [] {
      var first, rest := spans[0], spans[1..];
      forall i, j | 0 <= i < j < |rest| ensures Before(rest[i], rest[j]) {
        assert Before(spans[i + 1], spans[j + 1]);
      }
      assert forall s :: s in spans <==> s == first || s in rest;
      ChainIsDisjointness(rest, first.end);
      forall s | s in rest ensures Before(first, s) && (Apart(first, s) <==> first.end <= s.start) {
        var k :| 0 <= k < |rest| && rest[k] == s;
        assert Before(spans[0], spans[k + 1]);
      }
    }
  }

  /** `_reject_overlaps`. */
  method RejectOverlaps(spans: seq<Span>) returns (ok: bool)
    requires NonEmpty(spans)
    ensures ok <==> Disjoint(spans)
  {
    var ordered, previousEnd := Sorted(spans), 0;
    SortedFacts(spans);
    ChainIsDisjointness(ordered, 0);
    assert ordered[0..] == ordered;
    for i := 0 to |ordered|
      invariant Chained(ordered, 0) <==> Chained(ordered[i..], previousEnd)
    {
      assert ordered[i..][1..] == ordered[i + 1..];
      if ordered[i].start < previousEnd { return false; }
      previousEnd := ordered[i].end;
    }
    ok := true;
  }

  lemma {:induction false} PairApart(spans: seq<Span>, i: nat, j: nat)
    requires Disjoint(spans) && i < j < |spans|
    ensures Apart(spans[i], spans[j])
  {
    if i == 0 {
      assert spans[1..][j - 1] in spans[1..];
    } else {
      PairApart(spans[1..], i - 1, j - 1);
    }
  }

  /** Disjoint spans hold every address at most once. */
  lemma OneSpanPerAddress(spans: seq<Span>, i: nat, j: nat, x: nat)
    requires Disjoint(spans) && i < |spans| && j < |spans|
    requires spans[i].start <= x < spans[i].end && spans[j].start <= x < spans[j].end
    ensures i == j
  {
    if i < j { PairApart(spans, i, j); }
    if j < i { PairApart(spans, j, i); }
  }

  // ----- the headers ----------------------------------------------------------------------

  /** `_unpack` of one little-endian word; `None` is `truncated_headers`. */
  function Word(image: Bytes, at: nat, size: nat): (w: Option<nat>) {
    if at + size <= |image| then Some(LittleEndian(image[at..at + size])) else None
  }

  function MachineOf(code: nat): (a: Option<Architecture>) {
    if code == 0x8664 then Some(X64) else if code == 0xAA64 then Some(Arm64) else None
  }

  /** Where the headers put things, once they have been accepted. */
  datatype Layout = Layout(
    optional: nat, table: nat, sectionCount: nat, directoryCount: nat, sizeOfImage: nat, sizeOfHeaders: nat)

  /** The first part: up to the machine and the section count. */
  predicate CoffOK(image: Bytes, expected: Architecture, coff: nat, sections: nat, optionalSize: nat) {
    && DOS_SIZE <= |image| <= IMAGE_LIMIT && image[..2] == [0x4D, 0x5A]
    && Word(image, 0x3C, 4) == Some(coff - 4) && coff >= DOS_SIZE + 4 && coff + COFF_SIZE <= |image|
    && image[coff - 4..coff] == [0x50, 0x45, 0, 0]
    && Word(image, coff, 2).Some? && MachineOf(Word(image, coff, 2).value) == Some(expected)
    && Word(image, coff + 2, 2) == Some(sections) && 1 <= sections <= SECTION_LIMIT
    && Word(image, coff + 16, 2) == Some(optionalSize)
  }

  /** The second: the optional header and the room for its directories and the section table. */
  predicate OptionalOK(image: Bytes, coff: nat, optionalSize: nat, l: Layout) {
    && l.optional == coff + COFF_SIZE && l.table == l.optional + optionalSize
    && OPTIONAL_BASE_SIZE <= optionalSize && l.table <= |image| && Word(image, l.optional, 2) == Some(0x20B)
    && Word(image, l.optional + 108, 4) == Some(l.directoryCount) && l.directoryCount <= DIRECTORY_LIMIT
    && OPTIONAL_BASE_SIZE + 8 * l.directoryCount <= optionalSize
    && l.table + SECTION_SIZE * l.sectionCount <= |image|
    && Word(image, l.optional + 56, 4) == Some(l.sizeOfImage)
       && Word(image, l.optional + 60, 4) == Some(l.sizeOfHeaders)
    && 0 < l.sizeOfImage && l.table + SECTION_SIZE * l.sectionCount <= l.sizeOfHeaders <= |image|
    && 0 < l.sizeOfHeaders <= l.sizeOfImage
  }

  ghost predicate HeadersOK(image: Bytes, expected: Architecture, l: Layout) {
    exists coff: nat, optionalSize: nat ::
      CoffOK(image, expected, coff, l.sectionCount, optionalSize) && OptionalOK(image, coff, optionalSize, l)
  }

  // ----- the sections ---------------------------------------------------------------------

  function SectionAt(image: Bytes, table: nat, i: nat): (s: Section)
    requires table + SECTION_SIZE * (i + 1) <= |image|
  {
    var at := table + i * SECTION_SIZE + 8;
    Section(LittleEndian(image[at + 4..at + 8]), LittleEndian(image[at..at + 4]),
            LittleEndian(image[at + 8..at + 12]), LittleEndian(image[at + 12..at + 16]))
  }

  /** A zero virtual size stands for the raw size. */
  function Extent(s: Section): (n: nat) { if s.virtualSize != 0 then s.virtualSize else s.rawSize }

  function Backed(s: Section): (n: nat) { if s.rawSize <= Extent(s) then s.rawSize else Extent(s) }

  predicate SectionOK(s: Section, size: nat, sizeOfImage: nat) {
    && (s.rawSize > 0 ==> s.rawStart + s.rawSize <= size)
    && (Extent(s) > 0 ==> s.va + Extent(s) <= sizeOfImage && s.va + Extent(s) <= RVA_LIMIT)
  }

  function RawSpan(s: Section): (r: seq<Span>) {
    if s.rawSize > 0 then [Span(s.rawStart, s.rawStart + s.rawSize)] else []
  }

  function VirtualSpan(s: Section): (r: seq<Span>) {
    if Extent(s) > 0 then [Span(s.va, s.va + Extent(s))] else []
  }

  function RegionOf(s: Section): (r: seq<Region>) {
    if Backed(s) > 0 then [Region(s.va, s.va + Backed(s), s.rawStart)] else []
  }

  /** The headers' own range and every section's, in table order. */
  function RawSpans(ss: seq<Section>, headers: nat): (r: seq<Span>) {
    if ss == [] then [Span(0, headers)] else RawSpans(ss[..|ss| - 1], headers) + RawSpan(ss[|ss| - 1])
  }

  function VirtualSpans(ss: seq<Section>, headers: nat): (r: seq<Span>) {
    if ss == [] then [Span(0, headers)] else VirtualSpans(ss[..|ss| - 1], headers) + VirtualSpan(ss[|ss| - 1])
  }

  function Regions(ss: seq<Section>, headers: nat): (r: seq<Region>) {
    if ss == [] then [Region(0, headers, 0)] else Regions(ss[..|ss| - 1], headers) + RegionOf(ss[|ss| - 1])
  }

  function SectionsOf(image: Bytes, table: nat, count: nat): (ss: seq<Section>)
    requires table + SECTION_SIZE * count <= |image|
    ensures |ss| == count
  {
    seq(count, i requires 0 <= i < count => SectionAt(image, table, i))
  }

  function DirectoryAt(image: Bytes, optional: nat, i: nat): (d: (nat, nat))
    requires optional + OPTIONAL_BASE_SIZE + 8 * (i + 1) <= |image|
  {
    var at := optional + OPTIONAL_BASE_SIZE + 8 * i;
    (LittleEndian(image[at..at + 4]), LittleEndian(image[at + 4..at + 8]))
  }

  /** An accepted image: every header in range, every section in range, no address claimed twice. */
  ghost predicate Accepted(m: Image) {
    exists l: Layout ::
      && HeadersOK(m.bytes, m.architecture, l)
      && l.table + SECTION_SIZE * l.sectionCount <= |m.bytes| && m.sizeOfImage == l.sizeOfImage
      && m.sections == SectionsOf(m.bytes, l.table, l.sectionCount)
      && (forall s :: s in m.sections ==> SectionOK(s, |m.bytes|, l.sizeOfImage))
      && Disjoint(RawSpans(m.sections, l.sizeOfHeaders)) && Disjoint(VirtualSpans(m.sections, l.sizeOfHeaders))
      && m.regions == Regions(m.sections, l.sizeOfHeaders)
      && l.optional + OPTIONAL_BASE_SIZE + 8 * l.directoryCount <= |m.bytes|
      && |m.directories| == l.directoryCount
      && (forall i :: 0 <= i < l.directoryCount ==> m.directories[i] == DirectoryAt(m.bytes, l.optional, i))
  }

  lemma CoffUnique(image: Bytes, expected: Architecture, coff: nat, n: nat, size: nat, coff': nat, n': nat, size': nat)
    requires CoffOK(image, expected, coff, n, size) && CoffOK(image, expected, coff', n', size')
    ensures coff == coff' && n == n' && size == size'
  {}

  lemma LayoutUnique(image: Bytes, expected: Architecture, l: Layout, l': Layout)
    requires HeadersOK(image, expected, l) && HeadersOK(image, expected, l')
    ensures l == l'
  {
    hide CoffOK, Word;
    var coff: nat, size: nat :| CoffOK(image, expected, coff, l.sectionCount, size) && OptionalOK(image, coff, size, l);
    var coff': nat, size': nat :| CoffOK(image, expected, coff', l'.sectionCount, size')
        && OptionalOK(image, coff', size', l');
    CoffUnique(image, expected, coff, l.sectionCount, size, coff', l'.sectionCount, size');
  }

  /** The DOS and COFF headers, in the order the source checks them. */
  method ReadCoff(image: Bytes, expected: Architecture) returns (r: Result<(nat, nat, nat), Reason>)
    ensures r.Ok? ==> CoffOK(image, expected, r.value.0, r.value.1, r.value.2)
    ensures r.Err? ==> forall coff: nat, n: nat, size: nat :: !CoffOK(image, expected, coff, n, size)
  {
    if image == [] || |image| > IMAGE_LIMIT { return Err(ImageLimit); }
    if |image| < DOS_SIZE { return Err(TruncatedHeaders); }
    if image[..2] != [0x4D, 0x5A] { return Err(InvalidSignature); }
    var peOffset := Word(image, 0x3C, 4);
    if peOffset == None { return Err(TruncatedHeaders); }
    if peOffset.value < DOS_SIZE { return Err(InvalidHeaderRange); }
    if peOffset.value + 4 + COFF_SIZE > |image| { return Err(TruncatedHeaders); }
    var coff := peOffset.value + 4;
    if image[coff - 4..coff] != [0x50, 0x45, 0, 0] { return Err(InvalidSignature); }
    var machine, count := Word(image, coff, 2), Word(image, coff + 2, 2);
    if machine == None || count == None { return Err(TruncatedHeaders); }
    if MachineOf(machine.value) != Some(expected) { return Err(ArchitectureMismatch); }
    if !(1 <= count.value <= SECTION_LIMIT) { return Err(UnsupportedSectionCount); }
    var optionalSize := Word(image, coff + 16, 2);
    if optionalSize == None { return Err(TruncatedHeaders); }
    r := Ok((coff, count.value, optionalSize.value));
  }

  /** The optional header, the directory count and the two size fields. */
  method ReadOptional(image: Bytes, coff: nat, sectionCount: nat, optionalSize: nat) returns (r: Result<Layout, Reason>)
    ensures r.Ok? ==> r.value.sectionCount == sectionCount && OptionalOK(image, coff, optionalSize, r.value)
    ensures r.Err? ==> forall l: Layout :: l.sectionCount == sectionCount ==> !OptionalOK(image, coff, optionalSize, l)
  {
    hide LittleEndian;
    var optional := coff + COFF_SIZE;
    if optionalSize < OPTIONAL_BASE_SIZE { return Err(TruncatedHeaders); }
    if optional + optionalSize > |image| { return Err(TruncatedHeaders); }
    var magic := Word(image, optional, 2);
    if magic == None { return Err(TruncatedHeaders); }
    if magic.value != 0x20B { return Err(InvalidSignature); }
    var directories := Word(image, optional + 108, 4);
    if directories == None { return Err(TruncatedHeaders); }
    if directories.value > DIRECTORY_LIMIT { return Err(UnsupportedDirectoryCount); }
    if OPTIONAL_BASE_SIZE + 8 * directories.value > optionalSize { return Err(TruncatedHeaders); }
    var table := optional + optionalSize;
    var tableEnd := table + SECTION_SIZE * sectionCount;
    if tableEnd > |image| { return Err(TruncatedHeaders); }
    var size, headers := Word(image, optional + 56, 4), Word(image, optional + 60, 4);
    if size == None || headers == None { return Err(TruncatedHeaders); }
    if size.value == 0 || headers.value == 0 || headers.value < tableEnd || headers.value > |image|
      || headers.value > size.value {
      return Err(InvalidHeaderRange);
    }
    r := Ok(Layout(optional, table, sectionCount, directories.value, size.value, headers.value));
  }

  method ReadHeaders(image: Bytes, expected: Architecture) returns (r: Result<Layout, Reason>)
    ensures r.Ok? ==> HeadersOK(image, expected, r.value)
    ensures r.Err? ==> forall l: Layout :: !HeadersOK(image, expected, l)
  {
    hide CoffOK, OptionalOK;
    var c := ReadCoff(image, expected);
    if c.Err? { return Err(c.error); }
    var (coff, count, size) := c.value;
    r := ReadOptional(image, coff, count, size);
    if r.Err? {
      forall l: Layout ensures !HeadersOK(image, expected, l) {
        if HeadersOK(image, expected, l) {
          var coff': nat, size': nat :| CoffOK(image, expected, coff', l.sectionCount, size')
              && OptionalOK(image, coff', size', l);
          CoffUnique(image, expected, coff, count, size, coff', l.sectionCount, size');
        }
      }
    }
  }

  lemma RoomForTable(image: Bytes, expected: Architecture, l: Layout)
    requires HeadersOK(image, expected, l)
    ensures l.table + SECTION_SIZE * l.sectionCount <= |image|
    ensures l.optional + OPTIONAL_BASE_SIZE + 8 * l.directoryCount <= |image|
    ensures 0 < l.sizeOfHeaders <= |image| && l.sizeOfHeaders <= l.sizeOfImage
  {
    hide CoffOK, Word;
    var coff: nat, size: nat :| CoffOK(image, expected, coff, l.sectionCount, size) && OptionalOK(image, coff, size, l);
  }

  /** The section loop: the three lists it grows, or the first section out of range. */
  method ReadSections(image: Bytes, l: Layout)
    returns (ok: bool, sections: seq<Section>, raw: seq<Span>, virtual: seq<Span>, regions: seq<Region>)
    requires l.table + SECTION_SIZE * l.sectionCount <= |image| && l.sizeOfHeaders > 0
    ensures ok <==> forall s :: s in SectionsOf(image, l.table, l.sectionCount) ==> SectionOK(s, |image|, l.sizeOfImage)
    ensures ok ==>
              && sections == SectionsOf(image, l.table, l.sectionCount)
              && raw == RawSpans(sections, l.sizeOfHeaders) && virtual == VirtualSpans(sections, l.sizeOfHeaders)
              && regions == Regions(sections, l.sizeOfHeaders) && NonEmpty(raw) && NonEmpty(virtual)
  {
    hide SectionAt, SectionOK;
    ghost var all := SectionsOf(image, l.table, l.sectionCount);
    sections, raw, virtual := [], [Span(0, l.sizeOfHeaders)], [Span(0, l.sizeOfHeaders)];
    regions := [Region(0, l.sizeOfHeaders, 0)];
    for i := 0 to l.sectionCount
      invariant sections == all[..i] && (forall s :: s in sections ==> SectionOK(s, |image|, l.sizeOfImage))
      invariant raw == RawSpans(sections, l.sizeOfHeaders) && virtual == VirtualSpans(sections, l.sizeOfHeaders)
      invariant regions == Regions(sections, l.sizeOfHeaders) && NonEmpty(raw) && NonEmpty(virtual)
    {
      var s := SectionAt(image, l.table, i);
      assert all[i] == s && all[i] in all;
      if !SectionOK(s, |image|, l.sizeOfImage) { return false, sections, raw, virtual, regions; }
      assert (sections + [s])[..i] == sections;
      sections := sections + [s];
      raw, virtual, regions := raw + RawSpan(s), virtual + VirtualSpan(s), regions + RegionOf(s);
    }
    assert sections == all;
    ok := true;
  }

  method ReadDirectories(image: Bytes, l: Layout) returns (directories: seq<(nat, nat)>)
    requires l.optional + OPTIONAL_BASE_SIZE + 8 * l.directoryCount <= |image|
    ensures |directories| == l.directoryCount
    ensures forall i :: 0 <= i < l.directoryCount ==> directories[i] == DirectoryAt(image, l.optional, i)
  {
    directories := [];
    for i := 0 to l.directoryCount
      invariant |directories| == i
      invariant forall k :: 0 <= k < i ==> directories[k] == DirectoryAt(image, l.optional, k)
    {
      directories := directories + [DirectoryAt(image, l.optional, i)];
    }
  }

  /** `PeImage(image, expected_arch=…)`: an image is built exactly when an accepted one exists. */
  method Parse(image: Bytes, expected: Architecture) returns (r: Result<Image, Reason>)
    ensures r.Ok? ==> r.value.bytes == image && r.value.architecture == expected && Accepted(r.value)
    ensures r.Err? ==> forall m: Image :: m.bytes == image && m.architecture == expected ==> !Accepted(m)
  {
    hide HeadersOK, SectionOK, SectionsOf, RawSpans, VirtualSpans, Regions, DirectoryAt, Disjoint, NonEmpty;
    var headers := ReadHeaders(image, expected);
    if headers.Err? { return Err(headers.error); }
    var l := headers.value;
    RoomForTable(image, expected, l);
    var ok, sections, raw, virtual, regions := ReadSections(image, l);
    if !ok {
      Refused(image, expected, l);
      return Err(InvalidSectionRange);
    }
    var rawApart := RejectOverlaps(raw);
    var virtualApart := false;
    if rawApart { virtualApart := RejectOverlaps(virtual); }
    if !virtualApart {
      Refused(image, expected, l);
      return Err(OverlappingSections);
    }
    var directories := ReadDirectories(image, l);
    r := Ok(Image(image, expected, directories, l.sizeOfImage, sections, regions));
  }

  /** Any accepted image over these bytes has this layout. */
  lemma Refused(image: Bytes, expected: Architecture, l: Layout)
    requires HeadersOK(image, expected, l) && l.table + SECTION_SIZE * l.sectionCount <= |image|
    ensures forall m: Image :: m.bytes == image && m.architecture == expected && Accepted(m) ==>
              && m.sections == SectionsOf(image, l.table, l.sectionCount)
              && (forall s :: s in m.sections ==> SectionOK(s, |image|, l.sizeOfImage))
              && Disjoint(RawSpans(m.sections, l.sizeOfHeaders)) && Disjoint(VirtualSpans(m.sections, l.sizeOfHeaders))
  {
    hide HeadersOK, SectionOK, SectionsOf, RawSpans, VirtualSpans, Regions, DirectoryAt, Disjoint;
    forall m: Image | m.bytes == image && m.architecture == expected && Accepted(m)
      ensures m.sections == SectionsOf(image, l.table, l.sectionCount)
      ensures forall s :: s in m.sections ==> SectionOK(s, |image|, l.sizeOfImage)
      ensures Disjoint(RawSpans(m.sections, l.sizeOfHeaders)) && Disjoint(VirtualSpans(m.sections, l.sizeOfHeaders))
    {
      var k: Layout :| HeadersOK(m.bytes, m.architecture, k)
                       && k.table + SECTION_SIZE * k.sectionCount <= |m.bytes| && m.sizeOfImage == k.sizeOfImage
                       && m.sections == SectionsOf(m.bytes, k.table, k.sectionCount)
                       && (forall s :: s in m.sections ==> SectionOK(s, |m.bytes|, k.sizeOfImage))
                       && Disjoint(RawSpans(m.sections, k.sizeOfHeaders))
                          && Disjoint(VirtualSpans(m.sections, k.sizeOfHeaders));
      LayoutUnique(image, expected, l, k);
    }
  }

  // ----- regions ----------------------------------------------------------------------------

  predicate RvaApart(a: Region, b: Region) { a.end <= b.start || b.end <= a.start }

  predicate FileApart(a: Region, b: Region) {
    a.file + (a.end - a.start) <= b.file || b.file + (b.end - b.start) <= a.file
  }

  predicate InImage(r: Region, size: nat, sizeOfImage: nat) {
    r.start < r.end <= sizeOfImage && r.file + (r.end - r.start) <= size
  }

  /** Regions that share no RVA and no file offset, all of them inside the image and the file. */
  predicate RegionsSound(regions: seq<Region>, size: nat, sizeOfImage: nat) {
    && (forall i :: 0 <= i < |regions| ==> InImage(regions[i], size, sizeOfImage))
    && (forall i, j :: 0 <= i < j < |regions| ==> RvaApart(regions[i], regions[j]) && FileApart(regions[i], regions[j]))
  }

  predicate CoveredBy(r: Region, virtual: seq<Span>, raw: seq<Span>) {
    && (exists v :: v in virtual && v.start <= r.start && r.end <= v.end)
    && (exists f :: f in raw && f.start <= r.file && r.file + (r.end - r.start) <= f.end)
  }

  predicate Covered(regions: seq<Region>, virtual: seq<Span>, raw: seq<Span>) {
    forall r :: r in regions ==> r.start <= r.end && CoveredBy(r, virtual, raw)
  }

  lemma {:induction false} DisjointSnoc(spans: seq<Span>, a: Span)
    ensures Disjoint(spans + [a]) <==> Disjoint(spans) && ClearOf(a, spans)
  {
    if spans == [] {
      assert [a][1..] == [];
    } else {
      assert (spans + [a])[1..] == spans[1..] + [a];
      DisjointSnoc(spans[1..], a);
      assert ClearOf(spans[0], spans[1..] + [a]) <==> ClearOf(spans[0], spans[1..]) && Apart(spans[0], a) by {
        assert forall s :: s in spans[1..] + [a] <==> s in spans[1..] || s == a;
      }
      assert ClearOf(a, spans) <==> Apart(a, spans[0]) && ClearOf(a, spans[1..]) by {
        assert forall s :: s in spans <==> s == spans[0] || s in spans[1..];
      }
    }
  }

  lemma DisjointGrow(spans: seq<Span>, more: seq<Span>)
    requires |more| <= 1 && Disjoint(spans + more)
    ensures Disjoint(spans) && (more != [] ==> ClearOf(more[0], spans))
  {
    if more != [] {
      assert more == [more[0]];
      DisjointSnoc(spans, more[0]);
    } else {
      assert spans + more == spans;
    }
  }

  lemma CoveredGrows(regions: seq<Region>, virtual: seq<Span>, raw: seq<Span>, s: Section)
    requires Covered(regions, virtual, raw)
    ensures Covered(regions + RegionOf(s), virtual + VirtualSpan(s), raw + RawSpan(s))
  {
    var v, f := virtual + VirtualSpan(s), raw + RawSpan(s);
    forall r | r in regions + RegionOf(s) ensures r.start <= r.end && CoveredBy(r, v, f) {
      if r in regions {
        assert CoveredBy(r, virtual, raw);
        var a :| a in virtual && a.start <= r.start && r.end <= a.end;
        var b :| b in raw && b.start <= r.file && r.file + (r.end - r.start) <= b.end;
        assert a in v && b in f;
      } else {
        assert Span(s.va, s.va + Extent(s)) in v && Span(s.rawStart, s.rawStart + s.rawSize) in f;
      }
    }
  }

  lemma NewRegionApart(regions: seq<Region>, virtual: seq<Span>, raw: seq<Span>, s: Section, r: Region)
    requires Covered(regions, virtual, raw) && r in regions && Backed(s) > 0
    requires ClearOf(Span(s.va, s.va + Extent(s)), virtual) && ClearOf(Span(s.rawStart, s.rawStart + s.rawSize), raw)
    ensures RvaApart(r, RegionOf(s)[0]) && FileApart(r, RegionOf(s)[0])
  {
    assert CoveredBy(r, virtual, raw);
    var a :| a in virtual && a.start <= r.start && r.end <= a.end;
    var b :| b in raw && b.start <= r.file && r.file + (r.end - r.start) <= b.end;
    assert Apart(Span(s.va, s.va + Extent(s)), a) && Apart(Span(s.rawStart, s.rawStart + s.rawSize), b);
  }

  lemma {:induction false} RegionsAreSound(ss: seq<Section>, headers: nat, size: nat, sizeOfImage: nat)
    requires 0 < headers <= size && headers <= sizeOfImage && forall s :: s in ss ==> SectionOK(s, size, sizeOfImage)
    requires Disjoint(RawSpans(ss, headers)) && Disjoint(VirtualSpans(ss, headers))
    ensures RegionsSound(Regions(ss, headers), size, sizeOfImage)
    ensures Covered(Regions(ss, headers), VirtualSpans(ss, headers), RawSpans(ss, headers))
  {
    hide SectionOK, CoveredBy, Disjoint, Covered, RvaApart, FileApart, RegionsSound;
    if ss == [] {
      HeadersCovered(headers, size, sizeOfImage);
    } else {
      var front, s := ss[..|ss| - 1], ss[|ss| - 1];
      DisjointGrow(RawSpans(front, headers), RawSpan(s));
      DisjointGrow(VirtualSpans(front, headers), VirtualSpan(s));
      RegionsAreSound(front, headers, size, sizeOfImage);
      CoveredGrows(Regions(front, headers), VirtualSpans(front, headers), RawSpans(front, headers), s);
      if Backed(s) > 0 {
        SectionInImage(s, size, sizeOfImage);
        forall r | r in Regions(front, headers) ensures RvaApart(r, RegionOf(s)[0]) && FileApart(r, RegionOf(s)[0]) {
          NewRegionApart(Regions(front, headers), VirtualSpans(front, headers), RawSpans(front, headers), s, r);
        }
        SoundSnoc(Regions(front, headers), RegionOf(s)[0], size, sizeOfImage);
        assert Regions(ss, headers) == Regions(front, headers) + [RegionOf(s)[0]];
      } else {
        assert Regions(ss, headers) == Regions(front, headers);
      }
    }
  }

  lemma SoundSnoc(regions: seq<Region>, r: Region, size: nat, sizeOfImage: nat)
    requires RegionsSound(regions, size, sizeOfImage) && InImage(r, size, sizeOfImage)
    requires forall q :: q in regions ==> RvaApart(q, r) && FileApart(q, r)
    ensures RegionsSound(regions + [r], size, sizeOfImage)
  {
    hide RvaApart, FileApart, InImage;
  }

  lemma HeadersCovered(headers: nat, size: nat, sizeOfImage: nat)
    requires 0 < headers <= size && headers <= sizeOfImage
    ensures RegionsSound([Region(0, headers, 0)], size, sizeOfImage)
    ensures Covered([Region(0, headers, 0)], [Span(0, headers)], [Span(0, headers)])
  {
    assert Span(0, headers) in [Span(0, headers)];
  }

  lemma SectionInImage(s: Section, size: nat, sizeOfImage: nat)
    requires SectionOK(s, size, sizeOfImage) && Backed(s) > 0
    ensures InImage(RegionOf(s)[0], size, sizeOfImage)
  {}

  /** Every accepted image's regions are disjoint, in RVA space and in the file. */
  lemma AcceptedRegions(m: Image)
    requires Accepted(m)
    ensures RegionsSound(m.regions, |m.bytes|, m.sizeOfImage)
  {
    hide HeadersOK, SectionOK, SectionsOf, RawSpans, VirtualSpans, Regions, Disjoint, RegionsSound, DirectoryAt;
    var l: Layout :| HeadersOK(m.bytes, m.architecture, l)
                     && l.table + SECTION_SIZE * l.sectionCount <= |m.bytes| && m.sizeOfImage == l.sizeOfImage
                     && (forall s :: s in m.sections ==> SectionOK(s, |m.bytes|, l.sizeOfImage))
                     && Disjoint(RawSpans(m.sections, l.sizeOfHeaders))
                        && Disjoint(VirtualSpans(m.sections, l.sizeOfHeaders))
                     && m.regions == Regions(m.sections, l.sizeOfHeaders);
    RoomForTable(m.bytes, m.architecture, l);
    RegionsAreSound(m.sections, l.sizeOfHeaders, |m.bytes|, l.sizeOfImage);
  }

  // ----- RVAs -------------------------------------------------------------------------------

  predicate Holds(r: Region, rva: int, size: int) { r.start <= rva && rva + size <= r.end }

  predicate RequestOK(m: Image, rva: int, size: int) {
    && 0 <= rva < 0x1_0000_0000 && 1 <= size <= 0x80_0000
    && rva + size <= 0x1_0000_0000 && rva + size <= m.sizeOfImage
  }

  /** The request lies wholly inside one region, and `offset` is where that region has it. */
  ghost predicate Maps(m: Image, rva: int, size: int, offset: int) {
    && RequestOK(m, rva, size)
    && exists r :: r in m.regions && Holds(r, rva, size) && offset == r.file + rva - r.start
  }

  ghost predicate Backing(m: Image, rva: int, size: int) {
    RequestOK(m, rva, size) && exists r :: r in m.regions && Holds(r, rva, size)
  }

  /** `rva_to_offset`. */
  method RvaToOffset(m: Image, rva: int, size: int) returns (r: Result<int, Reason>)
    ensures r.Ok? ==> Maps(m, rva, size, r.value)
    ensures r.Ok? <==> Backing(m, rva, size)
    ensures r == Err(InvalidRvaRange) <==> !RequestOK(m, rva, size)
  {
    if rva < 0 || rva >= RVA_LIMIT || size < 1 || size > IMAGE_LIMIT || rva + size > RVA_LIMIT
       || rva + size > m.sizeOfImage {
      return Err(InvalidRvaRange);
    }
    for i := 0 to |m.regions|
      invariant forall k :: 0 <= k < i ==> !Holds(m.regions[k], rva, size)
    {
      var region := m.regions[i];
      if region.start <= rva && rva + size <= region.end {
        assert region in m.regions;
        return Ok(region.file + rva - region.start);
      }
    }
    r := Err(RvaNotFileBacked);
  }

  lemma TwoRegions(regions: seq<Region>, size: nat, sizeOfImage: nat, i: nat, j: nat)
    requires RegionsSound(regions, size, sizeOfImage) && i < |regions| && j < |regions|
    ensures i == j || (RvaApart(regions[i], regions[j]) && FileApart(regions[i], regions[j]))
    ensures InImage(regions[i], size, sizeOfImage) && InImage(regions[j], size, sizeOfImage)
  {
    assert i < j || j < i || i == j;
    assert i < j ==> RvaApart(regions[i], regions[j]);
    assert j < i ==> RvaApart(regions[j], regions[i]);
  }

  /** The region a request is served from does not depend on the order of the scan. */
  lemma OneRegion(m: Image, rva: int, a: Region, b: Region)
    requires Accepted(m) && a in m.regions && b in m.regions && Holds(a, rva, 1) && Holds(b, rva, 1)
    ensures a == b
  {
    hide Accepted;
    AcceptedRegions(m);
    var i :| 0 <= i < |m.regions| && m.regions[i] == a;
    var j :| 0 <= j < |m.regions| && m.regions[j] == b;
    TwoRegions(m.regions, |m.bytes|, m.sizeOfImage, i, j);
  }

  /** An address maps to one offset, inside the file, and so does every byte of the request. */
  lemma MappingIsExact(m: Image, rva: int, size: int, offset: int, k: nat, other: int)
    requires Accepted(m) && Maps(m, rva, size, offset) && k < size && Maps(m, rva + k, 1, other)
    ensures 0 <= offset && offset + size <= |m.bytes| && other == offset + k
  {
    hide Accepted;
    AcceptedRegions(m);
    var a :| a in m.regions && Holds(a, rva, size) && offset == a.file + rva - a.start;
    var b :| b in m.regions && Holds(b, rva + k, 1) && other == b.file + rva + k - b.start;
    var i :| 0 <= i < |m.regions| && m.regions[i] == a;
    assert InImage(m.regions[i], |m.bytes|, m.sizeOfImage);
    OneRegion(m, rva + k, a, b);
  }

  lemma BytesAreMapped(m: Image, rva: int, size: int, offset: int, k: nat)
    requires Accepted(m) && Maps(m, rva, size, offset) && k < size
    ensures Maps(m, rva + k, 1, offset + k)
  {
    hide Accepted;
    var a :| a in m.regions && Holds(a, rva, size) && offset == a.file + rva - a.start;
    assert Holds(a, rva + k, 1);
  }

  /** Distinct addresses map to distinct offsets. */
  lemma MappingIsInjective(m: Image, rva: int, rva': int, offset: int)
    requires Accepted(m) && Maps(m, rva, 1, offset) && Maps(m, rva', 1, offset)
    ensures rva == rva'
  {
    hide Accepted;
    AcceptedRegions(m);
    var a :| a in m.regions && Holds(a, rva, 1) && offset == a.file + rva - a.start;
    var b :| b in m.regions && Holds(b, rva', 1) && offset == b.file + rva' - b.start;
    var i :| 0 <= i < |m.regions| && m.regions[i] == a;
    var j :| 0 <= j < |m.regions| && m.regions[j] == b;
    TwoRegions(m.regions, |m.bytes|, m.sizeOfImage, i, j);
  }

  /** A request whose ends lie in two regions is never served. */
  lemma NoSpanning(m: Image, rva: int, size: int, a: Region, b: Region)
    requires Accepted(m) && size >= 1 && a in m.regions && b in m.regions && a != b
    requires Holds(a, rva, 1) && Holds(b, rva + size - 1, 1)
    ensures !Backing(m, rva, size)
  {
    hide Accepted;
    if Backing(m, rva, size) {
      var c :| c in m.regions && Holds(c, rva, size);
      OneRegion(m, rva, a, c);
      OneRegion(m, rva + size - 1, b, c);
    }
  }

  lemma MappingInFile(m: Image, rva: int, size: int, offset: int)
    requires Accepted(m) && Maps(m, rva, size, offset)
    ensures 0 <= offset && offset + size <= |m.bytes|
  {
    hide Accepted;
    BytesAreMapped(m, rva, size, offset, 0);
    MappingIsExact(m, rva, size, offset, 0, offset);
  }

  /** The first region of the scan that holds the whole request. */
  function FirstHolding(regions: seq<Region>, rva: int, size: int): (r: Option<Region>)
    ensures r.Some? ==> r.value in regions && Holds(r.value, rva, size)
    ensures r.None? ==> forall q :: q in regions ==> !Holds(q, rva, size)
  {
    if regions == [] then None
    else if Holds(regions[0], rva, size) then Some(regions[0])
    else FirstHolding(regions[1..], rva, size)
  }

  /** The bytes of a complete, file-backed request. */
  function Content(m: Image, rva: int, size: int): (b: Option<Bytes>)
    ensures b.Some? ==> RequestOK(m, rva, size) && |b.value| == size
  {
    if !RequestOK(m, rva, size) then None
    else match FirstHolding(m.regions, rva, size)
      case None => None
      case Some(r) =>
        var offset := r.file + rva - r.start;
        if 0 <= offset && offset + size <= |m.bytes| then Some(m.bytes[offset..offset + size]) else None
  }

  lemma ContentMeansBacking(m: Image, rva: int, size: int)
    requires Accepted(m)
    ensures Content(m, rva, size).Some? <==> Backing(m, rva, size)
    ensures forall o: int :: Maps(m, rva, size, o) ==>
              0 <= o && o + size <= |m.bytes| && Content(m, rva, size) == Some(m.bytes[o..o + size])
  {
    hide Accepted;
    if Backing(m, rva, size) {
      var r := FirstHolding(m.regions, rva, size).value;
      var offset := r.file + rva - r.start;
      assert Maps(m, rva, size, offset);
      MappingInFile(m, rva, size, offset);
      forall o: int | Maps(m, rva, size, o) ensures o == offset {
        var q :| q in m.regions && Holds(q, rva, size) && o == q.file + rva - q.start;
        OneRegion(m, rva, r, q);
      }
    }
  }

  /** Any part of a complete request is a complete request for that part. */
  lemma ContentParts(m: Image, rva: int, size: int, from: nat, part: nat)
    requires Accepted(m) && Content(m, rva, size).Some? && part >= 1 && from + part <= size
    ensures Content(m, rva + from, part) == Some(Content(m, rva, size).value[from..from + part])
  {
    hide Accepted;
    ContentMeansBacking(m, rva, size);
    var r :| r in m.regions && Holds(r, rva, size);
    var offset := r.file + rva - r.start;
    assert Maps(m, rva, size, offset) && Maps(m, rva + from, part, offset + from);
    ContentMeansBacking(m, rva + from, part);
    assert m.bytes[offset..offset + size][from..from + part] == m.bytes[offset + from..offset + from + part];
  }

  /** `read_rva`: byte for byte what a one-byte read of each address gives. */
  method ReadRva(m: Image, rva: int, size: int) returns (r: Result<Bytes, Reason>)
    requires Accepted(m)
    ensures r.Ok? <==> Backing(m, rva, size)
    ensures if r.Ok? then Content(m, rva, size) == Some(r.value) else Content(m, rva, size) == None
    ensures r.Ok? ==>
              forall a: int, o: int :: rva <= a < rva + size && Maps(m, a, 1, o) ==>
                0 <= o < |m.bytes| && r.value[a - rva] == m.bytes[o]
  {
    hide Accepted, Maps, Backing, Content;
    ContentMeansBacking(m, rva, size);
    var offset := RvaToOffset(m, rva, size);
    if offset.Err? { return Err(offset.error); }
    MappingInFile(m, rva, size, offset.value);
    forall a: int, o: int | rva <= a < rva + size && Maps(m, a, 1, o) ensures o == offset.value + a - rva {
      MappingIsExact(m, rva, size, offset.value, a - rva, o);
    }
    r := Ok(m.bytes[offset.value..offset.value + size]);
  }
}
