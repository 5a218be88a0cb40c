/**
 PE32+ files written field by field in the format's own order ("PE Format", sections "MS-DOS Stub
 (Image Only)" to "Section Table (Section Headers)"), and what the reader makes of them.
 */
module PeFormat {
  import opened Bytes
  import opened PeReader

  datatype Header = Header(
    name: Bytes, virtualSize: nat, virtualAddress: nat, rawSize: nat, rawPointer: nat, rest: Bytes)

  /** A whole file; the byte strings are whatever stands between the fields the reader looks at. */
  datatype File = File(
    dos: Bytes, stub: Bytes, machine: nat, coffMiddle: Bytes, characteristics: Bytes,
    optionalHead: Bytes, sizeOfImage: nat, sizeOfHeaders: nat, optionalMiddle: Bytes,
    directories: seq<(nat, nat)>, optionalRest: Bytes, headers: seq<Header>, body: Bytes)

  // ----- writing ----------------------------------------------------------------------------

  function DosBytes(f: File): (b: Bytes) {
    [0x4D, 0x5A] + f.dos + ToLittleEndian(64 + |f.stub|, 4) + f.stub
  }

  function OptionalSize(f: File): (n: nat) { 112 + 8 * |f.directories| + |f.optionalRest| }

  function CoffBytes(f: File): (b: Bytes) {
    [0x50, 0x45, 0, 0] + ToLittleEndian(f.machine, 2) + ToLittleEndian(|f.headers|, 2) + f.coffMiddle
    + ToLittleEndian(OptionalSize(f), 2) + f.characteristics
  }

  function DirectoryBytes(ds: seq<(nat, nat)>): (b: Bytes)
    ensures |b| == 8 * |ds|
  {
    if ds == [] then [] else ToLittleEndian(ds[0].0, 4) + ToLittleEndian(ds[0].1, 4) + DirectoryBytes(ds[1..])
  }

  function OptionalBytes(f: File): (b: Bytes) {
    [0x0B, 0x02] + f.optionalHead + ToLittleEndian(f.sizeOfImage, 4) + ToLittleEndian(f.sizeOfHeaders, 4)
    + f.optionalMiddle + ToLittleEndian(|f.directories|, 4) + DirectoryBytes(f.directories) + f.optionalRest
  }

  function HeaderBytes(h: Header): (b: Bytes) {
    h.name + ToLittleEndian(h.virtualSize, 4) + ToLittleEndian(h.virtualAddress, 4) + ToLittleEndian(h.rawSize, 4)
    + ToLittleEndian(h.rawPointer, 4) + h.rest
  }

  function TableBytes(hs: seq<Header>): (b: Bytes) { if hs == [] then [] else HeaderBytes(hs[0]) + TableBytes(hs[1..]) }

  function Written(f: File): (b: Bytes) {
    DosBytes(f) + CoffBytes(f) + OptionalBytes(f) + TableBytes(f.headers) + f.body
  }

  /** Every field fits its width. */
  predicate WellFormed(f: File) {
    && |f.dos| == 58 && |f.coffMiddle| == 12 && |f.characteristics| == 2 && |f.optionalHead| == 54
    && |f.optionalMiddle| == 44 && 64 + |f.stub| < WORD32 && f.machine < 0x1_0000 && |f.headers| < 0x1_0000
    && OptionalSize(f) < 0x1_0000 && f.sizeOfImage < WORD32 && f.sizeOfHeaders < WORD32
    && (forall i :: 0 <= i < |f.directories| ==> f.directories[i].0 < WORD32 && f.directories[i].1 < WORD32)
    && (forall i :: 0 <= i < |f.headers| ==> HeaderFits(f.headers[i]))
  }

  predicate HeaderFits(h: Header) {
    && |h.name| == 8 && |h.rest| == 16
    && h.virtualSize < WORD32 && h.virtualAddress < WORD32 && h.rawSize < WORD32 && h.rawPointer < WORD32
  }

  // ----- reading back -----------------------------------------------------------------------

  lemma Inside(before: Bytes, part: Bytes, behind: Bytes, i: nat, j: nat)
    requires i <= j <= |part|
    ensures (before + part + behind)[|before| + i..|before| + j] == part[i..j]
  {
    var whole := before + part + behind;
    var x, y := whole[|before| + i..|before| + j], part[i..j];
    assert forall k :: 0 <= k < j - i ==> x[k] == y[k];
  }

  lemma Little(n: nat, k: nat)
    requires (k == 2 && n < 0x1_0000) || (k == 4 && n < WORD32)
    ensures |ToLittleEndian(n, k)| == k && LittleEndian(ToLittleEndian(n, k)) == n
  {
    Power256Values();
    assert Power256(2) == 0x1_0000;
    FromLittleEndian(n, k);
  }

  lemma DosFields(f: File)
    requires WellFormed(f)
    ensures |DosBytes(f)| == 64 + |f.stub| && DosBytes(f)[..2] == [0x4D, 0x5A]
    ensures LittleEndian(DosBytes(f)[60..64]) == 64 + |f.stub|
  {
    hide ToLittleEndian, LittleEndian;
    Little(64 + |f.stub|, 4);
    var w := ToLittleEndian(64 + |f.stub|, 4);
    Inside([0x4D, 0x5A] + f.dos, w, f.stub, 0, 4);
    assert w[0..4] == w;
  }

  lemma CoffFields(f: File)
    requires WellFormed(f)
    ensures var b := CoffBytes(f);
            && |b| == 24 && b[..4] == [0x50, 0x45, 0, 0] && LittleEndian(b[4..6]) == f.machine
            && LittleEndian(b[6..8]) == |f.headers| && LittleEndian(b[20..22]) == OptionalSize(f)
  {
    hide ToLittleEndian, LittleEndian;
    Little(f.machine, 2);
    Little(|f.headers|, 2);
    Little(OptionalSize(f), 2);
    var m, n, s := ToLittleEndian(f.machine, 2), ToLittleEndian(|f.headers|, 2), ToLittleEndian(OptionalSize(f), 2);
    var b, signature := CoffBytes(f), [0x50, 0x45, 0, 0];
    assert b[4..6] == m && b[6..8] == n && b[20..22] == s;
  }

  lemma OptionalFields(f: File)
    requires WellFormed(f)
    ensures var b := OptionalBytes(f);
            && |b| == OptionalSize(f) && LittleEndian(b[0..2]) == 0x20B && LittleEndian(b[56..60]) == f.sizeOfImage
            && LittleEndian(b[60..64]) == f.sizeOfHeaders && LittleEndian(b[108..112]) == |f.directories|
            && b[112..112 + 8 * |f.directories|] == DirectoryBytes(f.directories)
  {
    hide ToLittleEndian, LittleEndian, DirectoryBytes;
    Little(f.sizeOfImage, 4);
    Little(f.sizeOfHeaders, 4);
    Little(|f.directories|, 4);
    Magic();
    var image, headers, count := ToLittleEndian(f.sizeOfImage, 4), ToLittleEndian(f.sizeOfHeaders, 4),
        ToLittleEndian(|f.directories|, 4);
    var b := OptionalBytes(f);
    assert b[0..2] == [0x0B, 0x02] && b[56..60] == image && b[60..64] == headers && b[108..112] == count;
    assert b[112..112 + 8 * |f.directories|] == DirectoryBytes(f.directories);
  }

  lemma Magic()
    ensures LittleEndian([0x0B, 0x02]) == 0x20B
  {
    var b: Bytes := [0x0B, 0x02];
    assert b[1..] == [0x02] && b[1..][1..] == [];
  }

  lemma HeaderFields(h: Header)
    requires HeaderFits(h)
    ensures var b := HeaderBytes(h);
            && |b| == 40 && LittleEndian(b[8..12]) == h.virtualSize && LittleEndian(b[12..16]) == h.virtualAddress
            && LittleEndian(b[16..20]) == h.rawSize && LittleEndian(b[20..24]) == h.rawPointer
  {
    hide ToLittleEndian, LittleEndian;
    Little(h.virtualSize, 4);
    Little(h.virtualAddress, 4);
    Little(h.rawSize, 4);
    Little(h.rawPointer, 4);
    var b := HeaderBytes(h);
    assert b[8..12] == ToLittleEndian(h.virtualSize, 4) && b[12..16] == ToLittleEndian(h.virtualAddress, 4);
    assert b[16..20] == ToLittleEndian(h.rawSize, 4) && b[20..24] == ToLittleEndian(h.rawPointer, 4);
  }

  lemma {:induction false} TableFields(hs: seq<Header>, i: nat)
    requires i < |hs| && forall k :: 0 <= k < |hs| ==> HeaderFits(hs[k])
    ensures |TableBytes(hs)| == 40 * |hs| && TableBytes(hs)[40 * i..40 * i + 40] == HeaderBytes(hs[i])
  {
    hide HeaderBytes, HeaderFits;
    HeaderFields(hs[0]);
    var first, rest := HeaderBytes(hs[0]), TableBytes(hs[1..]);
    if |hs| > 1 { TableFields(hs[1..], if i == 0 then 0 else i - 1); } else { assert hs[1..] == []; }
    if i > 0 {
      Inside(first, rest, [], 40 * (i - 1), 40 * i);
      assert first + rest + [] == first + rest;
    }
  }

  lemma {:induction false} DirectoryFields(ds: seq<(nat, nat)>, i: nat)
    requires i < |ds| && forall k :: 0 <= k < |ds| ==> ds[k].0 < WORD32 && ds[k].1 < WORD32
    ensures var b := DirectoryBytes(ds);
            LittleEndian(b[8 * i..8 * i + 4]) == ds[i].0 && LittleEndian(b[8 * i + 4..8 * i + 8]) == ds[i].1
  {
    hide ToLittleEndian, LittleEndian;
    var b, rest := DirectoryBytes(ds), DirectoryBytes(ds[1..]);
    var one, two := ToLittleEndian(ds[0].0, 4), ToLittleEndian(ds[0].1, 4);
    Little(ds[0].0, 4);
    Little(ds[0].1, 4);
    if i == 0 {
      assert b[0..4] == one && b[4..8] == two;
    } else {
      DirectoryFields(ds[1..], i - 1);
      Inside(one + two, rest, [], 8 * (i - 1), 8 * (i - 1) + 4);
      Inside(one + two, rest, [], 8 * (i - 1) + 4, 8 * i);
      assert one + two + rest + [] == b;
    }
  }

  // ----- where the fields are in the whole file ---------------------------------------------

  function CoffStart(f: File): (n: nat) { 68 + |f.stub| }

  function OptionalStart(f: File): (n: nat) { CoffStart(f) + 20 }

  function TableStart(f: File): (n: nat) { OptionalStart(f) + OptionalSize(f) }

  lemma Lengths(f: File)
    requires WellFormed(f)
    ensures |DosBytes(f) + CoffBytes(f)| == OptionalStart(f)
    ensures |DosBytes(f) + CoffBytes(f) + OptionalBytes(f)| == TableStart(f)
    ensures |Written(f)| == TableStart(f) + 40 * |f.headers| + |f.body|
  {
    hide DosBytes, CoffBytes, OptionalBytes, HeaderFits;
    DosFields(f);
    CoffFields(f);
    OptionalFields(f);
    if f.headers != [] { TableFields(f.headers, 0); }
  }

  lemma CoffInFile(f: File)
    requires WellFormed(f)
    ensures var image, coff := Written(f), CoffStart(f);
            && image[..2] == [0x4D, 0x5A] && Word(image, 0x3C, 4) == Some(coff - 4)
            && image[coff - 4..coff] == [0x50, 0x45, 0, 0] && Word(image, coff, 2) == Some(f.machine)
            && Word(image, coff + 2, 2) == Some(|f.headers|) && Word(image, coff + 16, 2) == Some(OptionalSize(f))
  {
    hide DosBytes, CoffBytes, OptionalBytes, LittleEndian, HeaderFits, TableBytes;
    Lengths(f);
    DosFields(f);
    CoffFields(f);
    var dos, coff, behind := DosBytes(f), CoffBytes(f), OptionalBytes(f) + TableBytes(f.headers) + f.body;
    var image := Written(f);
    assert image == [] + dos + (coff + behind) == dos + coff + behind;
    Inside([], dos, coff + behind, 0, 2);
    Inside([], dos, coff + behind, 60, 64);
    Inside(dos, coff, behind, 0, 4);
    Inside(dos, coff, behind, 4, 6);
    Inside(dos, coff, behind, 6, 8);
    Inside(dos, coff, behind, 20, 22);
  }

  lemma OptionalInFile(f: File)
    requires WellFormed(f)
    ensures var image, at := Written(f), OptionalStart(f);
            && Word(image, at, 2) == Some(0x20B) && Word(image, at + 56, 4) == Some(f.sizeOfImage)
            && Word(image, at + 60, 4) == Some(f.sizeOfHeaders) && Word(image, at + 108, 4) == Some(|f.directories|)
            && image[at + 112..at + 112 + 8 * |f.directories|] == DirectoryBytes(f.directories)
  {
    hide DosBytes, CoffBytes, OptionalBytes, LittleEndian, HeaderFits, TableBytes, DirectoryBytes;
    Lengths(f);
    OptionalFields(f);
    var before, part, behind := DosBytes(f) + CoffBytes(f), OptionalBytes(f), TableBytes(f.headers) + f.body;
    assert Written(f) == before + part + behind;
    Inside(before, part, behind, 0, 2);
    Inside(before, part, behind, 56, 60);
    Inside(before, part, behind, 60, 64);
    Inside(before, part, behind, 108, 112);
    Inside(before, part, behind, 112, 112 + 8 * |f.directories|);
  }

  /** A section header is read as it was written, */
  lemma SectionInFile(f: File, i: nat)
    requires WellFormed(f) && i < |f.headers|
    ensures TableStart(f) + 40 * (i + 1) <= |Written(f)|
    ensures var h := f.headers[i];
            SectionAt(Written(f), TableStart(f), i) == Section(h.virtualAddress, h.virtualSize, h.rawSize, h.rawPointer)
  {
    hide DosBytes, CoffBytes, OptionalBytes, LittleEndian, HeaderBytes, TableBytes;
    Lengths(f);
    TableFields(f.headers, i);
    var before, part, at := DosBytes(f) + CoffBytes(f) + OptionalBytes(f), TableBytes(f.headers), 40 * i;
    assert Written(f) == before + part + f.body;
    Inside(before, part, f.body, at, at + 40);
    var image, b := Written(f), HeaderBytes(f.headers[i]);
    assert image[TableStart(f) + at..TableStart(f) + at + 40] == b;
    HeaderFields(f.headers[i]);
    Within(image, TableStart(f) + at, b, 8, 12);
    Within(image, TableStart(f) + at, b, 12, 16);
    Within(image, TableStart(f) + at, b, 16, 20);
    Within(image, TableStart(f) + at, b, 20, 24);
  }

  /** and so is a directory. */
  lemma DirectoryInFile(f: File, i: nat)
    requires WellFormed(f) && i < |f.directories|
    ensures OptionalStart(f) + 112 + 8 * (i + 1) <= |Written(f)|
    ensures DirectoryAt(Written(f), OptionalStart(f), i) == f.directories[i]
  {
    hide DosBytes, CoffBytes, OptionalBytes, LittleEndian, HeaderFits, TableBytes, DirectoryBytes;
    Lengths(f);
    OptionalInFile(f);
    DirectoryFields(f.directories, i);
    var image, b := Written(f), DirectoryBytes(f.directories);
    Within(image, OptionalStart(f) + 112, b, 8 * i, 8 * i + 4);
    Within(image, OptionalStart(f) + 112, b, 8 * i + 4, 8 * i + 8);
  }

  lemma Within(image: Bytes, at: nat, b: Bytes, i: nat, j: nat)
    requires at + |b| <= |image| && image[at..at + |b|] == b && i <= j <= |b|
    ensures image[at + i..at + j] == b[i..j]
  {
    var x, y := image[at + i..at + j], b[i..j];
    assert forall k :: 0 <= k < j - i ==> x[k] == image[at..at + |b|][i + k] == y[k];
  }

  // ----- what is accepted -------------------------------------------------------------------

  function MemorySize(h: Header): (n: nat) { if h.virtualSize != 0 then h.virtualSize else h.rawSize }

  /** Two ranges of which one may be empty. */
  predicate Clear(start: nat, size: nat, otherStart: nat, otherSize: nat) {
    size > 0 && otherSize > 0 ==> start + size <= otherStart || otherStart + otherSize <= start
  }

  predicate HeadersAdmissible(f: File, arch: Architecture) {
    && f.machine == (match arch case X64 => 0x8664 case Arm64 => 0xAA64)
    && 1 <= |f.headers| <= 96 && |f.directories| <= 16 && |Written(f)| <= 8388608
    && TableStart(f) + 40 * |f.headers| <= f.sizeOfHeaders <= |Written(f)| && f.sizeOfHeaders <= f.sizeOfImage
  }

  predicate SectionAdmissible(f: File, h: Header) {
    && (h.rawSize > 0 ==> h.rawPointer >= f.sizeOfHeaders && h.rawPointer + h.rawSize <= |Written(f)|)
    && (MemorySize(h) > 0 ==>
          h.virtualAddress >= f.sizeOfHeaders && h.virtualAddress + MemorySize(h) <= f.sizeOfImage)
  }

  predicate Compatible(g: Header, h: Header) {
    && Clear(g.rawPointer, g.rawSize, h.rawPointer, h.rawSize)
    && Clear(g.virtualAddress, MemorySize(g), h.virtualAddress, MemorySize(h))
  }

  /** The headers are in range, each section is behind them in file and image, and no two sections meet. */
  predicate Admissible(f: File, arch: Architecture) {
    && HeadersAdmissible(f, arch)
    && (forall i :: 0 <= i < |f.headers| ==> SectionAdmissible(f, f.headers[i]))
    && (forall i, j :: 0 <= i < j < |f.headers| ==> Compatible(f.headers[i], f.headers[j]))
  }

  function LayoutOf(f: File): (l: Layout) {
    Layout(OptionalStart(f), TableStart(f), |f.headers|, |f.directories|, f.sizeOfImage, f.sizeOfHeaders)
  }

  lemma HeadersRead(f: File, arch: Architecture)
    requires WellFormed(f)
    ensures HeadersAdmissible(f, arch) ==> HeadersOK(Written(f), arch, LayoutOf(f))
    ensures forall l: Layout :: HeadersOK(Written(f), arch, l) ==> HeadersAdmissible(f, arch) && l == LayoutOf(f)
  {
    hide Written, Word, HeaderFits;
    Lengths(f);
    CoffInFile(f);
    OptionalInFile(f);
    var image, coff := Written(f), CoffStart(f);
    if HeadersAdmissible(f, arch) {
      assert CoffOK(image, arch, coff, |f.headers|, OptionalSize(f))
        && OptionalOK(image, coff, OptionalSize(f), LayoutOf(f));
    }
    forall l: Layout | HeadersOK(image, arch, l) ensures HeadersAdmissible(f, arch) && l == LayoutOf(f) {
      var c: nat, size: nat :| CoffOK(image, arch, c, l.sectionCount, size) && OptionalOK(image, c, size, l);
      assert c == coff && size == OptionalSize(f);
    }
  }

  lemma ClearOfMore(a: Span, spans: seq<Span>, s: Span)
    ensures ClearOf(a, spans + [s]) <==> ClearOf(a, spans) && Apart(a, s)
  {
    assert forall t :: t in spans + [s] <==> t in spans || t == s;
  }

  lemma {:induction false} DisjointSnoc(spans: seq<Span>, s: Span)
    ensures Disjoint(spans + [s]) <==> Disjoint(spans) && ClearOf(s, spans)
  {
    if spans == [] {
      assert ([] + [s])[1..] == [];
    } else {
      DisjointSnoc(spans[1..], s);
      assert (spans + [s])[1..] == spans[1..] + [s];
      assert forall t :: t in spans <==> t == spans[0] || t in spans[1..];
      ClearOfMore(spans[0], spans[1..], s);
      assert ClearOf(s, spans) <==> Apart(s, spans[0]) && ClearOf(s, spans[1..]);
    }
  }

  /** A range of a section, in the file or in the image, if it has one. */
  datatype Range = Range(start: nat, size: nat)

  /** The headers' range and the sections' own, without the empty ones. */
  function Ranges(rs: seq<Range>, headers: nat): (spans: seq<Span>) {
    if rs == [] then [Span(0, headers)]
    else
      var r := rs[|rs| - 1];
      Ranges(rs[..|rs| - 1], headers) + if r.size > 0 then [Span(r.start, r.start + r.size)] else []
  }

  predicate BehindAll(rs: seq<Range>, headers: nat) { forall i :: 0 <= i < |rs| && rs[i].size > 0 ==>
                                                     headers <= rs[i].start }

  predicate AllClear(rs: seq<Range>) {
    forall i, j :: 0 <= i < j < |rs| ==> Clear(rs[i].start, rs[i].size, rs[j].start, rs[j].size)
  }

  lemma {:induction false} RangeSpans(rs: seq<Range>, headers: nat, s: Span)
    ensures ClearOf(s, Ranges(rs, headers)) <==>
              && Apart(s, Span(0, headers))
              && forall i :: 0 <= i < |rs| && rs[i].size > 0 ==> Apart(s, Span(rs[i].start, rs[i].start + rs[i].size))
  {
    if rs != [] {
      var front, r := rs[..|rs| - 1], rs[|rs| - 1];
      RangeSpans(front, headers, s);
      assert forall i :: 0 <= i < |front| ==> front[i] == rs[i];
      var last := Span(r.start, r.start + r.size);
      assert forall t :: t in Ranges(rs, headers) <==> t in Ranges(front, headers) || (r.size > 0 && t == last);
    }
  }

  lemma {:induction false} RangesDisjoint(rs: seq<Range>, headers: nat)
    requires headers > 0
    ensures Disjoint(Ranges(rs, headers)) <==> BehindAll(rs, headers) && AllClear(rs)
  {
    if rs == [] {
      assert [Span(0, headers)][1..] == [];
    } else {
      var front, r := rs[..|rs| - 1], rs[|rs| - 1];
      RangesDisjoint(front, headers);
      assert forall i :: 0 <= i < |front| ==> front[i] == rs[i];
      assert BehindAll(rs, headers) <==> BehindAll(front, headers) && (r.size > 0 ==> headers <= r.start);
      ClearWithLast(rs);
      if r.size > 0 {
        var last := Span(r.start, r.start + r.size);
        DisjointSnoc(Ranges(front, headers), last);
        RangeSpans(front, headers, last);
        assert Apart(last, Span(0, headers)) <==> headers <= r.start;
        forall i | 0 <= i < |front| && front[i].size > 0
          ensures Apart(last, Span(front[i].start, front[i].start + front[i].size))
                  <==> Clear(front[i].start, front[i].size, r.start, r.size)
        {}
      } else {
        assert Ranges(front, headers) + [] == Ranges(front, headers);
      }
    }
  }

  lemma ClearWithLast(rs: seq<Range>)
    requires rs != []
    ensures var front, r := rs[..|rs| - 1], rs[|rs| - 1];
            AllClear(rs) <==>
              && AllClear(front)
              && forall i :: 0 <= i < |front| ==> Clear(front[i].start, front[i].size, r.start, r.size)
  {
    hide Clear;
    var front := rs[..|rs| - 1];
    assert forall i :: 0 <= i < |front| ==> front[i] == rs[i];
    if AllClear(front) && forall i :: 0 <= i < |front| ==>
      Clear(front[i].start, front[i].size, rs[|rs| - 1].start, rs[|rs| - 1].size) {
      forall i, j | 0 <= i < j < |rs| ensures Clear(rs[i].start, rs[i].size, rs[j].start, rs[j].size) {
        if j < |front| { assert Clear(front[i].start, front[i].size, front[j].start, front[j].size); }
      }
    }
  }

  function InFile(ss: seq<Section>): (rs: seq<Range>)
    ensures |rs| == |ss|
  {
    seq(|ss|, i requires 0 <= i < |ss| => Range(ss[i].rawStart, ss[i].rawSize))
  }

  function InMemory(ss: seq<Section>): (rs: seq<Range>)
    ensures |rs| == |ss|
  {
    seq(|ss|, i requires 0 <= i < |ss| => Range(ss[i].va, Extent(ss[i])))
  }

  /** The reader's two lists of spans are these ranges. */
  lemma {:induction false} SpansAreRanges(ss: seq<Section>, headers: nat)
    ensures RawSpans(ss, headers) == Ranges(InFile(ss), headers)
    ensures VirtualSpans(ss, headers) == Ranges(InMemory(ss), headers)
  {
    if ss != [] {
      var front := ss[..|ss| - 1];
      SpansAreRanges(front, headers);
      assert InFile(ss)[..|front|] == InFile(front) && InMemory(ss)[..|front|] == InMemory(front);
    }
  }

  /** What was written, section by section. */
  predicate Mirrors(ss: seq<Section>, hs: seq<Header>) {
    && |ss| == |hs|
    && forall i :: 0 <= i < |hs| ==>
         ss[i] == Section(hs[i].virtualAddress, hs[i].virtualSize, hs[i].rawSize, hs[i].rawPointer)
  }

  lemma SectionsMirror(f: File)
    requires WellFormed(f)
    ensures TableStart(f) + 40 * |f.headers| <= |Written(f)|
    ensures Mirrors(SectionsOf(Written(f), TableStart(f), |f.headers|), f.headers)
  {
    hide Written, SectionAt;
    Lengths(f);
    forall i | 0 <= i < |f.headers|
      ensures SectionAt(Written(f), TableStart(f), i)
              == Section(f.headers[i].virtualAddress, f.headers[i].virtualSize, f.headers[i].rawSize,
                         f.headers[i].rawPointer)
    {
      SectionInFile(f, i);
    }
  }

  /** Each section in range, and no address claimed twice, is what the writer may do. */
  lemma SectionsAdmissible(f: File, arch: Architecture, ss: seq<Section>)
    requires WellFormed(f) && HeadersAdmissible(f, arch) && Mirrors(ss, f.headers)
    ensures Admissible(f, arch) <==>
              && (forall s :: s in ss ==> SectionOK(s, |Written(f)|, f.sizeOfImage))
              && Disjoint(RawSpans(ss, f.sizeOfHeaders)) && Disjoint(VirtualSpans(ss, f.sizeOfHeaders))
  {
    hide Written, HeaderFits, SectionOK, Disjoint, RawSpans, VirtualSpans, Ranges, BehindAll, AllClear, InFile,
      InMemory,
      SectionAdmissible, Compatible, Mirrors;
    SpansAreRanges(ss, f.sizeOfHeaders);
    RangesDisjoint(InFile(ss), f.sizeOfHeaders);
    RangesDisjoint(InMemory(ss), f.sizeOfHeaders);
    EachInRange(f, ss);
    PairsClear(f.headers, ss);
  }

  lemma PairsClear(hs: seq<Header>, ss: seq<Section>)
    requires Mirrors(ss, hs)
    ensures (forall i, j :: 0 <= i < j < |hs| ==> Compatible(hs[i], hs[j])) <==>
            AllClear(InFile(ss)) && AllClear(InMemory(ss))
  {
    hide Clear;
    assert forall i :: 0 <= i < |ss| ==> InFile(ss)[i] == Range(hs[i].rawPointer, hs[i].rawSize);
    assert forall i :: 0 <= i < |ss| ==> InMemory(ss)[i] == Range(hs[i].virtualAddress, MemorySize(hs[i]));
    if AllClear(InFile(ss)) && AllClear(InMemory(ss)) {
      forall i, j | 0 <= i < j < |hs| ensures Compatible(hs[i], hs[j]) {
        var a, b := InFile(ss), InMemory(ss);
        assert Clear(a[i].start, a[i].size, a[j].start, a[j].size)
          && Clear(b[i].start, b[i].size, b[j].start, b[j].size);
      }
    }
  }

  lemma EachInRange(f: File, ss: seq<Section>)
    requires f.sizeOfImage < WORD32 && Mirrors(ss, f.headers)
    ensures (forall s :: s in ss ==> SectionOK(s, |Written(f)|, f.sizeOfImage))
            && BehindAll(InFile(ss), f.sizeOfHeaders) && BehindAll(InMemory(ss), f.sizeOfHeaders)
            <==> forall i :: 0 <= i < |f.headers| ==> SectionAdmissible(f, f.headers[i])
  {
    hide Written;
    assert (forall s :: s in ss ==> SectionOK(s, |Written(f)|, f.sizeOfImage))
       <==> forall i :: 0 <= i < |ss| ==> SectionOK(ss[i], |Written(f)|, f.sizeOfImage);
    forall i | 0 <= i < |ss|
      ensures SectionAdmissible(f, f.headers[i]) <==>
                && SectionOK(ss[i], |Written(f)|, f.sizeOfImage)
                && (InFile(ss)[i].size > 0 ==> f.sizeOfHeaders <= InFile(ss)[i].start)
                && (InMemory(ss)[i].size > 0 ==> f.sizeOfHeaders <= InMemory(ss)[i].start)
    {}
  }

  /** A section's file-backed part: no longer than either of its two sizes. */
  function BackedSize(h: Header): (n: nat) { if h.rawSize <= MemorySize(h) then h.rawSize else MemorySize(h) }

  function WrittenRegions(hs: seq<Header>, headers: nat): (rs: seq<Region>) {
    if hs == [] then [Region(0, headers, 0)]
    else
      var h := hs[|hs| - 1];
      WrittenRegions(hs[..|hs| - 1], headers)
      + if BackedSize(h) > 0 then [Region(h.virtualAddress, h.virtualAddress + BackedSize(h), h.rawPointer)] else []
  }

  lemma {:induction false} RegionsMirror(ss: seq<Section>, hs: seq<Header>, headers: nat)
    requires Mirrors(ss, hs)
    ensures Regions(ss, headers) == WrittenRegions(hs, headers)
  {
    if ss != [] { RegionsMirror(ss[..|ss| - 1], hs[..|hs| - 1], headers); }
  }

  /** The image the reader makes of a file. */
  predicate ImageOf(m: Image, f: File) {
    && m.sizeOfImage == f.sizeOfImage && m.directories == f.directories && Mirrors(m.sections, f.headers)
    && m.regions == WrittenRegions(f.headers, f.sizeOfHeaders)
  }

  /** A written file is accepted exactly when it is admissible, and then read as it was written. */
  lemma WrittenIsRead(f: File, arch: Architecture)
    requires WellFormed(f)
    ensures (exists m: Image :: m.bytes == Written(f) && m.architecture == arch && Accepted(m)) <==> Admissible(f, arch)
    ensures forall m: Image :: m.bytes == Written(f) && m.architecture == arch && Accepted(m) ==> ImageOf(m, f)
  {
    hide Written, Admissible, HeadersAdmissible, HeadersOK, SectionOK, Disjoint, Mirrors, SectionAt, DirectoryAt,
      HeaderFits;
    Lengths(f);
    HeadersRead(f, arch);
    SectionsMirror(f);
    DirectoriesRead(f);
    var image, l := Written(f), LayoutOf(f);
    var ss := SectionsOf(image, l.table, l.sectionCount);
    RegionsMirror(ss, f.headers, f.sizeOfHeaders);
    AdmissibleHeaders(f, arch);
    if Admissible(f, arch) {
      SectionsAdmissible(f, arch, ss);
      var m := Image(image, arch, f.directories, f.sizeOfImage, ss, Regions(ss, f.sizeOfHeaders));
      assert Accepted(m);
    }
    forall m: Image | m.bytes == image && m.architecture == arch && Accepted(m) ensures Admissible(f, arch)
      && ImageOf(m, f) {
      var k: Layout :| HeadersOK(m.bytes, m.architecture, k)
        && k.table + SECTION_SIZE * k.sectionCount <= |m.bytes| && m.sizeOfImage == k.sizeOfImage
        && m.sections == SectionsOf(m.bytes, k.table, k.sectionCount)
        && (forall s :: s in m.sections ==> SectionOK(s, |m.bytes|, k.sizeOfImage))
        && Disjoint(RawSpans(m.sections, k.sizeOfHeaders)) && Disjoint(VirtualSpans(m.sections, k.sizeOfHeaders))
        && m.regions == Regions(m.sections, k.sizeOfHeaders)
        && k.optional + OPTIONAL_BASE_SIZE + 8 * k.directoryCount <= |m.bytes| && |m.directories| == k.directoryCount
        && (forall i :: 0 <= i < k.directoryCount ==> m.directories[i] == DirectoryAt(m.bytes, k.optional, i));
      assert k == l;
      SectionsAdmissible(f, arch, ss);
    }
  }

  lemma AdmissibleHeaders(f: File, arch: Architecture)
    ensures Admissible(f, arch) ==> HeadersAdmissible(f, arch)
  {}

  lemma DirectoriesRead(f: File)
    requires WellFormed(f)
    ensures OptionalStart(f) + 112 + 8 * |f.directories| <= |Written(f)|
    ensures forall i :: 0 <= i < |f.directories| ==> DirectoryAt(Written(f), OptionalStart(f), i) == f.directories[i]
  {
    hide Written, DirectoryAt, HeaderFits;
    Lengths(f);
    forall i | 0 <= i < |f.directories| ensures DirectoryAt(Written(f), OptionalStart(f), i) == f.directories[i] {
      DirectoryInFile(f, i);
    }
  }

  // ----- every accepted image is such a file -------------------------------------------------

  lemma FieldOf(b: Bytes, k: nat)
    requires (k == 2 || k == 4) && |b| == k
    ensures LittleEndian(b) < (if k == 2 then 0x1_0000 else WORD32) && ToLittleEndian(LittleEndian(b), k) == b
  {
    hide ToLittleEndian, LittleEndian;
    Power256Values();
    assert Power256(2) == 0x1_0000;
    LittleEndianRoundTrip(b);
  }

  function HeaderFrom(b: Bytes): (h: Header)
    requires |b| == 40
  {
    Header(b[..8], LittleEndian(b[8..12]), LittleEndian(b[12..16]), LittleEndian(b[16..20]), LittleEndian(b[20..24]),
           b[24..])
  }

  lemma HeaderRewritten(b: Bytes)
    requires |b| == 40
    ensures HeaderFits(HeaderFrom(b)) && HeaderBytes(HeaderFrom(b)) == b
  {
    hide ToLittleEndian, LittleEndian;
    FieldOf(b[8..12], 4);
    FieldOf(b[12..16], 4);
    FieldOf(b[16..20], 4);
    FieldOf(b[20..24], 4);
    assert b == b[..8] + b[8..12] + b[12..16] + b[16..20] + b[20..24] + b[24..];
  }

  function HeadersFrom(b: Bytes): (hs: seq<Header>)
    requires |b| % 40 == 0
    ensures 40 * |hs| == |b|
  {
    if b == [] then [] else [HeaderFrom(b[..40])] + HeadersFrom(b[40..])
  }

  lemma {:induction false} HeadersRewritten(b: Bytes)
    requires |b| % 40 == 0
    ensures TableBytes(HeadersFrom(b)) == b
    ensures forall i :: 0 <= i < |HeadersFrom(b)| ==> HeaderFits(HeadersFrom(b)[i])
  {
    hide HeaderFrom, HeaderBytes, HeaderFits;
    if b != [] {
      HeadersRewritten(b[40..]);
      HeaderRewritten(b[..40]);
      assert HeadersFrom(b)[1..] == HeadersFrom(b[40..]);
      assert b == b[..40] + b[40..];
    }
  }

  function DirectoriesFrom(b: Bytes): (ds: seq<(nat, nat)>)
    requires |b| % 8 == 0
    ensures 8 * |ds| == |b|
  {
    if b == [] then [] else [(LittleEndian(b[..4]), LittleEndian(b[4..8]))] + DirectoriesFrom(b[8..])
  }

  lemma {:induction false} DirectoriesRewritten(b: Bytes)
    requires |b| % 8 == 0
    ensures DirectoryBytes(DirectoriesFrom(b)) == b
    ensures forall i :: 0 <= i < |DirectoriesFrom(b)| ==>
              DirectoriesFrom(b)[i].0 < WORD32 && DirectoriesFrom(b)[i].1 < WORD32
  {
    hide ToLittleEndian, LittleEndian;
    if b != [] {
      DirectoriesRewritten(b[8..]);
      FieldOf(b[..4], 4);
      FieldOf(b[4..8], 4);
      assert DirectoriesFrom(b)[1..] == DirectoriesFrom(b[8..]);
      assert b == b[..4] + b[4..8] + b[8..];
    }
  }

  /** The file an accepted image is, cut at the places its headers name. */
  function FileOf(b: Bytes, coff: nat, n: nat, size: nat, l: Layout): (f: File)
    requires 68 <= coff && l.optional == coff + 20 && l.table == l.optional + size && l.table + 40 * n <= |b|
    requires 112 + 8 * l.directoryCount <= size
  {
    var at := l.optional;
    File(b[2..60], b[64..coff - 4], LittleEndian(b[coff..coff + 2]), b[coff + 4..coff + 16], b[coff + 18..coff + 20],
         b[at + 2..at + 56], l.sizeOfImage, l.sizeOfHeaders, b[at + 64..at + 108],
         DirectoriesFrom(b[at + 112..at + 112 + 8 * l.directoryCount]), b[at + 112 + 8 * l.directoryCount..l.table],
         HeadersFrom(b[l.table..l.table + 40 * n]), b[l.table + 40 * n..])
  }

  lemma FileRewritten(b: Bytes, arch: Architecture, coff: nat, size: nat, l: Layout)
    requires CoffOK(b, arch, coff, l.sectionCount, size) && OptionalOK(b, coff, size, l)
    ensures var f := FileOf(b, coff, l.sectionCount, size, l); WellFormed(f) && Written(f) == b
  {
    hide ToLittleEndian, LittleEndian, DirectoriesFrom, HeadersFrom, DirectoryBytes, TableBytes, HeaderFits;
    var n, at := l.sectionCount, l.optional;
    var f := FileOf(b, coff, n, size, l);
    var table, pairs := b[l.table..l.table + 40 * n], b[at + 112..at + 112 + 8 * l.directoryCount];
    HeadersRewritten(table);
    DirectoriesRewritten(pairs);
    FieldOf(b[0x3C..0x40], 4);
    FieldOf(b[coff..coff + 2], 2);
    FieldOf(b[coff + 2..coff + 4], 2);
    FieldOf(b[coff + 16..coff + 18], 2);
    FieldOf(b[at + 56..at + 60], 4);
    FieldOf(b[at + 60..at + 64], 4);
    FieldOf(b[at + 108..at + 112], 4);
    DosRewritten(b, f, coff);
    CoffRewritten(b, f, coff, n, size);
    OptionalRewritten(b, f, at, size, l, pairs);
    PutTogether(b, f, coff - 4, at, l.table, l.table + 40 * n);
  }

  lemma PutTogether(b: Bytes, f: File, coff: nat, optional: nat, table: nat, end: nat)
    requires coff <= optional <= table <= end <= |b|
    requires DosBytes(f) == b[..coff] && CoffBytes(f) == b[coff..optional] && OptionalBytes(f) == b[optional..table]
    requires TableBytes(f.headers) == b[table..end] && f.body == b[end..]
    ensures Written(f) == b
  {
    hide DosBytes, CoffBytes, OptionalBytes, TableBytes;
    assert b == b[..coff] + b[coff..optional] + b[optional..table] + b[table..end] + b[end..];
  }

  lemma DosRewritten(b: Bytes, f: File, coff: nat)
    requires 68 <= coff <= |b| && b[..2] == [0x4D, 0x5A] && f.dos == b[2..60] && f.stub == b[64..coff - 4]
    requires b[60..64] == ToLittleEndian(coff - 4, 4)
    ensures DosBytes(f) == b[..coff - 4]
  {
    hide ToLittleEndian;
    assert b[..coff - 4] == b[..2] + b[2..60] + b[60..64] + b[64..coff - 4];
  }

  lemma CoffRewritten(b: Bytes, f: File, coff: nat, n: nat, size: nat)
    requires 68 <= coff && coff + 20 <= |b| && b[coff - 4..coff] == [0x50, 0x45, 0, 0]
    requires b[coff..coff + 2] == ToLittleEndian(f.machine, 2) && b[coff + 2..coff + 4] == ToLittleEndian(n, 2)
    requires b[coff + 16..coff + 18] == ToLittleEndian(size, 2) && |f.headers| == n && OptionalSize(f) == size
    requires f.coffMiddle == b[coff + 4..coff + 16] && f.characteristics == b[coff + 18..coff + 20]
    ensures CoffBytes(f) == b[coff - 4..coff + 20]
  {
    hide ToLittleEndian, OptionalSize;
    var c := b[coff - 4..coff + 20];
    Within(b, coff - 4, c, 0, 4);
    Within(b, coff - 4, c, 4, 6);
    Within(b, coff - 4, c, 6, 8);
    Within(b, coff - 4, c, 8, 20);
    Within(b, coff - 4, c, 20, 22);
    Within(b, coff - 4, c, 22, 24);
    assert c == c[..4] + c[4..6] + c[6..8] + c[8..20] + c[20..22] + c[22..];
  }

  lemma OptionalRewritten(b: Bytes, f: File, at: nat, size: nat, l: Layout, pairs: Bytes)
    requires at + size <= |b| && 112 + 8 * l.directoryCount <= size && Word(b, at, 2) == Some(0x20B)
    requires |pairs| == 8 * l.directoryCount && pairs == b[at + 112..at + 112 + 8 * l.directoryCount]
    requires DirectoryBytes(f.directories) == pairs && |f.directories| == l.directoryCount
    requires b[at + 56..at + 60] == ToLittleEndian(f.sizeOfImage, 4)
             && b[at + 60..at + 64] == ToLittleEndian(f.sizeOfHeaders, 4)
    requires b[at + 108..at + 112] == ToLittleEndian(l.directoryCount, 4)
    requires f.optionalHead == b[at + 2..at + 56] && f.optionalMiddle == b[at + 64..at + 108]
    requires f.optionalRest == b[at + 112 + 8 * l.directoryCount..at + size]
    ensures OptionalBytes(f) == b[at..at + size]
  {
    hide ToLittleEndian, LittleEndian, DirectoryBytes;
    MagicOnly(b[at..at + 2]);
    var whole := b[at..at + size];
    assert whole == b[at..at + 2] + b[at + 2..at + 56] + b[at + 56..at + 60] + b[at + 60..at + 64]
      + b[at + 64..at + 108]
                    + b[at + 108..at + 112] + pairs + b[at + 112 + 8 * l.directoryCount..at + size];
  }

  lemma MagicOnly(b: Bytes)
    requires |b| == 2 && LittleEndian(b) == 0x20B
    ensures b == [0x0B, 0x02]
  {
    assert b[1..][1..] == [];
    var low: int, high: int := b[0], b[1];
    assert LittleEndian(b) == low + 0x100 * high;
  }

  /** Every accepted image is a written file, so the two theorems say everything about acceptance. */
  lemma AcceptedIsWritten(m: Image)
    requires Accepted(m)
    ensures exists f: File :: WellFormed(f) && Written(f) == m.bytes && Admissible(f, m.architecture) && ImageOf(m, f)
  {
    hide Written, WellFormed, Admissible, CoffOK, OptionalOK, SectionOK, Disjoint, ImageOf, SectionsOf, Regions;
    var l: Layout :| HeadersOK(m.bytes, m.architecture, l);
    var coff: nat, size: nat :| CoffOK(m.bytes, m.architecture, coff, l.sectionCount, size)
        && OptionalOK(m.bytes, coff, size, l);
    CutPoints(m.bytes, m.architecture, coff, size, l);
    FileRewritten(m.bytes, m.architecture, coff, size, l);
    WrittenIsRead(FileOf(m.bytes, coff, l.sectionCount, size, l), m.architecture);
  }

  lemma CutPoints(b: Bytes, arch: Architecture, coff: nat, size: nat, l: Layout)
    requires CoffOK(b, arch, coff, l.sectionCount, size) && OptionalOK(b, coff, size, l)
    ensures 68 <= coff && l.optional == coff + 20 && l.table == l.optional + size
            && l.table + 40 * l.sectionCount <= |b|
    ensures 112 + 8 * l.directoryCount <= size
  {}
}
