/**
 Imports, delay imports and resources of an accepted image ("PE Format", sections "The .idata
 Section", "Delay-Load Import Tables", "The .rsrc Section"), read under shared budgets that only
 ever shrink.
 */
module PeDirectories {
  import opened Bytes
  import opened PeReader

  const READ_LIMIT: nat := 16 * 1024 * 1024
  const MODULE_LIMIT: nat := 128
  const SYMBOL_LIMIT: nat := 4096
  const STRING_LIMIT: nat := 1024
  const RESOURCE_LIMIT: nat := 4096
  const MANIFEST_LIMIT: nat := 4096
  const MANIFEST_TOTAL_LIMIT: nat := 64 * 1024
  const ORDINAL_FLAG: nat := 0x8000_0000_0000_0000
  const HIGH_BIT: nat := 0x8000_0000

  datatype Error =
    | Format(reason: Reason)
    | DirectoryPairInvalid | DirectoryNotDeclared | BudgetExceeded | UnterminatedTable | InvalidImport
    | UnsupportedBoundImport | UnsupportedDelayMode | InvalidResource | ResourceCycleOrAlias | InvalidManifest

  datatype Symbol = Named(name: Bytes) | Ordinal(number: nat)

  datatype Module = Module(name: Bytes, symbols: seq<Symbol>)

  // ----- names ----------------------------------------------------------------------------

  predicate NameByte(b: byte, dll: bool) { if dll then 32 <= b <= 126 else 1 <= b <= 127 }

  /** Neither a directory reference nor a path: `.`, `..`, `/`, `\` and `:` have no place in a DLL name. */
  predicate PlainDll(name: Bytes) {
    name != [0x2E] && name != [0x2E, 0x2E] && forall i :: 0 <= i < |name| ==> name[i] !in {0x2F, 0x5C, 0x3A}
  }

  lemma Plain(name: Bytes)
    requires name != [0x2E] && name != [0x2E, 0x2E] && 0x2F !in name && 0x5C !in name && 0x3A !in name
    ensures PlainDll(name)
  {}

  lemma NotPlain(name: Bytes)
    requires name == [0x2E] || name == [0x2E, 0x2E] || 0x2F in name || 0x5C in name || 0x3A in name
    ensures !PlainDll(name)
  {}

  /** One non-empty, terminated name, complete inside a single region. */
  predicate IsName(m: Image, rva: int, name: Bytes, dll: bool) {
    && 0 < |name| < 1024 && Content(m, rva, |name| + 1) == Some(name + [0])
    && (forall i :: 0 <= i < |name| ==> NameByte(name[i], dll)) && (dll ==> PlainDll(name))
  }

  // ----- thunks ---------------------------------------------------------------------------

  /** A non-zero 64-bit table entry. */
  predicate IsEntry(m: Image, rva: int, value: nat) {
    0 < value < WORD64 && Content(m, rva, 8) == Some(ToLittleEndian(value, 8))
  }

  /** The table of `values` at `rva`, zero-terminated and complete inside one region. */
  predicate IsTable(m: Image, rva: int, values: seq<nat>) {
    && rva != 0 && Content(m, rva, 8 * (|values| + 1)).Some?
    && (forall i :: 0 <= i < |values| ==> IsEntry(m, rva + 8 * i, values[i]))
    && Content(m, rva + 8 * |values|, 8) == Some(ToLittleEndian(0, 8))
  }

  /** What one non-zero lookup value stands for. */
  predicate Denotes(m: Image, value: nat, s: Symbol) {
    match s
    case Ordinal(number) => number <= 0xFFFF && value == 0x8000_0000_0000_0000 + number
    case Named(name) =>
      && value <= 0xFFFF_FFFF && IsName(m, value + 2, name, false) && Content(m, value, 2 + |name| + 1).Some?
  }

  predicate IsThunks(m: Image, rva: int, values: seq<nat>, symbols: seq<Symbol>) {
    && IsTable(m, rva, values) && |symbols| == |values|
    && forall i :: 0 <= i < |values| ==> Denotes(m, values[i], symbols[i])
  }

  // ----- descriptors ------------------------------------------------------------------------

  /** The 32-bit words of one descriptor. */
  function Words(b: Bytes): (ws: seq<nat>)
    requires |b| % 4 == 0
    ensures |ws| == |b| / 4
  {
    seq(|b| / 4, i requires 0 <= i < |b| / 4 => LittleEndian(b[4 * i..4 * i + 4]))
  }

  /** Each field is four bytes, least significant first. */
  lemma DescriptorFields(b: Bytes, i: nat)
    requires |b| % 4 == 0 && i < |b| / 4
    ensures Words(b)[i] == Octets4(b[4 * i], b[4 * i + 1], b[4 * i + 2], b[4 * i + 3])
  {
    WordsInNumbers(b[4 * i..4 * i + 4]);
  }

  function Stride(delay: bool): (n: nat) { if delay then 32 else 20 }

  predicate AllZero(ws: seq<nat>) { forall i :: 0 <= i < |ws| ==> ws[i] == 0 }

  /** Ordinary descriptors: lookup, timestamp, forwarder, name, IAT; unbound, with an IAT equal to the lookup table. */
  ghost predicate OrdinaryMeans(m: Image, ws: seq<nat>, entry: Module)
    requires |ws| == 5
  {
    && ws[1] == 0 && ws[3] != 0 && IsName(m, ws[3], entry.name, true)
    && exists values: seq<nat> ::
         IsThunks(m, if ws[0] != 0 then ws[0] else ws[4], values, entry.symbols) && IsTable(m, ws[4], values)
  }

  /** Delay descriptors: attributes, name, handle, IAT, lookup, bound, unload, timestamp. */
  ghost predicate DelayMeans(m: Image, ws: seq<nat>, entry: Module)
    requires |ws| == 8
  {
    && ws[0] == 1 && ws[5] == 0 && ws[7] == 0 && ws[1] != 0 && ws[2] != 0 && Content(m, ws[2], 8).Some?
    && IsName(m, ws[1], entry.name, true)
    && exists values: seq<nat>, slots: seq<nat>, unloads: seq<nat> ::
         && IsThunks(m, ws[4], values, entry.symbols)
         && |slots| == |values| && IsTable(m, ws[3], slots)
         && (ws[6] != 0 ==> |unloads| == |values| && IsTable(m, ws[6], unloads))
  }

  /** The descriptor at `index` of the table. */
  function DescriptorAt(m: Image, start: nat, delay: bool, index: nat): (ws: Option<seq<nat>>)
    ensures ws.Some? ==> |ws.value| == Stride(delay) / 4
  {
    match Content(m, start + (if delay then 32 else 20) * index, if delay then 32 else 20)
    case None => None
    case Some(b) => Some(Words(b))
  }

  ghost predicate DescriptorMeans(m: Image, start: nat, delay: bool, index: nat, entry: Module) {
    var ws := DescriptorAt(m, start, delay, index);
    && ws.Some? && !AllZero(ws.value)
    && if delay then DelayMeans(m, ws.value, entry) else OrdinaryMeans(m, ws.value, entry)
  }

  /** The descriptors before the first all-zero one, which lies inside the declared size. */
  ghost predicate ImportsMean(m: Image, start: nat, size: nat, delay: bool, modules: seq<Module>) {
    && (forall i :: 0 <= i < |modules| ==> DescriptorMeans(m, start, delay, i, modules[i]))
    && Stride(delay) * (|modules| + 1) <= size
    && DescriptorAt(m, start, delay, |modules|).Some? && AllZero(DescriptorAt(m, start, delay, |modules|).value)
  }

  /** Budgets, each spent by every part of one inspection. */
  datatype Budget = Budget(read: nat, modules: nat, symbols: nat, resources: nat, manifests: nat)

  const FULL := Budget(READ_LIMIT, MODULE_LIMIT, SYMBOL_LIMIT, RESOURCE_LIMIT, MANIFEST_TOTAL_LIMIT)

  predicate Within(after: Budget, before: Budget) {
    && after.read <= before.read && after.modules <= before.modules && after.symbols <= before.symbols
    && after.resources <= before.resources && after.manifests <= before.manifests
  }

  function NameCost(name: Bytes): (n: nat) { |name| + 1 }

  /** Bytes read for the hint and the name behind one value. */
  function SymbolCost(s: Symbol): (n: nat) {
    match s case Named(name) => 2 + NameCost(name) case Ordinal(_) => 0
  }

  /** Bytes read for the names behind a thunk table. */
  function SymbolsCost(symbols: seq<Symbol>): (n: nat) {
    if symbols == [] then 0
    else SymbolsCost(symbols[..|symbols| - 1]) + SymbolCost(symbols[|symbols| - 1])
  }

  /** Bytes read for a lookup table and what it names. */
  function ThunksCost(symbols: seq<Symbol>): (n: nat) { 8 * (|symbols| + 1) + SymbolsCost(symbols) }

  /** Bytes read for what an ordinary descriptor names: the DLL, the lookup table and the address table. */
  function OrdinaryCost(entry: Module): (n: nat) {
    NameCost(entry.name) + ThunksCost(entry.symbols) + 8 * (|entry.symbols| + 1)
  }

  /** A delay descriptor has a module handle besides, and may have an unload table. */
  function DelayCost(ws: seq<nat>, entry: Module): (n: nat)
    requires |ws| == 8
  {
    8 + OrdinaryCost(entry) + if ws[6] != 0 then 8 * (|entry.symbols| + 1) else 0
  }

  /** Bytes read for the descriptor at `index` and what it names. */
  function DescriptorCost(m: Image, start: nat, delay: bool, index: nat, entry: Module): (n: nat) {
    match DescriptorAt(m, start, delay, index)
    case None => 0
    case Some(ws) => Stride(delay) + if delay then DelayCost(ws, entry) else OrdinaryCost(entry)
  }

  function DescriptorsCost(m: Image, start: nat, delay: bool, modules: seq<Module>): (n: nat) {
    if modules == [] then 0
    else
      var last := |modules| - 1;
      DescriptorsCost(m, start, delay, modules[..last]) + DescriptorCost(m, start, delay, last, modules[last])
  }

  function TotalSymbols(modules: seq<Module>): (n: nat) {
    if modules == [] then 0 else TotalSymbols(modules[..|modules| - 1]) + |modules[|modules| - 1].symbols|
  }

  /** What reading these modules leaves of a budget, beside the terminating descriptor. */
  predicate Affords(before: Budget, m: Image, start: nat, delay: bool, modules: seq<Module>) {
    && |modules| <= before.modules && TotalSymbols(modules) <= before.symbols
    && DescriptorsCost(m, start, delay, modules) + Stride(delay) <= before.read
  }

  class Inspection {
    const pe: Image
    var left: Budget

    ghost predicate Valid()
      reads this
    {
      Accepted(pe)
    }

    constructor (pe: Image)
      requires Accepted(pe)
      ensures Valid() && this.pe == pe && left == FULL == Budget(0x100_0000, 128, 4096, 4096, 0x1_0000)
    {
      this.pe := pe;
      left := FULL;
    }

    /** `read`: charged before the bytes are looked at, and charged again when read again. */
    method Read(rva: int, size: nat) returns (r: Result<Bytes, Error>)
      requires Valid()
      modifies this
      ensures Valid()
      ensures left == if size <= old(left).read then old(left).(read := old(left).read - size) else old(left)
      ensures r.Ok? ==> Content(pe, rva, size) == Some(r.value)
      ensures r.Ok? <==> size <= old(left).read && Content(pe, rva, size).Some?
    {
      hide Accepted, Content;
      if size > left.read { return Err(BudgetExceeded); }
      left := left.(read := left.read - size);
      var b := ReadRva(pe, rva, size);
      r := if b.Ok? then Ok(b.value) else Err(Format(b.error));
    }

    method Check(rva: int, size: int) returns (e: Option<Error>)
      requires Valid()
      ensures e.None? <==> Content(pe, rva, size).Some?
    {
      hide Accepted, Content;
      ContentMeansBacking(pe, rva, size);
      var o := RvaToOffset(pe, rva, size);
      e := if o.Ok? then None else Some(Format(o.error));
    }

    /** `ascii`. */
    method Ascii(rva: int, dll: bool) returns (r: Result<Bytes, Error>)
      requires Valid()
      modifies this
      ensures Valid() && Within(left, old(left)) && left == old(left).(read := left.read)
      ensures r.Ok? ==>
                && IsName(pe, rva, r.value, dll) && NameCost(r.value) <= old(left).read
                && left == old(left).(read := old(left).read - NameCost(r.value))
      ensures r.Err? ==> forall name: Bytes :: IsName(pe, rva, name, dll) ==> NameCost(name) > old(left).read
    {
      hide Accepted, Content, IsName, PlainDll;
      var raw: Bytes := [];
      for index := 0 to STRING_LIMIT
        invariant Valid() && |raw| == index && index <= old(left).read
        invariant left == old(left).(read := old(left).read - index)
        invariant Spelled(pe, rva, raw, dll)
      {
        var one := Read(rva + index, 1);
        if one.Err? {
          Unread(pe, rva, raw, dll, old(left).read);
          return Err(one.error);
        }
        var b := one.value[0];
        assert one.value == [b];
        if b == 0 {
          var whole := Check(rva, index + 1);
          NameEnds(pe, rva, raw, dll);
          if whole.Some? { return Err(whole.value); }
          if raw == [] { return Err(InvalidImport); }
          if dll && (raw == [0x2E] || raw == [0x2E, 0x2E] || 0x2F in raw || 0x5C in raw || 0x3A in raw) {
            NotPlain(raw);
            return Err(InvalidImport);
          }
          if dll { Plain(raw); }
          return Ok(raw);
        }
        if b > 127 || (dll && !(32 <= b <= 126)) {
          BadByte(pe, rva, raw, dll, b);
          return Err(InvalidImport);
        }
        raw := raw + [b];
      }
      Unended(pe, rva, raw, dll);
      r := Err(BudgetExceeded);
    }

    /** One non-zero lookup value. */
    method Resolve(value: nat) returns (r: Result<Symbol, Error>)
      requires Valid() && value != 0
      modifies this
      ensures Valid() && Within(left, old(left)) && left == old(left).(read := left.read)
      ensures r.Ok? ==> Denotes(pe, value, r.value) && SymbolCost(r.value) <= old(left).read
                        && left == old(left).(read := old(left).read - SymbolCost(r.value))
      ensures r.Err? ==> forall s: Symbol :: Denotes(pe, value, s) ==> SymbolCost(s) > old(left).read
    {
      hide Accepted, Content, IsName;
      if value >= ORDINAL_FLAG {
        // every bit between the flag and the low word must be clear
        if value - ORDINAL_FLAG > 0xFFFF { return Err(InvalidImport); }
        return Ok(Ordinal(value - ORDINAL_FLAG));
      }
      if value > 0xFFFF_FFFF { return Err(InvalidImport); }
      NamedOnly(pe, value);
      var hint := Read(value, 2);
      if hint.Err? { return Err(hint.error); }
      var name := Ascii(value + 2, false);
      if name.Err? { return Err(name.error); }
      var whole := Check(value, 2 + |name.value| + 1);
      if whole.Some? {
        NameIsUnique(pe, value + 2, name.value, false);
        return Err(whole.value);
      }
      r := Ok(Named(name.value));
    }

    /** One entry of a thunk table: its end, or a value and what it stands for. */
    method NextThunk(rva: int) returns (r: Result<Option<(nat, Symbol)>, Error>)
      requires Valid()
      modifies this
      ensures Valid() && Within(left, old(left)) && left == old(left).(read := left.read, symbols := left.symbols)
      ensures r == Ok(None) ==>
                Content(pe, rva, 8) == Some(ToLittleEndian(0, 8)) && 8 <= old(left).read
                && left == old(left).(read := old(left).read - 8)
      ensures r.Ok? && r.value.Some? ==>
                var (value, symbol) := r.value.value;
                && IsEntry(pe, rva, value) && Denotes(pe, value, symbol)
                && 1 <= old(left).symbols && 8 + SymbolCost(symbol) <= old(left).read
                && left == old(left).(symbols := old(left).symbols - 1, read := old(left).read - 8 - SymbolCost(symbol))
      ensures r.Err? ==> NoThunk(pe, rva, old(left))
    {
      hide Accepted, Content, IsName, Denotes, SymbolCost, LittleEndian, ToLittleEndian;
      Power256Values();
      var entry := Read(rva, 8);
      if entry.Err? { return Err(entry.error); }
      var value := LittleEndian(entry.value);
      LittleEndianRoundTrip(entry.value);
      EntryIsUnique(pe, rva, value);
      if value == 0 { return Ok(None); }
      if left.symbols < 1 { return Err(BudgetExceeded); }
      left := left.(symbols := left.symbols - 1);
      var symbol := Resolve(value);
      if symbol.Err? { return Err(symbol.error); }
      r := Ok(Some((value, symbol.value)));
    }

    /** `thunks`: each entry costs one symbol, so the loop ends on any bytes. */
    method Thunks(rva: nat) returns (r: Result<(seq<nat>, seq<Symbol>), Error>)
      requires Valid()
      modifies this
      ensures Valid() && Within(left, old(left)) && left == old(left).(read := left.read, symbols := left.symbols)
      ensures r.Ok? ==>
                && IsThunks(pe, rva, r.value.0, r.value.1) && |r.value.1| == |r.value.0| <= old(left).symbols
                && ThunksCost(r.value.1) <= old(left).read
                && left == old(left).(symbols := old(left).symbols - |r.value.0|,
                                      read := old(left).read - ThunksCost(r.value.1))
      ensures r.Err? ==> NoThunks(pe, rva, old(left))
    {
      hide Accepted, Content, IsName, Denotes, SymbolCost, SymbolsCost, IsTable, IsEntry, NoThunk, NoThunks;
      if rva == 0 {
        NoTableAtZero(pe, left);
        return Err(InvalidImport);
      }
      var values: seq<nat>, symbols: seq<Symbol> := [], [];
      NoSymbols();
      while true
        invariant Valid() && Within(left, old(left)) && ReadSoFar(pe, rva, values, symbols)
        invariant |values| <= old(left).symbols && 8 * |values| + SymbolsCost(symbols) <= old(left).read
        invariant left == old(left).(symbols := old(left).symbols - |values|,
                                     read := old(left).read - 8 * |values| - SymbolsCost(symbols))
        decreases left.symbols
      {
        var next := NextThunk(rva + |values| * 8);
        if next.Err? {
          ThunksRefused(pe, rva, values, symbols, old(left));
          return Err(next.error);
        }
        if next.value == None {
          var whole := Check(rva, (|values| + 1) * 8);
          if whole.Some? {
            TableIncomplete(pe, rva, values, symbols, old(left));
            return Err(whole.value);
          }
          TableFromParts(pe, rva, values);
          return Ok((values, symbols));
        }
        var (value, symbol) := next.value.value;
        CostGrows(symbols, symbol);
        values, symbols := values + [value], symbols + [symbol];
      }
    }

    /** `address_table`. */
    method AddressTable(rva: nat, count: nat, expected: Option<seq<nat>>) returns (r: Result<seq<nat>, Error>)
      requires Valid() && (expected.Some? ==> |expected.value| == count)
      modifies this
      ensures Valid() && Within(left, old(left)) && left == old(left).(read := left.read)
      ensures r.Ok? ==>
                && |r.value| == count && IsTable(pe, rva, r.value)
                && (expected.Some? ==> r.value == expected.value)
      ensures r.Ok? ==> left.read + 8 * (count + 1) == old(left).read
      ensures r.Err? ==> NoAddresses(pe, rva, count, expected, old(left))
    {
      hide Accepted, Content, LittleEndian, IsTable;
      TablesAreWhole(pe, rva, count);
      if rva == 0 { return Err(InvalidImport); }
      var raw := Read(rva, (count + 1) * 8);
      if raw.Err? { return Err(raw.error); }
      var values: seq<nat> := [];
      for i := 0 to count
        invariant Valid() && left == old(left).(read := old(left).read - (count + 1) * 8)
                  && (count + 1) * 8 <= old(left).read
        invariant |values| == i && forall k :: 0 <= k < i ==> values[k] == LittleEndian(raw.value[8 * k..8 * k + 8])
      {
        values := values + [LittleEndian(raw.value[8 * i..8 * i + 8])];
      }
      var last := LittleEndian(raw.value[8 * count..8 * count + 8]);
      AddressesDiffer(pe, rva, raw.value, values, last, expected, old(left));
      if last != 0 || exists k :: 0 <= k < count && values[k] == 0 { return Err(InvalidImport); }
      if expected.Some? && values != expected.value { return Err(InvalidImport); }
      TableFromWhole(pe, rva, raw.value, values);
      r := Ok(values);
    }

    /** One ordinary descriptor. */
    method Ordinary(ws: seq<nat>) returns (r: Result<Module, Error>)
      requires Valid() && |ws| == 5
      modifies this
      ensures Valid() && Within(left, old(left)) && left == old(left).(read := left.read, symbols := left.symbols)
      ensures r.Ok? ==>
                && OrdinaryMeans(pe, ws, r.value) && left.symbols + |r.value.symbols| == old(left).symbols
                && left.read + OrdinaryCost(r.value) == old(left).read
      ensures r.Err? ==> NoOrdinary(pe, ws, old(left))
    {
      hide Accepted, Content, IsName, IsTable, Denotes, SymbolsCost, IsThunks, NoThunks, NoAddresses, NoOrdinary;
      NotOrdinary(pe, ws, left);
      if ws[1] != 0 { return Err(UnsupportedBoundImport); }
      var lookup := if ws[0] != 0 then ws[0] else ws[4];
      if ws[3] == 0 { return Err(InvalidImport); }
      var dll := Ascii(ws[3], true);
      if dll.Err? {
        OrdinaryUnnamed(pe, ws, old(left));
        return Err(dll.error);
      }
      ghost var named := left;
      var thunks := Thunks(lookup);
      if thunks.Err? {
        OrdinaryWithoutThunks(pe, ws, dll.value, old(left), named);
        return Err(thunks.error);
      }
      ghost var listed := left;
      var slots := AddressTable(ws[4], |thunks.value.0|, Some(thunks.value.0));
      if slots.Err? {
        OrdinaryWithoutSlots(pe, ws, dll.value, thunks.value.0, thunks.value.1, old(left), listed);
        return Err(slots.error);
      }
      r := Ok(Module(dll.value, thunks.value.1));
    }

    /** One delay-load descriptor. */
    method Delayed(ws: seq<nat>) returns (r: Result<Module, Error>)
      requires Valid() && |ws| == 8
      modifies this
      ensures Valid() && Within(left, old(left)) && left == old(left).(read := left.read, symbols := left.symbols)
      ensures r.Ok? ==>
                && DelayMeans(pe, ws, r.value) && left.symbols + |r.value.symbols| == old(left).symbols
                && left.read + DelayCost(ws, r.value) == old(left).read
      ensures r.Err? ==> NoDelayed(pe, ws, old(left))
    {
      hide Accepted, Content, IsName, IsTable, Denotes, SymbolsCost, IsThunks, NoThunks, NoAddresses, NoDelayed,
        DelayMeans;
      NotDelayed(pe, ws, left);
      if ws[0] != 1 { return Err(UnsupportedDelayMode); }
      if ws[5] != 0 || ws[7] != 0 { return Err(UnsupportedBoundImport); }
      if ws[2] == 0 { return Err(InvalidImport); }
      var handle := Read(ws[2], 8);
      if handle.Err? { return Err(handle.error); }
      if ws[1] == 0 { return Err(InvalidImport); }
      var dll := Ascii(ws[1], true);
      if dll.Err? {
        DelayUnnamed(pe, ws, old(left));
        return Err(dll.error);
      }
      r := DelayTables(ws, dll.value, old(left));
    }

    /** The tables of a delay descriptor whose handle and name have been read. */
    method DelayTables(ws: seq<nat>, name: Bytes, ghost before: Budget) returns (r: Result<Module, Error>)
      requires Valid() && |ws| == 8 && ws[0] == 1 && ws[5] == 0 && ws[7] == 0 && ws[1] != 0 && ws[2] != 0
      requires Content(pe, ws[2], 8).Some? && IsName(pe, ws[1], name, true)
      requires 8 + NameCost(name) <= before.read && left == before.(read := before.read - 8 - NameCost(name))
      modifies this
      ensures Valid() && Within(left, old(left)) && left == old(left).(read := left.read, symbols := left.symbols)
      ensures r.Ok? ==>
                && DelayMeans(pe, ws, r.value) && left.symbols + |r.value.symbols| == before.symbols
                && left.read + DelayCost(ws, r.value) == before.read
      ensures r.Err? ==> NoDelayed(pe, ws, before)
    {
      hide Accepted, Content, IsName, IsTable, Denotes, SymbolsCost, IsThunks, NoThunks, NoAddresses, NoDelayed,
        DelayMeans;
      var thunks := Thunks(ws[4]);
      if thunks.Err? {
        DelayWithoutThunks(pe, ws, name, before, old(left));
        return Err(thunks.error);
      }
      var (values, symbols) := thunks.value;
      ghost var listed := left;
      var slots := AddressTable(ws[3], |values|, None);
      if slots.Err? {
        DelayWithoutSlots(pe, ws, name, values, symbols, before, listed);
        return Err(slots.error);
      }
      var unloads: seq<nat> := [];
      if ws[6] != 0 {
        ghost var filled := left;
        var table := AddressTable(ws[6], |values|, None);
        if table.Err? {
          DelayWithoutUnloads(pe, ws, name, values, symbols, before, filled);
          return Err(table.error);
        }
        unloads := table.value;
      }
      r := Ok(Module(name, symbols));
      DelayWitness(pe, ws, r.value, values, slots.value, unloads);
    }

    /** One descriptor: the terminating one, or a module. */
    method Descriptor(start: nat, offset: nat, delay: bool, ghost index: nat) returns (r: Result<Option<Module>, Error>)
      requires Valid() && offset == Stride(delay) * index
      modifies this
      ensures Valid() && Within(left, old(left))
      ensures left == old(left).(read := left.read, modules := left.modules, symbols := left.symbols)
      ensures r == Ok(None) ==>
                && DescriptorAt(pe, start, delay, index).Some? && AllZero(DescriptorAt(pe, start, delay, index).value)
                && Stride(delay) <= old(left).read && left == old(left).(read := old(left).read - Stride(delay))
      ensures r.Ok? && r.value.Some? ==>
                && DescriptorMeans(pe, start, delay, index, r.value.value) && left.modules + 1 == old(left).modules
                && left.symbols + |r.value.value.symbols| == old(left).symbols
                && left.read + DescriptorCost(pe, start, delay, index, r.value.value) == old(left).read
      ensures r.Err? ==> NoDescriptor(pe, start, delay, index, old(left))
    {
      hide Accepted, Content, OrdinaryMeans, DelayMeans, OrdinaryCost, DelayCost, NoOrdinary, NoDelayed, Words;
      var raw := Read(start + offset, Stride(delay));
      if raw.Err? { return Err(raw.error); }
      var fields := Words(raw.value);
      assert DescriptorAt(pe, start, delay, index) == Some(fields);
      if forall i :: 0 <= i < |fields| ==> fields[i] == 0 { return Ok(None); }
      if left.modules < 1 { return Err(BudgetExceeded); }
      left := left.(modules := left.modules - 1);
      ghost var charged := left;
      var entry: Result<Module, Error>;
      if delay { entry := Delayed(fields); } else { entry := Ordinary(fields); }
      if entry.Err? {
        DescriptorRefused(pe, start, delay, index, fields, old(left), charged);
        return Err(entry.error);
      }
      r := Ok(Some(entry.value));
    }

    /** `imports`: it succeeds exactly when there is such a list of modules and the budgets cover it. */
    method Imports(start: nat, size: nat, delay: bool) returns (r: Result<seq<Module>, Error>)
      requires Valid()
      modifies this
      ensures Valid() && Within(left, old(left))
      ensures left == old(left).(read := left.read, modules := left.modules, symbols := left.symbols)
      ensures size == 0 ==> r == Ok([]) && left == old(left)
      ensures size > 0 && r.Ok? ==>
                && ImportsMean(pe, start, size, delay, r.value) && Affords(old(left), pe, start, delay, r.value)
                && left.read + DescriptorsCost(pe, start, delay, r.value) + Stride(delay) == old(left).read
      ensures size > 0 && r.Err? ==>
                forall modules :: ImportsMean(pe, start, size, delay, modules) ==>
                  !Affords(old(left), pe, start, delay, modules)
      ensures r.Ok? ==>
                left.modules + |r.value| == old(left).modules
                  && left.symbols + TotalSymbols(r.value) == old(left).symbols
    {
      hide Accepted, Content, DescriptorMeans, DescriptorAt, AllZero, DescriptorCost, NoDescriptor, ImportsMean,
        Affords,
        DescriptorsCost, TotalSymbols;
      NoModules(pe, start, delay);
      if size == 0 { return Ok([]); }
      var stride := Stride(delay);
      var modules: seq<Module> := [];
      var offset := 0;
      while offset + stride <= size
        invariant Valid() && Within(left, old(left)) && offset == stride * |modules|
        invariant left == old(left).(read := left.read, modules := left.modules, symbols := left.symbols)
        invariant left.modules + |modules| == old(left).modules
                  && left.symbols + TotalSymbols(modules) == old(left).symbols
        invariant left.read + DescriptorsCost(pe, start, delay, modules) == old(left).read
        invariant Described(pe, start, delay, modules)
        decreases size - offset
      {
        ghost var before := left;
        var next := Descriptor(start, offset, delay, |modules|);
        if next.Err? {
          ImportsRefused(pe, start, size, delay, modules, old(left), before);
          return Err(next.error);
        }
        offset := offset + stride;
        if next.value == None {
          ImportsEnd(pe, start, size, delay, modules, old(left));
          return Ok(modules);
        }
        ModulesGrow(pe, start, delay, modules, next.value.value);
        modules := modules + [next.value.value];
      }
      ImportsUnended(pe, start, size, delay, modules);
      r := Err(UnterminatedTable);
    }
  }

  lemma DelayWitness(m: Image, ws: seq<nat>, entry: Module, values: seq<nat>, slots: seq<nat>, unloads: seq<nat>)
    requires |ws| == 8 && ws[0] == 1 && ws[5] == 0 && ws[7] == 0 && ws[1] != 0 && ws[2] != 0
             && Content(m, ws[2], 8).Some?
    requires IsName(m, ws[1], entry.name, true) && IsThunks(m, ws[4], values, entry.symbols)
    requires |slots| == |values| && IsTable(m, ws[3], slots)
    requires ws[6] != 0 ==> |unloads| == |values| && IsTable(m, ws[6], unloads)
    ensures DelayMeans(m, ws, entry)
  {
    hide IsThunks, IsTable, IsName, Content;
  }

  // ----- what a refusal means ---------------------------------------------------------------

  lemma EntryIsUnique(m: Image, rva: int, value: nat)
    requires value < WORD64 && Content(m, rva, 8) == Some(ToLittleEndian(value, 8))
    ensures forall v: nat :: IsEntry(m, rva, v) ==> v == value
    ensures Content(m, rva, 8) == Some(ToLittleEndian(0, 8)) ==> value == 0
  {
    hide Content, ToLittleEndian, LittleEndian;
    Power256Values();
    FromLittleEndian(value, 8);
    FromLittleEndian(0, 8);
    forall v: nat | IsEntry(m, rva, v) ensures v == value {
      FromLittleEndian(v, 8);
    }
  }

  lemma NameIsUnique(m: Image, rva: int, name: Bytes, dll: bool)
    requires Accepted(m) && IsName(m, rva, name, dll)
    ensures forall other: Bytes :: IsName(m, rva, other, dll) ==> other == name
  {
    hide Accepted, Content;
    forall other: Bytes | IsName(m, rva, other, dll) ensures other == name {
      NamesAgree(m, rva, name, other, dll);
      NamesAgree(m, rva, other, name, dll);
      assert name[..|name|] == name && other[..|other|] == other;
    }
  }

  lemma NamesAgree(m: Image, rva: int, name: Bytes, other: Bytes, dll: bool)
    requires Accepted(m) && IsName(m, rva, name, dll) && IsName(m, rva, other, dll)
    ensures |name| <= |other| && other[..|name|] == name
  {
    hide Accepted, Content, IsName;
    forall i | 0 <= i < |name| ensures Content(m, rva + i, 1) == Some([name[i]]) && NameByte(name[i], dll) {
      NameBytes(m, rva, name, dll, i);
      var b := Content(m, rva + i, 1).value;
      assert b == [b[0]];
    }
    NamePrefix(m, rva, name, dll, other);
  }

  /** A value below the ordinals can only name something, and needs its hint and its name. */
  lemma NamedOnly(m: Image, value: nat)
    requires Accepted(m) && value < ORDINAL_FLAG
    ensures forall s: Symbol :: Denotes(m, value, s) ==> s.Named? && Content(m, value, 2).Some? && SymbolCost(s) >= 2
  {
    hide Accepted, Content, IsName;
    forall s: Symbol | Denotes(m, value, s) ensures s.Named? && Content(m, value, 2).Some? {
      ContentParts(m, value, 2 + |s.name| + 1, 0, 2);
    }
  }

  lemma SymbolIsUnique(m: Image, value: nat, s: Symbol)
    requires Accepted(m) && Denotes(m, value, s)
    ensures forall t: Symbol :: Denotes(m, value, t) ==> t == s
    ensures value < WORD64
  {
    hide Accepted, Content, IsName;
    if s.Named? { NameIsUnique(m, value + 2, s.name, false); }
  }

  /** Neither the end of the table nor an entry could be paid for at `rva`. */
  ghost predicate NoThunk(m: Image, rva: int, b: Budget) {
    && (Content(m, rva, 8) == Some(ToLittleEndian(0, 8)) ==> b.read < 8)
    && forall value: nat, s: Symbol :: IsEntry(m, rva, value) && Denotes(m, value, s) ==>
         b.symbols < 1 || 8 + SymbolCost(s) > b.read
  }

  ghost predicate NoThunks(m: Image, rva: int, b: Budget) {
    forall values: seq<nat>, symbols: seq<Symbol> :: IsThunks(m, rva, values, symbols) ==>
      |values| > b.symbols || ThunksCost(symbols) > b.read
  }

  ghost predicate NoAddresses(m: Image, rva: int, count: nat, expected: Option<seq<nat>>, b: Budget) {
    forall values: seq<nat> :: |values| == count && IsTable(m, rva, values)
      && (expected.Some? ==> values == expected.value)
      ==> 8 * (count + 1) > b.read
  }

  ghost predicate NoOrdinary(m: Image, ws: seq<nat>, b: Budget)
    requires |ws| == 5
  {
    forall entry: Module :: OrdinaryMeans(m, ws, entry) ==> |entry.symbols| > b.symbols || OrdinaryCost(entry) > b.read
  }

  ghost predicate NoDelayed(m: Image, ws: seq<nat>, b: Budget)
    requires |ws| == 8
  {
    forall entry: Module :: DelayMeans(m, ws, entry) ==> |entry.symbols| > b.symbols || DelayCost(ws, entry) > b.read
  }

  ghost predicate NoDescriptor(m: Image, start: nat, delay: bool, index: nat, b: Budget) {
    && (DescriptorAt(m, start, delay, index).Some? && AllZero(DescriptorAt(m, start, delay, index).value) ==>
        Stride(delay) > b.read)
    && forall entry: Module :: DescriptorMeans(m, start, delay, index, entry) ==>
         b.modules < 1 || |entry.symbols| > b.symbols || DescriptorCost(m, start, delay, index, entry) > b.read
  }

  // ----- tables -----------------------------------------------------------------------------

  /** The entries of a lookup table read one by one, before its end. */
  ghost predicate ReadSoFar(m: Image, rva: int, values: seq<nat>, symbols: seq<Symbol>) {
    && |symbols| == |values|
    && (forall i :: 0 <= i < |values| ==> IsEntry(m, rva + 8 * i, values[i]))
    && (forall i :: 0 <= i < |values| ==> Denotes(m, values[i], symbols[i]))
  }

  lemma NoSymbols()
    ensures SymbolsCost([]) == 0
  {}

  lemma NoTableAtZero(m: Image, b: Budget)
    ensures NoThunks(m, 0, b)
  {}

  /** Any table there is begins with what has been read. */
  lemma ThunksAgree(m: Image, rva: int, values: seq<nat>, symbols: seq<Symbol>, vs: seq<nat>, ss: seq<Symbol>)
    requires Accepted(m) && ReadSoFar(m, rva, values, symbols) && IsThunks(m, rva, vs, ss)
    ensures |values| <= |vs| == |ss| && vs[..|values|] == values && ss[..|values|] == symbols
  {
    hide Accepted, Content, Denotes, ToLittleEndian;
    forall i | 0 <= i < |values| && i < |vs| ensures vs[i] == values[i] && ss[i] == symbols[i] {
      EntryIsUnique(m, rva + 8 * i, values[i]);
      assert IsEntry(m, rva + 8 * i, vs[i]);
      SymbolIsUnique(m, values[i], symbols[i]);
    }
    if |vs| < |values| {
      EntryIsUnique(m, rva + 8 * |vs|, values[|vs|]);
      assert false;
    }
  }

  lemma {:induction false} SymbolsCostUpTo(symbols: seq<Symbol>, k: nat)
    requires k < |symbols|
    ensures SymbolsCost(symbols[..k]) + SymbolCost(symbols[k]) <= SymbolsCost(symbols)
  {
    var last := |symbols| - 1;
    if k < last {
      SymbolsCostUpTo(symbols[..last], k);
      assert symbols[..last][..k] == symbols[..k];
    }
  }

  lemma ThunksRefused(m: Image, rva: int, values: seq<nat>, symbols: seq<Symbol>, b: Budget)
    requires Accepted(m) && ReadSoFar(m, rva, values, symbols)
    requires |values| <= b.symbols && 8 * |values| + SymbolsCost(symbols) <= b.read
    requires NoThunk(m, rva + |values| * 8,
                     b.(symbols := b.symbols - |values|, read := b.read - 8 * |values| - SymbolsCost(symbols)))
    ensures NoThunks(m, rva, b)
  {
    hide Accepted, Content, Denotes, SymbolCost, SymbolsCost, ToLittleEndian, IsEntry, ReadSoFar;
    forall vs: seq<nat>, ss: seq<Symbol> | IsThunks(m, rva, vs, ss)
      ensures |vs| > b.symbols || ThunksCost(ss) > b.read
    {
      var k := |values|;
      ThunksAgree(m, rva, values, symbols, vs, ss);
      if |vs| == k {
        assert ss[..k] == ss;
      } else {
        assert IsEntry(m, rva + 8 * k, vs[k]) && Denotes(m, vs[k], ss[k]);
        SymbolsCostUpTo(ss, k);
      }
    }
  }

  /** A table ends where the first zero is. */
  lemma TableEnds(m: Image, rva: int, values: seq<nat>, symbols: seq<Symbol>, vs: seq<nat>, ss: seq<Symbol>)
    requires Accepted(m) && ReadSoFar(m, rva, values, symbols) && IsThunks(m, rva, vs, ss)
    requires Content(m, rva + |values| * 8, 8) == Some(ToLittleEndian(0, 8))
    ensures vs == values
  {
    hide Accepted, Content, Denotes, ToLittleEndian, ReadSoFar;
    ThunksAgree(m, rva, values, symbols, vs, ss);
    if |vs| > |values| {
      assert IsEntry(m, rva + 8 * |values|, vs[|values|]);
      EntryIsUnique(m, rva + 8 * |values|, 0);
    }
    assert vs[..|vs|] == vs;
  }

  /** The table's end was found, but not in the region of its beginning. */
  lemma TableIncomplete(m: Image, rva: int, values: seq<nat>, symbols: seq<Symbol>, b: Budget)
    requires Accepted(m) && ReadSoFar(m, rva, values, symbols)
    requires Content(m, rva + |values| * 8, 8) == Some(ToLittleEndian(0, 8))
             && Content(m, rva, (|values| + 1) * 8) == None
    ensures NoThunks(m, rva, b)
  {
    hide Accepted, Content, Denotes, ToLittleEndian, ReadSoFar;
    forall vs: seq<nat>, ss: seq<Symbol> ensures !IsThunks(m, rva, vs, ss) {
      if IsThunks(m, rva, vs, ss) { TableEnds(m, rva, values, symbols, vs, ss); }
    }
  }

  lemma ThunksAreUnique(m: Image, rva: int, values: seq<nat>, symbols: seq<Symbol>, vs: seq<nat>, ss: seq<Symbol>)
    requires Accepted(m) && IsThunks(m, rva, values, symbols) && IsThunks(m, rva, vs, ss)
    ensures vs == values && ss == symbols
  {
    hide Accepted, Content, Denotes, ToLittleEndian, IsEntry;
    ThunksAgree(m, rva, values, symbols, vs, ss);
    ThunksAgree(m, rva, vs, ss, values, symbols);
    assert vs[..|values|] == vs && ss[..|values|] == ss;
  }

  lemma TablesAreWhole(m: Image, rva: nat, count: nat)
    ensures forall values: seq<nat> :: |values| == count && IsTable(m, rva, values) ==>
              rva != 0 && Content(m, rva, (count + 1) * 8).Some?
  {
    hide Content;
    forall values: seq<nat> | |values| == count && IsTable(m, rva, values)
      ensures Content(m, rva, (count + 1) * 8).Some?
    {
      assert 8 * (|values| + 1) == (count + 1) * 8;
    }
  }

  /** Every table of that length has the words that were read. */
  lemma WholeFromTable(m: Image, rva: nat, count: nat, raw: Bytes)
    requires Accepted(m) && Content(m, rva, (count + 1) * 8) == Some(raw)
    ensures forall values: seq<nat> :: |values| == count && IsTable(m, rva, values) ==>
              && LittleEndian(raw[8 * count..8 * count + 8]) == 0
              && forall i :: 0 <= i < count ==> values[i] == LittleEndian(raw[8 * i..8 * i + 8]) && values[i] != 0
  {
    hide Accepted, Content, LittleEndian, ToLittleEndian;
    Power256Values();
    forall values: seq<nat>, i | |values| == count && IsTable(m, rva, values) && 0 <= i < count
      ensures values[i] == LittleEndian(raw[8 * i..8 * i + 8]) && values[i] != 0
    {
      ContentParts(m, rva, (count + 1) * 8, 8 * i, 8);
      assert IsEntry(m, rva + 8 * i, values[i]);
      FromLittleEndian(values[i], 8);
    }
    forall values: seq<nat> | |values| == count && IsTable(m, rva, values)
      ensures LittleEndian(raw[8 * count..8 * count + 8]) == 0
    {
      ContentParts(m, rva, (count + 1) * 8, 8 * count, 8);
      FromLittleEndian(0, 8);
    }
  }

  /** The words that were read make no table, or not the one that is wanted. */
  lemma AddressesDiffer(m: Image, rva: nat, raw: Bytes, values: seq<nat>, last: nat, expected: Option<seq<nat>>,
                        b: Budget)
    requires Accepted(m) && |raw| == (|values| + 1) * 8 && Content(m, rva, |raw|) == Some(raw)
    requires forall i :: 0 <= i < |values| ==> values[i] == LittleEndian(raw[8 * i..8 * i + 8])
    requires last == LittleEndian(raw[8 * |values|..8 * |values| + 8])
    ensures last != 0 || (exists k :: 0 <= k < |values| && values[k] == 0)
            || (expected.Some? && values != expected.value)
            ==> NoAddresses(m, rva, |values|, expected, b)
  {
    hide Accepted, Content, LittleEndian, IsTable;
    WholeFromTable(m, rva, |values|, raw);
    assert forall vs: seq<nat> :: |vs| == |values| && IsTable(m, rva, vs) ==> vs == values;
  }

  // ----- descriptors --------------------------------------------------------------------------

  lemma NotOrdinary(m: Image, ws: seq<nat>, b: Budget)
    requires |ws| == 5
    ensures ws[1] != 0 || ws[3] == 0 ==> NoOrdinary(m, ws, b)
  {
    hide IsName, IsThunks, IsTable;
  }

  lemma OrdinaryUnnamed(m: Image, ws: seq<nat>, b: Budget)
    requires |ws| == 5 && forall name: Bytes :: IsName(m, ws[3], name, true) ==> NameCost(name) > b.read
    ensures NoOrdinary(m, ws, b)
  {
    hide IsName, IsThunks, IsTable, SymbolsCost;
  }

  lemma OrdinaryWithoutThunks(m: Image, ws: seq<nat>, name: Bytes, b: Budget, left: Budget)
    requires Accepted(m) && |ws| == 5 && IsName(m, ws[3], name, true) && NameCost(name) <= b.read
    requires left == b.(read := b.read - NameCost(name)) && NoThunks(m, if ws[0] != 0 then ws[0] else ws[4], left)
    ensures NoOrdinary(m, ws, b)
  {
    hide Accepted, IsName, IsTable, SymbolsCost, Content, Denotes;
    NameIsUnique(m, ws[3], name, true);
    forall entry: Module | OrdinaryMeans(m, ws, entry)
      ensures |entry.symbols| > b.symbols || OrdinaryCost(entry) > b.read
    {
      var values: seq<nat> :| IsThunks(m, if ws[0] != 0 then ws[0] else ws[4], values, entry.symbols);
      assert entry.name == name && |values| == |entry.symbols|;
    }
  }

  lemma OrdinaryWithoutSlots(m: Image, ws: seq<nat>, name: Bytes, values: seq<nat>, symbols: seq<Symbol>, b: Budget,
                             left: Budget)
    requires Accepted(m) && |ws| == 5 && IsName(m, ws[3], name, true)
    requires IsThunks(m, if ws[0] != 0 then ws[0] else ws[4], values, symbols)
    requires left.read + NameCost(name) + ThunksCost(symbols) == b.read
             && NoAddresses(m, ws[4], |values|, Some(values), left)
    ensures NoOrdinary(m, ws, b)
  {
    hide Accepted, IsName, IsTable, SymbolsCost, Content, Denotes;
    NameIsUnique(m, ws[3], name, true);
    forall entry: Module | OrdinaryMeans(m, ws, entry)
      ensures |entry.symbols| > b.symbols || OrdinaryCost(entry) > b.read
    {
      var lookup := if ws[0] != 0 then ws[0] else ws[4];
      var vs: seq<nat> :| IsThunks(m, lookup, vs, entry.symbols) && IsTable(m, ws[4], vs);
      ThunksAreUnique(m, lookup, values, symbols, vs, entry.symbols);
    }
  }

  lemma NotDelayed(m: Image, ws: seq<nat>, b: Budget)
    requires |ws| == 8
    ensures ws[0] != 1 || ws[5] != 0 || ws[7] != 0 || ws[1] == 0 || ws[2] == 0 ==> NoDelayed(m, ws, b)
    ensures Content(m, ws[2], 8) == None || b.read < 8 ==> NoDelayed(m, ws, b)
  {
    hide IsName, IsThunks, IsTable, SymbolsCost, Content;
  }

  lemma DelayUnnamed(m: Image, ws: seq<nat>, b: Budget)
    requires |ws| == 8 && forall name: Bytes :: IsName(m, ws[1], name, true) ==> 8 + NameCost(name) > b.read
    ensures NoDelayed(m, ws, b)
  {
    hide IsName, IsThunks, IsTable, SymbolsCost, Content;
  }

  lemma DelayWithoutThunks(m: Image, ws: seq<nat>, name: Bytes, b: Budget, left: Budget)
    requires Accepted(m) && |ws| == 8 && IsName(m, ws[1], name, true) && 8 + NameCost(name) <= b.read
    requires left == b.(read := b.read - 8 - NameCost(name)) && NoThunks(m, ws[4], left)
    ensures NoDelayed(m, ws, b)
  {
    hide Accepted, IsName, IsTable, SymbolsCost, Content, Denotes;
    NameIsUnique(m, ws[1], name, true);
    forall entry: Module | DelayMeans(m, ws, entry)
      ensures |entry.symbols| > b.symbols || DelayCost(ws, entry) > b.read
    {
      var values: seq<nat>, slots: seq<nat>, unloads: seq<nat> :| IsThunks(m, ws[4], values, entry.symbols)
        && |slots| == |values| && IsTable(m, ws[3], slots)
           && (ws[6] != 0 ==> |unloads| == |values| && IsTable(m, ws[6], unloads));
      assert entry.name == name && |values| == |entry.symbols|;
    }
  }

  lemma DelayWithoutSlots(m: Image, ws: seq<nat>, name: Bytes, values: seq<nat>, symbols: seq<Symbol>, b: Budget,
                          left: Budget)
    requires Accepted(m) && |ws| == 8 && IsName(m, ws[1], name, true) && IsThunks(m, ws[4], values, symbols)
    requires left.read + 8 + NameCost(name) + ThunksCost(symbols) == b.read
             && NoAddresses(m, ws[3], |values|, None, left)
    ensures NoDelayed(m, ws, b)
  {
    hide Accepted, IsName, IsTable, SymbolsCost, Content, Denotes;
    NameIsUnique(m, ws[1], name, true);
    forall entry: Module | DelayMeans(m, ws, entry)
      ensures |entry.symbols| > b.symbols || DelayCost(ws, entry) > b.read
    {
      var vs: seq<nat>, slots: seq<nat>, unloads: seq<nat> :| IsThunks(m, ws[4], vs, entry.symbols)
        && |slots| == |vs| && IsTable(m, ws[3], slots)
           && (ws[6] != 0 ==> |unloads| == |vs| && IsTable(m, ws[6], unloads));
      ThunksAreUnique(m, ws[4], values, symbols, vs, entry.symbols);
    }
  }

  lemma DelayWithoutUnloads(m: Image, ws: seq<nat>, name: Bytes, values: seq<nat>, symbols: seq<Symbol>, b: Budget,
                            left: Budget)
    requires Accepted(m) && |ws| == 8 && IsName(m, ws[1], name, true) && IsThunks(m, ws[4], values, symbols)
             && ws[6] != 0
    requires left.read + 8 + NameCost(name) + ThunksCost(symbols) + 8 * (|values| + 1) == b.read
    requires NoAddresses(m, ws[6], |values|, None, left)
    ensures NoDelayed(m, ws, b)
  {
    hide Accepted, IsName, IsTable, SymbolsCost, Content, Denotes;
    NameIsUnique(m, ws[1], name, true);
    forall entry: Module | DelayMeans(m, ws, entry)
      ensures |entry.symbols| > b.symbols || DelayCost(ws, entry) > b.read
    {
      var vs: seq<nat>, slots: seq<nat>, unloads: seq<nat> :| IsThunks(m, ws[4], vs, entry.symbols)
        && |slots| == |vs| && IsTable(m, ws[3], slots)
           && (ws[6] != 0 ==> |unloads| == |vs| && IsTable(m, ws[6], unloads));
      ThunksAreUnique(m, ws[4], values, symbols, vs, entry.symbols);
    }
  }

  lemma OrdinaryIsUnique(m: Image, ws: seq<nat>, entry: Module, other: Module)
    requires Accepted(m) && |ws| == 5 && OrdinaryMeans(m, ws, entry) && OrdinaryMeans(m, ws, other)
    ensures other == entry
  {
    hide Accepted, IsName, IsTable, Content, Denotes, IsThunks;
    var lookup := if ws[0] != 0 then ws[0] else ws[4];
    NameIsUnique(m, ws[3], entry.name, true);
    var values: seq<nat> :| IsThunks(m, lookup, values, entry.symbols);
    var vs: seq<nat> :| IsThunks(m, lookup, vs, other.symbols);
    ThunksAreUnique(m, lookup, values, entry.symbols, vs, other.symbols);
  }

  lemma DelayIsUnique(m: Image, ws: seq<nat>, entry: Module, other: Module)
    requires Accepted(m) && |ws| == 8 && DelayMeans(m, ws, entry) && DelayMeans(m, ws, other)
    ensures other == entry
  {
    hide Accepted, IsName, IsTable, Content, Denotes, IsThunks;
    NameIsUnique(m, ws[1], entry.name, true);
    var values: seq<nat> :| IsThunks(m, ws[4], values, entry.symbols);
    var vs: seq<nat> :| IsThunks(m, ws[4], vs, other.symbols);
    ThunksAreUnique(m, ws[4], values, entry.symbols, vs, other.symbols);
  }

  lemma DescriptorRefused(m: Image, start: nat, delay: bool, index: nat, ws: seq<nat>, b: Budget, left: Budget)
    requires DescriptorAt(m, start, delay, index) == Some(ws) && !AllZero(ws) && Stride(delay) <= b.read
    requires left.read + Stride(delay) == b.read && left.symbols == b.symbols
    requires if delay then NoDelayed(m, ws, left) else NoOrdinary(m, ws, left)
    ensures NoDescriptor(m, start, delay, index, b)
  {
    hide DescriptorAt, AllZero, OrdinaryMeans, DelayMeans, OrdinaryCost, DelayCost;
  }

  // ----- whole tables of descriptors --------------------------------------------------------------

  ghost predicate Described(m: Image, start: nat, delay: bool, modules: seq<Module>) {
    forall i :: 0 <= i < |modules| ==> DescriptorMeans(m, start, delay, i, modules[i])
  }

  lemma NoModules(m: Image, start: nat, delay: bool)
    ensures TotalSymbols([]) == 0 && DescriptorsCost(m, start, delay, []) == 0 && Described(m, start, delay, [])
  {}

  lemma ModulesGrow(m: Image, start: nat, delay: bool, modules: seq<Module>, entry: Module)
    requires Described(m, start, delay, modules) && DescriptorMeans(m, start, delay, |modules|, entry)
    ensures Described(m, start, delay, modules + [entry])
    ensures TotalSymbols(modules + [entry]) == TotalSymbols(modules) + |entry.symbols|
    ensures DescriptorsCost(m, start, delay, modules + [entry])
            == DescriptorsCost(m, start, delay, modules) + DescriptorCost(m, start, delay, |modules|, entry)
  {
    hide DescriptorMeans, DescriptorCost;
    assert (modules + [entry])[..|modules|] == modules;
  }

  lemma {:induction false} CostsUpTo(m: Image, start: nat, delay: bool, modules: seq<Module>, k: nat)
    requires k < |modules|
    ensures TotalSymbols(modules[..k]) + |modules[k].symbols| <= TotalSymbols(modules)
    ensures DescriptorsCost(m, start, delay, modules[..k]) + DescriptorCost(m, start, delay, k, modules[k])
            <= DescriptorsCost(m, start, delay, modules)
  {
    hide DescriptorCost;
    var last := |modules| - 1;
    if k < last {
      CostsUpTo(m, start, delay, modules[..last], k);
      assert modules[..last][..k] == modules[..k];
    }
  }

  lemma NotZero(m: Image, start: nat, delay: bool, modules: seq<Module>, n: nat)
    requires Described(m, start, delay, modules) && n < |modules|
    ensures DescriptorAt(m, start, delay, n).Some? ==> !AllZero(DescriptorAt(m, start, delay, n).value)
  {
    hide DescriptorAt, AllZero, OrdinaryMeans, DelayMeans;
    assert DescriptorMeans(m, start, delay, n, modules[n]);
  }

  /** Any list of modules there is begins with what has been read. */
  lemma ModulesAgree(m: Image, start: nat, size: nat, delay: bool, modules: seq<Module>, others: seq<Module>)
    requires Accepted(m) && Described(m, start, delay, modules) && ImportsMean(m, start, size, delay, others)
    ensures |modules| <= |others| && others[..|modules|] == modules
  {
    hide Accepted, DescriptorAt, AllZero, OrdinaryMeans, DelayMeans;
    if |others| < |modules| { NotZero(m, start, delay, modules, |others|); }
    forall i | 0 <= i < |modules| ensures others[i] == modules[i] {
      assert DescriptorMeans(m, start, delay, i, modules[i]) && DescriptorMeans(m, start, delay, i, others[i]);
      var ws := DescriptorAt(m, start, delay, i).value;
      if delay { DelayIsUnique(m, ws, modules[i], others[i]); } else { OrdinaryIsUnique(m, ws, modules[i], others[i]); }
    }
  }

  /** One table has one meaning. */
  lemma ImportsAreUnique(m: Image, start: nat, size: nat, delay: bool, modules: seq<Module>, others: seq<Module>)
    requires Accepted(m) && ImportsMean(m, start, size, delay, modules) && ImportsMean(m, start, size, delay, others)
    ensures others == modules
  {
    hide Accepted, DescriptorAt, AllZero, DescriptorMeans;
    ModulesAgree(m, start, size, delay, modules, others);
    ModulesAgree(m, start, size, delay, others, modules);
    assert others[..|others|] == others;
  }

  lemma ImportsRefused(m: Image, start: nat, size: nat, delay: bool, modules: seq<Module>, b: Budget, left: Budget)
    requires Accepted(m) && Described(m, start, delay, modules) && NoDescriptor(m, start, delay, |modules|, left)
    requires left.modules + |modules| == b.modules && left.symbols + TotalSymbols(modules) == b.symbols
    requires left.read + DescriptorsCost(m, start, delay, modules) == b.read
    ensures forall others :: ImportsMean(m, start, size, delay, others) ==> !Affords(b, m, start, delay, others)
  {
    hide Accepted, DescriptorAt, AllZero, DescriptorMeans, DescriptorCost, TotalSymbols, DescriptorsCost, Described;
    forall others | ImportsMean(m, start, size, delay, others) ensures !Affords(b, m, start, delay, others) {
      var k := |modules|;
      ModulesAgree(m, start, size, delay, modules, others);
      if |others| == k {
        assert others == modules;
      } else {
        assert DescriptorMeans(m, start, delay, k, others[k]);
        CostsUpTo(m, start, delay, others, k);
      }
    }
  }

  lemma ImportsEnd(m: Image, start: nat, size: nat, delay: bool, modules: seq<Module>, b: Budget)
    requires Described(m, start, delay, modules) && Stride(delay) * |modules| + Stride(delay) <= size
    requires DescriptorAt(m, start, delay, |modules|).Some? && AllZero(DescriptorAt(m, start, delay, |modules|).value)
    requires |modules| <= b.modules && TotalSymbols(modules) <= b.symbols
    requires DescriptorsCost(m, start, delay, modules) + Stride(delay) <= b.read
    ensures ImportsMean(m, start, size, delay, modules) && Affords(b, m, start, delay, modules)
  {
    hide DescriptorAt, AllZero, DescriptorMeans, TotalSymbols, DescriptorsCost;
  }

  lemma ImportsUnended(m: Image, start: nat, size: nat, delay: bool, modules: seq<Module>)
    requires Accepted(m) && Described(m, start, delay, modules) && Stride(delay) * |modules| + Stride(delay) > size
    ensures forall others :: !ImportsMean(m, start, size, delay, others)
  {
    hide Accepted, DescriptorAt, AllZero, DescriptorMeans, Described;
    forall others ensures !ImportsMean(m, start, size, delay, others) {
      if ImportsMean(m, start, size, delay, others) { ModulesAgree(m, start, size, delay, modules, others); }
    }
  }

  /** The words of a complete table, found together, are what they are one by one. */
  lemma TableFromWhole(m: Image, rva: nat, raw: Bytes, values: seq<nat>)
    requires Accepted(m) && rva != 0 && |raw| == 8 * (|values| + 1) && Content(m, rva, |raw|) == Some(raw)
    requires forall i :: 0 <= i < |values| ==> values[i] != 0 && values[i] == LittleEndian(raw[8 * i..8 * i + 8])
    requires LittleEndian(raw[8 * |values|..8 * |values| + 8]) == 0
    ensures IsTable(m, rva, values)
  {
    hide Accepted, Content, LittleEndian, ToLittleEndian;
    Power256Values();
    forall i: nat | i <= |values|
      ensures Content(m, rva + 8 * i, 8) == Some(ToLittleEndian(LittleEndian(raw[8 * i..8 * i + 8]), 8))
      ensures LittleEndian(raw[8 * i..8 * i + 8]) < WORD64
    {
      ContentParts(m, rva, |raw|, 8 * i, 8);
      LittleEndianRoundTrip(raw[8 * i..8 * i + 8]);
    }
  }

  lemma TableFromParts(m: Image, rva: nat, values: seq<nat>)
    requires rva != 0 && Content(m, rva, 8 * (|values| + 1)).Some?
    requires forall i :: 0 <= i < |values| ==> IsEntry(m, rva + 8 * i, values[i])
    requires Content(m, rva + 8 * |values|, 8) == Some(ToLittleEndian(0, 8))
    ensures IsTable(m, rva, values)
  {
    hide Content;
  }

  lemma CostGrows(symbols: seq<Symbol>, s: Symbol)
    ensures SymbolsCost(symbols + [s]) == SymbolsCost(symbols) + SymbolCost(s)
  {
    assert (symbols + [s])[..|symbols|] == symbols;
  }

  function ByteOf(name: Bytes, i: nat): (b: byte) { if i < |name| then name[i] else 0 }

  /** What the bytes of a candidate name are, one by one. */
  lemma NameBytes(m: Image, rva: int, name: Bytes, dll: bool, i: nat)
    requires Accepted(m) && IsName(m, rva, name, dll) && i <= |name|
    ensures Content(m, rva + i, 1).Some?
    ensures forall b: byte :: Content(m, rva + i, 1) == Some([b]) ==> b == ByteOf(name, i)
    ensures i < |name| ==> NameByte(ByteOf(name, i), dll)
  {
    hide Accepted, Content;
    ContentParts(m, rva, |name| + 1, i, 1);
    assert Content(m, rva + i, 1).value == [(name + [0])[i]];
    assert i < |name| ==> NameByte(name[i], dll);
    forall b: byte | Content(m, rva + i, 1) == Some([b]) ensures b == ByteOf(name, i) {
      assert [b][0] == b;
    }
  }

  /** Bytes read one by one so far, none of them a terminator. */
  predicate Spelled(m: Image, rva: int, raw: Bytes, dll: bool) {
    forall i :: 0 <= i < |raw| ==> Content(m, rva + i, 1) == Some([raw[i]]) && NameByte(raw[i], dll)
  }

  lemma NamePrefix(m: Image, rva: int, raw: Bytes, dll: bool, name: Bytes)
    requires Accepted(m) && Spelled(m, rva, raw, dll) && IsName(m, rva, name, dll)
    ensures |raw| <= |name| && name[..|raw|] == raw
  {
    hide Accepted, Content, IsName;
    if |name| < |raw| {
      var b := raw[|name|];
      assert Content(m, rva + |name|, 1) == Some([b]) && NameByte(b, dll);
      NameBytes(m, rva, name, dll, |name|);
    }
    forall i | 0 <= i < |raw| && i < |name| ensures name[i] == raw[i] {
      NameBytes(m, rva, name, dll, i);
    }
  }

  /** The next byte cannot be read: every name there may be costs more than is left. */
  lemma Unread(m: Image, rva: int, raw: Bytes, dll: bool, budget: nat)
    requires Accepted(m) && Spelled(m, rva, raw, dll)
    requires budget <= |raw| || Content(m, rva + |raw|, 1) == None
    ensures forall name: Bytes :: IsName(m, rva, name, dll) ==> NameCost(name) > budget
  {
    hide Accepted, Content, IsName, Spelled;
    forall name: Bytes | IsName(m, rva, name, dll) ensures NameCost(name) > budget {
      NamePrefix(m, rva, raw, dll, name);
      NameBytes(m, rva, name, dll, |raw|);
    }
  }

  /** The next byte is a terminator. */
  lemma NameEnds(m: Image, rva: int, raw: Bytes, dll: bool)
    requires Accepted(m) && Spelled(m, rva, raw, dll) && Content(m, rva + |raw|, 1) == Some([0]) && |raw| < STRING_LIMIT
    ensures Content(m, rva, |raw| + 1).Some? && raw != [] && (dll ==> PlainDll(raw)) ==> IsName(m, rva, raw, dll)
    ensures Content(m, rva, |raw| + 1) == None || raw == [] || (dll && !PlainDll(raw)) ==>
              forall name: Bytes :: !IsName(m, rva, name, dll)
  {
    hide Accepted, Content, PlainDll;
    if Content(m, rva, |raw| + 1).Some? {
      var b := Content(m, rva, |raw| + 1).value;
      forall i | 0 <= i <= |raw| ensures b[i] == (raw + [0])[i] {
        ContentParts(m, rva, |raw| + 1, i, 1);
        assert b[i..i + 1] == [b[i]];
      }
      assert b == raw + [0];
    }
    forall name: Bytes | IsName(m, rva, name, dll) ensures name == raw {
      NamePrefix(m, rva, raw, dll, name);
      NameBytes(m, rva, name, dll, |raw|);
    }
  }

  /** The next byte belongs in no name. */
  lemma BadByte(m: Image, rva: int, raw: Bytes, dll: bool, b: byte)
    requires Accepted(m) && Spelled(m, rva, raw, dll) && Content(m, rva + |raw|, 1) == Some([b]) && b != 0
             && !NameByte(b, dll)
    ensures forall name: Bytes :: !IsName(m, rva, name, dll)
  {
    hide Accepted, Content, PlainDll, IsName, NameByte, Spelled;
    forall name: Bytes ensures !IsName(m, rva, name, dll) {
      if IsName(m, rva, name, dll) {
        NamePrefix(m, rva, raw, dll, name);
        NameBytes(m, rva, name, dll, |raw|);
      }
    }
  }

  lemma Unended(m: Image, rva: int, raw: Bytes, dll: bool)
    requires Accepted(m) && Spelled(m, rva, raw, dll) && |raw| == STRING_LIMIT
    ensures forall name: Bytes :: !IsName(m, rva, name, dll)
  {
    hide Accepted, Content, Spelled;
    forall name: Bytes ensures !IsName(m, rva, name, dll) {
      if IsName(m, rva, name, dll) { NamePrefix(m, rva, raw, dll, name); }
    }
  }
}
