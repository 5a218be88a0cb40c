/**
 The two classic-BPF programs the launcher installs, instruction by instruction, run by the
 interpreter the kernel uses for seccomp, and what they decide.
 */
module SeccompFilters {
  import opened Bytes

  type Word = bv32

  datatype Arch = X8664 | Aarch64

  /** The fields of `struct seccomp_data` the programs load; arguments are their low words. */
  datatype Field = ArchField | NumberField | Argument0 | Argument1 | Argument2

  datatype Call = Call(arch: Word, number: Word, argument0: Word, argument1: Word, argument2: Word)

  datatype Instruction =
    | Load(field: Field)
    | And(k: Word)
    | JumpEqual(k: Word, yes: nat, no: nat)
    | JumpSet(k: Word, yes: nat, no: nat)
    | Return(k: Word)

  const RET_KILL: Word := 0x8000_0000
  const RET_ERRNO_EPERM: Word := 0x0005_0001
  const RET_USER_NOTIF: Word := 0x7fc0_0000
  const RET_ALLOW: Word := 0x7fff_0000

  const X32_BIT: Word := 0x4000_0000
  const TYPE_MASK: Word := 0xf

  const AF_UNIX: Word := 1
  const AF_INET: Word := 2
  const AF_INET6: Word := 10
  const SOCK_STREAM: Word := 1
  const SOCK_DGRAM: Word := 2
  const SOCK_SEQPACKET: Word := 5
  const IPPROTO_TCP: Word := 6

  function AuditArch(a: Arch): (w: Word) { if a == X8664 then 0xc000_003e else 0xc000_00b7 }

  function SysSocket(a: Arch): (w: Word) { if a == X8664 then 41 else 198 }

  function SysSocketpair(a: Arch): (w: Word) { if a == X8664 then 53 else 199 }

  function SysIoUringSetup(a: Arch): (w: Word) { 425 }

  // ----- the interpreter --------------------------------------------------------------

  function Fetch(c: Call, f: Field): (w: Word) {
    match f
    case ArchField => c.arch
    case NumberField => c.number
    case Argument0 => c.argument0
    case Argument1 => c.argument1
    case Argument2 => c.argument2
  }

  /** How many instructions one step skips. */
  function Skipped(i: Instruction, a: Word): (n: nat) {
    match i
    case JumpEqual(k, yes, no) => if a == k then yes else no
    case JumpSet(k, yes, no) => if a & k != 0 then yes else no
    case _ => 0
  }

  /** What one step leaves in the accumulator. */
  function Accumulated(i: Instruction, a: Word, c: Call): (w: Word) {
    match i
    case Load(f) => Fetch(c, f)
    case And(k) => a & k
    case _ => a
  }

  /** The value returned from `pc` on, or `None` if control runs off the array. */
  function Run(p: seq<Instruction>, pc: nat, a: Word, c: Call): (r: Option<Word>)
    decreases |p| - pc
  {
    if pc >= |p| then None
    else if p[pc].Return? then Some(p[pc].k)
    else Run(p, pc + 1 + Skipped(p[pc], a), Accumulated(p[pc], a, c), c)
  }

  /** The kernel's load-time check: every path stays inside the array and ends in a return. */
  predicate Checked(p: seq<Instruction>) {
    forall i :: 0 <= i < |p| ==>
      match p[i]
      case JumpEqual(_, yes, no) => i + 1 + yes < |p| && i + 1 + no < |p|
      case JumpSet(_, yes, no) => i + 1 + yes < |p| && i + 1 + no < |p|
      case Return(_) => true
      case _ => i + 1 < |p|
  }

  lemma CheckedStep(p: seq<Instruction>, pc: nat, a: Word)
    requires Checked(p) && pc < |p| && !p[pc].Return?
    ensures pc + 1 + Skipped(p[pc], a) < |p|
  {}

  lemma {:induction false} CheckedTerminates(p: seq<Instruction>, pc: nat, a: Word, c: Call)
    requires Checked(p) && pc < |p|
    ensures Run(p, pc, a, c).Some?
    decreases |p| - pc
  {
    hide Skipped, Accumulated, Checked;
    if !p[pc].Return? {
      CheckedStep(p, pc, a);
      CheckedTerminates(p, pc + 1 + Skipped(p[pc], a), Accumulated(p[pc], a, c), c);
    }
  }

  // ----- the programs -----------------------------------------------------------------

  /** Both programs begin by refusing other ABIs, and leave the system call number loaded. */
  function Prologue(a: Arch): (p: seq<Instruction>)
    ensures |p| == if a == X8664 then 6 else 4
  {
    [Load(ArchField), JumpEqual(AuditArch(a), 1, 0), Return(RET_KILL), Load(NumberField)]
    + (if a == X8664 then [JumpSet(X32_BIT, 0, 1), Return(RET_KILL)] else [])
  }

  /** The block both programs end a `socketpair` call with: local IPC only. */
  function PairBlock(deny: Word): (p: seq<Instruction>) {
    [Load(Argument0),
     JumpEqual(AF_UNIX, 1, 0),
     Return(deny),
     Load(Argument1),
     And(TYPE_MASK),
     JumpEqual(SOCK_STREAM, 2, 0),
     JumpEqual(SOCK_DGRAM, 1, 0),
     JumpEqual(SOCK_SEQPACKET, 0, 2),
     Load(Argument2),
     JumpEqual(0, 1, 0),
     Return(deny),
     Return(RET_ALLOW),
     Return(deny)]
  }

  /** The block the loopback program answers a `socket` call with. */
  function SocketBlock(): (p: seq<Instruction>) {
    [Load(Argument0),
     JumpEqual(AF_INET, 1, 0),
     JumpEqual(AF_INET6, 0, 7),
     Load(Argument1),
     And(TYPE_MASK),
     JumpEqual(SOCK_STREAM, 0, 4),
     Load(Argument2),
     JumpEqual(0, 1, 0),
     JumpEqual(IPPROTO_TCP, 0, 1),
     Return(RET_ALLOW),
     Return(RET_ERRNO_EPERM)]
  }

  function DenyBody(a: Arch, deny: Word): (p: seq<Instruction>) {
    [JumpEqual(SysSocket(a), 0, 1), Return(deny), JumpEqual(SysSocketpair(a), 0, 13)]
    + PairBlock(deny)
    + [JumpEqual(SysIoUringSetup(a), 0, 1), Return(deny), Return(RET_ALLOW)]
  }

  function LoopbackBody(a: Arch): (p: seq<Instruction>) {
    [JumpEqual(SysIoUringSetup(a), 0, 1), Return(RET_ERRNO_EPERM), JumpEqual(SysSocket(a), 0, 11)]
    + SocketBlock()
    + [JumpEqual(SysSocketpair(a), 0, 13)]
    + PairBlock(RET_ERRNO_EPERM)
    + [Return(RET_ALLOW)]
  }

  /** `install_network_deny`'s array, with the action its caller's descriptor selects. */
  function DenyProgram(a: Arch, notify: bool): (p: seq<Instruction>) {
    Prologue(a) + DenyBody(a, if notify then RET_USER_NOTIF else RET_ERRNO_EPERM)
  }

  /** `install_network_loopback_only`'s array. */
  function LoopbackProgram(a: Arch): (p: seq<Instruction>) {
    Prologue(a) + LoopbackBody(a)
  }

  // ----- the policies, without programs -------------------------------------------------

  datatype Verdict = Kill | Deny | Allow

  predicate OtherAbi(a: Arch, c: Call) {
    c.arch != AuditArch(a) || (a == X8664 && c.number & X32_BIT != 0)
  }

  /** Local IPC: an unnamed AF_UNIX pair of a connected or datagram type, default protocol. */
  predicate LocalPair(c: Call) {
    && c.argument0 == AF_UNIX && c.argument2 == 0
    && (c.argument1 & TYPE_MASK == SOCK_STREAM || c.argument1 & TYPE_MASK == SOCK_DGRAM
        || c.argument1 & TYPE_MASK == SOCK_SEQPACKET)
  }

  /** A TCP stream socket over IPv4 or IPv6. */
  predicate TcpStream(c: Call) {
    && (c.argument0 == AF_INET || c.argument0 == AF_INET6)
    && c.argument1 & TYPE_MASK == SOCK_STREAM
    && (c.argument2 == 0 || c.argument2 == IPPROTO_TCP)
  }

  function NoNetwork(a: Arch, c: Call): (v: Verdict) {
    if OtherAbi(a, c) then Kill
    else if c.number == SysSocket(a) || c.number == SysIoUringSetup(a) then Deny
    else if c.number == SysSocketpair(a) && !LocalPair(c) then Deny
    else Allow
  }

  function LoopbackOnly(a: Arch, c: Call): (v: Verdict) {
    if OtherAbi(a, c) then Kill
    else if c.number == SysIoUringSetup(a) then Deny
    else if c.number == SysSocket(a) && !TcpStream(c) then Deny
    else if c.number == SysSocketpair(a) && !LocalPair(c) then Deny
    else Allow
  }

  function Action(v: Verdict, deny: Word): (w: Word) {
    match v
    case Kill => RET_KILL
    case Deny => deny
    case Allow => RET_ALLOW
  }

  // ----- the programs mean the policies -------------------------------------------------

  /** Running a program whose tail starts at `n` is running the tail: jumps are relative. */
  lemma {:induction false} Shifted(head: seq<Instruction>, tail: seq<Instruction>, pc: nat, a: Word, c: Call)
    ensures Run(head + tail, |head| + pc, a, c) == Run(tail, pc, a, c)
    decreases |tail| - pc
  {
    hide Skipped, Accumulated;
    if pc < |tail| {
      assert (head + tail)[|head| + pc] == tail[pc];
      if !tail[pc].Return? {
        Shifted(head, tail, pc + 1 + Skipped(tail[pc], a), Accumulated(tail[pc], a, c), c);
      }
    }
  }

  lemma PrologueMeans(a: Arch, body: seq<Instruction>, c: Call)
    ensures Run(Prologue(a) + body, 0, 0, c) == if OtherAbi(a, c) then Some(RET_KILL) else Run(body, 0, c.number, c)
  {
    var p := Prologue(a) + body;
    Shifted(Prologue(a), body, 0, c.number, c);
    assert p[0] == Load(ArchField) && p[1] == JumpEqual(AuditArch(a), 1, 0) && p[2] == Return(RET_KILL)
      && p[3] == Load(NumberField);
    assert Run(p, 2, c.arch, c) == Some(RET_KILL);
    if a == X8664 {
      assert p[4] == JumpSet(X32_BIT, 0, 1) && p[5] == Return(RET_KILL);
      assert Run(p, 5, c.number, c) == Some(RET_KILL);
      assert Run(p, 4, c.number, c) == if c.number & X32_BIT != 0 then Some(RET_KILL) else Run(body, 0, c.number, c);
    }
    assert Run(p, 1, c.arch, c) == Run(p, if c.arch == AuditArch(a) then 3 else 2, c.arch, c);
  }

  lemma LoadStep(p: seq<Instruction>, pc: nat, a: Word, c: Call)
    requires pc < |p| && p[pc].Load?
    ensures Run(p, pc, a, c) == Run(p, pc + 1, Fetch(c, p[pc].field), c)
  {}

  lemma AndStep(p: seq<Instruction>, pc: nat, a: Word, c: Call)
    requires pc < |p| && p[pc].And?
    ensures Run(p, pc, a, c) == Run(p, pc + 1, a & p[pc].k, c)
  {}

  lemma EqualStep(p: seq<Instruction>, pc: nat, a: Word, c: Call)
    requires pc < |p| && p[pc].JumpEqual?
    ensures Run(p, pc, a, c) == if a == p[pc].k then Run(p, pc + 1 + p[pc].yes, a, c)
            else Run(p, pc + 1 + p[pc].no, a, c)
  {}

  lemma ReturnStep(p: seq<Instruction>, pc: nat, a: Word, c: Call)
    requires pc < |p| && p[pc].Return?
    ensures Run(p, pc, a, c) == Some(p[pc].k)
  {}

  lemma PairItems(deny: Word)
    ensures var p := PairBlock(deny);
            && |p| == 13
            && p[0] == Load(Argument0)
            && p[1] == JumpEqual(AF_UNIX, 1, 0)
            && p[2] == Return(deny)
            && p[3] == Load(Argument1)
            && p[4] == And(TYPE_MASK)
            && p[5] == JumpEqual(SOCK_STREAM, 2, 0)
            && p[6] == JumpEqual(SOCK_DGRAM, 1, 0)
            && p[7] == JumpEqual(SOCK_SEQPACKET, 0, 2)
            && p[8] == Load(Argument2)
            && p[9] == JumpEqual(0, 1, 0)
            && p[10] == Return(deny)
            && p[11] == Return(RET_ALLOW)
            && p[12] == Return(deny)
  {}

  lemma SocketItems()
    ensures var p := SocketBlock();
            && |p| == 11
            && p[0] == Load(Argument0)
            && p[1] == JumpEqual(AF_INET, 1, 0)
            && p[2] == JumpEqual(AF_INET6, 0, 7)
            && p[3] == Load(Argument1)
            && p[4] == And(TYPE_MASK)
            && p[5] == JumpEqual(SOCK_STREAM, 0, 4)
            && p[6] == Load(Argument2)
            && p[7] == JumpEqual(0, 1, 0)
            && p[8] == JumpEqual(IPPROTO_TCP, 0, 1)
            && p[9] == Return(RET_ALLOW)
            && p[10] == Return(RET_ERRNO_EPERM)
  {}

  /** The type and protocol half of the pair block. */
  lemma PairTypeMeans(deny: Word, rest: seq<Instruction>, a: Word, c: Call)
    ensures var t := c.argument1 & TYPE_MASK;
            Run(PairBlock(deny) + rest, 3, a, c)
            == Some(if c.argument2 == 0 && (t == SOCK_STREAM || t == SOCK_DGRAM || t == SOCK_SEQPACKET) then RET_ALLOW
                    else deny)
  {
    hide Run, PairBlock;
    PairItems(deny);
    var p, t := PairBlock(deny) + rest, c.argument1 & TYPE_MASK;
    LoadStep(p, 3, a, c);
    AndStep(p, 4, c.argument1, c);
    EqualStep(p, 5, t, c);
    EqualStep(p, 6, t, c);
    EqualStep(p, 7, t, c);
    LoadStep(p, 8, t, c);
    EqualStep(p, 9, c.argument2, c);
    ReturnStep(p, 10, c.argument2, c);
    ReturnStep(p, 10, t, c);
    ReturnStep(p, 11, c.argument2, c);
  }

  lemma PairBlockMeans(deny: Word, rest: seq<Instruction>, a: Word, c: Call)
    ensures Run(PairBlock(deny) + rest, 0, a, c) == Some(if LocalPair(c) then RET_ALLOW else deny)
  {
    hide Run, PairBlock;
    PairItems(deny);
    var p := PairBlock(deny) + rest;
    LoadStep(p, 0, a, c);
    EqualStep(p, 1, c.argument0, c);
    ReturnStep(p, 2, c.argument0, c);
    PairTypeMeans(deny, rest, c.argument0, c);
  }

  /** The type and protocol half of the socket block. */
  lemma SocketTypeMeans(rest: seq<Instruction>, w: Word, c: Call)
    ensures Run(SocketBlock() + rest, 3, w, c)
         == Some(if c.argument1 & TYPE_MASK == SOCK_STREAM && (c.argument2 == 0 || c.argument2 == IPPROTO_TCP)
                 then RET_ALLOW else RET_ERRNO_EPERM)
  {
    hide Run, SocketBlock;
    SocketItems();
    var p, t := SocketBlock() + rest, c.argument1 & TYPE_MASK;
    LoadStep(p, 3, w, c);
    AndStep(p, 4, c.argument1, c);
    EqualStep(p, 5, t, c);
    LoadStep(p, 6, t, c);
    EqualStep(p, 7, c.argument2, c);
    EqualStep(p, 8, c.argument2, c);
    ReturnStep(p, 9, c.argument2, c);
    ReturnStep(p, 10, c.argument2, c);
    ReturnStep(p, 10, t, c);
  }

  lemma SocketBlockMeans(rest: seq<Instruction>, w: Word, c: Call)
    ensures Run(SocketBlock() + rest, 0, w, c) == Some(if TcpStream(c) then RET_ALLOW else RET_ERRNO_EPERM)
  {
    hide Run, SocketBlock;
    SocketItems();
    var p := SocketBlock() + rest;
    LoadStep(p, 0, w, c);
    EqualStep(p, 1, c.argument0, c);
    EqualStep(p, 2, c.argument0, c);
    SocketTypeMeans(rest, c.argument0, c);
    ReturnStep(p, 10, c.argument0, c);
  }

  lemma DenyTailMeans(a: Arch, deny: Word, head: seq<Instruction>, c: Call)
    ensures var tail := [JumpEqual(SysIoUringSetup(a), 0, 1), Return(deny), Return(RET_ALLOW)];
            Run(head + tail, |head|, c.number, c) == Some(if c.number == SysIoUringSetup(a) then deny else RET_ALLOW)
  {
    hide Run;
    var tail := [JumpEqual(SysIoUringSetup(a), 0, 1), Return(deny), Return(RET_ALLOW)];
    Shifted(head, tail, 0, c.number, c);
    EqualStep(tail, 0, c.number, c);
    ReturnStep(tail, 1, c.number, c);
    ReturnStep(tail, 2, c.number, c);
  }

  lemma DenyBodyMeans(a: Arch, deny: Word, c: Call)
    requires !OtherAbi(a, c)
    ensures Run(DenyBody(a, deny), 0, c.number, c) == Some(Action(NoNetwork(a, c), deny))
  {
    hide Run, LocalPair, PairBlock, OtherAbi;
    PairItems(deny);
    var p, n := DenyBody(a, deny), c.number;
    var head := [JumpEqual(SysSocket(a), 0, 1), Return(deny), JumpEqual(SysSocketpair(a), 0, 13)];
    var rest := [JumpEqual(SysIoUringSetup(a), 0, 1), Return(deny), Return(RET_ALLOW)];
    assert p == head + (PairBlock(deny) + rest);
    EqualStep(p, 0, n, c);
    ReturnStep(p, 1, n, c);
    EqualStep(p, 2, n, c);
    Shifted(head, PairBlock(deny) + rest, 0, n, c);
    PairBlockMeans(deny, rest, n, c);
    DenyTailMeans(a, deny, head + PairBlock(deny), c);
  }

  /** The last 15 instructions of the loopback program. */
  lemma LoopbackPairMeans(a: Arch, c: Call)
    ensures var tail := [JumpEqual(SysSocketpair(a), 0, 13)] + (PairBlock(RET_ERRNO_EPERM) + [Return(RET_ALLOW)]);
            Run(tail, 0, c.number, c)
            == Some(if c.number == SysSocketpair(a) && !LocalPair(c) then RET_ERRNO_EPERM else RET_ALLOW)
  {
    hide Run, LocalPair, PairBlock;
    PairItems(RET_ERRNO_EPERM);
    var head, block := [JumpEqual(SysSocketpair(a), 0, 13)], PairBlock(RET_ERRNO_EPERM) + [Return(RET_ALLOW)];
    EqualStep(head + block, 0, c.number, c);
    Shifted(head, block, 0, c.number, c);
    PairBlockMeans(RET_ERRNO_EPERM, [Return(RET_ALLOW)], c.number, c);
    ReturnStep(head + block, 14, c.number, c);
  }

  lemma LoopbackBodyMeans(a: Arch, c: Call)
    requires !OtherAbi(a, c)
    ensures Run(LoopbackBody(a), 0, c.number, c) == Some(Action(LoopbackOnly(a, c), RET_ERRNO_EPERM))
  {
    hide Run, LocalPair, TcpStream, PairBlock, SocketBlock;
    SocketItems();
    var p, n := LoopbackBody(a), c.number;
    var head := [JumpEqual(SysIoUringSetup(a), 0, 1), Return(RET_ERRNO_EPERM), JumpEqual(SysSocket(a), 0, 11)];
    var tail := [JumpEqual(SysSocketpair(a), 0, 13)] + (PairBlock(RET_ERRNO_EPERM) + [Return(RET_ALLOW)]);
    assert p == head + (SocketBlock() + tail) == (head + SocketBlock()) + tail;
    EqualStep(p, 0, n, c);
    ReturnStep(p, 1, n, c);
    EqualStep(p, 2, n, c);
    Shifted(head, SocketBlock() + tail, 0, n, c);
    SocketBlockMeans(tail, n, c);
    Shifted(head + SocketBlock(), tail, 0, n, c);
    LoopbackPairMeans(a, c);
  }

  /** On every system call of every ABI, the first program decides exactly "no network". */
  lemma DenyProgramMeans(a: Arch, notify: bool, c: Call)
    ensures Run(DenyProgram(a, notify), 0, 0, c)
         == Some(Action(NoNetwork(a, c), if notify then RET_USER_NOTIF else RET_ERRNO_EPERM))
  {
    hide Run, DenyBody, Prologue;
    var deny := if notify then RET_USER_NOTIF else RET_ERRNO_EPERM;
    PrologueMeans(a, DenyBody(a, deny), c);
    if !OtherAbi(a, c) { DenyBodyMeans(a, deny, c); }
  }

  /** The second program decides exactly "loopback only". */
  lemma LoopbackProgramMeans(a: Arch, c: Call)
    ensures Run(LoopbackProgram(a), 0, 0, c) == Some(Action(LoopbackOnly(a, c), RET_ERRNO_EPERM))
  {
    hide Run, LoopbackBody, Prologue;
    PrologueMeans(a, LoopbackBody(a), c);
    if !OtherAbi(a, c) { LoopbackBodyMeans(a, c); }
  }

  lemma DenyChecked(a: Arch, notify: bool)
    ensures Checked(DenyProgram(a, notify))
  {
    hide Run, AuditArch, SysSocket, SysSocketpair, SysIoUringSetup, PairBlock;
    var deny := if notify then RET_USER_NOTIF else RET_ERRNO_EPERM;
    PairItems(deny);
    AfterPrologue(a, DenyBody(a, deny));
  }

  lemma LoopbackChecked(a: Arch)
    ensures Checked(LoopbackProgram(a))
  {
    hide Run, AuditArch, SysSocket, SysSocketpair, SysIoUringSetup, PairBlock, SocketBlock;
    PairItems(RET_ERRNO_EPERM);
    SocketItems();
    AfterPrologue(a, LoopbackBody(a));
  }

  lemma AfterPrologue(a: Arch, body: seq<Instruction>)
    requires Checked(body) && body != []
    ensures Checked(Prologue(a) + body)
  {
    hide Run, AuditArch;
    var p := Prologue(a) + body;
    forall i | |Prologue(a)| <= i < |p| ensures p[i] == body[i - |Prologue(a)|] {}
  }

  /** Both arrays pass the kernel's check, so no argument can drive either off its end. */
  lemma ProgramsTerminate(a: Arch, notify: bool, start: nat, accumulator: Word, c: Call)
    ensures start < |DenyProgram(a, notify)| ==> Run(DenyProgram(a, notify), start, accumulator, c).Some?
    ensures start < |LoopbackProgram(a)| ==> Run(LoopbackProgram(a), start, accumulator, c).Some?
  {
    hide Run, DenyProgram, LoopbackProgram, Checked;
    DenyChecked(a, notify);
    LoopbackChecked(a);
    if start < |DenyProgram(a, notify)| { CheckedTerminates(DenyProgram(a, notify), start, accumulator, c); }
    if start < |LoopbackProgram(a)| { CheckedTerminates(LoopbackProgram(a), start, accumulator, c); }
  }

  /** Asking for a notification changes what a refusal returns and nothing else. */
  lemma NotificationOnlyReplacesRefusal(a: Arch, c: Call)
    ensures var plain, notified := Run(DenyProgram(a, false), 0, 0, c), Run(DenyProgram(a, true), 0, 0, c);
            && (plain == Some(RET_ERRNO_EPERM) <==> notified == Some(RET_USER_NOTIF))
            && (plain != Some(RET_ERRNO_EPERM) ==> notified == plain)
  {
    hide Run, DenyProgram;
    DenyProgramMeans(a, false, c);
    DenyProgramMeans(a, true, c);
  }

  /** Loopback mode allows everything deny mode allows and TCP stream sockets, and no more. */
  lemma LoopbackAddsTcpOnly(a: Arch, notify: bool, c: Call)
    ensures Run(LoopbackProgram(a), 0, 0, c) == Some(RET_ALLOW)
       <==> Run(DenyProgram(a, notify), 0, 0, c) == Some(RET_ALLOW)
            || (!OtherAbi(a, c) && c.number == SysSocket(a) && TcpStream(c))
    ensures Run(LoopbackProgram(a), 0, 0, c) == Some(RET_KILL) <==>
            Run(DenyProgram(a, notify), 0, 0, c) == Some(RET_KILL)
  {
    hide Run, DenyProgram, LoopbackProgram, TcpStream, LocalPair, OtherAbi;
    DenyProgramMeans(a, notify, c);
    LoopbackProgramMeans(a, c);
  }

  // ----- the same in numbers --------------------------------------------------------------

  /** Another architecture, or the x32 ABI of x86-64. */
  predicate ForeignCall(a: Arch, c: Call) {
    match a
    case X8664 => c.arch != 0xc000_003e || c.number & 0x4000_0000 != 0
    case Aarch64 => c.arch != 0xc000_00b7
  }

  /** `socketpair` of family 1, protocol 0 and type 1, 2 or 5, whatever flags the type carries. */
  predicate PairInNumbers(c: Call) {
    c.argument0 == 1 && c.argument2 == 0
    && (c.argument1 & 15 == 1 || c.argument1 & 15 == 2 || c.argument1 & 15 == 5)
  }

  /** `socket` of family 2 or 10, type 1, and protocol 0 or 6. */
  predicate StreamInNumbers(c: Call) {
    (c.argument0 == 2 || c.argument0 == 10) && c.argument1 & 15 == 1 && (c.argument2 == 0 || c.argument2 == 6)
  }

  /** The first array on every call: killed, answered with errno 1 or passed to the broker, or allowed. */
  lemma DenyInNumbers(a: Arch, notify: bool, c: Call)
    ensures var (socket, pair) := match a case X8664 => (41, 53) case Aarch64 => (198, 199);
            Run(DenyProgram(a, notify), 0, 0, c)
            == Some(if ForeignCall(a, c) then 0x8000_0000
                    else if c.number == socket || c.number == 425 || (c.number == pair && !PairInNumbers(c)) then
                      (if notify then 0x7fc0_0000 else 0x0005_0001)
                    else 0x7fff_0000)
  {
    hide DenyProgram, Run;
    DenyProgramMeans(a, notify, c);
  }

  /** The second array on every call. */
  lemma LoopbackInNumbers(a: Arch, c: Call)
    ensures var (socket, pair) := match a case X8664 => (41, 53) case Aarch64 => (198, 199);
            Run(LoopbackProgram(a), 0, 0, c)
            == Some(if ForeignCall(a, c) then 0x8000_0000
                    else if c.number == 425 || (c.number == socket && !StreamInNumbers(c))
                            || (c.number == pair && !PairInNumbers(c)) then 0x0005_0001
                    else 0x7fff_0000)
  {
    hide LoopbackProgram, Run;
    LoopbackProgramMeans(a, c);
  }
}
