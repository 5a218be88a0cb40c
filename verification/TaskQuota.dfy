/**
 The cgroup quota of one task: two fresh leaves under an exclusively owned scope, a process
 charged to one of them, and their removal.  Every kernel call may fail.
 */
module TaskQuota {
  import opened Bytes
  import Sid
  import opened QuotaText

  /** A directory or file under the scope.  No real object is number 0. */
  datatype Node = Node(device: nat, owner: nat, shared: bool, directory: bool, procs: set<nat>, max: Option<nat>)

  /** The kernel's side: the scope's children by name, this process's descriptors, and what was made and removed. */
  datatype Scope = Scope(
    nodes: map<nat, Node>, root: nat, children: map<string, nat>, handles: map<int, nat>, made: set<nat>,
      removed: set<nat>)

  /** The part of `struct stat` that is looked at. */
  datatype Stat = Stat(node: nat, device: nat, owner: nat, shared: bool, directory: bool)

  datatype Lookup = Missing | Broken | Found(stat: Stat)

  const NO_STAT := Stat(0, 0, 0, false, false)

  predicate WellFormed(s: Scope) {
    && 0 !in s.nodes && s.root in s.nodes
    && (forall n :: n in s.children ==> s.children[n] in s.nodes && s.children[n] != s.root)
    && (forall h :: h in s.handles ==> h >= 0 && s.handles[h] in s.nodes)
    && s.removed <= s.made && s.made <= s.nodes.Keys
  }

  function StatOf(s: Scope, n: nat): (t: Stat)
    requires n in s.nodes
  {
    var d := s.nodes[n];
    Stat(n, d.device, d.owner, d.shared, d.directory)
  }

  /** The calls a kernel may refuse, each with the name or the directory it was about. */
  datatype Call =
    | ScopeOpened
    | Opened(name: string)
    | Checked(node: nat)
    | Looked(name: string)
    | Made(name: string)
    | Removed(name: string)
    | Listed
    | FileRead(node: nat, file: string)
    | FileWritten(node: nat, file: string)
    | Cloned

  /** The refusals so far, after a call that was answered as it should have been or was not. */
  function Noted(refusals: seq<Call>, helpful: bool, call: Call): (after: seq<Call>)
    ensures refusals <= after && (helpful <==> after == refusals)
    ensures !helpful ==> |after| == |refusals| + 1 && after[|refusals|] == call
  {
    if helpful then refusals else refusals + [call]
  }

  /** `call` has been refused since there were `from` refusals. */
  ghost predicate Since(refusals: seq<Call>, from: nat, call: Call) {
    exists k :: from <= k < |refusals| && refusals[k] == call
  }

  /**
   The kernel.  Any call may fail, and then `refusals` names it; it also names the calls that were answered, but not
   as the state asked for.  No answer is ever untrue.
   */
  class Kernel {
    var s: Scope
    var refusals: seq<Call>
    var calls: seq<Call>
    const user: nat
    const self: nat

    ghost predicate Valid()
      reads `s
    {
      WellFormed(s)
    }

    method Note(helpful: bool, call: Call)
      modifies `refusals, `calls
      ensures refusals == Noted(old(refusals), helpful, call) && calls == old(calls) + [call]
    {
      calls := calls + [call];
      if !helpful { refusals := refusals + [call]; }
    }

    /** `icode_quota_open_scope`, whose path walk is not modelled: a descriptor for a scope of this user, or -1. */
    method OpenScope() returns (h: int)
      requires Valid()
      modifies this
      ensures Valid() && (h < 0 ==> s == old(s))
      ensures h >= 0 ==>
                && OwnScope(old(s), user) && h !in old(s).handles
                && s == old(s).(handles := old(s).handles[h := old(s).root])
      ensures refusals == Noted(old(refusals), h >= 0 || !OwnScope(old(s), user), ScopeOpened)
      ensures calls == old(calls) + [ScopeOpened]
    {
      h := *;
      if h < 0 || h in s.handles || !OwnScope(s, user) { h := -1; }
      Note(h >= 0 || !OwnScope(s, user), ScopeOpened);
      if h >= 0 { s := s.(handles := s.handles[h := s.root]); }
    }

    /** `openat` of the scope itself, for reading its entries. */
    method OpenAgain() returns (h: int)
      requires Valid()
      modifies this
      ensures Valid() && (h < 0 ==> s == old(s))
      ensures h >= 0 ==> h !in old(s).handles && s == old(s).(handles := old(s).handles[h := old(s).root])
      ensures refusals == Noted(old(refusals), h >= 0, ScopeOpened)
      ensures calls == old(calls) + [ScopeOpened]
    {
      h := *;
      if h < 0 || h in s.handles { h := -1; }
      Note(h >= 0, ScopeOpened);
      if h >= 0 { s := s.(handles := s.handles[h := s.root]); }
    }

    /** `openat` of a child directory. */
    method OpenChild(directory: int, name: string) returns (h: int)
      requires Valid() && directory in s.handles
      modifies this
      ensures Valid() && (h < 0 ==> s == old(s))
      ensures h >= 0 ==> h !in old(s).handles && name in old(s).children
                         && s == old(s).(handles := old(s).handles[h := old(s).children[name]])
      ensures refusals == Noted(old(refusals), h >= 0 || name !in old(s).children, Opened(name))
      ensures calls == old(calls) + [Opened(name)]
    {
      h := *;
      if h < 0 || h in s.handles || name !in s.children { h := -1; }
      Note(h >= 0 || name !in s.children, Opened(name));
      if h >= 0 { s := s.(handles := s.handles[h := s.children[name]]); }
    }

    /** `close` of an open descriptor; closing anything else has no model. */
    method Close(h: int)
      requires Valid() && h in s.handles
      modifies `s
      ensures Valid() && s == old(s).(handles := old(s).handles - {h})
    {
      s := s.(handles := s.handles - {h});
    }

    method Fstat(h: int) returns (t: Option<Stat>)
      requires Valid() && h in s.handles
      modifies `refusals, `calls
      ensures t.Some? ==> t.value == StatOf(s, s.handles[h])
      ensures refusals == Noted(old(refusals), t.Some?, Checked(s.handles[h]))
      ensures calls == old(calls) + [Checked(s.handles[h])]
    {
      var fails: bool := *;
      t := if fails then None else Some(StatOf(s, s.handles[h]));
      Note(!fails, Checked(s.handles[h]));
    }

    method StatAt(directory: int, name: string) returns (l: Lookup)
      requires Valid() && directory in s.handles
      modifies `refusals, `calls
      ensures l.Missing? ==> name !in s.children
      ensures l.Found? ==> name in s.children && l.stat == StatOf(s, s.children[name])
      ensures refusals == Noted(old(refusals), !l.Broken?, Looked(name))
      ensures calls == old(calls) + [Looked(name)]
    {
      var fails: bool := *;
      l := if fails then Broken else if name in s.children then Found(StatOf(s, s.children[name])) else Missing;
      Note(!fails, Looked(name));
    }

    /** `mkdirat`: a new, empty cgroup; it should be this user's alone and on the scope's device. */
    method Mkdir(directory: int, name: string) returns (ok: bool, ghost n: nat)
      requires Valid() && directory in s.handles
      modifies this
      ensures Valid() && (!ok ==> s == old(s))
      ensures ok ==> NewDirectory(old(s), s, name, n)
      ensures refusals == Noted(old(refusals), if ok then Proper(s, n, user) else name in s.children, Made(name))
      ensures calls == old(calls) + [Made(name)]
    {
      var number: nat, d: Node := *, *;
      n := number;
      ok := 0 < number && number !in s.nodes && name !in s.children;
      if !ok {
        Note(name in s.children, Made(name));
        return;
      }
      d := d.(procs := {});
      s := s.(nodes := s.nodes[number := d], children := s.children[name := number], made := s.made + {number});
      Note(Proper(s, number, user), Made(name));
    }

    /** `unlinkat(…, AT_REMOVEDIR)`: the kernel refuses a populated cgroup. */
    method Rmdir(directory: int, name: string) returns (ok: bool)
      requires Valid() && directory in s.handles
      requires name in s.children ==> s.children[name] in s.made
      modifies this
      ensures Valid() && (!ok ==> s == old(s))
      ensures ok ==>
                && name in old(s).children && old(s).nodes[old(s).children[name]].procs == {}
                && s == old(s).(children := old(s).children - {name},
                                removed := old(s).removed + {old(s).children[name]})
      ensures refusals == Noted(
                            old(refusals),
                            ok || name !in old(s).children || old(s).nodes[old(s).children[name]].procs != {},
                            Removed(name))
      ensures calls == old(calls) + [Removed(name)]
    {
      ok := *;
      if name !in s.children || s.nodes[s.children[name]].procs != {} { ok := false; }
      Note(ok || name !in s.children || s.nodes[s.children[name]].procs != {}, Removed(name));
      if ok { s := s.(children := s.children - {name}, removed := s.removed + {s.children[name]}); }
    }

    /** `readdir` over the scope: at least every child once, and nothing that is not there. */
    method List(h: int) returns (names: Option<seq<string>>)
      requires Valid() && h in s.handles
      modifies `refusals, `calls
      ensures names.Some? ==> forall n :: n in s.children ==> n in names.value
      ensures refusals == Noted(old(refusals), names.Some? && Entries(s, names.value), Listed)
      ensures calls == old(calls) + [Listed]
    {
      names := *;
      if names.Some? && exists n :: n in s.children && n !in names.value { names := None; }
      Note(names.Some? && Entries(s, names.value), Listed);
    }

    // ----- interface files: any text, but never an untrue one -----------------------------

    method ReadProcs(h: int) returns (text: Option<string>)
      requires Valid() && h in s.handles
      modifies `refusals, `calls
      ensures text == Some("") ==> s.nodes[s.handles[h]].procs == {}
      ensures text == Some(Sid.Decimal(self) + "\n") ==> s.nodes[s.handles[h]].procs == {self}
      ensures refusals == Noted(
                            old(refusals), Lists(text, s.nodes[s.handles[h]].procs, self),
                            FileRead(s.handles[h], "cgroup.procs"))
      ensures calls == old(calls) + [FileRead(s.handles[h], "cgroup.procs")]
    {
      text := *;
      if text == Some("") && s.nodes[s.handles[h]].procs != {} { text := None; }
      if text == Some(Sid.Decimal(self) + "\n") && s.nodes[s.handles[h]].procs != {self} { text := None; }
      Note(Lists(text, s.nodes[s.handles[h]].procs, self), FileRead(s.handles[h], "cgroup.procs"));
    }

    method ReadEvents(h: int) returns (text: Option<string>)
      requires Valid() && h in s.handles
      modifies `refusals, `calls
      ensures text.Some? && SaysEmpty(text.value) ==> s.nodes[s.handles[h]].procs == {}
      ensures refusals == Noted(
                            old(refusals),
                            text.Some? && (s.nodes[s.handles[h]].procs == {} ==> SaysEmpty(text.value)),
                            FileRead(s.handles[h], "cgroup.events"))
      ensures calls == old(calls) + [FileRead(s.handles[h], "cgroup.events")]
    {
      text := *;
      if text.Some? && SaysEmpty(text.value) && s.nodes[s.handles[h]].procs != {} { text := None; }
      Note(text.Some? && (s.nodes[s.handles[h]].procs == {} ==> SaysEmpty(text.value)),
           FileRead(s.handles[h], "cgroup.events"));
    }

    method ReadCurrent(h: int) returns (text: Option<string>)
      requires Valid() && h in s.handles
      modifies `refusals, `calls
      ensures refusals == Noted(
                            old(refusals),
                            text.Some? && (s.nodes[s.handles[h]].procs == {} ==> text.value == "0\n"),
                            FileRead(s.handles[h], "pids.current"))
      ensures calls == old(calls) + [FileRead(s.handles[h], "pids.current")]
    {
      text := *;
      Note(text.Some? && (s.nodes[s.handles[h]].procs == {} ==> text.value == "0\n"),
           FileRead(s.handles[h], "pids.current"));
    }

    method ReadMax(h: int, limit: nat) returns (text: Option<string>)
      requires Valid() && h in s.handles
      modifies `refusals, `calls
      ensures text == Some(Sid.Decimal(limit) + "\n") ==> s.nodes[s.handles[h]].max == Some(limit)
      ensures refusals == Noted(
                            old(refusals),
                            text.Some? && (s.nodes[s.handles[h]].max == Some(limit) ==>
                              text.value == Sid.Decimal(limit) + "\n"),
                            FileRead(s.handles[h], "pids.max"))
      ensures calls == old(calls) + [FileRead(s.handles[h], "pids.max")]
    {
      text := *;
      if text == Some(Sid.Decimal(limit) + "\n") && s.nodes[s.handles[h]].max != Some(limit) { text := None; }
      Note(text.Some? && (s.nodes[s.handles[h]].max == Some(limit) ==> text.value == Sid.Decimal(limit) + "\n"),
           FileRead(s.handles[h], "pids.max"));
    }

    /** `cgroup.controllers` or `cgroup.subtree_control`: it should name the pids controller. */
    method ReadControllers(h: int, file: string) returns (text: Option<string>)
      requires Valid() && h in s.handles
      modifies `refusals, `calls
      ensures refusals == Noted(old(refusals), text.Some? && Contains(text.value, "pids"), FileRead(s.handles[h], file))
      ensures calls == old(calls) + [FileRead(s.handles[h], file)]
    {
      text := *;
      var named := text.Some?;
      if named { named := HasWord(text.value, "pids"); }
      Note(named, FileRead(s.handles[h], file));
    }

    /** The write of "+pids" to `cgroup.subtree_control`. */
    method Enable(h: int) returns (ok: bool)
      requires Valid() && h in s.handles
      modifies `refusals, `calls
      ensures refusals == Noted(old(refusals), ok, FileWritten(s.handles[h], "cgroup.subtree_control"))
      ensures calls == old(calls) + [FileWritten(s.handles[h], "cgroup.subtree_control")]
    {
      ok := *;
      Note(ok, FileWritten(s.handles[h], "cgroup.subtree_control"));
    }

    /** A write of this process's number to `cgroup.procs`. */
    method Join(h: int) returns (ok: bool)
      requires Valid() && h in s.handles
      modifies this
      ensures Valid() && (!ok ==> s == old(s))
      ensures ok ==> s == old(s).(nodes := s.nodes) && s.nodes == Joined(old(s).nodes, self, old(s).handles[h])
      ensures refusals == Noted(old(refusals), ok, FileWritten(old(s).handles[h], "cgroup.procs"))
      ensures calls == old(calls) + [FileWritten(old(s).handles[h], "cgroup.procs")]
    {
      ok := *;
      Note(ok, FileWritten(s.handles[h], "cgroup.procs"));
      if ok { s := s.(nodes := Joined(s.nodes, self, s.handles[h])); }
    }

    /** `clone3` into the cgroup behind a descriptor: the child starts there, or there is no child. */
    method CloneInto(h: int) returns (pid: int, ghost child: nat)
      requires Valid() && h in s.handles
      modifies this
      ensures Valid() && (pid < 0 ==> s == old(s)) && (pid > 0 ==> pid == child)
      ensures pid >= 0 ==>
                var n := old(s).handles[h];
                s == old(s).(nodes := old(s).nodes[n := old(s).nodes[n].(procs := old(s).nodes[n].procs + {child})])
      ensures refusals == Noted(old(refusals), pid >= 0, Cloned)
      ensures calls == old(calls) + [Cloned]
    {
      var started: bool, inChild: bool, number: int := *, *, *;
      child := if number > 0 then number else 1;
      Note(started, Cloned);
      if !started { return -1, child; }
      var n := s.handles[h];
      var id: nat := if number > 0 then number else 1;
      s := s.(nodes := s.nodes[n := s.nodes[n].(procs := s.nodes[n].procs + {id})]);
      pid := if inChild then 0 else id;
    }

    /** A write to `pids.max`. */
    method WriteMax(h: int, limit: nat) returns (ok: bool)
      requires Valid() && h in s.handles
      modifies this
      ensures Valid() && (!ok ==> s == old(s))
      ensures ok ==>
                var n := old(s).handles[h];
                s == old(s).(nodes := old(s).nodes[n := old(s).nodes[n].(max := Some(limit))])
      ensures refusals == Noted(old(refusals), ok, FileWritten(old(s).handles[h], "pids.max"))
      ensures calls == old(calls) + [FileWritten(old(s).handles[h], "pids.max")]
    {
      ok := *;
      Note(ok, FileWritten(s.handles[h], "pids.max"));
      if ok {
        var n := s.handles[h];
        s := s.(nodes := s.nodes[n := s.nodes[n].(max := Some(limit))]);
      }
    }
  }

  /** The scope is a directory of this user's that nobody else may write. */
  predicate OwnScope(s: Scope, user: nat) {
    s.root in s.nodes && s.nodes[s.root].directory && s.nodes[s.root].owner == user && !s.nodes[s.root].shared
  }

  /** What a directory made in the scope should be like. */
  predicate Proper(s: Scope, n: nat, user: nat) {
    && n in s.nodes && s.root in s.nodes
    && s.nodes[n].directory && s.nodes[n].owner == user && !s.nodes[n].shared
    && s.nodes[n].device == s.nodes[s.root].device
  }

  /** Every name is a child or one of the two entries every directory has. */
  predicate Entries(s: Scope, names: seq<string>) {
    forall n :: n in names && n != "." && n != ".." ==> n in s.children
  }

  /** A text of `cgroup.procs` that shows an empty group, and a group of `self` alone, for what they are. */
  predicate Lists(text: Option<string>, procs: set<nat>, self: nat) {
    && text.Some?
    && (procs == {} ==> text.value == "")
    && (procs == {self} ==> text.value == Sid.Decimal(self) + "\n")
  }

  /** A call that the removal of a leaf needs was refused. */
  ghost predicate Hindered(refusals: seq<Call>, from: nat, root: nat, name: string, node: nat) {
    || Since(refusals, from, Checked(root)) || Since(refusals, from, Checked(node))
    || Since(refusals, from, Looked(name)) || Since(refusals, from, FileRead(node, "cgroup.events"))
    || Since(refusals, from, FileRead(node, "cgroup.procs"))
    || Since(refusals, from, Removed(name))
  }

  /** A leaf was made, but not made properly, not opened, or its identity not learnt. */
  ghost predicate Misbegotten(refusals: seq<Call>, from: nat, name: string, node: nat) {
    Since(refusals, from, Made(name)) || Since(refusals, from, Opened(name)) || Since(refusals, from, Checked(node))
  }

  lemma MisbegottenLater(earlier: seq<Call>, refusals: seq<Call>, from: nat, name: string, node: nat)
    requires earlier <= refusals && Misbegotten(earlier, from, name, node)
    ensures Misbegotten(refusals, from, name, node)
  {}

  lemma HinderedEarlier(refusals: seq<Call>, earlier: nat, from: nat, root: nat, name: string, node: nat)
    requires earlier <= from && Hindered(refusals, from, root, name, node)
    ensures Hindered(refusals, earlier, root, name, node)
  {}

  /** The processes after one of them has moved to the cgroup `n`. */
  function Joined(nodes: map<nat, Node>, pid: nat, n: nat): (after: map<nat, Node>)
    requires n in nodes
    ensures after.Keys == nodes.Keys
  {
    map m | m in nodes :: nodes[m].(procs := if m == n then nodes[m].procs + {pid} else nodes[m].procs - {pid})
  }

  /** `icode_quota_unit_valid`. */
  predicate UnitValid(unit: string) {
    && |unit| == 49 && unit[..11] == "icode-task-" && unit[43..] == ".scope"
    && forall i :: 11 <= i < 43 ==> '0' <= unit[i] <= '9' || 'a' <= unit[i] <= 'f'
  }

  /** The names of task scopes: 32 lower-case hexadecimal digits between a fixed head and a fixed tail. */
  lemma UnitNames(unit: string)
    ensures UnitValid(unit) <==>
              exists digits: string ::
                |digits| == 32 && (forall c :: c in digits ==> c in "0123456789abcdef")
                && unit == "icode-task-" + digits + ".scope"
  {
    if UnitValid(unit) {
      var digits := unit[11..43];
      assert unit == unit[..11] + digits + unit[43..];
      forall c | c in digits ensures c in "0123456789abcdef" {
        var i :| 0 <= i < 32 && digits[i] == c;
        HexCharacter(unit[11 + i]);
      }
    }
    if exists digits: string :: |digits| == 32 && (forall c :: c in digits ==> c in "0123456789abcdef")
         && unit == "icode-task-" + digits + ".scope" {
      var digits: string :| |digits| == 32 && (forall c :: c in digits ==> c in "0123456789abcdef")
        && unit == "icode-task-" + digits + ".scope";
      assert unit[..11] == "icode-task-" && unit[43..] == ".scope";
      forall i | 11 <= i < 43 ensures '0' <= unit[i] <= '9' || 'a' <= unit[i] <= 'f' {
        assert unit[i] == digits[i - 11] && digits[i - 11] in digits;
        HexCharacter(unit[i]);
      }
    }
  }

  lemma HexCharacter(c: char)
    ensures c in "0123456789abcdef" <==> '0' <= c <= '9' || 'a' <= c <= 'f'
  {
    if '0' <= c <= '9' { assert "0123456789abcdef"[c as int - '0' as int] == c; }
    if 'a' <= c <= 'f' { assert "0123456789abcdef"[c as int - 'a' as int + 10] == c; }
  }

  /** `icode_quota_same`. */
  predicate Same(left: Stat, right: Stat, user: nat) {
    right.directory && left.device == right.device && left.node == right.node && right.owner == user && !right.shared
  }

  /** A scope fit to be prepared: the caller alone in it, no directory below it, and both leaf names free. */
  predicate Idle(s: Scope, self: nat) {
    && s.root in s.nodes && s.nodes[s.root].procs == {self} && NoChildDirectories(s)
    && "supervisor" !in s.children && "payload" !in s.children
  }

  predicate NoChildDirectories(s: Scope) {
    forall n :: n in s.children && n != "." && n != ".." ==>
      s.children[n] in s.nodes && !s.nodes[s.children[n]].directory
  }

  /** From `before` to `after` nothing happened but removals of empty cgroups out of `mine`. */
  ghost predicate RemovedOnly(before: Scope, after: Scope, mine: set<nat>) {
    && after.nodes == before.nodes && after.root == before.root && after.made == before.made
    && (forall n :: n in after.children ==> n in before.children && after.children[n] == before.children[n])
    && (forall n :: n in before.children && n !in after.children ==> before.children[n] in mine)
    && before.removed <= after.removed
    && (forall n :: n in after.removed - before.removed ==>
        && n in mine && n in before.nodes
        && before.nodes[n].procs == {})
  }

  /** From `before` to `after` nothing of what was there has been touched; what is new was made since. */
  ghost predicate Grown(before: Scope, after: Scope) {
    && WellFormed(before) && WellFormed(after)
    && after.root == before.root && before.nodes.Keys <= after.nodes.Keys
    && before.made <= after.made && (after.made - before.made) * before.nodes.Keys == {}
    && (forall n :: n in before.children ==> n in after.children && after.children[n] == before.children[n])
    && (forall n :: n in after.children && n !in before.children ==> after.children[n] in after.made - before.made)
  }

  /** Every name but the two that every directory has is a child that is not a directory. */
  predicate AllFiles(s: Scope, names: seq<string>) {
    forall n :: n in names && n != "." && n != ".." ==>
      n in s.children && s.children[n] in s.nodes && !s.nodes[s.children[n]].directory
  }

  /** At most one directory, of this name, has been made, and nothing else has changed but descriptors opened. */
  ghost predicate OneMore(before: Scope, after: Scope, name: string) {
    && before.root == after.root
    && (forall n :: n in before.nodes ==> n in after.nodes && after.nodes[n] == before.nodes[n])
    && (forall n :: n in before.children ==> n in after.children && after.children[n] == before.children[n])
    && (forall n :: n in after.children && n !in before.children ==>
          n == name && after.children[n] in after.nodes && after.nodes[after.children[n]].procs == {})
    && (forall h :: h in before.handles ==> h in after.handles && after.handles[h] == before.handles[h])
  }

  /** The directory `n` is the one recorded, and still this user's alone. */
  predicate Still(s: Scope, n: nat, identity: Stat, user: nat) {
    && n in s.nodes && n == identity.node && s.nodes[n].device == identity.device
    && s.nodes[n].directory && s.nodes[n].owner == user && !s.nodes[n].shared
  }

  /** The scope and one directory in it are still what was recorded of them, by descriptor and by name. */
  ghost predicate Pinned(
    s: Scope, root: int, rootIdentity: Stat, h: int, name: string, identity: Stat, user: nat): (pinned: bool)
    ensures pinned ==> h in s.handles && name in s.children && s.handles[h] == s.children[name]
  {
    && root in s.handles && Still(s, s.handles[root], rootIdentity, user)
    && h in s.handles && Still(s, s.handles[h], identity, user)
    && name in s.children && Still(s, s.children[name], identity, user)
  }

  /** At most one descriptor has been opened, and nothing else has changed. */
  ghost predicate OneOpened(before: Scope, after: Scope) {
    && after == before.(handles := after.handles)
    && forall h :: h in before.handles ==> h in after.handles && after.handles[h] == before.handles[h]
  }

  /** An empty directory has been made. */
  ghost predicate NewDirectory(before: Scope, after: Scope, name: string, n: nat) {
    && n !in before.nodes && name !in before.children && n in after.nodes && after.nodes[n].procs == {}
    && after == before.(nodes := before.nodes[n := after.nodes[n]], children := before.children[name := n],
                        made := before.made + {n})
  }

  lemma GrownByOneMore(start: Scope, before: Scope, after: Scope, name: string, n: nat)
    requires Grown(start, before) && NewDirectory(before, after, name, n) && WellFormed(after)
    ensures Grown(start, after) && OneMore(before, after, name) && n !in start.made
  {}

  lemma NoneMore(s: Scope, name: string)
    ensures OneMore(s, s, name)
  {}

  lemma GrownByOneOpened(start: Scope, before: Scope, after: Scope)
    requires Grown(start, before) && OneOpened(before, after) && WellFormed(after)
    ensures Grown(start, after)
  {}

  lemma OneMoreOpened(before: Scope, made: Scope, after: Scope, name: string)
    requires OneMore(before, made, name) && OneOpened(made, after)
    ensures OneMore(before, after, name)
  {}

  /** A directory made elsewhere or a descriptor opened moves nothing. */
  lemma StillPinned(
    before: Scope, after: Scope, made: string, root: int, rootIdentity: Stat, h: int, name: string, identity: Stat,
    user: nat)
    requires OneMore(before, after, made) && Pinned(before, root, rootIdentity, h, name, identity, user)
    ensures Pinned(after, root, rootIdentity, h, name, identity, user)
  {}

  /** What a failed call leaves behind: every descriptor it opened closed, every name it found kept. */
  ghost predicate Undone(before: Scope, after: Scope) {
    && WellFormed(after) && after.handles == before.handles && after.root == before.root
    && before.nodes.Keys <= after.nodes.Keys && before.made <= after.made
    && (after.made - before.made) * before.nodes.Keys == {}
    && (forall n :: n in before.children ==> n in after.children && after.children[n] == before.children[n])
    && (forall n :: n in after.children && n !in before.children ==> after.children[n] in after.made - before.made)
    && before.removed <= after.removed
    && (forall n :: n in after.removed - before.removed ==>
          n in after.made - before.made && n in after.nodes && after.nodes[n].procs == {})
  }

  lemma UndoneByRemoval(before: Scope, ongoing: Scope, after: Scope, mine: set<nat>)
    requires Grown(before, ongoing) && RemovedOnly(ongoing, after, mine) && WellFormed(after)
    requires mine <= ongoing.made - before.made && ongoing.removed == before.removed
    requires after.handles == before.handles
    ensures Undone(before, after) && after.nodes == ongoing.nodes && after.root == ongoing.root
    ensures forall n :: n in after.children ==> n in ongoing.children && after.children[n] == ongoing.children[n]
  {
    forall m | m in mine ensures m !in before.nodes {
      assert m in before.nodes ==> m in (ongoing.made - before.made) * before.nodes.Keys;
    }
  }

  /** Processes have moved or a limit was set, and nothing else. */
  ghost predicate OnlyInside(before: Scope, after: Scope) {
    && after == before.(nodes := after.nodes)
    && forall n :: n in before.nodes ==>
         && n in after.nodes
         && after.nodes[n] == before.nodes[n].(procs := after.nodes[n].procs, max := after.nodes[n].max)
  }

  lemma GrownInside(start: Scope, before: Scope, after: Scope)
    requires Grown(start, before) && OnlyInside(before, after) && WellFormed(after)
    ensures Grown(start, after)
  {}

  lemma PinnedInside(
    before: Scope, after: Scope, root: int, rootIdentity: Stat, h: int, name: string, identity: Stat, user: nat)
    requires OnlyInside(before, after) && Pinned(before, root, rootIdentity, h, name, identity, user)
    ensures Pinned(after, root, rootIdentity, h, name, identity, user)
  {}

  // ----- what is called, in order -----------------------------------------------------------

  ghost predicate NoneRemoved(calls: seq<Call>, from: nat) {
    forall k :: from <= k < |calls| ==> !calls[k].Removed?
  }

  function IdentityCalls(log: seq<Call>, root: nat, node: nat, name: string): (after: seq<Call>) {
    log + [Checked(root), Checked(node), Looked(name)]
  }

  function EmptyCalls(log: seq<Call>, node: nat, pids: bool): (after: seq<Call>) {
    log + [FileRead(node, "cgroup.events"), FileRead(node, "cgroup.procs")]
    + if pids then [FileRead(node, "pids.current")] else []
  }

  function LeafCalls(log: seq<Call>, root: nat, node: nat, name: string): (after: seq<Call>) {
    IdentityCalls(log + [Made(name)] + [Opened(name)] + [Checked(node)], root, node, name)
  }

  /** Every entry but the two that every directory has is looked at. */
  function LookCalls(log: seq<Call>, names: seq<string>): (after: seq<Call>) {
    if names == [] then log
    else
      var last, front := names[|names| - 1], LookCalls(log, names[..|names| - 1]);
      if last == "." || last == ".." then front else front + [Looked(last)]
  }

  function ExamineCalls(log: seq<Call>, root: nat, names: seq<string>): (after: seq<Call>) {
    var read := log + [Checked(root)] + [FileRead(root, "cgroup.procs")] + [FileRead(root, "cgroup.controllers")];
    LookCalls(read + [ScopeOpened] + [Listed], names) + [Looked("supervisor")] + [Looked("payload")]
  }

  function CheckCalls(log: seq<Call>, root: nat, supervisor: nat, payload: nat): (after: seq<Call>) {
    var checked := IdentityCalls(IdentityCalls(log, root, payload, "payload"), root, supervisor, "supervisor");
    EmptyCalls(checked, payload, true)
  }

  function ConfigureCalls(log: seq<Call>, root: nat, supervisor: nat, payload: nat): (after: seq<Call>) {
    var moved := log + [FileWritten(supervisor, "cgroup.procs"), FileRead(root, "cgroup.procs")];
    var handed := moved + [FileWritten(root, "cgroup.subtree_control"), FileRead(root, "cgroup.subtree_control")];
    var capped := EmptyCalls(handed, payload, true)
                  + [FileWritten(payload, "pids.max"), FileRead(payload, "pids.max")];
    CheckCalls(capped, root, supervisor, payload)
  }

  function SetUpCalls(log: seq<Call>, root: nat, names: seq<string>, supervisor: nat, payload: nat)
    : (after: seq<Call>)
  {
    var leaf := LeafCalls(ExamineCalls(log, root, names), root, supervisor, "supervisor");
    ConfigureCalls(LeafCalls(leaf, root, payload, "payload"), root, supervisor, payload)
  }

  function PrepareCalls(log: seq<Call>, root: nat, names: seq<string>, supervisor: nat, payload: nat)
    : (after: seq<Call>)
  {
    SetUpCalls(log + [ScopeOpened], root, names, supervisor, payload)
  }

  function ForkCalls(log: seq<Call>, root: nat, supervisor: nat, payload: nat): (after: seq<Call>) {
    CheckCalls(log, root, supervisor, payload) + [FileRead(payload, "pids.max"), Cloned]
  }

  function FinishCalls(log: seq<Call>, root: nat, payload: nat): (after: seq<Call>) {
    var empty := EmptyCalls(IdentityCalls(log, root, payload, "payload"), payload, true);
    IdentityCalls(empty, root, payload, "payload") + [Removed("payload")]
  }

  class Quota {
    const kernel: Kernel
    var root: int
    var supervisor: int
    var payload: int
    var rootIdentity: Stat
    var supervisorIdentity: Stat
    var payloadIdentity: Stat
    var limit: nat
    var prepared: bool
    var createdSupervisor: bool
    var createdPayload: bool

    predicate Reset()
      reads this
    {
      && root == -1 && supervisor == -1 && payload == -1
      && rootIdentity == NO_STAT && supervisorIdentity == NO_STAT && payloadIdentity == NO_STAT
      && limit == 0 && !prepared && !createdSupervisor && !createdPayload
    }

    function Owned(): (hs: set<int>)
      reads this
    {
      (if root >= 0 then {root} else {}) + (if supervisor >= 0 then {supervisor} else {})
      + (if payload >= 0 then {payload} else {})
    }

    /** Every descriptor held is open, held once, and a leaf's descriptor is of a leaf this program made. */
    ghost predicate Valid()
      reads this, kernel`s
    {
      && kernel.Valid() && Owned() <= kernel.s.handles.Keys
      && (root >= 0 ==> kernel.s.handles[root] == kernel.s.root)
      && (supervisor >= 0 || payload >= 0 ==> root >= 0)
      && (supervisor >= 0 ==> supervisor != root && createdSupervisor && kernel.s.handles[supervisor] in kernel.s.made)
      && (payload >= 0 ==>
          && payload != root && payload != supervisor && createdPayload
          && kernel.s.handles[payload] in kernel.s.made)
    }

    constructor (kernel: Kernel)
      requires kernel.Valid()
      ensures Valid() && Reset() && this.kernel == kernel
    {
      this.kernel := kernel;
      root, supervisor, payload := -1, -1, -1;
      rootIdentity, supervisorIdentity, payloadIdentity := NO_STAT, NO_STAT, NO_STAT;
      limit, prepared, createdSupervisor, createdPayload := 0, false, false, false;
    }

    /** `icode_task_quota_init`. */
    method Init()
      modifies this
      ensures Reset()
    {
      root, supervisor, payload := -1, -1, -1;
      rootIdentity, supervisorIdentity, payloadIdentity := NO_STAT, NO_STAT, NO_STAT;
      limit, prepared, createdSupervisor, createdPayload := 0, false, false, false;
    }

    /** `icode_task_quota_close`: each descriptor held is closed once, and forgotten. */
    method Close()
      requires Valid()
      modifies this, kernel`s
      ensures Valid() && Reset() && kernel.s == old(kernel.s).(handles := old(kernel.s.handles) - old(Owned()))
    {
      if root >= 0 { kernel.Close(root); }
      if supervisor >= 0 { kernel.Close(supervisor); }
      if payload >= 0 { kernel.Close(payload); }
      assert kernel.s.handles == old(kernel.s.handles) - old(Owned());
      Init();
    }

    /** The name still resolves to the directory whose descriptor is held, and nothing about either has changed. */
    ghost predicate Identified(h: int, name: string, identity: Stat)
      requires Valid()
      reads this, kernel`s
    {
      Pinned(kernel.s, root, rootIdentity, h, name, identity, kernel.user)
    }

    /** `icode_quota_identity`. */
    method Identity(h: int, name: string, identity: Stat) returns (ok: bool)
      requires Valid() && root >= 0 && h in kernel.s.handles
      modifies kernel`refusals, kernel`calls
      ensures ok <==> Identified(h, name, identity) && kernel.refusals == old(kernel.refusals)
      ensures old(kernel.refusals) <= kernel.refusals
      ensures ok ==> kernel.calls == IdentityCalls(old(kernel.calls), kernel.s.root, kernel.s.handles[h], name)
      ensures old(kernel.calls) <= kernel.calls && NoneRemoved(kernel.calls, |old(kernel.calls)|)
      ensures kernel.refusals != old(kernel.refusals) ==>
                Hindered(kernel.refusals, |old(kernel.refusals)|, kernel.s.root, name, kernel.s.handles[h])
    {
      ok := false;
      var top := kernel.Fstat(root);
      if top == None || !Same(rootIdentity, top.value, kernel.user) { return; }
      var held := kernel.Fstat(h);
      if held == None || !Same(identity, held.value, kernel.user) { return; }
      var named := kernel.StatAt(root, name);
      if !named.Found? || !Same(identity, named.stat, kernel.user) { return; }
      ok := true;
    }

    /** `icode_quota_empty`. */
    method Empty(h: int, requirePids: bool) returns (ok: bool)
      requires Valid() && h in kernel.s.handles
      modifies kernel`refusals, kernel`calls
      ensures ok <==> kernel.s.nodes[kernel.s.handles[h]].procs == {} && kernel.refusals == old(kernel.refusals)
      ensures old(kernel.refusals) <= kernel.refusals
      ensures ok ==> kernel.calls == EmptyCalls(old(kernel.calls), kernel.s.handles[h], requirePids)
      ensures old(kernel.calls) <= kernel.calls && NoneRemoved(kernel.calls, |old(kernel.calls)|)
      ensures kernel.refusals != old(kernel.refusals) ==>
                || Since(kernel.refusals, |old(kernel.refusals)|, FileRead(kernel.s.handles[h], "cgroup.events"))
                || Since(kernel.refusals, |old(kernel.refusals)|, FileRead(kernel.s.handles[h], "cgroup.procs"))
                || (requirePids
                    && Since(kernel.refusals, |old(kernel.refusals)|, FileRead(kernel.s.handles[h], "pids.current")))
    {
      hide SaysEmpty;
      ok := false;
      var events := kernel.ReadEvents(h);
      if events == None { return; }
      var scanned := ScanEvents(events.value);
      if scanned.Err? { return; }
      var procs := kernel.ReadProcs(h);
      if procs != Some("") { return; }
      if requirePids {
        var current := kernel.ReadCurrent(h);
        if current != Some("0\n") { return; }
      }
      ok := true;
    }

    /** Remove one leaf if it is ours, still where it was put, and empty. */
    method AbortLeaf(created: bool, h: int, name: string, identity: Stat)
      requires Valid() && (h >= 0 ==> root >= 0 && h in kernel.s.handles && kernel.s.handles[h] in kernel.s.made)
      modifies kernel
      ensures Valid() && kernel.s.handles == old(kernel.s.handles) && old(kernel.refusals) <= kernel.refusals
      ensures RemovedOnly(old(kernel.s), kernel.s, if h >= 0 then {old(kernel.s).handles[h]} else {})
      ensures forall n :: n in old(kernel.s).children && n !in kernel.s.children ==> n == name && created && h >= 0
      ensures old(kernel.calls) <= kernel.calls
      ensures !(created && h >= 0 && old(Removable(h, name, identity))) ==>
                NoneRemoved(kernel.calls, |old(kernel.calls)|)
      ensures created && h >= 0 && old(Removable(h, name, identity)) && name in kernel.s.children ==>
                Hindered(
                  kernel.refusals, |old(kernel.refusals)|, kernel.s.root, name, old(kernel.s).handles[h])
    {
      if !created || h < 0 { return; }
      var still := Identity(h, name, identity);
      if !still { return; }
      var empty := Empty(h, false);
      if !empty { return; }
      var gone := kernel.Rmdir(root, name);
    }

    /** Still where it was put, and empty. */
    ghost predicate Removable(h: int, name: string, identity: Stat)
      requires Valid()
      reads this, kernel`s
    {
      Identified(h, name, identity) && kernel.s.nodes[kernel.s.handles[h]].procs == {}
    }

    /** The leaves this program made. */
    ghost function Leaves(): (ns: set<nat>)
      requires Valid()
      reads this, kernel`s
    {
      (if supervisor >= 0 then {kernel.s.handles[supervisor]} else {})
        + (if payload >= 0 then {kernel.s.handles[payload]} else {})
    }

    /** `icode_quota_abort`: no name that predates it goes, nor any populated cgroup. */
    method Abort()
      requires Valid()
      modifies this, kernel
      ensures Valid() && Reset() && kernel.s.handles == old(kernel.s.handles) - old(Owned())
      ensures RemovedOnly(old(kernel.s), kernel.s, old(Leaves())) && old(kernel.refusals) <= kernel.refusals
      ensures forall n :: n in old(kernel.s).children && n !in kernel.s.children ==> n == "payload" || n == "supervisor"
      ensures old(createdPayload && payload >= 0 && Removable(payload, "payload", payloadIdentity)) ==>
                Gone("payload", old(kernel.s.handles[payload]), |old(kernel.refusals)|)
      ensures old(createdSupervisor && supervisor >= 0 && Removable(supervisor, "supervisor", supervisorIdentity)) ==>
                Gone("supervisor", old(kernel.s.handles[supervisor]), |old(kernel.refusals)|)
    {
      AbortLeaf(createdPayload, payload, "payload", payloadIdentity);
      AbortLeaf(createdSupervisor, supervisor, "supervisor", supervisorIdentity);
      Close();
    }

    /** A leaf is no longer there, unless the kernel has refused a call about it since. */
    ghost predicate Gone(name: string, node: nat, from: nat)
      reads kernel
    {
      name in kernel.s.children ==> Hindered(kernel.refusals, from, kernel.s.root, name, node)
    }

    /** Setting up: everything held was opened since `before`, and every leaf held was made since. */
    ghost predicate Ongoing(before: Scope)
      reads this, kernel`s
    {
      && Valid() && root >= 0 && !prepared && Grown(before, kernel.s)
      && kernel.s.handles - Owned() == before.handles && Owned() !! before.handles.Keys
      && kernel.s.removed == before.removed && Leaves() <= kernel.s.made - before.made
    }

    /** The scope is this user's own, and its identity is the one recorded. */
    ghost predicate RootKnown()
      reads this, kernel`s
    {
      WellFormed(kernel.s) && OwnScope(kernel.s, kernel.user) && rootIdentity == StatOf(kernel.s, kernel.s.root)
    }

    /** A leaf that can be removed again as long as nothing has entered it. */
    ghost predicate InHand(name: string)
      requires Valid()
      reads this, kernel`s
    {
      || (name == "supervisor" && createdSupervisor && supervisor >= 0
          && Identified(supervisor, "supervisor", supervisorIdentity))
      || (name == "payload" && createdPayload && payload >= 0 && Identified(payload, "payload", payloadIdentity))
    }

    /** `mkdirat`, remembered. */
    method MakeLeaf(forPayload: bool, name: string, ghost before: Scope) returns (ok: bool)
      requires Ongoing(before) && RootKnown() && name !in kernel.s.children
      modifies this`createdPayload, this`createdSupervisor, kernel
      ensures Ongoing(before) && RootKnown() && OneMore(old(kernel.s), kernel.s, name)
      ensures !forPayload ==> createdPayload == old(createdPayload)
      ensures forPayload ==> createdSupervisor == old(createdSupervisor)
      ensures kernel.calls == old(kernel.calls) + [Made(name)]
      ensures !ok ==> kernel.s == old(kernel.s) && kernel.refusals != old(kernel.refusals)
      ensures ok ==>
                && (if forPayload then createdPayload else createdSupervisor)
                && name in kernel.s.children && kernel.s.children[name] in kernel.s.made - before.made
                && kernel.s.children[name] !in old(kernel.s).nodes && kernel.s.handles == old(kernel.s).handles
      ensures kernel.refusals == Noted(
                                   old(kernel.refusals),
                                   ok && Proper(kernel.s, kernel.s.children[name], kernel.user), Made(name))
    {
      hide Grown, OneMore;
      ghost var was := kernel.s;
      ghost var n;
      ok, n := kernel.Mkdir(root, name);
      if !ok {
        NoneMore(was, name);
        return;
      }
      GrownByOneMore(before, was, kernel.s, name, n);
      if forPayload { createdPayload := true; } else { createdSupervisor := true; }
    }

    /** `openat` of the new directory. */
    method OpenLeaf(forPayload: bool, name: string, ghost before: Scope) returns (ok: bool)
      requires Ongoing(before) && RootKnown()
      requires if forPayload then payload == -1 && createdPayload else supervisor == -1 && createdSupervisor
      requires name in kernel.s.children && kernel.s.children[name] in kernel.s.made - before.made
      modifies this`payload, this`supervisor, kernel
      ensures Ongoing(before) && RootKnown()
      ensures forPayload ==> supervisor == old(supervisor)
      ensures !forPayload ==> payload == old(payload)
      ensures OneOpened(old(kernel.s), kernel.s)
      ensures ok ==>
                var h := if forPayload then payload else supervisor;
                h >= 0 && h in kernel.s.handles && kernel.s.handles[h] == kernel.s.children[name]
      ensures kernel.calls == old(kernel.calls) + [Opened(name)]
      ensures kernel.refusals == Noted(old(kernel.refusals), ok, Opened(name))
    {
      hide Grown;
      ghost var was := kernel.s;
      var h := kernel.OpenChild(root, name);
      if h < 0 { return false; }
      GrownByOneOpened(before, was, kernel.s);
      if forPayload { payload := h; } else { supervisor := h; }
      assert kernel.s.handles - Owned() == before.handles;
      ok := true;
    }

    /** `icode_quota_new_leaf`: the directory is made, opened, and checked against its own name. */
    method NewLeaf(forPayload: bool, name: string, ghost before: Scope) returns (ok: bool)
      requires Ongoing(before) && RootKnown() && name !in kernel.s.children
      requires if forPayload then name == "payload" && payload == -1 else name == "supervisor" && supervisor == -1
      modifies this, kernel
      ensures Ongoing(before) && RootKnown() && root == old(root) && rootIdentity == old(rootIdentity)
      ensures forPayload ==>
                && supervisor == old(supervisor) && createdSupervisor == old(createdSupervisor)
                && supervisorIdentity == old(supervisorIdentity)
      ensures !forPayload ==> payload == old(payload) && createdPayload == old(createdPayload)
      ensures OneMore(old(kernel.s), kernel.s, name) && old(kernel.refusals) <= kernel.refusals
      ensures ok <==> kernel.refusals == old(kernel.refusals)
      ensures ok ==>
                && InHand(name) && kernel.s.children[name] !in old(kernel.s).nodes
                && OwnLeaf(if forPayload then payload else supervisor, name)
                && kernel.calls == LeafCalls(old(kernel.calls), kernel.s.root, kernel.s.children[name], name)
      ensures name in kernel.s.children ==>
                || InHand(name)
                || Misbegotten(kernel.refusals, |old(kernel.refusals)|, name, kernel.s.children[name])
    {
      hide Grown, WellFormed, Same, StatOf, Pinned, OneMore;
      ghost var was := kernel.s;
      ok := MakeLeaf(forPayload, name, before);
      if !ok { return; }
      ghost var made := kernel.s;
      ok := OpenLeaf(forPayload, name, before);
      OneMoreOpened(was, made, kernel.s, name);
      if !ok { return; }
      ok := LearnLeaf(forPayload, name, before);
    }

    /** The identity of the new directory, recorded and checked. */
    method LearnLeaf(forPayload: bool, name: string, ghost before: Scope) returns (ok: bool)
      requires Ongoing(before) && RootKnown() && name in kernel.s.children
      requires if forPayload then name == "payload" else name == "supervisor"
      requires var h := if forPayload then payload else supervisor;
               h >= 0 && h in kernel.s.handles && kernel.s.handles[h] == kernel.s.children[name]
      modifies this`payloadIdentity, this`supervisorIdentity, kernel`refusals, kernel`calls
      ensures Ongoing(before) && RootKnown() && old(kernel.refusals) <= kernel.refusals
      ensures ok ==> kernel.calls == IdentityCalls(old(kernel.calls) + [Checked(kernel.s.children[name])],
                                                   kernel.s.root, kernel.s.children[name], name)
      ensures forPayload ==> supervisorIdentity == old(supervisorIdentity)
      ensures var leaf := OwnLeaf(if forPayload then payload else supervisor, name);
              && (ok <==> leaf && kernel.refusals == old(kernel.refusals)) && (ok ==> InHand(name))
              && (leaf ==>
                  || InHand(name)
                  || Since(kernel.refusals, |old(kernel.refusals)|, Checked(kernel.s.children[name])))
    {
      hide Grown, WellFormed, Same, StatOf, Pinned;
      var identity;
      ok, identity := CheckLeaf(if forPayload then payload else supervisor, name);
      if forPayload { payloadIdentity := identity; } else { supervisorIdentity := identity; }
    }

    /** The leaf behind `h` is what its name resolves to, on the scope's device, and only this user may write it. */
    predicate OwnLeaf(h: int, name: string)
      reads this, kernel`s
    {
      && h in kernel.s.handles && name in kernel.s.children && kernel.s.children[name] == kernel.s.handles[h]
      && Proper(kernel.s, kernel.s.handles[h], kernel.user)
    }

    method CheckLeaf(h: int, name: string) returns (ok: bool, identity: Stat)
      requires Valid() && RootKnown() && root >= 0 && h in kernel.s.handles
      requires name in kernel.s.children && kernel.s.children[name] == kernel.s.handles[h]
      modifies kernel`refusals, kernel`calls
      ensures old(kernel.refusals) <= kernel.refusals
      ensures ok <==> OwnLeaf(h, name) && kernel.refusals == old(kernel.refusals)
      ensures OwnLeaf(h, name) ==>
                || Identified(h, name, identity)
                || Since(kernel.refusals, |old(kernel.refusals)|, Checked(kernel.s.handles[h]))
      ensures ok ==>
                && Identified(h, name, identity)
                && kernel.calls == IdentityCalls(old(kernel.calls) + [Checked(kernel.s.handles[h])],
                                                 kernel.s.root, kernel.s.handles[h], name)
    {
      identity := NO_STAT;
      var t := kernel.Fstat(h);
      if t == None { return false, identity; }
      identity := t.value;
      if identity.owner != kernel.user || identity.device != rootIdentity.device || identity.shared {
        return false, identity;
      }
      ok := Identity(h, name, identity);
    }

    /** `icode_quota_no_children`. */
    method NoChildren(ghost before: Scope) returns (ok: bool, ghost seen: seq<string>)
      requires Ongoing(before)
      modifies kernel
      ensures Ongoing(before) && kernel.s == old(kernel.s) && old(kernel.refusals) <= kernel.refusals
      ensures ok ==> kernel.calls == LookCalls(old(kernel.calls) + [ScopeOpened] + [Listed], seen)
      ensures ok <==> NoChildDirectories(kernel.s) && kernel.refusals == old(kernel.refusals)
    {
      var h := kernel.OpenAgain();
      seen := [];
      if h < 0 { return false, seen; }
      var names := kernel.List(h);
      ok := false;
      if names.Some? {
        ok := NoDirectories(names.value);
        seen := names.value;
      }
      kernel.Close(h);
      assert kernel.s.handles == old(kernel.s.handles);
    }

    method NoDirectories(names: seq<string>) returns (ok: bool)
      requires Valid() && root >= 0
      modifies kernel`refusals, kernel`calls
      ensures old(kernel.refusals) <= kernel.refusals
      ensures ok ==> kernel.calls == LookCalls(old(kernel.calls), names)
      ensures ok <==> kernel.refusals == old(kernel.refusals) && AllFiles(kernel.s, names)
    {
      for i := 0 to |names|
        invariant kernel.refusals == old(kernel.refusals) && AllFiles(kernel.s, names[..i])
        invariant kernel.calls == LookCalls(old(kernel.calls), names[..i])
      {
        assert names[..i + 1] == names[..i] + [names[i]];
        if names[i] == "." || names[i] == ".." { continue; }
        var l := kernel.StatAt(root, names[i]);
        if !l.Found? || l.stat.directory { return false; }
      }
      assert names[..|names|] == names;
      ok := true;
    }

    /** The scope's identity, its one process and its controllers. */
    method ReadScope(ghost before: Scope) returns (ok: bool)
      requires Ongoing(before) && OwnScope(kernel.s, kernel.user)
      modifies this`rootIdentity, kernel`refusals, kernel`calls
      ensures Ongoing(before) && old(kernel.refusals) <= kernel.refusals
      ensures ok <==>
                && kernel.s.nodes[kernel.s.root].procs == {kernel.self}
                && kernel.refusals == old(kernel.refusals)
      ensures ok ==>
                && RootKnown()
                && kernel.calls == old(kernel.calls) + [Checked(kernel.s.root)]
                                   + [FileRead(kernel.s.root, "cgroup.procs")]
                                   + [FileRead(kernel.s.root, "cgroup.controllers")]
    {
      hide Grown, Contains, WellFormed;
      ok := false;
      var t := kernel.Fstat(root);
      if t == None { return; }
      rootIdentity := t.value;
      var procs := kernel.ReadProcs(root);
      if procs != Some(Sid.Decimal(kernel.self) + "\n") { return; }
      var controllers := kernel.ReadControllers(root, "cgroup.controllers");
      if controllers == None { return; }
      ok := HasWord(controllers.value, "pids");
    }

    /** Everything that has to hold of the scope before anything is made in it. */
    method Examine(ghost before: Scope) returns (ok: bool, ghost seen: seq<string>)
      requires Ongoing(before) && OwnScope(kernel.s, kernel.user)
      modifies this, kernel
      ensures Ongoing(before) && kernel.s == old(kernel.s) && old(kernel.refusals) <= kernel.refusals
      ensures root == old(root) && supervisor == old(supervisor) && payload == old(payload)
      ensures createdSupervisor == old(createdSupervisor) && createdPayload == old(createdPayload)
      ensures ok <==> Idle(kernel.s, kernel.self) && kernel.refusals == old(kernel.refusals)
      ensures ok ==> RootKnown() && kernel.calls == ExamineCalls(old(kernel.calls), kernel.s.root, seen)
    {
      hide Grown, NoChildDirectories, WellFormed, LookCalls;
      seen := [];
      ok := ReadScope(before);
      if !ok { return; }
      ok := false;
      var childless;
      childless, seen := NoChildren(before);
      if !childless { return; }
      var first := kernel.StatAt(root, "supervisor");
      if !first.Missing? { return; }
      var second := kernel.StatAt(root, "payload");
      ok := second.Missing?;
    }

    /** What a successful preparation leaves: the caller moved out of the way, the payload leaf empty and capped. */
    ghost predicate Charged(limit: nat)
      requires Valid()
      reads this, kernel`s
    {
      && root >= 0 && supervisor >= 0 && payload >= 0
      && kernel.s.nodes[kernel.s.root].procs == {}
      && kernel.self in kernel.s.nodes[kernel.s.handles[supervisor]].procs
      && kernel.s.nodes[kernel.s.handles[payload]].procs == {}
      && kernel.s.nodes[kernel.s.handles[payload]].max == Some(limit)
      && "supervisor" in kernel.s.children && kernel.s.children["supervisor"] == kernel.s.handles[supervisor]
      && "payload" in kernel.s.children && kernel.s.children["payload"] == kernel.s.handles[payload]
    }

    /** Both leaves are in hand, the payload leaf empty, and the rest of the caller's processes where they were. */
    ghost predicate BothInHand()
      requires Valid()
      reads this, kernel`s
    {
      && RootKnown() && InHand("supervisor") && InHand("payload")
      && "supervisor" in kernel.s.children && "payload" in kernel.s.children
      && kernel.s.children["supervisor"] == kernel.s.handles[supervisor]
      && kernel.s.children["payload"] == kernel.s.handles[payload]
      && kernel.s.handles[supervisor] != kernel.s.handles[payload]
      && kernel.s.nodes[kernel.s.handles[payload]].procs == {}
      && kernel.s.nodes[kernel.s.handles[supervisor]].procs <= {kernel.self}
    }

    /** Move the caller, hand the pids controller down, and cap the payload leaf. */
    method Configure(limit: nat, ghost before: Scope) returns (ok: bool)
      requires Ongoing(before) && BothInHand() && kernel.s.nodes[kernel.s.root].procs == {kernel.self}
      modifies kernel
      ensures Ongoing(before) && BothInHand() && old(kernel.refusals) <= kernel.refusals
      ensures kernel.s == old(kernel.s).(nodes := kernel.s.nodes)
      ensures ok <==> kernel.refusals == old(kernel.refusals)
      ensures ok ==>
                && Charged(limit)
                && kernel.calls == ConfigureCalls(old(kernel.calls), kernel.s.root, kernel.s.handles[supervisor],
                                                  kernel.s.handles[payload])
    {
      hide Grown, RootKnown, Identified, EmptyCalls, CheckCalls, Pinned;
      ok := MoveCaller(before);
      if !ok { return; }
      ok := HandDown();
      if !ok { return; }
      ok := Empty(payload, true);
      if !ok { return; }
      ok := Cap(limit, before);
      if !ok { return; }
      BothIdentified();
      ok := BothInPlace();
    }

    /** Both leaves are in place, and the payload leaf is empty. */
    method BothInPlace() returns (ok: bool)
      requires Valid() && supervisor >= 0 && payload >= 0
      modifies kernel`refusals, kernel`calls
      ensures old(kernel.refusals) <= kernel.refusals
      ensures ok <==>
                && Identified(payload, "payload", payloadIdentity)
                && Identified(supervisor, "supervisor", supervisorIdentity)
                && kernel.s.nodes[kernel.s.handles[payload]].procs == {} && kernel.refusals == old(kernel.refusals)
      ensures ok ==>
                kernel.calls == CheckCalls(old(kernel.calls), kernel.s.root, kernel.s.handles[supervisor],
                                           kernel.s.handles[payload])
    {
      hide Pinned, EmptyCalls, IdentityCalls;
      ok := Identity(payload, "payload", payloadIdentity);
      if !ok { return; }
      ok := Identity(supervisor, "supervisor", supervisorIdentity);
      if !ok { return; }
      ok := Empty(payload, true);
    }

    lemma BothIdentified()
      requires Valid() && BothInHand()
      ensures Identified(payload, "payload", payloadIdentity)
      ensures Identified(supervisor, "supervisor", supervisorIdentity)
    {}

    method MoveCaller(ghost before: Scope) returns (ok: bool)
      requires Ongoing(before) && BothInHand() && kernel.s.nodes[kernel.s.root].procs == {kernel.self}
      modifies kernel
      ensures Ongoing(before) && BothInHand() && old(kernel.refusals) <= kernel.refusals
      ensures kernel.s == old(kernel.s).(nodes := kernel.s.nodes)
      ensures ok <==> kernel.refusals == old(kernel.refusals)
      ensures ok ==>
                && kernel.calls == old(kernel.calls) + [FileWritten(kernel.s.handles[supervisor], "cgroup.procs"),
                                                        FileRead(kernel.s.root, "cgroup.procs")]
                && kernel.s.nodes[kernel.s.root].procs == {}
                && kernel.self in kernel.s.nodes[kernel.s.handles[supervisor]].procs
    {
      hide Pinned, Grown;
      ghost var was := kernel.s;
      ok := kernel.Join(supervisor);
      if !ok { return; }
      GrownInside(before, was, kernel.s);
      PinnedInside(
        was, kernel.s, root, rootIdentity, supervisor, "supervisor", supervisorIdentity, kernel.user);
      PinnedInside(was, kernel.s, root, rootIdentity, payload, "payload", payloadIdentity, kernel.user);
      var left := kernel.ReadProcs(root);
      ok := left == Some("");
    }

    method HandDown() returns (ok: bool)
      requires Valid() && root >= 0
      modifies kernel`refusals, kernel`calls
      ensures old(kernel.refusals) <= kernel.refusals && (ok <==> kernel.refusals == old(kernel.refusals))
      ensures ok ==>
                kernel.calls == old(kernel.calls) + [FileWritten(kernel.s.root, "cgroup.subtree_control"),
                                                     FileRead(kernel.s.root, "cgroup.subtree_control")]
    {
      ok := kernel.Enable(root);
      if !ok { return; }
      var control := kernel.ReadControllers(root, "cgroup.subtree_control");
      if control == None { return false; }
      ok := HasWord(control.value, "pids");
    }

    method Cap(limit: nat, ghost before: Scope) returns (ok: bool)
      requires Ongoing(before) && BothInHand()
      modifies kernel
      ensures Ongoing(before) && BothInHand() && old(kernel.refusals) <= kernel.refusals
      ensures kernel.s == old(kernel.s).(nodes := kernel.s.nodes)
      ensures forall n :: n in old(kernel.s).nodes ==>
                n in kernel.s.nodes && kernel.s.nodes[n].procs == old(kernel.s).nodes[n].procs
      ensures ok <==> kernel.refusals == old(kernel.refusals)
      ensures ok ==>
                && kernel.s.nodes[kernel.s.handles[payload]].max == Some(limit)
                && kernel.calls == old(kernel.calls) + [FileWritten(kernel.s.handles[payload], "pids.max"),
                                                        FileRead(kernel.s.handles[payload], "pids.max")]
    {
      ok := kernel.WriteMax(payload, limit);
      if !ok { return; }
      var written := kernel.ReadMax(payload, limit);
      ok := written == Some(Sid.Decimal(limit) + "\n");
    }

    /** Every leaf made since `before` can be removed again, unless the call that would have let it was refused. */
    ghost predicate Accounted(before: Scope, from: nat)
      reads this, kernel
    {
      && Valid()
      && forall n :: n in kernel.s.children && n !in before.children ==>
          && (n == "supervisor" || n == "payload")
          && kernel.s.nodes[kernel.s.children[n]].procs <= (if n == "supervisor" then {kernel.self} else {})
          && (InHand(n) || Misbegotten(kernel.refusals, from, n, kernel.s.children[n]))
    }

    /** Why a leaf may be left behind: the caller is in it, or a refusal since `from` is to blame for it. */
    ghost predicate LeftBehind(n: string, from: nat)
      reads kernel
    {
      && n in kernel.s.children && kernel.s.children[n] in kernel.s.nodes
      && var node := kernel.s.children[n];
      || (n == "supervisor" && kernel.s.nodes[node].procs == {kernel.self})
      || Misbegotten(kernel.refusals, from, n, node)
      || Hindered(kernel.refusals, from + 1, kernel.s.root, n, node)
    }

    method AbortPrepare(ghost before: Scope, ghost from: nat)
      requires Ongoing(before) && Accounted(before, from)
      requires kernel.s.children != before.children ==> from < |kernel.refusals|
      modifies this, kernel
      ensures Valid() && Reset() && Undone(before, kernel.s) && old(kernel.refusals) <= kernel.refusals
      ensures forall n :: n in kernel.s.children && n !in before.children ==>
                (n == "supervisor" || n == "payload") && LeftBehind(n, from)
    {
      hide Grown, RemovedOnly, Undone, Misbegotten, Hindered, Pinned, StatOf;
      ghost var ongoing, mine, refusals := kernel.s, Leaves(), kernel.refusals;
      Abort();
      UndoneByRemoval(before, ongoing, kernel.s, mine);
      forall n | n in kernel.s.children && n !in before.children
        ensures (n == "supervisor" || n == "payload") && LeftBehind(n, from)
      {
        var node := kernel.s.children[n];
        if Misbegotten(refusals, from, n, node) {
          MisbegottenLater(refusals, kernel.refusals, from, n, node);
        } else if Hindered(kernel.refusals, |refusals|, kernel.s.root, n, node) {
          HinderedEarlier(kernel.refusals, from + 1, |refusals|, kernel.s.root, n, node);
        }
      }
    }

    /** Everything between opening the scope and the label `failure`. */
    method SetUp(limit: nat, ghost before: Scope) returns (ok: bool, ghost seen: seq<string>)
      requires Ongoing(before) && supervisor == -1 && payload == -1 && OwnScope(kernel.s, kernel.user)
      requires kernel.s.children == before.children
      modifies this, kernel
      ensures Ongoing(before) && old(kernel.refusals) <= kernel.refusals
      ensures ok <==> Idle(old(kernel.s), kernel.self) && kernel.refusals == old(kernel.refusals)
      ensures ok ==> Charged(limit) && createdSupervisor && createdPayload
      ensures ok ==>
                kernel.calls == SetUpCalls(old(kernel.calls), kernel.s.root, seen, kernel.s.handles[supervisor],
                                           kernel.s.handles[payload])
      ensures Accounted(before, |old(kernel.refusals)|)
      ensures !Idle(old(kernel.s), kernel.self) ==> kernel.s.children == before.children
    {
      hide Grown, Misbegotten, Hindered, Pinned, RootKnown;
      ok, seen := Examine(before);
      if !ok { return; }
      ok := MakeLeaves(before);
      if !ok { return; }
      ok := Configure(limit, before);
    }

    /** The two leaves, one after the other. */
    method MakeLeaves(ghost before: Scope) returns (ok: bool)
      requires Ongoing(before) && RootKnown() && supervisor == -1 && payload == -1
      requires kernel.s.children == before.children
      requires "supervisor" !in kernel.s.children && "payload" !in kernel.s.children
      modifies this, kernel
      ensures Ongoing(before) && old(kernel.refusals) <= kernel.refusals
      ensures ok <==> kernel.refusals == old(kernel.refusals)
      ensures ok ==> BothInHand() && kernel.s.nodes[kernel.s.root].procs == old(kernel.s.nodes[kernel.s.root].procs)
      ensures kernel.s.root == old(kernel.s.root)
      ensures ok ==>
                kernel.calls == LeafCalls(LeafCalls(old(kernel.calls), kernel.s.root, kernel.s.handles[supervisor],
                                                    "supervisor"),
                                          kernel.s.root, kernel.s.handles[payload], "payload")
      ensures Accounted(before, |old(kernel.refusals)|)
    {
      hide Grown, Misbegotten, Hindered, Pinned, OwnScope, StatOf, Proper, Same, LeafCalls;
      ok := NewLeaf(false, "supervisor", before);
      if !ok { return; }
      ok := MakePayload(before);
    }

    method MakePayload(ghost before: Scope) returns (ok: bool)
      requires Ongoing(before) && RootKnown() && payload == -1 && "payload" !in kernel.s.children
      requires InHand("supervisor") && kernel.s.nodes[kernel.s.handles[supervisor]].procs == {}
      requires forall n :: n in kernel.s.children && n !in before.children ==> n == "supervisor"
      modifies this, kernel
      ensures Ongoing(before) && old(kernel.refusals) <= kernel.refusals
      ensures ok <==> kernel.refusals == old(kernel.refusals)
      ensures ok ==> BothInHand()
      ensures kernel.s.root == old(kernel.s.root)
              && kernel.s.nodes[kernel.s.root].procs == old(kernel.s.nodes[kernel.s.root].procs)
      ensures ok ==>
                && kernel.s.handles[supervisor] == old(kernel.s.handles[supervisor])
                && kernel.calls == LeafCalls(old(kernel.calls), kernel.s.root, kernel.s.handles[payload], "payload")
      ensures Accounted(before, |old(kernel.refusals)|)
    {
      hide Grown, Misbegotten, Hindered, Pinned, OwnScope, StatOf, Proper, Same, LeafCalls;
      ghost var one := kernel.s;
      ok := NewLeaf(true, "payload", before);
      StillPinned(
        one, kernel.s, "payload", root, rootIdentity, supervisor, "supervisor", supervisorIdentity, kernel.user);
    }

    /** Nothing is held and nothing prepared. */
    predicate Fresh()
      reads this
    {
      !prepared && root == -1 && supervisor == -1 && payload == -1
    }

    /** `icode_task_quota_prepare`. */
    method Prepare(unit: string, limit: nat) returns (rc: int, ghost seen: seq<string>)
      requires Valid()
      modifies this, kernel
      ensures Valid() && (rc == 0 || rc == -1) && old(kernel.refusals) <= kernel.refusals
      ensures rc == 0 <==>
                && UnitValid(unit) && 0 < limit <= 0x7FFF_FFFF && old(Fresh())
                && OwnScope(old(kernel.s), kernel.user) && Idle(old(kernel.s), kernel.self)
                && kernel.refusals == old(kernel.refusals)
      ensures !old(Fresh()) ==>
                && kernel.s == old(kernel.s) && root == old(root) && supervisor == old(supervisor)
                && payload == old(payload) && prepared == old(prepared)
      ensures rc == -1 && old(Reset()) ==>
                && Reset() && Undone(old(kernel.s), kernel.s)
                && forall n :: n in kernel.s.children && n !in old(kernel.s).children ==>
                    (n == "supervisor" || n == "payload") && LeftBehind(n, |old(kernel.refusals)|)
      ensures rc == 0 ==>
                && prepared && this.limit == limit && createdSupervisor && createdPayload && Charged(limit)
                && Grown(old(kernel.s), kernel.s) && kernel.s.removed == old(kernel.s.removed)
                && kernel.s.handles - Owned() == old(kernel.s.handles) && Owned() !! old(kernel.s.handles).Keys
                && Leaves() <= kernel.s.made - old(kernel.s.made)
                && kernel.calls == PrepareCalls(old(kernel.calls), kernel.s.root, seen, kernel.s.handles[supervisor],
                                                kernel.s.handles[payload])
    {
      hide UnitValid, LeftBehind, Pinned, SetUpCalls, Misbegotten, Hindered, Accounted;
      ghost var before, from := kernel.s, |kernel.refusals|;
      seen := [];
      if !UnitValid(unit) || limit == 0 || limit > 0x7FFF_FFFF { return -1, seen; }
      if prepared || root != -1 || supervisor != -1 || payload != -1 { return -1, seen; }
      root := kernel.OpenScope();
      if root < 0 {
        root := -1;
        return -1, seen;
      }
      var ok;
      ok, seen := SetUp(limit, before);
      if !ok {
        AbortPrepare(before, from);
        return -1, seen;
      }
      this.limit := limit;
      prepared := true;
      return 0, seen;
    }

    /** `icode_task_quota_fork`: the child starts inside the empty, capped leaf this program made, or not at all. */
    method Fork() returns (pid: int, ghost child: nat)
      requires Valid()
      modifies this, kernel
      ensures Valid() && pid >= -1
      ensures pid < 0 ==> kernel.s == old(kernel.s)
      ensures pid >= 0 <==>
                && old(prepared && payload >= 0 && supervisor >= 0)
                && old(Removable(payload, "payload", payloadIdentity))
                && old(Identified(supervisor, "supervisor", supervisorIdentity))
                && old(kernel.s.nodes[kernel.s.handles[payload]].max == Some(limit))
                && kernel.refusals == old(kernel.refusals)
      ensures pid >= 0 ==>
                kernel.calls == ForkCalls(old(kernel.calls), old(kernel.s.root), old(kernel.s.handles[supervisor]),
                                          old(kernel.s.handles[payload]))
      ensures pid != 0 ==>
                && root == old(root) && supervisor == old(supervisor) && payload == old(payload)
                && prepared == old(prepared)
                && createdPayload == old(createdPayload) && payloadIdentity == old(payloadIdentity)
                && limit == old(limit)
      ensures pid >= 0 ==>
                && "payload" in old(kernel.s).children
                && var n := old(kernel.s).handles[old(payload)];
                && old(kernel.s).children["payload"] == n && n in old(kernel.s).nodes && n in kernel.s.nodes
                && old(kernel.s).nodes[n].procs == {} && kernel.s.nodes[n].procs == {child}
      ensures pid > 0 ==> pid == child && kernel.s.handles == old(kernel.s.handles)
      ensures pid == 0 ==> Reset() && kernel.s.handles == old(kernel.s.handles) - old(Owned())
    {
      hide EmptyCalls, IdentityCalls, Pinned;
      pid, child := -1, 0;
      if !prepared || payload < 0 { return; }
      var ok := Identity(payload, "payload", payloadIdentity);
      if !ok || supervisor < 0 { return; }
      ok := Identity(supervisor, "supervisor", supervisorIdentity);
      if !ok { return; }
      ok := Empty(payload, true);
      if !ok { return; }
      var configured := kernel.ReadMax(payload, limit);
      if configured != Some(Sid.Decimal(limit) + "\n") { return; }
      pid, child := kernel.CloneInto(payload);
      if pid < 0 { pid := -1; }
      if pid == 0 { Close(); }
    }

    /** `icode_task_quota_finish`: only the empty leaf this program made goes, and its descriptor is closed once. */
    method Finish() returns (rc: int)
      requires Valid()
      modifies this, kernel
      ensures Valid() && (rc == 0 || rc == -1)
      ensures rc == 0 <==>
                && old(prepared && createdPayload && payload >= 0 && Removable(payload, "payload", payloadIdentity))
                && kernel.refusals == old(kernel.refusals)
      ensures rc == 0 ==>
                kernel.calls == FinishCalls(old(kernel.calls), kernel.s.root, old(kernel.s.handles[payload]))
      ensures rc == -1 ==>
                && kernel.s == old(kernel.s) && root == old(root) && supervisor == old(supervisor)
                && payload == old(payload)
                && prepared == old(prepared) && createdPayload == old(createdPayload)
      ensures rc == 0 ==>
                && "payload" in old(kernel.s).children
                && var n := old(kernel.s).handles[old(payload)];
                && old(kernel.s).children["payload"] == n && n in old(kernel.s).made && n in old(kernel.s).nodes
                && old(kernel.s).nodes[n].procs == {}
                && kernel.s == old(kernel.s).(children := old(kernel.s).children - {"payload"},
                                              removed := old(kernel.s).removed + {n},
                                              handles := old(kernel.s).handles - {old(payload)})
                && payload == -1 && !createdPayload && !prepared && root == old(root) && supervisor == old(supervisor)
    {
      hide EmptyCalls, IdentityCalls, Pinned;
      if !prepared || !createdPayload || payload < 0 { return -1; }
      var ok := Identity(payload, "payload", payloadIdentity);
      if !ok { return -1; }
      ok := Empty(payload, true);
      if !ok { return -1; }
      ok := Identity(payload, "payload", payloadIdentity);
      if !ok { return -1; }
      ok := kernel.Rmdir(root, "payload");
      if !ok { return -1; }
      kernel.Close(payload);
      payload := -1;
      createdPayload := false;
      prepared := false;
      return 0;
    }
  }
}
