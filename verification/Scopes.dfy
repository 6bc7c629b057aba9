/** The chain of variable scopes (src/exec/variable.c). Scope 0 is the innermost; parents follow. */
module Scopes {

  datatype Value = Text(text: string) | Other

  datatype Flag = EXPORT | READONLY | PREFIX

  datatype Variable = Variable(value: Value, flags: set<Flag>)

  type Scope = map<string, Variable>

  type Chain = seq<Scope>

  datatype Lookup = Absent | Found(v: Variable)

  function Get(c: Chain, name: string): Lookup {
    if c == [] then Absent else if name in c[0] then Found(c[0][name]) else Get(c[1..], name)
  }

  predicate Frozen(c: Chain, name: string) {
    var l := Get(c, name);
    l.Found? && READONLY in l.v.flags
  }

  /** environ_set_flags: in the innermost scope, unless the name is readonly there or in a parent. */
  function Set(c: Chain, name: string, v: Value, flags: set<Flag>): (r: Chain)
    requires c != []
    ensures |r| == |c|
  {
    if name in c[0] then
      if READONLY in c[0][name].flags then c
      else c[0 := c[0][name := Variable(v, c[0][name].flags + flags)]]
    else if Frozen(c[1..], name) then c
    else c[0 := c[0][name := Variable(v, flags)]]
  }

  /** environ_assign: in the scope that binds the name, or in the outermost one. */
  function Assign(c: Chain, name: string, v: Value): (r: Chain)
    requires c != []
    ensures |r| == |c|
  {
    if name in c[0] then
      if READONLY in c[0][name].flags then c else c[0 := c[0][name := c[0][name].(value := v)]]
    else if |c| == 1 then [c[0][name := Variable(v, {})]]
    else [c[0]] + Assign(c[1..], name, v)
  }

  /** environ_set_local: in the innermost scope, readonly or not. */
  function SetLocal(c: Chain, name: string, v: Value): (r: Chain)
    requires c != []
    ensures |r| == |c|
  {
    c[0 := c[0][name := Variable(v, if name in c[0] then c[0][name].flags else {})]]
  }

  function Export(c: Chain, name: string): (r: Chain)
    ensures |r| == |c|
  {
    if c == [] then c
    else if name in c[0] then c[0 := c[0][name := c[0][name].(flags := c[0][name].flags + {EXPORT})]]
    else [c[0]] + Export(c[1..], name)
  }

  function Unset(c: Chain, name: string): (r: Chain)
    ensures |r| == |c|
  {
    if c == [] then c
    else if name in c[0] then
      if READONLY in c[0][name].flags then c else c[0 := c[0] - {name}]
    else [c[0]] + Unset(c[1..], name)
  }

  // ---- the structure updated in place ----

  class Environ {
    var scopes: Chain

    ghost predicate Valid()
      reads this
    {
      scopes != []
    }

    constructor ()
      ensures Valid() && scopes == [map[]]
    {
      scopes := [map[]];
    }

    /** The index of the first scope that binds the name, from scope `i` on. */
    method Find(i: nat, name: string) returns (k: nat)
      requires i <= |scopes|
      ensures i <= k <= |scopes|
      ensures k < |scopes| ==> name in scopes[k]
      ensures forall j :: i <= j < k ==> name !in scopes[j]
    {
      k := i;
      while k < |scopes| && name !in scopes[k]
        invariant i <= k <= |scopes|
        invariant forall j :: i <= j < k ==> name !in scopes[j]
      {
        k := k + 1;
      }
    }

    method Lookup(name: string) returns (l: Lookup)
      ensures l == Get(scopes, name)
    {
      var k := Find(0, name);
      GetAt(scopes, name, k);
      l := if k < |scopes| then Found(scopes[k][name]) else Absent;
    }

    method SetFlags(name: string, v: Value, flags: set<Flag>)
      requires Valid()
      modifies this
      ensures Valid() && scopes == Set(old(scopes), name, v, flags)
    {
      if name in scopes[0] {
        if READONLY in scopes[0][name].flags { return; }
        scopes := scopes[0 := scopes[0][name := Variable(v, scopes[0][name].flags + flags)]];
        return;
      }
      var k := Find(1, name);
      GetAt(scopes[1..], name, k - 1);
      if k < |scopes| && READONLY in scopes[k][name].flags { return; }
      scopes := scopes[0 := scopes[0][name := Variable(v, flags)]];
    }

    method AssignVar(name: string, v: Value)
      requires Valid()
      modifies this
      ensures Valid() && scopes == Assign(old(scopes), name, v)
    {
      var k := Find(0, name);
      AssignAt(scopes, name, v, k);
      if k < |scopes| {
        if READONLY in scopes[k][name].flags { return; }
        scopes := scopes[k := scopes[k][name := scopes[k][name].(value := v)]];
      } else {
        var g := |scopes| - 1;
        scopes := scopes[g := scopes[g][name := Variable(v, {})]];
      }
    }

    method SetLocalVar(name: string, v: Value)
      requires Valid()
      modifies this
      ensures Valid() && scopes == SetLocal(old(scopes), name, v)
    {
      var flags := if name in scopes[0] then scopes[0][name].flags else {};
      scopes := scopes[0 := scopes[0][name := Variable(v, flags)]];
    }

    method ExportVar(name: string)
      modifies this
      ensures scopes == Export(old(scopes), name)
    {
      var k := Find(0, name);
      ExportAt(scopes, name, k);
      if k < |scopes| {
        var v := scopes[k][name];
        scopes := scopes[k := scopes[k][name := v.(flags := v.flags + {EXPORT})]];
      }
    }

    method UnsetVar(name: string)
      modifies this
      ensures scopes == Unset(old(scopes), name)
    {
      var k := Find(0, name);
      UnsetAt(scopes, name, k);
      if k < |scopes| && READONLY !in scopes[k][name].flags {
        scopes := scopes[k := scopes[k] - {name}];
      }
    }

    method PushScope()
      modifies this
      ensures scopes == [map[]] + old(scopes)
    {
      scopes := [map[]] + scopes;
    }

    /** POP_SCOPE keeps the outermost scope. */
    method PopScope() returns (ok: bool)
      requires Valid()
      modifies this
      ensures Valid() && ok == (|old(scopes)| > 1)
      ensures scopes == if ok then old(scopes)[1..] else old(scopes)
    {
      ok := |scopes| > 1;
      if ok { scopes := scopes[1..]; }
    }
  }

  /** Scope `k` is the innermost one that binds the name, or there is none and `k` is |c|. */
  predicate Binds(c: Chain, name: string, k: nat) {
    k <= |c| && (k < |c| ==> name in c[k]) && forall j :: 0 <= j < k ==> name !in c[j]
  }

  lemma {:induction false} GetAt(c: Chain, name: string, k: nat)
    requires Binds(c, name, k)
    ensures Get(c, name) == if k < |c| then Found(c[k][name]) else Absent
    decreases k
  {
    if k > 0 { GetAt(c[1..], name, k - 1); }
  }

  lemma ConsUpdate(c: Chain, k: nat, z: Scope)
    requires c != []
    ensures [c[0]] + c[1..] == c
    ensures 0 < k < |c| ==> c[1..][k - 1] == c[k] && [c[0]] + c[1..][k - 1 := z] == c[k := z]
  {
  }

  lemma {:induction false} AssignAt(c: Chain, name: string, v: Value, k: nat)
    requires c != [] && Binds(c, name, k)
    ensures Assign(c, name, v)
            == if k == |c| then c[k - 1 := c[k - 1][name := Variable(v, {})]]
               else if READONLY in c[k][name].flags then c
               else c[k := c[k][name := c[k][name].(value := v)]]
    decreases k
  {
    if k == 0 || |c| == 1 {
      AssignHead(c, name, v, k);
    } else {
      var d := c[1..];
      assert Binds(d, name, k - 1) && name !in c[0];
      hide Assign, Binds;
      AssignAt(d, name, v, k - 1);
      AssignTail(c, name, v);
      if k < |c| {
        ConsUpdate(c, k, c[k][name := c[k][name].(value := v)]);
      } else {
        ConsUpdate(c, k - 1, c[k - 1][name := Variable(v, {})]);
      }
    }
  }

  lemma AssignHead(c: Chain, name: string, v: Value, k: nat)
    requires c != [] && Binds(c, name, k) && (k == 0 || |c| == 1)
    ensures Assign(c, name, v)
            == if k == |c| then c[k - 1 := c[k - 1][name := Variable(v, {})]]
               else if READONLY in c[k][name].flags then c
               else c[k := c[k][name := c[k][name].(value := v)]]
  {
  }

  lemma AssignTail(c: Chain, name: string, v: Value)
    requires |c| > 1 && name !in c[0]
    ensures Assign(c, name, v) == [c[0]] + Assign(c[1..], name, v)
  {
  }

  lemma {:induction false} ExportAt(c: Chain, name: string, k: nat)
    requires Binds(c, name, k)
    ensures Export(c, name)
            == if k == |c| then c else c[k := c[k][name := c[k][name].(flags := c[k][name].flags + {EXPORT})]]
    decreases k
  {
    if k > 0 {
      var d := c[1..];
      ExportAt(d, name, k - 1);
      assert Export(c, name) == [c[0]] + Export(d, name);
      hide Export, Binds;
      if k < |c| {
        ConsUpdate(c, k, c[k][name := c[k][name].(flags := c[k][name].flags + {EXPORT})]);
      } else {
        ConsUpdate(c, 1, c[0]);
      }
    }
  }

  lemma {:induction false} UnsetAt(c: Chain, name: string, k: nat)
    requires Binds(c, name, k)
    ensures Unset(c, name)
            == if k == |c| || READONLY in c[k][name].flags then c else c[k := c[k] - {name}]
    decreases k
  {
    if k > 0 {
      var d := c[1..];
      UnsetAt(d, name, k - 1);
      assert Unset(c, name) == [c[0]] + Unset(d, name);
      hide Unset, Binds;
      if k < |c| { ConsUpdate(c, k, c[k] - {name}); } else { ConsUpdate(c, 1, c[0]); }
    }
  }

  lemma {:induction false} Binder(c: Chain, name: string) returns (k: nat)
    ensures Binds(c, name, k)
    decreases |c|
  {
    if c == [] || name in c[0] {
      k := 0;
    } else {
      k := Binder(c[1..], name);
      k := k + 1;
    }
  }

  // ---- assignment changes exactly the innermost binding ----

  lemma AssignReads(c: Chain, name: string, v: Value, other: string)
    requires c != []
    ensures other != name ==> Get(Assign(c, name, v), other) == Get(c, other)
    ensures Get(c, name).Found? && READONLY in Get(c, name).v.flags ==> Assign(c, name, v) == c
    ensures !(Get(c, name).Found? && READONLY in Get(c, name).v.flags) ==>
              Get(Assign(c, name, v), name)
              == Found(if Get(c, name).Found? then Get(c, name).v.(value := v) else Variable(v, {}))
  {
    var k := Binder(c, name);
    GetAt(c, name, k);
    AssignAt(c, name, v, k);
    var d := Assign(c, name, v);
    if k == |c| {
      assert Binds(d, name, k - 1);
      GetAt(d, name, k - 1);
    } else {
      GetAt(d, name, k);
    }
    if other != name {
      var j := Binder(c, other);
      GetAt(c, other, j);
      GetAt(d, other, j);
    }
  }

  /** Every scope but the innermost one that binds the name (the outermost one if none does) stays as it was. */
  lemma AssignLeavesOthers(c: Chain, name: string, v: Value, j: nat)
    requires c != [] && j < |c|
    requires name in c[j] ==> exists i :: 0 <= i < j && name in c[i]
    requires name !in c[j] && j == |c| - 1 ==> Get(c, name).Found?
    ensures Assign(c, name, v)[j] == c[j]
  {
    var k := Binder(c, name);
    GetAt(c, name, k);
    AssignAt(c, name, v, k);
  }

  // ---- the other operations ----

  /** Setting a name changes it in the innermost scope only, and what it reads as unless it is readonly somewhere visible. */
  lemma SetReads(c: Chain, name: string, v: Value, flags: set<Flag>, other: string)
    requires c != []
    ensures Set(c, name, v, flags)[1..] == c[1..]
    ensures other != name ==> Get(Set(c, name, v, flags), other) == Get(c, other)
    ensures Get(c, name).Found? && READONLY in Get(c, name).v.flags ==> Set(c, name, v, flags) == c
    ensures !(Get(c, name).Found? && READONLY in Get(c, name).v.flags) ==>
              Get(Set(c, name, v, flags), name)
              == Found(Variable(v, flags + (if name in c[0] then c[0][name].flags else {})))
  {
    assert Frozen(c, name) == (Get(c, name).Found? && READONLY in Get(c, name).v.flags);
    hide Frozen;
    var r := Set(c, name, v, flags);
    assert r[1..] == c[1..];
    FrozenCons(c, name);
  }

  lemma FrozenCons(c: Chain, name: string)
    requires c != []
    ensures Frozen(c, name) == if name in c[0] then READONLY in c[0][name].flags else Frozen(c[1..], name)
  {
  }

  /** `local` always takes effect, in the innermost scope only. */
  lemma LocalReads(c: Chain, name: string, v: Value, other: string)
    requires c != []
    ensures SetLocal(c, name, v)[1..] == c[1..]
    ensures other != name ==> Get(SetLocal(c, name, v), other) == Get(c, other)
    ensures Get(SetLocal(c, name, v), name)
            == Found(Variable(v, if name in c[0] then c[0][name].flags else {}))
  {
    assert SetLocal(c, name, v)[1..] == c[1..];
  }

  /** Exporting adds the flag to the innermost binding and changes no other scope and no other name; an unset name stays unset. */
  lemma ExportReads(c: Chain, name: string, other: string, k: nat)
    requires Binds(c, name, k)
    ensures other != name ==> Get(Export(c, name), other) == Get(c, other)
    ensures Get(Export(c, name), name)
            == if k == |c| then Absent else Found(Variable(c[k][name].value, c[k][name].flags + {EXPORT}))
    ensures forall j :: 0 <= j < |c| && j != k ==> Export(c, name)[j] == c[j]
  {
    ExportAt(c, name, k);
    GetAt(Export(c, name), name, k);
    var j := Binder(c, other);
    GetAt(c, other, j);
    if other != name { GetAt(Export(c, name), other, j); }
  }

  /** Unsetting uncovers the next binding of the name further out, unless the innermost one is readonly. */
  lemma UnsetReads(c: Chain, name: string, other: string)
    ensures other != name ==> Get(Unset(c, name), other) == Get(c, other)
    ensures Get(c, name).Found? && READONLY in Get(c, name).v.flags ==> Unset(c, name) == c
    ensures !(Get(c, name).Found? && READONLY in Get(c, name).v.flags) ==> forall k: nat :: k < |c| && Binds(c, name, k) ==> Get(Unset(c, name), name) == Get(c[k + 1..], name)
  {
    var k := Binder(c, name);
    GetAt(c, name, k);
    UnsetAt(c, name, k);
    var j := Binder(c, other);
    GetAt(c, other, j);
    if other != name { GetAt(Unset(c, name), other, j); }
    if k < |c| && !Frozen(c, name) { GetSkips(Unset(c, name), name, k + 1); }
  }

  lemma {:induction false} GetSkips(c: Chain, name: string, k: nat)
    requires k <= |c| && forall j :: 0 <= j < k ==> name !in c[j]
    ensures Get(c, name) == Get(c[k..], name)
    decreases k
  {
    if k > 0 {
      GetSkips(c[1..], name, k - 1);
      assert c[1..][k - 1..] == c[k..];
    } else {
      assert c[0..] == c;
    }
  }

  // ---- readonly ----

  datatype Op =
    | SetOp(name: string, v: Value, flags: set<Flag>)
    | AssignOp(name: string, v: Value)
    | LocalOp(name: string, v: Value)
    | ExportOp(name: string)
    | UnsetOp(name: string)
    | PushOp
    | PopOp

  function Perform(c: Chain, op: Op): (r: Chain)
    requires c != []
    ensures r != []
  {
    match op
    case SetOp(name, v, flags) => Set(c, name, v, flags)
    case AssignOp(name, v) => Assign(c, name, v)
    case LocalOp(name, v) => SetLocal(c, name, v)
    case ExportOp(name) => Export(c, name)
    case UnsetOp(name) => Unset(c, name)
    case PushOp => [map[]] + c
    case PopOp => if |c| > 1 then c[1..] else c
  }

  function PerformAll(c: Chain, ops: seq<Op>): (r: Chain)
    requires c != []
    ensures r != []
    decreases |ops|
  {
    if ops == [] then c else PerformAll(Perform(c, ops[0]), ops[1..])
  }

  /** The scope with `j` scopes outside it; this number does not change while inner scopes come and go. */
  function Outer(c: Chain, j: nat): Scope
    requires j < |c|
  {
    c[|c| - 1 - j]
  }

  predicate Pinned(c: Chain, j: nat, name: string, v: Value) {
    j < |c| && name in Outer(c, j) && Outer(c, j)[name].value == v && READONLY in Outer(c, j)[name].flags
  }

  /** The one operation that overwrites a readonly binding, and the one that discards its scope. */
  predicate Unpins(c: Chain, op: Op, j: nat, name: string) {
    |c| == j + 1 && ((op.LocalOp? && op.name == name) || (op.PopOp? && j > 0))
  }

  lemma PinnedUpdate(c: Chain, k: nat, z: Scope, j: nat, pinned: string, w: Value)
    requires Pinned(c, j, pinned, w) && k < |c|
    requires k == |c| - 1 - j ==> pinned in z && z[pinned].value == w && READONLY in z[pinned].flags
    ensures Pinned(c[k := z], j, pinned, w)
  {
  }

  lemma PinnedAssign(c: Chain, name: string, v: Value, j: nat, pinned: string, w: Value)
    requires c != [] && Pinned(c, j, pinned, w)
    ensures Pinned(Assign(c, name, v), j, pinned, w)
  {
    var k := Binder(c, name);
    AssignAt(c, name, v, k);
    hide Assign, Binds;
    if k < |c| {
      if READONLY !in c[k][name].flags {
        PinnedUpdate(c, k, c[k][name := c[k][name].(value := v)], j, pinned, w);
      }
    } else {
      PinnedUpdate(c, k - 1, c[k - 1][name := Variable(v, {})], j, pinned, w);
    }
  }

  lemma PinnedSet(c: Chain, name: string, v: Value, flags: set<Flag>, j: nat, pinned: string, w: Value)
    requires c != [] && Pinned(c, j, pinned, w)
    ensures Pinned(Set(c, name, v, flags), j, pinned, w)
  {
    hide Get, Frozen;
  }

  lemma PinnedExport(c: Chain, name: string, j: nat, pinned: string, w: Value)
    requires Pinned(c, j, pinned, w)
    ensures Pinned(Export(c, name), j, pinned, w)
  {
    var k := Binder(c, name);
    ExportAt(c, name, k);
    hide Export, Binds;
    if k < |c| {
      PinnedUpdate(c, k, c[k][name := c[k][name].(flags := c[k][name].flags + {EXPORT})], j, pinned, w);
    }
  }

  lemma PinnedUnset(c: Chain, name: string, j: nat, pinned: string, w: Value)
    requires Pinned(c, j, pinned, w)
    ensures Pinned(Unset(c, name), j, pinned, w)
  {
    var k := Binder(c, name);
    UnsetAt(c, name, k);
    hide Unset, Binds;
    if k < |c| && READONLY !in c[k][name].flags { PinnedUpdate(c, k, c[k] - {name}, j, pinned, w); }
  }

  lemma PinnedStep(c: Chain, op: Op, j: nat, name: string, v: Value)
    requires Pinned(c, j, name, v)
    ensures Pinned(Perform(c, op), j, name, v) <==> !Unpins(c, op, j, name) || (op.LocalOp? && op.v == v)
  {
    hide Assign, Export, Unset, Get, Set;
    match op {
      case SetOp(other, w, flags) => PinnedSet(c, other, w, flags, j, name, v);
      case AssignOp(other, w) => PinnedAssign(c, other, w, j, name, v);
      case ExportOp(other) => PinnedExport(c, other, j, name, v);
      case UnsetOp(other) => PinnedUnset(c, other, j, name, v);
      case _ =>
    }
  }

  predicate NeverUnpins(c: Chain, ops: seq<Op>, j: nat, name: string)
    requires c != []
    decreases |ops|
  {
    ops == [] || (!Unpins(c, ops[0], j, name) && NeverUnpins(Perform(c, ops[0]), ops[1..], j, name))
  }

  /** Over every run, a readonly binding keeps its value unless `local` overwrites it in its own scope. */
  lemma {:induction false} ReadonlyKept(c: Chain, ops: seq<Op>, j: nat, name: string, v: Value)
    requires Pinned(c, j, name, v) && NeverUnpins(c, ops, j, name)
    ensures Pinned(PerformAll(c, ops), j, name, v)
    decreases |ops|
  {
    if ops != [] {
      PinnedStep(c, ops[0], j, name, v);
      ReadonlyKept(Perform(c, ops[0]), ops[1..], j, name, v);
    }
  }

  // ---- prefix assignments ----

  datatype Prefix = Prefix(name: string, v: Value)

  /** SET_LOCAL and EXPORT for each assignment in front of a command. */
  function Prefixes(c: Chain, ps: seq<Prefix>): (r: Chain)
    requires c != []
    ensures |r| == |c|
    decreases |ps|
  {
    if ps == [] then c else Prefixes(Export(Set(c, ps[0].name, ps[0].v, {}), ps[0].name), ps[1..])
  }

  /** PUSH_SCOPE, the assignments, POP_SCOPE. */
  function Around(c: Chain, ps: seq<Prefix>): Chain
    requires c != []
  {
    Prefixes([map[]] + c, ps)[1..]
  }

  /** The export flag set on every assigned name that is readonly outside. */
  function ExportFrozen(c: Chain, ps: seq<Prefix>): Chain
    decreases |ps|
  {
    if ps == [] then c
    else ExportFrozen(if Frozen(c, ps[0].name) then Export(c, ps[0].name) else c, ps[1..])
  }

  lemma ExportGet(c: Chain, name: string, other: string)
    ensures Get(Export(c, name), other)
            == if other == name && Get(c, name).Found? then
                 Found(Get(c, name).v.(flags := Get(c, name).v.flags + {EXPORT}))
               else Get(c, other)
  {
    var k := Binder(c, name);
    var j := Binder(c, other);
    GetAt(c, name, k);
    GetAt(c, other, j);
    ExportAt(c, name, k);
    GetAt(Export(c, name), other, j);
  }

  /** No name of the temporary scope is readonly outside it, because SET_LOCAL refuses those. */
  predicate Fresh(top: Scope, c: Chain) {
    forall name :: name in top ==> READONLY !in top[name].flags && !Frozen(c, name)
  }

  lemma {:induction false} PrefixesOuter(top: Scope, c: Chain, ps: seq<Prefix>)
    requires c != [] && Fresh(top, c)
    ensures Prefixes([top] + c, ps)[1..] == ExportFrozen(c, ps)
    decreases |ps|
  {
    if ps == [] {
      assert ([top] + c)[1..] == c;
    } else {
      var name, v := ps[0].name, ps[0].v;
      var d := [top] + c;
      assert d[1..] == c;
      var e := Set(d, name, v, {});
      if Frozen(c, name) {
        assert e == d && name !in top;
        assert Export(d, name) == [top] + Export(c, name);
        forall other ensures Frozen(Export(c, name), other) == Frozen(c, other) { ExportGet(c, name, other); }
        PrefixesOuter(top, Export(c, name), ps[1..]);
      } else {
        var top1 := e[0];
        var top2 := top1[name := top1[name].(flags := top1[name].flags + {EXPORT})];
        assert e == [top1] + c;
        assert Export(e, name) == [top2] + c;
        PrefixesOuter(top2, c, ps[1..]);
      }
    }
  }

  /**
   After the command its prefix assignments are gone. All that can be left of them is the export flag of names
   that are readonly outside: SET_LOCAL is refused for those, and EXPORT then finds the outer variable.
   */
  lemma PrefixesUndone(c: Chain, ps: seq<Prefix>)
    requires c != []
    ensures Around(c, ps) == ExportFrozen(c, ps)
  {
    PrefixesOuter(map[], c, ps);
  }

  /** So every outer binding and flag is restored exactly if the readonly names among them were exported already. */
  lemma PrefixesRestored(c: Chain, ps: seq<Prefix>)
    requires c != []
    ensures Around(c, ps) == c
            <==> forall i :: 0 <= i < |ps| && Frozen(c, ps[i].name) ==> EXPORT in Get(c, ps[i].name).v.flags
  {
    PrefixesUndone(c, ps);
    FrozenExports(c, ps);
  }

  lemma {:induction false} ExportsGrow(c: Chain, ps: seq<Prefix>, name: string)
    requires Get(c, name).Found? && EXPORT in Get(c, name).v.flags
    ensures Get(ExportFrozen(c, ps), name).Found? && EXPORT in Get(ExportFrozen(c, ps), name).v.flags
    decreases |ps|
  {
    if ps != [] {
      ExportGet(c, ps[0].name, name);
      ExportsGrow(if Frozen(c, ps[0].name) then Export(c, ps[0].name) else c, ps[1..], name);
    }
  }

  lemma ExportIdle(c: Chain, name: string)
    requires Get(c, name).Found? && EXPORT in Get(c, name).v.flags
    ensures Export(c, name) == c
  {
    var k := Binder(c, name);
    GetAt(c, name, k);
    ExportAt(c, name, k);
    var v := c[k][name];
    assert v.flags + {EXPORT} == v.flags;
    assert c[k][name := v] == c[k];
    assert c[k := c[k]] == c;
  }

  lemma {:induction false} FrozenExports(c: Chain, ps: seq<Prefix>)
    ensures ExportFrozen(c, ps) == c
            <==> forall i :: 0 <= i < |ps| && Frozen(c, ps[i].name) ==> EXPORT in Get(c, ps[i].name).v.flags
    decreases |ps|
  {
    if ps != [] {
      var name := ps[0].name;
      if Frozen(c, name) && EXPORT !in Get(c, name).v.flags {
        ExportGet(c, name, name);
        ExportsGrow(Export(c, name), ps[1..], name);
      } else {
        if Frozen(c, name) { ExportIdle(c, name); }
        FrozenExports(c, ps[1..]);
        assert forall i :: 0 <= i < |ps[1..]| ==> ps[1..][i] == ps[i + 1];
      }
    }
  }
}
