/** Words, assignments, redirections and tests: their code leaves the stack exactly as the word semantics says. */
module Words {
  import opened Bytes
  import opened Bytecode
  import opened Ast
  import opened Vm
  import opened Emit
  import opened Semantics
  import opened Runs

  // ---- operands that fit their field ----

  predicate SmallPart(p: Part) {
    p.Special? ==> p.code < 0x100
  }

  predicate SmallWord(w: Word) {
    |w| < TWO16 && forall i :: 0 <= i < |w| ==> SmallPart(w[i])
  }

  predicate SmallWords(ws: seq<Word>) {
    |ws| < TWO31 && forall i :: 0 <= i < |ws| ==> SmallWord(ws[i])
  }

  predicate SmallRedir(r: Redir) {
    r.fd < 0x100 && (r.Open? ==> r.kind < 0x100) && (r.Close? || SmallWord(r.target))
  }

  predicate SmallRedirs(rs: seq<Redir>) {
    forall i :: 0 <= i < |rs| ==> SmallRedir(rs[i])
  }

  predicate SmallAssigns(assigns: seq<Assign>) {
    forall i :: 0 <= i < |assigns| ==> SmallWord(assigns[i].rest)
  }

  predicate SmallTest(e: CondExpr) {
    match e
    case Test1(op, arg) => op < 0x100 && SmallWord(arg)
    case Test2(op, left, right) => op < 0x100 && SmallWord(left) && SmallWord(right)
    case CondAnd(l, r) => SmallTest(l) && SmallTest(r)
    case CondOr(l, r) => SmallTest(l) && SmallTest(r)
    case CondNot(e1) => SmallTest(e1)
  }

  ghost predicate Sized(m: Machine, h: Host) {
    |m.code| < TWO31 && |m.pool| < TWO16 && m.h == h
  }

  // ---- words ----

  lemma PushPart(m: Machine, c0: Cfg, c: Cfg, p: Part, locals: set<string>) returns (d: Cfg)
    requires Sized(m, m.h) && Star(m, c0, c) && SmallPart(p)
    requires At(m, c.ip, EmitPart(p, locals))
    ensures d == c.(ip := c.ip + |EmitPart(p, locals)|, stack := c.stack + [Str(PartVal(m.h, p, locals, c.s))])
    ensures Star(m, c0, d)
  {
    d := c.(ip := c.ip + |EmitPart(p, locals)|, stack := c.stack + [Str(PartVal(m.h, p, locals, c.s))]);
    match p {
      case Lit(text, _) => DecodeConst(m, c, PUSH_CONST, text);
      case Var(name, _) => DecodeConst(m, c, if name in locals then GET_LOCAL else GET_VAR, name);
      case Special(code, _) => Decode1(m, c, GET_SPECIAL, code);
    }
    OneStep(m, c0, c, d);
  }

  lemma {:induction false} PushParts(m: Machine, c0: Cfg, c: Cfg, w: Word, locals: set<string>) returns (d: Cfg)
    requires Sized(m, m.h) && Star(m, c0, c) && SmallWord(w)
    requires At(m, c.ip, EmitParts(w, locals))
    ensures d == c.(ip := c.ip + |EmitParts(w, locals)|, stack := c.stack + Strs(PartVals(m.h, w, locals, c.s)))
    ensures Star(m, c0, d)
    decreases |w|
  {
    hide Star, Plus, Meets, Run, Step, At, Holds, PartVal, EmitPart;
    if w == [] {
      d := c;
    } else {
      AtSplit(m, c.ip, EmitPart(w[0], locals), EmitParts(w[1..], locals));
      var e := PushPart(m, c0, c, w[0], locals);
      d := PushParts(m, c0, e, w[1..], locals);
      var vs := PartVals(m.h, w[1..], locals, c.s);
      assert Strs(PartVals(m.h, w, locals, c.s)) == [Str(PartVal(m.h, w[0], locals, c.s))] + Strs(vs);
    }
  }

  lemma ToStringsStrs(ss: seq<string>)
    ensures ToStrings(Strs(ss)) == ss
  {
  }

  /** compile_word nets exactly one value, the concatenation of its units. */
  lemma PushWord(m: Machine, c0: Cfg, c: Cfg, w: Word, locals: set<string>) returns (d: Cfg)
    requires Sized(m, m.h) && Star(m, c0, c) && SmallWord(w)
    requires At(m, c.ip, EmitWord(w, locals))
    ensures d == c.(ip := c.ip + |EmitWord(w, locals)|, stack := c.stack + [Str(WordVal(m.h, w, locals, c.s))])
    ensures Star(m, c0, d)
  {
    AtSplit(m, c.ip, EmitParts(w, locals), EmitWordEnd(w));
    var e := PushParts(m, c0, c, w, locals);
    var vs := PartVals(m.h, w, locals, c.s);
    d := c.(ip := c.ip + |EmitWord(w, locals)|, stack := c.stack + [Str(Join(vs))]);
    if |w| > 1 {
      Decode16(m, e, CONCAT, |w|);
      assert e.stack[|e.stack| - |w|..] == Strs(vs);
      assert e.stack[..|e.stack| - |w|] == c.stack;
      ToStringsStrs(vs);
      OneStep(m, c0, e, d);
    } else if |w| == 0 {
      DecodeConst(m, e, PUSH_CONST, "");
      OneStep(m, c0, e, d);
    } else {
      assert Join(vs) == vs[0] + Join(vs[1..]) == vs[0];
      assert Strs(vs) == [Str(vs[0])];
    }
  }

  function GroupOf(ss: seq<string>): (r: seq<Value>) {
    Strs(ss) + [Int(|ss|)]
  }

  /** The instruction that turns a word's value into a group. */
  lemma PushFields(m: Machine, c0: Cfg, c: Cfg, w: Word, v: string, stack: seq<Value>) returns (d: Cfg)
    requires Sized(m, m.h) && Star(m, c0, c) && c.stack == stack + [Str(v)]
    requires At(m, c.ip, EmitGroupEnd(w))
    ensures d == c.(ip := c.ip + |EmitGroupEnd(w)|, stack := stack + GroupOf(SplitFields(m.h, w, v, c.s)))
    ensures Star(m, c0, d)
  {
    hide Star, Plus, Meets, Run, Step, At, Holds, NeedsSplit, HasGlob;
    assert c.stack[..|c.stack| - 1] == stack;
    var fields := SplitFields(m.h, w, v, c.s);
    if NeedsSplit(w) {
      Decode0(m, c, SPLIT_FIELDS);
    } else if HasGlob(w) {
      Decode0(m, c, GLOB);
    } else {
      Decode32(m, c, PUSH_INT, 1);
      assert GroupOf(fields) == [Str(v), Int(1)];
    }
    assert stack + GroupOf(fields) == stack + Strs(fields) + [Int(|fields|)];
    d := c.(ip := c.ip + |EmitGroupEnd(w)|, stack := stack + GroupOf(fields));
    OneStep(m, c0, c, d);
  }

  lemma PushGroupOf(m: Machine, c0: Cfg, c: Cfg, w: Word, tilde: bool, locals: set<string>) returns (d: Cfg)
    requires Sized(m, m.h) && Star(m, c0, c) && SmallWord(w)
    requires At(m, c.ip, EmitGroup(w, tilde, locals))
    ensures d == c.(ip := c.ip + |EmitGroup(w, tilde, locals)|,
                    stack := c.stack + GroupOf(Fields(m.h, w, tilde, locals, c.s)))
    ensures Star(m, c0, d)
  {
    hide Star, Plus, Meets, Run, Step, At, Holds, WordVal, EmitWord, IsQuotedAt, StartsWithTilde, SplitFields, EmitGroupEnd;
    if IsQuotedAt(w) {
      var fields := m.h.args(c.s.w);
      Decode0(m, c, EXPAND_ARGS);
      assert c.stack + GroupOf(fields) == c.stack + Strs(fields) + [Int(|fields|)];
      d := c.(ip := c.ip + 1, stack := c.stack + GroupOf(fields));
      OneStep(m, c0, c, d);
    } else {
      var t := if tilde && StartsWithTilde(w) then Op(EXPAND_TILDE) else [];
      AtSplit(m, c.ip, EmitWord(w, locals), t + EmitGroupEnd(w));
      AtSplit(m, c.ip + |EmitWord(w, locals)|, t, EmitGroupEnd(w));
      var v := WordVal(m.h, w, locals, c.s);
      var e := PushWord(m, c0, c, w, locals);
      if t != [] {
        Decode0(m, e, EXPAND_TILDE);
        v := m.h.tilde(v, c.s.w);
        assert e.stack[..|e.stack| - 1] == c.stack;
        var e' := e.(ip := e.ip + 1, stack := c.stack + [Str(v)]);
        OneStep(m, c0, e, e');
        e := e';
      }
      d := PushFields(m, c0, e, w, v, c.stack);
    }
  }

  function GroupsOf(h: Host, ws: seq<Word>, tilde: bool, locals: set<string>, s: State): seq<Value> {
    if ws == [] then [] else GroupOf(Fields(h, ws[0], tilde, locals, s)) + GroupsOf(h, ws[1..], tilde, locals, s)
  }

  lemma {:induction false} PushGroups(m: Machine, c0: Cfg, c: Cfg, ws: seq<Word>, tilde: bool, locals: set<string>)
    returns (d: Cfg)
    requires Sized(m, m.h) && Star(m, c0, c) && SmallWords(ws)
    requires At(m, c.ip, EmitGroups(ws, tilde, locals))
    ensures d == c.(ip := c.ip + |EmitGroups(ws, tilde, locals)|,
                    stack := c.stack + GroupsOf(m.h, ws, tilde, locals, c.s))
    ensures Star(m, c0, d)
    decreases |ws|
  {
    hide Star, Plus, Meets, Run, Step, At, Holds, Fields, EmitGroup, GroupOf;
    if ws == [] {
      d := c;
    } else {
      AtSplit(m, c.ip, EmitGroup(ws[0], tilde, locals), EmitGroups(ws[1..], tilde, locals));
      var e := PushGroupOf(m, c0, c, ws[0], tilde, locals);
      d := PushGroups(m, c0, e, ws[1..], tilde, locals);
      assert c.stack + GroupsOf(m.h, ws, tilde, locals, c.s) == e.stack + GroupsOf(m.h, ws[1..], tilde, locals, c.s);
    }
  }

  lemma PopGroupOf(stack: seq<Value>, ss: seq<string>)
    ensures PopGroup(stack + GroupOf(ss)) == Popped(stack, ss)
  {
    hide Strs, ToStrings;
    var all := stack + GroupOf(ss);
    assert all[|all| - 1] == Int(|ss|);
    var rest := all[..|all| - 1];
    assert rest == stack + Strs(ss);
    assert rest[|rest| - |ss|..] == Strs(ss);
    assert rest[..|rest| - |ss|] == stack;
    ToStringsStrs(ss);
  }

  /** COLLECT_WORDS pops what the word groups pushed, in order, whatever lies below. */
  lemma {:induction false} PopGroupsOf(stack: seq<Value>, k: nat, h: Host, ws: seq<Word>, tilde: bool,
                                       locals: set<string>, s: State)
    requires PopGroups(stack, k).Popped?
    ensures PopGroups(stack + GroupsOf(h, ws, tilde, locals, s), k + |ws|)
            == Popped(PopGroups(stack, k).stack, PopGroups(stack, k).args + Argv(h, ws, tilde, locals, s))
    decreases |ws|
  {
    hide Fields, GroupOf, PopGroup;
    var all := stack + GroupsOf(h, ws, tilde, locals, s);
    if ws == [] {
      assert all == stack;
    } else {
      var fields := Fields(h, ws[0], tilde, locals, s);
      PopGroupOf(stack, fields);
      PopGroupsOf(stack + GroupOf(fields), k + 1, h, ws[1..], tilde, locals, s);
      assert all == stack + GroupOf(fields) + GroupsOf(h, ws[1..], tilde, locals, s);
    }
  }

  lemma CollectArgs(m: Machine, c0: Cfg, c: Cfg, stack: seq<Value>, ws: seq<Word>, tilde: bool, locals: set<string>)
    returns (d: Cfg)
    requires Star(m, c0, c) && At(m, c.ip, Op(COLLECT_WORDS))
    requires c.stack == stack + GroupsOf(m.h, ws, tilde, locals, c.s) + [Int(|ws|)]
    ensures d == c.(ip := c.ip + 1, stack := stack + GroupOf(Argv(m.h, ws, tilde, locals, c.s)))
    ensures Star(m, c0, d)
  {
    hide Star, Plus, Meets, Run, Step, At, Holds, GroupsOf, Argv;
    var argv := Argv(m.h, ws, tilde, locals, c.s);
    Decode0(m, c, COLLECT_WORDS);
    assert c.stack[..|c.stack| - 1] == stack + GroupsOf(m.h, ws, tilde, locals, c.s);
    PopGroupsOf(stack, 0, m.h, ws, tilde, locals, c.s);
    d := c.(ip := c.ip + 1, stack := stack + GroupOf(argv));
    assert stack + GroupOf(argv) == stack + Strs(argv) + [Int(|argv|)];
    OneStep(m, c0, c, d);
  }

  lemma PushArgs(m: Machine, c0: Cfg, c: Cfg, ws: seq<Word>, tilde: bool, locals: set<string>) returns (d: Cfg)
    requires Sized(m, m.h) && Star(m, c0, c) && SmallWords(ws)
    requires At(m, c.ip, EmitArgs(ws, tilde, locals))
    ensures d == c.(ip := c.ip + |EmitArgs(ws, tilde, locals)|,
                    stack := c.stack + GroupOf(Argv(m.h, ws, tilde, locals, c.s)))
    ensures Star(m, c0, d)
  {
    hide Star, Plus, Meets, Run, Step, At, Holds, EmitGroups, GroupsOf, GroupOf, Argv;
    AtSplit(m, c.ip, EmitGroups(ws, tilde, locals), Op32(PUSH_INT, |ws|) + Op(COLLECT_WORDS));
    AtSplit(m, c.ip + |EmitGroups(ws, tilde, locals)|, Op32(PUSH_INT, |ws|), Op(COLLECT_WORDS));
    var e := PushGroups(m, c0, c, ws, tilde, locals);
    Decode32(m, e, PUSH_INT, |ws|);
    var f := e.(ip := e.ip + 5, stack := e.stack + [Int(|ws|)]);
    OneStep(m, c0, e, f);
    d := CollectArgs(m, c0, f, c.stack, ws, tilde, locals);
  }

  lemma EmptyWord(h: Host, locals: set<string>, s: State)
    ensures WordVal(h, [], locals, s) == ""
  {
  }

  // ---- assignments ----

  lemma JoinPair(x: string, y: string)
    ensures Join([x, y]) == x + y
  {
    assert [x, y][1..] == [y] && [y][1..] == [];
    assert Join([y]) == y + Join([]) == y;
  }

  lemma PushPrefixed(m: Machine, c0: Cfg, c: Cfg, a: Assign, locals: set<string>) returns (d: Cfg)
    requires Sized(m, m.h) && Star(m, c0, c) && SmallWord(a.rest) && a.rest != [] && a.prefix != ""
    requires At(m, c.ip, EmitRaw(a, locals))
    ensures d == c.(ip := c.ip + |EmitRaw(a, locals)|, stack := c.stack + [Str(RawVal(m.h, a, locals, c.s))])
    ensures Star(m, c0, d)
  {
    hide Star, Plus, Meets, Run, Step, At, Holds, WordVal, EmitWord;
    var word, v := EmitWord(a.rest, locals), WordVal(m.h, a.rest, locals, c.s);
    AtSplit(m, c.ip, OpConst(PUSH_CONST, a.prefix), word + Op16(CONCAT, 2));
    AtSplit(m, c.ip + 3, word, Op16(CONCAT, 2));
    DecodeConst(m, c, PUSH_CONST, a.prefix);
    var e := c.(ip := c.ip + 3, stack := c.stack + [Str(a.prefix)]);
    OneStep(m, c0, c, e);
    var f := PushWord(m, c0, e, a.rest, locals);
    Decode16(m, f, CONCAT, 2);
    var pair := [a.prefix, v];
    assert f.stack[|f.stack| - 2..] == Strs(pair);
    assert f.stack[..|f.stack| - 2] == c.stack;
    ToStringsStrs(pair);
    JoinPair(a.prefix, v);
    d := c.(ip := f.ip + 3, stack := c.stack + [Str(a.prefix + v)]);
    OneStep(m, c0, f, d);
  }

  lemma PushRaw(m: Machine, c0: Cfg, c: Cfg, a: Assign, locals: set<string>) returns (d: Cfg)
    requires Sized(m, m.h) && Star(m, c0, c) && SmallWord(a.rest)
    requires At(m, c.ip, EmitRaw(a, locals))
    ensures d == c.(ip := c.ip + |EmitRaw(a, locals)|, stack := c.stack + [Str(RawVal(m.h, a, locals, c.s))])
    ensures Star(m, c0, d)
  {
    hide Star, Plus, Meets, Run, Step, At, Holds, WordVal, EmitWord;
    if a.rest == [] {
      DecodeConst(m, c, PUSH_CONST, a.prefix);
      EmptyWord(m.h, locals, c.s);
      assert a.prefix + "" == a.prefix;
      d := c.(ip := c.ip + 3, stack := c.stack + [Str(a.prefix)]);
      OneStep(m, c0, c, d);
    } else if a.prefix != "" {
      d := PushPrefixed(m, c0, c, a, locals);
    } else {
      d := PushWord(m, c0, c, a.rest, locals);
      assert a.prefix + WordVal(m.h, a.rest, locals, c.s) == WordVal(m.h, a.rest, locals, c.s);
    }
  }

  lemma PushValue(m: Machine, c0: Cfg, c: Cfg, a: Assign, locals: set<string>) returns (d: Cfg)
    requires Sized(m, m.h) && Star(m, c0, c) && SmallWord(a.rest)
    requires At(m, c.ip, EmitValue(a, locals))
    ensures d == c.(ip := c.ip + |EmitValue(a, locals)|, stack := c.stack + [Str(AssignVal(m.h, a, locals, c.s))])
    ensures Star(m, c0, d)
  {
    hide Star, Plus, Meets, Run, Step, At, Holds, RawVal, EmitRaw, TildeValue;
    AtSplit(m, c.ip, EmitRaw(a, locals), if TildeValue(a) then Op(EXPAND_TILDE) else []);
    d := PushRaw(m, c0, c, a, locals);
    if TildeValue(a) {
      Decode0(m, d, EXPAND_TILDE);
      assert d.stack[..|d.stack| - 1] == c.stack;
      var e := d.(ip := d.ip + 1, stack := c.stack + [Str(AssignVal(m.h, a, locals, c.s))]);
      OneStep(m, c0, d, e);
      d := e;
    }
  }

  /** The instructions that store a value just pushed, temporarily or for good. */
  lemma RunStore(m: Machine, c0: Cfg, c: Cfg, a: Assign, v: string, stack: seq<Value>, temp: bool, locals: set<string>)
    returns (d: Cfg)
    requires Sized(m, m.h) && Star(m, c0, c) && c.stack == stack + [Str(v)]
    requires At(m, c.ip, EmitStore(a, temp, locals))
    ensures d == c.(ip := c.ip + |EmitStore(a, temp, locals)|, stack := stack,
                    s := c.s.(w := StoreValue(m.h, a, v, temp, locals, c.s.w)))
    ensures Star(m, c0, d)
  {
    hide Star, Plus, Meets, Run, Step, At, Holds;
    assert c.stack[..|c.stack| - 1] == stack;
    var op := if temp || a.name in locals then SET_LOCAL else SET_VAR;
    if temp { AtSplit(m, c.ip, OpConst(SET_LOCAL, a.name), OpConst(EXPORT, a.name)); }
    DecodeConst(m, c, op, a.name);
    var w := if op == SET_VAR then m.h.setVar(a.name, v, c.s.w) else m.h.setLocal(a.name, v, c.s.w);
    d := c.(ip := c.ip + 3, stack := stack, s := c.s.(w := w));
    OneStep(m, c0, c, d);
    if temp {
      DecodeConst(m, d, EXPORT, a.name);
      var e := d.(ip := d.ip + 3, s := d.s.(w := m.h.export_(a.name, w)));
      OneStep(m, c0, d, e);
      d := e;
    }
  }

  lemma {:induction false} RunAssigns(m: Machine, c0: Cfg, c: Cfg, assigns: seq<Assign>, temp: bool, locals: set<string>)
    returns (d: Cfg)
    requires Sized(m, m.h) && Star(m, c0, c) && SmallAssigns(assigns)
    requires At(m, c.ip, EmitAssigns(assigns, temp, locals))
    ensures d == c.(ip := c.ip + |EmitAssigns(assigns, temp, locals)|, s := StoreAll(m.h, assigns, temp, locals, c.s))
    ensures Star(m, c0, d)
    decreases |assigns|
  {
    hide Star, Plus, Meets, Run, Step, At, Holds, EmitValue, AssignVal, EmitStore, StoreValue;
    if assigns == [] {
      d := c;
    } else {
      var a := assigns[0];
      var store := EmitStore(a, temp, locals);
      var tail := EmitAssigns(assigns[1..], temp, locals);
      AtSplit(m, c.ip, EmitValue(a, locals), store + tail);
      AtSplit(m, c.ip + |EmitValue(a, locals)|, store, tail);
      var e := PushValue(m, c0, c, a, locals);
      var f := RunStore(m, c0, e, a, AssignVal(m.h, a, locals, c.s), c.stack, temp, locals);
      d := RunAssigns(m, c0, f, assigns[1..], temp, locals);
    }
  }

  // ---- redirections ----

  lemma RunRedirect(m: Machine, c0: Cfg, c: Cfg, op: byte, fd: nat, arg: nat, target: Word, locals: set<string>)
    returns (d: Cfg)
    requires Sized(m, m.h) && Star(m, c0, c) && SmallWord(target) && fd < 0x100 && arg < 0x100
    requires op in {REDIR_OPEN, REDIR_DUP, REDIR_HERE}
    requires At(m, c.ip, EmitWord(target, locals) + Op2(op, fd, arg))
    ensures d == c.(ip := c.ip + |EmitWord(target, locals)| + 3,
                    s := Redirect(m.h, op as nat, fd, arg, target, locals, c.s))
    ensures Star(m, c0, d)
  {
    hide Star, Plus, Meets, Run, Step, At, Holds, WordVal, EmitWord;
    AtSplit(m, c.ip, EmitWord(target, locals), Op2(op, fd, arg));
    var e := PushWord(m, c0, c, target, locals);
    assert e.stack[..|e.stack| - 1] == c.stack;
    Decode2(m, e, op, fd, arg);
    d := c.(ip := c.ip + |EmitWord(target, locals)| + 3,
    s := Redirect(m.h, op as nat, fd, arg, target, locals, c.s));
    OneStep(m, c0, e, d);
  }

  lemma RunRedir(m: Machine, c0: Cfg, c: Cfg, r: Redir, locals: set<string>) returns (d: Cfg)
    requires Sized(m, m.h) && Star(m, c0, c) && SmallRedir(r)
    requires At(m, c.ip, EmitRedir(r, locals))
    ensures d == c.(ip := c.ip + |EmitRedir(r, locals)|, s := ApplyRedir(m.h, r, locals, c.s))
    ensures Star(m, c0, d)
  {
    hide Star, Plus, Meets, Run, Step, At, Holds, WordVal, EmitWord, Redirect;
    match r
    case Open(fd, kind, target) => d := RunRedirect(m, c0, c, REDIR_OPEN, fd, kind, target, locals);
    case Dup(fd, target) => d := RunRedirect(m, c0, c, REDIR_DUP, fd, 0, target, locals);
    case Here(fd, expand, target) =>
      d := RunRedirect(m, c0, c, REDIR_HERE, fd, if expand then 1 else 0, target, locals);
    case Close(fd) =>
      d := c.(ip := c.ip + 2, s := ApplyRedir(m.h, r, locals, c.s));
      Decode1(m, c, REDIR_CLOSE, fd);
      OneStep(m, c0, c, d);
  }

  lemma {:induction false} RunRedirs(m: Machine, c0: Cfg, c: Cfg, rs: seq<Redir>, locals: set<string>) returns (d: Cfg)
    requires Sized(m, m.h) && Star(m, c0, c) && SmallRedirs(rs)
    requires At(m, c.ip, EmitRedirs(rs, locals))
    ensures d == c.(ip := c.ip + |EmitRedirs(rs, locals)|, s := ApplyRedirs(m.h, rs, locals, c.s))
    ensures Star(m, c0, d)
    decreases |rs|
  {
    hide Star, Plus, Meets, Run, Step, At, Holds, ApplyRedir, EmitRedir;
    if rs == [] {
      d := c;
    } else {
      AtSplit(m, c.ip, EmitRedir(rs[0], locals), EmitRedirs(rs[1..], locals));
      var e := RunRedir(m, c0, c, rs[0], locals);
      d := RunRedirs(m, c0, e, rs[1..], locals);
    }
  }

  /** Either the redirections are in force, or there was no room for another frame and the machine stopped. */
  lemma RunRedirsOpen(m: Machine, c0: Cfg, c: Cfg, rs: seq<Redir>, locals: set<string>) returns (d: Cfg)
    requires Sized(m, m.h) && Star(m, c0, c) && SmallRedirs(rs)
    requires At(m, c.ip, EmitRedirsOpen(rs, locals))
    ensures match OpenRedirs(m.h, rs, locals, c.s)
            case Ok(s) => d == c.(ip := c.ip + |EmitRedirsOpen(rs, locals)|, s := s) && Star(m, c0, d)
            case Exit(s) => Meets(m, c0, 0, StopAt(s))
            case _ => false
  {
    hide Star, Plus, Meets, Run, Step, At, Holds, ApplyRedirs, EmitRedirs;
    AtSplit(m, c.ip, Op(REDIR_SAVE), EmitRedirs(rs, locals));
    Decode0(m, c, REDIR_SAVE);
    if c.s.redirs >= REDIR_MAX {
      LastStep(m, c0, c, c.s.(status := 1));
      d := c;
    } else {
      var e := c.(ip := c.ip + 1, s := c.s.(redirs := c.s.redirs + 1, w := m.h.redirSave(c.s.w)));
      OneStep(m, c0, c, e);
      d := RunRedirs(m, c0, e, rs, locals);
    }
  }

  lemma RunRestore(m: Machine, c0: Cfg, c: Cfg) returns (d: Cfg)
    requires Star(m, c0, c) && At(m, c.ip, Op(REDIR_RESTORE))
    ensures d == c.(ip := c.ip + 1, s := Restore(m.h, c.s)) && Star(m, c0, d)
  {
    Decode0(m, c, REDIR_RESTORE);
    d := c.(ip := c.ip + 1, s := Restore(m.h, c.s));
    OneStep(m, c0, c, d);
  }

  // ---- conditional expressions ----

  lemma {:induction false} RunTest(m: Machine, c0: Cfg, c: Cfg, e: CondExpr, locals: set<string>) returns (d: Cfg)
    requires Sized(m, m.h) && Star(m, c0, c) && SmallTest(e)
    requires At(m, c.ip, EmitCond(e, c.ip, locals))
    ensures d == c.(ip := c.ip + ShapeCond(e, locals), s := EvalTest(m.h, e, locals, c.s))
    ensures Star(m, c0, d)
    decreases e
  {
    hide Star, Plus, Meets, Run, Step, At, Holds, WordVal, EmitWord;
    match e
    case Test1(op, arg) =>
      AtSplit(m, c.ip, EmitWord(arg, locals), Op1(TEST_UNARY, op));
      var f := PushWord(m, c0, c, arg, locals);
      assert f.stack[..|f.stack| - 1] == c.stack;
      Decode1(m, f, TEST_UNARY, op);
      d := c.(ip := f.ip + 2, s := EvalTest(m.h, e, locals, c.s));
      OneStep(m, c0, f, d);
    case Test2(op, left, right) =>
      AtSplit(m, c.ip, EmitWord(left, locals), EmitWord(right, locals) + Op1(TEST_BINARY, op));
      AtSplit(m, c.ip + |EmitWord(left, locals)|, EmitWord(right, locals), Op1(TEST_BINARY, op));
      var f := PushWord(m, c0, c, left, locals);
      var f1 := PushWord(m, c0, f, right, locals);
      assert f1.stack[..|f1.stack| - 2] == c.stack;
      Decode1(m, f1, TEST_BINARY, op);
      d := c.(ip := f1.ip + 2, s := EvalTest(m.h, e, locals, c.s));
      OneStep(m, c0, f1, d);
    case CondNot(e1) =>
      AtSplit(m, c.ip, EmitCond(e1, c.ip, locals), Op(NEGATE_STATUS));
      var f := RunTest(m, c0, c, e1, locals);
      d := DoStatus(m, c0, f, NEGATE_STATUS);
    case CondAnd(l, r) =>
      d := RunShortCircuit(m, c0, c, JMP_FALSE, e, locals);
    case CondOr(l, r) =>
      d := RunShortCircuit(m, c0, c, JMP_TRUE, e, locals);
  }

  lemma {:induction false} RunShortCircuit(m: Machine, c0: Cfg, c: Cfg, op: byte, e: CondExpr, locals: set<string>)
    returns (d: Cfg)
    requires Sized(m, m.h) && Star(m, c0, c) && SmallTest(e)
    requires (e.CondAnd? && op == JMP_FALSE) || (e.CondOr? && op == JMP_TRUE)
    requires At(m, c.ip, EmitShortCircuit(op, e, c.ip, locals))
    ensures d == c.(ip := c.ip + ShapeCond(e, locals), s := EvalTest(m.h, e, locals, c.s))
    ensures Star(m, c0, d)
    decreases e, -1
  {
    hide Star, Plus, Meets, Run, Step, At, Holds, ShapeCond, EmitCond, EmitWord, WordVal, Le32, Negate;
    var mid := c.ip + ShapeCond(e.l, locals);
    var jump := JumpTo(op, mid, mid + JUMP_SIZE + ShapeCond(e.r, locals));
    var right := EmitCond(e.r, mid + JUMP_SIZE, locals);
    AtSplit(m, c.ip, EmitCond(e.l, c.ip, locals), jump + right);
    AtSplit(m, mid, jump, right);
    var f := RunTest(m, c0, c, e.l, locals);
    d := DoJump(m, c0, f, op, mid + JUMP_SIZE + ShapeCond(e.r, locals));
    if !Taken(op, f.s) {
      d := RunTest(m, c0, d, e.r, locals);
    }
  }
}
