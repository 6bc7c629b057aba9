/**
 The single-pass compiler of src/compiler/compiler.c: it appends to one growing buffer, leaves four-byte
 holes where a jump's target is not known yet, and patches them later.

 Beside the buffer runs a ghost copy, `sym`, that already has every jump resolved. Because the size of each
 construct can be computed in advance (Emit.Shape...), the true operand of a hole is known when the hole is
 made; the invariant is that the buffer agrees with `sym` everywhere outside the holes still open.
 */
module Compiler {
  import opened Bytes
  import opened Bytecode
  import opened Ast
  import opened Vm
  import opened Emit
  import opened Runs
  import opened CodeBuffer
  import opened Accepts

  class Compiler {
    var code: seq<byte>
    var pool: seq<string>
    var loops: seq<LoopInfo>
    var funcs: seq<Func>
    var locals: set<string>
    const builtins: seq<string>

    ghost var sym: seq<Cell>
    ghost var open: set<nat>        // operand positions of jumps that wait for a patch outside the loop stack
    ghost var targets: seq<nat>     // where the breaks of each open loop will go
    ghost var defs: seq<Def>

    ghost predicate Valid()
      reads this
    {
      && |sym| == |code| && |targets| == |loops|
      && Agrees(pool, code, sym, open, loops) && BreaksOk(sym, loops, targets)
      && |pool| <= POOL_MAX && Distinct(pool) && |loops| <= LOOP_MAX && |funcs| <= FUNC_MAX
      && (forall p :: p in open ==> p + 4 <= |code|)
      && |defs| == |funcs|
      && (forall i :: 0 <= i < |funcs| ==> funcs[i] == Func(defs[i].name, defs[i].base))
    }

    ghost function Snap(): Snapshot
      reads this
    {
      Snapshot(sym, defs, open, loops, targets, locals)
    }

    ghost function X(): Static
      reads this
    {
      StaticOf(builtins, Snap())
    }

    ghost function L(): (r: seq<Loop>)
      requires |targets| == |loops|
      reads this
      ensures |r| == |X().flags|
    {
      LoopsOf(Snap())
    }

    constructor (builtins: seq<string>)
      ensures Valid() && Snap() == Snapshot([], [], {}, [], [], {})
      ensures this.builtins == builtins && pool == []
    {
      this.builtins := builtins;
      code, pool, loops, funcs, locals := [], [], [], [], {};
      sym, open, targets, defs := [], {}, [], [];
    }

    /** image_emit_u8 and its wider forms: append bytes that already are what the layout asks for. */
    method Append(bytes: seq<byte>, ghost cells: seq<Cell>)
      requires Valid() && |bytes| == |cells|
      requires forall i :: 0 <= i < |bytes| ==> Holds(pool, bytes[i], cells[i])
      modifies this`code, this`sym
      ensures Valid() && code == old(code) + bytes
      ensures Extends(old(Snap()), Snap(), Plain(cells))
      ensures |code| == old(|code|) + |cells|
    {
      AgreesAppend(pool, code, sym, open, loops, bytes, cells);
      BreaksLater(sym, cells, loops, targets);
      code := code + bytes;
      sym := sym + cells;
    }

    method Instr(bytes: seq<byte>)
      requires Valid()
      modifies this`code, this`sym
      ensures Valid() && Extends(old(Snap()), Snap(), Plain(Bs(bytes)))
      ensures |code| == old(|code|) + |bytes|
    {
      Append(bytes, Bs(bytes));
    }

    /** image_add_const: the index of an equal constant, or a new one. The pool holds 65535 constants. */
    method AddConst(s: string) returns (index: nat, ok: bool)
      requires Valid()
      modifies this`pool
      ensures Valid() && old(pool) <= pool && Snap() == old(Snap())
      ensures ok ==> s in pool && index == IndexOf(pool, s) && pool == (if s in old(pool) then old(pool) else old(pool) + [s])
      ensures ok <==> s in old(pool) || |old(pool)| < 65535
      ensures !ok ==> |pool| == POOL_MAX && s !in old(pool) && pool == old(pool)
    {
      index, ok := 0, true;
      while index < |pool|
        invariant index <= |pool| && s !in pool[..index]
      {
        if pool[index] == s {
          FirstIndex(pool, s, index);
          return;
        }
        index := index + 1;
      }
      assert pool[..|pool|] == pool;
      if |pool| >= POOL_MAX {
        ok := false;
        return;
      }
      AgreesConst(pool, s, code, sym, open, loops);
      DistinctMore(pool, s);
      ghost var pool0 := pool;
      pool := pool + [s];
      assert pool[..index] == pool0;
      FirstIndex(pool, s, index);
    }

    /** An instruction whose operand is a constant. */
    method ConstInstr(op: byte, s: string) returns (ok: bool)
      requires Valid()
      modifies this`code, this`pool, this`sym
      ensures Valid() && (!ok ==> |pool| == POOL_MAX)
      ensures ok ==> Extends(old(Snap()), Snap(), Plain(OpConst(op, s)))
    {
      var index: nat;
      index, ok := AddConst(s);
      if ok {
        Append([op, index % 0x100, index / 0x100 % 0x100], OpConst(op, s));
      }
    }

    /** emit_jump: the operand is a hole; `target` is where it is going to be patched to. */
    method EmitJump(op: byte, ghost target: nat) returns (p: nat)
      requires Valid()
      modifies this`code, this`sym, this`open
      ensures Valid() && p == old(|code|) + 1 && open == old(open) + {p} && p !in old(open) && Expects(sym, p, target)
      ensures |code| == old(|code|) + JUMP_SIZE
      ensures Extends(old(Snap()), Snap().(open := old(open)), Plain(JumpTo(op, old(|code|), target)))
    {
      p := |code| + 1;
      ghost var cells := JumpTo(op, |code|, target);
      AgreesHole(pool, code, sym, open, loops, open + {p}, loops, op, cells);
      BreaksLater(sym, cells, loops, targets);
      code := code + [op, 0, 0, 0, 0];
      sym := sym + cells;
      open := open + {p};
      assert sym[p..p + 4] == Bs(Le32(target - (p + 4)));
    }

    /** patch_jump_to */
    method PatchTo(p: nat, target: nat)
      requires Valid() && Expects(sym, p, target)
      modifies this`code, this`open
      ensures Valid() && |code| == old(|code|)
      ensures Snap() == old(Snap()).(open := old(open) - {p})
    {
      AgreesPatch(pool, code, sym, open, loops, open - {p}, loops, p, target);
      code := code[..p] + Le32(target - (p + 4)) + code[p + 4..];
      open := open - {p};
    }

    /** patch_jump */
    method PatchHere(p: nat)
      requires Valid() && Expects(sym, p, |code|)
      modifies this`code, this`open
      ensures Valid() && |code| == old(|code|)
      ensures Snap() == old(Snap()).(open := old(open) - {p})
    {
      PatchTo(p, |code|);
    }

    /** Patch a list of jumps to the current position. */
    method PatchAll(ps: seq<nat>)
      requires Valid() && forall p :: p in ps ==> Expects(sym, p, |code|)
      modifies this`code, this`open
      ensures Valid() && |code| == old(|code|)
      ensures Snap() == old(Snap()).(open := old(open) - SetOf(ps))
    {
      for i := 0 to |ps|
        invariant Valid() && |code| == old(|code|)
        invariant Snap() == old(Snap()).(open := old(open) - SetOf(ps[..i]))
      {
        PatchHere(ps[i]);
        assert SetOf(ps[..i + 1]) == SetOf(ps[..i]) + {ps[i]};
      }
      assert ps[..|ps|] == ps;
    }

    /** A jump to the end of open loop `k`, to be patched when that loop is closed. */
    method EmitBreak(k: nat)
      requires Valid() && k < |loops|
      modifies this`code, this`sym, this`loops
      ensures Valid() && Extends(old(Snap()), Snap(), Plain(JumpTo(JMP, old(|code|), targets[k])))
    {
      hide Distinct;
      ghost var cells := JumpTo(JMP, |code|, targets[k]);
      var p := |code| + 1;
      var li := loops[k].(patches := loops[k].patches + [p]);
      ghost var loops0 := loops;
      loops := loops[k := li];
      MorePending(open, loops0, k, p);
      AgreesHole(pool, code, sym, open, loops0, open, loops, JMP, cells);
      BreaksLater(sym, cells, loops0, targets);
      code := code + [JMP, 0, 0, 0, 0];
      sym := sym + cells;
      assert sym[p..p + 4] == Bs(Le32(targets[k] - (p + 4)));
    }

    /** push_loop; `target` is where the loop's breaks are going to land. */
    method PushLoop(cont: nat, hasIterator: bool, ghost target: nat) returns (ok: bool)
      requires Valid()
      modifies this`loops, this`targets
      ensures ok == (old(|loops|) < 64) && (!ok ==> unchanged(this))
      ensures ok ==> Valid() && Snap() == old(Snap()).(loops := old(loops) + [LoopInfo(cont, hasIterator, [])],
                                                       targets := old(targets) + [target])
    {
      ok := |loops| < LOOP_MAX;
      if ok {
        ghost var loops0 := loops;
        loops := loops + [LoopInfo(cont, hasIterator, [])];
        targets := targets + [target];
        AddPending(open, loops0, loops[|loops| - 1]);
        AgreesMore(pool, code, sym, open, loops0, open, loops);
      }
    }

    /** pop_loop: patch every break of the innermost loop to the current position. */
    method PopLoop()
      requires Valid() && |loops| > 0 && targets[|loops| - 1] == |code|
      modifies this`code, this`loops, this`targets
      ensures Valid() && |code| == old(|code|)
      ensures Snap() == old(Snap()).(loops := old(loops)[..old(|loops|) - 1], targets := old(targets)[..old(|loops|) - 1])
    {
      hide Distinct, Agrees, BreaksOk, Expects, Le32, Pending;
      var li := loops[|loops| - 1];
      BreaksInner(sym, loops, targets);
      loops := loops[..|loops| - 1];
      targets := targets[..|targets| - 1];
      assert old(loops) == loops + [li.(patches := li.patches[0..])];
      for i := 0 to |li.patches|
        invariant |code| == old(|code|)
        invariant loops == old(loops)[..old(|loops|) - 1] && targets == old(targets)[..old(|loops|) - 1]
        invariant Agrees(pool, code, sym, open, loops + [li.(patches := li.patches[i..])])
      {
        var p := li.patches[i];
        assert p in li.patches;
        PatchDrop(pool, code, sym, open, loops, li, i, |code|);
        code := code[..p] + Le32(|code| - (p + 4)) + code[p + 4..];
      }
      PatchEnd(pool, code, sym, open, loops, li);
    }

    // ---- instructions with plain operands ----

    method I0(op: byte)
      requires Valid()
      modifies this`code, this`sym
      ensures Valid() && Extends(old(Snap()), Snap(), Plain(Op(op)))
    {
      Append([op], Op(op));
    }

    method I1(op: byte, x: nat)
      requires Valid()
      modifies this`code, this`sym
      ensures Valid() && Extends(old(Snap()), Snap(), Plain(Op1(op, x)))
    {
      Append([op, x % 0x100], Op1(op, x));
    }

    method I2(op: byte, x: nat, y: nat)
      requires Valid()
      modifies this`code, this`sym
      ensures Valid() && Extends(old(Snap()), Snap(), Plain(Op2(op, x, y)))
    {
      Append([op, x % 0x100, y % 0x100], Op2(op, x, y));
    }

    method I16(op: byte, x: nat)
      requires Valid()
      modifies this`code, this`sym
      ensures Valid() && Extends(old(Snap()), Snap(), Plain(Op16(op, x)))
    {
      Append([op] + Le16(x), Op16(op, x));
    }

    method I32(op: byte, x: int)
      requires Valid()
      modifies this`code, this`sym
      ensures Valid() && Extends(old(Snap()), Snap(), Plain(Op32(op, x)))
    {
      Append([op] + Le32(x), Op32(op, x));
    }

    // ---- words ----

    method CompilePart(p: Part) returns (ok: bool)
      requires Valid()
      modifies this`code, this`pool, this`sym
      ensures Valid() && (!ok ==> |pool| == POOL_MAX)
      ensures ok ==> Extends(old(Snap()), Snap(), Plain(EmitPart(p, locals)))
    {
      ok := true;
      match p {
        case Lit(text, _) => ok := ConstInstr(PUSH_CONST, text);
        case Var(name, _) => ok := ConstInstr(if name in locals then GET_LOCAL else GET_VAR, name);
        case Special(code, _) => I1(GET_SPECIAL, code);
      }
    }

    /** compile_word */
    method CompileWord(w: Word) returns (ok: bool)
      requires Valid()
      modifies this`code, this`pool, this`sym
      ensures Valid() && (!ok ==> |pool| == POOL_MAX)
      ensures ok ==> Extends(old(Snap()), Snap(), Plain(EmitWord(w, locals)))
    {
      hide Valid, EmitPart, EmitWordEnd, Extends, Stage;
      ok := true;
      ghost var s0, total := Snap(), Plain(EmitWord(w, locals));
      ghost var end := Plain(EmitWordEnd(w));
      assert w[0..] == w;
      Begin(s0, total);
      for i := 0 to |w|
        invariant Valid() && ok && open == s0.open && locals == s0.locals
        invariant Stage(s0, Snap(), Before(EmitParts(w[i..], locals), end), total)
      {
        ghost var s := Snap();
        ok := CompilePart(w[i]);
        if !ok { return; }
        assert w[i..][1..] == w[i + 1..];
        BeforeAssoc(EmitPart(w[i], locals), EmitParts(w[i + 1..], locals), end);
        PlainStep(s0, s, Snap(), EmitPart(w[i], locals), Before(EmitParts(w[i + 1..], locals), end), total);
      }
      ghost var s := Snap();
      BeforeNone(end);
      ok := CompileWordEnd(w);
      if ok { LastPlain(s0, s, Snap(), EmitWordEnd(w), total); }
    }

    method CompileWordEnd(w: Word) returns (ok: bool)
      requires Valid()
      modifies this`code, this`pool, this`sym
      ensures Valid() && (!ok ==> |pool| == POOL_MAX)
      ensures ok ==> Extends(old(Snap()), Snap(), Plain(EmitWordEnd(w)))
    {
      ok := true;
      if |w| > 1 {
        I16(CONCAT, |w|);
      } else if |w| == 0 {
        ok := ConstInstr(PUSH_CONST, "");
      } else {
        ExtendsNothing(Snap());
      }
    }

    method CompileGroupEnd(w: Word)
      requires Valid()
      modifies this`code, this`sym
      ensures Valid() && Extends(old(Snap()), Snap(), Plain(EmitGroupEnd(w)))
    {
      if NeedsSplit(w) {
        I0(SPLIT_FIELDS);
      } else if HasGlob(w) {
        I0(GLOB);
      } else {
        I32(PUSH_INT, 1);
      }
    }

    /** One word of a command or of a for-loop: its fields and their count. */
    method CompileGroup(w: Word, tilde: bool) returns (ok: bool)
      requires Valid()
      modifies this`code, this`pool, this`sym
      ensures Valid() && (!ok ==> |pool| == POOL_MAX)
      ensures ok ==> Extends(old(Snap()), Snap(), Plain(EmitGroup(w, tilde, locals)))
    {
      hide Valid, Extends, Stage, EmitWord, EmitGroupEnd, StartsWithTilde, IsQuotedAt;
      ok := true;
      if IsQuotedAt(w) {
        I0(EXPAND_ARGS);
        return;
      }
      ghost var s0, total := Snap(), Plain(EmitGroup(w, tilde, locals));
      ghost var t := if tilde && StartsWithTilde(w) then Op(EXPAND_TILDE) else [];
      Begin(s0, total);
      ok := CompileWord(w);
      if !ok { return; }
      PlainStep(s0, s0, Snap(), EmitWord(w, locals), Plain(t + EmitGroupEnd(w)), total);
      ghost var s := Snap();
      if tilde && StartsWithTilde(w) {
        I0(EXPAND_TILDE);
      } else {
        ExtendsNothing(s);
      }
      PlainStep(s0, s, Snap(), t, Plain(EmitGroupEnd(w)), total);
      s := Snap();
      CompileGroupEnd(w);
      LastPlain(s0, s, Snap(), EmitGroupEnd(w), total);
    }

    /** The words of a command, collected into a flat argument list. */
    method CompileArgs(ws: seq<Word>, tilde: bool) returns (ok: bool)
      requires Valid()
      modifies this`code, this`pool, this`sym
      ensures Valid() && (!ok ==> |pool| == POOL_MAX)
      ensures ok ==> Extends(old(Snap()), Snap(), Plain(EmitArgs(ws, tilde, locals)))
    {
      hide Valid, Extends, Stage, EmitGroup;
      ok := true;
      ghost var s0, total := Snap(), Plain(EmitArgs(ws, tilde, locals));
      ghost var end := Plain(Op32(PUSH_INT, |ws|) + Op(COLLECT_WORDS));
      assert ws[0..] == ws;
      Begin(s0, total);
      for i := 0 to |ws|
        invariant Valid() && ok && open == s0.open && locals == s0.locals
        invariant Stage(s0, Snap(), Before(EmitGroups(ws[i..], tilde, locals), end), total)
      {
        ghost var s := Snap();
        ok := CompileGroup(ws[i], tilde);
        if !ok { return; }
        assert ws[i..][1..] == ws[i + 1..];
        ghost var rest := EmitGroups(ws[i + 1..], tilde, locals);
        BeforeAssoc(EmitGroup(ws[i], tilde, locals), rest, end);
        PlainStep(s0, s, Snap(), EmitGroup(ws[i], tilde, locals), Before(rest, end), total);
      }
      BeforeNone(end);
      ghost var s := Snap();
      I32(PUSH_INT, |ws|);
      PlainStep(s0, s, Snap(), Op32(PUSH_INT, |ws|), Plain(Op(COLLECT_WORDS)), total);
      s := Snap();
      I0(COLLECT_WORDS);
      LastPlain(s0, s, Snap(), Op(COLLECT_WORDS), total);
    }

    // ---- simple commands ----

    method CompileRaw(a: Assign) returns (ok: bool)
      requires Valid()
      modifies this`code, this`pool, this`sym
      ensures Valid() && (!ok ==> |pool| == POOL_MAX)
      ensures ok ==> Extends(old(Snap()), Snap(), Plain(EmitRaw(a, locals)))
    {
      hide Valid, Extends, Stage, EmitWord;
      if a.rest == [] {
        ok := ConstInstr(PUSH_CONST, a.prefix);
      } else if a.prefix != "" {
        ghost var s0, total := Snap(), Plain(EmitRaw(a, locals));
        Begin(s0, total);
        ok := ConstInstr(PUSH_CONST, a.prefix);
        if !ok { return; }
        PlainStep(s0, s0, Snap(), OpConst(PUSH_CONST, a.prefix), Plain(EmitWord(a.rest, locals) + Op16(CONCAT, 2)), total);
        ghost var s := Snap();
        ok := CompileWord(a.rest);
        if !ok { return; }
        PlainStep(s0, s, Snap(), EmitWord(a.rest, locals), Plain(Op16(CONCAT, 2)), total);
        s := Snap();
        I16(CONCAT, 2);
        LastPlain(s0, s, Snap(), Op16(CONCAT, 2), total);
      } else {
        ok := CompileWord(a.rest);
      }
    }

    method CompileStore(a: Assign, temp: bool) returns (ok: bool)
      requires Valid()
      modifies this`code, this`pool, this`sym
      ensures Valid() && (!ok ==> |pool| == POOL_MAX)
      ensures ok ==> Extends(old(Snap()), Snap(), Plain(EmitStore(a, temp, locals)))
    {
      hide Valid, Extends, Stage;
      if temp {
        ghost var s0, total := Snap(), Plain(EmitStore(a, temp, locals));
        Begin(s0, total);
        ok := ConstInstr(SET_LOCAL, a.name);
        if !ok { return; }
        PlainStep(s0, s0, Snap(), OpConst(SET_LOCAL, a.name), Plain(OpConst(EXPORT, a.name)), total);
        ghost var s := Snap();
        ok := ConstInstr(EXPORT, a.name);
        if ok { LastPlain(s0, s, Snap(), OpConst(EXPORT, a.name), total); }
      } else {
        ok := ConstInstr(if a.name in locals then SET_LOCAL else SET_VAR, a.name);
      }
    }

    method CompileAssigns(assigns: seq<Assign>, temp: bool) returns (ok: bool)
      requires Valid()
      modifies this`code, this`pool, this`sym
      ensures Valid() && (!ok ==> |pool| == POOL_MAX)
      ensures ok ==> Extends(old(Snap()), Snap(), Plain(EmitAssigns(assigns, temp, locals)))
    {
      hide Valid, Extends, Stage, EmitRaw, EmitStore, TildeValue;
      ok := true;
      ghost var s0, total := Snap(), Plain(EmitAssigns(assigns, temp, locals));
      assert assigns[0..] == assigns;
      Begin(s0, total);
      for i := 0 to |assigns|
        invariant Valid() && ok && open == s0.open && locals == s0.locals
        invariant Stage(s0, Snap(), Plain(EmitAssigns(assigns[i..], temp, locals)), total)
      {
        var a := assigns[i];
        assert assigns[i..][1..] == assigns[i + 1..];
        ghost var t := if TildeValue(a) then Op(EXPAND_TILDE) else [];
        ghost var rest := Plain(EmitAssigns(assigns[i + 1..], temp, locals));
        ghost var rest1 := Before(EmitStore(a, temp, locals), rest);
        BeforeAssoc(EmitRaw(a, locals), t, rest1);
        ghost var s := Snap();
        ok := CompileRaw(a);
        if !ok { return; }
        PlainStep(s0, s, Snap(), EmitRaw(a, locals), Before(t, rest1), total);
        s := Snap();
        if TildeValue(a) {
          I0(EXPAND_TILDE);
        } else {
          ExtendsNothing(s);
        }
        PlainStep(s0, s, Snap(), t, rest1, total);
        s := Snap();
        ok := CompileStore(a, temp);
        if !ok { return; }
        PlainStep(s0, s, Snap(), EmitStore(a, temp, locals), rest, total);
      }
      ghost var s := Snap();
      ExtendsNothing(s);
      LastPlain(s0, s, s, [], total);
    }

    method CompileRedir(r: Redir) returns (ok: bool)
      requires Valid()
      modifies this`code, this`pool, this`sym
      ensures Valid() && (!ok ==> |pool| == POOL_MAX)
      ensures ok ==> Extends(old(Snap()), Snap(), Plain(EmitRedir(r, locals)))
    {
      hide Valid, Extends, Stage, EmitWord;
      ok := true;
      if r.Close? {
        I1(REDIR_CLOSE, r.fd);
        return;
      }
      ghost var s0, total := Snap(), Plain(EmitRedir(r, locals));
      Begin(s0, total);
      ok := CompileWord(r.target);
      if !ok { return; }
      var op := match r case Open(_, _, _) => REDIR_OPEN case Dup(_, _) => REDIR_DUP case _ => REDIR_HERE;
      var arg := match r case Open(_, kind, _) => kind case Here(_, expand, _) => (if expand then 1 else 0) case _ => 0;
      PlainStep(s0, s0, Snap(), EmitWord(r.target, locals), Plain(Op2(op, r.fd, arg)), total);
      ghost var s := Snap();
      I2(op, r.fd, arg);
      LastPlain(s0, s, Snap(), Op2(op, r.fd, arg), total);
    }

    /** compile_redirs_open */
    method CompileRedirsOpen(rs: seq<Redir>) returns (ok: bool)
      requires Valid()
      modifies this`code, this`pool, this`sym
      ensures Valid() && (!ok ==> |pool| == POOL_MAX)
      ensures ok ==> Extends(old(Snap()), Snap(), Plain(EmitRedirsOpen(rs, locals)))
    {
      hide Valid, Extends, Stage, EmitRedir;
      ok := true;
      ghost var s0, total := Snap(), Plain(EmitRedirsOpen(rs, locals));
      Begin(s0, total);
      I0(REDIR_SAVE);
      assert rs[0..] == rs;
      PlainStep(s0, s0, Snap(), Op(REDIR_SAVE), Plain(EmitRedirs(rs, locals)), total);
      for i := 0 to |rs|
        invariant Valid() && ok && open == s0.open && locals == s0.locals
        invariant Stage(s0, Snap(), Plain(EmitRedirs(rs[i..], locals)), total)
      {
        ghost var s := Snap();
        ok := CompileRedir(rs[i]);
        if !ok { return; }
        assert rs[i..][1..] == rs[i + 1..];
        PlainStep(s0, s, Snap(), EmitRedir(rs[i], locals), Plain(EmitRedirs(rs[i + 1..], locals)), total);
      }
      ghost var s := Snap();
      ExtendsNothing(s);
      LastPlain(s0, s, s, [], total);
    }

    /** The command opcode: a builtin, a function defined above, or whatever the name turns out to be. */
    method CompileExec(words: seq<Word>)
      requires Valid() && |words| > 0
      modifies this`code, this`sym
      ensures Valid() && Extends(old(Snap()), Snap(), Plain(EmitExec(words, old(X()))))
    {
      hide Extends;
      if IsLiteral(words[0]) {
        var name := words[0][0].text;
        var b := IndexOf(builtins, name);
        if b < |builtins| {
          I16(EXEC_BUILTIN, b);
          return;
        }
        var f := 0;
        while f < |funcs| && funcs[f].name != name
          invariant f <= |funcs| && forall i :: 0 <= i < f ==> funcs[i].name != name
        {
          f := f + 1;
        }
        FoundFunc(name, f);
        if f < |funcs| {
          I16(EXEC_FUNC, f);
          return;
        }
      }
      I1(EXEC_SIMPLE, 0);
    }

    lemma FoundFunc(name: string, f: nat)
      requires Valid() && f <= |funcs| && (forall i :: 0 <= i < f ==> funcs[i].name != name)
      requires f < |funcs| ==> funcs[f].name == name
      ensures IndexOf(X().fns, name) == f
    {
      var i := IndexOf(X().fns, name);
      if i < |funcs| { assert funcs[i].name == name; }
      if f < |funcs| { assert X().fns[f] == name; }
    }

    method CompileFinish(c: Cmd)
      requires Valid() && c.Simple?
      modifies this`code, this`sym
      ensures Valid()
      ensures Extends(old(Snap()), Snap(), Plain((if c.assigns != [] then Op(POP_SCOPE) else [])
                                                 + (if IsBareExec(c.words) then [] else Op(REDIR_RESTORE))))
    {
      hide Valid, Extends, Stage, IsBareExec;
      ghost var t := if c.assigns != [] then Op(POP_SCOPE) else [];
      ghost var u := if IsBareExec(c.words) then [] else Op(REDIR_RESTORE);
      ghost var s0 := Snap();
      Begin(s0, Plain(t + u));
      if c.assigns != [] {
        I0(POP_SCOPE);
      } else {
        ExtendsNothing(s0);
      }
      PlainStep(s0, s0, Snap(), t, Plain(u), Plain(t + u));
      ghost var s := Snap();
      if !IsBareExec(c.words) {
        I0(REDIR_RESTORE);
      } else {
        ExtendsNothing(s);
      }
      LastPlain(s0, s, Snap(), u, Plain(t + u));
    }

    /** The part of compile_simple that is not about break, continue and imports. */
    method CompileCommand(c: Cmd) returns (ok: bool)
      requires Valid() && c.Simple?
      modifies this`code, this`pool, this`sym
      ensures Valid() && (!ok ==> |pool| == POOL_MAX)
      ensures ok ==> Extends(old(Snap()), Snap(), Plain(EmitCommand(c, old(X()))))
    {
      assert |targets| == |loops|;
      hide Valid, Extends, Stage, EmitAssigns, EmitRedirsOpen, EmitArgs, EmitExec, IsBareExec;
      if c.words == [] {
        ok := CompileAssigns(c.assigns, false);
        return;
      }
      ghost var s0, x, total := Snap(), X(), Plain(EmitCommand(c, X()));
      var temp := c.assigns != [];
      ghost var t1 := if temp then Op1(PUSH_SCOPE, 1) else [];
      ghost var t2 := EmitAssigns(c.assigns, true, locals);
      ghost var t3 := EmitRedirsOpen(c.redirs, locals);
      ghost var t4 := EmitArgs(c.words, true, locals);
      ghost var t5 := EmitExec(c.words, x);
      ghost var t6 := (if temp then Op(POP_SCOPE) else []) + (if IsBareExec(c.words) then [] else Op(REDIR_RESTORE));
      Begin(s0, total);
      if temp {
        I1(PUSH_SCOPE, 1);
      } else {
        ExtendsNothing(s0);
      }
      PlainStep(s0, s0, Snap(), t1, Plain(t2 + (t3 + (t4 + (t5 + t6)))), total);
      ghost var s := Snap();
      ok := CompileAssigns(c.assigns, true);
      if !ok { return; }
      PlainStep(s0, s, Snap(), t2, Plain(t3 + (t4 + (t5 + t6))), total);
      s := Snap();
      ok := CompileRedirsOpen(c.redirs);
      if !ok { return; }
      PlainStep(s0, s, Snap(), t3, Plain(t4 + (t5 + t6)), total);
      s := Snap();
      ok := CompileArgs(c.words, true);
      if !ok { return; }
      PlainStep(s0, s, Snap(), t4, Plain(t5 + t6), total);
      s := Snap();
      StagePlainContext(builtins, s0, s, Plain(t5 + t6), total);
      CompileExec(c.words);
      PlainStep(s0, s, Snap(), t5, Plain(t6), total);
      s := Snap();
      CompileFinish(c);
      LastPlain(s0, s, Snap(), t6, total);
    }

    /** The POPs for the iterators of the `k` innermost loops. */
    method CompilePops(k: nat)
      requires Valid() && k <= |loops|
      modifies this`code, this`sym
      ensures Valid() && Extends(old(Snap()), Snap(), Plain(Pops(Iters(old(X()).flags, k))))
    {
      ghost var s0, flags := Snap(), X().flags;
      ExtendsNothing(s0);
      assert Pops(0) == [];
      var j := 0;
      while j < k
        invariant j <= k && Valid() && loops == s0.loops
        invariant Extends(s0, Snap(), Plain(Pops(Iters(flags, j))))
      {
        if loops[|loops| - 1 - j].hasIterator {
          I0(POP);
          assert Pops(Iters(flags, j) + 1) == Pops(Iters(flags, j)) + Op(POP);
        }
        j := j + 1;
      }
    }

    /** A jump to what is still to be emitted; the rest of its construct follows. */
    method OpenJump(op: byte, ghost target: nat, ghost s0: Snapshot, ghost rest: Emitted, ghost total: Emitted) returns (p: nat)
      requires Valid() && Stage(s0, Snap(), Before(JumpTo(op, |code|, target), rest), total)
      modifies this`code, this`sym, this`open
      ensures Valid() && p == old(|code|) + 1 && open == old(open) + {p} && p !in old(open) && Expects(sym, p, target)
      ensures |code| == old(|code|) + JUMP_SIZE && old(sym) <= sym && X() == old(X()) && L() == old(L())
      ensures Stage(s0, Snap(), rest, total)
    {
      hide Extends, Stage, Emits, Framed, Expects, Agrees, Distinct, BreaksOk, JumpTo, Before;
      ghost var s, jump := Snap(), JumpTo(op, |code|, target);
      p := EmitJump(op, target);
      PlainDefs(builtins, s, Snap(), jump);
      HoleStep(s0, s, Snap(), jump, rest, total);
    }

    /** A jump to a target that is known already: it is emitted and patched at once, and ends its construct. */
    method JumpBack(op: byte, target: nat, ghost s0: Snapshot, ghost total: Emitted)
      requires Valid() && Stage(s0, Snap(), Plain(JumpTo(op, |code|, target)), total)
      modifies this`code, this`sym, this`open
      ensures Valid() && open == old(open) && |code| == old(|code|) + JUMP_SIZE && old(sym) <= sym
      ensures Emits(s0, Snap(), total) && Framed(s0, Snap())
    {
      hide Extends, Stage, Emits, Framed, Expects, Agrees, Distinct, BreaksOk, JumpTo;
      ghost var s, jump := Snap(), JumpTo(op, |code|, target);
      var p := EmitJump(op, target);
      BeforeNothing(jump);
      HoleStep(s0, s, Snap(), jump, NOTHING, total);
      s := Snap();
      PatchTo(p, target);
      PatchStage(s0, s, Snap(), NOTHING, total);
      Finish(s0, Snap(), NOTHING, total);
    }

    /** break and continue: a break's target is not known yet, a continue's is whatever the loop has recorded. */
    method CompileLoopJump(isBreak: bool, count: nat)
      requires Valid() && |loops| > 0 && count > 0
      modifies this`code, this`sym, this`open, this`loops
      ensures Valid()
      ensures Extends(old(Snap()), Snap(), Plain(EmitLoopJump(isBreak, count, old(|code|), old(X()).flags, old(L()))))
    {
      hide Extends, Stage, Emits, Framed, Expects, Agrees, Distinct, BreaksOk, Iters;
      ghost var s0, base, total := Snap(), |code|, Plain(EmitLoopJump(isBreak, count, |code|, X().flags, L()));
      var depth := if count > |loops| then |loops| else count;
      var target := |loops| - depth;
      ghost var pops := Pops(Iters(X().flags, depth - 1));
      ghost var jump := JumpTo(JMP, base + |pops|, if isBreak then targets[target] else loops[target].cont);
      Begin(s0, total);
      CompilePops(depth - 1);
      PlainSize(s0, Snap(), pops);
      PlainStep(s0, s0, Snap(), pops, Plain(jump), total);
      ghost var s := Snap();
      if isBreak {
        EmitBreak(target);
        LastPlain(s0, s, Snap(), jump, total);
      } else {
        JumpBack(JMP, loops[target].cont, s0, total);
        Extending(s0, Snap(), total);
      }
    }

    /** compile_simple */
    method CompileSimple(c: Cmd) returns (ok: bool)
      requires Valid() && c.Simple?
      modifies this
      ensures !ok ==> |pool| == POOL_MAX || !AcceptsSimple(c, old(X()))
      ensures ok ==> AcceptsSimple(c, old(X())) && Valid()
      ensures ok ==> Extends(old(Snap()), Snap(), EmitCmd(c, old(|code|), old(X()), old(L())))
    {
      hide Extends, EmitCommand, EmitLoopJump, EmitAssigns;
      match Intercept(c.words) {
        case Jump(isBreak, count) =>
          ok := |loops| > 0;
          if ok { CompileLoopJump(isBreak, count); }
        case BadCount => ok := false;
        case Import => ok := false;
        case NotIntercepted => ok := CompileCommand(c);
      }
    }

    // ---- conditional expressions ----

    /** compile_cond_expr */
    method CompileCond(e: CondExpr) returns (ok: bool)
      requires Valid()
      modifies this`code, this`pool, this`sym, this`open
      ensures ok ==> Valid() && Extends(old(Snap()), Snap(), Plain(EmitCond(e, old(|code|), locals)))
      ensures ok ==> |code| == old(|code|) + ShapeCond(e, locals)
      ensures !ok ==> |pool| == POOL_MAX
      decreases e, 0
    {
      hide Extends, Stage, EmitWord;
      ghost var s0, total := Snap(), Plain(EmitCond(e, |code|, locals));
      Begin(s0, total);
      match e {
        case Test1(op, arg) =>
          ok := CompileWord(arg);
          if !ok { return; }
          PlainStep(s0, s0, Snap(), EmitWord(arg, locals), Plain(Op1(TEST_UNARY, op)), total);
          ghost var s := Snap();
          I1(TEST_UNARY, op);
          LastPlain(s0, s, Snap(), Op1(TEST_UNARY, op), total);
        case Test2(op, left, right) =>
          ok := CompileWord(left);
          if !ok { return; }
          ghost var t := Op1(TEST_BINARY, op);
          PlainStep(s0, s0, Snap(), EmitWord(left, locals), Plain(EmitWord(right, locals) + t), total);
          ghost var s := Snap();
          ok := CompileWord(right);
          if !ok { return; }
          PlainStep(s0, s, Snap(), EmitWord(right, locals), Plain(t), total);
          s := Snap();
          I1(TEST_BINARY, op);
          LastPlain(s0, s, Snap(), t, total);
        case CondAnd(_, _) =>
          ok := CompileShortCircuit(JMP_FALSE, e);
        case CondOr(_, _) =>
          ok := CompileShortCircuit(JMP_TRUE, e);
        case CondNot(e1) =>
          ok := CompileCond(e1);
          if !ok { return; }
          PlainStep(s0, s0, Snap(), EmitCond(e1, old(|code|), locals), Plain(Op(NEGATE_STATUS)), total);
          ghost var s := Snap();
          I0(NEGATE_STATUS);
          LastPlain(s0, s, Snap(), Op(NEGATE_STATUS), total);
      }
      if ok { PlainSize(s0, Snap(), EmitCond(e, old(|code|), locals)); }
    }

    method CompileShortCircuit(op: byte, e: CondExpr) returns (ok: bool)
      requires Valid() && (e.CondAnd? || e.CondOr?)
      modifies this`code, this`pool, this`sym, this`open
      ensures ok ==> Valid() && Extends(old(Snap()), Snap(), Plain(EmitShortCircuit(op, e, old(|code|), locals)))
      ensures !ok ==> |pool| == POOL_MAX
      decreases e, -1
    {
      hide Extends, Stage, Emits, Framed, Expects, Agrees, Distinct, BreaksOk, EmitCond, ShapeCond;
      ghost var s0, base, total := Snap(), |code|, Plain(EmitShortCircuit(op, e, |code|, locals));
      ghost var mid := base + ShapeCond(e.l, locals);
      ghost var end := mid + JUMP_SIZE + ShapeCond(e.r, locals);
      ghost var jump, right := JumpTo(op, mid, end), EmitCond(e.r, mid + JUMP_SIZE, locals);
      Begin(s0, total);
      ok := CompileCond(e.l);
      if !ok { return; }
      PlainStep(s0, s0, Snap(), EmitCond(e.l, base, locals), Plain(jump + right), total);
      ghost var s := Snap();
      var p := EmitJump(op, end);
      HoleStep(s0, s, Snap(), jump, Plain(right), total);
      s := Snap();
      ok := CompileCond(e.r);
      if !ok { return; }
      PlainMore(s, Snap(), right);
      HoleLater(s.sym, sym, p, end);
      BeforeNothing(right);
      PlainStep(s0, s, Snap(), right, NOTHING, total);
      s := Snap();
      PatchHere(p);
      PatchStage(s0, s, Snap(), NOTHING, total);
      Finish(s0, Snap(), NOTHING, total);
      Extending(s0, Snap(), total);
    }

    // ---- lists ----

    /** compile_program */
    method CompileProgram(p: Program) returns (ok: bool)
      requires Valid()
      modifies this
      ensures ok ==> Valid() && Extends(old(Snap()), Snap(), EmitProgram(p, old(|code|), old(X()), old(L())))
      ensures ok ==> |code| == old(|code|) + ShapeProgram(p, old(X())).size && X() == old(X()).With(ShapeProgram(p, old(X())).names) && L() == old(L())
      ensures ok ==> AcceptsProgram(p, old(X()))
      ensures !ok ==> |pool| == POOL_MAX || !AcceptsProgram(p, old(X()))
      decreases p, 0
    {
      hide Extends, Stage, Emits, Framed, Expects, Agrees, Distinct, BreaksOk, EmitAndOr, ShapeAndOr, AcceptsAndOr;
      ghost var s0, x0, l0, total, shape := Snap(), X(), L(), EmitProgram(p, |code|, X(), L()), ShapeProgram(p, X());
      ok := true;
      var rest := p;
      Begin(s0, total);
      while rest.Then?
        invariant Valid() && ok && open == s0.open && L() == l0
        invariant rest == p || rest < p
        invariant Stage(s0, Snap(), EmitProgram(rest, |code|, X(), L()), total)
        invariant AcceptsProgram(p, x0) == AcceptsProgram(rest, X())
        decreases rest
      {
        ghost var s, e := Snap(), EmitAndOr(rest.head, |code|, X(), L());
        ok := CompileList(rest.head);
        if !ok { return; }
        JoinStep(s0, s, Snap(), e, EmitProgram(rest.tail, |code|, X(), L()), total);
        rest := rest.tail;
      }
      Closed(builtins, s0, Snap(), NOTHING, total, shape);
    }

    /** compile_sh_list */
    method CompileList(a: AndOr) returns (ok: bool)
      requires Valid()
      modifies this
      ensures ok ==> Valid() && Extends(old(Snap()), Snap(), EmitAndOr(a, old(|code|), old(X()), old(L())))
      ensures ok ==> |code| == old(|code|) + ShapeAndOr(a, old(X())).size && X() == old(X()).With(ShapeAndOr(a, old(X())).names) && L() == old(L())
      ensures ok ==> AcceptsAndOr(a, old(X()))
      ensures !ok ==> |pool| == POOL_MAX || !AcceptsAndOr(a, old(X()))
      decreases a, 1
    {
      hide Extends, Stage, Emits, Framed, Expects, Agrees, Distinct, BreaksOk, EmitMember, ShapeMember, EmitLinks, EmitAndOr, ShapeAndOr, AcceptsCmd;
      ghost var s0, x0, l0, total, shape := Snap(), X(), L(), EmitAndOr(a, |code|, X(), L()), ShapeAndOr(a, X());
      Begin(s0, total);
      AndOrSplit(a, |code|, x0, l0);
      ghost var e0 := EmitMember(a, |code|, x0, l0);
      ok := CompileMember(a);
      if !ok { return; }
      JoinStep(s0, s0, Snap(), e0, LinksOf(a, |code|, X(), L()), total);
      var cur := a;
      while cur.Link?
        invariant Valid() && ok && open == s0.open && L() == l0
        invariant cur == a || cur < a
        invariant Stage(s0, Snap(), LinksOf(cur, |code|, X(), L()), total)
        invariant AcceptsAndOr(a, x0) == (cur.Link? ==> AcceptsAndOr(cur.rest, X()))
        decreases cur
      {
        ghost var x, base := X(), |code|;
        ok := CompileLink(cur.isAnd, cur.rest, s0, total);
        if !ok { return; }
        cur := cur.rest;
      }
      Closed(builtins, s0, Snap(), NOTHING, total, shape);
    }

    /** One connector: the short-circuit jump over the next member, and that member. */
    method CompileLink(isAnd: bool, a: AndOr, ghost s0: Snapshot, ghost total: Emitted) returns (ok: bool)
      requires Valid() && Stage(s0, Snap(), EmitLinks(isAnd, a, |code|, X(), L()), total)
      modifies this
      ensures ok ==> Valid() && open == old(open) && L() == old(L())
      ensures ok ==> X() == old(X()).With(ShapeMember(a, old(X())).names)
      ensures ok ==> Stage(s0, Snap(), LinksOf(a, |code|, X(), L()), total)
      ensures ok ==> AcceptsCmd(a.cmd, old(X()))
      ensures !ok ==> |pool| == POOL_MAX || !AcceptsCmd(a.cmd, old(X()))
      decreases a, 2
    {
      hide Extends, Stage, Emits, Framed, Expects, Agrees, Distinct, BreaksOk, EmitMember, ShapeMember, EmitAndOr, LinksOf, AcceptsCmd;
      ghost var s, x, l, base, m := Snap(), X(), L(), |code|, ShapeMember(a, X());
      ghost var after := base + JUMP_SIZE + m.size;
      ghost var jump := JumpTo(LinkOp(isAnd), base, after);
      var p := OpenJump(LinkOp(isAnd), after, s0, EmitAndOr(a, base + JUMP_SIZE, x, l), total);
      AndOrSplit(a, base + JUMP_SIZE, x, l);
      ghost var s1 := Snap();
      ok := CompileMember(a);
      if !ok { return; }
      JoinStep(s0, s1, Snap(), EmitMember(a, base + JUMP_SIZE, x, l), LinksOf(a, |code|, X(), L()), total);
      HoleLater(s1.sym, sym, p, after);
      ghost var s2 := Snap();
      PatchHere(p);
      PatchStage(s0, s2, Snap(), LinksOf(a, |code|, X(), L()), total);
    }

    method CompileMember(a: AndOr) returns (ok: bool)
      requires Valid()
      modifies this
      ensures ok ==> Valid() && Extends(old(Snap()), Snap(), EmitMember(a, old(|code|), old(X()), old(L())))
      ensures ok ==> |code| == old(|code|) + ShapeMember(a, old(X())).size && X() == old(X()).With(ShapeMember(a, old(X())).names) && L() == old(L())
      ensures ok ==> AcceptsCmd(a.cmd, old(X()))
      ensures !ok ==> |pool| == POOL_MAX || !AcceptsCmd(a.cmd, old(X()))
      decreases a, 0
    {
      hide Extends, Stage, Emits, Framed, Expects, Agrees, Distinct, BreaksOk, EmitPipe, ShapePipe, AcceptsCmd;
      if a.Last? {
        ok := CompilePipe(a.negated, a.cmd);
        return;
      }
      ghost var s0, x, l, base, total, shape := Snap(), X(), L(), |code|, EmitMember(a, |code|, X(), L()), ShapeMember(a, X());
      ghost var e := EmitPipe(a.negated, a.cmd, base + 1, x, l);
      Begin(s0, total);
      I0(ERREXIT_PUSH);
      PlainDefs(builtins, s0, Snap(), Op(ERREXIT_PUSH));
      PlainStep(s0, s0, Snap(), Op(ERREXIT_PUSH), Join2(e, Plain(Op(ERREXIT_POP))), total);
      ghost var s := Snap();
      ok := CompilePipe(a.negated, a.cmd);
      if !ok { return; }
      JoinStep(s0, s, Snap(), e, Plain(Op(ERREXIT_POP)), total);
      s := Snap();
      I0(ERREXIT_POP);
      LastPlain(s0, s, Snap(), Op(ERREXIT_POP), total);
      Settled(builtins, s0, Snap(), total, shape);
    }

    /** compile_and_or, for a single command */
    method CompilePipe(negated: bool, c: Cmd) returns (ok: bool)
      requires Valid()
      modifies this
      ensures ok ==> Valid() && Extends(old(Snap()), Snap(), EmitPipe(negated, c, old(|code|), old(X()), old(L())))
      ensures ok ==> |code| == old(|code|) + ShapePipe(negated, c, old(X())).size && X() == old(X()).With(ShapePipe(negated, c, old(X())).names) && L() == old(L())
      ensures ok ==> AcceptsCmd(c, old(X()))
      ensures !ok ==> |pool| == POOL_MAX || !AcceptsCmd(c, old(X()))
      decreases c, 3
    {
      hide Extends, Stage, Emits, Framed, Expects, Agrees, Distinct, BreaksOk, EmitCmd, ShapeCmd, AcceptsCmd;
      if !negated {
        ok := CompileCmd(c);
        return;
      }
      ghost var s0, x, l, base, total, shape := Snap(), X(), L(), |code|, EmitPipe(negated, c, |code|, X(), L()), ShapePipe(negated, c, X());
      ghost var e, tail := EmitCmd(c, base + 1, x, l), Op(ERREXIT_POP) + Op(NEGATE_STATUS);
      Begin(s0, total);
      I0(ERREXIT_PUSH);
      PlainDefs(builtins, s0, Snap(), Op(ERREXIT_PUSH));
      PlainStep(s0, s0, Snap(), Op(ERREXIT_PUSH), Join2(e, Plain(tail)), total);
      ghost var s := Snap();
      ok := CompileCmd(c);
      if !ok { return; }
      JoinStep(s0, s, Snap(), e, Plain(tail), total);
      s := Snap();
      I0(ERREXIT_POP);
      PlainStep(s0, s, Snap(), Op(ERREXIT_POP), Plain(Op(NEGATE_STATUS)), total);
      s := Snap();
      I0(NEGATE_STATUS);
      LastPlain(s0, s, Snap(), Op(NEGATE_STATUS), total);
      Settled(builtins, s0, Snap(), total, shape);
    }

    // ---- compound commands ----

    /** A condition, with errexit suppressed. */
    method CompileGuard(p: Program) returns (ok: bool)
      requires Valid()
      modifies this
      ensures ok ==> Valid() && Extends(old(Snap()), Snap(), EmitGuard(p, old(|code|), old(X()), old(L())))
      ensures ok ==> |code| == old(|code|) + ShapeProgram(p, old(X())).size + 2
      ensures ok ==> X() == old(X()).With(ShapeProgram(p, old(X())).names) && L() == old(L())
      ensures ok ==> AcceptsProgram(p, old(X()))
      ensures !ok ==> |pool| == POOL_MAX || !AcceptsProgram(p, old(X()))
      decreases p, 1
    {
      hide Extends, Stage, Emits, Framed, Expects, Agrees, Distinct, BreaksOk, EmitProgram, ShapeProgram, AcceptsProgram;
      ghost var s0, x, l, base, total := Snap(), X(), L(), |code|, EmitGuard(p, |code|, X(), L());
      ghost var e := EmitProgram(p, base + 1, x, l);
      Begin(s0, total);
      I0(ERREXIT_PUSH);
      PlainDefs(builtins, s0, Snap(), Op(ERREXIT_PUSH));
      PlainStep(s0, s0, Snap(), Op(ERREXIT_PUSH), Join2(e, Plain(Op(ERREXIT_POP))), total);
      ghost var s := Snap();
      ok := CompileProgram(p);
      if !ok { return; }
      JoinStep(s0, s, Snap(), e, Plain(Op(ERREXIT_POP)), total);
      s := Snap();
      I0(ERREXIT_POP);
      LastPlain(s0, s, Snap(), Op(ERREXIT_POP), total);
      Settled(builtins, s0, Snap(), total, Shape(ShapeProgram(p, x).size + 2, ShapeProgram(p, x).names));
    }

    /** compile_if */
    method CompileIf(cs: Clauses) returns (ok: bool)
      requires Valid()
      modifies this
      ensures ok ==> Valid() && Extends(old(Snap()), Snap(), EmitClauses(cs, old(|code|), old(X()), old(L()), old(|code|) + ShapeClauses(cs, old(X())).size))
      ensures ok ==> |code| == old(|code|) + ShapeClauses(cs, old(X())).size && X() == old(X()).With(ShapeClauses(cs, old(X())).names) && L() == old(L())
      ensures ok ==> AcceptsClauses(cs, old(X()))
      ensures !ok ==> |pool| == POOL_MAX || !AcceptsClauses(cs, old(X()))
      decreases cs, 0
    {
      hide Extends, Stage, Emits, Framed, Expects, Agrees, Distinct, BreaksOk, EmitClauses, AcceptsClauses, ShapeClauses;
      ghost var s0, x0, l0, total, shape := Snap(), X(), L(), EmitClauses(cs, |code|, X(), L(), |code| + ShapeClauses(cs, X()).size), ShapeClauses(cs, X());
      ghost var end := |code| + shape.size;
      ok := true;
      var ends: seq<nat> := [];
      var cur := cs;
      Begin(s0, total);
      while cur.Elif?
        invariant Valid() && ok && open == s0.open + SetOf(ends) && SetOf(ends) !! s0.open && L() == l0
        invariant cur == cs || cur < cs
        invariant forall p :: p in ends ==> Expects(sym, p, end)
        invariant |code| + ShapeClauses(cur, X()).size == end
        invariant Stage(s0, Snap(), EmitClauses(cur, |code|, X(), L(), end), total)
        invariant AcceptsClauses(cs, x0) == AcceptsClauses(cur, X())
        decreases cur
      {
        ghost var s := Snap();
        var p: nat;
        ok, p := CompileClause(cur, s0, total, end);
        if !ok { return; }
        HolesLater(s.sym, sym, ends, end);
        assert SetOf(ends + [p]) == SetOf(ends) + {p};
        ends := ends + [p];
        cur := cur.rest;
      }
      ghost var s, e := Snap(), EmitClauses(cur, |code|, X(), L(), end);
      ok := CompileElse(cur, end);
      if !ok { return; }
      LastStage(s0, s, Snap(), e, total);
      HolesLater(s.sym, sym, ends, end);
      CloseEnds(ends, s0, total, shape);
    }

    /** The else part, or the status of a chain without one. */
    method CompileElse(cs: Clauses, ghost end: nat) returns (ok: bool)
      requires Valid() && !cs.Elif?
      modifies this
      ensures ok ==> Valid() && Extends(old(Snap()), Snap(), EmitClauses(cs, old(|code|), old(X()), old(L()), end))
      ensures ok ==> |code| == old(|code|) + ShapeClauses(cs, old(X())).size && AcceptsClauses(cs, old(X()))
      ensures !ok ==> |pool| == POOL_MAX || !AcceptsClauses(cs, old(X()))
      decreases cs, -1
    {
      hide Extends, Stage, Emits, Framed, Expects, Agrees, Distinct, BreaksOk, EmitProgram, ShapeProgram, AcceptsProgram;
      ok := true;
      if cs.Else? {
        ok := CompileProgram(cs.body);
      } else {
        ghost var s := Snap();
        I0(STATUS_ZERO);
        PlainDefs(builtins, s, Snap(), Op(STATUS_ZERO));
      }
    }

    /** Patch the jumps to the end of a chain to the current position, which is the end. */
    method CloseEnds(ends: seq<nat>, ghost s0: Snapshot, ghost total: Emitted, ghost shape: Shape)
      requires Valid() && open == s0.open + SetOf(ends) && SetOf(ends) !! s0.open
      requires forall p :: p in ends ==> Expects(sym, p, |code|)
      requires Stage(s0, Snap(), NOTHING, total) && Fits(total, shape) && |s0.targets| == |s0.loops|
      modifies this`code, this`open
      ensures Valid() && Extends(s0, Snap(), total) && |code| == |s0.sym| + shape.size
      ensures X() == StaticOf(builtins, s0).With(shape.names) && L() == LoopsOf(s0)
    {
      hide Extends, Stage, Emits, Framed, Expects, Agrees, Distinct, BreaksOk;
      ghost var s := Snap();
      PatchAll(ends);
      PatchStage(s0, s, Snap(), NOTHING, total);
      assert open == s0.open;
      Closed(builtins, s0, Snap(), NOTHING, total, shape);
    }

    /** One condition and its body; the jump to the end of the chain stays open. */
    method CompileClause(n: Clauses, ghost s0: Snapshot, ghost total: Emitted, ghost end: nat) returns (ok: bool, p: nat)
      requires Valid() && n.Elif? && Stage(s0, Snap(), EmitClauses(n, |code|, X(), L(), end), total)
      requires s0.open <= open
      modifies this
      ensures ok ==> Valid() && open == old(open) + {p} && p !in old(open) && L() == old(L()) && Expects(sym, p, end)
      ensures ok ==> old(sym) <= sym
      ensures ok ==> Stage(s0, Snap(), EmitClauses(n.rest, |code|, X(), L(), end), total)
      ensures ok ==> |code| + ShapeClauses(n.rest, X()).size == old(|code|) + ShapeClauses(n, old(X())).size
      ensures ok ==> AcceptsClauses(n.rest, X()) == AcceptsClauses(n, old(X()))
      ensures !ok ==> |pool| == POOL_MAX || !AcceptsClauses(n, old(X()))
      decreases n, -1
    {
      hide Extends, Stage, Emits, Framed, Expects, Agrees, Distinct, BreaksOk, Before, Join2, JumpTo, EmitProgram, ShapeProgram, AcceptsProgram, EmitGuard, EmitClauses, ShapeClauses, AcceptsClauses;
      ghost var s, x, l, base := Snap(), X(), L(), |code|;
      ghost var cs := ShapeProgram(n.cond, x);
      ghost var x1 := x.With(cs.names);
      ghost var bs := ShapeProgram(n.body, x1);
      ghost var start := base + 2 + cs.size + JUMP_SIZE;
      ghost var next := start + bs.size + JUMP_SIZE;
      ghost var e2 := EmitProgram(n.body, start, x1, l);
      ghost var rest := EmitClauses(n.rest, next, x1.With(bs.names), l, end);
      ghost var j1, j2 := JumpTo(JMP_FALSE, start - JUMP_SIZE, next), JumpTo(JMP, next - JUMP_SIZE, end);
      ghost var guard := EmitGuard(n.cond, base, x, l);
      p := 0;
      ClauseSplit(n, base, x, l, end);
      ClauseShape(n, x);
      ok := CompileGuard(n.cond);
      if !ok { return; }
      JoinStep(s0, s, Snap(), guard, Before(j1, Join2(e2, Before(j2, rest))), total);
      var skip := OpenJump(JMP_FALSE, next, s0, Join2(e2, Before(j2, rest)), total);
      ghost var s3 := Snap();
      ok := CompileProgram(n.body);
      if !ok { return; }
      JoinStep(s0, s3, Snap(), e2, Before(j2, rest), total);
      HoleLater(s3.sym, sym, skip, next);
      p := ClauseEnd(skip, end, s0, rest, total);
    }

    /** The jump behind a branch, and the landing of the one that skips it. */
    method ClauseEnd(skip: nat, ghost end: nat, ghost s0: Snapshot, ghost rest: Emitted, ghost total: Emitted) returns (p: nat)
      requires Valid() && Stage(s0, Snap(), Before(JumpTo(JMP, |code|, end), rest), total)
      requires skip in open && Expects(sym, skip, |code| + JUMP_SIZE)
      modifies this`code, this`sym, this`open
      ensures Valid() && open == old(open) - {skip} + {p} && p !in old(open) && Expects(sym, p, end)
      ensures |code| == old(|code|) + JUMP_SIZE && old(sym) <= sym && X() == old(X()) && L() == old(L())
      ensures Stage(s0, Snap(), rest, total)
    {
      hide Extends, Stage, Emits, Framed, Expects, Agrees, Distinct, BreaksOk, Before, JumpTo;
      ghost var s4 := Snap();
      p := OpenJump(JMP, end, s0, rest, total);
      HoleLater(s4.sym, sym, skip, |code|);
      ghost var s5 := Snap();
      PatchHere(skip);
      PatchStage(s0, s5, Snap(), rest, total);
      PatchedContext(builtins, s5, Snap());
    }

    /** compile_for */
    method CompileFor(c: Cmd) returns (ok: bool)
      requires Valid() && c.For?
      modifies this
      ensures ok ==> Valid() && Extends(old(Snap()), Snap(), EmitCmd(c, old(|code|), old(X()), old(L())))
      ensures ok ==> |code| == old(|code|) + ShapeCmd(c, old(X())).size && X() == old(X()).With(ShapeCmd(c, old(X())).names) && L() == old(L())
      ensures ok ==> AcceptsCmd(c, old(X()))
      ensures !ok ==> |pool| == POOL_MAX || !AcceptsCmd(c, old(X()))
      decreases c, 1
    {
      hide Extends, Stage, Emits, Framed, Expects, Agrees, Distinct, BreaksOk, EmitProgram, ShapeProgram, AcceptsProgram, ForHead;
      ForShape(c, |code|, X(), L());
      assert |code| == |sym| && |targets| == |loops|;
      hide EmitCmd, AcceptsCmd, ShapeCmd, EmitFor, Valid;
      ghost var s0, total, shape := Snap(), EmitFor(c, |code|, X(), L()), ShapeCmd(c, X());
      var exit: nat;
      ok, exit := CompileForParts(c, total);
      if ok { CompileForEnd(exit, s0, total, shape); }
    }

    /** A for-loop up to and including the jump back to its top; the exit jump stays open. */
    method CompileForParts(c: Cmd, ghost total: Emitted) returns (ok: bool, exit: nat)
      requires Valid() && c.For? && total == EmitFor(c, |code|, X(), L())
      modifies this
      ensures ok ==> Valid() && open == old(open) + {exit} && exit !in old(open) && Expects(sym, exit, |code| + JUMP_SIZE)
      ensures ok ==> Stage(old(Snap()), Snap(), Plain(JumpTo(JMP, |code|, |code| + JUMP_SIZE + 1) + (Op(POP) + Op(POP))), total)
      ensures ok ==> AcceptsCmd(c, old(X()))
      ensures !ok ==> |pool| == POOL_MAX || !AcceptsCmd(c, old(X()))
      decreases c, 1, 0
    {
      hide Extends, Stage, Emits, Framed, Expects, Agrees, Distinct, BreaksOk, EmitProgram, ShapeProgram, AcceptsProgram, ForHead;
      ForShape(c, |code|, X(), L());
      hide EmitCmd, AcceptsCmd, ShapeCmd, EmitFor, ForTop, ForBreak, JumpTo, Op, OpConst, Before, Join2, Plain;
      ghost var s0, x, l, base := Snap(), X(), L(), |code|;
      ghost var top, brk := ForTop(c, base, x), ForBreak(c, base, x);
      ghost var s: Snapshot;
      ok, exit, s := CompileForOpen(c, top, brk);
      if !ok { return; }
      ghost var e := EmitProgram(c.body, top + 10, x.InLoop(true), l + [Loop(top, brk)]);
      ForStages(s0, s, Snap(), ForHead(c.items, x.locals), JumpTo(JMP_NONE, top + 2, brk + JUMP_SIZE), OpConst(SET_VAR, c.name), e,
                JumpTo(JMP, brk - JUMP_SIZE, top), JumpTo(JMP, brk, brk + JUMP_SIZE + 1) + (Op(POP) + Op(POP)), exit, brk + JUMP_SIZE, total);
    }

    /** The head and the body of a for-loop; `s` is where the body begins. */
    method CompileForOpen(c: Cmd, ghost top: nat, ghost brk: nat) returns (ok: bool, exit: nat, ghost s: Snapshot)
      requires Valid() && c.For? && top == ForTop(c, |code|, X()) && brk == ForBreak(c, |code|, X())
      modifies this
      ensures ok ==> Valid() && open == old(open) + {exit} && exit !in old(open) && |code| == brk
      ensures ok ==> Extends(old(Snap()), s.(open := old(open)),
                             Plain(ForHead(c.items, old(X()).locals)
                                   + (Op(GET_NEXT_ITER) + (Op(DUP) + (JumpTo(JMP_NONE, top + 2, brk + JUMP_SIZE) + OpConst(SET_VAR, c.name))))))
      ensures ok ==> Emits(s, Snap(), Join2(EmitProgram(c.body, top + 10, old(X()).InLoop(true), old(L()) + [Loop(top, brk)]),
                                            Plain(JumpTo(JMP, brk - JUMP_SIZE, top))))
      ensures ok ==> Framed(s, Snap()) && s.sym <= sym && Expects(s.sym, exit, brk + JUMP_SIZE)
      ensures ok ==> |old(X()).flags| < LOOP_MAX && AcceptsProgram(c.body, old(X()).InLoop(true))
      ensures !ok ==> |pool| == POOL_MAX || !(|old(X()).flags| < LOOP_MAX && AcceptsProgram(c.body, old(X()).InLoop(true)))
      decreases c, 1, 0, 0
    {
      hide Extends, Stage, Emits, Framed, Expects, Agrees, Distinct, BreaksOk, EmitProgram, ShapeProgram, AcceptsProgram, ForHead,
      JumpTo, Op, OpConst, Join2, Plain;
      var loopTop: nat;
      ok, exit, loopTop := CompileForHead(c, brk + JUMP_SIZE);
      s := Snap();
      if !ok { return; }
      ok := CompileForBody(c, loopTop, brk);
    }

    /** Everything in front of a for-loop's body; the exit jump stays open. */
    method CompileForHead(c: Cmd, ghost target: nat) returns (ok: bool, exit: nat, top: nat)
      requires Valid() && c.For?
      modifies this
      ensures !ok ==> |pool| == POOL_MAX
      ensures ok ==> Valid() && open == old(open) + {exit} && exit !in old(open) && Expects(sym, exit, target)
      ensures ok ==> top == old(|code|) + |ForHead(c.items, locals)| && |code| == top + 10
      ensures ok ==> X() == old(X()) && L() == old(L()) && loops == old(loops)
      ensures ok ==> Extends(old(Snap()), Snap().(open := old(open)),
                             Plain(ForHead(c.items, locals)
                                   + (Op(GET_NEXT_ITER) + (Op(DUP) + (JumpTo(JMP_NONE, top + 2, target) + OpConst(SET_VAR, c.name))))))
    {
      hide Extends, Stage, Emits, Framed, Expects, Agrees, Distinct, BreaksOk, ForHead;
      exit, top := 0, 0;
      ghost var s0 := Snap();
      ghost var base, head := |code|, ForHead(c.items, locals);
      ghost var none, bind := JumpTo(JMP_NONE, base + |head| + 2, target), OpConst(SET_VAR, c.name);
      ghost var total := Plain(head + (Op(GET_NEXT_ITER) + (Op(DUP) + (none + bind))));
      Begin(s0, total);
      var index: nat;
      index, ok := AddConst(c.name);
      if !ok { return; }
      ok := CompileItems(c.items);
      if !ok { return; }
      PlainDefs(builtins, s0, Snap(), head);
      PlainStep(s0, s0, Snap(), head, Plain(Op(GET_NEXT_ITER) + (Op(DUP) + (none + bind))), total);
      top := |code|;
      ghost var s := Snap();
      ok, exit := CompileBind(c.name, target);
      if !ok { return; }
      PlainDefs(builtins, s, Snap(), Op(GET_NEXT_ITER) + (Op(DUP) + (none + bind)));
      BeforeNothing(Op(GET_NEXT_ITER) + (Op(DUP) + (none + bind)));
      HoleStep(s0, s, Snap(), Op(GET_NEXT_ITER) + (Op(DUP) + (none + bind)), NOTHING, total);
      Finish(s0, Snap(), NOTHING, total);
      Extending(s0, Snap().(open := s0.open), total);
    }

    /** The top of a for-loop: bind the next item to the variable, or leave. */
    method CompileBind(name: string, ghost target: nat) returns (ok: bool, exit: nat)
      requires Valid()
      modifies this`code, this`pool, this`sym, this`open
      ensures !ok ==> |pool| == POOL_MAX
      ensures ok ==> Valid() && open == old(open) + {exit} && exit !in old(open) && Expects(sym, exit, target)
      ensures ok ==> Extends(old(Snap()), Snap().(open := old(open)),
                             Plain(Op(GET_NEXT_ITER)
                                   + (Op(DUP) + (JumpTo(JMP_NONE, old(|code|) + 2, target) + OpConst(SET_VAR, name)))))
    {
      hide Extends, Stage, Emits, Framed, Expects, Agrees, Distinct, BreaksOk;
      ghost var s0 := Snap();
      ghost var none, bind := JumpTo(JMP_NONE, |code| + 2, target), OpConst(SET_VAR, name);
      ghost var total := Plain(Op(GET_NEXT_ITER) + (Op(DUP) + (none + bind)));
      Begin(s0, total);
      I0(GET_NEXT_ITER);
      PlainSize(s0, Snap(), Op(GET_NEXT_ITER));
      PlainStep(s0, s0, Snap(), Op(GET_NEXT_ITER), Plain(Op(DUP) + (none + bind)), total);
      ghost var s := Snap();
      I0(DUP);
      PlainSize(s, Snap(), Op(DUP));
      PlainStep(s0, s, Snap(), Op(DUP), Plain(none + bind), total);
      s := Snap();
      exit := EmitJump(JMP_NONE, target);
      HoleStep(s0, s, Snap(), none, Plain(bind), total);
      s := Snap();
      ok := ConstInstr(SET_VAR, name);
      if !ok { return; }
      PlainMore(s, Snap(), bind);
      HoleLater(s.sym, sym, exit, target);
      LastStage(s0, s, Snap(), Plain(bind), total);
      Finish(s0, Snap(), NOTHING, total);
      Extending(s0, Snap().(open := s0.open), total);
    }

    /** The body of a for-loop and the jump back, inside the open loop. */
    method CompileForBody(c: Cmd, top: nat, ghost brk: nat) returns (ok: bool)
      requires Valid() && c.For?
      requires brk == |code| + ShapeProgram(c.body, X().InLoop(true)).size + JUMP_SIZE
      modifies this
      ensures ok ==> Valid() && open == old(open) && old(sym) <= sym && |code| == brk && Framed(old(Snap()), Snap())
      ensures ok ==> L() == old(L()) && X() == old(X()).With(ShapeProgram(c.body, old(X()).InLoop(true)).names)
      ensures ok ==> Emits(old(Snap()), Snap(),
                           Join2(EmitProgram(c.body, old(|code|), old(X()).InLoop(true), old(L()) + [Loop(top, brk)]),
                                 Plain(JumpTo(JMP, brk - JUMP_SIZE, top))))
      ensures ok ==> old(|loops|) < LOOP_MAX && AcceptsProgram(c.body, old(X()).InLoop(true))
      ensures !ok ==> |pool| == POOL_MAX || !(old(|loops|) < LOOP_MAX && AcceptsProgram(c.body, old(X()).InLoop(true)))
      decreases c, 0
    {
      hide Extends, Stage, Emits, Framed, Expects, Agrees, Distinct, BreaksOk, EmitProgram, ShapeProgram, AcceptsProgram;
      ghost var s, li := Snap(), LoopInfo(top, true, []);
      ghost var x, l := X().InLoop(true), L() + [Loop(top, brk)];
      ghost var e, back := EmitProgram(c.body, |code|, x, l), JumpTo(JMP, brk - JUMP_SIZE, top);
      ok := PushLoop(top, true, brk);
      if !ok { return; }
      ghost var s1 := Snap();
      OpenedContext(builtins, s, top, true, brk);
      Begin(s1, Join2(e, Plain(back)));
      ok := CompileProgram(c.body);
      if !ok { return; }
      JoinStep(s1, s1, Snap(), e, Plain(back), Join2(e, Plain(back)));
      JumpBack(JMP, top, s1, Join2(e, Plain(back)));
      ghost var s2 := Snap();
      FramedLoops(s1, s2);
      PopLoop();
      LoopStep(s, li, brk, s2, Snap(), Join2(e, Plain(back)));
      EmitsFacts(s, Snap(), Join2(e, Plain(back)));
      LaterContext(builtins, s, Snap(), Join2(e, Plain(back)));
    }

    /** The words of a for-loop and its iterator. */
    method CompileItems(items: seq<Word>) returns (ok: bool)
      requires Valid()
      modifies this`code, this`pool, this`sym
      ensures Valid() && (!ok ==> |pool| == POOL_MAX)
      ensures ok ==> Extends(old(Snap()), Snap(), Plain(ForHead(items, locals)))
    {
      hide Extends, Stage, Emits, Framed, Expects, Agrees, Distinct, BreaksOk, EmitItems, EmitArgs;
      ghost var s0, total := Snap(), Plain(ForHead(items, locals));
      Begin(s0, total);
      ok := CompileItemWords(items);
      if !ok { return; }
      PlainStep(s0, s0, Snap(), EmitItems(items, locals), Plain(Op16(INIT_ITER, 1)), total);
      ghost var s := Snap();
      I16(INIT_ITER, 1);
      LastPlain(s0, s, Snap(), Op16(INIT_ITER, 1), total);
    }

    method CompileItemWords(items: seq<Word>) returns (ok: bool)
      requires Valid()
      modifies this`code, this`pool, this`sym
      ensures Valid() && (!ok ==> |pool| == POOL_MAX)
      ensures ok ==> Extends(old(Snap()), Snap(), Plain(EmitItems(items, locals)))
    {
      hide Extends, Stage, Emits, Framed, Expects, Agrees, Distinct, BreaksOk, EmitArgs;
      ok := true;
      if items == [] {
        I0(EXPAND_ARGS);
      } else {
        ok := CompileArgs(items, false);
      }
    }

    /** Behind the backward jump: a break skips the POP of the exhausted loop, and both pop the iterator. */
    method CompileForEnd(exit: nat, ghost s0: Snapshot, ghost total: Emitted, ghost shape: Shape)
      requires Valid() && open == s0.open + {exit} && exit !in s0.open
      requires Stage(s0, Snap(), Plain(JumpTo(JMP, |code|, |code| + JUMP_SIZE + 1) + (Op(POP) + Op(POP))), total)
      requires Expects(sym, exit, |code| + JUMP_SIZE)
      requires Fits(total, shape) && |s0.targets| == |s0.loops|
      modifies this`code, this`sym, this`open
      ensures Valid() && Extends(s0, Snap(), total) && |code| == |s0.sym| + shape.size
      ensures X() == StaticOf(builtins, s0).With(shape.names) && L() == LoopsOf(s0)
    {
      hide Extends, Stage, Emits, Framed, Expects, Agrees, Distinct, BreaksOk;
      ghost var brk, s := |code|, Snap();
      ghost var jump := JumpTo(JMP, brk, brk + JUMP_SIZE + 1);
      var skip := EmitJump(JMP, brk + JUMP_SIZE + 1);
      PlainDefs(builtins, s, Snap(), jump);
      HoleStep(s0, s, Snap(), jump, Plain(Op(POP) + Op(POP)), total);
      HoleLater(s.sym, sym, exit, brk + JUMP_SIZE);
      s := Snap();
      PatchHere(exit);
      PatchStage(s0, s, Snap(), Plain(Op(POP) + Op(POP)), total);
      s := Snap();
      I0(POP);
      PlainDefs(builtins, s, Snap(), Op(POP));
      PlainStep(s0, s, Snap(), Op(POP), Plain(Op(POP)), total);
      HoleLater(s.sym, sym, skip, brk + JUMP_SIZE + 1);
      s := Snap();
      PatchHere(skip);
      PatchStage(s0, s, Snap(), Plain(Op(POP)), total);
      s := Snap();
      I0(POP);
      LastStage(s0, s, Snap(), Plain(Op(POP)), total);
      Closed(builtins, s0, Snap(), NOTHING, total, shape);
    }

    /** The condition's offset is recorded as the loop's continue target when the body has been compiled already. */
    method SetContinue(cont: nat)
      requires Valid() && |loops| > 0
      modifies this`loops
      ensures Valid()
      ensures Snap() == old(Snap()).(loops := old(loops)[old(|loops|) - 1 := old(loops)[old(|loops|) - 1].(cont := cont)])
    {
      ghost var loops0 := loops;
      loops := loops[|loops| - 1 := loops[|loops| - 1].(cont := cont)];
      SamePending(open, loops0, loops);
      AgreesMore(pool, code, sym, open, loops0, open, loops);
    }

    /** compile_while_until */
    method CompileWhile(c: Cmd) returns (ok: bool)
      requires Valid() && c.While?
      modifies this
      ensures ok ==> Valid() && Extends(old(Snap()), Snap(), EmitCmd(c, old(|code|), old(X()), old(L())))
      ensures ok ==> |code| == old(|code|) + ShapeCmd(c, old(X())).size && X() == old(X()).With(ShapeCmd(c, old(X())).names) && L() == old(L())
      ensures ok ==> AcceptsCmd(c, old(X()))
      ensures !ok ==> |pool| == POOL_MAX || !AcceptsCmd(c, old(X()))
      decreases c, 1
    {
      hide Extends, Stage, Emits, Framed, Expects, Agrees, Distinct, BreaksOk, EmitProgram, ShapeProgram, AcceptsProgram, EmitGuard, WhileBodyStatic, WhileAgainStatic, EmitWhile,
      ShapeCmd, EmitCmd, AcceptsCmd, JumpTo;
      WhileShape(c, |code|, X(), L());
      ghost var s0, x, l, base, total, shape := Snap(), X(), L(), |code|, EmitWhile(c, |code|, X(), L()), ShapeCmd(c, X());
      ghost var start, brk, inner := WhileStart(c, base, x), WhileBreak(c, base, x), WhileLoops(c, base, x, l);
      ghost var first := EmitGuard(c.cond, base, x, l);
      ghost var body := EmitProgram(c.body, start, WhileBodyStatic(c, x), inner);
      ghost var again := EmitGuard(c.cond, start + |body.cells|, WhileAgainStatic(c, x), inner);
      ghost var out, back := JumpTo(ExitOp(c.until), start - JUMP_SIZE, brk + JUMP_SIZE), JumpTo(AgainOp(c.until), brk - JUMP_SIZE, start);
      ghost var loop := Join2(body, Join2(again, Plain(back)));
      ghost var tail := JumpTo(JMP, brk, brk + JUMP_SIZE + 1) + Op(STATUS_ZERO);
      Begin(s0, total);
      WhileJoin(c, base, x, l);
      ok := CompileGuard(c.cond);
      if !ok { return; }
      JoinStep(s0, s0, Snap(), first, Before(out, Join2(loop, Plain(tail))), total);
      var firstExit := OpenJump(ExitOp(c.until), brk + JUMP_SIZE, s0, Join2(loop, Plain(tail)), total);
      ghost var s := Snap();
      BodyStatics(c, x);
      ok := CompileWhileBody(c, x, brk);
      if !ok { return; }
      Advance(s0, s, Snap(), loop, Plain(tail), total);
      HoleLater(s.sym, sym, firstExit, brk + JUMP_SIZE);
      CompileWhileEnd(firstExit, s0, total, shape);
    }

    /** Body, second copy of the condition and the jump back, inside the open loop. `x` is the context before the loop. */
    method CompileWhileBody(c: Cmd, ghost x: Static, ghost brk: nat) returns (ok: bool)
      requires Valid() && c.While? && X().InLoop(false) == WhileBodyStatic(c, x)
      requires brk == |code| + ShapeProgram(c.body, WhileBodyStatic(c, x)).size
                      + ShapeProgram(c.cond, WhileAgainStatic(c, x)).size + 2 + JUMP_SIZE
      modifies this
      ensures ok ==> Valid() && open == old(open) && old(sym) <= sym && |code| == brk && Framed(old(Snap()), Snap())
      ensures ok ==> var l := old(L()) + [Loop(0, brk)];
                     var body := EmitProgram(c.body, old(|code|), WhileBodyStatic(c, x), l);
                     var again := EmitGuard(c.cond, old(|code|) + |body.cells|, WhileAgainStatic(c, x), l);
                     Emits(old(Snap()), Snap(),
                           Join2(body, Join2(again, Plain(JumpTo(AgainOp(c.until), brk - JUMP_SIZE, old(|code|))))))
      ensures ok ==> old(|loops|) < LOOP_MAX && AcceptsProgram(c.body, WhileBodyStatic(c, x))
                     && AcceptsProgram(c.cond, WhileAgainStatic(c, x))
      ensures !ok ==> |pool| == POOL_MAX
                      || !(old(|loops|) < LOOP_MAX && AcceptsProgram(c.body, WhileBodyStatic(c, x))
                           && AcceptsProgram(c.cond, WhileAgainStatic(c, x)))
      decreases c, 0
    {
      hide Extends, Stage, Emits, Framed, Expects, Agrees, Distinct, BreaksOk, Before, Join2, JumpTo, EmitProgram, ShapeProgram, AcceptsProgram, EmitGuard, WhileBodyStatic, WhileAgainStatic;
      ghost var s, li, l := Snap(), LoopInfo(0, false, []), L() + [Loop(0, brk)];
      var start := |code|;
      ghost var body := EmitProgram(c.body, start, WhileBodyStatic(c, x), l);
      ghost var again := EmitGuard(c.cond, start + |body.cells|, WhileAgainStatic(c, x), l);
      ghost var back := JumpTo(AgainOp(c.until), brk - JUMP_SIZE, start);
      ghost var total := Join2(body, Join2(again, Plain(back)));
      ok := PushLoop(0, false, brk);
      if !ok { return; }
      ghost var s1 := Snap();
      OpenedContext(builtins, s, 0, false, brk);
      Begin(s1, total);
      ok := CompileProgram(c.body);
      if !ok { return; }
      AgainStatics(c, x);
      JoinStep(s1, s1, Snap(), body, Join2(again, Plain(back)), total);
      var continueTarget := |code|;
      ghost var s2 := Snap();
      ok := CompileGuard(c.cond);
      if !ok { return; }
      JoinStep(s1, s2, Snap(), again, Plain(back), total);
      JumpBack(AgainOp(c.until), start, s1, total);
      s2 := Snap();
      FramedLoops(s1, s2);
      SetContinue(continueTarget);
      PopLoop();
      LoopStep(s, li, brk, s2, Snap(), total);
      EmitsFacts(s, Snap(), total);
    }

    /** A loop that was never entered ends with status 0; every other exit jumps over that. */
    method CompileWhileEnd(firstExit: nat, ghost s0: Snapshot, ghost total: Emitted, ghost shape: Shape)
      requires Valid() && open == s0.open + {firstExit} && firstExit !in s0.open
      requires Stage(s0, Snap(), Plain(JumpTo(JMP, |code|, |code| + JUMP_SIZE + 1) + Op(STATUS_ZERO)), total)
      requires Expects(sym, firstExit, |code| + JUMP_SIZE)
      requires Fits(total, shape) && |s0.targets| == |s0.loops|
      modifies this`code, this`sym, this`open
      ensures Valid() && Extends(s0, Snap(), total) && |code| == |s0.sym| + shape.size
      ensures X() == StaticOf(builtins, s0).With(shape.names) && L() == LoopsOf(s0)
    {
      hide Extends, Stage, Emits, Framed, Expects, Agrees, Distinct, BreaksOk;
      ghost var end, s := |code| + JUMP_SIZE + 1, Snap();
      ghost var jump := JumpTo(JMP, |code|, end);
      var skip := EmitJump(JMP, end);
      PlainDefs(builtins, s, Snap(), jump);
      HoleStep(s0, s, Snap(), jump, Plain(Op(STATUS_ZERO)), total);
      HoleLater(s.sym, sym, firstExit, end - 1);
      s := Snap();
      PatchHere(firstExit);
      PatchStage(s0, s, Snap(), Plain(Op(STATUS_ZERO)), total);
      s := Snap();
      I0(STATUS_ZERO);
      PlainDefs(builtins, s, Snap(), Op(STATUS_ZERO));
      LastStage(s0, s, Snap(), Plain(Op(STATUS_ZERO)), total);
      HoleLater(s.sym, sym, skip, end);
      s := Snap();
      PatchHere(skip);
      PatchStage(s0, s, Snap(), NOTHING, total);
      Closed(builtins, s0, Snap(), NOTHING, total, shape);
    }

    /** compile_case */
    method CompileCase(subject: Word, arms: Arms) returns (ok: bool)
      requires Valid()
      modifies this
      ensures ok ==> Valid() && Extends(old(Snap()), Snap(), EmitArms(arms, old(|code|), old(X()), old(L()), subject, old(|code|) + ShapeArms(arms, old(X()), subject).size))
      ensures ok ==> |code| == old(|code|) + ShapeArms(arms, old(X()), subject).size && X() == old(X()).With(ShapeArms(arms, old(X()), subject).names) && L() == old(L())
      ensures ok ==> AcceptsArms(arms, old(X()), subject)
      ensures !ok ==> |pool| == POOL_MAX || !AcceptsArms(arms, old(X()), subject)
      decreases arms, 0
    {
      hide Extends, Stage, Emits, Framed, Expects, Agrees, Distinct, BreaksOk, EmitArms, ShapeArms, AcceptsArms;
      ghost var s0, x0, l0, shape := Snap(), X(), L(), ShapeArms(arms, X(), subject);
      ghost var end := |code| + shape.size;
      ghost var total := EmitArms(arms, |code|, x0, l0, subject, end);
      ok := true;
      var ends: seq<nat> := [];
      var cur := arms;
      Begin(s0, total);
      while cur.Arm?
        invariant Valid() && ok && open == s0.open + SetOf(ends) && SetOf(ends) !! s0.open && L() == l0
        invariant cur == arms || cur < arms
        invariant forall p :: p in ends ==> Expects(sym, p, end)
        invariant |code| + ShapeArms(cur, X(), subject).size == end
        invariant Stage(s0, Snap(), EmitArms(cur, |code|, X(), L(), subject, end), total)
        invariant AcceptsArms(arms, x0, subject) == AcceptsArms(cur, X(), subject)
        decreases cur
      {
        ghost var s := Snap();
        var more: seq<nat>;
        ok, more := CompileArm(cur, subject, s0, total, end);
        if !ok { return; }
        HolesLater(s.sym, sym, ends, end);
        assert SetOf(ends + more) == SetOf(ends) + SetOf(more);
        ends := ends + more;
        cur := cur.rest;
      }
      CompileCaseEnd(ends, s0, total, shape, end, subject);
      AcceptsNoArms(X(), subject);
    }

    method CompileCaseEnd(ends: seq<nat>, ghost s0: Snapshot, ghost total: Emitted, ghost shape: Shape, ghost end: nat, ghost subject: Word)
      requires Valid() && open == s0.open + SetOf(ends) && SetOf(ends) !! s0.open
      requires forall p :: p in ends ==> Expects(sym, p, end)
      requires |code| + ShapeArms(NoArms, X(), subject).size == end
      requires Stage(s0, Snap(), EmitArms(NoArms, |code|, X(), L(), subject, end), total)
      requires Fits(total, shape) && |s0.targets| == |s0.loops|
      modifies this`code, this`sym, this`open
      ensures Valid() && Extends(s0, Snap(), total) && |code| == |s0.sym| + shape.size
      ensures X() == StaticOf(builtins, s0).With(shape.names) && L() == LoopsOf(s0)
    {
      hide Extends, Stage, Emits, Framed, Expects, Agrees, Distinct, BreaksOk;
      ghost var s := Snap();
      ghost var jump := JumpTo(JMP, |code| + 1, end);
      I0(STATUS_ZERO);
      PlainDefs(builtins, s, Snap(), Op(STATUS_ZERO));
      PlainStep(s0, s, Snap(), Op(STATUS_ZERO), Plain(jump), total);
      HolesLater(s.sym, sym, ends, end);
      s := Snap();
      var skip := EmitJump(JMP, end);
      PlainDefs(builtins, s, Snap(), jump);
      BeforeNothing(jump);
      HoleStep(s0, s, Snap(), jump, NOTHING, total);
      HolesLater(s.sym, sym, ends, end);
      assert SetOf(ends + [skip]) == SetOf(ends) + {skip};
      CloseEnds(ends + [skip], s0, total, shape);
    }

    /** The tests of one item; every match jumps to `body`. */
    method CompilePatterns(ps: seq<Word>, subject: Word, ghost body: nat) returns (ok: bool, jumps: seq<nat>)
      requires Valid()
      modifies this`code, this`pool, this`sym, this`open
      ensures !ok ==> |pool| == POOL_MAX
      ensures ok ==> Valid() && open == old(open) + SetOf(jumps) && SetOf(jumps) !! old(open)
      ensures ok ==> (forall p :: p in jumps ==> Expects(sym, p, body))
      ensures ok ==> Extends(old(Snap()), Snap().(open := old(open)), Plain(EmitPatterns(ps, old(|code|), subject, locals, body)))
      ensures ok ==> X() == old(X()) && L() == old(L())
    {
      hide Extends, Stage, Emits, Framed, Expects, Agrees, Distinct, BreaksOk, EmitWord, EmitPatterns;
      ghost var s0, x, l, total := Snap(), X(), L(), Plain(EmitPatterns(ps, |code|, subject, locals, body));
      ok, jumps := true, [];
      assert ps[0..] == ps;
      Begin(s0, total);
      for i := 0 to |ps|
        invariant Valid() && ok && open == s0.open + SetOf(jumps) && SetOf(jumps) !! s0.open && X() == x && L() == l
        invariant forall p :: p in jumps ==> Expects(sym, p, body)
        invariant Stage(s0, Snap(), Plain(EmitPatterns(ps[i..], |code|, subject, locals, body)), total)
      {
        ghost var s := Snap();
        var p: nat;
        ok, p := CompilePattern(ps, i, subject, body, s0, total);
        if !ok { return; }
        HolesLater(s.sym, sym, jumps, body);
        assert SetOf(jumps + [p]) == SetOf(jumps) + {p};
        jumps := jumps + [p];
      }
      NoPatterns(ps, |code|, subject, locals, body);
      Finish(s0, Snap(), Plain([]), total);
      Extending(s0, Snap().(open := s0.open), total);
    }

    /** One pattern and the jump to the body, which stays open. */
    method CompilePattern(ps: seq<Word>, i: nat, subject: Word, ghost body: nat, ghost s0: Snapshot, ghost total: Emitted)
      returns (ok: bool, p: nat)
      requires Valid() && i < |ps| && Stage(s0, Snap(), Plain(EmitPatterns(ps[i..], |code|, subject, locals, body)), total)
      modifies this`code, this`pool, this`sym, this`open
      ensures !ok ==> |pool| == POOL_MAX
      ensures ok ==> Valid() && open == old(open) + {p} && p !in old(open) && Expects(sym, p, body) && old(sym) <= sym
      ensures ok ==> Stage(s0, Snap(), Plain(EmitPatterns(ps[i + 1..], |code|, subject, locals, body)), total)
      ensures ok ==> X() == old(X()) && L() == old(L())
    {
      hide Extends, Stage, Emits, Framed, Expects, Agrees, Distinct, BreaksOk, EmitWord, EmitPatterns;
      p := 0;
      ghost var s := Snap();
      ghost var t1, t2 := EmitWord(subject, locals), EmitWord(ps[i], locals);
      ghost var size := |t1| + |t2| + 1;
      ghost var jump := JumpTo(JMP_TRUE, |code| + size, body);
      ghost var rest := EmitPatterns(ps[i + 1..], |code| + size + JUMP_SIZE, subject, locals, body);
      PatternsJoin(ps, i, |code|, subject, locals, body);
      ok := CompileMatch(ps[i], subject);
      if !ok { return; }
      PlainDefs(builtins, s, Snap(), t1 + (t2 + Op(PATTERN_MATCH)));
      MatchAssoc(t1, t2, jump + rest);
      PlainStep(s0, s, Snap(), t1 + (t2 + Op(PATTERN_MATCH)), Plain(jump + rest), total);
      ghost var s1 := Snap();
      p := EmitJump(JMP_TRUE, body);
      PlainDefs(builtins, s1, Snap(), jump);
      HoleStep(s0, s1, Snap(), jump, Plain(rest), total);
    }

    method CompileMatch(pattern: Word, subject: Word) returns (ok: bool)
      requires Valid()
      modifies this`code, this`pool, this`sym
      ensures Valid() && (!ok ==> |pool| == POOL_MAX)
      ensures ok ==> Extends(old(Snap()), Snap(),
                             Plain(EmitWord(subject, locals) + (EmitWord(pattern, locals) + Op(PATTERN_MATCH))))
    {
      hide Extends, Stage, Emits, Framed, Expects, Agrees, Distinct, BreaksOk, EmitWord;
      ghost var s0 := Snap();
      ghost var t1, t2 := EmitWord(subject, locals), EmitWord(pattern, locals);
      ghost var total := Plain(t1 + (t2 + Op(PATTERN_MATCH)));
      Begin(s0, total);
      ok := CompileWord(subject);
      if !ok { return; }
      PlainStep(s0, s0, Snap(), t1, Plain(t2 + Op(PATTERN_MATCH)), total);
      ghost var s := Snap();
      ok := CompileWord(pattern);
      if !ok { return; }
      PlainStep(s0, s, Snap(), t2, Plain(Op(PATTERN_MATCH)), total);
      s := Snap();
      I0(PATTERN_MATCH);
      LastPlain(s0, s, Snap(), Op(PATTERN_MATCH), total);
    }

    /** One item: its tests, its body and, for `;;`, a jump to the end that stays open. */
    method CompileArm(n: Arms, subject: Word, ghost s0: Snapshot, ghost total: Emitted, ghost end: nat)
      returns (ok: bool, ends: seq<nat>)
      requires Valid() && n.Arm? && Stage(s0, Snap(), EmitArms(n, |code|, X(), L(), subject, end), total)
      requires s0.open <= open
      modifies this
      ensures ok ==> Valid() && open == old(open) + SetOf(ends) && SetOf(ends) !! old(open) && L() == old(L())
      ensures ok ==> (forall p :: p in ends ==> Expects(sym, p, end)) && old(sym) <= sym
      ensures ok ==> Stage(s0, Snap(), EmitArms(n.rest, |code|, X(), L(), subject, end), total)
      ensures ok ==> |code| + ShapeArms(n.rest, X(), subject).size == old(|code|) + ShapeArms(n, old(X()), subject).size
      ensures ok ==> AcceptsArms(n.rest, X(), subject) == AcceptsArms(n, old(X()), subject)
      ensures !ok ==> |pool| == POOL_MAX || !AcceptsArms(n, old(X()), subject)
      decreases n, -1
    {
      hide Extends, Stage, Emits, Framed, Expects, Agrees, Distinct, BreaksOk, EmitProgram, ShapeProgram, AcceptsProgram, EmitArms, ShapeArms, AcceptsArms, EmitPatterns, PatternsSize,
      JumpTo, EmitSkip, EmitEnd, Before, Join2, SkipSize;
      ghost var s, x, l, base := Snap(), X(), L(), |code|;
      ghost var skipAt := base + PatternsSize(n.patterns, subject, x.locals);
      ghost var start := skipAt + SkipSize(n.patterns);
      ghost var next := NextArm(n, start, x);
      ghost var x1 := x.With(ShapeProgram(n.body, x).names);
      ghost var t1, t2 := EmitPatterns(n.patterns, base, subject, x.locals, start), EmitSkip(n.patterns, skipAt, next);
      ghost var e, t3 := EmitProgram(n.body, start, x, l), EmitEnd(n.ends, next - EndSize(n.ends), end);
      ghost var rest := EmitArms(n.rest, next, x1, l, subject, end);
      ArmJoin(n, base, x, l, subject, end);
      ArmShape(n, x, subject, base);
      ends := [];
      var skip: nat;
      ok, skip := CompileTests(n.patterns, subject, start, next);
      if !ok { return; }
      PlainDefs(builtins, s, Snap(), t1 + t2);
      BeforeAssoc(t1, t2, Join2(e, Before(t3, rest)));
      HoleStep(s0, s, Snap(), t1 + t2, Join2(e, Before(t3, rest)), total);
      ghost var s3 := Snap();
      ok, ends := CompileArmBody(n.body, n.ends, s0, total, rest, end);
      if !ok { return; }
      ghost var s5 := Snap();
      if n.patterns != [] {
        HoleLater(s3.sym, sym, skip, next);
        PatchHere(skip);
      }
      PatchStage(s0, s5, Snap(), rest, total);
      PatchedContext(builtins, s5, Snap());
    }

    method CompileArmBody(body: Program, ends: bool, ghost s0: Snapshot, ghost total: Emitted, ghost rest: Emitted, ghost end: nat)
      returns (ok: bool, jumps: seq<nat>)
      requires Valid()
      requires Stage(s0, Snap(),
                     Join2(EmitProgram(body, |code|, X(), L()),
                           Before(EmitEnd(ends, |code| + ShapeProgram(body, X()).size, end), rest)), total)
      modifies this
      ensures ok ==> Valid() && open == old(open) + SetOf(jumps) && SetOf(jumps) !! old(open) && L() == old(L())
      ensures ok ==> (forall p :: p in jumps ==> Expects(sym, p, end)) && old(sym) <= sym
      ensures ok ==> Stage(s0, Snap(), rest, total)
      ensures ok ==> |code| == old(|code|) + ShapeProgram(body, old(X())).size + EndSize(ends)
      ensures ok ==> X() == old(X()).With(ShapeProgram(body, old(X())).names)
      ensures ok ==> AcceptsProgram(body, old(X()))
      ensures !ok ==> |pool| == POOL_MAX || !AcceptsProgram(body, old(X()))
      decreases body, 1
    {
      hide Extends, Stage, Emits, Framed, Expects, Agrees, Distinct, BreaksOk, EmitProgram, ShapeProgram, AcceptsProgram, EmitEnd, Before, Join2, EndSize;
      jumps := [];
      ghost var s, e := Snap(), EmitProgram(body, |code|, X(), L());
      ghost var t := EmitEnd(ends, |code| + ShapeProgram(body, X()).size, end);
      ok := CompileProgram(body);
      if !ok { return; }
      JoinStep(s0, s, Snap(), e, Before(t, rest), total);
      ghost var s1 := Snap();
      jumps := CompileArmEnd(ends, end);
      PlainDefs(builtins, s1, Snap(), t);
      HoleStep(s0, s1, Snap(), t, rest, total);
    }

    /** The jump behind a body that ends with `;;`. */
    method CompileArmEnd(ends: bool, ghost end: nat) returns (jumps: seq<nat>)
      requires Valid()
      modifies this`code, this`sym, this`open
      ensures Valid() && open == old(open) + SetOf(jumps) && SetOf(jumps) !! old(open)
      ensures forall p :: p in jumps ==> Expects(sym, p, end)
      ensures Extends(old(Snap()), Snap().(open := old(open)), Plain(EmitEnd(ends, old(|code|), end)))
    {
      hide Extends, Stage, Emits, Framed, Expects, Agrees, Distinct, BreaksOk;
      jumps := [];
      if ends {
        var p := EmitJump(JMP, end);
        jumps := [p];
      } else {
        ExtendsNothing(Snap());
      }
    }

    /** The tests of an item, and behind them the jump over its body, which stays open. */
    method CompileTests(ps: seq<Word>, subject: Word, ghost start: nat, ghost next: nat) returns (ok: bool, skip: nat)
      requires Valid() && start == |code| + PatternsSize(ps, subject, locals) + SkipSize(ps)
      modifies this`code, this`pool, this`sym, this`open
      ensures !ok ==> |pool| == POOL_MAX
      ensures ok ==> Valid() && |code| == start
      ensures ok ==> (if ps == [] then open == old(open)
                      else open == old(open) + {skip} && skip !in old(open) && Expects(sym, skip, next))
      ensures ok ==> Extends(old(Snap()), Snap().(open := old(open)),
                             Plain(EmitPatterns(ps, old(|code|), subject, locals, start)
                                   + EmitSkip(ps, old(|code|) + PatternsSize(ps, subject, locals), next)))
      ensures ok ==> X() == old(X()) && L() == old(L())
    {
      hide Extends, Stage, Emits, Framed, Expects, Agrees, Distinct, BreaksOk, EmitPatterns, PatternsSize;
      skip := 0;
      ghost var s0, skipAt := Snap(), |code| + PatternsSize(ps, subject, locals);
      ghost var t1, t2 := EmitPatterns(ps, |code|, subject, locals, start), EmitSkip(ps, skipAt, next);
      Begin(s0, Plain(t1 + t2));
      var jumps: seq<nat>;
      ok, jumps := CompilePatterns(ps, subject, start);
      if !ok { return; }
      PlainDefs(builtins, s0, Snap(), t1);
      HoleStep(s0, s0, Snap(), t1, Plain(t2), Plain(t1 + t2));
      ghost var s1 := Snap();
      if ps != [] {
        skip := EmitJump(JMP, next);
      } else {
        ExtendsNothing(s1);
      }
      PlainDefs(builtins, s1, Snap(), t2);
      BeforeNothing(t2);
      HoleStep(s0, s1, Snap(), t2, NOTHING, Plain(t1 + t2));
      HolesLater(s1.sym, sym, jumps, start);
      ghost var s2 := Snap();
      PatchAll(jumps);
      PatchStage(s0, s2, Snap(), NOTHING, Plain(t1 + t2));
      PatchedContext(builtins, s2, Snap());
      Finish(s0, Snap(), NOTHING, Plain(t1 + t2));
      Extending(s0, Snap().(open := s0.open), Plain(t1 + t2));
    }

    /** Enter a function in the table. */
    method Register(name: string, body: Cmd) returns (ok: bool)
      requires Valid()
      modifies this`funcs, this`defs, this`locals
      ensures ok == (old(|funcs|) < FUNC_MAX) && (!ok ==> unchanged(this))
      ensures ok ==> Valid() && Snap() == old(Snap()).(locals := LocalsCmd(body),
                                                       defs := old(defs) + [Def(name, body, |code|, old(X()).InFunction(name, body), old(L()))])
      ensures ok ==> X() == old(X()).InFunction(name, body) && L() == old(L())
    {
      hide Agrees, Distinct, BreaksOk;
      ok := |funcs| < FUNC_MAX;
      if ok {
        ghost var def := Def(name, body, |code|, X().InFunction(name, body), L());
        funcs := funcs + [Func(name, |code|)];
        assert Names(defs + [def]) == Names(defs) + [name];
        defs := defs + [def];
        locals := LocalsCmd(body);
      }
    }

    /** compile_funcdef: the body is compiled in place, behind a jump over it. */
    method CompileFuncDef(name: string, body: Cmd) returns (ok: bool)
      requires Valid()
      modifies this
      ensures ok ==> Valid() && Extends(old(Snap()), Snap(), EmitFuncDef(name, body, old(|code|), old(X()), old(L())))
      ensures ok ==> |code| == old(|code|) + ShapeCmd(FuncDef(name, body), old(X())).size && X() == old(X()).With(ShapeCmd(FuncDef(name, body), old(X())).names) && L() == old(L())
      ensures ok ==> AcceptsCmd(FuncDef(name, body), old(X()))
      ensures !ok ==> |pool| == POOL_MAX || !AcceptsCmd(FuncDef(name, body), old(X()))
      decreases body, 3
    {
      hide Extends, Stage, Emits, Framed, Expects, Agrees, Distinct, BreaksOk, EmitCmd, ShapeCmd, AcceptsCmd;
      ghost var s0, x, l, base := Snap(), X(), L(), |code|;
      ghost var x1 := x.InFunction(name, body);
      ghost var bs := ShapeCmd(body, x1);
      ghost var start := base + JUMP_SIZE;
      ghost var end := start + bs.size + 1;
      ghost var e, jump, def := EmitCmd(body, start, x1, l), JumpTo(JMP, base, end), Def(name, body, start, x1, l);
      ghost var total := EmitFuncDef(name, body, base, x, l);
      FuncDefShape(name, body, x);
      assert |x.fns| == |funcs|;
      var skip := EmitJump(JMP, end);
      PlainDefs(builtins, s0, Snap(), jump);
      ghost var s1 := Snap();
      var saved := locals;
      ok := Register(name, body);
      if !ok { return; }
      ghost var s2 := Snap();
      ok := CompileCmd(body);
      if !ok { return; }
      ghost var s3 := Snap();
      ExtendedFacts(s2, s3, e);
      I0(RET);
      PlainDefs(builtins, s3, Snap(), Op(RET));
      ExtendedFacts(s3, Snap(), Plain(Op(RET)));
      ghost var s4 := Snap();
      HoleLater(s1.sym, s3.sym, skip, end);
      HoleLater(s3.sym, s4.sym, skip, end);
      HoleFacts(s0, s1, jump);
      FuncStep(s0, s2, s3, s4, jump, def, e, Op(RET));
      locals := saved;
      PatchHere(skip);
      ghost var s6 := s4.(locals := s0.locals);
      BackOutside(s0, s6, Snap(), total);
      Settled(builtins, s0, Snap(), total, Shape(JUMP_SIZE + bs.size + 1, [name] + bs.names));
    }

    method CompileRedirected(rs: seq<Redir>, c: Cmd) returns (ok: bool)
      requires Valid()
      modifies this
      ensures ok ==> Valid() && Extends(old(Snap()), Snap(), EmitRedirected(rs, c, old(|code|), old(X()), old(L())))
      ensures ok ==> |code| == old(|code|) + ShapeCmd(Redirected(rs, c), old(X())).size && X() == old(X()).With(ShapeCmd(Redirected(rs, c), old(X())).names) && L() == old(L())
      ensures ok ==> AcceptsCmd(c, old(X()))
      ensures !ok ==> |pool| == POOL_MAX || !AcceptsCmd(c, old(X()))
      decreases c, 3
    {
      hide Extends, Stage, Emits, Framed, Expects, Agrees, Distinct, BreaksOk, EmitCmd, ShapeCmd, AcceptsCmd, EmitRedirsOpen;
      ghost var s0, x, l, base := Snap(), X(), L(), |code|;
      ghost var head := EmitRedirsOpen(rs, locals);
      ghost var e, total := EmitCmd(c, base + |head|, x, l), EmitRedirected(rs, c, base, x, l);
      RedirectedShape(rs, c, x);
      Begin(s0, total);
      ok := CompileRedirsOpen(rs);
      if !ok { return; }
      PlainDefs(builtins, s0, Snap(), head);
      PlainStep(s0, s0, Snap(), head, Join2(e, Plain(Op(REDIR_RESTORE))), total);
      ghost var s := Snap();
      ok := CompileCmd(c);
      if !ok { return; }
      JoinStep(s0, s, Snap(), e, Plain(Op(REDIR_RESTORE)), total);
      s := Snap();
      I0(REDIR_RESTORE);
      LastPlain(s0, s, Snap(), Op(REDIR_RESTORE), total);
      Settled(builtins, s0, Snap(), total, Shape(|head| + ShapeCmd(c, x).size + 1, ShapeCmd(c, x).names));
    }

    /** compile_command */
    method CompileCmd(c: Cmd) returns (ok: bool)
      requires Valid()
      modifies this
      ensures ok ==> Valid() && Extends(old(Snap()), Snap(), EmitCmd(c, old(|code|), old(X()), old(L())))
      ensures ok ==> |code| == old(|code|) + ShapeCmd(c, old(X())).size && X() == old(X()).With(ShapeCmd(c, old(X())).names) && L() == old(L())
      ensures ok ==> AcceptsCmd(c, old(X()))
      ensures !ok ==> |pool| == POOL_MAX || !AcceptsCmd(c, old(X()))
      decreases c, 2
    {
      hide Extends, Stage, Emits, Framed, Expects, Agrees, Distinct, BreaksOk, EmitProgram, ShapeProgram, AcceptsProgram, EmitClauses, ShapeClauses, AcceptsClauses, EmitArms, ShapeArms,
      AcceptsArms, EmitFor, EmitWhile, EmitFuncDef, EmitRedirected, EmitCond, ShapeCond, AcceptsSimple, EmitCommand,
      EmitLoopJump, EmitRedirsOpen;
      ghost var s0, x, l, base, total, shape := Snap(), X(), L(), |code|, EmitCmd(c, |code|, X(), L()), ShapeCmd(c, X());
      match c {
        case Simple(_, _, _) =>
          ok := CompileSimple(c);
          if ok { Settled(builtins, s0, Snap(), total, shape); }
        case If(cs) => ok := CompileIf(cs);
        case For(_, _, _) => ok := CompileFor(c);
        case While(_, _, _) => ok := CompileWhile(c);
        case Case(subject, arms) => ok := CompileCase(subject, arms);
        case Group(body) => ok := CompileProgram(body);
        case FuncDef(name, func) => ok := CompileFuncDef(name, func);
        case Bracket(e) =>
          ok := CompileCond(e);
          if ok { Settled(builtins, s0, Snap(), total, shape); }
        case Redirected(rs, cmd) => ok := CompileRedirected(rs, cmd);
      }
    }
  }
}
