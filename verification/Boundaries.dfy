/**
 Instruction boundaries. Read from its start, the code of every program falls into whole instructions, and every jump
 in it goes to the start of one of them (or to the end of the code).
 */
module Boundaries {
  import opened Bytes
  import opened Bytecode
  import opened Ast
  import opened Vm
  import opened Emit
  import opened Runs

  predicate IsJump(op: byte) {
    op == JMP || op == JMP_TRUE || op == JMP_FALSE || op == JMP_NONE
  }

  /** Reading instruction after instruction from `a` arrives exactly at `b`. */
  predicate Walk(m: Machine, a: nat, b: nat)
    requires b <= |m.code|
    decreases b - a
  {
    a == b || (a < b && Walk(m, a + 1 + OperandSize(m.code[a]), b))
  }

  function JumpTarget(m: Machine, p: nat): int
    requires p + 5 <= |m.code|
  {
    p + 5 + I32(m.code[p + 1..p + 5])
  }

  /** The jump at `p` goes to an instruction reached from `a`, or to one of `ext`. */
  predicate Lands(m: Machine, a: nat, p: nat, ext: set<nat>) {
    && p + 5 <= |m.code| && 0 <= JumpTarget(m, p) <= |m.code|
    && (Walk(m, a, JumpTarget(m, p)) || JumpTarget(m, p) in ext)
  }

  predicate Jumps(m: Machine, a: nat, b: nat, ext: set<nat>)
    requires b <= |m.code|
  {
    forall p :: a <= p < b && Walk(m, a, p) && IsJump(m.code[p]) ==> Lands(m, a, p, ext)
  }

  predicate Seg(m: Machine, a: nat, b: nat, ext: set<nat>) {
    a <= b <= |m.code| && Walk(m, a, b) && Jumps(m, a, b, ext)
  }

  lemma {:induction false} WalkTrans(m: Machine, a: nat, b: nat, c: nat)
    requires b <= |m.code| && c <= |m.code| && Walk(m, a, b) && Walk(m, b, c)
    ensures Walk(m, a, c)
    decreases b - a
  {
    WalkForward(m, b, c);
    if a < b {
      WalkForward(m, a + 1 + OperandSize(m.code[a]), b);
      WalkTrans(m, a + 1 + OperandSize(m.code[a]), b, c);
    }
  }

  lemma WalkForward(m: Machine, a: nat, b: nat)
    requires b <= |m.code| && Walk(m, a, b)
    ensures a <= b
  {
  }

  /** A walk that passes `b` goes through it if another walk from the same start does. */
  lemma {:induction false} WalkThrough(m: Machine, a: nat, b: nat, p: nat)
    requires b <= |m.code| && p <= |m.code| && Walk(m, a, b) && Walk(m, a, p) && b <= p
    ensures Walk(m, b, p)
    decreases b - a
  {
    if a < b {
      WalkForward(m, a + 1 + OperandSize(m.code[a]), b);
      WalkThrough(m, a + 1 + OperandSize(m.code[a]), b, p);
    }
  }

  lemma Glue(m: Machine, a: nat, b: nat, c: nat, ext: set<nat>)
    requires Seg(m, a, b, ext) && Seg(m, b, c, ext)
    ensures Seg(m, a, c, ext)
  {
    hide JumpTarget;
    WalkTrans(m, a, b, c);
    forall p | a <= p < c && Walk(m, a, p) && IsJump(m.code[p]) ensures Lands(m, a, p, ext) {
      if p >= b {
        WalkThrough(m, a, b, p);
        assert Lands(m, b, p, ext);
        if Walk(m, b, JumpTarget(m, p)) { WalkTrans(m, a, b, JumpTarget(m, p)); }
      }
    }
  }

  /** A target inside the segment need not be allowed for from outside. */
  lemma Absorb(m: Machine, a: nat, c: nat, ext: set<nat>, t: nat)
    requires Seg(m, a, c, ext + {t}) && t <= |m.code| && Walk(m, a, t)
    ensures Seg(m, a, c, ext)
  {
    hide JumpTarget;
    forall p | a <= p < c && Walk(m, a, p) && IsJump(m.code[p]) ensures Lands(m, a, p, ext) {
      assert Lands(m, a, p, ext + {t});
    }
  }

  lemma SegWalk(m: Machine, a: nat, b: nat, ext: set<nat>)
    requires Seg(m, a, b, ext)
    ensures a <= b <= |m.code| && Walk(m, a, b)
  {
  }

  lemma Empty(m: Machine, a: nat, ext: set<nat>)
    requires a <= |m.code|
    ensures Seg(m, a, a, ext)
  {
  }

  /** One instruction other than a jump. */
  lemma Instr(m: Machine, a: nat, op: byte, cells: seq<Cell>, ext: set<nat>)
    requires At(m, a, cells) && |cells| == 1 + OperandSize(op) && cells[0] == B(op) && !IsJump(op)
    ensures Seg(m, a, a + |cells|, ext)
  {
    assert Holds(m.pool, m.code[a + 0], cells[0]);
  }

  lemma JumpInstr(m: Machine, a: nat, op: byte, t: nat, ext: set<nat>)
    requires At(m, a, JumpTo(op, a, t)) && IsJump(op) && t <= |m.code| < TWO31 && t in ext
    ensures Seg(m, a, a + JUMP_SIZE, ext)
  {
    var off := t - (a + JUMP_SIZE);
    var k := JumpTo(op, a, t);
    assert Holds(m.pool, m.code[a + 0], k[0]);
    I32RoundTrip(off);
    forall i | 0 <= i < 4 ensures m.code[a + 1..a + 5][i] == Le32(off)[i] {
      assert k[1 + i] == Bs(Le32(off))[i];
      assert Holds(m.pool, m.code[a + (1 + i)], k[1 + i]);
    }
    assert m.code[a + 1..a + 5] == Le32(off);
    assert JumpTarget(m, a) == t;
  }

  // ---- straight code ----

  lemma {:induction false} PartsSeg(m: Machine, base: nat, w: Word, locals: set<string>, ext: set<nat>)
    requires At(m, base, EmitParts(w, locals))
    ensures Seg(m, base, base + |EmitParts(w, locals)|, ext)
    decreases |w|
  {
    hide Seg, At;
    if w == [] {
      AtBound(m, base, EmitParts(w, locals));
      Empty(m, base, ext);
    } else {
      var p := EmitPart(w[0], locals);
      AtSplit(m, base, p, EmitParts(w[1..], locals));
      Instr(m, base, match w[0] case Lit(_, _) => PUSH_CONST case Var(name, _) => (if name in locals then GET_LOCAL else GET_VAR) case Special(_, _) => GET_SPECIAL, p, ext);
      PartsSeg(m, base + |p|, w[1..], locals, ext);
      Glue(m, base, base + |p|, base + |EmitParts(w, locals)|, ext);
    }
  }

  lemma AtBound(m: Machine, base: nat, cells: seq<Cell>)
    requires At(m, base, cells)
    ensures base + |cells| <= |m.code|
  {
  }

  lemma WordSeg(m: Machine, base: nat, w: Word, locals: set<string>, ext: set<nat>)
    requires At(m, base, EmitWord(w, locals))
    ensures Seg(m, base, base + |EmitWord(w, locals)|, ext)
  {
    hide Seg, At, EmitParts;
    var parts, end := EmitParts(w, locals), EmitWordEnd(w);
    AtSplit(m, base, parts, end);
    PartsSeg(m, base, w, locals, ext);
    if end == [] {
      assert parts + end == parts;
    } else {
      Instr(m, base + |parts|, if |w| > 1 then CONCAT else PUSH_CONST, end, ext);
      Glue(m, base, base + |parts|, base + |parts| + |end|, ext);
    }
  }

  lemma GroupSeg(m: Machine, base: nat, w: Word, tilde: bool, locals: set<string>, ext: set<nat>)
    requires At(m, base, EmitGroup(w, tilde, locals))
    ensures Seg(m, base, base + |EmitGroup(w, tilde, locals)|, ext)
  {
    hide Seg, At, EmitWord, IsQuotedAt, StartsWithTilde, NeedsSplit, HasGlob;
    if IsQuotedAt(w) {
      Instr(m, base, EXPAND_ARGS, Op(EXPAND_ARGS), ext);
    } else {
      var word, t, end := EmitWord(w, locals), if tilde && StartsWithTilde(w) then Op(EXPAND_TILDE) else [], EmitGroupEnd(w);
      var b := base + |word|;
      AtSplit(m, base, word, t + end);
      AtSplit(m, b, t, end);
      WordSeg(m, base, w, locals, ext);
      if t != [] {
        Instr(m, b, EXPAND_TILDE, t, ext);
        Glue(m, base, b, b + |t|, ext);
      }
      Instr(m, b + |t|, if NeedsSplit(w) then SPLIT_FIELDS else if HasGlob(w) then GLOB else PUSH_INT, end, ext);
      Glue(m, base, b + |t|, b + |t| + |end|, ext);
    }
  }

  lemma {:induction false} GroupsSeg(m: Machine, base: nat, ws: seq<Word>, tilde: bool, locals: set<string>, ext: set<nat>)
    requires At(m, base, EmitGroups(ws, tilde, locals))
    ensures Seg(m, base, base + |EmitGroups(ws, tilde, locals)|, ext)
    decreases |ws|
  {
    hide Seg, At, EmitGroup;
    if ws == [] {
      AtBound(m, base, []);
      Empty(m, base, ext);
    } else {
      var g := EmitGroup(ws[0], tilde, locals);
      AtSplit(m, base, g, EmitGroups(ws[1..], tilde, locals));
      GroupSeg(m, base, ws[0], tilde, locals, ext);
      GroupsSeg(m, base + |g|, ws[1..], tilde, locals, ext);
      Glue(m, base, base + |g|, base + |EmitGroups(ws, tilde, locals)|, ext);
    }
  }

  lemma ArgsSeg(m: Machine, base: nat, ws: seq<Word>, tilde: bool, locals: set<string>, ext: set<nat>)
    requires At(m, base, EmitArgs(ws, tilde, locals))
    ensures Seg(m, base, base + |EmitArgs(ws, tilde, locals)|, ext)
  {
    hide Seg, At, EmitGroups, Le32;
    var gs, n := EmitGroups(ws, tilde, locals), Op32(PUSH_INT, |ws|);
    var b := base + |gs|;
    AtSplit(m, base, gs, n + Op(COLLECT_WORDS));
    AtSplit(m, b, n, Op(COLLECT_WORDS));
    GroupsSeg(m, base, ws, tilde, locals, ext);
    Instr(m, b, PUSH_INT, n, ext);
    Instr(m, b + 5, COLLECT_WORDS, Op(COLLECT_WORDS), ext);
    Glue(m, base, b, b + 5, ext);
    Glue(m, base, b + 5, b + 6, ext);
  }

  lemma RawSeg(m: Machine, base: nat, a: Assign, locals: set<string>, ext: set<nat>)
    requires At(m, base, EmitRaw(a, locals))
    ensures Seg(m, base, base + |EmitRaw(a, locals)|, ext)
  {
    hide Seg, At, EmitWord, Le16;
    if a.rest == [] {
      Instr(m, base, PUSH_CONST, OpConst(PUSH_CONST, a.prefix), ext);
    } else if a.prefix != "" {
      var word, b := EmitWord(a.rest, locals), base + 3;
      AtSplit(m, base, OpConst(PUSH_CONST, a.prefix), word + Op16(CONCAT, 2));
      AtSplit(m, b, word, Op16(CONCAT, 2));
      Instr(m, base, PUSH_CONST, OpConst(PUSH_CONST, a.prefix), ext);
      WordSeg(m, b, a.rest, locals, ext);
      Instr(m, b + |word|, CONCAT, Op16(CONCAT, 2), ext);
      Glue(m, base, b, b + |word|, ext);
      Glue(m, base, b + |word|, b + |word| + 3, ext);
    } else {
      WordSeg(m, base, a.rest, locals, ext);
    }
  }

  lemma ValueSeg(m: Machine, base: nat, a: Assign, locals: set<string>, ext: set<nat>)
    requires At(m, base, EmitValue(a, locals))
    ensures Seg(m, base, base + |EmitValue(a, locals)|, ext)
  {
    hide Seg, At, EmitRaw, TildeValue;
    var raw := EmitRaw(a, locals);
    AtSplit(m, base, raw, if TildeValue(a) then Op(EXPAND_TILDE) else []);
    RawSeg(m, base, a, locals, ext);
    if TildeValue(a) {
      Instr(m, base + |raw|, EXPAND_TILDE, Op(EXPAND_TILDE), ext);
      Glue(m, base, base + |raw|, base + |raw| + 1, ext);
    }
  }

  lemma StoreSeg(m: Machine, base: nat, a: Assign, temp: bool, locals: set<string>, ext: set<nat>)
    requires At(m, base, EmitStore(a, temp, locals))
    ensures Seg(m, base, base + |EmitStore(a, temp, locals)|, ext)
  {
    hide Seg, At;
    if temp {
      AtSplit(m, base, OpConst(SET_LOCAL, a.name), OpConst(EXPORT, a.name));
      Instr(m, base, SET_LOCAL, OpConst(SET_LOCAL, a.name), ext);
      Instr(m, base + 3, EXPORT, OpConst(EXPORT, a.name), ext);
      Glue(m, base, base + 3, base + 6, ext);
    } else {
      var op := if a.name in locals then SET_LOCAL else SET_VAR;
      Instr(m, base, op, OpConst(op, a.name), ext);
    }
  }

  lemma {:induction false} AssignsSeg(m: Machine, base: nat, assigns: seq<Assign>, temp: bool, locals: set<string>, ext: set<nat>)
    requires At(m, base, EmitAssigns(assigns, temp, locals))
    ensures Seg(m, base, base + |EmitAssigns(assigns, temp, locals)|, ext)
    decreases |assigns|
  {
    hide Seg, At, EmitValue, EmitStore;
    if assigns == [] {
      AtBound(m, base, []);
      Empty(m, base, ext);
    } else {
      var v, st := EmitValue(assigns[0], locals), EmitStore(assigns[0], temp, locals);
      var tail := EmitAssigns(assigns[1..], temp, locals);
      var b := base + |v|;
      AtSplit(m, base, v, st + tail);
      AtSplit(m, b, st, tail);
      ValueSeg(m, base, assigns[0], locals, ext);
      StoreSeg(m, b, assigns[0], temp, locals, ext);
      AssignsSeg(m, b + |st|, assigns[1..], temp, locals, ext);
      Glue(m, base, b, b + |st|, ext);
      Glue(m, base, b + |st|, b + |st| + |tail|, ext);
    }
  }

  lemma RedirSeg(m: Machine, base: nat, r: Redir, locals: set<string>, ext: set<nat>)
    requires At(m, base, EmitRedir(r, locals))
    ensures Seg(m, base, base + |EmitRedir(r, locals)|, ext)
  {
    hide Seg, At, EmitWord;
    if r.Close? {
      Instr(m, base, REDIR_CLOSE, Op1(REDIR_CLOSE, r.fd), ext);
    } else {
      var word := EmitWord(r.target, locals);
      var op := match r case Open(_, _, _) => REDIR_OPEN case Dup(_, _) => REDIR_DUP case _ => REDIR_HERE;
      var arg := match r case Open(_, kind, _) => kind case Here(_, expand, _) => (if expand then 1 else 0) case _ => 0;
      AtSplit(m, base, word, Op2(op, r.fd, arg));
      WordSeg(m, base, r.target, locals, ext);
      Instr(m, base + |word|, op, Op2(op, r.fd, arg), ext);
      Glue(m, base, base + |word|, base + |word| + 3, ext);
    }
  }

  lemma {:induction false} RedirsSeg(m: Machine, base: nat, rs: seq<Redir>, locals: set<string>, ext: set<nat>)
    requires At(m, base, EmitRedirs(rs, locals))
    ensures Seg(m, base, base + |EmitRedirs(rs, locals)|, ext)
    decreases |rs|
  {
    hide Seg, At, EmitRedir;
    if rs == [] {
      AtBound(m, base, []);
      Empty(m, base, ext);
    } else {
      var r := EmitRedir(rs[0], locals);
      AtSplit(m, base, r, EmitRedirs(rs[1..], locals));
      RedirSeg(m, base, rs[0], locals, ext);
      RedirsSeg(m, base + |r|, rs[1..], locals, ext);
      Glue(m, base, base + |r|, base + |EmitRedirs(rs, locals)|, ext);
    }
  }

  lemma RedirsOpenSeg(m: Machine, base: nat, rs: seq<Redir>, locals: set<string>, ext: set<nat>)
    requires At(m, base, EmitRedirsOpen(rs, locals))
    ensures Seg(m, base, base + |EmitRedirsOpen(rs, locals)|, ext)
  {
    hide Seg, At, EmitRedirs;
    AtSplit(m, base, Op(REDIR_SAVE), EmitRedirs(rs, locals));
    Instr(m, base, REDIR_SAVE, Op(REDIR_SAVE), ext);
    RedirsSeg(m, base + 1, rs, locals, ext);
    Glue(m, base, base + 1, base + 1 + |EmitRedirs(rs, locals)|, ext);
  }

  lemma ExecSeg(m: Machine, base: nat, words: seq<Word>, x: Static, ext: set<nat>)
    requires words != [] && At(m, base, EmitExec(words, x))
    ensures Seg(m, base, base + |EmitExec(words, x)|, ext)
  {
    hide Seg, At, Le16;
    var cells := EmitExec(words, x);
    var name := if IsLiteral(words[0]) then words[0][0].text else "";
    if IsLiteral(words[0]) && IndexOf(x.builtins, name) < |x.builtins| {
      Instr(m, base, EXEC_BUILTIN, cells, ext);
    } else if IsLiteral(words[0]) && IndexOf(x.fns, name) < |x.fns| {
      Instr(m, base, EXEC_FUNC, cells, ext);
    } else {
      Instr(m, base, EXEC_SIMPLE, cells, ext);
    }
  }

  /** An optional one-byte instruction. */
  lemma MaybeSeg(m: Machine, base: nat, op: byte, cells: seq<Cell>, ext: set<nat>)
    requires At(m, base, cells) && (cells == [] || cells == Op(op)) && OperandSize(op) == 0 && !IsJump(op)
    ensures Seg(m, base, base + |cells|, ext)
  {
    hide Seg;
    if cells == [] { Empty(m, base, ext); } else { Instr(m, base, op, cells, ext); }
  }

  lemma ScopeSeg(m: Machine, base: nat, cells: seq<Cell>, ext: set<nat>)
    requires At(m, base, cells) && (cells == [] || cells == Op1(PUSH_SCOPE, 1))
    ensures Seg(m, base, base + |cells|, ext)
  {
    hide Seg;
    if cells == [] { Empty(m, base, ext); } else { Instr(m, base, PUSH_SCOPE, cells, ext); }
  }

  lemma CommandSeg(m: Machine, base: nat, c: Cmd, x: Static, ext: set<nat>)
    requires c.Simple? && At(m, base, EmitCommand(c, x))
    ensures Seg(m, base, base + |EmitCommand(c, x)|, ext)
  {
    hide Seg, At, EmitAssigns, EmitRedirsOpen, EmitArgs, EmitExec, IsBareExec;
    if c.words == [] {
      AssignsSeg(m, base, c.assigns, false, x.locals, ext);
    } else {
      var temp := c.assigns != [];
      var t1 := if temp then Op1(PUSH_SCOPE, 1) else [];
      var t2, t3 := EmitAssigns(c.assigns, true, x.locals), EmitRedirsOpen(c.redirs, x.locals);
      var t4, t5 := EmitArgs(c.words, true, x.locals), EmitExec(c.words, x);
      var t6, t7 := if temp then Op(POP_SCOPE) else [], if IsBareExec(c.words) then [] else Op(REDIR_RESTORE);
      var b1 := base + |t1|;
      var b2 := b1 + |t2|;
      var b3 := b2 + |t3|;
      var b4 := b3 + |t4|;
      var b5 := b4 + |t5|;
      var b6 := b5 + |t6|;
      AtSplit(m, base, t1, t2 + (t3 + (t4 + (t5 + (t6 + t7)))));
      AtSplit(m, b1, t2, t3 + (t4 + (t5 + (t6 + t7))));
      AtSplit(m, b2, t3, t4 + (t5 + (t6 + t7)));
      AtSplit(m, b3, t4, t5 + (t6 + t7));
      AtSplit(m, b4, t5, t6 + t7);
      AtSplit(m, b5, t6, t7);
      ScopeSeg(m, base, t1, ext);
      AssignsSeg(m, b1, c.assigns, true, x.locals, ext);
      RedirsOpenSeg(m, b2, c.redirs, x.locals, ext);
      ArgsSeg(m, b3, c.words, true, x.locals, ext);
      ExecSeg(m, b4, c.words, x, ext);
      MaybeSeg(m, b5, POP_SCOPE, t6, ext);
      MaybeSeg(m, b6, REDIR_RESTORE, t7, ext);
      Glue(m, base, b1, b2, ext);
      Glue(m, base, b2, b3, ext);
      Glue(m, base, b3, b4, ext);
      Glue(m, base, b4, b5, ext);
      Glue(m, base, b5, b6, ext);
      Glue(m, base, b6, b6 + |t7|, ext);
    }
  }

  // ---- code with jumps ----

  /** Where jumps out of a piece of code may go: the targets of the loops around it and, for `continue`, offset 0. */
  predicate Exits(m: Machine, loops: seq<Loop>, ext: set<nat>) {
    && |m.code| < TWO31 && 0 in ext && (forall t :: t in ext ==> t <= |m.code|)
    && (forall i :: 0 <= i < |loops| ==> loops[i].cont in ext && loops[i].brk in ext)
  }

  lemma ExitsMore(m: Machine, loops: seq<Loop>, ext: set<nat>, t: nat)
    requires Exits(m, loops, ext) && t <= |m.code|
    ensures Exits(m, loops, ext + {t})
  {
  }

  lemma ExitsLoop(m: Machine, loops: seq<Loop>, ext: set<nat>, l: Loop)
    requires Exits(m, loops, ext) && l.cont in ext && l.brk in ext
    ensures Exits(m, loops + [l], ext)
  {
  }

  lemma ExitsFacts(m: Machine, loops: seq<Loop>, ext: set<nat>)
    requires Exits(m, loops, ext)
    ensures |m.code| < TWO31 && 0 in ext && forall t :: t in ext ==> t <= |m.code|
  {
  }

  lemma {:induction false} PopsSeg(m: Machine, base: nat, n: nat, ext: set<nat>)
    requires At(m, base, Pops(n))
    ensures Seg(m, base, base + n, ext)
    decreases n
  {
    hide Seg, At;
    if n == 0 {
      AtBound(m, base, Pops(n));
      Empty(m, base, ext);
    } else {
      assert Pops(n) == Op(POP) + Pops(n - 1);
      AtSplit(m, base, Op(POP), Pops(n - 1));
      Instr(m, base, POP, Op(POP), ext);
      PopsSeg(m, base + 1, n - 1, ext);
      Glue(m, base, base + 1, base + n, ext);
    }
  }

  lemma LoopJumpSeg(m: Machine, base: nat, isBreak: bool, count: nat, flags: seq<bool>, loops: seq<Loop>, ext: set<nat>)
    requires |loops| == |flags| > 0 && count > 0 && Exits(m, loops, ext)
    requires At(m, base, EmitLoopJump(isBreak, count, base, flags, loops))
    ensures Seg(m, base, base + |EmitLoopJump(isBreak, count, base, flags, loops)|, ext)
  {
    hide Seg, At, JumpTo, Pops, Iters;
    var k := Clamp(count, |flags|);
    var n := Iters(flags, k - 1);
    var l := loops[|flags| - k];
    var t := if isBreak then l.brk else l.cont;
    AtSplit(m, base, Pops(n), JumpTo(JMP, base + n, t));
    PopsSeg(m, base, n, ext);
    JumpInstr(m, base + n, JMP, t, ext);
    Glue(m, base, base + n, base + n + JUMP_SIZE, ext);
  }

  lemma {:induction false} CondSeg(m: Machine, base: nat, e: CondExpr, locals: set<string>, ext: set<nat>)
    requires At(m, base, EmitCond(e, base, locals)) && Exits(m, [], ext)
    ensures Seg(m, base, base + ShapeCond(e, locals), ext)
    decreases e, 0
  {
    hide Seg, At, EmitWord, Exits;
    match e
    case Test1(op, arg) =>
      var b := base + |EmitWord(arg, locals)|;
      AtSplit(m, base, EmitWord(arg, locals), Op1(TEST_UNARY, op));
      WordSeg(m, base, arg, locals, ext);
      Instr(m, b, TEST_UNARY, Op1(TEST_UNARY, op), ext);
      Glue(m, base, b, b + 2, ext);
    case Test2(op, left, right) =>
      var l, r := EmitWord(left, locals), EmitWord(right, locals);
      var b := base + |l|;
      AtSplit(m, base, l, r + Op1(TEST_BINARY, op));
      AtSplit(m, b, r, Op1(TEST_BINARY, op));
      WordSeg(m, base, left, locals, ext);
      WordSeg(m, b, right, locals, ext);
      Instr(m, b + |r|, TEST_BINARY, Op1(TEST_BINARY, op), ext);
      Glue(m, base, b, b + |r|, ext);
      Glue(m, base, b + |r|, b + |r| + 2, ext);
    case CondNot(e1) =>
      var b := base + ShapeCond(e1, locals);
      AtSplit(m, base, EmitCond(e1, base, locals), Op(NEGATE_STATUS));
      CondSeg(m, base, e1, locals, ext);
      Instr(m, b, NEGATE_STATUS, Op(NEGATE_STATUS), ext);
      Glue(m, base, b, b + 1, ext);
    case CondAnd(_, _) => ShortSeg(m, base, JMP_FALSE, e, locals, ext);
    case CondOr(_, _) => ShortSeg(m, base, JMP_TRUE, e, locals, ext);
  }

  lemma {:induction false} ShortSeg(m: Machine, base: nat, op: byte, e: CondExpr, locals: set<string>, ext: set<nat>)
    requires (e.CondAnd? || e.CondOr?) && IsJump(op) && Exits(m, [], ext)
    requires At(m, base, EmitShortCircuit(op, e, base, locals))
    ensures Seg(m, base, base + ShapeCond(e, locals), ext)
    decreases e, -1
  {
    hide Seg, At, Exits, EmitCond, EmitShortCircuit, JumpTo, Walk, ShapeCond;
    var mid := base + ShapeCond(e.l, locals);
    var start := mid + JUMP_SIZE;
    var end := start + ShapeCond(e.r, locals);
    var more := ext + {end};
    ShortAt(m, base, op, e, locals);
    ExitsFacts(m, [], ext);
    ExitsMore(m, [], ext, end);
    CondSeg(m, base, e.l, locals, more);
    JumpInstr(m, mid, op, end, more);
    CondSeg(m, start, e.r, locals, more);
    Glue(m, base, mid, start, more);
    Glue(m, base, start, end, more);
    SegWalk(m, base, end, more);
    Absorb(m, base, end, ext, end);
  }

  lemma ShortAt(m: Machine, base: nat, op: byte, e: CondExpr, locals: set<string>)
    requires (e.CondAnd? || e.CondOr?) && At(m, base, EmitShortCircuit(op, e, base, locals))
    ensures var mid := base + ShapeCond(e.l, locals);
            var start := mid + JUMP_SIZE;
            var end := start + ShapeCond(e.r, locals);
            && end == base + ShapeCond(e, locals) <= |m.code|
            && At(m, base, EmitCond(e.l, base, locals)) && At(m, mid, JumpTo(op, mid, end))
            && At(m, start, EmitCond(e.r, start, locals))
  {
    hide At, EmitCond, JumpTo, EmitWord;
    var mid := base + ShapeCond(e.l, locals);
    var start := mid + JUMP_SIZE;
    assert ShapeCond(e, locals) == ShapeCond(e.l, locals) + JUMP_SIZE + ShapeCond(e.r, locals);
    hide ShapeCond;
    var jump, right := JumpTo(op, mid, start + ShapeCond(e.r, locals)), EmitCond(e.r, start, locals);
    AtSplit(m, base, EmitCond(e.l, base, locals), jump + right);
    AtSplit(m, mid, jump, right);
    AtBound(m, start, right);
  }
}
