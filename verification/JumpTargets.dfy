/** Every jump of a compiled program goes to an instruction boundary: the constructs with jumps, and whole programs. */
module JumpTargets {
  import opened Bytes
  import opened Bytecode
  import opened Ast
  import opened Vm
  import opened Emit
  import opened Semantics
  import opened Runs
  import opened Simulation
  import opened Programs
  import opened Boundaries

  lemma {:induction false} ProgramSeg(m: Machine, n: Program, base: nat, x: Static, loops: seq<Loop>, ext: set<nat>)
    requires |loops| == |x.flags| && Exits(m, loops, ext) && At(m, base, EmitProgram(n, base, x, loops).cells)
    ensures Seg(m, base, base + ShapeProgram(n, x).size, ext)
    decreases n, 0
  {
    hide Seg, At, Exits, EmitAndOr, ShapeAndOr;
    match n
    case Nil =>
      AtBound(m, base, []);
      Empty(m, base, ext);
    case Then(head, tail) =>
      var b := base + ShapeAndOr(head, x).size;
      var x1 := x.With(ShapeAndOr(head, x).names);
      AtSplit(m, base, EmitAndOr(head, base, x, loops).cells, EmitProgram(tail, b, x1, loops).cells);
      AndOrSeg(m, head, base, x, loops, ext);
      ProgramSeg(m, tail, b, x1, loops, ext);
      Glue(m, base, b, b + ShapeProgram(tail, x1).size, ext);
  }

  lemma {:induction false} AndOrSeg(m: Machine, n: AndOr, base: nat, x: Static, loops: seq<Loop>, ext: set<nat>)
    requires |loops| == |x.flags| && Exits(m, loops, ext) && At(m, base, EmitAndOr(n, base, x, loops).cells)
    ensures Seg(m, base, base + ShapeAndOr(n, x).size, ext)
    decreases n, 1
  {
    hide Seg, At, Exits, EmitMember, ShapeMember, JumpTo, Walk;
    if n.Last? {
      MemberSeg(m, n, base, x, loops, ext);
    } else {
      var ms := ShapeMember(n, x);
      var x1 := x.With(ms.names);
      var b := base + ms.size;
      var start := b + JUMP_SIZE;
      var skip := start + ShapeMember(n.rest, x1).size;
      var end := start + ShapeAndOr(n.rest, x1).size;
      var jump := JumpTo(LinkOp(n.isAnd), b, skip);
      var rest := EmitAndOr(n.rest, start, x1, loops).cells;
      var more := ext + {skip};
      AtSplit(m, base, EmitMember(n, base, x, loops).cells, jump + rest);
      AtSplit(m, b, jump, rest);
      AtBound(m, start, rest);
      MemberBound(n.rest, x1);
      ExitsFacts(m, loops, ext);
      ExitsMore(m, loops, ext, skip);
      MemberSeg(m, n, base, x, loops, more);
      JumpInstr(m, b, LinkOp(n.isAnd), skip, more);
      AndOrSeg(m, n.rest, start, x1, loops, more);
      AfterMember(m, n.rest, start, x1, loops, more);
      Glue(m, base, b, start, more);
      SegWalk(m, base, start, more);
      WalkTrans(m, base, start, skip);
      Glue(m, base, start, end, more);
      Absorb(m, base, end, ext, skip);
    }
  }

  /** The place behind the first member of a chain is a boundary; it is where a skipped member leads. */
  lemma {:induction false} AfterMember(m: Machine, n: AndOr, base: nat, x: Static, loops: seq<Loop>, ext: set<nat>)
    requires |loops| == |x.flags| && Exits(m, loops, ext) && At(m, base, EmitAndOr(n, base, x, loops).cells)
    ensures base + ShapeMember(n, x).size <= |m.code| && Walk(m, base, base + ShapeMember(n, x).size)
    decreases n, 1
  {
    hide Seg, At, Exits, EmitMember, ShapeMember, JumpTo, Walk;
    if n.Link? {
      var b := base + ShapeMember(n, x).size;
      AtSplit(m, base, EmitMember(n, base, x, loops).cells,
              EmitLinks(n.isAnd, n.rest, b, x.With(ShapeMember(n, x).names), loops).cells);
    }
    MemberSeg(m, n, base, x, loops, ext);
    SegWalk(m, base, base + ShapeMember(n, x).size, ext);
  }

  lemma {:induction false} MemberSeg(m: Machine, n: AndOr, base: nat, x: Static, loops: seq<Loop>, ext: set<nat>)
    requires |loops| == |x.flags| && Exits(m, loops, ext) && At(m, base, EmitMember(n, base, x, loops).cells)
    ensures Seg(m, base, base + ShapeMember(n, x).size, ext)
    decreases n, 0
  {
    hide Seg, At, Exits, EmitPipe, ShapePipe;
    if n.Link? {
      var pipe := EmitPipe(n.negated, n.cmd, base + 1, x, loops).cells;
      var b := base + 1 + |pipe|;
      AtSplit(m, base, Op(ERREXIT_PUSH), pipe + Op(ERREXIT_POP));
      AtSplit(m, base + 1, pipe, Op(ERREXIT_POP));
      Instr(m, base, ERREXIT_PUSH, Op(ERREXIT_PUSH), ext);
      PipeSeg(m, n.negated, n.cmd, base + 1, x, loops, ext);
      Instr(m, b, ERREXIT_POP, Op(ERREXIT_POP), ext);
      Glue(m, base, base + 1, b, ext);
      Glue(m, base, b, b + 1, ext);
    } else {
      PipeSeg(m, n.negated, n.cmd, base, x, loops, ext);
    }
  }

  lemma {:induction false} PipeSeg(m: Machine, negated: bool, n: Cmd, base: nat, x: Static, loops: seq<Loop>, ext: set<nat>)
    requires |loops| == |x.flags| && Exits(m, loops, ext) && At(m, base, EmitPipe(negated, n, base, x, loops).cells)
    ensures Seg(m, base, base + ShapePipe(negated, n, x).size, ext)
    decreases n, 2
  {
    hide Seg, At, Exits, EmitCmd, ShapeCmd;
    if negated {
      var cmd := EmitCmd(n, base + 1, x, loops).cells;
      var b := base + 1 + |cmd|;
      AtSplit(m, base, Op(ERREXIT_PUSH), cmd + (Op(ERREXIT_POP) + Op(NEGATE_STATUS)));
      AtSplit(m, base + 1, cmd, Op(ERREXIT_POP) + Op(NEGATE_STATUS));
      AtSplit(m, b, Op(ERREXIT_POP), Op(NEGATE_STATUS));
      Instr(m, base, ERREXIT_PUSH, Op(ERREXIT_PUSH), ext);
      CmdSeg(m, n, base + 1, x, loops, ext);
      Instr(m, b, ERREXIT_POP, Op(ERREXIT_POP), ext);
      Instr(m, b + 1, NEGATE_STATUS, Op(NEGATE_STATUS), ext);
      Glue(m, base, base + 1, b, ext);
      Glue(m, base, b, b + 1, ext);
      Glue(m, base, b + 1, b + 2, ext);
    } else {
      CmdSeg(m, n, base, x, loops, ext);
    }
  }

  lemma {:induction false} CmdSeg(m: Machine, n: Cmd, base: nat, x: Static, loops: seq<Loop>, ext: set<nat>)
    requires |loops| == |x.flags| && Exits(m, loops, ext) && At(m, base, EmitCmd(n, base, x, loops).cells)
    ensures Seg(m, base, base + ShapeCmd(n, x).size, ext)
    decreases n, 1
  {
    hide Seg, At, EmitProgram, ShapeProgram, EmitFor, EmitWhile, EmitFuncDef, EmitClauses, EmitArms, ShapeClauses,
    ShapeArms, EmitRedirected, EmitCommand, EmitLoopJump, EmitCond, ShapeCond, Exits, Intercept, Walk;
    match n
    case Simple(_, _, words) => SimpleSeg(m, n, base, x, loops, ext);
    case If(cs) =>
      var end := base + ShapeClauses(cs, x).size;
      AtBound(m, base, EmitClauses(cs, base, x, loops, end).cells);
      ExitsMore(m, loops, ext, end);
      ClausesSeg(m, cs, base, x, loops, end, ext + {end});
      SegWalk(m, base, end, ext + {end});
      Absorb(m, base, end, ext, end);
    case For(_, _, _) => ForSeg(m, n, base, x, loops, ext);
    case While(_, _, _) => WhileSeg(m, n, base, x, loops, ext);
    case Case(subject, arms) =>
      var end := base + ShapeArms(arms, x, subject).size;
      AtBound(m, base, EmitArms(arms, base, x, loops, subject, end).cells);
      ExitsMore(m, loops, ext, end);
      ArmsSeg(m, arms, base, x, loops, subject, end, ext + {end});
      SegWalk(m, base, end, ext + {end});
      Absorb(m, base, end, ext, end);
    case Group(body) => ProgramSeg(m, body, base, x, loops, ext);
    case FuncDef(name, func) => FuncDefSeg(m, name, func, base, x, loops, ext);
    case Bracket(e) =>
      ExitsNone(m, loops, ext);
      CondSeg(m, base, e, x.locals, ext);
    case Redirected(rs, cmd) => RedirectedSeg(m, rs, cmd, base, x, loops, ext);
  }

  lemma ExitsNone(m: Machine, loops: seq<Loop>, ext: set<nat>)
    requires Exits(m, loops, ext)
    ensures Exits(m, [], ext)
  {
  }

  lemma SimpleSeg(m: Machine, n: Cmd, base: nat, x: Static, loops: seq<Loop>, ext: set<nat>)
    requires n.Simple? && |loops| == |x.flags| && Exits(m, loops, ext) && At(m, base, EmitCmd(n, base, x, loops).cells)
    ensures Seg(m, base, base + ShapeCmd(n, x).size, ext)
  {
    hide Seg, At, EmitCommand, EmitLoopJump, Exits, Intercept;
    AtBound(m, base, EmitCmd(n, base, x, loops).cells);
    match Intercept(n.words)
    case NotIntercepted => CommandSeg(m, base, n, x, ext);
    case Jump(isBreak, count) =>
      if |x.flags| == 0 || count == 0 { Empty(m, base, ext); } else { LoopJumpSeg(m, base, isBreak, count, x.flags, loops, ext); }
    case _ => Empty(m, base, ext);
  }

  lemma {:induction false} RedirectedSeg(m: Machine, rs: seq<Redir>, n: Cmd, base: nat, x: Static, loops: seq<Loop>, ext: set<nat>)
    requires |loops| == |x.flags| && Exits(m, loops, ext) && At(m, base, EmitRedirected(rs, n, base, x, loops).cells)
    ensures Seg(m, base, base + |EmitRedirsOpen(rs, x.locals)| + ShapeCmd(n, x).size + 1, ext)
    decreases n, 2
  {
    hide Seg, At, Exits, EmitCmd, ShapeCmd, EmitRedirsOpen;
    var open := EmitRedirsOpen(rs, x.locals);
    var b := base + |open|;
    var cmd := EmitCmd(n, b, x, loops).cells;
    AtSplit(m, base, open, cmd + Op(REDIR_RESTORE));
    AtSplit(m, b, cmd, Op(REDIR_RESTORE));
    RedirsOpenSeg(m, base, rs, x.locals, ext);
    CmdSeg(m, n, b, x, loops, ext);
    Instr(m, b + |cmd|, REDIR_RESTORE, Op(REDIR_RESTORE), ext);
    Glue(m, base, b, b + |cmd|, ext);
    Glue(m, base, b + |cmd|, b + |cmd| + 1, ext);
  }

  lemma {:induction false} FuncDefSeg(m: Machine, name: string, n: Cmd, base: nat, x: Static, loops: seq<Loop>, ext: set<nat>)
    requires |loops| == |x.flags| && Exits(m, loops, ext) && At(m, base, EmitFuncDef(name, n, base, x, loops).cells)
    ensures Seg(m, base, base + JUMP_SIZE + ShapeCmd(n, x.InFunction(name, n)).size + 1, ext)
    decreases n, 2
  {
    hide Seg, At, Exits, EmitCmd, ShapeCmd, JumpTo, Walk;
    var x1 := x.InFunction(name, n);
    var start := base + JUMP_SIZE;
    var body := EmitCmd(n, start, x1, loops).cells;
    var end := start + |body| + 1;
    var jump := JumpTo(JMP, base, end);
    var more := ext + {end};
    AtSplit(m, base, jump, body + Op(RET));
    AtSplit(m, start, body, Op(RET));
    AtBound(m, start + |body|, Op(RET));
    ExitsFacts(m, loops, ext);
    ExitsMore(m, loops, ext, end);
    JumpInstr(m, base, JMP, end, more);
    CmdSeg(m, n, start, x1, loops, more);
    Instr(m, start + |body|, RET, Op(RET), more);
    Glue(m, base, start, start + |body|, more);
    Glue(m, base, start + |body|, end, more);
    SegWalk(m, base, end, more);
    Absorb(m, base, end, ext, end);
  }

  lemma ForHeadSeg(m: Machine, base: nat, items: seq<Word>, locals: set<string>, ext: set<nat>)
    requires At(m, base, ForHead(items, locals))
    ensures Seg(m, base, base + |ForHead(items, locals)|, ext)
  {
    hide Seg, At, EmitArgs, Le16;
    var it := EmitItems(items, locals);
    AtSplit(m, base, it, Op16(INIT_ITER, 1));
    if items == [] { Instr(m, base, EXPAND_ARGS, it, ext); } else { ArgsSeg(m, base, items, false, locals, ext); }
    Instr(m, base + |it|, INIT_ITER, Op16(INIT_ITER, 1), ext);
    Glue(m, base, base + |it|, base + |it| + 3, ext);
  }

  lemma {:induction false} ForSeg(m: Machine, n: Cmd, base: nat, x: Static, loops: seq<Loop>, ext: set<nat>)
    requires n.For? && |loops| == |x.flags| && Exits(m, loops, ext) && At(m, base, EmitFor(n, base, x, loops).cells)
    ensures Seg(m, base, base + ShapeCmd(n, x).size, ext)
    decreases n, 0
  {
    hide Seg, At, Exits, EmitProgram, ShapeProgram, JumpTo, Walk, ForHead, Le32;
    ForSplit(m, n, base, x, loops);
    var top, brk := ForTop(n, base, x), ForBreak(n, base, x);
    var e1 := ext + {top};
    var e2 := e1 + {brk};
    var e3 := e2 + {brk + JUMP_SIZE};
    var more := e3 + {brk + JUMP_SIZE + 1};
    ExitsFacts(m, loops, ext);
    ExitsMore(m, loops, ext, top);
    ExitsMore(m, loops, e1, brk);
    ExitsMore(m, loops, e2, brk + JUMP_SIZE);
    ExitsMore(m, loops, e3, brk + JUMP_SIZE + 1);
    ExitsLoop(m, loops, more, Loop(top, brk));
    ForHeadSeg(m, base, n.items, x.locals, more);
    ForTopSeg(m, n, base, x, loops, more);
    ProgramSeg(m, n.body, top + 10, x.InLoop(true), loops + [Loop(top, brk)], more);
    ForEndSeg(m, n, base, x, loops, more);
    SegWalk(m, base, top, more);
    Glue(m, base, top, top + 10, more);
    Glue(m, base, top + 10, brk - JUMP_SIZE, more);
    Glue(m, base, brk - JUMP_SIZE, brk, more);
    SegWalk(m, base, brk, more);
    Glue(m, base, brk, brk + JUMP_SIZE, more);
    SegWalk(m, base, brk + JUMP_SIZE, more);
    Glue(m, base, brk + JUMP_SIZE, brk + JUMP_SIZE + 1, more);
    SegWalk(m, base, brk + JUMP_SIZE + 1, more);
    var end := brk + JUMP_SIZE + 2;
    Glue(m, base, brk + JUMP_SIZE + 1, end, more);
    Absorb(m, base, end, e3, brk + JUMP_SIZE + 1);
    Absorb(m, base, end, e2, brk + JUMP_SIZE);
    Absorb(m, base, end, e1, brk);
    Absorb(m, base, end, ext, top);
  }

  lemma ForTopSeg(m: Machine, n: Cmd, base: nat, x: Static, loops: seq<Loop>, ext: set<nat>)
    requires n.For? && |loops| == |x.flags| && ForAt(m, n, base, x, loops) && |m.code| < TWO31
    requires ForBreak(n, base, x) + JUMP_SIZE <= |m.code| && ForBreak(n, base, x) + JUMP_SIZE in ext
    ensures var top := ForTop(n, base, x); Seg(m, top, top + 10, ext)
  {
    hide Seg, At, EmitProgram, ShapeProgram, JumpTo, ForHead;
    var top, brk := ForTop(n, base, x), ForBreak(n, base, x);
    Instr(m, top, GET_NEXT_ITER, Op(GET_NEXT_ITER), ext);
    Instr(m, top + 1, DUP, Op(DUP), ext);
    JumpInstr(m, top + 2, JMP_NONE, brk + JUMP_SIZE, ext);
    Instr(m, top + 7, SET_VAR, OpConst(SET_VAR, n.name), ext);
    Glue(m, top, top + 1, top + 2, ext);
    Glue(m, top, top + 2, top + 7, ext);
    Glue(m, top, top + 7, top + 10, ext);
  }

  lemma ForEndSeg(m: Machine, n: Cmd, base: nat, x: Static, loops: seq<Loop>, ext: set<nat>)
    requires n.For? && |loops| == |x.flags| && ForAt(m, n, base, x, loops) && |m.code| < TWO31
    requires var brk := ForBreak(n, base, x); brk + JUMP_SIZE + 1 <= |m.code| && brk + JUMP_SIZE + 1 in ext
    requires ForTop(n, base, x) in ext && ForTop(n, base, x) <= |m.code|
    ensures var brk := ForBreak(n, base, x);
            && Seg(m, brk - JUMP_SIZE, brk, ext) && Seg(m, brk, brk + JUMP_SIZE, ext)
            && Seg(m, brk + JUMP_SIZE, brk + JUMP_SIZE + 1, ext) && Seg(m, brk + JUMP_SIZE + 1, brk + JUMP_SIZE + 2, ext)
  {
    hide Seg, At, EmitProgram, ShapeProgram, JumpTo, ForHead;
    var top, brk := ForTop(n, base, x), ForBreak(n, base, x);
    JumpInstr(m, brk - JUMP_SIZE, JMP, top, ext);
    JumpInstr(m, brk, JMP, brk + JUMP_SIZE + 1, ext);
    Instr(m, brk + JUMP_SIZE, POP, Op(POP), ext);
    Instr(m, brk + JUMP_SIZE + 1, POP, Op(POP), ext);
  }

  lemma {:induction false} WhileSeg(m: Machine, n: Cmd, base: nat, x: Static, loops: seq<Loop>, ext: set<nat>)
    requires n.While? && |loops| == |x.flags| && Exits(m, loops, ext) && At(m, base, EmitWhile(n, base, x, loops).cells)
    ensures Seg(m, base, base + ShapeCmd(n, x).size, ext)
    decreases n, 0
  {
    hide Seg, At, Exits, EmitProgram, ShapeProgram, JumpTo, Walk, Le32;
    WhileSplit(m, n, base, x, loops);
    var start, brk := WhileStart(n, base, x), WhileBreak(n, base, x);
    var inner := WhileLoops(n, base, x, loops);
    var again := start + ShapeProgram(n.body, WhileBodyStatic(n, x)).size;
    var end := brk + JUMP_SIZE + 1;
    var e1 := ext + {start};
    var e2 := e1 + {brk};
    var e3 := e2 + {brk + JUMP_SIZE};
    var more := e3 + {end};
    ExitsFacts(m, loops, ext);
    ExitsMore(m, loops, ext, start);
    ExitsMore(m, loops, e1, brk);
    ExitsMore(m, loops, e2, brk + JUMP_SIZE);
    ExitsMore(m, loops, e3, end);
    ExitsLoop(m, loops, more, Loop(0, brk));
    ProgramSeg(m, n.cond, base + 1, x, loops, more);
    ProgramSeg(m, n.body, start, WhileBodyStatic(n, x), inner, more);
    ProgramSeg(m, n.cond, again + 1, WhileAgainStatic(n, x), inner, more);
    WhileJumpsSeg(m, n, base, x, loops, more);
    var c := base + 1 + ShapeProgram(n.cond, x).size;
    Glue(m, base, base + 1, c, more);
    Glue(m, base, c, c + 1, more);
    Glue(m, base, c + 1, start, more);
    SegWalk(m, base, start, more);
    Glue(m, base, start, again, more);
    Glue(m, base, again, again + 1, more);
    Glue(m, base, again + 1, brk - JUMP_SIZE - 1, more);
    Glue(m, base, brk - JUMP_SIZE - 1, brk - JUMP_SIZE, more);
    Glue(m, base, brk - JUMP_SIZE, brk, more);
    SegWalk(m, base, brk, more);
    Glue(m, base, brk, brk + JUMP_SIZE, more);
    SegWalk(m, base, brk + JUMP_SIZE, more);
    Glue(m, base, brk + JUMP_SIZE, end, more);
    SegWalk(m, base, end, more);
    Absorb(m, base, end, e3, end);
    Absorb(m, base, end, e2, brk + JUMP_SIZE);
    Absorb(m, base, end, e1, brk);
    Absorb(m, base, end, ext, start);
  }

  lemma WhileJumpsSeg(m: Machine, n: Cmd, base: nat, x: Static, loops: seq<Loop>, ext: set<nat>)
    requires n.While? && |loops| == |x.flags| && WhileAt(m, n, base, x, loops) && |m.code| < TWO31
    requires var start, brk := WhileStart(n, base, x), WhileBreak(n, base, x);
             start in ext && brk + JUMP_SIZE in ext && brk + JUMP_SIZE + 1 in ext
    ensures var start, brk := WhileStart(n, base, x), WhileBreak(n, base, x);
            var again := start + ShapeProgram(n.body, WhileBodyStatic(n, x)).size;
            && Seg(m, base, base + 1, ext) && Seg(m, start - JUMP_SIZE - 1, start - JUMP_SIZE, ext)
            && Seg(m, start - JUMP_SIZE, start, ext) && Seg(m, again, again + 1, ext)
            && Seg(m, brk - JUMP_SIZE - 1, brk - JUMP_SIZE, ext) && Seg(m, brk - JUMP_SIZE, brk, ext)
            && Seg(m, brk, brk + JUMP_SIZE, ext) && Seg(m, brk + JUMP_SIZE, brk + JUMP_SIZE + 1, ext)
  {
    hide Seg, At, EmitProgram, ShapeProgram, JumpTo;
    var start, brk := WhileStart(n, base, x), WhileBreak(n, base, x);
    var again := start + ShapeProgram(n.body, WhileBodyStatic(n, x)).size;
    Instr(m, base, ERREXIT_PUSH, Op(ERREXIT_PUSH), ext);
    Instr(m, start - JUMP_SIZE - 1, ERREXIT_POP, Op(ERREXIT_POP), ext);
    JumpInstr(m, start - JUMP_SIZE, ExitOp(n.until), brk + JUMP_SIZE, ext);
    Instr(m, again, ERREXIT_PUSH, Op(ERREXIT_PUSH), ext);
    Instr(m, brk - JUMP_SIZE - 1, ERREXIT_POP, Op(ERREXIT_POP), ext);
    JumpInstr(m, brk - JUMP_SIZE, AgainOp(n.until), start, ext);
    JumpInstr(m, brk, JMP, brk + JUMP_SIZE + 1, ext);
    Instr(m, brk + JUMP_SIZE, STATUS_ZERO, Op(STATUS_ZERO), ext);
  }

  lemma {:induction false} ClausesSeg(m: Machine, n: Clauses, base: nat, x: Static, loops: seq<Loop>, end: nat, ext: set<nat>)
    requires |loops| == |x.flags| && Exits(m, loops, ext) && end in ext
    requires At(m, base, EmitClauses(n, base, x, loops, end).cells)
    ensures Seg(m, base, base + ShapeClauses(n, x).size, ext)
    decreases n, 1
  {
    hide Seg, At, Exits, EmitProgram, ShapeProgram, EmitBranch;
    match n
    case NoElse => Instr(m, base, STATUS_ZERO, Op(STATUS_ZERO), ext);
    case Else(body) => ProgramSeg(m, body, base, x, loops, ext);
    case Elif(cond, body, rest) =>
      var c := EmitProgram(cond, base + 1, x, loops).cells;
      var b := base + 1 + |c|;
      var e := EmitBranch(n, b + 1, x, loops, end).cells;
      AtSplit(m, base, Op(ERREXIT_PUSH), c + (Op(ERREXIT_POP) + e));
      AtSplit(m, base + 1, c, Op(ERREXIT_POP) + e);
      AtSplit(m, b, Op(ERREXIT_POP), e);
      Instr(m, base, ERREXIT_PUSH, Op(ERREXIT_PUSH), ext);
      ProgramSeg(m, cond, base + 1, x, loops, ext);
      Instr(m, b, ERREXIT_POP, Op(ERREXIT_POP), ext);
      BranchSeg(m, n, b + 1, x, loops, end, ext);
      Glue(m, base, base + 1, b, ext);
      Glue(m, base, b, b + 1, ext);
      Glue(m, base, b + 1, b + 1 + |e|, ext);
  }

  lemma {:induction false} BranchSeg(m: Machine, n: Clauses, base: nat, x: Static, loops: seq<Loop>, end: nat, ext: set<nat>)
    requires n.Elif? && |loops| == |x.flags| && Exits(m, loops, ext) && end in ext
    requires At(m, base, EmitBranch(n, base, x, loops, end).cells)
    ensures Seg(m, base, base + |EmitBranch(n, base, x, loops, end).cells|, ext)
    decreases n, 0
  {
    hide Seg, At, Exits, EmitProgram, ShapeProgram, EmitClauses, ShapeClauses, JumpTo, Walk;
    var x1 := x.With(ShapeProgram(n.cond, x).names);
    var bs := ShapeProgram(n.body, x1);
    var x2 := x1.With(bs.names);
    var start := base + JUMP_SIZE;
    var b := start + bs.size;
    var next := b + JUMP_SIZE;
    var t1, t3 := JumpTo(JMP_FALSE, base, next), JumpTo(JMP, b, end);
    var t2, t4 := EmitProgram(n.body, start, x1, loops).cells, EmitClauses(n.rest, next, x2, loops, end).cells;
    var more := ext + {next};
    AtSplit(m, base, t1, t2 + (t3 + t4));
    AtSplit(m, start, t2, t3 + t4);
    AtSplit(m, b, t3, t4);
    AtBound(m, next, t4);
    ExitsFacts(m, loops, ext);
    ExitsMore(m, loops, ext, next);
    JumpInstr(m, base, JMP_FALSE, next, more);
    ProgramSeg(m, n.body, start, x1, loops, more);
    JumpInstr(m, b, JMP, end, more);
    ClausesSeg(m, n.rest, next, x2, loops, end, more);
    Glue(m, base, start, b, more);
    Glue(m, base, b, next, more);
    SegWalk(m, base, next, more);
    Glue(m, base, next, next + |t4|, more);
    Absorb(m, base, next + |t4|, ext, next);
  }

  lemma {:induction false} PatternsSeg(m: Machine, base: nat, ps: seq<Word>, subject: Word, locals: set<string>, body: nat, ext: set<nat>)
    requires At(m, base, EmitPatterns(ps, base, subject, locals, body)) && |m.code| < TWO31 && body <= |m.code| && body in ext
    ensures Seg(m, base, base + PatternsSize(ps, subject, locals), ext)
    decreases |ps|
  {
    hide Seg, At, EmitWord, JumpTo;
    if ps == [] {
      AtBound(m, base, []);
      Empty(m, base, ext);
    } else {
      var s, p := EmitWord(subject, locals), EmitWord(ps[0], locals);
      var b := base + |s|;
      var c := b + |p|;
      var test := s + (p + Op(PATTERN_MATCH));
      var rest := EmitPatterns(ps[1..], c + 1 + JUMP_SIZE, subject, locals, body);
      var jump := JumpTo(JMP_TRUE, c + 1, body);
      AtSplit(m, base, test, jump + rest);
      AtSplit(m, base, s, p + Op(PATTERN_MATCH));
      AtSplit(m, b, p, Op(PATTERN_MATCH));
      AtSplit(m, c + 1, jump, rest);
      WordSeg(m, base, subject, locals, ext);
      WordSeg(m, b, ps[0], locals, ext);
      Instr(m, c, PATTERN_MATCH, Op(PATTERN_MATCH), ext);
      JumpInstr(m, c + 1, JMP_TRUE, body, ext);
      PatternsSeg(m, c + 1 + JUMP_SIZE, ps[1..], subject, locals, body, ext);
      Glue(m, base, b, c, ext);
      Glue(m, base, c, c + 1, ext);
      Glue(m, base, c + 1, c + 1 + JUMP_SIZE, ext);
      Glue(m, base, c + 1 + JUMP_SIZE, base + PatternsSize(ps, subject, locals), ext);
    }
  }

  /** An optional jump. */
  lemma MaybeJumpSeg(m: Machine, base: nat, cells: seq<Cell>, t: nat, ext: set<nat>)
    requires At(m, base, cells) && (cells == [] || cells == JumpTo(JMP, base, t)) && t <= |m.code| < TWO31 && t in ext
    ensures Seg(m, base, base + |cells|, ext)
  {
    hide Seg, JumpTo;
    if cells == [] { Empty(m, base, ext); } else { JumpInstr(m, base, JMP, t, ext); }
  }

  lemma {:induction false} ArmsSeg(m: Machine, n: Arms, base: nat, x: Static, loops: seq<Loop>, subject: Word, end: nat, ext: set<nat>)
    requires |loops| == |x.flags| && Exits(m, loops, ext) && end in ext
    requires At(m, base, EmitArms(n, base, x, loops, subject, end).cells)
    ensures Seg(m, base, base + ShapeArms(n, x, subject).size, ext)
    decreases n, 1
  {
    hide Seg, At, Exits, EmitProgram, ShapeProgram, EmitArmBody, EmitPatterns, PatternsSize, JumpTo, Walk;
    ExitsFacts(m, loops, ext);
    if n.NoArms? {
      AtSplit(m, base, Op(STATUS_ZERO), JumpTo(JMP, base + 1, end));
      Instr(m, base, STATUS_ZERO, Op(STATUS_ZERO), ext);
      JumpInstr(m, base + 1, JMP, end, ext);
      Glue(m, base, base + 1, base + 1 + JUMP_SIZE, ext);
    } else {
      var skip := base + PatternsSize(n.patterns, subject, x.locals);
      var start := skip + SkipSize(n.patterns);
      var next := NextArm(n, start, x);
      var t1, t2 := EmitPatterns(n.patterns, base, subject, x.locals, start), EmitSkip(n.patterns, skip, next);
      var t3 := EmitArmBody(n, start, x, loops, subject, end).cells;
      var e1 := ext + {start};
      var more := e1 + {next};
      AtSplit(m, base, t1, t2 + t3);
      AtSplit(m, skip, t2, t3);
      AtBound(m, start, t3);
      NextArmAt(m, n, start, x, loops, subject, end);
      ExitsMore(m, loops, ext, start);
      ExitsMore(m, loops, e1, next);
      ExitsFacts(m, loops, more);
      PatternsSeg(m, base, n.patterns, subject, x.locals, start, more);
      MaybeJumpSeg(m, skip, t2, next, more);
      ArmBodySeg(m, n, start, x, loops, subject, end, more);
      Glue(m, base, skip, start, more);
      SegWalk(m, base, start, more);
      Glue(m, base, start, next, more);
      SegWalk(m, base, next, more);
      Glue(m, base, next, start + |t3|, more);
      Absorb(m, base, start + |t3|, e1, next);
      Absorb(m, base, start + |t3|, ext, start);
    }
  }

  lemma {:induction false} ArmBodySeg(m: Machine, n: Arms, start: nat, x: Static, loops: seq<Loop>, subject: Word, end: nat, ext: set<nat>)
    requires n.Arm? && |loops| == |x.flags| && Exits(m, loops, ext) && end in ext
    requires At(m, start, EmitArmBody(n, start, x, loops, subject, end).cells)
    ensures Seg(m, start, NextArm(n, start, x), ext)
    ensures Seg(m, NextArm(n, start, x), start + |EmitArmBody(n, start, x, loops, subject, end).cells|, ext)
    decreases n, 0
  {
    hide Seg, At, Exits, EmitProgram, ShapeProgram, EmitArms, ShapeArms, JumpTo;
    var bs := ShapeProgram(n.body, x);
    var b := start + bs.size;
    NextArmAt(m, n, start, x, loops, subject, end);
    ExitsFacts(m, loops, ext);
    ProgramSeg(m, n.body, start, x, loops, ext);
    MaybeJumpSeg(m, b, EmitEnd(n.ends, b, end), end, ext);
    Glue(m, start, b, NextArm(n, start, x), ext);
    ArmsSeg(m, n.rest, NextArm(n, start, x), x.With(bs.names), loops, subject, end, ext);
  }

  /**
   The whole image of any program, whatever its loops and jumps: its bytes are whole instructions from offset 0 to the
   end, and every jump among them goes to the start of an instruction.
   */
  lemma JumpsLandOnInstructions(m: Machine, p: Program)
    requires |m.code| < TWO31 && |m.code| == |Layout(m.h, p).cells| + 1
    requires At(m, 0, Layout(m.h, p).cells + Op(HALT))
    ensures Walk(m, 0, |m.code|)
    ensures forall i :: 0 <= i < |m.code| && Walk(m, 0, i) && IsJump(m.code[i]) ==>
                          i + 5 <= |m.code| && 0 <= JumpTarget(m, i) <= |m.code| && Walk(m, 0, JumpTarget(m, i))
  {
    hide At, EmitProgram, ShapeProgram, JumpTarget;
    var code := Layout(m.h, p).cells;
    AtSplit(m, 0, code, Op(HALT));
    ProgramSeg(m, p, 0, TopLevel(m.h), [], {0});
    Instr(m, |code|, HALT, Op(HALT), {0});
    Glue(m, 0, |code|, |m.code|, {0});
    forall i | 0 <= i < |m.code| && Walk(m, 0, i) && IsJump(m.code[i])
      ensures i + 5 <= |m.code| && 0 <= JumpTarget(m, i) <= |m.code| && Walk(m, 0, JumpTarget(m, i))
    {
      assert Lands(m, 0, i, {0});
    }
  }
}
