/** Whole programs: the functions of an image are where its table says, and the image runs as the program is written. */
module Programs {
  import opened Bytes
  import opened Bytecode
  import opened Ast
  import opened Vm
  import opened Emit
  import opened Semantics
  import opened Runs
  import opened Words
  import opened Wellformed
  import opened Simulation

  // ---- every function body is in memory, followed by RET ----

  ghost predicate Placed(m: Machine, g: Script, x: Static, loops: seq<Loop>, names: seq<string>) {
    |loops| == |x.flags| && x.builtins == g.h.builtins && Within(m, loops) && x.fns + names <= Names(g.defs)
  }

  ghost predicate DefsOk(m: Machine, g: Script, defs: seq<Def>) {
    forall i :: 0 <= i < |defs| ==> DefOk(m, g, defs[i])
  }

  lemma PlacedSplit(m: Machine, g: Script, x: Static, loops: seq<Loop>, n1: seq<string>, n2: seq<string>)
    requires Placed(m, g, x, loops, n1 + n2)
    ensures Placed(m, g, x, loops, n1) && Placed(m, g, x.With(n1), loops, n2)
  {
    hide Within;
    var all := Names(g.defs);
    assert x.fns + (n1 + n2) == (x.fns + n1) + n2;
    assert x.fns + n1 == all[..|x.fns + n1|];
  }

  lemma DefsJoin(m: Machine, g: Script, d1: seq<Def>, d2: seq<Def>)
    requires DefsOk(m, g, d1) && DefsOk(m, g, d2)
    ensures DefsOk(m, g, d1 + d2)
  {
    hide DefOk;
  }

  lemma {:induction false} DefsProgram(m: Machine, g: Script, n: Program, base: nat, x: Static, loops: seq<Loop>, d: nat)
    requires Placed(m, g, x, loops, ShapeProgram(n, x).names) && WfProgram(n, x, d)
    requires At(m, base, EmitProgram(n, base, x, loops).cells)
    ensures DefsOk(m, g, EmitProgram(n, base, x, loops).defs)
    decreases n, 0
  {
    hide DefOk, At, EmitAndOr, ShapeAndOr, WfAndOr;
    match n
    case Nil =>
    case Then(head, tail) =>
      var hs := ShapeAndOr(head, x);
      var x1 := x.With(hs.names);
      var e1, e2 := EmitAndOr(head, base, x, loops), EmitProgram(tail, base + hs.size, x1, loops);
      PlacedSplit(m, g, x, loops, hs.names, ShapeProgram(tail, x1).names);
      AtSplit(m, base, e1.cells, e2.cells);
      DefsAndOr(m, g, head, base, x, loops, d);
      DefsProgram(m, g, tail, base + hs.size, x1, loops, d);
      DefsJoin(m, g, e1.defs, e2.defs);
  }

  lemma {:induction false} DefsAndOr(m: Machine, g: Script, n: AndOr, base: nat, x: Static, loops: seq<Loop>, d: nat)
    requires Placed(m, g, x, loops, ShapeAndOr(n, x).names) && WfAndOr(n, x, d)
    requires At(m, base, EmitAndOr(n, base, x, loops).cells)
    ensures DefsOk(m, g, EmitAndOr(n, base, x, loops).defs)
    decreases n, 1
  {
    hide DefOk, At, EmitMember, ShapeMember, WfCmd;
    var ms := ShapeMember(n, x);
    var e1 := EmitMember(n, base, x, loops);
    if n.Last? {
      DefsMember(m, g, n, base, x, loops, d);
    } else {
      var x1 := x.With(ms.names);
      var e2 := EmitAndOr(n.rest, base + ms.size + JUMP_SIZE, x1, loops);
      var jump := JumpTo(LinkOp(n.isAnd), base + ms.size, base + ms.size + JUMP_SIZE + ShapeMember(n.rest, x1).size);
      PlacedSplit(m, g, x, loops, ms.names, ShapeAndOr(n.rest, x1).names);
      AtSplit(m, base, e1.cells, jump + e2.cells);
      AtSplit(m, base + ms.size, jump, e2.cells);
      DefsMember(m, g, n, base, x, loops, d);
      DefsAndOr(m, g, n.rest, base + ms.size + JUMP_SIZE, x1, loops, d);
      DefsJoin(m, g, e1.defs, e2.defs);
    }
  }

  lemma {:induction false} DefsMember(m: Machine, g: Script, n: AndOr, base: nat, x: Static, loops: seq<Loop>, d: nat)
    requires Placed(m, g, x, loops, ShapeMember(n, x).names) && WfCmd(n.cmd, x, d)
    requires At(m, base, EmitMember(n, base, x, loops).cells)
    ensures DefsOk(m, g, EmitMember(n, base, x, loops).defs)
    decreases n, 0
  {
    hide DefOk, At, EmitPipe, ShapePipe, WfCmd;
    if n.Link? {
      var pipe := EmitPipe(n.negated, n.cmd, base + 1, x, loops);
      AtSplit(m, base, Op(ERREXIT_PUSH), pipe.cells + Op(ERREXIT_POP));
      AtSplit(m, base + 1, pipe.cells, Op(ERREXIT_POP));
      DefsPipe(m, g, n.negated, n.cmd, base + 1, x, loops, d);
    } else {
      DefsPipe(m, g, n.negated, n.cmd, base, x, loops, d);
    }
  }

  lemma {:induction false} DefsPipe(m: Machine, g: Script, negated: bool, n: Cmd, base: nat, x: Static, loops: seq<Loop>, d: nat)
    requires Placed(m, g, x, loops, ShapePipe(negated, n, x).names) && WfCmd(n, x, d)
    requires At(m, base, EmitPipe(negated, n, base, x, loops).cells)
    ensures DefsOk(m, g, EmitPipe(negated, n, base, x, loops).defs)
    decreases n, 2
  {
    hide DefOk, At, EmitCmd, ShapeCmd, WfCmd;
    if negated {
      var cmd := EmitCmd(n, base + 1, x, loops);
      var tail := Op(ERREXIT_POP) + Op(NEGATE_STATUS);
      AtSplit(m, base, Op(ERREXIT_PUSH), cmd.cells + tail);
      AtSplit(m, base + 1, cmd.cells, tail);
      DefsCmd(m, g, n, base + 1, x, loops, d);
      assert EmitPipe(negated, n, base, x, loops).defs == cmd.defs;
    } else {
      DefsCmd(m, g, n, base, x, loops, d);
    }
  }

  lemma {:induction false} DefsCmd(m: Machine, g: Script, n: Cmd, base: nat, x: Static, loops: seq<Loop>, d: nat)
    requires Placed(m, g, x, loops, ShapeCmd(n, x).names) && WfCmd(n, x, d)
    requires At(m, base, EmitCmd(n, base, x, loops).cells)
    ensures DefsOk(m, g, EmitCmd(n, base, x, loops).defs)
    decreases n, 1
  {
    hide DefOk, At, EmitProgram, ShapeProgram, WfProgram, EmitFor, EmitWhile, EmitFuncDef, EmitClauses, EmitArms,
    WfClauses, WfArms, ShapeClauses, ShapeArms, Placed, EmitRedirected;
    match n
    case Simple(_, _, _) =>
    case If(cs) => DefsClauses(m, g, cs, base, x, loops, base + ShapeClauses(cs, x).size, d);
    case For(_, _, _) => DefsFor(m, g, n, base, x, loops, d);
    case While(_, _, _) => DefsWhile(m, g, n, base, x, loops, d);
    case Case(subject, arms) => DefsArms(m, g, arms, base, x, loops, subject, base + ShapeArms(arms, x, subject).size, d);
    case Group(body) => DefsProgram(m, g, body, base, x, loops, d);
    case FuncDef(name, func) => DefsFuncDef(m, g, name, func, base, x, loops);
    case Bracket(_) =>
    case Redirected(rs, cmd) => DefsRedirected(m, g, rs, cmd, base, x, loops, d);
  }

  lemma {:induction false} DefsRedirected(m: Machine, g: Script, rs: seq<Redir>, n: Cmd, base: nat, x: Static, loops: seq<Loop>, d: nat)
    requires Placed(m, g, x, loops, ShapeCmd(n, x).names) && WfCmd(n, x, d)
    requires At(m, base, EmitRedirected(rs, n, base, x, loops).cells)
    ensures DefsOk(m, g, EmitRedirected(rs, n, base, x, loops).defs)
    decreases n, 2
  {
    hide DefOk, At, EmitCmd, ShapeCmd, WfCmd, EmitRedirsOpen;
    var open := EmitRedirsOpen(rs, x.locals);
    var cmd := EmitCmd(n, base + |open|, x, loops);
    AtSplit(m, base, open, cmd.cells + Op(REDIR_RESTORE));
    AtSplit(m, base + |open|, cmd.cells, Op(REDIR_RESTORE));
    DefsCmd(m, g, n, base + |open|, x, loops, d);
    assert EmitRedirected(rs, n, base, x, loops).defs == cmd.defs;
  }

  lemma {:induction false} DefsFuncDef(m: Machine, g: Script, name: string, n: Cmd, base: nat, x: Static, loops: seq<Loop>)
    requires Placed(m, g, x, loops, ShapeCmd(FuncDef(name, n), x).names) && WfCmd(n, x.InFunction(name, n), 0)
    requires At(m, base, EmitFuncDef(name, n, base, x, loops).cells)
    ensures DefsOk(m, g, EmitFuncDef(name, n, base, x, loops).defs)
    decreases n, 2
  {
    hide At, EmitCmd, WfCmd, Within;
    var x1 := x.InFunction(name, n);
    var start := base + JUMP_SIZE;
    var body := EmitCmd(n, start, x1, loops);
    var names := ShapeCmd(n, x1).names;
    assert x.fns + ([name] + names) == x1.fns + names;
    AtSplit(m, base, JumpTo(JMP, base, start + |body.cells| + 1), body.cells + Op(RET));
    AtSplit(m, start, body.cells, Op(RET));
    DefsCmd(m, g, n, start, x1, loops, 0);
    var def := Def(name, n, start, x1, loops);
    assert DefOk(m, g, def);
    DefsJoin(m, g, [def], body.defs);
  }

  lemma {:induction false} DefsFor(m: Machine, g: Script, n: Cmd, base: nat, x: Static, loops: seq<Loop>, d: nat)
    requires n.For? && Placed(m, g, x, loops, ShapeCmd(n, x).names) && WfCmd(n, x, d)
    requires At(m, base, EmitFor(n, base, x, loops).cells)
    ensures DefsOk(m, g, EmitFor(n, base, x, loops).defs)
    decreases n, 0
  {
    hide DefOk, At, EmitProgram, ShapeProgram, WfProgram;
    ForSplit(m, n, base, x, loops);
    var top, brk := ForTop(n, base, x), ForBreak(n, base, x);
    var inner := loops + [Loop(top, brk)];
    DefsProgram(m, g, n.body, top + 10, x.InLoop(true), inner, d + 1);
    assert EmitFor(n, base, x, loops).defs == EmitProgram(n.body, top + 10, x.InLoop(true), inner).defs;
  }

  lemma {:induction false} DefsWhile(m: Machine, g: Script, n: Cmd, base: nat, x: Static, loops: seq<Loop>, d: nat)
    requires n.While? && Placed(m, g, x, loops, ShapeCmd(n, x).names) && WfCmd(n, x, d)
    requires At(m, base, EmitWhile(n, base, x, loops).cells)
    ensures DefsOk(m, g, EmitWhile(n, base, x, loops).defs)
    decreases n, 0
  {
    hide DefOk, At, EmitProgram, ShapeProgram, WfProgram, Within;
    WhileSplit(m, n, base, x, loops);
    var inner := WhileLoops(n, base, x, loops);
    var c1 := ShapeProgram(n.cond, x).names;
    var x1 := x.With(c1);
    var b1 := ShapeProgram(n.body, x1.InLoop(false)).names;
    var x2 := x1.With(b1);
    var c2 := ShapeProgram(n.cond, x2.InLoop(false)).names;
    assert ShapeCmd(n, x).names == c1 + (b1 + c2);
    PlacedSplit(m, g, x, loops, c1, b1 + c2);
    PlacedSplit(m, g, x1, loops, b1, c2);
    var start := WhileStart(n, base, x);
    var again := start + ShapeProgram(n.body, WhileBodyStatic(n, x)).size + 1;
    assert Within(m, inner) by { WithinMore(m, loops, Loop(0, WhileBreak(n, base, x))); }
    DefsProgram(m, g, n.cond, base + 1, x, loops, d);
    DefsProgram(m, g, n.body, start, WhileBodyStatic(n, x), inner, d + 1);
    DefsProgram(m, g, n.cond, again, WhileAgainStatic(n, x), inner, d + 1);
    var d1 := EmitProgram(n.cond, base + 1, x, loops).defs;
    var d2 := EmitProgram(n.body, start, WhileBodyStatic(n, x), inner).defs;
    var d3 := EmitProgram(n.cond, again, WhileAgainStatic(n, x), inner).defs;
    DefsJoin(m, g, d2, d3);
    DefsJoin(m, g, d1, d2 + d3);
    assert EmitWhile(n, base, x, loops).defs == d1 + (d2 + d3);
  }

  lemma WithinMore(m: Machine, loops: seq<Loop>, loop: Loop)
    requires Within(m, loops) && loop.cont <= |m.code| && loop.brk <= |m.code|
    ensures Within(m, loops + [loop])
  {
  }

  lemma {:induction false} DefsClauses(m: Machine, g: Script, n: Clauses, base: nat, x: Static, loops: seq<Loop>, end: nat, d: nat)
    requires Placed(m, g, x, loops, ShapeClauses(n, x).names) && WfClauses(n, x, d)
    requires At(m, base, EmitClauses(n, base, x, loops, end).cells)
    ensures DefsOk(m, g, EmitClauses(n, base, x, loops, end).defs)
    decreases n, 1
  {
    hide DefOk, At, EmitProgram, ShapeProgram, WfProgram, EmitBranch;
    match n
    case NoElse =>
    case Else(body) => DefsProgram(m, g, body, base, x, loops, d);
    case Elif(cond, body, rest) =>
      var cs := ShapeProgram(cond, x);
      var x1 := x.With(cs.names);
      var bs := ShapeProgram(body, x1);
      var e1 := EmitProgram(cond, base + 1, x, loops);
      var e2 := EmitBranch(n, base + 2 + cs.size, x, loops, end);
      AtSplit(m, base, Op(ERREXIT_PUSH), e1.cells + (Op(ERREXIT_POP) + e2.cells));
      AtSplit(m, base + 1, e1.cells, Op(ERREXIT_POP) + e2.cells);
      AtSplit(m, base + 1 + cs.size, Op(ERREXIT_POP), e2.cells);
      var more := bs.names + ShapeClauses(rest, x1.With(bs.names)).names;
      assert ShapeClauses(n, x).names == cs.names + more;
      PlacedSplit(m, g, x, loops, cs.names, more);
      DefsProgram(m, g, cond, base + 1, x, loops, d);
      DefsBranch(m, g, n, base + 2 + cs.size, x, loops, end, d);
      DefsJoin(m, g, e1.defs, e2.defs);
  }

  lemma {:induction false} DefsBranch(m: Machine, g: Script, n: Clauses, base: nat, x: Static, loops: seq<Loop>, end: nat, d: nat)
    requires n.Elif? && WfClauses(n, x, d) && |loops| == |x.flags|
    requires var x1 := x.With(ShapeProgram(n.cond, x).names);
             var bs := ShapeProgram(n.body, x1);
             Placed(m, g, x1, loops, bs.names + ShapeClauses(n.rest, x1.With(bs.names)).names)
    requires At(m, base, EmitBranch(n, base, x, loops, end).cells)
    ensures DefsOk(m, g, EmitBranch(n, base, x, loops, end).defs)
    decreases n, 0
  {
    hide DefOk, At, EmitProgram, ShapeProgram, WfProgram, EmitClauses;
    var x1 := x.With(ShapeProgram(n.cond, x).names);
    var bs := ShapeProgram(n.body, x1);
    var x2 := x1.With(bs.names);
    var start := base + JUMP_SIZE;
    var next := start + bs.size + JUMP_SIZE;
    var e1, e2 := EmitProgram(n.body, start, x1, loops), EmitClauses(n.rest, next, x2, loops, end);
    var jump := JumpTo(JMP, next - JUMP_SIZE, end);
    AtSplit(m, base, JumpTo(JMP_FALSE, base, next), e1.cells + (jump + e2.cells));
    AtSplit(m, start, e1.cells, jump + e2.cells);
    AtSplit(m, next - JUMP_SIZE, jump, e2.cells);
    PlacedSplit(m, g, x1, loops, bs.names, ShapeClauses(n.rest, x2).names);
    DefsProgram(m, g, n.body, start, x1, loops, d);
    DefsClauses(m, g, n.rest, next, x2, loops, end, d);
    DefsJoin(m, g, e1.defs, e2.defs);
  }

  lemma {:induction false} DefsArms(m: Machine, g: Script, n: Arms, base: nat, x: Static, loops: seq<Loop>, subject: Word, end: nat, d: nat)
    requires Placed(m, g, x, loops, ShapeArms(n, x, subject).names) && WfArms(n, x, subject, d)
    requires At(m, base, EmitArms(n, base, x, loops, subject, end).cells)
    ensures DefsOk(m, g, EmitArms(n, base, x, loops, subject, end).defs)
    decreases n, 0
  {
    hide DefOk, At, EmitProgram, ShapeProgram, WfProgram, EmitPatterns, PatternsSize, EmitWord;
    if n.Arm? {
      var skip := base + PatternsSize(n.patterns, subject, x.locals);
      var start := skip + SkipSize(n.patterns);
      var next := NextArm(n, start, x);
      var bs := ShapeProgram(n.body, x);
      var x1 := x.With(bs.names);
      var t1, t2 := EmitPatterns(n.patterns, base, subject, x.locals, start), EmitSkip(n.patterns, skip, next);
      var t3 := EmitArmBody(n, start, x, loops, subject, end);
      AtSplit(m, base, t1, t2 + t3.cells);
      AtSplit(m, skip, t2, t3.cells);
      NextArmAt(m, n, start, x, loops, subject, end);
      PlacedSplit(m, g, x, loops, bs.names, ShapeArms(n.rest, x1, subject).names);
      DefsProgram(m, g, n.body, start, x, loops, d);
      DefsArms(m, g, n.rest, next, x1, loops, subject, end, d);
      DefsJoin(m, g, EmitProgram(n.body, start, x, loops).defs, EmitArms(n.rest, next, x1, loops, subject, end).defs);
    }
  }

  // ---- whole programs ----

  /** The layout of a program: its code, then HALT. */
  function Layout(h: Host, p: Program): Emitted {
    EmitProgram(p, 0, TopLevel(h), [])
  }

  function ScriptOf(h: Host, p: Program): Script {
    Script(h, p, Layout(h, p).defs)
  }

  function FuncTable(defs: seq<Def>): seq<Func> {
    seq(|defs|, i requires 0 <= i < |defs| => Func(defs[i].name, defs[i].base))
  }

  /** The machine holds the image of a well-formed program that stays within the format's limits. */
  ghost predicate Loaded(m: Machine, p: Program) {
    && |m.code| < TWO31 && |m.pool| < TWO16 && |m.h.builtins| < TWO16 && |m.funcs| < TWO16
    && At(m, 0, Layout(m.h, p).cells + Op(HALT)) && |m.code| == |Layout(m.h, p).cells| + 1
    && m.funcs == FuncTable(Layout(m.h, p).defs)
    && WfProgram(p, TopLevel(m.h), 0)
  }

  function Start(s: State): Cfg {
    Cfg(0, [], s, [])
  }

  function Meaning(h: Host, p: Program, s: State, fuel: nat): Res {
    EvalProgram(ScriptOf(h, p), p, TopLevel(h), s, 0, fuel)
  }

  /** The state a program ends in, after the EXIT trap if it runs off its end; nothing if the bound was reached. */
  function Final(h: Host, r: Res): seq<State> {
    match r
    case Ok(s) => [s.(w := h.exitTrap(s.status, s.w))]
    case Exit(s) => [s]
    case _ => []
  }

  lemma Loading(m: Machine, p: Program)
    requires Loaded(m, p)
    ensures Linked(m, ScriptOf(m.h, p))
    ensures At(m, 0, Layout(m.h, p).cells) && At(m, |Layout(m.h, p).cells|, Op(HALT))
  {
    hide At, DefOk, EmitProgram, WfProgram, ShapeProgram;
    var g := ScriptOf(m.h, p);
    var x := TopLevel(m.h);
    AtSplit(m, 0, Layout(m.h, p).cells, Op(HALT));
    assert x.fns + ShapeProgram(p, x).names == Names(g.defs);
    DefsProgram(m, g, p, 0, x, [], 0);
  }

  /**
   Semantic preservation. A run from offset 0 ends in exactly the state the tree semantics gives, or goes on
   for at least `fuel` instructions if the semantics needs more than `fuel` iterations and calls.
   */
  lemma Preservation(m: Machine, p: Program, s: State, fuel: nat)
    requires Loaded(m, p)
    ensures var r := Meaning(m.h, p, s, fuel);
            if r.Timeout? then exists n: nat :: n >= fuel && Run(m, Start(s), n).Next?
            else |Final(m.h, r)| == 1 && exists n: nat :: Run(m, Start(s), n) == Stop(Final(m.h, r)[0])
  {
    hide Star, Run, Step, At, Linked, EmitProgram, EvalProgram, WfProgram;
    Loading(m, p);
    var g := ScriptOf(m.h, p);
    var a := Around([], [], 0);
    var c := Start(s);
    assert Ready(m, g, TopLevel(m.h), a, c, ShapeProgram(p, TopLevel(m.h)).names);
    SimProgram(m, g, p, TopLevel(m.h), a, c, fuel);
    var r := Meaning(m.h, p, s, fuel);
    if r.Ok? {
      Refl(m, c);
      var d := Arrive(m, c, c, r, |Layout(m.h, p).cells|, a, fuel);
      Decode0(m, d, HALT);
      LastStep(m, c, d, r.s.(w := m.h.exitTrap(r.s.status, r.s.w)));
    }
  }

  /** The run is deterministic, so it ends in `f` exactly if the semantics does, and it diverges exactly if the semantics does. */
  lemma HaltsExactlyIf(m: Machine, p: Program, s: State, f: State)
    requires Loaded(m, p)
    ensures (exists n: nat :: Run(m, Start(s), n) == Stop(f))
            <==> (exists fuel: nat :: Final(m.h, Meaning(m.h, p, s, fuel)) == [f])
  {
    hide Step, EvalProgram, EmitProgram, WfProgram, At, Meaning, Loaded;
    if n: nat :| Run(m, Start(s), n) == Stop(f) {
      Preservation(m, p, s, n);
      var r := Meaning(m.h, p, s, n);
      if r.Timeout? {
        var k: nat :| k >= n && Run(m, Start(s), k).Next?;
        RunAdd(m, Start(s), n, k - n);
        assert false;
      } else {
        var k: nat :| Run(m, Start(s), k) == Stop(Final(m.h, r)[0]);
        RunAdd(m, Start(s), n, k);
        RunAdd(m, Start(s), k, n);
        assert Final(m.h, r) == [f];
      }
    }
    if fuel: nat :| Final(m.h, Meaning(m.h, p, s, fuel)) == [f] {
      Preservation(m, p, s, fuel);
    }
  }

  /** No run of a loaded program underflows the operand stack or reads past the end of the code. */
  lemma NeverAborts(m: Machine, p: Program, s: State, n: nat)
    requires Loaded(m, p)
    ensures Run(m, Start(s), n) != Abort
  {
    hide Step, EvalProgram, EmitProgram, WfProgram, At, Meaning, Loaded;
    Preservation(m, p, s, n);
    var r := Meaning(m.h, p, s, n);
    if r.Timeout? {
      var k: nat :| k >= n && Run(m, Start(s), k).Next?;
      RunAdd(m, Start(s), n, k - n);
    } else {
      var k: nat :| Run(m, Start(s), k) == Stop(Final(m.h, r)[0]);
      RunAdd(m, Start(s), n, k);
      RunAdd(m, Start(s), k, n);
    }
  }
}
