/**
 The functions of an image: which they are, in which order, and what is known where their bodies are compiled, said by going
 through the program and without looking at its layout.
 */
module Functions {
  import opened Ast
  import opened Vm
  import opened Emit
  import opened Semantics
  import opened Accepts
  import opened Programs
  import opened LoopCounts
  import opened Commands

  datatype Defined = Defined(name: string, body: Cmd)

  /** The definitions in a command as they are compiled: an outer one before those in its body, a while condition twice. */
  function InCmd(c: Cmd): seq<Defined> {
    match c
    case Simple(_, _, _) => []
    case If(cs) => InClauses(cs)
    case For(_, _, body) => InProgram(body)
    case While(_, cond, body) => InProgram(cond) + (InProgram(body) + InProgram(cond))
    case Case(_, arms) => InArms(arms)
    case Group(body) => InProgram(body)
    case FuncDef(name, func) => [Defined(name, func)] + InCmd(func)
    case Bracket(_) => []
    case Redirected(_, cmd) => InCmd(cmd)
  }

  function InClauses(cs: Clauses): seq<Defined> {
    match cs
    case NoElse => []
    case Else(body) => InProgram(body)
    case Elif(cond, body, rest) => InProgram(cond) + (InProgram(body) + InClauses(rest))
  }

  function InArms(arms: Arms): seq<Defined> {
    match arms
    case NoArms => []
    case Arm(_, body, _, rest) => InProgram(body) + InArms(rest)
  }

  function InAndOr(a: AndOr): seq<Defined> {
    match a
    case Last(_, cmd) => InCmd(cmd)
    case Link(_, cmd, _, rest) => InCmd(cmd) + InAndOr(rest)
  }

  function InProgram(p: Program): seq<Defined> {
    match p
    case Nil => []
    case Then(head, tail) => InAndOr(head) + InProgram(tail)
  }

  /**
   The function is the definition, and its body is compiled knowing the functions before it and itself, and as local the
   names that some `local` in it declares.
   */
  ghost predicate Is(d: Def, e: Defined, builtins: seq<string>, before: seq<string>) {
    && d.name == e.name && d.body == e.body && d.x.builtins == builtins && d.x.fns == before + [e.name]
    && forall name :: name in d.x.locals <==> SomeDeclares(Inside(e.body), name)
  }

  ghost predicate Are(defs: seq<Def>, es: seq<Defined>, x: Static) {
    |defs| == |es| && forall i :: 0 <= i < |defs| ==> Is(defs[i], es[i], x.builtins, x.fns + Names(defs)[..i])
  }

  lemma AreJoin(d1: seq<Def>, e1: seq<Defined>, d2: seq<Def>, e2: seq<Defined>, x: Static)
    requires Are(d1, e1, x) && Are(d2, e2, x.With(Names(d1)))
    ensures Are(d1 + d2, e1 + e2, x)
  {
    hide Is;
    var n := |d1|;
    forall i | 0 <= i < |d1 + d2| ensures Is((d1 + d2)[i], (e1 + e2)[i], x.builtins, x.fns + Names(d1 + d2)[..i]) {
      if i < n {
        assert Names(d1 + d2)[..i] == Names(d1)[..i];
      } else {
        assert Names(d1 + d2)[..i] == Names(d1) + Names(d2)[..i - n];
        assert x.With(Names(d1)).fns + Names(d2)[..i - n] == x.fns + Names(d1 + d2)[..i];
      }
    }
  }

  lemma AreNone(x: Static)
    ensures Are([], [], x)
  {
  }

  lemma {:induction false} ProgramDefs(n: Program, base: nat, x: Static, loops: seq<Loop>)
    requires |loops| == |x.flags|
    ensures Are(EmitProgram(n, base, x, loops).defs, InProgram(n), x)
    decreases n, 0
  {
    hide Are, EmitAndOr, ShapeAndOr;
    match n {
      case Nil => AreNone(x);
      case Then(head, tail) =>
        var e1 := EmitAndOr(head, base, x, loops);
        var x1 := x.With(ShapeAndOr(head, x).names);
        AndOrDefs(head, base, x, loops);
        ProgramDefs(tail, base + |e1.cells|, x1, loops);
        AreJoin(e1.defs, InAndOr(head), EmitProgram(tail, base + |e1.cells|, x1, loops).defs, InProgram(tail), x);
    }
  }

  lemma {:induction false} AndOrDefs(n: AndOr, base: nat, x: Static, loops: seq<Loop>)
    requires |loops| == |x.flags|
    ensures Are(EmitAndOr(n, base, x, loops).defs, InAndOr(n), x)
    decreases n, 1
  {
    hide Are, EmitCmd, ShapeCmd;
    var e1 := EmitMember(n, base, x, loops);
    MemberDefs(n, base, x, loops);
    hide EmitMember, ShapeMember;
    if n.Link? {
      var x1 := x.With(ShapeMember(n, x).names);
      var e2 := EmitAndOr(n.rest, base + |e1.cells| + JUMP_SIZE, x1, loops);
      AndOrDefs(n.rest, base + |e1.cells| + JUMP_SIZE, x1, loops);
      AreJoin(e1.defs, InCmd(n.cmd), e2.defs, InAndOr(n.rest), x);
      assert EmitAndOr(n, base, x, loops).defs == e1.defs + e2.defs;
    }
  }

  lemma {:induction false} MemberDefs(n: AndOr, base: nat, x: Static, loops: seq<Loop>)
    requires |loops| == |x.flags|
    ensures Are(EmitMember(n, base, x, loops).defs, InCmd(n.cmd), x)
    decreases n, 0
  {
    hide Are, EmitCmd, ShapeCmd;
    var at := base + (if n.Link? then 1 else 0) + (if n.negated then 1 else 0);
    CmdDefs(n.cmd, at, x, loops);
    var pipe := EmitPipe(n.negated, n.cmd, base + (if n.Link? then 1 else 0), x, loops);
    assert pipe.defs == EmitCmd(n.cmd, at, x, loops).defs;
    assert EmitMember(n, base, x, loops).defs == pipe.defs;
  }

  lemma {:induction false} CmdDefs(n: Cmd, base: nat, x: Static, loops: seq<Loop>)
    requires |loops| == |x.flags|
    ensures Are(EmitCmd(n, base, x, loops).defs, InCmd(n), x)
    decreases n, 1
  {
    hide Are, EmitProgram, ShapeProgram, EmitFor, EmitWhile, EmitFuncDef, EmitClauses, EmitArms, EmitRedirected,
    EmitCommand, EmitLoopJump, EmitCond;
    match n {
      case Simple(_, _, words) => AreNone(x);
      case If(cs) => ClausesDefs(cs, base, x, loops, base + ShapeClauses(cs, x).size);
      case For(_, _, _) => ForDefs(n, base, x, loops);
      case While(_, _, _) => WhileDefs(n, base, x, loops);
      case Case(subject, arms) => ArmsDefs(arms, base, x, loops, subject, base + ShapeArms(arms, x, subject).size);
      case Group(body) => ProgramDefs(body, base, x, loops);
      case FuncDef(name, func) => FuncDefs(name, func, base, x, loops);
      case Bracket(_) => AreNone(x);
      case Redirected(rs, cmd) => RedirectedDefs(rs, cmd, base, x, loops);
    }
  }

  lemma {:induction false} RedirectedDefs(rs: seq<Redir>, n: Cmd, base: nat, x: Static, loops: seq<Loop>)
    requires |loops| == |x.flags|
    ensures Are(EmitRedirected(rs, n, base, x, loops).defs, InCmd(n), x)
    decreases n, 2
  {
    hide Are, EmitCmd, EmitRedirsOpen;
    CmdDefs(n, base + |EmitRedirsOpen(rs, x.locals)|, x, loops);
    assert EmitRedirected(rs, n, base, x, loops).defs == EmitCmd(n, base + |EmitRedirsOpen(rs, x.locals)|, x, loops).defs;
  }

  lemma {:induction false} FuncDefs(name: string, n: Cmd, base: nat, x: Static, loops: seq<Loop>)
    requires |loops| == |x.flags|
    ensures Are(EmitFuncDef(name, n, base, x, loops).defs, InCmd(FuncDef(name, n)), x)
    decreases n, 2
  {
    hide EmitCmd, SomeDeclares, Inside;
    var x1, start := x.InFunction(name, n), base + JUMP_SIZE;
    var def, body := Def(name, n, start, x1, loops), EmitCmd(n, start, x1, loops);
    CmdDefs(n, start, x1, loops);
    forall v: string ensures v in x1.locals <==> SomeDeclares(Inside(n), v) { LocalExactlyIf(n, v); }
    assert Names([def])[..0] == [] && x.fns + [] == x.fns && Names([def]) == [name];
    assert Is(def, Defined(name, n), x.builtins, x.fns);
    assert Are([def], [Defined(name, n)], x);
    hide Is, LocalsCmd;
    AreSame(body.defs, InCmd(n), x1, x.With(Names([def])));
    AreJoin([def], [Defined(name, n)], body.defs, InCmd(n), x);
  }

  /** Which loops are open and which names are local does not matter to the functions inside. */
  lemma AreSame(defs: seq<Def>, es: seq<Defined>, x: Static, y: Static)
    requires Are(defs, es, x) && x.fns == y.fns && x.builtins == y.builtins
    ensures Are(defs, es, y)
  {
    hide Is;
  }

  lemma {:induction false} ForDefs(n: Cmd, base: nat, x: Static, loops: seq<Loop>)
    requires n.For? && |loops| == |x.flags|
    ensures Are(EmitFor(n, base, x, loops).defs, InCmd(n), x)
    decreases n, 0
  {
    hide Are, EmitProgram, ShapeProgram, ForHead;
    var top, brk := ForTop(n, base, x), ForBreak(n, base, x);
    var inner := loops + [Loop(top, brk)];
    ProgramDefs(n.body, top + 2 + JUMP_SIZE + 3, x.InLoop(true), inner);
    var defs := EmitProgram(n.body, top + 2 + JUMP_SIZE + 3, x.InLoop(true), inner).defs;
    AreSame(defs, InProgram(n.body), x.InLoop(true), x);
    assert EmitFor(n, base, x, loops).defs == defs;
  }

  lemma {:induction false} WhileDefs(n: Cmd, base: nat, x: Static, loops: seq<Loop>)
    requires n.While? && |loops| == |x.flags|
    ensures Are(EmitWhile(n, base, x, loops).defs, InCmd(n), x)
    decreases n, 0
  {
    hide Are, EmitProgram, ShapeProgram;
    var start, inner := WhileStart(n, base, x), WhileLoops(n, base, x, loops);
    var x1, x2 := WhileBodyStatic(n, x), WhileAgainStatic(n, x);
    var e1 := EmitProgram(n.cond, base + 1, x, loops);
    var e2 := EmitProgram(n.body, start, x1, inner);
    var e3 := EmitProgram(n.cond, start + |e2.cells| + 1, x2, inner);
    ProgramDefs(n.cond, base + 1, x, loops);
    ProgramDefs(n.body, start, x1, inner);
    ProgramDefs(n.cond, start + |e2.cells| + 1, x2, inner);
    var y := x.With(Names(e1.defs));
    AreSame(e2.defs, InProgram(n.body), x1, y);
    AreSame(e3.defs, InProgram(n.cond), x2, y.With(Names(e2.defs)));
    AreJoin(e2.defs, InProgram(n.body), e3.defs, InProgram(n.cond), y);
    AreJoin(e1.defs, InProgram(n.cond), e2.defs + e3.defs, InProgram(n.body) + InProgram(n.cond), x);
    assert EmitWhile(n, base, x, loops).defs == e1.defs + (e2.defs + e3.defs);
  }

  lemma {:induction false} ClausesDefs(n: Clauses, base: nat, x: Static, loops: seq<Loop>, end: nat)
    requires |loops| == |x.flags|
    ensures Are(EmitClauses(n, base, x, loops, end).defs, InClauses(n), x)
    decreases n, 1
  {
    hide Are, EmitProgram, ShapeProgram, EmitBranch, ShapeClauses;
    match n {
      case NoElse => AreNone(x);
      case Else(body) => ProgramDefs(body, base, x, loops);
      case Elif(_, _, _) => ElifDefs(n, base, x, loops, end);
    }
  }

  lemma {:induction false} ElifDefs(n: Clauses, base: nat, x: Static, loops: seq<Loop>, end: nat)
    requires n.Elif? && |loops| == |x.flags|
    ensures Are(EmitClauses(n, base, x, loops, end).defs, InClauses(n), x)
    decreases n, 0, 1
  {
    hide Are, EmitProgram, ShapeProgram, EmitBranch, EmitClauses;
    var e1 := EmitProgram(n.cond, base + 1, x, loops);
    var e2 := EmitBranch(n, base + |e1.cells| + 2, x, loops, end);
    ProgramDefs(n.cond, base + 1, x, loops);
    BranchDefs(n, base + |e1.cells| + 2, x, loops, end);
    assert x.With(Names(e1.defs)) == x.With(ShapeProgram(n.cond, x).names);
    AreJoin(e1.defs, InProgram(n.cond), e2.defs, InProgram(n.body) + InClauses(n.rest), x);
    ElifIs(n, base, x, loops, end);
  }

  lemma ElifIs(n: Clauses, base: nat, x: Static, loops: seq<Loop>, end: nat)
    requires n.Elif? && |loops| == |x.flags|
    ensures var e1 := EmitProgram(n.cond, base + 1, x, loops);
            EmitClauses(n, base, x, loops, end).defs == e1.defs + EmitBranch(n, base + |e1.cells| + 2, x, loops, end).defs
  {
    hide EmitProgram, EmitBranch, ShapeProgram;
  }

  lemma {:induction false} BranchDefs(n: Clauses, base: nat, x: Static, loops: seq<Loop>, end: nat)
    requires n.Elif? && |loops| == |x.flags|
    ensures Are(EmitBranch(n, base, x, loops, end).defs, InProgram(n.body) + InClauses(n.rest),
                x.With(ShapeProgram(n.cond, x).names))
    decreases n, 0, 0
  {
    hide Are, EmitProgram, ShapeProgram, EmitClauses;
    var x1 := x.With(ShapeProgram(n.cond, x).names);
    var start := base + JUMP_SIZE;
    var b := EmitProgram(n.body, start, x1, loops);
    var x2, next := x1.With(ShapeProgram(n.body, x1).names), start + |b.cells| + JUMP_SIZE;
    var r := EmitClauses(n.rest, next, x2, loops, end);
    ProgramDefs(n.body, start, x1, loops);
    ClausesDefs(n.rest, next, x2, loops, end);
    AreJoin(b.defs, InProgram(n.body), r.defs, InClauses(n.rest), x1);
    assert EmitBranch(n, base, x, loops, end).defs == b.defs + r.defs;
  }

  lemma {:induction false} ArmsDefs(n: Arms, base: nat, x: Static, loops: seq<Loop>, subject: Word, end: nat)
    requires |loops| == |x.flags|
    ensures Are(EmitArms(n, base, x, loops, subject, end).defs, InArms(n), x)
    decreases n, 1
  {
    hide Are, EmitProgram, ShapeProgram, EmitPatterns, PatternsSize;
    match n {
      case NoArms => AreNone(x);
      case Arm(ps, body, ends, rest) =>
        var start := base + PatternsSize(ps, subject, x.locals) + SkipSize(ps);
        var next := NextArm(n, start, x);
        var e1 := EmitProgram(body, start, x, loops);
        var x1 := x.With(ShapeProgram(body, x).names);
        var e2 := EmitArms(rest, next, x1, loops, subject, end);
        ProgramDefs(body, start, x, loops);
        ArmsDefs(rest, next, x1, loops, subject, end);
        AreJoin(e1.defs, InProgram(body), e2.defs, InArms(rest), x);
        assert EmitArmBody(n, start, x, loops, subject, end).defs == e1.defs + e2.defs;
        assert EmitArms(n, base, x, loops, subject, end).defs == e1.defs + e2.defs;
    }
  }

  /**
   The function table of a program holds its definitions in the order in which they are written, each with its own body; a
   body is compiled knowing the functions above it and itself, and nothing defined below.
   */
  lemma FunctionsOf(h: Host, p: Program)
    ensures Are(Layout(h, p).defs, InProgram(p), Static(h.builtins, [], {}, []))
  {
    ProgramDefs(p, 0, TopLevel(h), []);
  }

  /** `n` definitions of functions with an empty body. */
  function Definitions(n: nat): Program {
    if n == 0 then Nil else Then(Last(false, FuncDef("f", Group(Nil))), Definitions(n - 1))
  }

  lemma DefinitionShape(x: Static)
    ensures ShapeAndOr(Last(false, FuncDef("f", Group(Nil))), x).names == ["f"]
    ensures AcceptsAndOr(Last(false, FuncDef("f", Group(Nil))), x) <==> |x.fns| < 512
  {
    var c := FuncDef("f", Group(Nil));
    var x1 := x.InFunction("f", Group(Nil));
    assert ShapeProgram(Nil, x1).names == [] && AcceptsProgram(Nil, x1);
    assert ShapeCmd(Group(Nil), x1).names == [] && AcceptsCmd(Group(Nil), x1);
    assert ShapeCmd(c, x).names == ["f"];
    assert ShapePipe(false, c, x).names == ["f"];
    assert ShapeMember(Last(false, c), x).names == ["f"];
  }

  lemma {:induction false} DefinitionsTaken(n: nat, x: Static)
    requires |x.fns| <= 512
    ensures AcceptsProgram(Definitions(n), x) <==> |x.fns| + n <= 512
    decreases n
  {
    hide AcceptsAndOr, ShapeAndOr;
    if n > 0 {
      DefinitionShape(x);
      if |x.fns| < 512 { DefinitionsTaken(n - 1, x.With(["f"])); }
    }
  }

  /** A program may define up to 512 functions. */
  lemma FunctionLimit(h: Host, n: nat)
    ensures AcceptsProgram(Definitions(n), TopLevel(h)) <==> n <= 512
  {
    hide AcceptsProgram;
    DefinitionsTaken(n, TopLevel(h));
  }
}
