/**
 What is claimed of a program holds of its functions too, so results about tidy, plain, contained and orderly scripts are
 results about runs of images on the machine.
 */
module StaticScripts {
  import opened Ast
  import opened Vm
  import opened Emit
  import opened Semantics
  import opened Bytecode
  import opened Runs
  import opened Wellformed
  import opened Simulation
  import opened Programs
  import opened Tidy
  import opened Errexit
  import opened Ledger
  import opened Nesting
  import opened Frames
  import opened Undoing
  import R = Redirections

  /** What is claimed of a piece of code, and inherited by the functions it defines. */
  datatype Claim = Claim(k: nat, held: bool, kind: Kind, j: nat, funcs: iset<R.Fds>, at: iset<R.Fds>) {
    ghost function Loop(): Claim {
      this.(k := k + 1, j := j + 1)
    }

    ghost function Held(): Claim {
      this.(k := 0, held := true)
    }

    ghost function Func(): Claim {
      this.(k := 0, held := false, j := 0, at := funcs)
    }
  }

  /** The functions have what the code has. */
  ghost predicate Inherit(h: Host, defs: seq<Def>, q: Claim, tidy: bool, kind: bool, fds: bool) {
    && (tidy ==> forall i :: 0 <= i < |defs| ==> TidyDef(h, defs[i]))
    && (kind ==> forall i :: 0 <= i < |defs| ==> KindDef(h, defs[i], q.kind))
    && (fds ==> forall i :: 0 <= i < |defs| ==> FdsDef(q.funcs, defs[i]))
  }

  ghost predicate FdsDef(funcs: iset<R.Fds>, def: Def) {
    FdsCmd(funcs, def.body, funcs)
  }

  /** Of two pieces of code, both. */
  lemma Both(h: Host, d1: seq<Def>, d2: seq<Def>, q: Claim, t1: bool, k1: bool, f1: bool, t2: bool, k2: bool, f2: bool)
    requires Inherit(h, d1, q, t1, k1, f1) && Inherit(h, d2, q, t2, k2, f2)
    ensures Inherit(h, d1 + d2, q, t1 && t2, k1 && k2, f1 && f2)
  {
    hide TidyDef, KindDef, FdsDef;
  }

  lemma {:induction false} DefsCmd(h: Host, n: Cmd, base: nat, x: Static, loops: seq<Loop>, q: Claim)
    requires |loops| == |x.flags| && x.builtins == h.builtins
    ensures Inherit(h, EmitCmd(n, base, x, loops).defs, q, TidyCmd(h, n, x.flags, q.k, q.held),
                    KindCmd(h, n, q.kind, x.flags, q.j), FdsCmd(q.funcs, n, q.at))
    decreases n, 1
  {
    hide TidyProgram, KindProgram, FdsProgram, EmitProgram, ShapeProgram, EmitClauses, EmitArms, EmitWhile, EmitFor, EmitCommand, EmitCond,
    EmitLoopJump, EmitRedirsOpen, Intercept, Steady, ShapeClauses, ShapeArms, TidyClauses, TidyArms, KindClauses, KindArms, FdsClauses, FdsArms, FdsOk, QuietName, KindSimple, JumpTo, LocalsCmd;
    match n
    case Simple(_, _, _) =>
    case If(cs) => DefsClauses(h, cs, base, x, loops, base + ShapeClauses(cs, x).size, q);
    case For(_, _, _) => DefsFor(h, n, base, x, loops, q);
    case While(_, _, _) => DefsWhile(h, n, base, x, loops, q);
    case Case(subject, arms) => DefsArms(h, arms, base, x, loops, subject, base + ShapeArms(arms, x, subject).size, q);
    case Group(body) => DefsProgram(h, body, base, x, loops, q);
    case FuncDef(name, func) => DefsCmd(h, func, base + JUMP_SIZE, x.InFunction(name, func), loops, q.Func());
    case Bracket(_) =>
    case Redirected(rs, cmd) => DefsCmd(h, cmd, base + |EmitRedirsOpen(rs, x.locals)|, x, loops, q.(j := 0, at := FdsAfter(rs, q.at)));
  }

  lemma {:induction false} DefsFor(h: Host, n: Cmd, base: nat, x: Static, loops: seq<Loop>, q: Claim)
    requires n.For? && |loops| == |x.flags| && x.builtins == h.builtins
    ensures Inherit(h, EmitFor(n, base, x, loops).defs, q, TidyCmd(h, n, x.flags, q.k, q.held),
                    KindCmd(h, n, q.kind, x.flags, q.j), FdsCmd(q.funcs, n, q.at))
    decreases n, 0
  {
    hide TidyProgram, KindProgram, FdsProgram, EmitProgram, ShapeProgram, TidyDef, KindDef, FdsDef, ForHead;
    var top, brk := ForTop(n, base, x), ForBreak(n, base, x);
    DefsProgram(h, n.body, top + 10, x.InLoop(true), loops + [Loop(top, brk)], q.Loop());
  }

  lemma {:induction false} DefsWhile(h: Host, n: Cmd, base: nat, x: Static, loops: seq<Loop>, q: Claim)
    requires n.While? && |loops| == |x.flags| && x.builtins == h.builtins
    ensures Inherit(h, EmitWhile(n, base, x, loops).defs, q, TidyCmd(h, n, x.flags, q.k, q.held),
                    KindCmd(h, n, q.kind, x.flags, q.j), FdsCmd(q.funcs, n, q.at))
    decreases n, 0
  {
    hide TidyProgram, KindProgram, FdsProgram, EmitProgram, ShapeProgram, TidyDef, KindDef, FdsDef;
    var inner := WhileLoops(n, base, x, loops);
    var start := WhileStart(n, base, x);
    var body := EmitProgram(n.body, start, WhileBodyStatic(n, x), inner);
    DefsProgram(h, n.cond, base + 1, x, loops, q.Held());
    DefsProgram(h, n.body, start, WhileBodyStatic(n, x), inner, q.Loop());
    DefsProgram(h, n.cond, start + |body.cells| + 1, WhileAgainStatic(n, x), inner, q.Loop().Held());
  }

  lemma {:induction false} DefsClauses(h: Host, n: Clauses, base: nat, x: Static, loops: seq<Loop>, end: nat, q: Claim)
    requires |loops| == |x.flags| && x.builtins == h.builtins
    ensures Inherit(h, EmitClauses(n, base, x, loops, end).defs, q, TidyClauses(h, n, x.flags, q.k, q.held),
                    KindClauses(h, n, q.kind, x.flags, q.j), FdsClauses(q.funcs, n, q.at))
    decreases n, 1
  {
    hide TidyProgram, KindProgram, FdsProgram, EmitProgram, ShapeProgram, TidyDef, KindDef, FdsDef, JumpTo;
    match n
    case NoElse =>
    case Else(body) => DefsProgram(h, body, base, x, loops, q);
    case Elif(cond, body, rest) =>
      var x1 := x.With(ShapeProgram(cond, x).names);
      var start := base + ShapeProgram(cond, x).size + 2 + JUMP_SIZE;
      var next := start + ShapeProgram(body, x1).size + JUMP_SIZE;
      DefsProgram(h, cond, base + 1, x, loops, q.Held());
      DefsProgram(h, body, start, x1, loops, q);
      DefsClauses(h, rest, next, x1.With(ShapeProgram(body, x1).names), loops, end, q);
  }

  lemma {:induction false} DefsArms(h: Host, n: Arms, base: nat, x: Static, loops: seq<Loop>, subject: Word, end: nat, q: Claim)
    requires |loops| == |x.flags| && x.builtins == h.builtins
    ensures Inherit(h, EmitArms(n, base, x, loops, subject, end).defs, q, TidyArms(h, n, x.flags, q.k, q.held),
                    KindArms(h, n, q.kind, x.flags, q.j), FdsArms(q.funcs, n, q.at))
    decreases n, 1
  {
    hide TidyProgram, KindProgram, FdsProgram, EmitProgram, ShapeProgram, TidyDef, KindDef, FdsDef, EmitPatterns, PatternsSize;
    if n.Arm? {
      var start := base + PatternsSize(n.patterns, subject, x.locals) + SkipSize(n.patterns);
      DefsProgram(h, n.body, start, x, loops, q);
      var next, x1 := NextArm(n, start, x), x.With(ShapeProgram(n.body, x).names);
      DefsArms(h, n.rest, next, x1, loops, subject, end, q);
      hide Inherit;
      Both(h, EmitProgram(n.body, start, x, loops).defs, EmitArms(n.rest, next, x1, loops, subject, end).defs, q,
           TidyProgram(h, n.body, x.flags, q.k, q.held), KindProgram(h, n.body, q.kind, x.flags, q.j),
           FdsProgram(q.funcs, n.body, q.at), TidyArms(h, n.rest, x1.flags, q.k, q.held),
           KindArms(h, n.rest, q.kind, x1.flags, q.j), FdsArms(q.funcs, n.rest, q.at));
    }
  }

  lemma {:induction false} DefsPipe(h: Host, negated: bool, n: Cmd, base: nat, x: Static, loops: seq<Loop>, q: Claim)
    requires |loops| == |x.flags| && x.builtins == h.builtins 
    ensures Inherit(h, EmitPipe(negated, n, base, x, loops).defs, q, TidyPipe(h, negated, n, x.flags, q.k, q.held),
                    KindCmd(h, n, q.kind, x.flags, q.j), FdsCmd(q.funcs, n, q.at))
    decreases n, 2
  {
    hide TidyCmd, KindCmd, FdsCmd, EmitCmd, TidyDef, KindDef, FdsDef;
    if negated { DefsCmd(h, n, base + 1, x, loops, q.Held()); } else { DefsCmd(h, n, base, x, loops, q); }
  }

  lemma {:induction false} DefsAndOr(h: Host, n: AndOr, base: nat, x: Static, loops: seq<Loop>, q: Claim)
    requires |loops| == |x.flags| && x.builtins == h.builtins
    ensures Inherit(h, EmitAndOr(n, base, x, loops).defs, q, TidyAndOr(h, n, x.flags, q.k, q.held),
                    KindAndOr(h, n, q.kind, x.flags, q.j), FdsAndOr(q.funcs, n, q.at))
    decreases n, 1
  {
    hide TidyPipe, KindCmd, FdsCmd, EmitPipe, TidyDef, KindDef, FdsDef, JumpTo, ShapeMember;
    if n.Link? {
      DefsPipe(h, n.negated, n.cmd, base + 1, x, loops, q.Held());
      DefsAndOr(h, n.rest, base + ShapeMember(n, x).size + JUMP_SIZE, x.With(ShapeMember(n, x).names), loops, q);
    } else {
      DefsPipe(h, n.negated, n.cmd, base, x, loops, q);
    }
  }

  lemma {:induction false} DefsProgram(h: Host, n: Program, base: nat, x: Static, loops: seq<Loop>, q: Claim)
    requires |loops| == |x.flags| && x.builtins == h.builtins
    ensures Inherit(h, EmitProgram(n, base, x, loops).defs, q, TidyProgram(h, n, x.flags, q.k, q.held),
                    KindProgram(h, n, q.kind, x.flags, q.j), FdsProgram(q.funcs, n, q.at))
    decreases n, 1
  {
    hide TidyAndOr, KindAndOr, FdsAndOr, EmitAndOr, TidyDef, KindDef, FdsDef;
    if n.Then? {
      DefsAndOr(h, n.head, base, x, loops, q);
      DefsProgram(h, n.tail, base + ShapeAndOr(n.head, x).size, x.With(ShapeAndOr(n.head, x).names), loops, q);
    }
  }

  lemma TidyImage(h: Host, p: Program)
    requires TidyProgram(h, p, [], 0, false)
    ensures Ground(ScriptOf(h, p), TopLevel(h))
  {
    hide EmitProgram, TidyProgram, KindProgram, FdsProgram, KindDef, FdsDef;
    DefsProgram(h, p, 0, TopLevel(h), [], Claim(0, false, PlainCode, 0, iset{}, iset{}));
  }

  lemma KindImage(h: Host, p: Program, kind: Kind)
    requires KindProgram(h, p, kind, [], 0)
    ensures Sort(ScriptOf(h, p), TopLevel(h), kind)
  {
    hide EmitProgram, TidyProgram, KindProgram, FdsProgram, TidyDef, FdsDef;
    DefsProgram(h, p, 0, TopLevel(h), [], Claim(0, false, kind, 0, iset{}, iset{}));
  }

  lemma FdsImage(h: Host, p: Program, funcs: iset<R.Fds>, at: iset<R.Fds>)
    requires FdsProgram(funcs, p, at)
    ensures FdsScript(ScriptOf(h, p), funcs)
  {
    hide EmitProgram, TidyProgram, KindProgram, FdsProgram, TidyDef, KindDef;
    DefsProgram(h, p, 0, TopLevel(h), [], Claim(0, false, PlainCode, 0, funcs, at));
    var g := ScriptOf(h, p);
    forall i | 0 <= i < |g.defs| ensures FdsCmd(funcs, g.defs[i].body, funcs) {
      assert FdsDef(funcs, g.defs[i]);
    }
  }

  lemma SoundImage(m: Machine, p: Program)
    requires Loaded(m, p)
    ensures Sound(ScriptOf(m.h, p))
  {
    hide At, EmitProgram, WfProgram, ShapeProgram, WfCmd;
    Loading(m, p);
    var g := ScriptOf(m.h, p);
    forall i | 0 <= i < |g.defs| ensures WfCmd(g.defs[i].body, g.defs[i].x, 0) {
      assert DefOk(m, g, g.defs[i]);
    }
  }

  /**
   The machine on the image of a tidy program, started with any counter `n`: it does what the evaluator without a
   counter says of `n` enclosing regions, and if it runs off the end of the code, it stops with the counter at `n` again.
   */
  lemma TidyRun(m: Machine, p: Program, b: Bare, fuel: nat, n: nat)
    requires Loaded(m, p) && TidyProgram(m.h, p, [], 0, false)
    ensures match NestProgram(ScriptOf(m.h, p), p, TopLevel(m.h), b, 0, fuel, n)
            case Fine(b1) =>
              exists i: nat :: Run(m, Start(With(b, n)), i) == Stop(With(b1.(w := m.h.exitTrap(b1.status, b1.w)), n))
            case Exited(b1) => exists i: nat, f: State :: Run(m, Start(With(b, n)), i) == Stop(f) && Strip(f) == b1
            case Unfinished => exists i: nat :: i >= fuel && Run(m, Start(With(b, n)), i).Next?
            case _ => false
  {
    hide Run, EvalProgram, NestProgram, EmitProgram, TidyProgram, Loaded, Ground;
    var s := With(b, n);
    Preservation(m, p, s, fuel);
    TidyImage(m.h, p);
    CounterIsNesting(ScriptOf(m.h, p), p, TopLevel(m.h), b, 0, fuel, n);
    var r := Meaning(m.h, p, s, fuel);
    assert Shed(r) == NestProgram(ScriptOf(m.h, p), p, TopLevel(m.h), b, 0, fuel, n);
  }

  // ---- on the machine ----

  /**
   The machine on any image, if it runs off the end of the code: the errexit counter, the open redirection frames and the
   scopes have grown by exactly what the ledger of the program says.
   */
  lemma LedgerRun(m: Machine, p: Program, s: State, fuel: nat, level: World -> int)
    requires Loaded(m, p) && Meaning(m.h, p, s, fuel).Ok?
    ensures var debt := LedgerProgram(ScriptOf(m.h, p), p, TopLevel(m.h), s, 0, fuel);
            exists n: nat, f: State ::
              && Run(m, Start(s), n) == Stop(f.(w := m.h.exitTrap(f.status, f.w)))
              && f.supp == s.supp + debt.guards
              && f.redirs == s.redirs + debt.frames
              && (Levels(m.h, level) ==> level(f.w) == level(s.w) + debt.scopes)
  {
    hide Run, EvalProgram, LedgerProgram, EmitProgram, WfProgram, Levels, KindScript, KindProgram;
    Preservation(m, p, s, fuel);
    SoundImage(m, p);
    KeptProgram(ScriptOf(m.h, p), p, TopLevel(m.h), s, 0, fuel);
    LevelNatural(m.h, s, level);
    FrameProgram(ScriptOf(m.h, p), p, TopLevel(m.h), s, 0, fuel, level, 0, PlainCode, 0);
    var f := Meaning(m.h, p, s, fuel).s;
    assert Final(m.h, Ok(f))[0] == f.(w := m.h.exitTrap(f.status, f.w));
  }

  lemma LevelNatural(h: Host, s: State, level: World -> int)
    ensures Levels(h, level) ==> level(s.w) >= 0
  {
  }

  /** For a plain program that is: no scopes; for a contained one: no frames. */
  lemma KindRun(m: Machine, p: Program, s: State, fuel: nat, level: World -> int, kind: Kind)
    requires Loaded(m, p) && Meaning(m.h, p, s, fuel).Ok? && KindProgram(m.h, p, kind, [], 0)
    ensures exists n: nat, f: State ::
              && Run(m, Start(s), n) == Stop(f.(w := m.h.exitTrap(f.status, f.w)))
              && (kind.Contained? ==> f.redirs == s.redirs)
              && (kind.PlainCode? && Levels(m.h, level) ==> level(f.w) == level(s.w))
  {
    hide Run, EvalProgram, LedgerProgram, EmitProgram, WfProgram, Levels, KindScript, KindProgram, Loaded, Sound;
    LedgerRun(m, p, s, fuel, level);
    SoundImage(m, p);
    KindImage(m.h, p, kind);
    assert WfProgram(p, TopLevel(m.h), 0) by { assert Loaded(m, p); LoadedWf(m, p); }
    FrameProgram(ScriptOf(m.h, p), p, TopLevel(m.h), s, 0, fuel, level, 0, kind, 0);
  }

  lemma LoadedWf(m: Machine, p: Program)
    requires Loaded(m, p)
    ensures WfProgram(p, TopLevel(m.h), 0)
  {
    hide WfProgram;
  }

  /**
   The machine on the image of a contained program whose redirections can be undone: if it runs off the end of
   the code, every descriptor is what it was, and so are the saved frames.
   */
  lemma TablesRun(m: Machine, p: Program, s: State, fuel: nat, t: Tables, funcs: iset<R.Fds>, at: iset<R.Fds>)
    requires Loaded(m, p) && Meaning(m.h, p, s, fuel).Ok? && KindProgram(m.h, p, Contained, [], 0)
    requires TableLaws(m.h, t) && FdsProgram(funcs, p, at) && TableIn(t, s, at)
    ensures exists n: nat, f: State ::
              && Run(m, Start(s), n) == Stop(f.(w := m.h.exitTrap(f.status, f.w)))
              && t.view(f.w) == t.view(s.w) && f.redirs == s.redirs
  {
    hide Run, EvalProgram, EmitProgram, WfProgram, KindScript, KindProgram, FdsProgram, TableLaws, TableIn, Sound, FdsScript, Loaded;
    Preservation(m, p, s, fuel);
    SoundImage(m, p);
    KindImage(m.h, p, Contained);
    FdsImage(m.h, p, funcs, at);
    LoadedWf(m, p);
    UndoProgram(ScriptOf(m.h, p), p, TopLevel(m.h), s, 0, fuel, t, funcs, at, 0, 0);
    var f := Meaning(m.h, p, s, fuel).s;
    assert Final(m.h, Ok(f))[0] == f.(w := m.h.exitTrap(f.status, f.w));
  }

  /** The machine on the same image with `set -e` switched off for good. */
  function Calmed(m: Machine): Machine {
    m.(h := Calm(m.h))
  }

  lemma CalmedLoaded(m: Machine, p: Program)
    requires Loaded(m, p)
    ensures Loaded(Calmed(m), p) && ScriptOf(Calmed(m).h, p) == CalmScript(ScriptOf(m.h, p))
  {
    hide EmitProgram, WfProgram;
    var c := Calmed(m);
    assert TopLevel(c.h) == TopLevel(m.h) && Layout(c.h, p) == Layout(m.h, p);
    assert At(c, 0, Layout(m.h, p).cells + Op(HALT)) by {
      forall i | 0 <= i < |Layout(m.h, p).cells + Op(HALT)|
        ensures Holds(c.pool, c.code[0 + i], (Layout(m.h, p).cells + Op(HALT))[i])
      {
        assert Holds(m.pool, m.code[0 + i], (Layout(m.h, p).cells + Op(HALT))[i]);
      }
    }
  }

  /** On the machine: a run that starts with a raised counter stops in the same states as with `set -e` off for good. */
  lemma RaisedRun(m: Machine, p: Program, s: State, f: State)
    requires Loaded(m, p) && s.supp > 0
    ensures (exists n: nat :: Run(m, Start(s), n) == Stop(f)) <==> (exists n: nat :: Run(Calmed(m), Start(s), n) == Stop(f))
  {
    hide Run, Loaded, EvalProgram;
    CalmedLoaded(m, p);
    HaltsExactlyIf(m, p, s, f);
    HaltsExactlyIf(Calmed(m), p, s, f);
    forall fuel: nat
      ensures Final(Calmed(m).h, Meaning(Calmed(m).h, p, s, fuel)) == Final(m.h, Meaning(m.h, p, s, fuel))
    {
      KeptProgram(ScriptOf(m.h, p), p, TopLevel(m.h), s, 0, fuel);
      assert TopLevel(Calmed(m).h) == TopLevel(m.h);
    }
  }
}
