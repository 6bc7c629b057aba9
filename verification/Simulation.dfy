/** The code of every construct does on the machine what the tree semantics says. */
module Simulation {
  import opened Bytes
  import opened Bytecode
  import opened Ast
  import opened Vm
  import opened Emit
  import opened Semantics
  import opened Runs
  import opened Words
  import opened Wellformed

  // ---- what has to hold around a piece of code ----

  ghost predicate Within(m: Machine, loops: seq<Loop>) {
    forall i :: 0 <= i < |loops| ==> loops[i].cont <= |m.code| && loops[i].brk <= |m.code|
  }

  /** A function's body is in memory, followed by RET. */
  ghost predicate DefOk(m: Machine, g: Script, f: Def) {
    && |f.loops| == |f.x.flags| && f.x.builtins == g.h.builtins && Within(m, f.loops)
    && f.x.fns + ShapeCmd(f.body, f.x).names <= Names(g.defs)
    && WfCmd(f.body, f.x, 0)
    && At(m, f.base, EmitCmd(f.body, f.base, f.x, f.loops).cells + Op(RET))
  }

  /** The program is at the start of memory, followed by HALT. */
  ghost predicate MainOk(m: Machine, g: Script) {
    && WfProgram(g.main, TopLevel(g.h), 0)
    && ShapeProgram(g.main, TopLevel(g.h)).names <= Names(g.defs)
    && At(m, 0, EmitProgram(g.main, 0, TopLevel(g.h), []).cells + Op(HALT))
  }

  ghost predicate Linked(m: Machine, g: Script) {
    && Sized(m, g.h) && |g.h.builtins| < TWO16 && |g.defs| < TWO16
    && |m.funcs| == |g.defs|
    && (forall i :: 0 <= i < |g.defs| ==> m.funcs[i] == Func(g.defs[i].name, g.defs[i].base))
    && (forall i :: 0 <= i < |g.defs| ==> DefOk(m, g, g.defs[i]))
    && MainOk(m, g)
  }

  /** The loops around a piece of code; the innermost `d` belong to the same segment. */
  datatype Around = Around(flags: seq<bool>, loops: seq<Loop>, d: nat)

  /** A loop without an iterator has no continue target of its own. */
  ghost predicate Targets(a: Around)
    requires |a.loops| == |a.flags| && a.d <= |a.loops|
  {
    forall i :: |a.loops| - a.d <= i < |a.loops| && !a.flags[i] ==> a.loops[i].cont == 0
  }

  ghost predicate Ready(m: Machine, g: Script, x: Static, a: Around, c: Cfg, names: seq<string>) {
    && Linked(m, g)
    && |a.loops| == |a.flags| && a.flags == x.flags && a.d <= |a.loops| && Targets(a)
    && x.builtins == g.h.builtins && Within(m, a.loops)
    && x.fns + names <= Names(g.defs)
    && Floor(c) + Iters(a.flags, a.d) <= |c.stack|
  }

  /** What the running function may not pop. */
  function Floor(c: Cfg): nat {
    if c.frames == [] then 0 else c.frames[|c.frames| - 1].base
  }

  /**
   Where a result leaves the machine: behind the code; at the target of the loop it is aimed at, with the
   iterators of exactly the loops inside that loop popped; behind the call; or stopped.
   */
  function GoalOf(r: Res, end: nat, c: Cfg, a: Around): Goal {
    match r
    case Ok(s) => To(c.(ip := end, s := s))
    case Brk(k, s) =>
      if k < a.d <= |a.loops| == |a.flags| && Iters(a.flags, k) <= |c.stack| then
        To(c.(ip := a.loops[|a.loops| - 1 - k].brk, stack := c.stack[..|c.stack| - Iters(a.flags, k)], s := s))
      else Never
    case Cont(k, s) =>
      if k < a.d <= |a.loops| == |a.flags| && Iters(a.flags, k) <= |c.stack| && a.flags[|a.flags| - 1 - k] then
        To(c.(ip := a.loops[|a.loops| - 1 - k].cont, stack := c.stack[..|c.stack| - Iters(a.flags, k)], s := s))
      else Never
    case Ret(s) => if |c.frames| == 0 then Never else To(PopFrame(c).(s := s))
    case Exit(s) => StopAt(s)
    case Timeout => Forever
  }

  // ---- composing runs ----

  lemma Chain(m: Machine, c: Cfg, c1: Cfg, r: Res, end1: nat, end: nat, a: Around, fuel: nat)
    requires Star(m, c, c1) && c1.stack == c.stack && c1.frames == c.frames
    requires r.Ok? ==> end1 == end
    requires Meets(m, c1, fuel, GoalOf(r, end1, c1, a))
    ensures Meets(m, c, fuel, GoalOf(r, end, c, a))
  {
    hide Star, Meets, Run, Iters;
    assert GoalOf(r, end1, c1, a) == GoalOf(r, end, c, a);
    Onward(m, c, c1, fuel, GoalOf(r, end1, c1, a));
  }

  lemma Arrive(m: Machine, c: Cfg, c1: Cfg, r: Res, end: nat, a: Around, fuel: nat) returns (d: Cfg)
    requires Star(m, c, c1) && r.Ok? && Meets(m, c1, fuel, GoalOf(r, end, c1, a))
    ensures d == c1.(ip := end, s := r.s) && Star(m, c, d)
  {
    d := c1.(ip := end, s := r.s);
    Trans(m, c, c1, d);
  }

  lemma Done(m: Machine, c: Cfg, d: Cfg, fuel: nat)
    requires Star(m, c, d)
    ensures Meets(m, c, fuel, To(d))
  {
  }

  lemma AnyFuel(m: Machine, c: Cfg, f1: nat, f2: nat, s: State)
    requires Meets(m, c, f1, StopAt(s))
    ensures Meets(m, c, f2, StopAt(s))
  {
  }

  lemma {:induction false} IterMono(flags: seq<bool>, j: nat, k: nat)
    requires j <= k <= |flags|
    ensures Iters(flags, j) <= Iters(flags, k)
    decreases k
  {
    if j < k { IterMono(flags, j, k - 1); }
  }

  lemma {:induction false} IterSnoc(flags: seq<bool>, b: bool, k: nat)
    requires k <= |flags|
    ensures Iters(flags + [b], k + 1) == Iters(flags, k) + (if b then 1 else 0)
    decreases k
  {
    if k == 0 {
      assert Iters(flags + [b], 1) == (if (flags + [b])[|flags|] then 1 else 0) + Iters(flags + [b], 0);
    } else {
      IterSnoc(flags, b, k - 1);
    }
  }

  function Inside(a: Around, loop: Loop, hasIterator: bool): Around {
    Around(a.flags + [hasIterator], a.loops + [loop], a.d + 1)
  }

  /** A result that leaves a loop for good has the same goal seen from inside and from outside. */
  lemma LeaveGoal(m: Machine, c: Cfg, b: Cfg, r: Res, end1: nat, end: nat, a: Around, loop: Loop, iter: seq<Value>, fuel: nat)
    requires |a.loops| == |a.flags| && a.d <= |a.loops| && |iter| <= 1
    requires b.stack == c.stack + iter && b.frames == c.frames
    requires Floor(c) <= |c.stack|
    requires !r.Ok? && !LeaveLoop(r).Ok?
    requires Meets(m, b, fuel, GoalOf(r, end1, b, Inside(a, loop, iter != [])))
    ensures Meets(m, b, fuel, GoalOf(LeaveLoop(r), end, c, a))
  {
    hide Star, Run, Iters;
    if (r.Brk? || r.Cont?) && r.k <= a.d {
      IterSnoc(a.flags, iter != [], r.k - 1);
      var n := Iters(a.flags, r.k - 1);
      if n <= |c.stack| {
        assert b.stack[..|b.stack| - Iters(a.flags + [iter != []], r.k)] == c.stack[..|c.stack| - n];
      }
    } else if r.Ret? && c.frames != [] {
      var f := c.frames[|c.frames| - 1];
      assert b.stack[..f.base] == c.stack[..f.base];
      assert PopFrame(b).(s := r.s) == PopFrame(c).(s := r.s);
    }
  }

  // ---- simple commands ----

  lemma {:induction false} DoPops(m: Machine, c0: Cfg, c: Cfg, n: nat) returns (d: Cfg)
    requires Star(m, c0, c) && At(m, c.ip, Pops(n)) && n <= |c.stack|
    ensures d == c.(ip := c.ip + n, stack := c.stack[..|c.stack| - n]) && Star(m, c0, d)
    decreases n
  {
    hide Star, Run, Step, At;
    if n == 0 {
      d := c;
    } else {
      assert Pops(n) == Op(POP) + Pops(n - 1);
      AtSplit(m, c.ip, Op(POP), Pops(n - 1));
      Decode0(m, c, POP);
      var e := c.(ip := c.ip + 1, stack := c.stack[..|c.stack| - 1]);
      OneStep(m, c0, c, e);
      d := DoPops(m, c0, e, n - 1);
    }
  }

  /** break and continue pop the iterators of the loops they leave, but not that of the loop they reach. */
  lemma {:induction false} SimLoopJump(m: Machine, g: Script, n: Cmd, x: Static, a: Around, c: Cfg, fuel: nat)
    requires Ready(m, g, x, a, c, []) && n.Simple? && Intercept(n.words).Jump? && WfSimple(n, x, a.d)
    requires At(m, c.ip, EmitCmd(n, c.ip, x, a.loops).cells)
    ensures Meets(m, c, fuel, GoalOf(EvalSimple(g, n, x, c.s, |c.frames|, fuel), c.ip + ShapeSimple(n, x).size, c, a))
    decreases fuel, n, 1, 0
  {
    hide Star, Run, Step, At, Iters, Linked, Intercept, EvalProgram;
    var Jump(isBreak, count) := Intercept(n.words);
    var k := Clamp(count, |x.flags|) - 1;
    var pops := Iters(x.flags, k);
    var target := a.loops[|a.loops| - 1 - k];
    var to := if isBreak then target.brk else target.cont;
    IterMono(a.flags, k, a.d);
    AtSplit(m, c.ip, Pops(pops), JumpTo(JMP, c.ip + pops, to));
    Refl(m, c);
    var d := DoPops(m, c, c, pops);
    assert |m.code| < TWO31 by { assert Linked(m, g); LinkedSized(m, g); }
    d := DoJump(m, c, d, JMP, to);
    if isBreak || x.flags[|x.flags| - 1 - k] {
      Done(m, c, d, fuel);
    } else {
      assert d.ip == 0 by { assert target == a.loops[|a.loops| - (k + 1)]; }
      SimRestart(m, g, n, a, c, d, fuel);
    }
  }

  /** At offset 0 the whole program runs again; off its end it halts, and a return in it ends the running function. */
  lemma {:induction false} SimRestart(m: Machine, g: Script, n: Cmd, a: Around, c: Cfg, d: Cfg, fuel: nat)
    requires Linked(m, g) && Plus(m, c, d) && d.ip == 0 && d.frames == c.frames
    requires Floor(c) <= |d.stack| <= |c.stack| && d.stack == c.stack[..|d.stack|] && d.s == c.s
    ensures forall end :: Meets(m, c, fuel, GoalOf(EvalRestart(g, n, c.s, |c.frames|, fuel), end, c, a))
    decreases fuel, n, 0, 0
  {
    hide Star, Plus, Run, Step, At, DefOk, EvalProgram, EmitProgram, ShapeProgram, WfProgram;
    if fuel == 0 {
      NoFuel(m, c);
    } else {
      var x, top := TopLevel(g.h), Around([], [], 0);
      var code := EmitProgram(g.main, 0, x, []).cells;
      AtSplit(m, 0, code, Op(HALT));
      assert x.fns + ShapeProgram(g.main, x).names == ShapeProgram(g.main, x).names;
      SimProgram(m, g, g.main, x, top, d, fuel - 1);
      var r := EvalProgram(g, g.main, x, d.s, |d.frames|, fuel - 1);
      match r {
        case Ok(s) =>
          Refl(m, d);
          var e := Arrive(m, d, d, r, |code|, top, fuel - 1);
          Decode0(m, e, HALT);
          var f := s.(w := g.h.exitTrap(s.status, s.w));
          LastStep(m, d, e, f);
          AnyFuel(m, d, 0, fuel - 1, f);
          AfterPlus(m, c, d, fuel, StopAt(f));
        case Ret(s) =>
          assert PopFrame(d).(s := s) == PopFrame(c).(s := s);
          AfterPlus(m, c, d, fuel, To(PopFrame(c).(s := s)));
        case Exit(s) => AfterPlus(m, c, d, fuel, StopAt(s));
        case Timeout => AfterPlus(m, c, d, fuel, Forever);
        case Brk(_, _) =>
        case Cont(_, _) =>
      }
    }
  }

  lemma LinkedSized(m: Machine, g: Script)
    requires Linked(m, g)
    ensures Sized(m, g.h)
  {
  }

  /** What a resumed command leaves behind is the goal of its result. */
  lemma SimResume(m: Machine, c0: Cfg, c: Cfg, d: Cfg, after: After, end: nat, a: Around, fuel: nat)
    requires Star(m, c0, c) && Step(m, c) == Resume(d, after)
    requires d.ip == end && d.stack == c0.stack && d.frames == c0.frames
    requires Floor(c0) <= |c0.stack|
    requires after.Unwind? ==> c0.frames != []
    ensures Meets(m, c0, fuel, GoalOf(FromAfter(after), end, c0, a))
  {
    hide Star, Run, Step;
    match after
    case Go(s) =>
      OneStep(m, c0, c, d.(s := s));
      Done(m, c0, d.(s := s), fuel);
    case Halted(s) =>
      LastStep(m, c0, c, s);
      AnyFuel(m, c0, 0, fuel, s);
    case Unwind(s) =>
      var e := PopFrame(d).(s := s);
      assert e == PopFrame(c0).(s := s);
      OneStep(m, c0, c, e);
      Done(m, c0, e, fuel);
  }

  lemma SameFunc(m: Machine, g: Script, name: string)
    requires Linked(m, g)
    ensures FindFunc(m.funcs, name) == IndexOf(Names(g.defs), name)
  {
    hide DefOk, Sized;
    var f, i := FindFunc(m.funcs, name), IndexOf(Names(g.defs), name);
    if i < |g.defs| { assert m.funcs[i].name == name; }
    if f < |g.defs| { assert Names(g.defs)[f] == name; }
  }

  /** The three command opcodes do what name resolution says. */
  lemma ExecStep(m: Machine, g: Script, n: Cmd, x: Static, c: Cfg, d: Cfg, argv: seq<string>)
    requires Linked(m, g) && x.builtins == g.h.builtins && |x.fns| <= |g.defs|
    requires n.Simple? && |n.words| > 0
    requires At(m, c.ip, EmitExec(n.words, x))
    requires c.stack == d.stack + GroupOf(argv) && d == c.(ip := c.ip + |EmitExec(n.words, x)|, stack := d.stack)
    ensures match Resolve(g, n.words, x, argv, c.s, |c.frames|)
            case Ended(after) => Step(m, c) == Resume(d, after)
            case Callee(f) => f < |m.funcs| && Step(m, c) == Call(m, d, f, argv)
  {
    hide Star, Run, Step, At, DefOk, Invoke, Enter, Resume, Errexit, PopGroup, FindFunc, Call;
    var name := if IsLiteral(n.words[0]) then n.words[0][0].text else "";
    var b, f := IndexOf(x.builtins, name), IndexOf(x.fns, name);
    hide IndexOf;
    if IsLiteral(n.words[0]) && b < |x.builtins| {
      ExecBuiltinStep(m, g, c, d, argv, b);
    } else if IsLiteral(n.words[0]) && f < |x.fns| {
      ExecFuncStep(m, g, c, d, argv, f);
    } else {
      ExecSimpleStep(m, g, c, d, argv);
    }
  }

  lemma ExecBuiltinStep(m: Machine, g: Script, c: Cfg, d: Cfg, argv: seq<string>, b: nat)
    requires Linked(m, g) && b < |g.h.builtins| && At(m, c.ip, Op16(EXEC_BUILTIN, b))
    requires c.stack == d.stack + GroupOf(argv) && d == c.(ip := c.ip + 3, stack := d.stack)
    ensures Step(m, c) == Resume(d, Invoke(g.h, Builtin(b), argv, c.s, |c.frames|))
  {
    hide Star, Run, Step, At, DefOk, Invoke, Enter, Resume, Errexit, PopGroup, IndexOf, FindFunc;
    PopGroupOf(d.stack, argv);
    Decode16(m, c, EXEC_BUILTIN, b);
  }

  lemma ExecFuncStep(m: Machine, g: Script, c: Cfg, d: Cfg, argv: seq<string>, f: nat)
    requires Linked(m, g) && f < |g.defs| && At(m, c.ip, Op16(EXEC_FUNC, f))
    requires c.stack == d.stack + GroupOf(argv) && d == c.(ip := c.ip + 3, stack := d.stack)
    ensures f < |m.funcs| && Step(m, c) == Call(m, d, f, argv)
  {
    hide Star, Run, Step, At, DefOk, Invoke, Enter, Resume, Errexit, PopGroup, IndexOf, FindFunc;
    PopGroupOf(d.stack, argv);
    Decode16(m, c, EXEC_FUNC, f);
  }

  /** A name that is looked up when it runs. */
  lemma ExecSimpleStep(m: Machine, g: Script, c: Cfg, d: Cfg, argv: seq<string>)
    requires Linked(m, g) && At(m, c.ip, Op1(EXEC_SIMPLE, 0))
    requires c.stack == d.stack + GroupOf(argv) && d == c.(ip := c.ip + 2, stack := d.stack)
    ensures if argv == [] then Step(m, c) == Resume(d, Errexit(g.h, Go(c.s)))
            else
              match Dynamic(g, argv, c.s, |c.frames|)
              case Ended(after) => Step(m, c) == Resume(d, after)
              case Callee(f) => f < |m.funcs| && Step(m, c) == Call(m, d, f, argv)
  {
    hide Star, Run, Step, At, DefOk, Invoke, Enter, Resume, Errexit, PopGroup, IndexOf, FindFunc;
    PopGroupOf(d.stack, argv);
    Decode1(m, c, EXEC_SIMPLE, 0);
    if argv != [] { SameFunc(m, g, argv[0]); }
  }

  lemma ResolveUnwind(g: Script, words: seq<Word>, x: Static, argv: seq<string>, s: State, depth: nat)
    requires |words| > 0
    ensures Resolve(g, words, x, argv, s, depth).Ended? && Resolve(g, words, x, argv, s, depth).a.Unwind? ==> depth > 0
  {
  }

  lemma {:induction false} SimExec(m: Machine, g: Script, n: Cmd, x: Static, a: Around, c0: Cfg, c: Cfg,
                                   argv: seq<string>, fuel: nat)
    requires Ready(m, g, x, a, c0, []) && n.Simple? && |n.words| > 0
    requires Star(m, c0, c) && c.stack == c0.stack + GroupOf(argv) && c.frames == c0.frames
    requires At(m, c.ip, EmitExec(n.words, x))
    ensures Meets(m, c0, fuel,
                  GoalOf(EvalExec(g, n, x, argv, c.s, |c0.frames|, fuel), c.ip + |EmitExec(n.words, x)|, c0, a))
    decreases fuel, n, 0, 2
  {
    hide Star, Meets, Run, Step, At, DefOk, Invoke, Enter, EmitExec, Resolve, Call, GoalOf, GroupOf;
    var end := c.ip + |EmitExec(n.words, x)|;
    var d := c.(ip := end, stack := c0.stack);
    ExecStep(m, g, n, x, c, d, argv);
    ResolveUnwind(g, n.words, x, argv, c.s, |c0.frames|);
    match Resolve(g, n.words, x, argv, c.s, |c0.frames|)
    case Ended(after) =>
      SimResume(m, c0, c, d, after, end, a, fuel);
    case Callee(f) =>
      SimCall(m, g, n, f, a, c0, c, d, argv, fuel);
  }

  /** A call comes back to just behind itself with the operand stack and the call depth it started from. */
  lemma {:induction false} SimCall(m: Machine, g: Script, n: Cmd, f: nat, a: Around, c0: Cfg, c: Cfg, d: Cfg,
                                   argv: seq<string>, fuel: nat)
    requires Linked(m, g) && f < |g.defs| && Star(m, c0, c)
    requires Step(m, c) == Call(m, d, f, argv) && d.stack == c0.stack && d.frames == c0.frames && d.s == c.s
    ensures Meets(m, c0, fuel, GoalOf(EvalCallee(g, n, f, argv, c.s, |c0.frames|, fuel), d.ip, c0, a))
    decreases fuel, n, 0, 1
  {
    hide Star, Meets, Run, Step, At, DefOk, Enter, EvalCmd, EmitCmd, WfCmd, ShapeCmd;
    match Enter(g.h, argv, c.s, |c0.frames|)
    case Halted(s) =>
      LastStep(m, c0, c, s);
      AnyFuel(m, c0, 0, fuel, s);
    case Unwind(s) =>
      LastStep(m, c0, c, s);
      AnyFuel(m, c0, 0, fuel, s);
    case Go(s1) =>
      var b := Cfg(g.defs[f].base, d.stack, s1, d.frames + [Frame(d.ip, |d.stack|)]);
      OneStep(m, c0, c, b);
      if fuel == 0 {
        NoFuel(m, c0);
      } else {
        SimBody(m, g, n, f, a, c0, b, d, fuel);
      }
  }

  lemma {:induction false} SimBody(m: Machine, g: Script, n: Cmd, f: nat, a: Around, c0: Cfg, b: Cfg, d: Cfg, fuel: nat)
    requires Linked(m, g) && f < |g.defs| && fuel > 0 && Plus(m, c0, b)
    requires b == Cfg(g.defs[f].base, d.stack, b.s, d.frames + [Frame(d.ip, |d.stack|)])
    requires d.stack == c0.stack && d.frames == c0.frames
    ensures Meets(m, c0, fuel,
                  GoalOf(FromBody(g.h, EvalCmd(g, g.defs[f].body, g.defs[f].x, b.s, |c0.frames| + 1, fuel - 1)),
                         d.ip, c0, a))
    decreases fuel, n, 0, 0
  {
    hide Star, Plus, Run, Step, At, EvalCmd, WfCmd, EmitCmd, ShapeCmd;
    var def := g.defs[f];
    var code := EmitCmd(def.body, def.base, def.x, def.loops).cells;
    assert DefOk(m, g, def);
    AtSplit(m, def.base, code, Op(RET));
    var inner := Around(def.x.flags, def.loops, 0);
    SimCmd(m, g, def.body, def.x, inner, b, fuel - 1);
    var r := EvalCmd(g, def.body, def.x, b.s, |c0.frames| + 1, fuel - 1);
    match r
    case Ok(s) =>
      Refl(m, b);
      var e := Arrive(m, b, b, r, def.base + |code|, inner, fuel - 1);
      Decode0(m, e, RET);
      var back := d.(s := s.(w := g.h.leave(s.w)));
      OneStep(m, b, e, back);
      Done(m, b, back, fuel - 1);
      AfterPlus(m, c0, b, fuel, To(back));
    case Ret(s) =>
      var back := d.(s := s);
      assert PopFrame(b).(s := s) == back;
      AfterPlus(m, c0, b, fuel, To(back));
    case Exit(s) =>
      AfterPlus(m, c0, b, fuel, StopAt(s));
    case Timeout =>
      AfterPlus(m, c0, b, fuel, Forever);
    case Brk(_, _) =>
    case Cont(_, _) =>
  }

  // ---- handing readiness on ----

  lemma ReadySplit(m: Machine, g: Script, x: Static, a: Around, c: Cfg, c1: Cfg, n1: seq<string>, n2: seq<string>)
    requires Ready(m, g, x, a, c, n1 + n2) && c1.stack == c.stack && c1.frames == c.frames
    ensures Ready(m, g, x, a, c1, n1)
    ensures Ready(m, g, x.With(n1), a, c1, n2)
  {
    hide Linked, Within, Iters;
    var all := Names(g.defs);
    assert x.fns + (n1 + n2) == (x.fns + n1) + n2;
    assert x.fns + n1 == all[..|x.fns + n1|];
  }

  lemma ReadyFirst(m: Machine, g: Script, x: Static, a: Around, c: Cfg, c1: Cfg, names: seq<string>)
    requires Ready(m, g, x, a, c, names) && c1.stack == c.stack && c1.frames == c.frames
    ensures Ready(m, g, x, a, c1, names)
    ensures Ready(m, g, x, a, c1, [])
    ensures Sized(m, g.h)
  {
    hide Within, Iters, DefOk;
    assert x.fns + [] == x.fns;
    assert x.fns == Names(g.defs)[..|x.fns|];
  }

  /** Entering a loop: its iterator, if it has one, is on top of the stack. */
  lemma ReadyInside(m: Machine, g: Script, x: Static, a: Around, c: Cfg, b: Cfg, loop: Loop, iter: seq<Value>, names: seq<string>)
    requires Ready(m, g, x, a, c, names) && b.stack == c.stack + iter && |iter| <= 1 && b.frames == c.frames
    requires loop.cont <= |m.code| && loop.brk <= |m.code| && (iter == [] ==> loop.cont == 0)
    ensures Ready(m, g, x.InLoop(iter != []), Inside(a, loop, iter != []), b, names)
  {
    hide Linked, Iters, Targets;
    IterSnoc(a.flags, iter != [], a.d);
    TargetsInside(a, loop, iter != []);
  }

  lemma TargetsInside(a: Around, loop: Loop, hasIterator: bool)
    requires |a.loops| == |a.flags| && a.d <= |a.loops| && Targets(a) && (!hasIterator ==> loop.cont == 0)
    ensures Targets(Inside(a, loop, hasIterator))
  {
  }

  // ---- simple commands, whole ----

  /** The opening of a command with words: its scope, its assignments and its redirections. */
  function EmitPrepare(n: Cmd, x: Static): seq<Cell>
    requires n.Simple?
  {
    (if n.assigns != [] then Op1(PUSH_SCOPE, 1) else [])
    + (EmitAssigns(n.assigns, true, x.locals) + EmitRedirsOpen(n.redirs, x.locals))
  }

  lemma Regroup(a: seq<Cell>, b: seq<Cell>, c: seq<Cell>, d: seq<Cell>)
    ensures (a + (b + c)) + d == a + (b + (c + d))
  {
  }

  lemma CommandSplit(m: Machine, n: Cmd, x: Static, pos: nat)
    requires n.Simple? && n.words != [] && At(m, pos, EmitCommand(n, x))
    ensures var t1, t2, t3, t4 := EmitPrepare(n, x), EmitArgs(n.words, true, x.locals), EmitExec(n.words, x), EmitFinish(n);
            && At(m, pos, t1) && At(m, pos + |t1|, t2) && At(m, pos + |t1| + |t2|, t3) && At(m, pos + |t1| + |t2| + |t3|, t4)
            && |EmitCommand(n, x)| == |t1| + |t2| + |t3| + |t4|
  {
    hide At, EmitAssigns, EmitRedirsOpen, EmitArgs, EmitExec, IsBareExec;
    var t1, t2, t3, t4 := EmitPrepare(n, x), EmitArgs(n.words, true, x.locals), EmitExec(n.words, x), EmitFinish(n);
    Regroup(if n.assigns != [] then Op1(PUSH_SCOPE, 1) else [], EmitAssigns(n.assigns, true, x.locals),
            EmitRedirsOpen(n.redirs, x.locals), t2 + (t3 + t4));
    assert EmitCommand(n, x) == t1 + (t2 + (t3 + t4));
    AtSplit(m, pos, t1, t2 + (t3 + t4));
    AtSplit(m, pos + |t1|, t2, t3 + t4);
    AtSplit(m, pos + |t1| + |t2|, t3, t4);
  }

  lemma RunPrepare(m: Machine, c: Cfg, n: Cmd, x: Static) returns (d: Cfg)
    requires Sized(m, m.h) && n.Simple? && SmallAssigns(n.assigns) && SmallRedirs(n.redirs)
    requires At(m, c.ip, EmitPrepare(n, x))
    ensures match Prepare(m.h, n, x.locals, c.s)
            case Ok(s) => d == c.(ip := c.ip + |EmitPrepare(n, x)|, s := s) && Star(m, c, d)
            case Exit(s) => Meets(m, c, 0, StopAt(s))
            case _ => false
  {
    hide Star, Run, Step, At, EmitAssigns, EmitRedirsOpen, StoreAll, OpenRedirs, SmallAssigns, SmallRedirs;
    var t1 := if n.assigns != [] then Op1(PUSH_SCOPE, 1) else [];
    var t2, t3 := EmitAssigns(n.assigns, true, x.locals), EmitRedirsOpen(n.redirs, x.locals);
    AtSplit(m, c.ip, t1, t2 + t3);
    AtSplit(m, c.ip + |t1|, t2, t3);
    Refl(m, c);
    d := c;
    if n.assigns != [] {
      Decode1(m, c, PUSH_SCOPE, 1);
      d := c.(ip := c.ip + 2, s := c.s.(w := m.h.pushScope(1, c.s.w)));
      OneStep(m, c, c, d);
    }
    d := RunAssigns(m, c, d, n.assigns, true, x.locals);
    d := RunRedirsOpen(m, c, d, n.redirs, x.locals);
  }

  lemma {:induction false} SimCommand(m: Machine, g: Script, n: Cmd, x: Static, a: Around, c: Cfg, fuel: nat)
    requires Ready(m, g, x, a, c, []) && n.Simple? && Intercept(n.words).NotIntercepted? && WfSimple(n, x, a.d)
    requires n.words != [] && At(m, c.ip, EmitCommand(n, x))
    ensures Meets(m, c, fuel, GoalOf(EvalSimple(g, n, x, c.s, |c.frames|, fuel), c.ip + |EmitCommand(n, x)|, c, a))
    decreases fuel, n, 1, 0
  {
    hide Star, Run, Step, At, Intercept, EmitPrepare, EmitArgs, EmitExec, EmitFinish, EvalExec, Argv, Prepare, Iters, DefOk, Within,
    Restore, SmallWords, SmallAssigns, SmallRedirs, Targets, MainOk, EmitCommand;
    CommandSplit(m, n, x, c.ip);
    Refl(m, c);
    var d := RunPrepare(m, c, n, x);
    match Prepare(g.h, n, x.locals, c.s) {
      case Exit(s) => AnyFuel(m, c, 0, fuel, s);
      case Ok(s) =>
        var c4 := PushArgs(m, c, d, n.words, true, x.locals);
        var argv := Argv(g.h, n.words, true, x.locals, s);
        SimExec(m, g, n, x, a, c, c4, argv, fuel);
        var r := EvalExec(g, n, x, argv, s, |c.frames|, fuel);
        var mid := c4.ip + |EmitExec(n.words, x)|;
        if r.Ok? {
          var c5 := Arrive(m, c, c, r, mid, a, fuel);
          SimFinish(m, n, c, c5);
          Done(m, c, c.(ip := c.ip + |EmitCommand(n, x)|, s := Finish(m.h, n, c5.s)), fuel);
        } else {
          Chain(m, c, c, r, mid, c.ip + |EmitCommand(n, x)|, a, fuel);
        }
    }
  }

  function EmitFinish(n: Cmd): seq<Cell>
    requires n.Simple?
  {
    (if n.assigns != [] then Op(POP_SCOPE) else []) + (if IsBareExec(n.words) then [] else Op(REDIR_RESTORE))
  }

  lemma SimFinish(m: Machine, n: Cmd, c0: Cfg, c: Cfg)
    requires n.Simple? && Star(m, c0, c) && At(m, c.ip, EmitFinish(n))
    ensures Star(m, c0, c.(ip := c.ip + |EmitFinish(n)|, s := Finish(m.h, n, c.s)))
  {
    hide Star, Run, Step, At, IsBareExec, Restore;
    var t := if n.assigns != [] then Op(POP_SCOPE) else [];
    AtSplit(m, c.ip, t, if IsBareExec(n.words) then [] else Op(REDIR_RESTORE));
    var d := c;
    if n.assigns != [] {
      Decode0(m, c, POP_SCOPE);
      d := c.(ip := c.ip + 1, s := c.s.(w := m.h.popScope(c.s.w)));
      OneStep(m, c0, c, d);
    }
    if !IsBareExec(n.words) {
      var e := RunRestore(m, c0, d);
    }
  }

  lemma {:induction false} SimSimple(m: Machine, g: Script, n: Cmd, x: Static, a: Around, c: Cfg, fuel: nat)
    requires Ready(m, g, x, a, c, []) && n.Simple? && WfSimple(n, x, a.d)
    requires At(m, c.ip, EmitCmd(n, c.ip, x, a.loops).cells)
    ensures Meets(m, c, fuel, GoalOf(EvalSimple(g, n, x, c.s, |c.frames|, fuel), c.ip + ShapeSimple(n, x).size, c, a))
    decreases fuel, n, 1, 1
  {
    hide Star, Run, Step, At, Intercept, EmitAssigns, StoreAll, Prepare, EmitLoopJump, Iters, DefOk, Within,
    SmallWords, SmallAssigns, SmallRedirs, EmitArgs, EmitExec;
    match Intercept(n.words) {
      case Jump(_, _) => SimLoopJump(m, g, n, x, a, c, fuel);
      case NotIntercepted =>
        if n.words == [] { SimAssigns(m, g, n, x, a, c, fuel); } else { SimCommand(m, g, n, x, a, c, fuel); }
      case _ =>
    }
  }

  /** Assignments alone. */
  lemma SimAssigns(m: Machine, g: Script, n: Cmd, x: Static, a: Around, c: Cfg, fuel: nat)
    requires Ready(m, g, x, a, c, []) && n.Simple? && n.words == [] && Intercept(n.words).NotIntercepted? && SmallAssigns(n.assigns)
    requires At(m, c.ip, EmitCommand(n, x))
    ensures Meets(m, c, fuel, GoalOf(EvalSimple(g, n, x, c.s, |c.frames|, fuel), c.ip + |EmitCommand(n, x)|, c, a))
  {
    hide Star, Run, Step, At, Intercept, EmitAssigns, StoreAll, Prepare, Iters, DefOk, Within, SmallAssigns;
    Refl(m, c);
    var d := RunAssigns(m, c, c, n.assigns, false, x.locals);
    Done(m, c, d, fuel);
  }

  // ---- lists ----

  lemma {:induction false} SimProgram(m: Machine, g: Script, p: Program, x: Static, a: Around, c: Cfg, fuel: nat)
    requires Ready(m, g, x, a, c, ShapeProgram(p, x).names) && WfProgram(p, x, a.d)
    requires At(m, c.ip, EmitProgram(p, c.ip, x, a.loops).cells)
    ensures Meets(m, c, fuel,
                  GoalOf(EvalProgram(g, p, x, c.s, |c.frames|, fuel), c.ip + ShapeProgram(p, x).size, c, a))
    decreases fuel, p, 4
  {
    hide Star, Meets, Run, Step, At, DefOk, Linked, Within, Iters, GoalOf, EvalAndOr, EmitAndOr, ShapeAndOr, WfAndOr;
    Refl(m, c);
    match p
    case Nil => Straight(m, c, c, a, fuel);
    case Then(head, tail) =>
      var hs := ShapeAndOr(head, x);
      var x1 := x.With(hs.names);
      ReadySplit(m, g, x, a, c, c, hs.names, ShapeProgram(tail, x1).names);
      AtSplit(m, c.ip, EmitAndOr(head, c.ip, x, a.loops).cells, EmitProgram(tail, c.ip + hs.size, x1, a.loops).cells);
      SimAndOr(m, g, head, x, a, c, fuel);
      var r := EvalAndOr(g, head, x, c.s, |c.frames|, fuel);
      var end := c.ip + ShapeProgram(p, x).size;
      if r.Ok? {
        var c1 := Arrive(m, c, c, r, c.ip + hs.size, a, fuel);
        ReadySplit(m, g, x, a, c, c1, hs.names, ShapeProgram(tail, x1).names);
        SimProgram(m, g, tail, x1, a, c1, fuel);
        Chain(m, c, c1, EvalProgram(g, tail, x1, c1.s, |c.frames|, fuel), end, end, a, fuel);
      } else {
        Chain(m, c, c, r, c.ip + hs.size, end, a, fuel);
      }
  }

  /** Straight-line code that has been run through. */
  lemma Straight(m: Machine, c: Cfg, d: Cfg, a: Around, fuel: nat)
    requires Star(m, c, d) && d.stack == c.stack && d.frames == c.frames
    ensures Meets(m, c, fuel, GoalOf(Ok(d.s), d.ip, c, a))
  {
    assert d == c.(ip := d.ip, s := d.s);
  }

  lemma {:induction false} SimAndOr(m: Machine, g: Script, n: AndOr, x: Static, a: Around, c: Cfg, fuel: nat)
    requires Ready(m, g, x, a, c, ShapeAndOr(n, x).names) && WfAndOr(n, x, a.d)
    requires At(m, c.ip, EmitAndOr(n, c.ip, x, a.loops).cells)
    ensures Meets(m, c, fuel, GoalOf(EvalAndOr(g, n, x, c.s, |c.frames|, fuel), c.ip + ShapeAndOr(n, x).size, c, a))
    decreases fuel, n, 4
  {
    hide Star, Meets, Run, Step, At, DefOk, Linked, Within, Iters, GoalOf, EvalMember, EvalLinks, EmitMember, EmitLinks, ShapeMember, WfCmd;
    if n.Last? {
      SimMember(m, g, n, x, a, c, fuel);
    } else {
      var ms := ShapeMember(n, x);
      var x1 := x.With(ms.names);
      var ls := ShapeAndOr(n.rest, x1);
      var mid, end := c.ip + ms.size, c.ip + ms.size + JUMP_SIZE + ls.size;
      ReadySplit(m, g, x, a, c, c, ms.names, ls.names);
      AtSplit(m, c.ip, EmitMember(n, c.ip, x, a.loops).cells, EmitLinks(n.isAnd, n.rest, mid, x1, a.loops).cells);
      SimMember(m, g, n, x, a, c, fuel);
      Refl(m, c);
      var r := EvalMember(g, n, x, c.s, |c.frames|, fuel);
      if r.Ok? {
        var d := Arrive(m, c, c, r, mid, a, fuel);
        ReadySplit(m, g, x, a, c, d, ms.names, ls.names);
        SimLinks(m, g, n.isAnd, n.rest, x1, a, d, fuel);
        Chain(m, c, d, EvalLinks(g, n.isAnd, n.rest, x1, d.s, |c.frames|, fuel), end, end, a, fuel);
      } else {
        Chain(m, c, c, r, mid, end, a, fuel);
      }
    }
  }

  lemma {:induction false} SimLinks(m: Machine, g: Script, isAnd: bool, n: AndOr, x: Static, a: Around, c: Cfg, fuel: nat)
    requires Ready(m, g, x, a, c, ShapeAndOr(n, x).names) && WfAndOr(n, x, a.d)
    requires At(m, c.ip, EmitLinks(isAnd, n, c.ip, x, a.loops).cells)
    ensures Meets(m, c, fuel,
                  GoalOf(EvalLinks(g, isAnd, n, x, c.s, |c.frames|, fuel), c.ip + JUMP_SIZE + ShapeAndOr(n, x).size, c, a))
    decreases fuel, n, 5
  {
    hide Star, Meets, Run, Step, At, DefOk, Linked, Within, Iters, GoalOf, EvalAndOr, EmitAndOr, ShapeMember, ShapeAndOr, WfAndOr;
    var ms, size := ShapeMember(n, x), ShapeAndOr(n, x).size;
    var next, end := c.ip + JUMP_SIZE + ms.size, c.ip + JUMP_SIZE + size;
    AtSplit(m, c.ip, JumpTo(LinkOp(isAnd), c.ip, next), EmitAndOr(n, c.ip + JUMP_SIZE, x, a.loops).cells);
    MemberBound(n, x);
    Refl(m, c);
    ReadyFirst(m, g, x, a, c, c, ShapeAndOr(n, x).names);
    var d := DoJump(m, c, c, LinkOp(isAnd), next);
    if isAnd == (c.s.status == 0) {
      ReadyFirst(m, g, x, a, c, d, ShapeAndOr(n, x).names);
      SimAndOr(m, g, n, x, a, d, fuel);
      Chain(m, c, d, EvalAndOr(g, n, x, d.s, |c.frames|, fuel), end, end, a, fuel);
    } else {
      SimSkipped(m, g, n, x, a, c, d, fuel);
    }
  }

  lemma MemberBound(n: AndOr, x: Static)
    ensures ShapeMember(n, x).size <= ShapeAndOr(n, x).size
  {
  }

  /** Behind a member that was skipped. */
  lemma {:induction false} SimSkipped(m: Machine, g: Script, n: AndOr, x: Static, a: Around, c: Cfg, d: Cfg, fuel: nat)
    requires Ready(m, g, x, a, c, ShapeAndOr(n, x).names) && WfAndOr(n, x, a.d)
    requires At(m, c.ip + JUMP_SIZE, EmitAndOr(n, c.ip + JUMP_SIZE, x, a.loops).cells)
    requires Star(m, c, d) && d == c.(ip := c.ip + JUMP_SIZE + ShapeMember(n, x).size)
    ensures Meets(m, c, fuel,
                  GoalOf(if n.Link? then EvalLinks(g, n.isAnd, n.rest, x.With(ShapeMember(n, x).names), c.s, |c.frames|, fuel)
                         else Ok(c.s), c.ip + JUMP_SIZE + ShapeAndOr(n, x).size, c, a))
    decreases fuel, n, 4
  {
    hide Star, Meets, Run, Step, At, DefOk, Linked, Within, Iters, GoalOf, EvalLinks, EmitLinks, EmitMember, ShapeMember, WfCmd;
    if n.Last? {
      Straight(m, c, d, a, fuel);
    } else {
      var ms := ShapeMember(n, x);
      var x1 := x.With(ms.names);
      var ls := ShapeAndOr(n.rest, x1);
      var end := d.ip + JUMP_SIZE + ls.size;
      AtSplit(m, c.ip + JUMP_SIZE, EmitMember(n, c.ip + JUMP_SIZE, x, a.loops).cells,
              EmitLinks(n.isAnd, n.rest, d.ip, x1, a.loops).cells);
      ReadySplit(m, g, x, a, c, d, ms.names, ls.names);
      SimLinks(m, g, n.isAnd, n.rest, x1, a, d, fuel);
      Chain(m, c, d, EvalLinks(g, n.isAnd, n.rest, x1, d.s, |c.frames|, fuel), end, end, a, fuel);
    }
  }

  lemma {:induction false} SimMember(m: Machine, g: Script, n: AndOr, x: Static, a: Around, c: Cfg, fuel: nat)
    requires Ready(m, g, x, a, c, ShapeMember(n, x).names) && WfCmd(n.cmd, x, a.d)
    requires At(m, c.ip, EmitMember(n, c.ip, x, a.loops).cells)
    ensures Meets(m, c, fuel, GoalOf(EvalMember(g, n, x, c.s, |c.frames|, fuel), c.ip + ShapeMember(n, x).size, c, a))
    decreases fuel, n, 2
  {
    hide Star, Meets, Run, Step, At, DefOk, Linked, Within, Iters, GoalOf, EvalPipe, EmitPipe, ShapePipe, WfCmd;
    if n.Last? {
      SimPipe(m, g, n.negated, n.cmd, x, a, c, fuel);
    } else {
      var ps := ShapePipe(n.negated, n.cmd, x);
      var pipe := EmitPipe(n.negated, n.cmd, c.ip + 1, x, a.loops).cells;
      AtSplit(m, c.ip, Op(ERREXIT_PUSH), pipe + Op(ERREXIT_POP));
      AtSplit(m, c.ip + 1, pipe, Op(ERREXIT_POP));
      Refl(m, c);
      var c1 := DoStatus(m, c, c, ERREXIT_PUSH);
      ReadyFirst(m, g, x, a, c, c1, ps.names);
      SimPipe(m, g, n.negated, n.cmd, x, a, c1, fuel);
      var r := EvalPipe(g, n.negated, n.cmd, x, c1.s, |c.frames|, fuel);
      var end := c.ip + ShapeMember(n, x).size;
      if r.Ok? {
        var c2 := Arrive(m, c, c1, r, c1.ip + ps.size, a, fuel);
        var c3 := DoStatus(m, c, c2, ERREXIT_POP);
        Straight(m, c, c3, a, fuel);
      } else {
        Chain(m, c, c1, r, c1.ip + ps.size, end, a, fuel);
      }
    }
  }

  lemma {:induction false} SimPipe(m: Machine, g: Script, negated: bool, n: Cmd, x: Static, a: Around, c: Cfg, fuel: nat)
    requires Ready(m, g, x, a, c, ShapePipe(negated, n, x).names) && WfCmd(n, x, a.d)
    requires At(m, c.ip, EmitPipe(negated, n, c.ip, x, a.loops).cells)
    ensures Meets(m, c, fuel,
                  GoalOf(EvalPipe(g, negated, n, x, c.s, |c.frames|, fuel), c.ip + ShapePipe(negated, n, x).size, c, a))
    decreases fuel, n, 3
  {
    hide Star, Meets, Run, Step, At, DefOk, Linked, Within, Iters, GoalOf, EvalCmd, EmitCmd, ShapeCmd, WfCmd;
    if !negated {
      SimCmd(m, g, n, x, a, c, fuel);
    } else {
      var cs := ShapeCmd(n, x);
      var cmd := EmitCmd(n, c.ip + 1, x, a.loops).cells;
      AtSplit(m, c.ip, Op(ERREXIT_PUSH), cmd + (Op(ERREXIT_POP) + Op(NEGATE_STATUS)));
      AtSplit(m, c.ip + 1, cmd, Op(ERREXIT_POP) + Op(NEGATE_STATUS));
      AtSplit(m, c.ip + 1 + cs.size, Op(ERREXIT_POP), Op(NEGATE_STATUS));
      Refl(m, c);
      var c1 := DoStatus(m, c, c, ERREXIT_PUSH);
      ReadyFirst(m, g, x, a, c, c1, cs.names);
      SimCmd(m, g, n, x, a, c1, fuel);
      var r := EvalCmd(g, n, x, c1.s, |c.frames|, fuel);
      var end := c.ip + ShapePipe(negated, n, x).size;
      if r.Ok? {
        var c2 := Arrive(m, c, c1, r, c1.ip + cs.size, a, fuel);
        var c3 := DoStatus(m, c, c2, ERREXIT_POP);
        var c4 := DoStatus(m, c, c3, NEGATE_STATUS);
        Straight(m, c, c4, a, fuel);
      } else {
        Chain(m, c, c1, r, c1.ip + cs.size, end, a, fuel);
      }
    }
  }

  // ---- if ----

  /** A condition between ERREXIT_PUSH and ERREXIT_POP. */
  lemma {:induction false} SimGuard(m: Machine, g: Script, p: Program, x: Static, a: Around, c0: Cfg, c: Cfg, fuel: nat)
    requires Ready(m, g, x, a, c, ShapeProgram(p, x).names) && WfProgram(p, x, a.d)
    requires Star(m, c0, c) && c0.stack == c.stack && c0.frames == c.frames
    requires At(m, c.ip, Op(ERREXIT_PUSH)) && At(m, c.ip + 1, EmitProgram(p, c.ip + 1, x, a.loops).cells)
    requires At(m, c.ip + 1 + ShapeProgram(p, x).size, Op(ERREXIT_POP))
    ensures Meets(m, c0, fuel,
                  GoalOf(EvalGuard(g, p, x, c.s, |c.frames|, fuel), c.ip + 2 + ShapeProgram(p, x).size, c0, a))
    decreases fuel, p, 5
  {
    hide Star, Meets, Run, Step, At, DefOk, Linked, Within, Iters, GoalOf, EvalProgram, EmitProgram, ShapeProgram, WfProgram;
    var c1 := DoStatus(m, c0, c, ERREXIT_PUSH);
    ReadyFirst(m, g, x, a, c, c1, ShapeProgram(p, x).names);
    SimProgram(m, g, p, x, a, c1, fuel);
    var r := EvalProgram(g, p, x, c1.s, |c.frames|, fuel);
    var mid := c1.ip + ShapeProgram(p, x).size;
    if r.Ok? {
      var c2 := Arrive(m, c0, c1, r, mid, a, fuel);
      var c3 := DoStatus(m, c0, c2, ERREXIT_POP);
      Straight(m, c0, c3, a, fuel);
    } else {
      Chain(m, c0, c1, r, mid, mid + 1, a, fuel);
    }
  }

  lemma {:induction false} SimClauses(m: Machine, g: Script, n: Clauses, x: Static, a: Around, c: Cfg, end: nat, fuel: nat)
    requires Ready(m, g, x, a, c, ShapeClauses(n, x).names) && WfClauses(n, x, a.d)
    requires At(m, c.ip, EmitClauses(n, c.ip, x, a.loops, end).cells) && end == c.ip + ShapeClauses(n, x).size
    ensures Meets(m, c, fuel, GoalOf(EvalClauses(g, n, x, c.s, |c.frames|, fuel), end, c, a))
    decreases fuel, n, 2
  {
    hide Star, Meets, Run, Step, At, DefOk, Linked, Within, Iters, GoalOf, EvalProgram, EmitProgram, ShapeProgram, WfProgram, EvalGuard, EmitBranch;
    Refl(m, c);
    match n
    case NoElse =>
      var d := DoStatus(m, c, c, STATUS_ZERO);
      Straight(m, c, d, a, fuel);
    case Else(body) =>
      SimProgram(m, g, body, x, a, c, fuel);
    case Elif(cond, body, rest) =>
      var cs := ShapeProgram(cond, x);
      var x1 := x.With(cs.names);
      var bs := ShapeProgram(body, x1);
      var rs := ShapeClauses(rest, x1.With(bs.names));
      var t1 := EmitProgram(cond, c.ip + 1, x, a.loops).cells;
      var t2 := EmitBranch(n, c.ip + 2 + cs.size, x, a.loops, end).cells;
      AtSplit(m, c.ip, Op(ERREXIT_PUSH), t1 + (Op(ERREXIT_POP) + t2));
      AtSplit(m, c.ip + 1, t1, Op(ERREXIT_POP) + t2);
      AtSplit(m, c.ip + 1 + cs.size, Op(ERREXIT_POP), t2);
      assert cs.names + bs.names + rs.names == cs.names + (bs.names + rs.names);
      ReadySplit(m, g, x, a, c, c, cs.names, bs.names + rs.names);
      SimGuard(m, g, cond, x, a, c, c, fuel);
      var r := EvalGuard(g, cond, x, c.s, |c.frames|, fuel);
      if r.Ok? {
        var c1 := Arrive(m, c, c, r, c.ip + 2 + cs.size, a, fuel);
        SimBranch(m, g, n, x, a, c, c1, end, fuel);
      } else {
        Chain(m, c, c, r, c.ip + 2 + cs.size, end, a, fuel);
      }
  }

  lemma {:induction false} SimBranch(m: Machine, g: Script, n: Clauses, x: Static, a: Around, c: Cfg, c1: Cfg, end: nat, fuel: nat)
    requires Ready(m, g, x, a, c, ShapeClauses(n, x).names) && WfClauses(n, x, a.d) && n.Elif?
    requires Star(m, c, c1) && c1.stack == c.stack && c1.frames == c.frames
    requires At(m, c1.ip, EmitBranch(n, c1.ip, x, a.loops, end).cells)
    requires end == c1.ip + ShapeClauses(n, x).size - ShapeProgram(n.cond, x).size - 2
    ensures var x1 := x.With(ShapeProgram(n.cond, x).names);
            var x2 := x1.With(ShapeProgram(n.body, x1).names);
            Meets(m, c, fuel,
                  GoalOf(if c1.s.status == 0 then EvalProgram(g, n.body, x1, c1.s, |c.frames|, fuel)
                         else EvalClauses(g, n.rest, x2, c1.s, |c.frames|, fuel), end, c, a))
    decreases fuel, n, 1
  {
    hide Star, Meets, Run, Step, At, DefOk, Linked, Within, Iters, GoalOf, EvalProgram, EmitProgram, EvalClauses, EmitClauses, ShapeProgram, WfProgram;
    var cs := ShapeProgram(n.cond, x);
    var x1 := x.With(cs.names);
    var bs := ShapeProgram(n.body, x1);
    var x2 := x1.With(bs.names);
    var rs := ShapeClauses(n.rest, x2);
    var start := c1.ip + JUMP_SIZE;
    var next := start + bs.size + JUMP_SIZE;
    var t3 := EmitProgram(n.body, start, x1, a.loops).cells;
    var t4 := JumpTo(JMP, next - JUMP_SIZE, end);
    var t5 := EmitClauses(n.rest, next, x2, a.loops, end).cells;
    AtSplit(m, c1.ip, JumpTo(JMP_FALSE, c1.ip, next), t3 + (t4 + t5));
    AtSplit(m, start, t3, t4 + t5);
    AtSplit(m, next - JUMP_SIZE, t4, t5);
    ReadyFirst(m, g, x, a, c, c1, ShapeClauses(n, x).names);
    var c2 := DoJump(m, c, c1, JMP_FALSE, next);
    assert cs.names + bs.names + rs.names == cs.names + (bs.names + rs.names);
    ReadySplit(m, g, x, a, c, c2, cs.names, bs.names + rs.names);
    ReadySplit(m, g, x1, a, c2, c2, bs.names, rs.names);
    if c1.s.status == 0 {
      SimProgram(m, g, n.body, x1, a, c2, fuel);
      ThenJump(m, c, c2, EvalProgram(g, n.body, x1, c2.s, |c.frames|, fuel), c2.ip + bs.size, end, a, fuel);
    } else {
      SimClauses(m, g, n.rest, x2, a, c2, end, fuel);
      Chain(m, c, c2, EvalClauses(g, n.rest, x2, c2.s, |c.frames|, fuel), end, end, a, fuel);
    }
  }

  /** Code with a jump behind it. */
  lemma ThenJump(m: Machine, c: Cfg, c1: Cfg, r: Res, end1: nat, end: nat, a: Around, fuel: nat)
    requires Star(m, c, c1) && c1.stack == c.stack && c1.frames == c.frames
    requires Meets(m, c1, fuel, GoalOf(r, end1, c1, a)) && At(m, end1, JumpTo(JMP, end1, end)) && end <= |m.code| < TWO31
    ensures Meets(m, c, fuel, GoalOf(r, end, c, a))
  {
    hide Star, Meets, Run, Step, At, Iters;
    if r.Ok? {
      var c2 := Arrive(m, c, c1, r, end1, a, fuel);
      var c3 := DoJump(m, c, c2, JMP, end);
      Straight(m, c, c3, a, fuel);
    } else {
      Chain(m, c, c1, r, end1, end, a, fuel);
    }
  }

  // ---- case ----

  /** A failed match falls through to the next pattern; a match jumps to the body. */
  lemma {:induction false} SimPatterns(m: Machine, c0: Cfg, c: Cfg, ps: seq<Word>, subject: Word, locals: set<string>,
                                       body: nat) returns (d: Cfg)
    requires Sized(m, m.h) && Star(m, c0, c) && SmallWord(subject) && SmallWords(ps) && body <= |m.code|
    requires At(m, c.ip, EmitPatterns(ps, c.ip, subject, locals, body))
    ensures var (hit, s) := TryPatterns(m.h, ps, subject, locals, c.s);
            d == c.(ip := if hit then body else c.ip + PatternsSize(ps, subject, locals), s := s)
    ensures Star(m, c0, d)
    decreases |ps|
  {
    hide Star, Run, Step, At, EmitWord, WordVal, SmallWord;
    if ps == [] {
      d := c;
    } else {
      var t1, t2 := EmitWord(subject, locals), EmitWord(ps[0], locals);
      var size := |t1| + |t2| + 1;
      var jump := JumpTo(JMP_TRUE, c.ip + size, body);
      var rest := EmitPatterns(ps[1..], c.ip + size + JUMP_SIZE, subject, locals, body);
      AtSplit(m, c.ip, t1 + (t2 + Op(PATTERN_MATCH)), jump + rest);
      AtSplit(m, c.ip, t1, t2 + Op(PATTERN_MATCH));
      AtSplit(m, c.ip + |t1|, t2, Op(PATTERN_MATCH));
      AtSplit(m, c.ip + size, jump, rest);
      var e := PushWord(m, c0, c, subject, locals);
      e := PushWord(m, c0, e, ps[0], locals);
      e := DoMatch(m, c0, e, c.stack, WordVal(m.h, ps[0], locals, c.s), WordVal(m.h, subject, locals, c.s));
      d := DoJump(m, c0, e, JMP_TRUE, body);
      if !Taken(JMP_TRUE, e.s) {
        d := SimPatterns(m, c0, d, ps[1..], subject, locals, body);
      }
    }
  }

  lemma DoMatch(m: Machine, c0: Cfg, c: Cfg, stack: seq<Value>, pattern: string, subject: string) returns (d: Cfg)
    requires Star(m, c0, c) && At(m, c.ip, Op(PATTERN_MATCH)) && c.stack == stack + [Str(subject)] + [Str(pattern)]
    ensures d == c.(ip := c.ip + 1, stack := stack, s := c.s.(status := if m.h.matches(pattern, subject) then 0 else 1))
    ensures Star(m, c0, d)
  {
    hide Star, Run, Step, At;
    Decode0(m, c, PATTERN_MATCH);
    assert c.stack[..|c.stack| - 2] == stack;
    d := c.(ip := c.ip + 1, stack := stack, s := c.s.(status := if m.h.matches(pattern, subject) then 0 else 1));
    OneStep(m, c0, c, d);
  }

  lemma {:induction false} SimArms(m: Machine, g: Script, n: Arms, x: Static, subject: Word, a: Around, c: Cfg, end: nat, fuel: nat)
    requires Ready(m, g, x, a, c, ShapeArms(n, x, subject).names) && WfArms(n, x, subject, a.d) && SmallWord(subject)
    requires At(m, c.ip, EmitArms(n, c.ip, x, a.loops, subject, end).cells)
    requires end == c.ip + ShapeArms(n, x, subject).size
    ensures Meets(m, c, fuel, GoalOf(EvalArms(g, n, x, subject, c.s, |c.frames|, fuel), end, c, a))
    decreases fuel, n, 3
  {
    hide Star, Meets, Run, Step, At, DefOk, Linked, Within, Iters, GoalOf, EmitArmBody, SmallWord, Targets, EvalProgram, TryPatterns,
    ShapeProgram, WfProgram, EmitPatterns, PatternsSize;
    if n.NoArms? {
      Refl(m, c);
      ReadyFirst(m, g, x, a, c, c, ShapeArms(n, x, subject).names);
      AtSplit(m, c.ip, Op(STATUS_ZERO), JumpTo(JMP, c.ip + 1, end));
      var d := DoStatus(m, c, c, STATUS_ZERO);
      d := DoJump(m, c, d, JMP, end);
      Straight(m, c, d, a, fuel);
    } else {
      SimArm(m, g, n, x, subject, a, c, end, fuel);
    }
  }

  /** One item: its patterns, and then its body or the items after it. */
  lemma {:induction false} SimArm(m: Machine, g: Script, n: Arms, x: Static, subject: Word, a: Around, c: Cfg, end: nat, fuel: nat)
    requires n.Arm? && Ready(m, g, x, a, c, ShapeArms(n, x, subject).names) && WfArms(n, x, subject, a.d) && SmallWord(subject)
    requires At(m, c.ip, EmitArms(n, c.ip, x, a.loops, subject, end).cells)
    requires end == c.ip + ShapeArms(n, x, subject).size
    ensures Meets(m, c, fuel, GoalOf(EvalArms(g, n, x, subject, c.s, |c.frames|, fuel), end, c, a))
    decreases fuel, n, 2
  {
    hide Star, Meets, Run, Step, At, Ready, Sized, GoalOf, EvalProgram, EvalArms, EmitProgram, ShapeProgram, WfArms, TryPatterns,
    EmitPatterns, PatternsSize, SmallWord, SmallWords, EmitArmBody, EmitArms, EmitSkip, ShapeArms, JumpTo, Linked, Within, Targets;
    ReadyFirst(m, g, x, a, c, c, ShapeArms(n, x, subject).names);
    ReadyArms(m, g, n, x, subject, a, c);
    ArmSplit(m, n, c.ip, x, a.loops, subject, end);
    Refl(m, c);
    var skip := c.ip + PatternsSize(n.patterns, subject, x.locals);
    var start := skip + SkipSize(n.patterns);
    var next := NextArm(n, start, x);
    var c1 := SimPatterns(m, c, c, n.patterns, subject, x.locals, start);
    var (hit, s1) := TryPatterns(g.h, n.patterns, subject, x.locals, c.s);
    ArmIs(g, n, x, subject, c.s, |c.frames|, fuel);
    if !hit && n.patterns != [] {
      NextArmAt(m, n, start, x, a.loops, subject, end);
      SkipIs(n.patterns, skip, next);
      var c2 := DoJump(m, c, c1, JMP, next);
      SimNextArm(m, g, n, x, subject, a, c, c2, end, fuel);
    } else {
      SimArmBody(m, g, n, x, subject, a, c, c1, end, fuel);
    }
  }

  lemma ReadyArms(m: Machine, g: Script, n: Arms, x: Static, subject: Word, a: Around, c: Cfg)
    requires n.Arm? && Ready(m, g, x, a, c, ShapeArms(n, x, subject).names) && WfArms(n, x, subject, a.d)
    ensures SmallWords(n.patterns) && m.h == g.h && |m.code| < TWO31 && |a.loops| == |x.flags|
  {
    hide WfProgram, ShapeProgram, SmallWords, DefOk, MainOk, Targets, Within, Iters;
  }

  lemma ArmIs(g: Script, n: Arms, x: Static, subject: Word, s: State, depth: nat, fuel: nat)
    requires n.Arm?
    ensures var x1 := x.With(ShapeProgram(n.body, x).names);
            var t := TryPatterns(g.h, n.patterns, subject, x.locals, s);
            var r := EvalProgram(g, n.body, x, t.1, depth, fuel);
            EvalArms(g, n, x, subject, s, depth, fuel)
            == if !t.0 && n.patterns != [] then EvalArms(g, n.rest, x1, subject, t.1, depth, fuel)
               else if r.Ok? && !n.ends then EvalArms(g, n.rest, x1, subject, r.s, depth, fuel)
               else r
  {
    hide EvalProgram, ShapeProgram, TryPatterns;
  }

  lemma SkipIs(ps: seq<Word>, base: nat, next: nat)
    requires ps != []
    ensures EmitSkip(ps, base, next) == JumpTo(JMP, base, next)
  {
  }

  lemma ArmSplit(m: Machine, n: Arms, base: nat, x: Static, loops: seq<Loop>, subject: Word, end: nat)
    requires n.Arm? && |loops| == |x.flags| && At(m, base, EmitArms(n, base, x, loops, subject, end).cells)
    ensures var skip := base + PatternsSize(n.patterns, subject, x.locals);
            var start := skip + SkipSize(n.patterns);
            && At(m, base, EmitPatterns(n.patterns, base, subject, x.locals, start))
            && At(m, skip, EmitSkip(n.patterns, skip, NextArm(n, start, x)))
            && At(m, start, EmitArmBody(n, start, x, loops, subject, end).cells)
            && start <= |m.code|
            && ShapeArms(n, x, subject).size
               == start - base + ShapeProgram(n.body, x).size + EndSize(n.ends)
                  + ShapeArms(n.rest, x.With(ShapeProgram(n.body, x).names), subject).size
  {
    hide At, EmitPatterns, EmitSkip, EmitArmBody, PatternsSize, ShapeProgram;
    var skip := base + PatternsSize(n.patterns, subject, x.locals);
    var start := skip + SkipSize(n.patterns);
    var t1 := EmitPatterns(n.patterns, base, subject, x.locals, start);
    var t2 := EmitSkip(n.patterns, skip, NextArm(n, start, x));
    var t3 := EmitArmBody(n, start, x, loops, subject, end).cells;
    AtSplit(m, base, t1, t2 + t3);
    AtSplit(m, skip, t2, t3);
  }

  lemma NextArmAt(m: Machine, n: Arms, start: nat, x: Static, loops: seq<Loop>, subject: Word, end: nat)
    requires n.Arm? && |loops| == |x.flags| && At(m, start, EmitArmBody(n, start, x, loops, subject, end).cells)
    ensures NextArm(n, start, x) <= |m.code|
    ensures At(m, start, EmitProgram(n.body, start, x, loops).cells)
    ensures At(m, start + ShapeProgram(n.body, x).size, EmitEnd(n.ends, start + ShapeProgram(n.body, x).size, end))
    ensures At(m, NextArm(n, start, x),
               EmitArms(n.rest, NextArm(n, start, x), x.With(ShapeProgram(n.body, x).names), loops, subject, end).cells)
  {
    hide At, EmitProgram, EmitArms;
    var b := EmitProgram(n.body, start, x, loops).cells;
    var e := EmitEnd(n.ends, start + |b|, end);
    var rest := EmitArms(n.rest, NextArm(n, start, x), x.With(ShapeProgram(n.body, x).names), loops, subject, end).cells;
    AtSplit(m, start, b, e + rest);
    AtSplit(m, start + |b|, e, rest);
  }

  lemma {:induction false} SimArmBody(m: Machine, g: Script, n: Arms, x: Static, subject: Word, a: Around, c: Cfg, c1: Cfg,
                                      end: nat, fuel: nat)
    requires n.Arm? && Ready(m, g, x, a, c, ShapeArms(n, x, subject).names)
    requires WfArms(n, x, subject, a.d) && SmallWord(subject)
    requires Star(m, c, c1) && c1.stack == c.stack && c1.frames == c.frames
    requires At(m, c1.ip, EmitArmBody(n, c1.ip, x, a.loops, subject, end).cells)
    requires end == NextArm(n, c1.ip, x) + ShapeArms(n.rest, x.With(ShapeProgram(n.body, x).names), subject).size
    ensures var x1 := x.With(ShapeProgram(n.body, x).names);
            var r := EvalProgram(g, n.body, x, c1.s, |c.frames|, fuel);
            Meets(m, c, fuel,
                  GoalOf(if r.Ok? && !n.ends then EvalArms(g, n.rest, x1, subject, r.s, |c.frames|, fuel) else r, end, c, a))
    decreases fuel, n, 1
  {
    hide Star, Meets, Run, Step, At, DefOk, Linked, Within, Iters, GoalOf, EvalProgram, EmitProgram, ShapeProgram, WfProgram, EvalArms, EmitArms, EmitArmBody, SmallWord, SmallWords;
    var bs := ShapeProgram(n.body, x);
    NextArmAt(m, n, c1.ip, x, a.loops, subject, end);
    ReadySplit(m, g, x, a, c, c1, bs.names, ShapeArms(n.rest, x.With(bs.names), subject).names);
    ReadyFirst(m, g, x, a, c, c, ShapeArms(n, x, subject).names);
    SimProgram(m, g, n.body, x, a, c1, fuel);
    var r := EvalProgram(g, n.body, x, c1.s, |c.frames|, fuel);
    if !r.Ok? {
      Chain(m, c, c1, r, c1.ip + bs.size, end, a, fuel);
    } else {
      var c2 := Arrive(m, c, c1, r, c1.ip + bs.size, a, fuel);
      if n.ends {
        NextArmBound(m, n, x, subject, a.loops, NextArm(n, c1.ip, x), end);
        c2 := DoJump(m, c, c2, JMP, end);
        Straight(m, c, c2, a, fuel);
      } else {
        SimNextArm(m, g, n, x, subject, a, c, c2, end, fuel);
      }
    }
  }

  lemma NextArmBound(m: Machine, n: Arms, x: Static, subject: Word, loops: seq<Loop>, next: nat, end: nat)
    requires n.Arm? && |loops| == |x.flags|
    requires var x1 := x.With(ShapeProgram(n.body, x).names);
             At(m, next, EmitArms(n.rest, next, x1, loops, subject, end).cells)
             && end == next + ShapeArms(n.rest, x1, subject).size
    ensures end <= |m.code|
  {
  }

  lemma {:induction false} SimNextArm(m: Machine, g: Script, n: Arms, x: Static, subject: Word, a: Around, c: Cfg, c1: Cfg,
                                      end: nat, fuel: nat)
    requires n.Arm? && Ready(m, g, x, a, c, ShapeArms(n, x, subject).names)
    requires WfArms(n, x, subject, a.d) && SmallWord(subject)
    requires Star(m, c, c1) && c1.stack == c.stack && c1.frames == c.frames
    requires var x1 := x.With(ShapeProgram(n.body, x).names);
             At(m, c1.ip, EmitArms(n.rest, c1.ip, x1, a.loops, subject, end).cells)
             && end == c1.ip + ShapeArms(n.rest, x1, subject).size
    ensures var x1 := x.With(ShapeProgram(n.body, x).names);
            Meets(m, c, fuel, GoalOf(EvalArms(g, n.rest, x1, subject, c1.s, |c.frames|, fuel), end, c, a))
    decreases fuel, n, 0
  {
    hide Star, Meets, Run, Step, At, DefOk, Linked, Within, Iters, GoalOf, EvalArms, EmitArms, ShapeProgram, WfProgram, SmallWord, SmallWords;
    var bs := ShapeProgram(n.body, x);
    var x1 := x.With(bs.names);
    ReadySplit(m, g, x, a, c, c1, bs.names, ShapeArms(n.rest, x1, subject).names);
    SimArms(m, g, n.rest, x1, subject, a, c1, end, fuel);
    Chain(m, c, c1, EvalArms(g, n.rest, x1, subject, c1.s, |c.frames|, fuel), end, end, a, fuel);
  }

  // ---- for ----

  /** Pieces of a for-loop's code, by position. */
  ghost predicate ForAt(m: Machine, n: Cmd, base: nat, x: Static, loops: seq<Loop>)
    requires n.For? && |loops| == |x.flags|
  {
    var top, brk := ForTop(n, base, x), ForBreak(n, base, x);
    && At(m, base, ForHead(n.items, x.locals))
    && At(m, top, Op(GET_NEXT_ITER)) && At(m, top + 1, Op(DUP))
    && At(m, top + 2, JumpTo(JMP_NONE, top + 2, brk + JUMP_SIZE))
    && At(m, top + 7, OpConst(SET_VAR, n.name))
    && At(m, top + 10, EmitProgram(n.body, top + 10, x.InLoop(true), loops + [Loop(top, brk)]).cells)
    && At(m, brk - JUMP_SIZE, JumpTo(JMP, brk - JUMP_SIZE, top))
    && At(m, brk, JumpTo(JMP, brk, brk + JUMP_SIZE + 1))
    && At(m, brk + JUMP_SIZE, Op(POP)) && At(m, brk + JUMP_SIZE + 1, Op(POP))
  }

  lemma ForSplit(m: Machine, n: Cmd, base: nat, x: Static, loops: seq<Loop>)
    requires n.For? && |loops| == |x.flags| && At(m, base, EmitFor(n, base, x, loops).cells)
    ensures ForAt(m, n, base, x, loops)
    ensures ForBreak(n, base, x) + JUMP_SIZE + 2 == base + ShapeCmd(n, x).size <= |m.code|
  {
    hide At, EmitProgram, ShapeProgram;
    var top, brk := ForTop(n, base, x), ForBreak(n, base, x);
    var body := EmitProgram(n.body, top + 10, x.InLoop(true), loops + [Loop(top, brk)]).cells;
    var t1 := JumpTo(JMP, brk - JUMP_SIZE, top);
    var t2 := JumpTo(JMP, brk, brk + JUMP_SIZE + 1);
    var tail := t1 + (t2 + (Op(POP) + Op(POP)));
    var bind := OpConst(SET_VAR, n.name);
    var none := JumpTo(JMP_NONE, top + 2, brk + JUMP_SIZE);
    AtSplit(m, base, ForHead(n.items, x.locals), Op(GET_NEXT_ITER) + (Op(DUP) + (none + (bind + (body + tail)))));
    AtSplit(m, top, Op(GET_NEXT_ITER), Op(DUP) + (none + (bind + (body + tail))));
    AtSplit(m, top + 1, Op(DUP), none + (bind + (body + tail)));
    AtSplit(m, top + 2, none, bind + (body + tail));
    AtSplit(m, top + 7, bind, body + tail);
    AtSplit(m, top + 10, body, tail);
    AtSplit(m, brk - JUMP_SIZE, t1, t2 + (Op(POP) + Op(POP)));
    AtSplit(m, brk, t2, Op(POP) + Op(POP));
    AtSplit(m, brk + JUMP_SIZE, Op(POP), Op(POP));
  }

  lemma DoPop(m: Machine, c0: Cfg, c: Cfg, stack: seq<Value>, v: Value) returns (d: Cfg)
    requires Star(m, c0, c) && At(m, c.ip, Op(POP)) && c.stack == stack + [v]
    ensures d == c.(ip := c.ip + 1, stack := stack) && Star(m, c0, d)
  {
    hide Star, Run, Step, At;
    Decode0(m, c, POP);
    assert c.stack[..|c.stack| - 1] == stack;
    d := c.(ip := c.ip + 1, stack := stack);
    OneStep(m, c0, c, d);
  }

  /** GET_NEXT_ITER, DUP and JMP_NONE: the next item is on the stack, or None is and the jump is taken. */
  lemma NextItem(m: Machine, c0: Cfg, c: Cfg, stack: seq<Value>, args: seq<string>, exit: nat) returns (d: Cfg)
    requires Star(m, c0, c) && c.stack == stack + [Iter(args)] && exit <= |m.code| < TWO31
    requires At(m, c.ip, Op(GET_NEXT_ITER)) && At(m, c.ip + 1, Op(DUP))
    requires At(m, c.ip + 2, JumpTo(JMP_NONE, c.ip + 2, exit))
    ensures Star(m, c0, d)
    ensures d == if args == [] then c.(ip := exit, stack := stack + [Iter([])] + [None])
                 else c.(ip := c.ip + 7, stack := stack + [Iter(args[1..])] + [Str(args[0])])
  {
    hide Star, Run, Step, Holds;
    Decode0(m, c, GET_NEXT_ITER);
    var v := if args == [] then None else Str(args[0]);
    var below := stack + [Iter(if args == [] then [] else args[1..])];
    assert c.stack[..|c.stack| - 1] == stack;
    var e := c.(ip := c.ip + 1, stack := below + [v]);
    assert args != [] ==> stack + [Iter(args[1..]), Str(args[0])] == below + [v];
    OneStep(m, c0, c, e);
    Decode0(m, e, DUP);
    var f := e.(ip := e.ip + 1, stack := below + [v] + [v]);
    OneStep(m, c0, e, f);
    Decode32(m, f, JMP_NONE, exit - (f.ip + JUMP_SIZE));
    assert f.stack[..|f.stack| - 1] == below + [v];
    d := f.(ip := if args == [] then exit else f.ip + JUMP_SIZE, stack := below + [v]);
    OneStep(m, c0, f, d);
  }

  /** The top of a for-loop: bind the next item, or leave with the iterator dropped. */
  lemma ForStep(m: Machine, n: Cmd, base: nat, x: Static, loops: seq<Loop>, c0: Cfg, c: Cfg, stack: seq<Value>,
                args: seq<string>) returns (d: Cfg)
    requires n.For? && |loops| == |x.flags| && ForAt(m, n, base, x, loops) && Sized(m, m.h)
    requires Star(m, c0, c) && c.ip == ForTop(n, base, x) && c.stack == stack + [Iter(args)]
    requires ForBreak(n, base, x) + JUMP_SIZE + 2 <= |m.code|
    ensures Star(m, c0, d)
    ensures d == if args == [] then c.(ip := ForBreak(n, base, x) + JUMP_SIZE + 2, stack := stack)
                 else c.(ip := c.ip + 10, stack := stack + [Iter(args[1..])],
                         s := c.s.(w := m.h.setVar(n.name, args[0], c.s.w)))
  {
    hide Star, Run, Step, At, EmitProgram, ShapeProgram, ForHead;
    var h := NextItem(m, c0, c, stack, args, ForBreak(n, base, x) + JUMP_SIZE);
    if args == [] {
      d := DoPop(m, c0, h, stack + [Iter([])], None);
      d := DoPop(m, c0, d, stack, Iter([]));
    } else {
      DecodeConst(m, h, SET_VAR, n.name);
      var below := stack + [Iter(args[1..])];
      assert h.stack[..|h.stack| - 1] == below;
      d := h.(ip := h.ip + 3, stack := below, s := h.s.(w := m.h.setVar(n.name, args[0], h.s.w)));
      OneStep(m, c0, h, d);
    }
  }

  /** From the top of the loop on, with `args` still to come. `c` is the state before the iterator was pushed. */
  lemma {:induction false} SimForLoop(m: Machine, g: Script, n: Cmd, base: nat, x: Static, a: Around, c: Cfg, b: Cfg,
                                      args: seq<string>, fuel: nat)
    requires n.For? && Ready(m, g, x, a, c, ShapeCmd(n, x).names) && WfCmd(n, x, a.d)
    requires ForAt(m, n, base, x, a.loops) && ForBreak(n, base, x) + JUMP_SIZE + 2 <= |m.code|
    requires Star(m, c, b) && b.ip == ForTop(n, base, x) && b.stack == c.stack + [Iter(args)] && b.frames == c.frames
    ensures Meets(m, c, fuel,
                  GoalOf(EvalFor(g, n, args, x, b.s, |c.frames|, fuel), ForBreak(n, base, x) + JUMP_SIZE + 2, c, a))
    decreases fuel, n, 1, |args|
  {
    hide Star, Meets, Run, Step, At, DefOk, Linked, Within, Iters, EvalProgram, EmitProgram, ShapeProgram, WfProgram;
    var top, brk := ForTop(n, base, x), ForBreak(n, base, x);
    var end := brk + JUMP_SIZE + 2;
    ReadyFirst(m, g, x, a, c, c, ShapeCmd(n, x).names);
    var d := ForStep(m, n, base, x, a.loops, c, b, c.stack, args);
    if args == [] {
      Straight(m, c, d, a, fuel);
    } else {
      var iter := [Iter(args[1..])];
      var loop := Loop(top, brk);
      var inner := Inside(a, loop, true);
      var body := ShapeProgram(n.body, x.InLoop(true));
      ReadyInside(m, g, x, a, c, d, loop, iter, body.names);
      SimProgram(m, g, n.body, x.InLoop(true), inner, d, fuel);
      var r := EvalProgram(g, n.body, x.InLoop(true), d.s, |c.frames|, fuel);
      if NextRound(r) {
        var e := ForNext(m, n, base, x, a, c, d, r, fuel);
        SimForLoop(m, g, n, base, x, a, c, e, args[1..], fuel);
      } else {
        ForLeft(m, n, base, x, a, c, d, r, iter, fuel);
      }
    }
  }

  /** The body is over, by itself or by `continue`: back to the top. */
  lemma ForNext(m: Machine, n: Cmd, base: nat, x: Static, a: Around, c: Cfg, d: Cfg, r: Res, fuel: nat) returns (e: Cfg)
    requires n.For? && |a.loops| == |x.flags| == |a.flags| && a.d <= |a.loops| && ForAt(m, n, base, x, a.loops)
    requires ForBreak(n, base, x) <= |m.code| < TWO31 && Star(m, c, d) && NextRound(r)
    requires var top, brk := ForTop(n, base, x), ForBreak(n, base, x);
             Meets(m, d, fuel, GoalOf(r, brk - JUMP_SIZE, d, Inside(a, Loop(top, brk), true)))
    ensures e == d.(ip := ForTop(n, base, x), s := r.s) && Star(m, c, e)
  {
    hide Star, Meets, Run, Step, At, Iters, EmitProgram, ShapeProgram, ForHead;
    var top, brk := ForTop(n, base, x), ForBreak(n, base, x);
    var inner := Inside(a, Loop(top, brk), true);
    e := d.(ip := top, s := r.s);
    if r.Ok? {
      var f := Arrive(m, c, d, r, brk - JUMP_SIZE, inner, fuel);
      e := DoJump(m, c, f, JMP, top);
    } else {
      NoIters(inner.flags);
      assert d.stack[..|d.stack| - 0] == d.stack;
      AfterTo(m, c, d, e, fuel);
    }
  }

  /** The body is left for good: by a break out of this loop, behind which the iterator is popped, or for some place further out. */
  lemma ForLeft(m: Machine, n: Cmd, base: nat, x: Static, a: Around, c: Cfg, d: Cfg, r: Res, iter: seq<Value>, fuel: nat)
    requires n.For? && |a.loops| == |x.flags| == |a.flags| && a.d <= |a.loops| && ForAt(m, n, base, x, a.loops)
    requires ForBreak(n, base, x) + JUMP_SIZE + 2 <= |m.code| < TWO31 && Star(m, c, d) && !NextRound(r)
    requires |iter| == 1 && d.stack == c.stack + iter && d.frames == c.frames && Floor(c) <= |c.stack|
    requires var top, brk := ForTop(n, base, x), ForBreak(n, base, x);
             Meets(m, d, fuel, GoalOf(r, brk - JUMP_SIZE, d, Inside(a, Loop(top, brk), true)))
    ensures Meets(m, c, fuel, GoalOf(LeaveLoop(r), ForBreak(n, base, x) + JUMP_SIZE + 2, c, a))
  {
    hide Star, Meets, Run, Step, At, Iters, EmitProgram, ShapeProgram, ForHead;
    var loop := Loop(ForTop(n, base, x), ForBreak(n, base, x));
    var inner, end := Inside(a, loop, true), loop.brk + JUMP_SIZE + 2;
    if LeaveLoop(r).Ok? {
      var e := d.(ip := loop.brk, s := r.s);
      NoIters(inner.flags);
      assert d.stack[..|d.stack| - 0] == d.stack;
      AfterTo(m, c, d, e, fuel);
      e := DoJump(m, c, e, JMP, loop.brk + JUMP_SIZE + 1);
      e := DoPop(m, c, e, c.stack, iter[0]);
      Straight(m, c, e, a, fuel);
    } else {
      LeaveGoal(m, c, d, r, loop.brk - JUMP_SIZE, end, a, loop, iter, fuel);
      Onward(m, c, d, fuel, GoalOf(LeaveLoop(r), end, c, a));
    }
  }

  lemma NoIters(flags: seq<bool>)
    ensures Iters(flags, 0) == 0
  {
  }

  lemma AfterTo(m: Machine, c: Cfg, d: Cfg, e: Cfg, fuel: nat)
    requires Star(m, c, d) && Meets(m, d, fuel, To(e))
    ensures Star(m, c, e)
  {
    hide Run, Step;
    Trans(m, c, d, e);
  }

  /** The words of a for-loop, as a group on the stack. */
  lemma PushItems(m: Machine, c: Cfg, items: seq<Word>, locals: set<string>) returns (b: Cfg)
    requires Sized(m, m.h) && SmallWords(items) && At(m, c.ip, EmitItems(items, locals))
    ensures b == c.(ip := c.ip + |EmitItems(items, locals)|, stack := c.stack + GroupOf(Items(m.h, items, locals, c.s)))
    ensures Star(m, c, b)
  {
    hide Star, Run, Step, At, EmitArgs, Argv, SmallWords;
    Refl(m, c);
    if items == [] {
      var args := m.h.args(c.s.w);
      Decode0(m, c, EXPAND_ARGS);
      b := c.(ip := c.ip + 1, stack := c.stack + GroupOf(args));
      assert c.stack + GroupOf(args) == c.stack + Strs(args) + [Int(|args|)];
      OneStep(m, c, c, b);
    } else {
      b := PushArgs(m, c, c, items, false, locals);
    }
  }

  lemma {:induction false} SimFor(m: Machine, g: Script, n: Cmd, x: Static, a: Around, c: Cfg, fuel: nat)
    requires n.For? && Ready(m, g, x, a, c, ShapeCmd(n, x).names) && WfCmd(n, x, a.d)
    requires At(m, c.ip, EmitFor(n, c.ip, x, a.loops).cells)
    ensures Meets(m, c, fuel, GoalOf(EvalCmd(g, n, x, c.s, |c.frames|, fuel), c.ip + ShapeCmd(n, x).size, c, a))
    decreases fuel, n, 2, 0
  {
    hide Star, Meets, Run, Step, At, DefOk, Linked, Within, Iters, GoalOf, EvalFor, EmitFor, ShapeProgram, WfProgram,
    EmitItems, Items, SmallWords, ForAt;
    var args := Items(g.h, n.items, x.locals, c.s);
    ForSplit(m, n, c.ip, x, a.loops);
    ReadyFirst(m, g, x, a, c, c, ShapeCmd(n, x).names);
    ForAtHead(m, n, c.ip, x, a.loops);
    AtSplit(m, c.ip, EmitItems(n.items, x.locals), Op16(INIT_ITER, 1));
    var b := PushItems(m, c, n.items, x.locals);
    Decode16(m, b, INIT_ITER, 1);
    PopGroupOf(c.stack, args);
    var end := c.ip + ShapeCmd(n, x).size;
    if |args| > STACK_MAX {
      var s := c.s.(status := 1);
      LastStep(m, c, b, s);
      AnyFuel(m, c, 0, fuel, s);
      ExitGoal(s, end, c, a);
    } else {
      var d := b.(ip := b.ip + 3, stack := c.stack + [Iter(args)]);
      OneStep(m, c, b, d);
      SimForLoop(m, g, n, c.ip, x, a, c, d, args, fuel);
    }
  }

  lemma ForAtHead(m: Machine, n: Cmd, base: nat, x: Static, loops: seq<Loop>)
    requires n.For? && |loops| == |x.flags| && ForAt(m, n, base, x, loops)
    ensures At(m, base, ForHead(n.items, x.locals))
  {
  }

  lemma ExitGoal(s: State, end: nat, c: Cfg, a: Around)
    ensures GoalOf(Exit(s), end, c, a) == StopAt(s)
  {
  }

  // ---- while and until ----

  /** Pieces of a while-loop's code, by position. */
  ghost predicate WhileAt(m: Machine, n: Cmd, base: nat, x: Static, loops: seq<Loop>)
    requires n.While? && |loops| == |x.flags|
  {
    var start, brk := WhileStart(n, base, x), WhileBreak(n, base, x);
    var inner := WhileLoops(n, base, x, loops);
    var again := start + ShapeProgram(n.body, WhileBodyStatic(n, x)).size;
    var after := brk - JUMP_SIZE - 1;
    && At(m, base, Op(ERREXIT_PUSH))
    && At(m, base + 1, EmitProgram(n.cond, base + 1, x, loops).cells)
    && At(m, base + 1 + ShapeProgram(n.cond, x).size, Op(ERREXIT_POP))
    && At(m, start - JUMP_SIZE, JumpTo(ExitOp(n.until), start - JUMP_SIZE, brk + JUMP_SIZE))
    && At(m, start, EmitProgram(n.body, start, WhileBodyStatic(n, x), inner).cells)
    && At(m, again, Op(ERREXIT_PUSH))
    && At(m, again + 1, EmitProgram(n.cond, again + 1, WhileAgainStatic(n, x), inner).cells)
    && At(m, after, Op(ERREXIT_POP))
    && At(m, brk - JUMP_SIZE, JumpTo(AgainOp(n.until), brk - JUMP_SIZE, start))
    && At(m, brk, JumpTo(JMP, brk, brk + JUMP_SIZE + 1))
    && At(m, brk + JUMP_SIZE, Op(STATUS_ZERO))
    && brk + JUMP_SIZE + 1 <= |m.code|
  }

  lemma WhileSplit(m: Machine, n: Cmd, base: nat, x: Static, loops: seq<Loop>)
    requires n.While? && |loops| == |x.flags| && At(m, base, EmitWhile(n, base, x, loops).cells)
    ensures WhileAt(m, n, base, x, loops)
    ensures WhileBreak(n, base, x) + JUMP_SIZE + 1 == base + ShapeCmd(n, x).size
  {
    hide At, EmitProgram, ShapeProgram;
    var start, brk := WhileStart(n, base, x), WhileBreak(n, base, x);
    WhileSize(n, base, x);
    var inner := WhileLoops(n, base, x, loops);
    var again := start + ShapeProgram(n.body, WhileBodyStatic(n, x)).size;
    var t1 := EmitProgram(n.cond, base + 1, x, loops).cells;
    var t2 := JumpTo(ExitOp(n.until), start - JUMP_SIZE, brk + JUMP_SIZE);
    var t3 := EmitProgram(n.body, start, WhileBodyStatic(n, x), inner).cells;
    var t4 := EmitProgram(n.cond, again + 1, WhileAgainStatic(n, x), inner).cells;
    var t5 := JumpTo(AgainOp(n.until), brk - JUMP_SIZE, start);
    var t6 := JumpTo(JMP, brk, brk + JUMP_SIZE + 1);
    var end := Op(ERREXIT_POP) + (t5 + (t6 + Op(STATUS_ZERO)));
    AtSplit(m, base, Op(ERREXIT_PUSH), t1 + (Op(ERREXIT_POP) + (t2 + (t3 + (Op(ERREXIT_PUSH) + (t4 + end))))));
    AtSplit(m, base + 1, t1, Op(ERREXIT_POP) + (t2 + (t3 + (Op(ERREXIT_PUSH) + (t4 + end)))));
    AtSplit(m, start - JUMP_SIZE - 1, Op(ERREXIT_POP), t2 + (t3 + (Op(ERREXIT_PUSH) + (t4 + end))));
    AtSplit(m, start - JUMP_SIZE, t2, t3 + (Op(ERREXIT_PUSH) + (t4 + end)));
    AtSplit(m, start, t3, Op(ERREXIT_PUSH) + (t4 + end));
    AtSplit(m, again, Op(ERREXIT_PUSH), t4 + end);
    AtSplit(m, again + 1, t4, end);
    AtSplit(m, brk - JUMP_SIZE - 1, Op(ERREXIT_POP), t5 + (t6 + Op(STATUS_ZERO)));
    AtSplit(m, brk - JUMP_SIZE, t5, t6 + Op(STATUS_ZERO));
    AtSplit(m, brk, t6, Op(STATUS_ZERO));
  }

  lemma WhileSize(n: Cmd, base: nat, x: Static)
    requires n.While?
    ensures WhileBreak(n, base, x) + JUMP_SIZE + 1 == base + ShapeCmd(n, x).size
  {
    hide ShapeProgram;
  }

  /** Names that remain to be defined around the body and the second copy of the condition. */
  lemma ReadyWhile(m: Machine, g: Script, n: Cmd, base: nat, x: Static, a: Around, c: Cfg, b: Cfg)
    requires n.While? && Ready(m, g, x, a, c, ShapeCmd(n, x).names) && b.stack == c.stack && b.frames == c.frames
    requires WhileBreak(n, base, x) <= |m.code|
    ensures var inner := Inside(a, Loop(0, WhileBreak(n, base, x)), false);
            && inner.loops == WhileLoops(n, base, x, a.loops)
            && Ready(m, g, x, a, b, ShapeProgram(n.cond, x).names)
            && Ready(m, g, WhileBodyStatic(n, x), inner, b, ShapeProgram(n.body, WhileBodyStatic(n, x)).names)
            && Ready(m, g, WhileAgainStatic(n, x), inner, b, ShapeProgram(n.cond, WhileAgainStatic(n, x)).names)
    ensures |m.code| < TWO31
  {
    hide Iters, Linked, ShapeProgram, Ready;
    var c1 := ShapeProgram(n.cond, x).names;
    var x1 := x.With(c1);
    var b1 := ShapeProgram(n.body, x1.InLoop(false)).names;
    var x2 := x1.With(b1);
    var c2 := ShapeProgram(n.cond, x2.InLoop(false)).names;
    assert ShapeCmd(n, x).names == c1 + (b1 + c2);
    ReadySplit(m, g, x, a, c, b, c1, b1 + c2);
    ReadySplit(m, g, x1, a, b, b, b1, c2);
    var loop := Loop(0, WhileBreak(n, base, x));
    ReadyInside(m, g, x1, a, b, b, loop, [], b1);
    ReadyInside(m, g, x2, a, b, b, loop, [], c2);
    ReadyFirst(m, g, x, a, b, b, c1);
  }

  /** Leaving a while-loop from inside: break lands behind the backward jump, everything else goes further out. */
  lemma LeaveWhile(m: Machine, n: Cmd, base: nat, x: Static, a: Around, c: Cfg, d: Cfg, r: Res, end1: nat, fuel: nat)
    requires n.While? && |a.loops| == |a.flags| && a.flags == x.flags && a.d <= |a.loops| && WhileAt(m, n, base, x, a.loops)
    requires Star(m, c, d) && d.stack == c.stack && d.frames == c.frames && |m.code| < TWO31
    requires Floor(c) <= |c.stack|
    requires !r.Ok?
    requires Meets(m, d, fuel, GoalOf(r, end1, d, Inside(a, Loop(0, WhileBreak(n, base, x)), false)))
    ensures Meets(m, c, fuel, GoalOf(LeaveLoop(r), WhileBreak(n, base, x) + JUMP_SIZE + 1, c, a))
  {
    hide Star, Run, Step, At, Iters, EmitProgram, ShapeProgram;
    var brk := WhileBreak(n, base, x);
    var inner := Inside(a, Loop(0, brk), false);
    NoIters(inner.flags);
    assert r.Cont? && r.k == 0 ==> GoalOf(r, end1, d, inner) == Never;
    if LeaveLoop(r).Ok? {
      assert d.stack[..|d.stack| - 0] == d.stack;
      var e := d.(ip := brk, s := r.s);
      AfterTo(m, c, d, e, fuel);
      e := DoJump(m, c, e, JMP, brk + JUMP_SIZE + 1);
      Straight(m, c, e, a, fuel);
    } else {
      LeaveGoal(m, c, d, r, end1, brk + JUMP_SIZE + 1, a, Loop(0, brk), [], fuel);
      Onward(m, c, d, fuel, GoalOf(LeaveLoop(r), brk + JUMP_SIZE + 1, c, a));
    }
  }

  /** From the start of the body on. */
  lemma {:induction false} SimLoop(m: Machine, g: Script, n: Cmd, base: nat, x: Static, a: Around, c: Cfg, b: Cfg, fuel: nat)
    requires n.While? && Ready(m, g, x, a, c, ShapeCmd(n, x).names) && WfCmd(n, x, a.d)
    requires WhileAt(m, n, base, x, a.loops)
    requires Star(m, c, b) && b.ip == WhileStart(n, base, x) && b.stack == c.stack && b.frames == c.frames
    ensures Meets(m, c, fuel,
                  GoalOf(EvalLoop(g, n, x, b.s, |c.frames|, fuel), WhileBreak(n, base, x) + JUMP_SIZE + 1, c, a))
    decreases fuel, n, 1
  {
    hide Star, Meets, Run, Step, At, DefOk, Linked, Within, Iters, GoalOf, EvalProgram, EmitProgram, ShapeProgram, WfProgram, EvalGuard, WhileBodyStatic, WhileAgainStatic;
    var brk := WhileBreak(n, base, x);
    var x1 := WhileBodyStatic(n, x);
    var inner := Inside(a, Loop(0, brk), false);
    ReadyWhile(m, g, n, base, x, a, c, b);
    SimProgram(m, g, n.body, x1, inner, b, fuel);
    var r := EvalProgram(g, n.body, x1, b.s, |c.frames|, fuel);
    var again := b.ip + ShapeProgram(n.body, x1).size;
    if r.Ok? {
      var d := Arrive(m, c, b, r, again, inner, fuel);
      SimAgain(m, g, n, base, x, a, c, d, fuel);
    } else {
      LeaveWhile(m, n, base, x, a, c, b, r, again, fuel);
    }
  }

  /** From the second copy of the condition on. */
  lemma {:induction false} SimAgain(m: Machine, g: Script, n: Cmd, base: nat, x: Static, a: Around, c: Cfg, d: Cfg, fuel: nat)
    requires n.While? && Ready(m, g, x, a, c, ShapeCmd(n, x).names) && WfCmd(n, x, a.d)
    requires WhileAt(m, n, base, x, a.loops)
    requires Star(m, c, d) && d.stack == c.stack && d.frames == c.frames
    requires d.ip == WhileStart(n, base, x) + ShapeProgram(n.body, WhileBodyStatic(n, x)).size
    ensures Meets(m, c, fuel,
                  GoalOf(EvalAgain(g, n, x, d.s, |c.frames|, fuel), WhileBreak(n, base, x) + JUMP_SIZE + 1, c, a))
    decreases fuel, n, 0
  {
    hide Star, Meets, Run, Step, At, DefOk, Linked, Within, Iters, GoalOf, EvalLoop, EmitProgram, ShapeProgram, WfProgram, EvalGuard, WhileBodyStatic, WhileAgainStatic;
    var brk := WhileBreak(n, base, x);
    var end := brk + JUMP_SIZE + 1;
    var x2 := WhileAgainStatic(n, x);
    var inner := Inside(a, Loop(0, brk), false);
    ReadyWhile(m, g, n, base, x, a, c, d);
    Refl(m, d);
    SimGuard(m, g, n.cond, x2, inner, d, d, fuel);
    var r := EvalGuard(g, n.cond, x2, d.s, |c.frames|, fuel);
    if !r.Ok? {
      LeaveWhile(m, n, base, x, a, c, d, r, brk - JUMP_SIZE, fuel);
    } else {
      var e := Arrive(m, c, d, r, brk - JUMP_SIZE, inner, fuel);
      var f := DoJump(m, c, e, AgainOp(n.until), WhileStart(n, base, x));
      if (r.s.status == 0) == n.until {
        f := DoJump(m, c, f, JMP, end);
        Straight(m, c, f, a, fuel);
      } else if fuel == 0 {
        NoFuel(m, c);
        TimeoutGoal(end, c, a);
      } else {
        Refl(m, f);
        ReadyFirst(m, g, x, a, c, f, ShapeCmd(n, x).names);
        SimLoop(m, g, n, base, x, a, f, f, fuel - 1);
        var r2 := EvalLoop(g, n, x, f.s, |c.frames|, fuel - 1);
        SameGoal(r2, end, c, f, a);
        AfterPlus(m, c, f, fuel, GoalOf(r2, end, c, a));
      }
    }
  }

  lemma TimeoutGoal(end: nat, c: Cfg, a: Around)
    ensures GoalOf(Timeout, end, c, a) == Forever
  {
  }

  /** A goal depends on the configuration only through its stack and its frames. */
  lemma SameGoal(r: Res, end: nat, c: Cfg, d: Cfg, a: Around)
    requires c.stack == d.stack && c.frames == d.frames
    ensures GoalOf(r, end, c, a) == GoalOf(r, end, d, a)
  {
    hide Iters;
  }

  lemma {:induction false} SimWhile(m: Machine, g: Script, n: Cmd, x: Static, a: Around, c: Cfg, fuel: nat)
    requires n.While? && Ready(m, g, x, a, c, ShapeCmd(n, x).names) && WfCmd(n, x, a.d)
    requires At(m, c.ip, EmitWhile(n, c.ip, x, a.loops).cells)
    ensures Meets(m, c, fuel, GoalOf(EvalCmd(g, n, x, c.s, |c.frames|, fuel), c.ip + ShapeCmd(n, x).size, c, a))
    decreases fuel, n, 2, 0
  {
    hide Star, Meets, Run, Step, At, DefOk, Linked, Within, Iters, GoalOf, EvalLoop, EmitProgram, EmitWhile, ShapeProgram, WfProgram, EvalGuard, WhileBodyStatic, WhileAgainStatic;
    WhileSplit(m, n, c.ip, x, a.loops);
    var start, brk := WhileStart(n, c.ip, x), WhileBreak(n, c.ip, x);
    ReadyWhile(m, g, n, c.ip, x, a, c, c);
    Refl(m, c);
    SimGuard(m, g, n.cond, x, a, c, c, fuel);
    var r := EvalGuard(g, n.cond, x, c.s, |c.frames|, fuel);
    if !r.Ok? {
      Chain(m, c, c, r, start - JUMP_SIZE, brk + JUMP_SIZE + 1, a, fuel);
    } else {
      var d := Arrive(m, c, c, r, start - JUMP_SIZE, a, fuel);
      var e := DoJump(m, c, d, ExitOp(n.until), brk + JUMP_SIZE);
      if (r.s.status == 0) == n.until {
        e := DoStatus(m, c, e, STATUS_ZERO);
        Straight(m, c, e, a, fuel);
      } else {
        SimLoop(m, g, n, c.ip, x, a, c, e, fuel);
      }
    }
  }

  // ---- every command ----

  lemma {:induction false} SimRedirected(m: Machine, g: Script, rs: seq<Redir>, n: Cmd, x: Static, a: Around, c: Cfg, fuel: nat)
    requires Ready(m, g, x, a, c, ShapeCmd(n, x).names) && WfCmd(n, x, a.d) && SmallRedirs(rs)
    requires At(m, c.ip, EmitRedirected(rs, n, c.ip, x, a.loops).cells)
    ensures Meets(m, c, fuel,
                  GoalOf(EvalRedirected(g, rs, n, x, c.s, |c.frames|, fuel),
                         c.ip + |EmitRedirsOpen(rs, x.locals)| + ShapeCmd(n, x).size + 1, c, a))
    decreases fuel, n, 3
  {
    hide Star, Meets, Run, Step, At, DefOk, Linked, Within, Iters, EmitRedirsOpen, OpenRedirs, SmallRedirs, Restore,
    EvalCmd, EmitCmd, ShapeCmd, WfCmd;
    var open := EmitRedirsOpen(rs, x.locals);
    var cs := ShapeCmd(n, x);
    var mid := c.ip + |open|;
    var body := EmitCmd(n, mid, x, a.loops).cells;
    AtSplit(m, c.ip, open, body + Op(REDIR_RESTORE));
    AtSplit(m, mid, body, Op(REDIR_RESTORE));
    Refl(m, c);
    ReadyFirst(m, g, x, a, c, c, cs.names);
    var d := RunRedirsOpen(m, c, c, rs, x.locals);
    match OpenRedirs(g.h, rs, x.locals, c.s)
    case Exit(s) => AnyFuel(m, c, 0, fuel, s);
    case Ok(s) =>
      ReadyFirst(m, g, x, a, c, d, cs.names);
      SimCmd(m, g, n, x, a, d, fuel);
      var r := EvalCmd(g, n, x, s, |c.frames|, fuel);
      if r.Ok? {
        var e := Arrive(m, c, d, r, mid + cs.size, a, fuel);
        e := RunRestore(m, c, e);
        Straight(m, c, e, a, fuel);
      } else {
        Chain(m, c, d, r, mid + cs.size, mid + cs.size + 1, a, fuel);
      }
  }

  lemma {:induction false} SimCmd(m: Machine, g: Script, n: Cmd, x: Static, a: Around, c: Cfg, fuel: nat)
    requires Ready(m, g, x, a, c, ShapeCmd(n, x).names) && WfCmd(n, x, a.d)
    requires At(m, c.ip, EmitCmd(n, c.ip, x, a.loops).cells)
    ensures Meets(m, c, fuel, GoalOf(EvalCmd(g, n, x, c.s, |c.frames|, fuel), c.ip + ShapeCmd(n, x).size, c, a))
    decreases fuel, n, 2, 1
  {
    hide Star, Meets, Run, Step, At, DefOk, Linked, Within, Iters, GoalOf, EvalProgram, EmitProgram, WfProgram, EvalSimple, EvalClauses, EmitClauses, WfClauses, EvalArms, EmitArms,
    WfArms, EmitFor, EmitWhile, EvalTest, EmitCond, WfSimple, EmitFuncDef, EmitRedirected, EvalRedirected, ShapeProgram, ShapeClauses,
    ShapeArms, ShapeSimple, ShapeCond, Targets, Floor, SmallTest, SmallRedirs, SmallWord, SmallWords;
    match n
    case Simple(_, _, _) => SimSimple(m, g, n, x, a, c, fuel);
    case If(cs) => SimClauses(m, g, cs, x, a, c, c.ip + ShapeClauses(cs, x).size, fuel);
    case For(_, _, _) => SimFor(m, g, n, x, a, c, fuel);
    case While(_, _, _) => SimWhile(m, g, n, x, a, c, fuel);
    case Case(subject, arms) => SimArms(m, g, arms, x, subject, a, c, c.ip + ShapeArms(arms, x, subject).size, fuel);
    case Group(body) => SimProgram(m, g, body, x, a, c, fuel);
    case FuncDef(name, func) => SimFuncDef(m, g, n, x, a, c, fuel);
    case Bracket(_) => SimBracket(m, g, n, x, a, c, fuel);
    case Redirected(rs, cmd) => SimRedirected(m, g, rs, cmd, x, a, c, fuel);
  }

  lemma SimBracket(m: Machine, g: Script, n: Cmd, x: Static, a: Around, c: Cfg, fuel: nat)
    requires n.Bracket? && Ready(m, g, x, a, c, []) && SmallTest(n.expr)
    requires At(m, c.ip, EmitCond(n.expr, c.ip, x.locals))
    ensures Meets(m, c, fuel, GoalOf(Ok(EvalTest(g.h, n.expr, x.locals, c.s)), c.ip + ShapeCond(n.expr, x.locals), c, a))
  {
    hide Star, Meets, Run, Step, At, Linked, Within, Iters, GoalOf, EvalTest, EmitCond, ShapeCond, Targets, SmallTest;
    Refl(m, c);
    ReadyFirst(m, g, x, a, c, c, []);
    var d := RunTest(m, c, c, n.expr, x.locals);
    Straight(m, c, d, a, fuel);
  }

  /** A definition only jumps over its body. */
  lemma SimFuncDef(m: Machine, g: Script, n: Cmd, x: Static, a: Around, c: Cfg, fuel: nat)
    requires n.FuncDef? && Ready(m, g, x, a, c, ShapeCmd(n, x).names)
    requires At(m, c.ip, EmitFuncDef(n.name, n.func, c.ip, x, a.loops).cells)
    ensures Meets(m, c, fuel, GoalOf(Ok(c.s), c.ip + ShapeCmd(n, x).size, c, a))
  {
    hide Star, Meets, Run, Step, At, Linked, Within, Iters, GoalOf, EmitCmd, EmitFuncDef, ShapeCmd, Targets, JumpTo;
    ReadyFirst(m, g, x, a, c, c, ShapeCmd(n, x).names);
    FuncDefEnd(m, n, x, a.loops, c.ip);
    var x1 := x.InFunction(n.name, n.func);
    var end := c.ip + ShapeCmd(n, x).size;
    AtSplit(m, c.ip, JumpTo(JMP, c.ip, end), EmitCmd(n.func, c.ip + JUMP_SIZE, x1, a.loops).cells + Op(RET));
    Refl(m, c);
    var d := DoJump(m, c, c, JMP, end);
    Straight(m, c, d, a, fuel);
  }

  lemma FuncDefEnd(m: Machine, n: Cmd, x: Static, loops: seq<Loop>, base: nat)
    requires n.FuncDef? && |loops| == |x.flags| && At(m, base, EmitFuncDef(n.name, n.func, base, x, loops).cells)
    ensures var x1 := x.InFunction(n.name, n.func);
            var end := base + ShapeCmd(n, x).size;
            && end <= |m.code|
            && EmitFuncDef(n.name, n.func, base, x, loops).cells
               == JumpTo(JMP, base, end) + (EmitCmd(n.func, base + JUMP_SIZE, x1, loops).cells + Op(RET))
  {
    hide EmitCmd, JumpTo;
  }
}
