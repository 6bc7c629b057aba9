/**
 Errexit without a counter. This evaluator has no counter in its state; it is told how many conditions, members of
 and-or lists before the last one, and negated commands enclose the command, across calls. On tidy scripts it is the
 meaning of the program: the counter of the machine always is that number.
 */
module Nesting {
  import opened Ast
  import opened Vm
  import opened Emit
  import opened Semantics
  import opened Tidy
  import opened Errexit
  import opened Ledger

  /** A state without the errexit counter. */
  datatype Bare = Bare(w: World, status: int, redirs: nat)

  datatype Result =
    | Fine(b: Bare)
    | Broken(k: nat, b: Bare)
    | Continued(k: nat, b: Bare)
    | Returned(b: Bare)
    | Exited(b: Bare)
    | Unfinished

  function Strip(s: State): Bare {
    Bare(s.w, s.status, s.redirs)
  }

  function With(b: Bare, n: nat): State {
    State(b.w, b.status, n, b.redirs)
  }

  function Shed(r: Res): Result {
    match r
    case Ok(s) => Fine(Strip(s))
    case Brk(k, s) => Broken(k, Strip(s))
    case Cont(k, s) => Continued(k, Strip(s))
    case Ret(s) => Returned(Strip(s))
    case Exit(s) => Exited(Strip(s))
    case Timeout => Unfinished
  }

  // ---- the evaluator: `n` is the number of suppressed regions around the command ----

  /** `set -e` stops the shell: it is in force, nothing encloses the command, and the command failed. */
  predicate Stops(h: Host, w: World, status: int, n: nat) {
    h.errexit(w) && n == 0 && status != 0
  }

  function StopIf(h: Host, b: Bare, n: nat): Result {
    if Stops(h, b.w, b.status, n) then Exited(b.(w := h.exitTrap(b.status, b.w))) else Fine(b)
  }

  /** Run a builtin or an external command. */
  function NestInvoke(h: Host, t: Target, argv: seq<string>, b: Bare, depth: nat, n: nat): Result {
    var r := h.run(t, argv, b.status, b.w);
    var b1 := b.(w := r.w, status := r.status);
    match r.fate
    case Proceed => StopIf(h, b1, n)
    case Quit =>
      var w := h.exitTrap(b1.status, b1.w);
      Exited(b1.(w := if Stops(h, w, b1.status, n) then h.exitTrap(b1.status, w) else w))
    case Return =>
      var w := if depth > 0 then h.leave(b1.w) else b1.w;
      if Stops(h, w, b1.status, n) then Exited(b1.(w := h.exitTrap(b1.status, w)))
      else if depth > 0 then Returned(b1.(w := w)) else Exited(b1)
  }

  function NestExec(g: Script, c: Cmd, x: Static, argv: seq<string>, b: Bare, depth: nat, fuel: nat, n: nat): Result
    requires c.Simple? && |c.words| > 0
    decreases fuel, c, 0
  {
    var name := if IsLiteral(c.words[0]) then c.words[0][0].text else "";
    var bound := if IsLiteral(c.words[0]) then IndexOf(x.builtins, name) else |x.builtins|;
    var f := if IsLiteral(c.words[0]) then IndexOf(x.fns, name) else |x.fns|;
    if bound < |x.builtins| then NestInvoke(g.h, Builtin(bound), argv, b, depth, n)
    else if f < |x.fns| then NestCall(g, c, f, argv, b, depth, fuel, n)
    else if argv == [] then StopIf(g.h, b, n)
    else
      var late, builtin := IndexOf(Names(g.defs), argv[0]), IndexOf(g.h.builtins, argv[0]);
      if late < |g.defs| then NestCall(g, c, late, argv, b, depth, fuel, n)
      else NestInvoke(g.h, if builtin < |g.h.builtins| then Builtin(builtin) else External, argv, b, depth, n)
  }

  /** A call of function `f`, or of nothing if there is no such function. */
  function NestCall(g: Script, call: Cmd, f: nat, argv: seq<string>, b: Bare, depth: nat, fuel: nat, n: nat): Result
    decreases fuel, call, -1
  {
    if f >= |g.defs| then StopIf(g.h, b.(status := 127), n)
    else if depth >= CALL_MAX then
      Exited(b.(status := 1, w := if Stops(g.h, b.w, 1, n) then g.h.exitTrap(1, b.w) else b.w))
    else
      var w := g.h.enter(argv, b.w);
      if Stops(g.h, w, b.status, n) then Exited(b.(w := g.h.exitTrap(b.status, w)))
      else if fuel == 0 then Unfinished
      else
        match NestCmd(g, g.defs[f].body, g.defs[f].x, b.(w := w), depth + 1, fuel - 1, n)
        case Fine(b1) => Fine(b1.(w := g.h.leave(b1.w)))
        case Returned(b1) => Fine(b1)
        case r => r
  }

  function NestRestart(g: Script, jump: Cmd, b: Bare, depth: nat, fuel: nat, n: nat): Result
    decreases fuel, jump, 0
  {
    if fuel == 0 then Unfinished
    else
      match NestProgram(g, g.main, TopLevel(g.h), b, depth, fuel - 1, n)
      case Fine(b1) => Exited(b1.(w := g.h.exitTrap(b1.status, b1.w)))
      case r => r
  }

  function NestSimple(g: Script, c: Cmd, x: Static, b: Bare, depth: nat, fuel: nat, n: nat): Result
    requires c.Simple?
    decreases fuel, c, 1
  {
    match Intercept(c.words)
    case Jump(isBreak, count) =>
      if |x.flags| == 0 || count == 0 then Fine(b)
      else
        var k := Clamp(count, |x.flags|) - 1;
        if isBreak then Broken(k, b)
        else if x.flags[|x.flags| - 1 - k] then Continued(k, b)
        else NestRestart(g, c, b, depth, fuel, n)
    case NotIntercepted =>
      if c.words == [] then Fine(Strip(StoreAll(g.h, c.assigns, false, x.locals, With(b, n))))
      else
        (match Prepare(g.h, c, x.locals, With(b, n))
         case Ok(s1) =>
           (match NestExec(g, c, x, Argv(g.h, c.words, true, x.locals, s1), Strip(s1), depth, fuel, n)
            case Fine(b2) => Fine(Strip(Finish(g.h, c, With(b2, n))))
            case r => r)
         case r => Shed(r))
    case _ => Fine(b)
  }

  function NestCmd(g: Script, c: Cmd, x: Static, b: Bare, depth: nat, fuel: nat, n: nat): Result
    decreases fuel, c, 2
  {
    match c
    case Simple(_, _, _) => NestSimple(g, c, x, b, depth, fuel, n)
    case If(cs) => NestClauses(g, cs, x, b, depth, fuel, n)
    case For(_, items, _) =>
      var args := Items(g.h, items, x.locals, With(b, n));
      if |args| > STACK_MAX then Exited(b.(status := 1)) else NestFor(g, c, args, x, b, depth, fuel, n)
    case While(until, cond, _) =>
      (match NestProgram(g, cond, x, b, depth, fuel, n + 1)
       case Fine(b1) =>
         if (b1.status == 0) == until then Fine(b1.(status := 0)) else NestLoop(g, c, x, b1, depth, fuel, n)
       case r => r)
    case Case(subject, arms) => NestArms(g, arms, x, subject, b, depth, fuel, n)
    case Group(body) => NestProgram(g, body, x, b, depth, fuel, n)
    case FuncDef(_, _) => Fine(b)
    case Bracket(e) => Fine(Strip(EvalTest(g.h, e, x.locals, With(b, n))))
    case Redirected(rs, cmd) => NestRedirected(g, rs, cmd, x, b, depth, fuel, n)
  }

  function NestRedirected(g: Script, rs: seq<Redir>, cmd: Cmd, x: Static, b: Bare, depth: nat, fuel: nat, n: nat): Result
    decreases fuel, cmd, 3
  {
    match OpenRedirs(g.h, rs, x.locals, With(b, n))
    case Ok(s1) =>
      (match NestCmd(g, cmd, x, Strip(s1), depth, fuel, n)
       case Fine(b2) => Fine(Strip(Restore(g.h, With(b2, n))))
       case r => r)
    case r => Shed(r)
  }

  /** What a loop makes of a jump that leaves its body. */
  function NestLeave(r: Result): Result {
    match r
    case Broken(k, b) => if k == 0 then Fine(b) else Broken(k - 1, b)
    case Continued(k, b) => if k == 0 then Fine(b) else Continued(k - 1, b)
    case _ => r
  }

  function NestFor(g: Script, c: Cmd, args: seq<string>, x: Static, b: Bare, depth: nat, fuel: nat, n: nat): Result
    requires c.For?
    decreases fuel, c, 1, |args|
  {
    if args == [] then Fine(b)
    else
      var r := NestProgram(g, c.body, x.InLoop(true), b.(w := g.h.setVar(c.name, args[0], b.w)), depth, fuel, n);
      if r.Fine? || (r.Continued? && r.k == 0) then NestFor(g, c, args[1..], x, r.b, depth, fuel, n) else NestLeave(r)
  }

  function NestLoop(g: Script, c: Cmd, x: Static, b: Bare, depth: nat, fuel: nat, n: nat): Result
    requires c.While?
    decreases fuel, c, 1
  {
    var r := NestProgram(g, c.body, WhileBodyStatic(c, x), b, depth, fuel, n);
    if !r.Fine? then NestLeave(r) else NestAgain(g, c, x, r.b, depth, fuel, n)
  }

  function NestAgain(g: Script, c: Cmd, x: Static, b: Bare, depth: nat, fuel: nat, n: nat): Result
    requires c.While?
    decreases fuel, c, 0
  {
    var r := NestProgram(g, c.cond, WhileAgainStatic(c, x), b, depth, fuel, n + 1);
    if !r.Fine? then NestLeave(r)
    else if (r.b.status == 0) == c.until then r
    else if fuel == 0 then Unfinished
    else NestLoop(g, c, x, r.b, depth, fuel - 1, n)
  }

  function NestClauses(g: Script, cs: Clauses, x: Static, b: Bare, depth: nat, fuel: nat, n: nat): Result
    decreases fuel, cs, 0
  {
    match cs
    case NoElse => Fine(b.(status := 0))
    case Else(body) => NestProgram(g, body, x, b, depth, fuel, n)
    case Elif(cond, body, rest) =>
      var x1 := x.With(ShapeProgram(cond, x).names);
      var x2 := x1.With(ShapeProgram(body, x1).names);
      match NestProgram(g, cond, x, b, depth, fuel, n + 1)
      case Fine(b1) =>
        if b1.status == 0 then NestProgram(g, body, x1, b1, depth, fuel, n)
        else NestClauses(g, rest, x2, b1, depth, fuel, n)
      case r => r
  }

  function NestArms(g: Script, arms: Arms, x: Static, subject: Word, b: Bare, depth: nat, fuel: nat, n: nat): Result
    decreases fuel, arms, 0
  {
    match arms
    case NoArms => Fine(b.(status := 0))
    case Arm(ps, body, ends, rest) =>
      var x1 := x.With(ShapeProgram(body, x).names);
      var (hit, s1) := TryPatterns(g.h, ps, subject, x.locals, With(b, n));
      if !hit && ps != [] then NestArms(g, rest, x1, subject, Strip(s1), depth, fuel, n)
      else
        match NestProgram(g, body, x, Strip(s1), depth, fuel, n)
        case Fine(b2) => if ends then Fine(b2) else NestArms(g, rest, x1, subject, b2, depth, fuel, n)
        case r => r
  }

  function NestPipe(g: Script, negated: bool, cmd: Cmd, x: Static, b: Bare, depth: nat, fuel: nat, n: nat): Result
    decreases fuel, cmd, 3
  {
    if !negated then NestCmd(g, cmd, x, b, depth, fuel, n)
    else
      match NestCmd(g, cmd, x, b, depth, fuel, n + 1)
      case Fine(b1) => Fine(b1.(status := Negate(b1.status)))
      case r => r
  }

  function NestLinks(g: Script, isAnd: bool, a: AndOr, x: Static, b: Bare, depth: nat, fuel: nat, n: nat): Result
    decreases fuel, a, 3
  {
    if isAnd == (b.status == 0) then NestAndOr(g, a, x, b, depth, fuel, n)
    else if a.Link? then NestLinks(g, a.isAnd, a.rest, x.With(ShapeMember(a, x).names), b, depth, fuel, n)
    else Fine(b)
  }

  function NestAndOr(g: Script, a: AndOr, x: Static, b: Bare, depth: nat, fuel: nat, n: nat): Result
    decreases fuel, a, 2
  {
    var r := NestPipe(g, a.negated, a.cmd, x, b, depth, fuel, if a.Link? then n + 1 else n);
    if r.Fine? && a.Link? then NestLinks(g, a.isAnd, a.rest, x.With(ShapeMember(a, x).names), r.b, depth, fuel, n) else r
  }

  function NestProgram(g: Script, p: Program, x: Static, b: Bare, depth: nat, fuel: nat, n: nat): Result
    decreases fuel, p, 0
  {
    match p
    case Nil => Fine(b)
    case Then(head, tail) =>
      match NestAndOr(g, head, x, b, depth, fuel, n)
      case Fine(b1) => NestProgram(g, tail, x.With(ShapeAndOr(head, x).names), b1, depth, fuel, n)
      case r => r
  }

  // ---- on tidy code the two agree ----

  /**
   Without its counter the one result is the other; where the run goes on, the counter is `n`; and it does not go on
   outside the suppressed region the code stands in.
   */
  predicate Agrees(r: Res, nr: Result, n: nat, k: nat, held: bool) {
    && Shed(r) == nr
    && (Flowing(r) ==> r.s.supp == n)
    && (r.Brk? || r.Cont? ==> r.k < k)
    && (r.Ret? ==> !held)
  }

  lemma NestInvokeIs(h: Host, t: Target, argv: seq<string>, s: State, depth: nat)
    ensures var a := Invoke(h, t, argv, s, depth);
            NestInvoke(h, t, argv, Strip(s), depth, s.supp) == Shed(FromAfter(a)) && a.s.supp == s.supp
  {
  }

  lemma StopIfIs(h: Host, s: State)
    ensures var a := Vm.Errexit(h, Go(s)); StopIf(h, Strip(s), s.supp) == Shed(FromAfter(a)) && a.s.supp == s.supp
  {
  }

  lemma NestResolve(g: Script, c: Cmd, x: Static, argv: seq<string>, s: State, depth: nat, fuel: nat)
    requires c.Simple? && |c.words| > 0
    ensures var nr := NestExec(g, c, x, argv, Strip(s), depth, fuel, s.supp);
            match Resolve(g, c.words, x, argv, s, depth)
            case Ended(a) => nr == Shed(FromAfter(a)) && a.s.supp == s.supp
            case Callee(f) => nr == NestCall(g, c, f, argv, Strip(s), depth, fuel, s.supp)
  {
    hide NestCall, Names, Invoke, NestInvoke, Vm.Errexit, StopIf, IndexOf;
    forall t { NestInvokeIs(g.h, t, argv, s, depth); }
    StopIfIs(g.h, s);
  }

  lemma {:induction false} AgreeExec(g: Script, c: Cmd, x: Static, s: State, depth: nat, fuel: nat, k: nat, held: bool)
    requires c.Simple? && |c.words| > 0 && Ground(g, x) && (!held || Steady(g.h, c.words))
    ensures var argv := Argv(g.h, c.words, true, x.locals, s);
            Agrees(EvalExec(g, c, x, argv, s, depth, fuel), NestExec(g, c, x, argv, Strip(s), depth, fuel, s.supp), s.supp, k, held)
    decreases fuel, c, 0
  {
    hide EvalCallee, Argv, TidyScript, Steady, Resolve, NestExec, NestCall;
    var argv := Argv(g.h, c.words, true, x.locals, s);
    NestResolve(g, c, x, argv, s, depth, fuel);
    if Steady(g.h, c.words) { SteadyResolve(g, c.words, x, s, depth); }
    match Resolve(g, c.words, x, argv, s, depth) {
      case Ended(_) =>
      case Callee(f) => AgreeCall(g, c, f, argv, s, depth, fuel);
    }
  }

  lemma {:induction false} AgreeCall(g: Script, c: Cmd, f: nat, argv: seq<string>, s: State, depth: nat, fuel: nat)
    requires TidyScript(g)
    ensures var r := if f >= |g.defs| then FromAfter(Vm.Errexit(g.h, Go(s.(status := 127))))
                     else EvalCallee(g, c, f, argv, s, depth, fuel);
            Agrees(r, NestCall(g, c, f, argv, Strip(s), depth, fuel, s.supp), s.supp, 0, true)
    decreases fuel, c, -1
  {
    hide EvalCmd, NestCmd, TidyCmd;
    if f < |g.defs| && Enter(g.h, argv, s, depth).Go? && fuel > 0 {
      var def := g.defs[f];
      assert TidyDef(g.h, def);
      AgreeCmd(g, def.body, def.x, Enter(g.h, argv, s, depth).s, depth + 1, fuel - 1, 0, false);
    }
  }

  lemma {:induction false} AgreeRestart(g: Script, c: Cmd, s: State, depth: nat, fuel: nat, k: nat)
    requires TidyScript(g)
    ensures Agrees(EvalRestart(g, c, s, depth, fuel), NestRestart(g, c, Strip(s), depth, fuel, s.supp), s.supp, k, false)
    decreases fuel, c, 0
  {
    hide EvalProgram, NestProgram, TidyProgram;
    if fuel > 0 { AgreeProgram(g, g.main, TopLevel(g.h), s, depth, fuel - 1, 0, false); }
  }

  lemma {:induction false} AgreeSimple(g: Script, c: Cmd, x: Static, s: State, depth: nat, fuel: nat, k: nat, held: bool)
    requires c.Simple? && Ground(g, x) && TidyCmd(g.h, c, x.flags, k, held)
    ensures Agrees(EvalSimple(g, c, x, s, depth, fuel), NestSimple(g, c, x, Strip(s), depth, fuel, s.supp), s.supp, k, held)
    decreases fuel, c, 1
  {
    hide EvalExec, EvalRestart, NestExec, NestRestart, Prepare, StoreAll, Argv, TidyScript, Steady;
    assert With(Strip(s), s.supp) == s;
    AgreeRestart(g, c, s, depth, fuel, k);
    if Intercept(c.words).NotIntercepted? {
      CalmStores(g.h, c.assigns, false, x.locals, s);
      if c.words != [] {
        CalmPrepare(g.h, c, x.locals, s);
        var p := Prepare(g.h, c, x.locals, s);
        if p.Ok? { AgreeExec(g, c, x, p.s, depth, fuel, k, held); }
      }
    }
  }

  lemma {:induction false} AgreeCmd(g: Script, c: Cmd, x: Static, s: State, depth: nat, fuel: nat, k: nat, held: bool)
    requires Ground(g, x) && TidyCmd(g.h, c, x.flags, k, held)
    ensures Agrees(EvalCmd(g, c, x, s, depth, fuel), NestCmd(g, c, x, Strip(s), depth, fuel, s.supp), s.supp, k, held)
    decreases fuel, c, 2
  {
    hide EvalSimple, EvalClauses, EvalFor, EvalLoop, EvalArms, EvalProgram, EvalGuard, EvalRedirected, NestSimple,
    NestClauses, NestFor, NestLoop, NestArms, NestProgram, NestRedirected, TidyProgram, TidyScript, Argv, EvalTest, Intercept;
    assert With(Strip(s), s.supp) == s;
    match c {
      case Simple(_, _, _) => AgreeSimple(g, c, x, s, depth, fuel, k, held);
      case If(cs) => AgreeClauses(g, cs, x, s, depth, fuel, k, held);
      case For(_, items, _) => AgreeFor(g, c, Items(g.h, items, x.locals, s), x, s, depth, fuel, k, held);
      case While(_, cond, _) =>
        AgreeGuard(g, cond, x, s, depth, fuel);
        var r := EvalGuard(g, cond, x, s, depth, fuel);
        if r.Ok? { AgreeLoop(g, c, x, r.s, depth, fuel, k, held); }
      case Case(subject, arms) => AgreeArms(g, arms, x, subject, s, depth, fuel, k, held);
      case Group(body) => AgreeProgram(g, body, x, s, depth, fuel, k, held);
      case FuncDef(_, _) =>
      case Bracket(e) => CalmTest(g.h, e, x.locals, s);
      case Redirected(rs, cmd) => AgreeRedirected(g, rs, cmd, x, s, depth, fuel, k, held);
    }
  }

  lemma {:induction false} AgreeRedirected(g: Script, rs: seq<Redir>, c: Cmd, x: Static, s: State, depth: nat, fuel: nat,
                                           k: nat, held: bool)
    requires Ground(g, x) && TidyCmd(g.h, c, x.flags, k, held)
    ensures Agrees(EvalRedirected(g, rs, c, x, s, depth, fuel), NestRedirected(g, rs, c, x, Strip(s), depth, fuel, s.supp),
                   s.supp, k, held)
    decreases fuel, c, 3
  {
    hide EvalCmd, NestCmd, OpenRedirs, TidyCmd, TidyScript;
    assert With(Strip(s), s.supp) == s;
    CalmOpen(g.h, rs, x.locals, s);
    var o := OpenRedirs(g.h, rs, x.locals, s);
    if o.Ok? { AgreeCmd(g, c, x, o.s, depth, fuel, k, held); }
  }

  /** A condition counts one more region around its commands, and is left only by running to its end. */
  lemma {:induction false} AgreeGuard(g: Script, p: Program, x: Static, s: State, depth: nat, fuel: nat)
    requires Ground(g, x) && TidyProgram(g.h, p, x.flags, 0, true)
    ensures Agrees(EvalGuard(g, p, x, s, depth, fuel), NestProgram(g, p, x, Strip(s), depth, fuel, s.supp + 1), s.supp, 0, true)
    decreases fuel, p, 1
  {
    hide EvalProgram, NestProgram, TidyProgram, TidyScript;
    AgreeProgram(g, p, x, Suppress(s), depth, fuel, 0, true);
  }

  lemma {:induction false} AgreeFor(g: Script, c: Cmd, args: seq<string>, x: Static, s: State, depth: nat, fuel: nat,
                                    k: nat, held: bool)
    requires c.For? && Ground(g, x) && TidyCmd(g.h, c, x.flags, k, held)
    ensures Agrees(EvalFor(g, c, args, x, s, depth, fuel), NestFor(g, c, args, x, Strip(s), depth, fuel, s.supp), s.supp, k, held)
    decreases fuel, c, 1, |args|
  {
    hide EvalProgram, NestProgram, TidyProgram, TidyScript;
    if args != [] {
      var s1 := s.(w := g.h.setVar(c.name, args[0], s.w));
      AgreeProgram(g, c.body, x.InLoop(true), s1, depth, fuel, k + 1, held);
      var r := EvalProgram(g, c.body, x.InLoop(true), s1, depth, fuel);
      if NextRound(r) { AgreeFor(g, c, args[1..], x, r.s, depth, fuel, k, held); }
    }
  }

  lemma {:induction false} AgreeLoop(g: Script, c: Cmd, x: Static, s: State, depth: nat, fuel: nat, k: nat, held: bool)
    requires c.While? && Ground(g, x) && TidyCmd(g.h, c, x.flags, k, held)
    ensures Agrees(EvalLoop(g, c, x, s, depth, fuel), NestLoop(g, c, x, Strip(s), depth, fuel, s.supp), s.supp, k, held)
    decreases fuel, c, 1
  {
    hide EvalProgram, NestProgram, TidyProgram, TidyScript, EvalAgain, NestAgain, ShapeProgram;
    AgreeProgram(g, c.body, WhileBodyStatic(c, x), s, depth, fuel, k + 1, held);
    var r := EvalProgram(g, c.body, WhileBodyStatic(c, x), s, depth, fuel);
    if r.Ok? { AgreeAgain(g, c, x, r.s, depth, fuel, k, held); }
  }

  lemma {:induction false} AgreeAgain(g: Script, c: Cmd, x: Static, s: State, depth: nat, fuel: nat, k: nat, held: bool)
    requires c.While? && Ground(g, x) && TidyCmd(g.h, c, x.flags, k, held)
    ensures Agrees(EvalAgain(g, c, x, s, depth, fuel), NestAgain(g, c, x, Strip(s), depth, fuel, s.supp), s.supp, k, held)
    decreases fuel, c, 0
  {
    hide EvalGuard, NestProgram, TidyProgram, TidyScript, EvalLoop, NestLoop, ShapeProgram;
    AgreeGuard(g, c.cond, WhileAgainStatic(c, x), s, depth, fuel);
    var r := EvalGuard(g, c.cond, WhileAgainStatic(c, x), s, depth, fuel);
    if r.Ok? && fuel > 0 { AgreeLoop(g, c, x, r.s, depth, fuel - 1, k, held); }
  }

  lemma {:induction false} AgreeClauses(g: Script, cs: Clauses, x: Static, s: State, depth: nat, fuel: nat, k: nat, held: bool)
    requires Ground(g, x) && TidyClauses(g.h, cs, x.flags, k, held)
    ensures Agrees(EvalClauses(g, cs, x, s, depth, fuel), NestClauses(g, cs, x, Strip(s), depth, fuel, s.supp), s.supp, k, held)
    decreases fuel, cs, 0
  {
    hide EvalGuard, EvalProgram, NestProgram, TidyProgram, TidyScript, ShapeProgram;
    match cs {
      case NoElse =>
      case Else(body) => AgreeProgram(g, body, x, s, depth, fuel, k, held);
      case Elif(cond, body, rest) =>
        var x1 := x.With(ShapeProgram(cond, x).names);
        var x2 := x1.With(ShapeProgram(body, x1).names);
        AgreeGuard(g, cond, x, s, depth, fuel);
        var r := EvalGuard(g, cond, x, s, depth, fuel);
        if r.Ok? {
          AgreeProgram(g, body, x1, r.s, depth, fuel, k, held);
          AgreeClauses(g, rest, x2, r.s, depth, fuel, k, held);
        }
    }
  }

  lemma {:induction false} AgreeArms(g: Script, arms: Arms, x: Static, subject: Word, s: State, depth: nat, fuel: nat,
                                     k: nat, held: bool)
    requires Ground(g, x) && TidyArms(g.h, arms, x.flags, k, held)
    ensures Agrees(EvalArms(g, arms, x, subject, s, depth, fuel), NestArms(g, arms, x, subject, Strip(s), depth, fuel, s.supp),
                   s.supp, k, held)
    decreases fuel, arms, 0
  {
    hide EvalProgram, NestProgram, TidyProgram, TidyScript, ShapeProgram, TryPatterns;
    assert With(Strip(s), s.supp) == s;
    if arms.Arm? {
      CalmPatterns(g.h, arms.patterns, subject, x.locals, s);
      var x1 := x.With(ShapeProgram(arms.body, x).names);
      var s1 := TryPatterns(g.h, arms.patterns, subject, x.locals, s).1;
      AgreeArms(g, arms.rest, x1, subject, s1, depth, fuel, k, held);
      AgreeProgram(g, arms.body, x, s1, depth, fuel, k, held);
      var r := EvalProgram(g, arms.body, x, s1, depth, fuel);
      if r.Ok? { AgreeArms(g, arms.rest, x1, subject, r.s, depth, fuel, k, held); }
    }
  }

  lemma {:induction false} AgreePipe(g: Script, negated: bool, c: Cmd, x: Static, s: State, depth: nat, fuel: nat,
                                     k: nat, held: bool)
    requires Ground(g, x) && TidyPipe(g.h, negated, c, x.flags, k, held)
    ensures Agrees(EvalPipe(g, negated, c, x, s, depth, fuel), NestPipe(g, negated, c, x, Strip(s), depth, fuel, s.supp),
                   s.supp, k, held)
    decreases fuel, c, 3
  {
    hide EvalCmd, NestCmd, TidyCmd, TidyScript;
    if negated { AgreeCmd(g, c, x, Suppress(s), depth, fuel, 0, true); } else { AgreeCmd(g, c, x, s, depth, fuel, k, held); }
  }

  lemma {:induction false} AgreeLinks(g: Script, isAnd: bool, a: AndOr, x: Static, s: State, depth: nat, fuel: nat,
                                      k: nat, held: bool)
    requires Ground(g, x) && TidyAndOr(g.h, a, x.flags, k, held)
    ensures Agrees(EvalLinks(g, isAnd, a, x, s, depth, fuel), NestLinks(g, isAnd, a, x, Strip(s), depth, fuel, s.supp),
                   s.supp, k, held)
    decreases fuel, a, 3
  {
    hide EvalAndOr, NestAndOr, TidyPipe, TidyScript, ShapeMember;
    if isAnd == (s.status == 0) {
      AgreeAndOr(g, a, x, s, depth, fuel, k, held);
    } else if a.Link? {
      AgreeLinks(g, a.isAnd, a.rest, x.With(ShapeMember(a, x).names), s, depth, fuel, k, held);
    }
  }

  lemma {:induction false} AgreeAndOr(g: Script, a: AndOr, x: Static, s: State, depth: nat, fuel: nat, k: nat, held: bool)
    requires Ground(g, x) && TidyAndOr(g.h, a, x.flags, k, held)
    ensures Agrees(EvalAndOr(g, a, x, s, depth, fuel), NestAndOr(g, a, x, Strip(s), depth, fuel, s.supp), s.supp, k, held)
    decreases fuel, a, 2
  {
    hide EvalPipe, EvalLinks, NestPipe, NestLinks, TidyPipe, TidyScript, ShapeMember;
    if a.Link? {
      AgreePipe(g, a.negated, a.cmd, x, Suppress(s), depth, fuel, 0, true);
      var r := EvalMember(g, a, x, s, depth, fuel);
      if r.Ok? { AgreeLinks(g, a.isAnd, a.rest, x.With(ShapeMember(a, x).names), r.s, depth, fuel, k, held); }
    } else {
      AgreePipe(g, a.negated, a.cmd, x, s, depth, fuel, k, held);
    }
  }

  lemma {:induction false} AgreeProgram(g: Script, p: Program, x: Static, s: State, depth: nat, fuel: nat, k: nat, held: bool)
    requires Ground(g, x) && TidyProgram(g.h, p, x.flags, k, held)
    ensures Agrees(EvalProgram(g, p, x, s, depth, fuel), NestProgram(g, p, x, Strip(s), depth, fuel, s.supp), s.supp, k, held)
    decreases fuel, p, 0
  {
    hide EvalAndOr, NestAndOr, TidyAndOr, TidyScript, ShapeAndOr;
    if p.Then? {
      AgreeAndOr(g, p.head, x, s, depth, fuel, k, held);
      var r := EvalAndOr(g, p.head, x, s, depth, fuel);
      if r.Ok? { AgreeProgram(g, p.tail, x.With(ShapeAndOr(p.head, x).names), r.s, depth, fuel, k, held); }
    }
  }

  // ---- the results ----

  /**
   The counter is the dynamic number of enclosing suppressed regions: on a tidy script, started with `n` regions around
   it, the meaning is what the evaluator without a counter says, and at the end the counter is `n` again.
   */
  lemma CounterIsNesting(g: Script, p: Program, x: Static, b: Bare, depth: nat, fuel: nat, n: nat)
    requires Ground(g, x) && TidyProgram(g.h, p, x.flags, 0, false)
    ensures var r := EvalProgram(g, p, x, With(b, n), depth, fuel);
            && Shed(r) == NestProgram(g, p, x, b, depth, fuel, n)
            && (r.Ok? || r.Ret? ==> r.s.supp == n) && !r.Brk? && !r.Cont?
  {
    hide EvalProgram, NestProgram, TidyScript, TidyProgram;
    AgreeProgram(g, p, x, With(b, n), depth, fuel, 0, false);
  }

  /** After each of its commands, too, the counter of a tidy script is what it was before. */
  lemma TidyRestores(g: Script, a: AndOr, x: Static, s: State, depth: nat, fuel: nat, k: nat, held: bool)
    requires Ground(g, x) && TidyAndOr(g.h, a, x.flags, k, held)
    ensures var r := EvalAndOr(g, a, x, s, depth, fuel); Flowing(r) ==> r.s.supp == s.supp
  {
    hide EvalAndOr, TidyScript, TidyAndOr, NestAndOr;
    AgreeAndOr(g, a, x, s, depth, fuel, k, held);
  }

  /** So the ledger of tidy code counts nothing, wherever the run goes on. */
  lemma TidyLeaksNothing(g: Script, p: Program, x: Static, s: State, depth: nat, fuel: nat, k: nat, held: bool)
    requires Ground(g, x) && TidyProgram(g.h, p, x.flags, k, held) && Flowing(EvalProgram(g, p, x, s, depth, fuel))
    ensures LedgerProgram(g, p, x, s, depth, fuel).guards == 0
  {
    hide EvalProgram, LedgerProgram, TidyProgram, TidyScript, NestProgram;
    AgreeProgram(g, p, x, s, depth, fuel, k, held);
    KeptProgram(g, p, x, s, depth, fuel);
  }
}
