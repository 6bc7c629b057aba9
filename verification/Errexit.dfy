/**
 Errexit suppression as a whole-run invariant. Conditions, the members of an and-or list before the last
 one, and negated commands run with a raised counter; `set -e` may only stop the shell while it is zero.
 */
module Errexit {
  import opened Ast
  import opened Vm
  import opened Emit
  import opened Semantics
  import opened Tidy
  import opened Ledger

  // ---- what is kept ----

  /** The same host with `set -e` switched off for good. */
  function Calm(h: Host): Host {
    h.(errexit := w => false)
  }

  function CalmScript(g: Script): Script {
    g.(h := Calm(g.h))
  }

  /** The run goes on, here or at the target of a jump. */
  predicate Flowing(r: Res) {
    r.Ok? || r.Brk? || r.Cont? || r.Ret?
  }

  /**
   From `s` to `r` the counter grows by exactly what the ledger says, and if it was raised, then switching `set -e` off
   would change nothing at all.
   */
  ghost predicate Kept(s: State, r: Res, calm: Res, debt: Debt) {
    && (Flowing(r) ==> r.s.supp == s.supp + debt.guards)
    && (s.supp > 0 ==> r == calm)
  }

  // ---- words, redirections and tests do not look at errexit ----

  lemma {:induction false} CalmParts(h: Host, w: Word, locals: set<string>, s: State)
    ensures PartVals(Calm(h), w, locals, s) == PartVals(h, w, locals, s)
    decreases |w|
  {
    if w != [] { CalmParts(h, w[1..], locals, s); }
  }

  lemma CalmWord(h: Host, w: Word, locals: set<string>, s: State)
    ensures WordVal(Calm(h), w, locals, s) == WordVal(h, w, locals, s)
  {
    CalmParts(h, w, locals, s);
  }

  lemma {:induction false} CalmArgv(h: Host, ws: seq<Word>, tilde: bool, locals: set<string>, s: State)
    ensures Argv(Calm(h), ws, tilde, locals, s) == Argv(h, ws, tilde, locals, s)
    decreases |ws|
  {
    if ws != [] {
      CalmWord(h, ws[0], locals, s);
      CalmArgv(h, ws[1..], tilde, locals, s);
    }
  }

  lemma {:induction false} CalmStores(h: Host, assigns: seq<Assign>, temp: bool, locals: set<string>, s: State)
    ensures StoreAll(Calm(h), assigns, temp, locals, s) == StoreAll(h, assigns, temp, locals, s)
    ensures StoreAll(h, assigns, temp, locals, s).supp == s.supp
    decreases |assigns|
  {
    hide WordVal;
    if assigns != [] {
      CalmWord(h, assigns[0].rest, locals, s);
      CalmStores(h, assigns[1..], temp, locals, Store(h, assigns[0], temp, locals, s));
    }
  }

  lemma {:induction false} CalmApply(h: Host, rs: seq<Redir>, locals: set<string>, s: State)
    ensures ApplyRedirs(Calm(h), rs, locals, s) == ApplyRedirs(h, rs, locals, s)
    ensures ApplyRedirs(h, rs, locals, s).supp == s.supp
    decreases |rs|
  {
    hide WordVal;
    if rs != [] {
      if !rs[0].Close? { CalmWord(h, rs[0].target, locals, s); }
      CalmApply(h, rs[1..], locals, ApplyRedir(h, rs[0], locals, s));
    }
  }

  lemma CalmOpen(h: Host, rs: seq<Redir>, locals: set<string>, s: State)
    ensures OpenRedirs(Calm(h), rs, locals, s) == OpenRedirs(h, rs, locals, s)
    ensures var r := OpenRedirs(h, rs, locals, s); r.Exit? || (r.Ok? && r.s.supp == s.supp)
  {
    hide ApplyRedirs;
    if s.redirs < REDIR_MAX {
      CalmApply(h, rs, locals, s.(redirs := s.redirs + 1, w := h.redirSave(s.w)));
    }
  }

  lemma {:induction false} CalmTest(h: Host, e: CondExpr, locals: set<string>, s: State)
    ensures EvalTest(Calm(h), e, locals, s) == EvalTest(h, e, locals, s)
    ensures EvalTest(h, e, locals, s).supp == s.supp
    decreases e
  {
    hide WordVal;
    match e
    case Test1(_, arg) => CalmWord(h, arg, locals, s);
    case Test2(_, left, right) =>
      CalmWord(h, left, locals, s);
      CalmWord(h, right, locals, s);
    case CondAnd(l, r) =>
      CalmTest(h, l, locals, s);
      CalmTest(h, r, locals, EvalTest(h, l, locals, s));
    case CondOr(l, r) =>
      CalmTest(h, l, locals, s);
      CalmTest(h, r, locals, EvalTest(h, l, locals, s));
    case CondNot(e1) => CalmTest(h, e1, locals, s);
  }

  lemma {:induction false} CalmPatterns(h: Host, ps: seq<Word>, subject: Word, locals: set<string>, s: State)
    ensures TryPatterns(Calm(h), ps, subject, locals, s) == TryPatterns(h, ps, subject, locals, s)
    ensures TryPatterns(h, ps, subject, locals, s).1.supp == s.supp
    decreases |ps|
  {
    hide WordVal;
    if ps != [] {
      CalmWord(h, ps[0], locals, s);
      CalmWord(h, subject, locals, s);
      CalmPatterns(h, ps[1..], subject, locals, MatchStatus(h, ps[0], subject, locals, s));
    }
  }

  // ---- running one command ----

  lemma CalmInvoke(h: Host, t: Target, argv: seq<string>, s: State, depth: nat)
    ensures Invoke(h, t, argv, s, depth).s.supp == s.supp
    ensures s.supp > 0 ==> Invoke(Calm(h), t, argv, s, depth) == Invoke(h, t, argv, s, depth)
    ensures Invoke(h, t, argv, s, depth).Unwind? ==> h.run(t, argv, s.status, s.w).fate == Return
  {
  }

  lemma ExecResolve(g: Script, words: seq<Word>, x: Static, argv: seq<string>, s: State, depth: nat)
    requires words != []
    ensures var d := Resolve(g, words, x, argv, s, depth);
            && (d.Ended? ==> d.a.s.supp == s.supp)
            && (s.supp > 0 ==> Resolve(CalmScript(g), words, x, argv, s, depth) == d)
  {
    hide Invoke, Names;
    forall t { CalmInvoke(g.h, t, argv, s, depth); }
  }

  // ---- commands ----

  lemma {:induction false} KeptCmd(g: Script, c: Cmd, x: Static, s: State, depth: nat, fuel: nat)
    ensures Kept(s, EvalCmd(g, c, x, s, depth, fuel), EvalCmd(CalmScript(g), c, x, s, depth, fuel),
                 LedgerCmd(g, c, x, s, depth, fuel))
    decreases fuel, c, 2
  {
    hide EvalSimple, LedgerSimple, EvalClauses, LedgerClauses, EvalFor, LedgerFor, EvalLoop, LedgerLoop, EvalArms, LedgerArms,
    EvalProgram, LedgerProgram, EvalGuard, LedgerGuard, EvalRedirected, LedgerRedirected, Argv, EvalTest;
    match c {
      case Simple(_, _, _) => KeptSimple(g, c, x, s, depth, fuel);
      case If(cs) => KeptClauses(g, cs, x, s, depth, fuel);
      case For(_, items, _) =>
        CalmArgv(g.h, items, false, x.locals, s);
        KeptFor(g, c, Items(g.h, items, x.locals, s), x, s, depth, fuel);
      case While(_, cond, _) =>
        KeptGuard(g, cond, x, s, depth, fuel);
        var r := EvalGuard(g, cond, x, s, depth, fuel);
        if r.Ok? { KeptLoop(g, c, x, r.s, depth, fuel); }
      case Case(subject, arms) => KeptArms(g, arms, x, subject, s, depth, fuel);
      case Group(body) => KeptProgram(g, body, x, s, depth, fuel);
      case FuncDef(_, _) =>
      case Bracket(e) => CalmTest(g.h, e, x.locals, s);
      case Redirected(rs, cmd) => KeptRedirected(g, rs, cmd, x, s, depth, fuel);
    }
  }

  lemma {:induction false} KeptRedirected(g: Script, rs: seq<Redir>, c: Cmd, x: Static, s: State, depth: nat, fuel: nat)
    ensures Kept(s, EvalRedirected(g, rs, c, x, s, depth, fuel), EvalRedirected(CalmScript(g), rs, c, x, s, depth, fuel),
                 LedgerRedirected(g, rs, c, x, s, depth, fuel))
    decreases fuel, c, 3
  {
    hide EvalCmd, LedgerCmd, OpenRedirs;
    CalmOpen(g.h, rs, x.locals, s);
    var o := OpenRedirs(g.h, rs, x.locals, s);
    if o.Ok? { KeptCmd(g, c, x, o.s, depth, fuel); }
  }

  lemma {:induction false} KeptSimple(g: Script, c: Cmd, x: Static, s: State, depth: nat, fuel: nat)
    requires c.Simple?
    ensures Kept(s, EvalSimple(g, c, x, s, depth, fuel), EvalSimple(CalmScript(g), c, x, s, depth, fuel),
                 LedgerSimple(g, c, x, s, depth, fuel))
    decreases fuel, c, 1
  {
    hide EvalExec, LedgerExec, EvalRestart, LedgerRestart, OpenRedirs, StoreAll, Argv;
    KeptRestart(g, c, s, depth, fuel);
    if Intercept(c.words).NotIntercepted? {
      CalmStores(g.h, c.assigns, false, x.locals, s);
      if c.words != [] {
        CalmPrepare(g.h, c, x.locals, s);
        var p := Prepare(g.h, c, x.locals, s);
        if p.Ok? {
          CalmArgv(g.h, c.words, true, x.locals, p.s);
          KeptExec(g, c, x, p.s, depth, fuel);
        }
      }
    }
  }

  lemma {:induction false} KeptRestart(g: Script, c: Cmd, s: State, depth: nat, fuel: nat)
    ensures Kept(s, EvalRestart(g, c, s, depth, fuel), EvalRestart(CalmScript(g), c, s, depth, fuel),
                 LedgerRestart(g, c, s, depth, fuel))
    decreases fuel, c, 0
  {
    hide EvalProgram, LedgerProgram;
    if fuel > 0 { KeptProgram(g, g.main, TopLevel(g.h), s, depth, fuel - 1); }
  }

  lemma CalmPrepare(h: Host, c: Cmd, locals: set<string>, s: State)
    requires c.Simple?
    ensures Prepare(Calm(h), c, locals, s) == Prepare(h, c, locals, s)
    ensures var r := Prepare(h, c, locals, s); r.Exit? || (r.Ok? && r.s.supp == s.supp)
  {
    hide OpenRedirs, StoreAll;
    var s1 := if c.assigns != [] then s.(w := h.pushScope(1, s.w)) else s;
    CalmStores(h, c.assigns, true, locals, s1);
    CalmOpen(h, c.redirs, locals, StoreAll(h, c.assigns, true, locals, s1));
  }

  lemma {:induction false} KeptExec(g: Script, c: Cmd, x: Static, s: State, depth: nat, fuel: nat)
    requires c.Simple? && |c.words| > 0
    ensures var argv := Argv(g.h, c.words, true, x.locals, s);
            Kept(s, EvalExec(g, c, x, argv, s, depth, fuel), EvalExec(CalmScript(g), c, x, argv, s, depth, fuel),
                 LedgerExec(g, c, x, argv, s, depth, fuel))
    decreases fuel, c, 0
  {
    hide EvalCallee, LedgerCallee, Argv, Resolve;
    var argv := Argv(g.h, c.words, true, x.locals, s);
    ExecResolve(g, c.words, x, argv, s, depth);
    var d := Resolve(g, c.words, x, argv, s, depth);
    if d.Callee? && d.f < |g.defs| {
      KeptCallee(g, c, d.f, argv, s, depth, fuel);
    }
  }

  /** What is left raised inside a call stays raised when it comes back. */
  lemma {:induction false} KeptCallee(g: Script, c: Cmd, f: nat, argv: seq<string>, s: State, depth: nat, fuel: nat)
    requires f < |g.defs|
    ensures Kept(s, EvalCallee(g, c, f, argv, s, depth, fuel), EvalCallee(CalmScript(g), c, f, argv, s, depth, fuel),
                 LedgerCallee(g, c, f, argv, s, depth, fuel))
    decreases fuel, c, -1
  {
    hide EvalCmd, LedgerCmd;
    if Enter(g.h, argv, s, depth).Go? && fuel > 0 {
      var def := g.defs[f];
      KeptCmd(g, def.body, def.x, Enter(g.h, argv, s, depth).s, depth + 1, fuel - 1);
    }
  }

  lemma {:induction false} KeptGuard(g: Script, p: Program, x: Static, s: State, depth: nat, fuel: nat)
    ensures Kept(s, EvalGuard(g, p, x, s, depth, fuel), EvalGuard(CalmScript(g), p, x, s, depth, fuel),
                 LedgerGuard(g, p, x, s, depth, fuel))
    decreases fuel, p, 1
  {
    hide EvalProgram, LedgerProgram;
    KeptProgram(g, p, x, Suppress(s), depth, fuel);
  }

  lemma {:induction false} KeptFor(g: Script, c: Cmd, args: seq<string>, x: Static, s: State, depth: nat, fuel: nat)
    requires c.For?
    ensures Kept(s, EvalFor(g, c, args, x, s, depth, fuel), EvalFor(CalmScript(g), c, args, x, s, depth, fuel),
                 LedgerFor(g, c, args, x, s, depth, fuel))
    decreases fuel, c, 1, |args|
  {
    hide EvalProgram, LedgerProgram;
    if args != [] {
      var s1 := s.(w := g.h.setVar(c.name, args[0], s.w));
      KeptProgram(g, c.body, x.InLoop(true), s1, depth, fuel);
      var r := EvalProgram(g, c.body, x.InLoop(true), s1, depth, fuel);
      if NextRound(r) { KeptFor(g, c, args[1..], x, r.s, depth, fuel); }
    }
  }

  lemma {:induction false} KeptLoop(g: Script, c: Cmd, x: Static, s: State, depth: nat, fuel: nat)
    requires c.While?
    ensures Kept(s, EvalLoop(g, c, x, s, depth, fuel), EvalLoop(CalmScript(g), c, x, s, depth, fuel),
                 LedgerLoop(g, c, x, s, depth, fuel))
    decreases fuel, c, 1
  {
    hide EvalProgram, LedgerProgram, EvalAgain, LedgerAgain, ShapeProgram;
    KeptProgram(g, c.body, WhileBodyStatic(c, x), s, depth, fuel);
    var r := EvalProgram(g, c.body, WhileBodyStatic(c, x), s, depth, fuel);
    if r.Ok? { KeptAgain(g, c, x, r.s, depth, fuel); }
  }

  lemma {:induction false} KeptAgain(g: Script, c: Cmd, x: Static, s: State, depth: nat, fuel: nat)
    requires c.While?
    ensures Kept(s, EvalAgain(g, c, x, s, depth, fuel), EvalAgain(CalmScript(g), c, x, s, depth, fuel),
                 LedgerAgain(g, c, x, s, depth, fuel))
    decreases fuel, c, 0
  {
    hide EvalGuard, LedgerGuard, EvalLoop, LedgerLoop, ShapeProgram;
    KeptGuard(g, c.cond, WhileAgainStatic(c, x), s, depth, fuel);
    var r := EvalGuard(g, c.cond, WhileAgainStatic(c, x), s, depth, fuel);
    if r.Ok? && fuel > 0 { KeptLoop(g, c, x, r.s, depth, fuel - 1); }
  }

  lemma {:induction false} KeptClauses(g: Script, cs: Clauses, x: Static, s: State, depth: nat, fuel: nat)
    ensures Kept(s, EvalClauses(g, cs, x, s, depth, fuel), EvalClauses(CalmScript(g), cs, x, s, depth, fuel),
                 LedgerClauses(g, cs, x, s, depth, fuel))
    decreases fuel, cs, 0
  {
    hide EvalGuard, LedgerGuard, EvalProgram, LedgerProgram, ShapeProgram;
    match cs {
      case NoElse =>
      case Else(body) => KeptProgram(g, body, x, s, depth, fuel);
      case Elif(cond, body, rest) =>
        var x1 := x.With(ShapeProgram(cond, x).names);
        var x2 := x1.With(ShapeProgram(body, x1).names);
        KeptGuard(g, cond, x, s, depth, fuel);
        var r := EvalGuard(g, cond, x, s, depth, fuel);
        if r.Ok? {
          KeptProgram(g, body, x1, r.s, depth, fuel);
          KeptClauses(g, rest, x2, r.s, depth, fuel);
        }
    }
  }

  lemma {:induction false} KeptArms(g: Script, arms: Arms, x: Static, subject: Word, s: State, depth: nat, fuel: nat)
    ensures Kept(s, EvalArms(g, arms, x, subject, s, depth, fuel), EvalArms(CalmScript(g), arms, x, subject, s, depth, fuel),
                 LedgerArms(g, arms, x, subject, s, depth, fuel))
    decreases fuel, arms, 0
  {
    hide EvalProgram, LedgerProgram, ShapeProgram, TryPatterns;
    if arms.Arm? {
      CalmPatterns(g.h, arms.patterns, subject, x.locals, s);
      var x1 := x.With(ShapeProgram(arms.body, x).names);
      var s1 := TryPatterns(g.h, arms.patterns, subject, x.locals, s).1;
      KeptArms(g, arms.rest, x1, subject, s1, depth, fuel);
      KeptProgram(g, arms.body, x, s1, depth, fuel);
      var r := EvalProgram(g, arms.body, x, s1, depth, fuel);
      if r.Ok? { KeptArms(g, arms.rest, x1, subject, r.s, depth, fuel); }
    }
  }

  lemma {:induction false} KeptPipe(g: Script, negated: bool, c: Cmd, x: Static, s: State, depth: nat, fuel: nat)
    ensures Kept(s, EvalPipe(g, negated, c, x, s, depth, fuel), EvalPipe(CalmScript(g), negated, c, x, s, depth, fuel),
                 LedgerPipe(g, negated, c, x, s, depth, fuel))
    decreases fuel, c, 3
  {
    hide EvalCmd, LedgerCmd;
    if negated { KeptCmd(g, c, x, Suppress(s), depth, fuel); } else { KeptCmd(g, c, x, s, depth, fuel); }
  }

  lemma {:induction false} KeptMember(g: Script, a: AndOr, x: Static, s: State, depth: nat, fuel: nat)
    ensures Kept(s, EvalMember(g, a, x, s, depth, fuel), EvalMember(CalmScript(g), a, x, s, depth, fuel),
                 LedgerMember(g, a, x, s, depth, fuel))
    decreases fuel, a, 0
  {
    hide EvalPipe, LedgerPipe;
    if a.Link? {
      KeptPipe(g, a.negated, a.cmd, x, Suppress(s), depth, fuel);
    } else {
      KeptPipe(g, a.negated, a.cmd, x, s, depth, fuel);
    }
  }

  lemma {:induction false} KeptLinks(g: Script, isAnd: bool, a: AndOr, x: Static, s: State, depth: nat, fuel: nat)
    ensures Kept(s, EvalLinks(g, isAnd, a, x, s, depth, fuel), EvalLinks(CalmScript(g), isAnd, a, x, s, depth, fuel),
                 LedgerLinks(g, isAnd, a, x, s, depth, fuel))
    decreases fuel, a, 3
  {
    hide EvalAndOr, LedgerAndOr, ShapeMember;
    if isAnd == (s.status == 0) {
      KeptAndOr(g, a, x, s, depth, fuel);
    } else if a.Link? {
      KeptLinks(g, a.isAnd, a.rest, x.With(ShapeMember(a, x).names), s, depth, fuel);
    }
  }

  lemma {:induction false} KeptAndOr(g: Script, a: AndOr, x: Static, s: State, depth: nat, fuel: nat)
    ensures Kept(s, EvalAndOr(g, a, x, s, depth, fuel), EvalAndOr(CalmScript(g), a, x, s, depth, fuel),
                 LedgerAndOr(g, a, x, s, depth, fuel))
    decreases fuel, a, 2
  {
    hide EvalMember, LedgerMember, EvalLinks, LedgerLinks, ShapeMember;
    KeptMember(g, a, x, s, depth, fuel);
    var r := EvalMember(g, a, x, s, depth, fuel);
    if r.Ok? && a.Link? {
      KeptLinks(g, a.isAnd, a.rest, x.With(ShapeMember(a, x).names), r.s, depth, fuel);
    }
  }

  lemma {:induction false} KeptProgram(g: Script, p: Program, x: Static, s: State, depth: nat, fuel: nat)
    ensures Kept(s, EvalProgram(g, p, x, s, depth, fuel), EvalProgram(CalmScript(g), p, x, s, depth, fuel),
                 LedgerProgram(g, p, x, s, depth, fuel))
    decreases fuel, p, 0
  {
    hide EvalAndOr, LedgerAndOr, ShapeAndOr;
    if p.Then? {
      KeptAndOr(g, p.head, x, s, depth, fuel);
      var r := EvalAndOr(g, p.head, x, s, depth, fuel);
      if r.Ok? { KeptProgram(g, p.tail, x.With(ShapeAndOr(p.head, x).names), r.s, depth, fuel); }
    }
  }

  // ---- the results ----

  /** Inside a condition `set -e` does not exist: with it switched off for good, every condition gives the same result. */
  lemma ConditionsIgnoreErrexit(g: Script, cond: Program, x: Static, s: State, depth: nat, fuel: nat)
    ensures EvalGuard(CalmScript(g), cond, x, s, depth, fuel) == EvalGuard(g, cond, x, s, depth, fuel)
  {
    hide EvalProgram;
    KeptProgram(g, cond, x, Suppress(s), depth, fuel);
  }

  /** So does the same hold of every member of an and-or list but the last, and of every negated command. */
  lemma MembersIgnoreErrexit(g: Script, a: AndOr, x: Static, s: State, depth: nat, fuel: nat)
    requires a.Link? || a.negated
    ensures EvalMember(CalmScript(g), a, x, s, depth, fuel) == EvalMember(g, a, x, s, depth, fuel)
  {
    hide EvalCmd;
    KeptCmd(g, a.cmd, x, Suppress(s), depth, fuel);
    if a.Link? { KeptPipe(g, a.negated, a.cmd, x, Suppress(s), depth, fuel); }
  }

  /**
   The counter is restored, wherever the run goes on, exactly if the ledger counts no jump or return out of a condition, a
   member before the last one or a negated command; it is never lower than it was.
   */
  lemma RestoredExactlyIf(g: Script, p: Program, x: Static, s: State, depth: nat, fuel: nat)
    ensures var r := EvalProgram(g, p, x, s, depth, fuel);
            Flowing(r) ==> r.s.supp >= s.supp && (r.s.supp == s.supp <==> LedgerProgram(g, p, x, s, depth, fuel).guards == 0)
  {
    hide EvalProgram, LedgerProgram;
    KeptProgram(g, p, x, s, depth, fuel);
  }

  /** A condition leaves behind what its commands do, and one suppression more exactly if it is left by a jump or a return. */
  lemma EscapeLeaks(g: Script, cond: Program, x: Static, s: State, depth: nat, fuel: nat)
    ensures var r := EvalGuard(g, cond, x, s, depth, fuel);
            Flowing(r) ==> r.s.supp == s.supp + LedgerProgram(g, cond, x, Suppress(s), depth, fuel).guards + (if r.Ok? then 0 else 1)
  {
    hide EvalProgram, LedgerProgram;
    KeptProgram(g, cond, x, Suppress(s), depth, fuel);
  }

  /** So does a member before the last one, and a negated command; a negated member left by a jump leaves two behind. */
  lemma MemberLeaks(g: Script, a: AndOr, x: Static, s: State, depth: nat, fuel: nat)
    ensures var regions := (if a.Link? then 1 else 0) + (if a.negated then 1 else 0);
            var r := EvalMember(g, a, x, s, depth, fuel);
            var inner := s.(supp := s.supp + regions);
            Flowing(r) ==> r.s.supp == s.supp + LedgerCmd(g, a.cmd, x, inner, depth, fuel).guards + (if r.Ok? then 0 else regions)
  {
    hide EvalCmd, LedgerCmd;
    var inner := s.(supp := s.supp + (if a.Link? then 1 else 0) + (if a.negated then 1 else 0));
    KeptCmd(g, a.cmd, x, inner, depth, fuel);
    var s1 := if a.Link? then Suppress(s) else s;
    assert inner == if a.negated then Suppress(s1) else s1;
  }

  /** `for v in a; do break && break; done`: the first member breaks out of its own suppression. */
  function LeakyLoop(): Cmd {
    var break_ := Simple([], [], [[Lit("break", false)]]);
    For("v", [[Lit("a", false)]], Then(Link(false, break_, true, Last(false, break_)), Nil))
  }

  lemma LeakyLoopLeaks(g: Script, x: Static, s: State, depth: nat, fuel: nat)
    ensures var r := EvalCmd(g, LeakyLoop(), x, s, depth, fuel); r.Ok? && r.s.supp == s.supp + 1
  {
    var c := LeakyLoop();
    var one := [Lit("a", false)];
    LiteralItem(g.h, "a", x.locals, s);
    var s1 := s.(w := g.h.setVar(c.name, "a", s.w));
    var x1 := x.InLoop(true);
    var a := c.body.head;
    assert Intercept(a.cmd.words) == Jump(true, 1);
    assert EvalSimple(g, a.cmd, x1, Suppress(s1), depth, fuel) == Brk(0, Suppress(s1));
    assert EvalPipe(g, false, a.cmd, x1, Suppress(s1), depth, fuel) == Brk(0, Suppress(s1));
    assert EvalMember(g, a, x1, s1, depth, fuel) == Brk(0, Suppress(s1));
    assert EvalAndOr(g, a, x1, s1, depth, fuel) == Brk(0, Suppress(s1));
    assert EvalProgram(g, c.body, x1, s1, depth, fuel) == Brk(0, Suppress(s1));
    assert EvalFor(g, c, ["a"], x, s, depth, fuel) == Ok(Suppress(s1));
  }

  lemma LiteralItem(h: Host, text: string, locals: set<string>, s: State)
    requires !GlobChars(text)
    ensures Items(h, [[Lit(text, false)]], locals, s) == [text]
  {
    var w := [Lit(text, false)];
    assert PartVals(h, w, locals, s) == [text] + PartVals(h, w[1..], locals, s) == [text];
    assert Join([text]) == text + Join([]) == text;
    assert Fields(h, w, false, locals, s) == [text];
    assert Argv(h, [w], false, locals, s) == [text] + Argv(h, [w][1..], false, locals, s);
  }

  /**
   A call of a function looks at the status of the command before it: outside every suppressed region and
   under `set -e`, the body starts to run exactly if the status left by that earlier command is 0.
   */
  lemma CallNeedsCleanStatus(g: Script, c: Cmd, f: nat, argv: seq<string>, s: State, depth: nat, fuel: nat)
    requires f < |g.defs| && depth < CALL_MAX && fuel > 0 && s.supp == 0 && g.h.errexit(g.h.enter(argv, s.w))
    ensures var w := g.h.enter(argv, s.w);
            EvalCallee(g, c, f, argv, s, depth, fuel)
            == if s.status != 0 then Exit(s.(w := g.h.exitTrap(s.status, w)))
               else FromBody(g.h, EvalCmd(g, g.defs[f].body, g.defs[f].x, s.(w := w), depth + 1, fuel - 1))
  {
    hide EvalCmd;
  }

  /** The command is the bare name of function `f`. */
  predicate Calls(c: Cmd, f: nat, x: Static) {
    && c.Simple? && c.assigns == [] && c.redirs == [] && FixedName(c.words) && Intercept(c.words).NotIntercepted?
    && c.words[0][0].text !in x.builtins && f < |x.fns| && IndexOf(x.fns, c.words[0][0].text) == f
  }

  /** The world in which the body of the function would start to run. */
  function CallWorld(h: Host, c: Cmd, x: Static, s: State): World
    requires c.Simple?
  {
    var p := Prepare(h, c, x.locals, s);
    if p.Ok? then h.enter(Argv(h, c.words, true, x.locals, p.s), p.s.w) else s.w
  }

  lemma CallStops(g: Script, c: Cmd, f: nat, x: Static, s: State, depth: nat, fuel: nat)
    requires Calls(c, f, x) && f < |g.defs| && depth < CALL_MAX
    requires s.status != 0 && s.supp == 0 && s.redirs < REDIR_MAX && g.h.errexit(CallWorld(g.h, c, x, s))
    ensures var r := EvalSimple(g, c, x, s, depth, fuel); r.Exit? && r.s.status == s.status
  {
    hide EvalCmd, Argv, HasGlob, StartsWithTilde, Intercept;
    var p := Prepare(g.h, c, x.locals, s);
    assert p.Ok? && p.s.status == s.status && p.s.supp == 0;
    var argv := Argv(g.h, c.words, true, x.locals, p.s);
    assert Resolve(g, c.words, x, argv, p.s, depth) == Callee(f);
    assert EvalCallee(g, c, f, argv, p.s, depth, fuel).Exit?;
    var r := EvalExec(g, c, x, argv, p.s, depth, fuel);
    assert r == EvalCallee(g, c, f, argv, p.s, depth, fuel);
    assert EvalSimple(g, c, x, s, depth, fuel) == r;
  }

  /** Hence in `c || f`, with `set -e` in force when `f` is called, `f` never runs: a failing `c` ends the shell with its own status. */
  lemma FallbackNeverRuns(g: Script, a: AndOr, f: nat, x: Static, s: State, depth: nat, fuel: nat)
    requires a.Link? && !a.isAnd && a.rest.Last? && !a.rest.negated && f < |g.defs| && depth < CALL_MAX
    requires Calls(a.rest.cmd, f, x.With(ShapeMember(a, x).names))
    requires var r := EvalMember(g, a, x, s, depth, fuel);
             && r.Ok? && r.s.status != 0 && r.s.supp == 0 && r.s.redirs < REDIR_MAX
             && g.h.errexit(CallWorld(g.h, a.rest.cmd, x.With(ShapeMember(a, x).names), r.s))
    ensures var r := EvalAndOr(g, a, x, s, depth, fuel);
            r.Exit? && r.s.status == EvalMember(g, a, x, s, depth, fuel).s.status
  {
    hide EvalMember, EvalSimple, Calls, ShapeMember, CallWorld;
    var s1 := EvalMember(g, a, x, s, depth, fuel).s;
    var x1 := x.With(ShapeMember(a, x).names);
    var c := a.rest.cmd;
    CallStops(g, c, f, x1, s1, depth, fuel);
    assert c.Simple? by { SimpleCall(c, f, x1); }
    LastMember(g, a.rest, x1, s1, depth, fuel);
  }

  lemma SimpleCall(c: Cmd, f: nat, x: Static)
    requires Calls(c, f, x)
    ensures c.Simple?
  {
  }

  lemma LastMember(g: Script, a: AndOr, x: Static, s: State, depth: nat, fuel: nat)
    requires a.Last? && !a.negated && a.cmd.Simple?
    ensures EvalAndOr(g, a, x, s, depth, fuel) == EvalSimple(g, a.cmd, x, s, depth, fuel)
  {
    hide EvalSimple;
    assert EvalCmd(g, a.cmd, x, s, depth, fuel) == EvalSimple(g, a.cmd, x, s, depth, fuel);
    assert EvalPipe(g, false, a.cmd, x, s, depth, fuel) == EvalCmd(g, a.cmd, x, s, depth, fuel);
    assert EvalMember(g, a, x, s, depth, fuel) == EvalPipe(g, false, a.cmd, x, s, depth, fuel);
  }
}
