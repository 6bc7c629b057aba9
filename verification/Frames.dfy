/**
 Frames over whole runs: scopes opened for prefix assignments and calls, and open redirection frames. The ledger says
 what a run leaves open; for the programs that leave nothing open, static conditions say so beforehand.
 */
module Frames {
  import opened Ast
  import opened Vm
  import opened Emit
  import opened Semantics
  import opened Wellformed
  import opened Tidy
  import opened Errexit
  import opened Ledger

  /** `level` counts the scopes above the global one, and every operation of the host opens and closes what it says. */
  ghost predicate Levels(h: Host, level: World -> int) {
    && (forall w :: level(w) >= 0)
    && (forall name, v, w :: level(h.setVar(name, v, w)) == level(w) == level(h.setLocal(name, v, w)))
    && (forall name, w :: level(h.export_(name, w)) == level(w))
    && (forall n, w :: level(h.pushScope(n, w)) == level(w) + 1)
    && (forall w :: level(w) > 0 ==> level(h.popScope(w)) == level(w) - 1)
    && (forall op, l, r, w :: level(h.test2(op, l, r, w).0) == level(w))
    && (forall w :: level(h.redirSave(w)) == level(w) == level(h.redirRestore(w)))
    && (forall fd, w :: level(h.redirClose(fd, w)) == level(w))
    && (forall op, fd, arg, target, status, w :: level(h.redirect(op, fd, arg, target, status, w).0) == level(w))
    && (forall t, argv, status, w :: level(h.run(t, argv, status, w).w) == level(w))
    && (forall argv, w :: level(h.enter(argv, w)) == level(w) + 1)
    && (forall w :: level(w) > 0 ==> level(h.leave(w)) == level(w) - 1)
  }

  // ---- programs that leave no scope open, and programs that leave no frame open ----

  /**
   In a plain command no return fires under a prefix assignment. In a contained one nothing returns, no exec keeps its
   redirections, and no loop jump leaves a redirected command; `k` of the open loops are inside the innermost such one.
   */
  datatype Kind = PlainCode | Contained

  ghost predicate KindSimple(h: Host, c: Cmd, kind: Kind, flags: seq<bool>, k: nat)
    requires c.Simple?
  {
    match Intercept(c.words)
    case Jump(isBreak, count) =>
      var n := Clamp(count, |flags|);
      kind.PlainCode? || n <= k || (!isBreak && !flags[|flags| - n])
    case NotIntercepted =>
      if kind.PlainCode? then c.assigns != [] ==> Steady(h, c.words)
      else Steady(h, c.words) && !IsBareExec(c.words)
    case _ => true
  }

  ghost predicate KindCmd(h: Host, c: Cmd, kind: Kind, flags: seq<bool>, k: nat) {
    match c
    case Simple(_, _, _) => KindSimple(h, c, kind, flags, k)
    case If(cs) => KindClauses(h, cs, kind, flags, k)
    case For(_, _, body) => KindProgram(h, body, kind, flags + [true], k + 1)
    case While(_, cond, body) =>
      KindProgram(h, cond, kind, flags, k) && KindProgram(h, body, kind, flags + [false], k + 1)
      && KindProgram(h, cond, kind, flags + [false], k + 1)
    case Case(_, arms) => KindArms(h, arms, kind, flags, k)
    case Group(body) => KindProgram(h, body, kind, flags, k)
    case FuncDef(_, func) => KindCmd(h, func, kind, flags, 0)
    case Bracket(_) => true
    case Redirected(_, cmd) => KindCmd(h, cmd, kind, flags, 0)
  }

  ghost predicate KindClauses(h: Host, cs: Clauses, kind: Kind, flags: seq<bool>, k: nat) {
    match cs
    case NoElse => true
    case Else(body) => KindProgram(h, body, kind, flags, k)
    case Elif(cond, body, rest) =>
      KindProgram(h, cond, kind, flags, k) && KindProgram(h, body, kind, flags, k) && KindClauses(h, rest, kind, flags, k)
  }

  ghost predicate KindArms(h: Host, arms: Arms, kind: Kind, flags: seq<bool>, k: nat) {
    match arms
    case NoArms => true
    case Arm(_, body, _, rest) => KindProgram(h, body, kind, flags, k) && KindArms(h, rest, kind, flags, k)
  }

  ghost predicate KindAndOr(h: Host, a: AndOr, kind: Kind, flags: seq<bool>, k: nat) {
    KindCmd(h, a.cmd, kind, flags, k) && (a.Link? ==> KindAndOr(h, a.rest, kind, flags, k))
  }

  ghost predicate KindProgram(h: Host, p: Program, kind: Kind, flags: seq<bool>, k: nat) {
    match p
    case Nil => true
    case Then(head, tail) => KindAndOr(h, head, kind, flags, k) && KindProgram(h, tail, kind, flags, k)
  }

  ghost predicate KindDef(h: Host, def: Def, kind: Kind) {
    def.x.builtins == h.builtins && KindCmd(h, def.body, kind, def.x.flags, 0)
  }

  /** The program and every function of the script is of the kind. */
  ghost predicate KindScript(g: Script, kind: Kind) {
    KindProgram(g.h, g.main, kind, [], 0) && forall i :: 0 <= i < |g.defs| ==> KindDef(g.h, g.defs[i], kind)
  }

  ghost predicate Sort(g: Script, x: Static, kind: Kind) {
    KindScript(g, kind) && x.builtins == g.h.builtins
  }

  /** Loop jumps of the program and of its functions stay inside their function. */
  predicate Sound(g: Script) {
    WfProgram(g.main, TopLevel(g.h), 0) && forall i :: 0 <= i < |g.defs| ==> WfCmd(g.defs[i].body, g.defs[i].x, 0)
  }

  // ---- what is kept ----

  /**
   From `s`, with `depth` calls open, to `r` the open scopes and frames grow by exactly what the ledger says, except that a return has closed the
   function's own scope; and code of a kind (`of`) leaves nothing of that sort open.
   */
  ghost predicate Balanced(h: Host, s: State, r: Res, debt: Debt, depth: nat, level: World -> int, d: nat, kind: Kind, of: bool, k: nat) {
    && (Flowing(r) ==> r.s.redirs == s.redirs + debt.frames)
    && (Levels(h, level) && level(s.w) >= depth && Flowing(r) ==> level(r.s.w) == level(s.w) + debt.scopes - (if r.Ret? then 1 else 0))
    && (r.Ret? ==> debt.frames > 0)
    && (r.Brk? || r.Cont? ==> r.k < d)
    && (of && kind.PlainCode? ==> debt.scopes == 0)
    && (of && kind.Contained? ==> debt.frames == 0 && !r.Ret? && (r.Brk? || r.Cont? ==> r.k < k))
  }

  lemma {:induction false} StoresLevel(h: Host, assigns: seq<Assign>, temp: bool, locals: set<string>, s: State, level: World -> int)
    ensures StoreAll(h, assigns, temp, locals, s).redirs == s.redirs
    ensures Levels(h, level) ==> level(StoreAll(h, assigns, temp, locals, s).w) == level(s.w)
    decreases |assigns|
  {
    hide AssignVal;
    if assigns != [] { StoresLevel(h, assigns[1..], temp, locals, Store(h, assigns[0], temp, locals, s), level); }
  }

  lemma {:induction false} ApplyLevel(h: Host, rs: seq<Redir>, locals: set<string>, s: State, level: World -> int)
    ensures ApplyRedirs(h, rs, locals, s).redirs == s.redirs
    ensures Levels(h, level) ==> level(ApplyRedirs(h, rs, locals, s).w) == level(s.w)
    decreases |rs|
  {
    hide WordVal;
    if rs != [] { ApplyLevel(h, rs[1..], locals, ApplyRedir(h, rs[0], locals, s), level); }
  }

  lemma OpenLevel(h: Host, rs: seq<Redir>, locals: set<string>, s: State, level: World -> int)
    ensures var r := OpenRedirs(h, rs, locals, s);
            if s.redirs >= REDIR_MAX then r.Exit?
            else r.Ok? && r.s.redirs == s.redirs + 1 && (Levels(h, level) ==> level(r.s.w) == level(s.w))
  {
    hide ApplyRedirs;
    if s.redirs < REDIR_MAX {
      ApplyLevel(h, rs, locals, s.(redirs := s.redirs + 1, w := h.redirSave(s.w)), level);
    }
  }

  lemma {:induction false} TestLevel(h: Host, e: CondExpr, locals: set<string>, s: State, level: World -> int)
    ensures EvalTest(h, e, locals, s).redirs == s.redirs
    ensures Levels(h, level) ==> level(EvalTest(h, e, locals, s).w) == level(s.w)
    decreases e
  {
    hide WordVal;
    match e
    case Test1(_, _) =>
    case Test2(_, _, _) =>
    case CondAnd(l, r) =>
      TestLevel(h, l, locals, s, level);
      TestLevel(h, r, locals, EvalTest(h, l, locals, s), level);
    case CondOr(l, r) =>
      TestLevel(h, l, locals, s, level);
      TestLevel(h, r, locals, EvalTest(h, l, locals, s), level);
    case CondNot(e1) => TestLevel(h, e1, locals, s, level);
  }

  lemma {:induction false} PatternsLevel(h: Host, ps: seq<Word>, subject: Word, locals: set<string>, s: State)
    ensures var t := TryPatterns(h, ps, subject, locals, s).1; t.redirs == s.redirs && t.w == s.w
    decreases |ps|
  {
    hide WordVal;
    if ps != [] { PatternsLevel(h, ps[1..], subject, locals, MatchStatus(h, ps[0], subject, locals, s)); }
  }

  lemma InvokeLevel(h: Host, t: Target, argv: seq<string>, s: State, depth: nat, level: World -> int)
    ensures var a := Invoke(h, t, argv, s, depth);
            && (!a.Halted? ==> a.s.redirs == s.redirs)
            && (Levels(h, level) && a.Go? ==> level(a.s.w) == level(s.w))
            && (Levels(h, level) && level(s.w) >= depth && a.Unwind? ==> level(a.s.w) == level(s.w) - 1)
  {
  }

  lemma ResolveLevel(g: Script, words: seq<Word>, x: Static, argv: seq<string>, s: State, depth: nat, level: World -> int)
    requires words != []
    ensures var d := Resolve(g, words, x, argv, s, depth);
            d.Ended? && !d.a.Halted? ==>
              d.a.s.redirs == s.redirs
              && (Levels(g.h, level) && level(s.w) >= depth
                  ==> level(d.a.s.w) == (if d.a.Unwind? then level(s.w) - 1 else level(s.w)))
  {
    hide Invoke, Names, Levels;
    forall t { InvokeLevel(g.h, t, argv, s, depth, level); }
  }

  // ---- commands ----

  /** One after the other: debts add up. */
  lemma Onward(h: Host, s: State, r1: Res, d1: Debt, r2: Res, d2: Debt, depth: nat, level: World -> int, d: nat, kind: Kind, of: bool, k: nat)
    requires r1.Ok? && Balanced(h, s, r1, d1, depth, level, d, kind, of, k) && Balanced(h, r1.s, r2, d2, depth, level, d, kind, of, k)
    ensures Balanced(h, s, r2, d1.Add(d2), depth, level, d, kind, of, k)
  {
    hide Levels;
  }

  /** What holds of a kind of code holds of less. */
  lemma Less(h: Host, s: State, r: Res, debt: Debt, depth: nat, level: World -> int, d: nat, kind: Kind, of: bool, of1: bool, k: nat)
    requires Balanced(h, s, r, debt, depth, level, d, kind, of, k) && (of1 ==> of)
    ensures Balanced(h, s, r, debt, depth, level, d, kind, of1, k)
  {
    hide Levels;
  }

  lemma Stopped(h: Host, s: State, r: Res, debt: Debt, depth: nat, level: World -> int, d: nat, kind: Kind, of: bool, k: nat)
    requires Balanced(h, s, r, debt, depth, level, d, kind, of, k)
    ensures Balanced(h, s, Timeout, debt, depth, level, d, kind, of, k)
  {
    hide Levels;
  }

  lemma SortInside(g: Script, x: Static, x1: Static, kind: Kind)
    requires x1.builtins == x.builtins
    ensures Sort(g, x1, kind) == Sort(g, x, kind)
  {
    hide KindScript;
  }

  /** Seen from outside a loop. */
  lemma Outside(h: Host, s: State, r: Res, debt: Debt, depth: nat, level: World -> int, d: nat, kind: Kind, of: bool, k: nat)
    requires Balanced(h, s, r, debt, depth, level, d + 1, kind, of, k + 1)
    ensures Balanced(h, s, LeaveLoop(r), debt, depth, level, d, kind, of, k)
    ensures NextRound(r) ==> Balanced(h, s, Ok(r.s), debt, depth, level, d, kind, of, k)
  {
    hide Levels;
  }

  lemma {:induction false} FrameCmd(g: Script, c: Cmd, x: Static, s: State, depth: nat, fuel: nat,
                                    level: World -> int, d: nat, kind: Kind, k: nat)
    requires Sound(g) && WfCmd(c, x, d)
    ensures Balanced(g.h, s, EvalCmd(g, c, x, s, depth, fuel), LedgerCmd(g, c, x, s, depth, fuel),
                     depth, level, d, kind, Sort(g, x, kind) && KindCmd(g.h, c, kind, x.flags, k), k)
    decreases fuel, c, 2
  {
    hide EvalSimple, EvalClauses, EvalFor, EvalLoop, EvalArms, EvalGuard, LedgerGuard, EvalRedirected, LedgerSimple, LedgerClauses, LedgerFor,
    LedgerLoop, LedgerArms, LedgerRedirected, WfSimple, WfClauses, WfArms, KindSimple, KindClauses, KindArms, EvalTest, Items,
    KindProgram, KindScript, WfProgram, Sound, Levels, EvalProgram, LedgerProgram;
    match c {
      case Simple(_, _, _) => FrameSimple(g, c, x, s, depth, fuel, level, d, kind, k);
      case If(cs) => FrameClauses(g, cs, x, s, depth, fuel, level, d, kind, k);
      case For(_, items, _) => FrameFor(g, c, Items(g.h, items, x.locals, s), x, s, depth, fuel, level, d, kind, k);
      case While(_, cond, _) =>
        FrameWhile(g, c, x, s, depth, fuel, level, d, kind, k);
      case Case(subject, arms) => FrameArms(g, arms, x, subject, s, depth, fuel, level, d, kind, k);
      case Group(body) => FrameProgram(g, body, x, s, depth, fuel, level, d, kind, k);
      case FuncDef(_, _) =>
      case Bracket(e) => TestLevel(g.h, e, x.locals, s, level);
      case Redirected(rs, cmd) => FrameRedirected(g, rs, cmd, x, s, depth, fuel, level, d, kind);
    }
  }

  lemma RestoreLevel(h: Host, s: State, level: World -> int)
    requires s.redirs > 0
    ensures Restore(h, s).redirs == s.redirs - 1 && (Levels(h, level) ==> level(Restore(h, s).w) == level(s.w))
  {
  }

  /** Around a redirected command: its frame is given back exactly if it runs to its end. */
  lemma CloseFrame(h: Host, s: State, o: State, r: Res, debt: Debt, depth: nat, level: World -> int, d: nat, kind: Kind, of: bool)
    requires Balanced(h, o, r, debt, depth, level, d, kind, of, 0)
    requires o.redirs == s.redirs + 1 && (Levels(h, level) ==> level(o.w) == level(s.w))
    ensures Balanced(h, s, if r.Ok? then Ok(Restore(h, r.s)) else r, debt.Add(Unrestored(r)), depth, level, d, kind, of, 0)
  {
    hide Levels;
    if r.Ok? { RestoreLevel(h, r.s, level); }
  }

  lemma {:induction false} FrameRedirected(g: Script, rs: seq<Redir>, c: Cmd, x: Static, s: State, depth: nat, fuel: nat,
                                    level: World -> int, d: nat, kind: Kind)
    requires Sound(g) && WfCmd(c, x, d)
    ensures Balanced(g.h, s, EvalRedirected(g, rs, c, x, s, depth, fuel), LedgerRedirected(g, rs, c, x, s, depth, fuel),
                     depth, level, d, kind, Sort(g, x, kind) && KindCmd(g.h, c, kind, x.flags, 0), 0)
    decreases fuel, c, 3
  {
    hide EvalCmd, LedgerCmd, OpenRedirs, Restore, WfCmd, KindCmd, Sort, Sound, Levels;
    OpenLevel(g.h, rs, x.locals, s, level);
    var o := OpenRedirs(g.h, rs, x.locals, s);
    if o.Ok? {
      hide Balanced, Unrestored;
      FrameCmd(g, c, x, o.s, depth, fuel, level, d, kind, 0);
      var r := EvalCmd(g, c, x, o.s, depth, fuel);
      CloseFrame(g.h, s, o.s, r, LedgerCmd(g, c, x, o.s, depth, fuel), depth, level, d, kind, Sort(g, x, kind) && KindCmd(g.h, c, kind, x.flags, 0));
    }
  }

  lemma PrepareLevel(h: Host, c: Cmd, locals: set<string>, s: State, level: World -> int)
    requires c.Simple?
    ensures var r := Prepare(h, c, locals, s);
            r.Exit? || (r.Ok? && r.s.redirs == s.redirs + 1
                        && (Levels(h, level) ==> level(r.s.w) == level(s.w) + (if c.assigns != [] then 1 else 0)))
  {
    hide OpenRedirs, StoreAll;
    var s1 := if c.assigns != [] then s.(w := h.pushScope(1, s.w)) else s;
    StoresLevel(h, c.assigns, true, locals, s1, level);
    OpenLevel(h, c.redirs, locals, StoreAll(h, c.assigns, true, locals, s1), level);
  }

  lemma FinishLevel(h: Host, c: Cmd, s: State, level: World -> int)
    requires c.Simple? && s.redirs > 0
    ensures var f := Finish(h, c, s);
            && f.redirs == (if IsBareExec(c.words) then s.redirs else s.redirs - 1)
            && (Levels(h, level) && (c.assigns != [] ==> level(s.w) > 0)
                ==> level(f.w) == level(s.w) - (if c.assigns != [] then 1 else 0))
  {
    hide IsBareExec;
  }

  /** What running the command itself leaves open. A return in it comes from a builtin, not from a function. */
  ghost predicate Executed(h: Host, s: State, r: Res, debt: Debt, depth: nat, level: World -> int, kind: Kind, of: bool, steady: bool) {
    && (Flowing(r) ==> (r.Ok? || r.Ret?) && r.s.redirs == s.redirs + debt.frames)
    && (Levels(h, level) && level(s.w) >= depth && Flowing(r) ==> level(r.s.w) == level(s.w) + debt.scopes - (if r.Ret? then 1 else 0))
    && (of && kind.PlainCode? ==> debt.scopes == 0)
    && (of && kind.Contained? ==> debt.frames == 0)
    && (of && steady ==> !r.Ret?)
  }

  lemma CloseCommand(h: Host, c: Cmd, s: State, p: State, r: Res, debt: Debt, depth: nat, level: World -> int, d: nat, kind: Kind,
                     sort: bool, flags: seq<bool>, k: nat)
    requires c.Simple? && Intercept(c.words).NotIntercepted? && Executed(h, p, r, debt, depth, level, kind, sort, Steady(h, c.words))
    requires p.redirs == s.redirs + 1
    requires Levels(h, level) ==> level(p.w) == level(s.w) + (if c.assigns != [] then 1 else 0)
    ensures Balanced(h, s, if r.Ok? then Ok(Finish(h, c, r.s)) else r, debt.Add(KeptOpen(c, r)), depth, level, d, kind,
                     sort && KindSimple(h, c, kind, flags, k), k)
  {
    hide Levels, Finish, IsBareExec, Steady;
    if r.Ok? { FinishLevel(h, c, r.s, level); }
  }

  lemma {:induction false} FrameSimple(g: Script, c: Cmd, x: Static, s: State, depth: nat, fuel: nat,
                                    level: World -> int, d: nat, kind: Kind, k: nat)
    requires c.Simple? && Sound(g) && WfSimple(c, x, d)
    ensures Balanced(g.h, s, EvalSimple(g, c, x, s, depth, fuel), LedgerSimple(g, c, x, s, depth, fuel),
                     depth, level, d, kind, Sort(g, x, kind) && KindSimple(g.h, c, kind, x.flags, k), k)
    decreases fuel, c, 1
  {
    hide EvalExec, LedgerExec, EvalProgram, LedgerProgram, Prepare, Finish, StoreAll, Argv, Steady, IsBareExec, KindScript, Sound,
    Levels, KeptOpen;
    match Intercept(c.words) {
      case Jump(_, _) =>
        if fuel > 0 { FrameMain(g, s, depth, fuel - 1, level, kind); }
      case NotIntercepted =>
        if c.words == [] {
          StoresLevel(g.h, c.assigns, false, x.locals, s, level);
        } else {
          FrameCommand(g, c, x, s, depth, fuel, level, d, kind, k);
        }
      case _ =>
    }
  }

  lemma {:induction false} FrameCommand(g: Script, c: Cmd, x: Static, s: State, depth: nat, fuel: nat,
                                    level: World -> int, d: nat, kind: Kind, k: nat)
    requires c.Simple? && Sound(g) && Intercept(c.words).NotIntercepted? && c.words != []
    ensures Balanced(g.h, s, EvalSimple(g, c, x, s, depth, fuel), LedgerSimple(g, c, x, s, depth, fuel),
                     depth, level, d, kind, Sort(g, x, kind) && KindSimple(g.h, c, kind, x.flags, k), k)
    decreases fuel, c, 0, 1
  {
    hide EvalExec, LedgerExec, Prepare, Finish, Argv, Steady, IsBareExec, Sort, Sound, Levels, KeptOpen, Intercept, KindSimple;
    PrepareLevel(g.h, c, x.locals, s, level);
    var p := Prepare(g.h, c, x.locals, s);
    if p.Ok? {
      hide Balanced, Executed;
      FrameExec(g, c, x, p.s, depth, fuel, level, kind);
      var argv := Argv(g.h, c.words, true, x.locals, p.s);
      CloseCommand(g.h, c, s, p.s, EvalExec(g, c, x, argv, p.s, depth, fuel), LedgerExec(g, c, x, argv, p.s, depth, fuel),
                   depth, level, d, kind, Sort(g, x, kind), x.flags, k);
    }
  }

  /** The whole program, run again. */
  lemma {:induction false} FrameMain(g: Script, s: State, depth: nat, fuel: nat, level: World -> int, kind: Kind)
    requires Sound(g)
    ensures Balanced(g.h, s, EvalProgram(g, g.main, TopLevel(g.h), s, depth, fuel),
                     LedgerProgram(g, g.main, TopLevel(g.h), s, depth, fuel), depth, level, 0, kind, KindScript(g, kind), 0)
    decreases fuel, g.main, 1
  {
    hide EvalProgram, LedgerProgram, KindProgram, WfProgram, Levels;
    FrameProgram(g, g.main, TopLevel(g.h), s, depth, fuel, level, 0, kind, 0);
  }

  /** The command itself: its ledger is that of the call, and a return comes from a builtin. */
  lemma {:induction false} FrameExec(g: Script, c: Cmd, x: Static, s: State, depth: nat, fuel: nat, level: World -> int, kind: Kind)
    requires c.Simple? && |c.words| > 0 && Sound(g)
    ensures var argv := Argv(g.h, c.words, true, x.locals, s);
            var r, debt := EvalExec(g, c, x, argv, s, depth, fuel), LedgerExec(g, c, x, argv, s, depth, fuel);
            Executed(g.h, s, r, debt, depth, level, kind, Sort(g, x, kind), Steady(g.h, c.words))
    decreases fuel, c, 0, 0
  {
    hide EvalCallee, LedgerCallee, Argv, KindScript, Steady, Resolve, Levels, Sound;
    var argv := Argv(g.h, c.words, true, x.locals, s);
    ResolveLevel(g, c.words, x, argv, s, depth, level);
    if x.builtins == g.h.builtins && Steady(g.h, c.words) { SteadyResolve(g, c.words, x, s, depth); }
    var d := Resolve(g, c.words, x, argv, s, depth);
    if d.Callee? && d.f < |g.defs| { CallFrames(g, c, d.f, argv, s, depth, fuel, level, kind); }
  }

  /**
   A call that comes back has left open what its ledger says: no more and no less. So it is back in the scope it was
   called in exactly if no return fired under a prefix assignment in it, and likewise for redirection frames.
   */
  lemma {:induction false} CallFrames(g: Script, c: Cmd, f: nat, argv: seq<string>, s: State, depth: nat, fuel: nat,
                                      level: World -> int, kind: Kind)
    requires f < |g.defs| && Sound(g)
    ensures var r, debt := EvalCallee(g, c, f, argv, s, depth, fuel), LedgerCallee(g, c, f, argv, s, depth, fuel);
            && (Flowing(r) ==> r.Ok? && r.s.redirs == s.redirs + debt.frames)
            && (Levels(g.h, level) && level(s.w) >= depth && Flowing(r) ==> level(r.s.w) == level(s.w) + debt.scopes)
            && (KindScript(g, kind) && kind.PlainCode? ==> debt.scopes == 0)
            && (KindScript(g, kind) && kind.Contained? ==> debt.frames == 0)
    decreases fuel, c, -1
  {
    hide EvalCmd, LedgerCmd, KindCmd, KindProgram, WfCmd, WfProgram;
    if Enter(g.h, argv, s, depth).Go? && fuel > 0 {
      var def := g.defs[f];
      assert KindScript(g, kind) ==> KindDef(g.h, def, kind);
      FrameCmd(g, def.body, def.x, Enter(g.h, argv, s, depth).s, depth + 1, fuel - 1, level, 0, kind, 0);
    }
  }

  lemma {:induction false} FrameGuard(g: Script, p: Program, x: Static, s: State, depth: nat, fuel: nat,
                                    level: World -> int, d: nat, kind: Kind, k: nat)
    requires Sound(g) && WfProgram(p, x, d)
    ensures Balanced(g.h, s, EvalGuard(g, p, x, s, depth, fuel), LedgerGuard(g, p, x, s, depth, fuel),
                     depth, level, d, kind, Sort(g, x, kind) && KindProgram(g.h, p, kind, x.flags, k), k)
    decreases fuel, p, 1
  {
    hide KindProgram, KindScript, WfProgram, Sound, Levels, EvalProgram, LedgerProgram;
    FrameProgram(g, p, x, Suppress(s), depth, fuel, level, d, kind, k);
  }

  lemma {:induction false} FrameFor(g: Script, c: Cmd, args: seq<string>, x: Static, s: State, depth: nat, fuel: nat,
                                    level: World -> int, d: nat, kind: Kind, k: nat)
    requires Sound(g) && c.For? && WfCmd(c, x, d)
    ensures Balanced(g.h, s, EvalFor(g, c, args, x, s, depth, fuel), LedgerFor(g, c, args, x, s, depth, fuel),
                     depth, level, d, kind, Sort(g, x, kind) && KindCmd(g.h, c, kind, x.flags, k), k)
    decreases fuel, c, 1, |args|
  {
    hide KindProgram, KindScript, WfProgram, Sound, Levels, EvalProgram, LedgerProgram;
    var of := Sort(g, x, kind) && KindCmd(g.h, c, kind, x.flags, k);
    if args != [] {
      hide Sort;
      var s1 := s.(w := g.h.setVar(c.name, args[0], s.w));
      SetLevel(g.h, c.name, args[0], s.w, level);
      FrameProgram(g, c.body, x.InLoop(true), s1, depth, fuel, level, d + 1, kind, k + 1);
      var r := EvalProgram(g, c.body, x.InLoop(true), s1, depth, fuel);
      var debt := LedgerProgram(g, c.body, x.InLoop(true), s1, depth, fuel);
      assert Balanced(g.h, s, r, debt, depth, level, d + 1, kind, of, k + 1) by { SortInside(g, x, x.InLoop(true), kind); }
      hide Balanced;
      Outside(g.h, s, r, debt, depth, level, d, kind, of, k);
      if NextRound(r) {
        FrameFor(g, c, args[1..], x, r.s, depth, fuel, level, d, kind, k);
        Onward(g.h, s, Ok(r.s), debt, EvalFor(g, c, args[1..], x, r.s, depth, fuel), LedgerFor(g, c, args[1..], x, r.s, depth, fuel),
               depth, level, d, kind, of, k);
      }
    }
  }

  lemma SetLevel(h: Host, name: string, v: string, w: World, level: World -> int)
    ensures Levels(h, level) ==> level(h.setVar(name, v, w)) == level(w)
  {
  }

  lemma {:induction false} FrameWhile(g: Script, c: Cmd, x: Static, s: State, depth: nat, fuel: nat,
                                    level: World -> int, d: nat, kind: Kind, k: nat)
    requires Sound(g) && c.While? && WfCmd(c, x, d)
    ensures Balanced(g.h, s, EvalCmd(g, c, x, s, depth, fuel), LedgerCmd(g, c, x, s, depth, fuel),
                     depth, level, d, kind, Sort(g, x, kind) && KindCmd(g.h, c, kind, x.flags, k), k)
    decreases fuel, c, 1, 1
  {
    hide KindProgram, KindScript, WfProgram, Sound, Levels, EvalProgram, LedgerProgram, EvalGuard, LedgerGuard, EvalLoop, LedgerLoop, ShapeProgram, Sort, Balanced;
    var of := Sort(g, x, kind) && KindCmd(g.h, c, kind, x.flags, k);
    FrameGuard(g, c.cond, x, s, depth, fuel, level, d, kind, k);
    var r, debt := EvalGuard(g, c.cond, x, s, depth, fuel), LedgerGuard(g, c.cond, x, s, depth, fuel);
    Less(g.h, s, r, debt, depth, level, d, kind, Sort(g, x, kind) && KindProgram(g.h, c.cond, kind, x.flags, k), of, k);
    if r.Ok? && (r.s.status == 0) != c.until {
      FrameLoop(g, c, x, r.s, depth, fuel, level, d, kind, k);
      Onward(g.h, s, r, debt, EvalLoop(g, c, x, r.s, depth, fuel), LedgerLoop(g, c, x, r.s, depth, fuel), depth, level, d, kind, of, k);
    } else if r.Ok? {
      StatusAside(g.h, s, r, 0, debt, depth, level, d, kind, of, k);
    }
  }

  lemma StatusAside(h: Host, s: State, r: Res, status: int, debt: Debt, depth: nat, level: World -> int, d: nat, kind: Kind,
                    of: bool, k: nat)
    requires r.Ok? && Balanced(h, s, r, debt, depth, level, d, kind, of, k)
    ensures Balanced(h, s, Ok(r.s.(status := status)), debt, depth, level, d, kind, of, k)
  {
    hide Levels;
  }

  lemma {:induction false} FrameLoop(g: Script, c: Cmd, x: Static, s: State, depth: nat, fuel: nat,
                                    level: World -> int, d: nat, kind: Kind, k: nat)
    requires Sound(g) && c.While? && WfCmd(c, x, d)
    ensures Balanced(g.h, s, EvalLoop(g, c, x, s, depth, fuel), LedgerLoop(g, c, x, s, depth, fuel),
                     depth, level, d, kind, Sort(g, x, kind) && KindCmd(g.h, c, kind, x.flags, k), k)
    decreases fuel, c, 1, 0
  {
    hide KindProgram, KindScript, WfProgram, Sound, Levels, EvalProgram, LedgerProgram, EvalAgain, LedgerAgain, ShapeProgram;
    hide Sort, Balanced;
    var of := Sort(g, x, kind) && KindCmd(g.h, c, kind, x.flags, k);
    var x1 := WhileBodyStatic(c, x);
    SortInside(g, x, x1, kind);
    FrameProgram(g, c.body, x1, s, depth, fuel, level, d + 1, kind, k + 1);
    var r, debt := EvalProgram(g, c.body, x1, s, depth, fuel), LedgerProgram(g, c.body, x1, s, depth, fuel);
    Less(g.h, s, r, debt, depth, level, d + 1, kind, Sort(g, x1, kind) && KindProgram(g.h, c.body, kind, x1.flags, k + 1), of, k + 1);
    Outside(g.h, s, r, debt, depth, level, d, kind, of, k);
    if r.Ok? {
      FrameAgain(g, c, x, r.s, depth, fuel, level, d, kind, k);
      Onward(g.h, s, r, debt, EvalAgain(g, c, x, r.s, depth, fuel), LedgerAgain(g, c, x, r.s, depth, fuel), depth, level, d, kind, of, k);
    }
  }

  lemma {:induction false} FrameAgain(g: Script, c: Cmd, x: Static, s: State, depth: nat, fuel: nat,
                                    level: World -> int, d: nat, kind: Kind, k: nat)
    requires Sound(g) && c.While? && WfCmd(c, x, d)
    ensures Balanced(g.h, s, EvalAgain(g, c, x, s, depth, fuel), LedgerAgain(g, c, x, s, depth, fuel),
                     depth, level, d, kind, Sort(g, x, kind) && KindCmd(g.h, c, kind, x.flags, k), k)
    decreases fuel, c, 0
  {
    hide KindProgram, KindScript, WfProgram, Sound, Levels, EvalProgram, LedgerProgram, EvalGuard, LedgerGuard, EvalLoop, LedgerLoop, ShapeProgram;
    hide Sort, Balanced;
    var of := Sort(g, x, kind) && KindCmd(g.h, c, kind, x.flags, k);
    var x1 := WhileAgainStatic(c, x);
    SortInside(g, x, x1, kind);
    FrameGuard(g, c.cond, x1, s, depth, fuel, level, d + 1, kind, k + 1);
    var r, debt := EvalGuard(g, c.cond, x1, s, depth, fuel), LedgerGuard(g, c.cond, x1, s, depth, fuel);
    Less(g.h, s, r, debt, depth, level, d + 1, kind, Sort(g, x1, kind) && KindProgram(g.h, c.cond, kind, x1.flags, k + 1), of, k + 1);
    Outside(g.h, s, r, debt, depth, level, d, kind, of, k);
    if r.Ok? && (r.s.status == 0) != c.until && fuel > 0 {
      FrameLoop(g, c, x, r.s, depth, fuel - 1, level, d, kind, k);
      Onward(g.h, s, r, debt, EvalLoop(g, c, x, r.s, depth, fuel - 1), LedgerLoop(g, c, x, r.s, depth, fuel - 1), depth, level, d, kind, of, k);
    } else if r.Ok? && (r.s.status == 0) != c.until {
      Stopped(g.h, s, r, debt, depth, level, d, kind, of, k);
    }
  }

  lemma {:induction false} FrameClauses(g: Script, cs: Clauses, x: Static, s: State, depth: nat, fuel: nat,
                                    level: World -> int, d: nat, kind: Kind, k: nat)
    requires Sound(g) && WfClauses(cs, x, d)
    ensures Balanced(g.h, s, EvalClauses(g, cs, x, s, depth, fuel), LedgerClauses(g, cs, x, s, depth, fuel),
                     depth, level, d, kind, Sort(g, x, kind) && KindClauses(g.h, cs, kind, x.flags, k), k)
    decreases fuel, cs, 0
  {
    hide KindProgram, KindScript, WfProgram, Sound, Levels, EvalProgram, LedgerProgram, EvalGuard, LedgerGuard, ShapeProgram;
    match cs {
      case NoElse =>
      case Else(body) => FrameProgram(g, body, x, s, depth, fuel, level, d, kind, k);
      case Elif(cond, body, rest) =>
        var x1 := x.With(ShapeProgram(cond, x).names);
        var x2 := x1.With(ShapeProgram(body, x1).names);
        FrameGuard(g, cond, x, s, depth, fuel, level, d, kind, k);
        var r := EvalGuard(g, cond, x, s, depth, fuel);
        if r.Ok? {
          FrameProgram(g, body, x1, r.s, depth, fuel, level, d, kind, k);
          FrameClauses(g, rest, x2, r.s, depth, fuel, level, d, kind, k);
        }
    }
  }

  lemma {:induction false} FrameArms(g: Script, arms: Arms, x: Static, subject: Word, s: State, depth: nat, fuel: nat,
                                    level: World -> int, d: nat, kind: Kind, k: nat)
    requires Sound(g) && WfArms(arms, x, subject, d)
    ensures Balanced(g.h, s, EvalArms(g, arms, x, subject, s, depth, fuel), LedgerArms(g, arms, x, subject, s, depth, fuel),
                     depth, level, d, kind, Sort(g, x, kind) && KindArms(g.h, arms, kind, x.flags, k), k)
    decreases fuel, arms, 0
  {
    hide KindProgram, KindScript, WfProgram, Sound, Levels, EvalProgram, LedgerProgram, ShapeProgram, TryPatterns;
    if arms.Arm? {
      PatternsLevel(g.h, arms.patterns, subject, x.locals, s);
      var x1 := x.With(ShapeProgram(arms.body, x).names);
      var s1 := TryPatterns(g.h, arms.patterns, subject, x.locals, s).1;
      FrameArms(g, arms.rest, x1, subject, s1, depth, fuel, level, d, kind, k);
      FrameProgram(g, arms.body, x, s1, depth, fuel, level, d, kind, k);
      var r := EvalProgram(g, arms.body, x, s1, depth, fuel);
      if r.Ok? { FrameArms(g, arms.rest, x1, subject, r.s, depth, fuel, level, d, kind, k); }
    }
  }

  lemma {:induction false} FramePipe(g: Script, negated: bool, c: Cmd, x: Static, s: State, depth: nat, fuel: nat,
                                    level: World -> int, d: nat, kind: Kind, k: nat)
    requires Sound(g) && WfCmd(c, x, d)
    ensures Balanced(g.h, s, EvalPipe(g, negated, c, x, s, depth, fuel), LedgerPipe(g, negated, c, x, s, depth, fuel),
                     depth, level, d, kind, Sort(g, x, kind) && KindCmd(g.h, c, kind, x.flags, k), k)
    decreases fuel, c, 3
  {
    hide EvalCmd, LedgerCmd, KindCmd, WfCmd, KindScript, Sound, Levels;
    FrameCmd(g, c, x, if negated then Suppress(s) else s, depth, fuel, level, d, kind, k);
  }

  lemma {:induction false} FrameMember(g: Script, a: AndOr, x: Static, s: State, depth: nat, fuel: nat,
                                    level: World -> int, d: nat, kind: Kind, k: nat)
    requires Sound(g) && WfCmd(a.cmd, x, d)
    ensures Balanced(g.h, s, EvalMember(g, a, x, s, depth, fuel), LedgerMember(g, a, x, s, depth, fuel),
                     depth, level, d, kind, Sort(g, x, kind) && KindCmd(g.h, a.cmd, kind, x.flags, k), k)
    decreases fuel, a, 0
  {
    hide EvalPipe, LedgerPipe, KindCmd, WfCmd, KindScript, Sound, Levels;
    FramePipe(g, a.negated, a.cmd, x, if a.Link? then Suppress(s) else s, depth, fuel, level, d, kind, k);
  }

  lemma {:induction false} FrameLinks(g: Script, isAnd: bool, a: AndOr, x: Static, s: State, depth: nat, fuel: nat,
                                    level: World -> int, d: nat, kind: Kind, k: nat)
    requires Sound(g) && WfAndOr(a, x, d)
    ensures Balanced(g.h, s, EvalLinks(g, isAnd, a, x, s, depth, fuel), LedgerLinks(g, isAnd, a, x, s, depth, fuel),
                     depth, level, d, kind, Sort(g, x, kind) && KindAndOr(g.h, a, kind, x.flags, k), k)
    decreases fuel, a, 3
  {
    hide EvalAndOr, LedgerAndOr, KindCmd, WfCmd, KindScript, Sound, Levels, ShapeMember;
    if isAnd == (s.status == 0) {
      FrameAndOr(g, a, x, s, depth, fuel, level, d, kind, k);
    } else if a.Link? {
      FrameLinks(g, a.isAnd, a.rest, x.With(ShapeMember(a, x).names), s, depth, fuel, level, d, kind, k);
    }
  }

  lemma {:induction false} FrameAndOr(g: Script, a: AndOr, x: Static, s: State, depth: nat, fuel: nat,
                                    level: World -> int, d: nat, kind: Kind, k: nat)
    requires Sound(g) && WfAndOr(a, x, d)
    ensures Balanced(g.h, s, EvalAndOr(g, a, x, s, depth, fuel), LedgerAndOr(g, a, x, s, depth, fuel),
                     depth, level, d, kind, Sort(g, x, kind) && KindAndOr(g.h, a, kind, x.flags, k), k)
    decreases fuel, a, 2
  {
    hide EvalMember, LedgerMember, EvalLinks, LedgerLinks, KindCmd, WfCmd, KindScript, Sound, Levels, ShapeMember;
    FrameMember(g, a, x, s, depth, fuel, level, d, kind, k);
    var r := EvalMember(g, a, x, s, depth, fuel);
    if r.Ok? && a.Link? {
      FrameLinks(g, a.isAnd, a.rest, x.With(ShapeMember(a, x).names), r.s, depth, fuel, level, d, kind, k);
    }
  }

  lemma {:induction false} FrameProgram(g: Script, p: Program, x: Static, s: State, depth: nat, fuel: nat,
                                    level: World -> int, d: nat, kind: Kind, k: nat)
    requires Sound(g) && WfProgram(p, x, d)
    ensures Balanced(g.h, s, EvalProgram(g, p, x, s, depth, fuel), LedgerProgram(g, p, x, s, depth, fuel),
                     depth, level, d, kind, Sort(g, x, kind) && KindProgram(g.h, p, kind, x.flags, k), k)
    decreases fuel, p, 0
  {
    hide EvalAndOr, LedgerAndOr, KindAndOr, WfAndOr, KindScript, Sound, Levels, ShapeAndOr;
    if p.Then? {
      FrameAndOr(g, p.head, x, s, depth, fuel, level, d, kind, k);
      var r := EvalAndOr(g, p.head, x, s, depth, fuel);
      if r.Ok? { FrameProgram(g, p.tail, x.With(ShapeAndOr(p.head, x).names), r.s, depth, fuel, level, d, kind, k); }
    }
  }

  // ---- the results ----

  /** A call that comes back is back in the scope it was called in exactly if its ledger shows no return under a prefix assignment. */
  lemma CallKeepsScopesIf(g: Script, c: Cmd, f: nat, argv: seq<string>, s: State, depth: nat, fuel: nat, level: World -> int)
    requires f < |g.defs| && Sound(g) && Levels(g.h, level) && level(s.w) >= depth
    requires Flowing(EvalCallee(g, c, f, argv, s, depth, fuel))
    ensures var r := EvalCallee(g, c, f, argv, s, depth, fuel);
            && r.Ok? && level(r.s.w) >= level(s.w)
            && (level(r.s.w) == level(s.w) <==> LedgerCallee(g, c, f, argv, s, depth, fuel).scopes == 0)
  {
    hide EvalCallee, LedgerCallee, Sound, Levels;
    CallFrames(g, c, f, argv, s, depth, fuel, level, PlainCode);
  }

  /**
   A function whose body returns under a prefix assignment: two scopes were opened, the return closes one, and the call
   ends one scope too deep, with a redirection frame it did not give back.
   */
  lemma ScopedReturnLeaks(g: Script, c: Cmd, f: nat, argv: seq<string>, s: State, depth: nat, fuel: nat, level: World -> int)
    requires f < |g.defs| && fuel > 0 && Levels(g.h, level) && level(s.w) >= depth && Enter(g.h, argv, s, depth).Go?
    requires var b := g.defs[f].body; b.Simple? && b.assigns != [] && b.words != [] && Intercept(b.words).NotIntercepted?
    requires EvalCmd(g, g.defs[f].body, g.defs[f].x, Enter(g.h, argv, s, depth).s, depth + 1, fuel - 1).Ret?
    ensures var r := EvalCallee(g, c, f, argv, s, depth, fuel);
            r.Ok? && level(r.s.w) == level(s.w) + 1 && r.s.redirs == s.redirs + 1
  {
    var def := g.defs[f];
    var s1 := Enter(g.h, argv, s, depth).s;
    EnterLevel(g.h, argv, s, depth, level);
    hide EvalCmd, Levels, Enter, Intercept;
    ScopedReturn(g, def.body, def.x, s1, depth + 1, fuel - 1, level);
  }

  lemma EnterLevel(h: Host, argv: seq<string>, s: State, depth: nat, level: World -> int)
    requires Levels(h, level) && Enter(h, argv, s, depth).Go?
    ensures var s1 := Enter(h, argv, s, depth).s; level(s1.w) == level(s.w) + 1 && s1.redirs == s.redirs
  {
  }

  lemma ScopedReturn(g: Script, c: Cmd, x: Static, s: State, depth: nat, fuel: nat, level: World -> int)
    requires Levels(g.h, level) && level(s.w) >= depth && c.Simple? && c.words != [] && Intercept(c.words).NotIntercepted?
    requires EvalCmd(g, c, x, s, depth, fuel).Ret?
    ensures var r := EvalCmd(g, c, x, s, depth, fuel);
            level(r.s.w) == level(s.w) + (if c.assigns != [] then 1 else 0) - 1 && r.s.redirs == s.redirs + 1
  {
    hide EvalCallee, Prepare, Argv, Levels, Resolve, Intercept;
    PrepareLevel(g.h, c, x.locals, s, level);
    var p := Prepare(g.h, c, x.locals, s).s;
    assert EvalCmd(g, c, x, s, depth, fuel) == EvalSimple(g, c, x, s, depth, fuel);
    var argv := Argv(g.h, c.words, true, x.locals, p);
    ResolveLevel(g, c.words, x, argv, p, depth, level);
    CallNeverReturns(g, c, x, argv, p, depth, fuel);
  }

  lemma CallNeverReturns(g: Script, c: Cmd, x: Static, argv: seq<string>, s: State, depth: nat, fuel: nat)
    requires c.Simple? && |c.words| > 0 && EvalExec(g, c, x, argv, s, depth, fuel).Ret?
    ensures Resolve(g, c.words, x, argv, s, depth).Ended?
  {
    hide EvalCmd, Resolve;
  }

  /** Every call that ends by `return` has more redirection frames open when it is over than when it began. */
  lemma ReturnLeavesFrame(g: Script, c: Cmd, f: nat, argv: seq<string>, s: State, depth: nat, fuel: nat)
    requires f < |g.defs| && fuel > 0 && Sound(g) && Enter(g.h, argv, s, depth).Go?
    requires EvalCmd(g, g.defs[f].body, g.defs[f].x, Enter(g.h, argv, s, depth).s, depth + 1, fuel - 1).Ret?
    ensures var r := EvalCallee(g, c, f, argv, s, depth, fuel); r.Ok? && r.s.redirs > s.redirs
  {
    hide EvalCmd, LedgerCmd, WfCmd, WfProgram, KindScript;
    FrameCmd(g, g.defs[f].body, g.defs[f].x, Enter(g.h, argv, s, depth).s, depth + 1, fuel - 1, w => 0, 0, PlainCode, 0);
  }

  /**
   A script in which no return fires under a prefix assignment is in the scope it started in after each of its commands
   and at its end.
   */
  lemma ScriptKeepsScopes(g: Script, p: Program, x: Static, s: State, depth: nat, fuel: nat, level: World -> int)
    requires Levels(g.h, level) && level(s.w) >= depth && Sound(g) && WfProgram(p, x, 0) && Sort(g, x, PlainCode) && KindProgram(g.h, p, PlainCode, x.flags, 0)
    ensures var r := EvalProgram(g, p, x, s, depth, fuel); r.Ok? ==> level(r.s.w) == level(s.w)
    ensures p.Then? ==> var r := EvalAndOr(g, p.head, x, s, depth, fuel); r.Ok? ==> level(r.s.w) == level(s.w)
  {
    hide EvalProgram, EvalAndOr, LedgerProgram, LedgerAndOr, Sort, Sound, Levels, KindAndOr, WfAndOr;
    FrameProgram(g, p, x, s, depth, fuel, level, 0, PlainCode, 0);
    if p.Then? { FrameAndOr(g, p.head, x, s, depth, fuel, level, 0, PlainCode, 0); }
  }

  /**
   A command in which nothing returns, no exec keeps its redirections and no loop jump leaves a redirected command gives
   back every redirection frame, whether it runs to its end or is left by a loop jump.
   */
  lemma ContainedKeepsFrames(g: Script, c: Cmd, x: Static, s: State, depth: nat, fuel: nat, d: nat, k: nat)
    requires Sound(g) && WfCmd(c, x, d) && Sort(g, x, Contained) && KindCmd(g.h, c, Contained, x.flags, k)
    ensures var r := EvalCmd(g, c, x, s, depth, fuel);
            (Flowing(r) ==> r.s.redirs == s.redirs) && !r.Ret? && (r.Brk? || r.Cont? ==> r.k < k)
  {
    hide EvalCmd, LedgerCmd, Sort, Sound, KindCmd, WfCmd;
    FrameCmd(g, c, x, s, depth, fuel, w => 0, d, Contained, k);
  }
}
