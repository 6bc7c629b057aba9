/**
 What a run leaves open, counted along its meaning: scopes of prefix assignments, redirection frames, and suppressions of
 errexit. Errexit and Frames prove that the counts are exact.
 */
module Ledger {
  import opened Ast
  import opened Vm
  import opened Emit
  import opened Semantics

  /** Scopes and redirection frames left open, and suppressions of errexit left behind. */
  datatype Debt = Debt(scopes: nat, frames: nat, guards: nat) {
    function Add(d: Debt): Debt {
      Debt(scopes + d.scopes, frames + d.frames, guards + d.guards)
    }
  }

  const NONE := Debt(0, 0, 0)

  predicate Leaves(r: Res) {
    r.Brk? || r.Cont? || r.Ret?
  }

  /** A suppressed region that is left by a jump or a return does not lower the counter again. */
  function Raised(r: Res): Debt {
    if Leaves(r) then Debt(0, 0, 1) else NONE
  }

  /** A redirected command that is left by a jump or a return does not give its frame back. */
  function Unrestored(r: Res): Debt {
    if Leaves(r) then Debt(0, 1, 0) else NONE
  }

  /** A simple command keeps its frame if it is a bare exec; if it returns, it keeps the scope of its assignments too. */
  function KeptOpen(c: Cmd, r: Res): Debt
    requires c.Simple?
  {
    if r.Ret? then Debt(if c.assigns != [] then 1 else 0, 1, 0)
    else if r.Ok? && IsBareExec(c.words) then Debt(0, 1, 0)
    else NONE
  }

  function LedgerCmd(g: Script, c: Cmd, x: Static, s: State, depth: nat, fuel: nat): Debt
    decreases fuel, c, 2
  {
    match c
    case Simple(_, _, _) => LedgerSimple(g, c, x, s, depth, fuel)
    case If(cs) => LedgerClauses(g, cs, x, s, depth, fuel)
    case For(_, items, _) => LedgerFor(g, c, Items(g.h, items, x.locals, s), x, s, depth, fuel)
    case While(until, cond, _) =>
      var r := EvalGuard(g, cond, x, s, depth, fuel);
      var d := LedgerGuard(g, cond, x, s, depth, fuel);
      if r.Ok? && (r.s.status == 0) != until then d.Add(LedgerLoop(g, c, x, r.s, depth, fuel)) else d
    case Case(subject, arms) => LedgerArms(g, arms, x, subject, s, depth, fuel)
    case Group(body) => LedgerProgram(g, body, x, s, depth, fuel)
    case FuncDef(_, _) => NONE
    case Bracket(_) => NONE
    case Redirected(rs, cmd) => LedgerRedirected(g, rs, cmd, x, s, depth, fuel)
  }

  function LedgerRedirected(g: Script, rs: seq<Redir>, cmd: Cmd, x: Static, s: State, depth: nat, fuel: nat): Debt
    decreases fuel, cmd, 3
  {
    match OpenRedirs(g.h, rs, x.locals, s)
    case Ok(s1) => LedgerCmd(g, cmd, x, s1, depth, fuel).Add(Unrestored(EvalCmd(g, cmd, x, s1, depth, fuel)))
    case _ => NONE
  }

  function LedgerSimple(g: Script, c: Cmd, x: Static, s: State, depth: nat, fuel: nat): Debt
    requires c.Simple?
    decreases fuel, c, 1
  {
    match Intercept(c.words)
    case Jump(isBreak, count) =>
      var n := Clamp(count, |x.flags|);
      if isBreak || n == 0 || x.flags[|x.flags| - n] then NONE else LedgerRestart(g, c, s, depth, fuel)
    case NotIntercepted =>
      if c.words == [] then NONE
      else
        (match Prepare(g.h, c, x.locals, s)
         case Ok(s1) =>
           var argv := Argv(g.h, c.words, true, x.locals, s1);
           LedgerExec(g, c, x, argv, s1, depth, fuel).Add(KeptOpen(c, EvalExec(g, c, x, argv, s1, depth, fuel)))
         case _ => NONE)
    case _ => NONE
  }

  function LedgerRestart(g: Script, jump: Cmd, s: State, depth: nat, fuel: nat): Debt
    decreases fuel, jump, 0
  {
    if fuel == 0 then NONE else LedgerProgram(g, g.main, TopLevel(g.h), s, depth, fuel - 1)
  }

  function LedgerExec(g: Script, c: Cmd, x: Static, argv: seq<string>, s: State, depth: nat, fuel: nat): Debt
    requires c.Simple? && |c.words| > 0
    decreases fuel, c, 0
  {
    match Resolve(g, c.words, x, argv, s, depth)
    case Ended(_) => NONE
    case Callee(f) => if f < |g.defs| then LedgerCallee(g, c, f, argv, s, depth, fuel) else NONE
  }

  function LedgerCallee(g: Script, call: Cmd, f: nat, argv: seq<string>, s: State, depth: nat, fuel: nat): Debt
    requires f < |g.defs|
    decreases fuel, call, -1
  {
    match Enter(g.h, argv, s, depth)
    case Go(s1) => if fuel == 0 then NONE else LedgerCmd(g, g.defs[f].body, g.defs[f].x, s1, depth + 1, fuel - 1)
    case _ => NONE
  }

  function LedgerFor(g: Script, c: Cmd, args: seq<string>, x: Static, s: State, depth: nat, fuel: nat): Debt
    requires c.For?
    decreases fuel, c, 1, |args|
  {
    if args == [] then NONE
    else
      var s1 := s.(w := g.h.setVar(c.name, args[0], s.w));
      var r := EvalProgram(g, c.body, x.InLoop(true), s1, depth, fuel);
      var d := LedgerProgram(g, c.body, x.InLoop(true), s1, depth, fuel);
      if NextRound(r) then d.Add(LedgerFor(g, c, args[1..], x, r.s, depth, fuel)) else d
  }

  function LedgerLoop(g: Script, c: Cmd, x: Static, s: State, depth: nat, fuel: nat): Debt
    requires c.While?
    decreases fuel, c, 1
  {
    var r := EvalProgram(g, c.body, WhileBodyStatic(c, x), s, depth, fuel);
    var d := LedgerProgram(g, c.body, WhileBodyStatic(c, x), s, depth, fuel);
    if r.Ok? then d.Add(LedgerAgain(g, c, x, r.s, depth, fuel)) else d
  }

  function LedgerAgain(g: Script, c: Cmd, x: Static, s: State, depth: nat, fuel: nat): Debt
    requires c.While?
    decreases fuel, c, 0
  {
    var r := EvalGuard(g, c.cond, WhileAgainStatic(c, x), s, depth, fuel);
    var d := LedgerGuard(g, c.cond, WhileAgainStatic(c, x), s, depth, fuel);
    if r.Ok? && (r.s.status == 0) != c.until && fuel > 0 then d.Add(LedgerLoop(g, c, x, r.s, depth, fuel - 1)) else d
  }

  function LedgerClauses(g: Script, cs: Clauses, x: Static, s: State, depth: nat, fuel: nat): Debt
    decreases fuel, cs, 0
  {
    match cs
    case NoElse => NONE
    case Else(body) => LedgerProgram(g, body, x, s, depth, fuel)
    case Elif(cond, body, rest) =>
      var x1 := x.With(ShapeProgram(cond, x).names);
      var x2 := x1.With(ShapeProgram(body, x1).names);
      var r := EvalGuard(g, cond, x, s, depth, fuel);
      var d := LedgerGuard(g, cond, x, s, depth, fuel);
      if !r.Ok? then d
      else if r.s.status == 0 then d.Add(LedgerProgram(g, body, x1, r.s, depth, fuel))
      else d.Add(LedgerClauses(g, rest, x2, r.s, depth, fuel))
  }

  function LedgerArms(g: Script, arms: Arms, x: Static, subject: Word, s: State, depth: nat, fuel: nat): Debt
    decreases fuel, arms, 0
  {
    match arms
    case NoArms => NONE
    case Arm(ps, body, ends, rest) =>
      var x1 := x.With(ShapeProgram(body, x).names);
      var (hit, s1) := TryPatterns(g.h, ps, subject, x.locals, s);
      if !hit && ps != [] then LedgerArms(g, rest, x1, subject, s1, depth, fuel)
      else
        var r := EvalProgram(g, body, x, s1, depth, fuel);
        var d := LedgerProgram(g, body, x, s1, depth, fuel);
        if r.Ok? && !ends then d.Add(LedgerArms(g, rest, x1, subject, r.s, depth, fuel)) else d
  }

  function LedgerPipe(g: Script, negated: bool, cmd: Cmd, x: Static, s: State, depth: nat, fuel: nat): Debt
    decreases fuel, cmd, 3
  {
    if !negated then LedgerCmd(g, cmd, x, s, depth, fuel)
    else LedgerCmd(g, cmd, x, Suppress(s), depth, fuel).Add(Raised(EvalCmd(g, cmd, x, Suppress(s), depth, fuel)))
  }

  function LedgerMember(g: Script, a: AndOr, x: Static, s: State, depth: nat, fuel: nat): Debt
    decreases fuel, a, 0
  {
    if a.Last? then LedgerPipe(g, a.negated, a.cmd, x, s, depth, fuel)
    else
      LedgerPipe(g, a.negated, a.cmd, x, Suppress(s), depth, fuel)
      .Add(Raised(EvalPipe(g, a.negated, a.cmd, x, Suppress(s), depth, fuel)))
  }

  function LedgerGuard(g: Script, cond: Program, x: Static, s: State, depth: nat, fuel: nat): Debt
    decreases fuel, cond, 1
  {
    LedgerProgram(g, cond, x, Suppress(s), depth, fuel).Add(Raised(EvalProgram(g, cond, x, Suppress(s), depth, fuel)))
  }

  function LedgerLinks(g: Script, isAnd: bool, a: AndOr, x: Static, s: State, depth: nat, fuel: nat): Debt
    decreases fuel, a, 3
  {
    if isAnd == (s.status == 0) then LedgerAndOr(g, a, x, s, depth, fuel)
    else if a.Link? then LedgerLinks(g, a.isAnd, a.rest, x.With(ShapeMember(a, x).names), s, depth, fuel)
    else NONE
  }

  function LedgerAndOr(g: Script, a: AndOr, x: Static, s: State, depth: nat, fuel: nat): Debt
    decreases fuel, a, 2
  {
    var r := EvalMember(g, a, x, s, depth, fuel);
    var d := LedgerMember(g, a, x, s, depth, fuel);
    if r.Ok? && a.Link? then d.Add(LedgerLinks(g, a.isAnd, a.rest, x.With(ShapeMember(a, x).names), r.s, depth, fuel)) else d
  }

  function LedgerProgram(g: Script, p: Program, x: Static, s: State, depth: nat, fuel: nat): Debt
    decreases fuel, p, 0
  {
    match p
    case Nil => NONE
    case Then(head, tail) =>
      var r := EvalAndOr(g, head, x, s, depth, fuel);
      var d := LedgerAndOr(g, head, x, s, depth, fuel);
      if r.Ok? then d.Add(LedgerProgram(g, tail, x.With(ShapeAndOr(head, x).names), r.s, depth, fuel)) else d
  }
}
