/**
 The meaning of the syntax tree, by structural recursion and without any code: a big-step evaluator in
 the style of section 2.9.4 of the POSIX Shell Command Language. `fuel` bounds loop iterations and
 function calls; `Timeout` says that the bound was reached, so a run diverges when every bound is.
 */
module Semantics {
  import opened Ast
  import opened Vm
  import opened Emit

  /** A script: the host it runs on, its program, and the functions of its image in order of definition. */
  datatype Script = Script(h: Host, main: Program, defs: seq<Def>)

  /** What the compiler knows before the first command of a program. */
  function TopLevel(h: Host): Static {
    Static(h.builtins, [], {}, [])
  }

  /**
   `Brk(k, s)` is on its way to the loop that has `k` further loops inside it, `Cont(k, s)` to the for-loop that
   has; `Ret` is on its way to the end of the running function.
   */
  datatype Res =
    | Ok(s: State)
    | Brk(k: nat, s: State)
    | Cont(k: nat, s: State)
    | Ret(s: State)
    | Exit(s: State)
    | Timeout

  // ---- words ----

  function PartVal(h: Host, p: Part, locals: set<string>, s: State): string {
    match p
    case Lit(text, _) => text
    case Var(name, _) => if name in locals then h.getLocal(name, s.w) else h.getVar(name, s.w)
    case Special(code, _) => h.special(code, s.status, s.w)
  }

  function PartVals(h: Host, w: Word, locals: set<string>, s: State): (r: seq<string>)
    ensures |r| == |w|
  {
    if w == [] then [] else [PartVal(h, w[0], locals, s)] + PartVals(h, w[1..], locals, s)
  }

  function WordVal(h: Host, w: Word, locals: set<string>, s: State): string {
    Join(PartVals(h, w, locals, s))
  }

  function SplitFields(h: Host, w: Word, v: string, s: State): seq<string> {
    if NeedsSplit(w) then h.split(v, s.w) else if HasGlob(w) then h.glob(v, s.w) else [v]
  }

  function Fields(h: Host, w: Word, tilde: bool, locals: set<string>, s: State): seq<string> {
    if IsQuotedAt(w) then h.args(s.w)
    else
      var v := WordVal(h, w, locals, s);
      SplitFields(h, w, if tilde && StartsWithTilde(w) then h.tilde(v, s.w) else v, s)
  }

  function Argv(h: Host, ws: seq<Word>, tilde: bool, locals: set<string>, s: State): seq<string> {
    if ws == [] then [] else Fields(h, ws[0], tilde, locals, s) + Argv(h, ws[1..], tilde, locals, s)
  }

  function Items(h: Host, items: seq<Word>, locals: set<string>, s: State): seq<string> {
    if items == [] then h.args(s.w) else Argv(h, items, false, locals, s)
  }

  // ---- simple commands ----

  function RawVal(h: Host, a: Assign, locals: set<string>, s: State): string {
    a.prefix + WordVal(h, a.rest, locals, s)
  }

  function AssignVal(h: Host, a: Assign, locals: set<string>, s: State): string {
    var v := RawVal(h, a, locals, s);
    if TildeValue(a) then h.tilde(v, s.w) else v
  }

  function StoreValue(h: Host, a: Assign, v: string, temp: bool, locals: set<string>, w: World): World {
    if temp then h.export_(a.name, h.setLocal(a.name, v, w))
    else if a.name in locals then h.setLocal(a.name, v, w)
    else h.setVar(a.name, v, w)
  }

  function Store(h: Host, a: Assign, temp: bool, locals: set<string>, s: State): State {
    s.(w := StoreValue(h, a, AssignVal(h, a, locals, s), temp, locals, s.w))
  }

  function StoreAll(h: Host, assigns: seq<Assign>, temp: bool, locals: set<string>, s: State): State {
    if assigns == [] then s
    else StoreAll(h, assigns[1..], temp, locals, Store(h, assigns[0], temp, locals, s))
  }

  function Redirect(h: Host, op: nat, fd: nat, arg: nat, target: Word, locals: set<string>, s: State): State {
    var (w, status) := h.redirect(op, fd, arg, WordVal(h, target, locals, s), s.status, s.w);
    s.(w := w, status := status)
  }

  function ApplyRedir(h: Host, r: Redir, locals: set<string>, s: State): State {
    match r
    case Open(fd, kind, target) => Redirect(h, 0x52, fd, kind, target, locals, s)
    case Dup(fd, target) => Redirect(h, 0x53, fd, 0, target, locals, s)
    case Here(fd, expand, target) => Redirect(h, 0x55, fd, if expand then 1 else 0, target, locals, s)
    case Close(fd) => s.(w := h.redirClose(fd, s.w))
  }

  function ApplyRedirs(h: Host, rs: seq<Redir>, locals: set<string>, s: State): State {
    if rs == [] then s else ApplyRedirs(h, rs[1..], locals, ApplyRedir(h, rs[0], locals, s))
  }

  /** Open a redirection frame; there is room for 64 of them. */
  function OpenRedirs(h: Host, rs: seq<Redir>, locals: set<string>, s: State): Res {
    if s.redirs >= REDIR_MAX then Exit(s.(status := 1))
    else Ok(ApplyRedirs(h, rs, locals, s.(redirs := s.redirs + 1, w := h.redirSave(s.w))))
  }

  function Restore(h: Host, s: State): State {
    if s.redirs == 0 then s else s.(redirs := s.redirs - 1, w := h.redirRestore(s.w))
  }

  function FromAfter(a: After): Res {
    match a
    case Go(s) => Ok(s)
    case Unwind(s) => Ret(s)
    case Halted(s) => Exit(s)
  }

  /** Assignments in a temporary scope when there is a command, then redirections. */
  function Prepare(h: Host, c: Cmd, locals: set<string>, s: State): Res
    requires c.Simple?
  {
    var s1 := if c.assigns != [] then s.(w := h.pushScope(1, s.w)) else s;
    OpenRedirs(h, c.redirs, locals, StoreAll(h, c.assigns, true, locals, s1))
  }

  function Finish(h: Host, c: Cmd, s: State): State
    requires c.Simple?
  {
    var s1 := if c.assigns != [] then s.(w := h.popScope(s.w)) else s;
    if IsBareExec(c.words) then s1 else Restore(h, s1)
  }

  // ---- conditional expressions ----

  function EvalTest(h: Host, e: CondExpr, locals: set<string>, s: State): State {
    match e
    case Test1(op, arg) => s.(status := h.test1(op, WordVal(h, arg, locals, s), s.w))
    case Test2(op, left, right) =>
      var (w, status) := h.test2(op, WordVal(h, left, locals, s), WordVal(h, right, locals, s), s.w);
      s.(w := w, status := status)
    case CondAnd(l, r) =>
      var s1 := EvalTest(h, l, locals, s);
      if s1.status == 0 then EvalTest(h, r, locals, s1) else s1
    case CondOr(l, r) =>
      var s1 := EvalTest(h, l, locals, s);
      if s1.status == 0 then s1 else EvalTest(h, r, locals, s1)
    case CondNot(e1) =>
      var s1 := EvalTest(h, e1, locals, s);
      s1.(status := Negate(s1.status))
  }

  // ---- commands ----

  function Suppress(s: State): State {
    s.(supp := s.supp + 1)
  }

  function Unsuppress(s: State): State {
    s.(supp := if s.supp > 0 then s.supp - 1 else 0)
  }

  /** What a loop makes of a jump that leaves its body. */
  function LeaveLoop(r: Res): Res {
    match r
    case Brk(k, s) => if k == 0 then Ok(s) else Brk(k - 1, s)
    case Cont(k, s) => if k == 0 then Ok(s) else Cont(k - 1, s)
    case _ => r
  }

  /** The body of a for-loop is over, by itself or by `continue`. */
  predicate NextRound(r: Res) {
    r.Ok? || (r.Cont? && r.k == 0)
  }

  function EvalCmd(g: Script, c: Cmd, x: Static, s: State, depth: nat, fuel: nat): Res
    decreases fuel, c, 2
  {
    match c
    case Simple(_, _, _) => EvalSimple(g, c, x, s, depth, fuel)
    case If(cs) => EvalClauses(g, cs, x, s, depth, fuel)
    case For(_, items, _) =>
      var args := Items(g.h, items, x.locals, s);
      if |args| > STACK_MAX then Exit(s.(status := 1))
      else EvalFor(g, c, args, x, s, depth, fuel)
    case While(until, cond, _) =>
      (match EvalGuard(g, cond, x, s, depth, fuel)
       case Ok(s1) =>
         if (s1.status == 0) == until then Ok(s1.(status := 0))
         else EvalLoop(g, c, x, s1, depth, fuel)
       case r => r)
    case Case(subject, arms) => EvalArms(g, arms, x, subject, s, depth, fuel)
    case Group(body) => EvalProgram(g, body, x, s, depth, fuel)
    case FuncDef(_, _) => Ok(s)
    case Bracket(e) => Ok(EvalTest(g.h, e, x.locals, s))
    case Redirected(rs, cmd) => EvalRedirected(g, rs, cmd, x, s, depth, fuel)
  }

  function EvalRedirected(g: Script, rs: seq<Redir>, cmd: Cmd, x: Static, s: State, depth: nat, fuel: nat): Res
    decreases fuel, cmd, 3
  {
    match OpenRedirs(g.h, rs, x.locals, s)
    case Ok(s1) =>
      (match EvalCmd(g, cmd, x, s1, depth, fuel)
       case Ok(s2) => Ok(Restore(g.h, s2))
       case r => r)
    case r => r
  }

  function EvalSimple(g: Script, c: Cmd, x: Static, s: State, depth: nat, fuel: nat): Res
    requires c.Simple?
    decreases fuel, c, 1
  {
    match Intercept(c.words)
    case Jump(isBreak, count) =>
      if |x.flags| == 0 || count == 0 then Ok(s)
      else
        var k := Clamp(count, |x.flags|) - 1;
        if isBreak then Brk(k, s)
        else if x.flags[|x.flags| - 1 - k] then Cont(k, s)
        else EvalRestart(g, c, s, depth, fuel)
    case NotIntercepted =>
      if c.words == [] then Ok(StoreAll(g.h, c.assigns, false, x.locals, s))
      else
        (match Prepare(g.h, c, x.locals, s)
         case Ok(s1) =>
           (match EvalExec(g, c, x, Argv(g.h, c.words, true, x.locals, s1), s1, depth, fuel)
            case Ok(s2) => Ok(Finish(g.h, c, s2))
            case r => r)
         case r => r)
    case _ => Ok(s)
  }

  /**
   `continue` aimed at a while- or until-loop runs the whole program again where it stands. What comes after it
   is never reached, except that a return in the program still ends the function that is running.
   */
  function EvalRestart(g: Script, jump: Cmd, s: State, depth: nat, fuel: nat): Res
    decreases fuel, jump, 0
  {
    if fuel == 0 then Timeout else Halting(g.h, EvalProgram(g, g.main, TopLevel(g.h), s, depth, fuel - 1))
  }

  /** Behind the program stands HALT, which runs the EXIT trap. */
  function Halting(h: Host, r: Res): Res {
    if r.Ok? then Exit(r.s.(w := h.exitTrap(r.s.status, r.s.w))) else r
  }

  datatype Dispatch = Callee(f: nat) | Ended(a: After)

  function Dynamic(g: Script, argv: seq<string>, s: State, depth: nat): Dispatch
    requires argv != []
  {
    var f, b := IndexOf(Names(g.defs), argv[0]), IndexOf(g.h.builtins, argv[0]);
    if f < |g.defs| then Callee(f)
    else Ended(Invoke(g.h, if b < |g.h.builtins| then Builtin(b) else External, argv, s, depth))
  }

  /**
   A literal command name is bound when it is compiled, first to a builtin and then to a function
   defined above; any other name is looked up when it runs, first among all functions of the image.
   */
  function Resolve(g: Script, words: seq<Word>, x: Static, argv: seq<string>, s: State, depth: nat): Dispatch
    requires |words| > 0
  {
    var name := if IsLiteral(words[0]) then words[0][0].text else "";
    var b, f := IndexOf(x.builtins, name), IndexOf(x.fns, name);
    if IsLiteral(words[0]) && b < |x.builtins| then Ended(Invoke(g.h, Builtin(b), argv, s, depth))
    else if IsLiteral(words[0]) && f < |x.fns| then Callee(f)
    else if argv == [] then Ended(Errexit(g.h, Go(s)))
    else Dynamic(g, argv, s, depth)
  }

  function EvalExec(g: Script, c: Cmd, x: Static, argv: seq<string>, s: State, depth: nat, fuel: nat): Res
    requires c.Simple? && |c.words| > 0
    decreases fuel, c, 0
  {
    match Resolve(g, c.words, x, argv, s, depth)
    case Ended(a) => FromAfter(a)
    case Callee(f) =>
      if f >= |g.defs| then FromAfter(Errexit(g.h, Go(s.(status := 127))))
      else EvalCallee(g, c, f, argv, s, depth, fuel)
  }

  function EvalCallee(g: Script, call: Cmd, f: nat, argv: seq<string>, s: State, depth: nat, fuel: nat): Res
    requires f < |g.defs|
    decreases fuel, call, -1
  {
    match Enter(g.h, argv, s, depth)
    case Go(s1) =>
      if fuel == 0 then Timeout
      else FromBody(g.h, EvalCmd(g, g.defs[f].body, g.defs[f].x, s1, depth + 1, fuel - 1))
    case a => Exit(a.s)
  }

  /** A body that runs off its end leaves the function's scope; a return has left it already. */
  function FromBody(h: Host, r: Res): Res {
    match r
    case Ok(s) => Ok(s.(w := h.leave(s.w)))
    case Ret(s) => Ok(s)
    case _ => r
  }

  function EvalGuard(g: Script, cond: Program, x: Static, s: State, depth: nat, fuel: nat): Res
    decreases fuel, cond, 1
  {
    match EvalProgram(g, cond, x, Suppress(s), depth, fuel)
    case Ok(s1) => Ok(Unsuppress(s1))
    case r => r
  }

  function EvalFor(g: Script, c: Cmd, args: seq<string>, x: Static, s: State, depth: nat, fuel: nat): Res
    requires c.For?
    decreases fuel, c, 1, |args|
  {
    if args == [] then Ok(s)
    else
      var r := EvalProgram(g, c.body, x.InLoop(true), s.(w := g.h.setVar(c.name, args[0], s.w)), depth, fuel);
      if NextRound(r) then EvalFor(g, c, args[1..], x, r.s, depth, fuel) else LeaveLoop(r)
  }

  /** One execution of the body of a while- or until-loop and whatever follows it. */
  function EvalLoop(g: Script, c: Cmd, x: Static, s: State, depth: nat, fuel: nat): Res
    requires c.While?
    decreases fuel, c, 1
  {
    var r := EvalProgram(g, c.body, WhileBodyStatic(c, x), s, depth, fuel);
    if r.Ok? then EvalAgain(g, c, x, r.s, depth, fuel) else LeaveLoop(r)
  }

  function EvalAgain(g: Script, c: Cmd, x: Static, s: State, depth: nat, fuel: nat): Res
    requires c.While?
    decreases fuel, c, 0
  {
    var r := EvalGuard(g, c.cond, WhileAgainStatic(c, x), s, depth, fuel);
    if !r.Ok? then LeaveLoop(r)
    else if (r.s.status == 0) == c.until then r
    else if fuel == 0 then Timeout
    else EvalLoop(g, c, x, r.s, depth, fuel - 1)
  }

  function EvalClauses(g: Script, cs: Clauses, x: Static, s: State, depth: nat, fuel: nat): Res
    decreases fuel, cs, 0
  {
    match cs
    case NoElse => Ok(s.(status := 0))
    case Else(body) => EvalProgram(g, body, x, s, depth, fuel)
    case Elif(cond, body, rest) =>
      var x1 := x.With(ShapeProgram(cond, x).names);
      var x2 := x1.With(ShapeProgram(body, x1).names);
      match EvalGuard(g, cond, x, s, depth, fuel)
      case Ok(s1) =>
        if s1.status == 0 then EvalProgram(g, body, x1, s1, depth, fuel)
        else EvalClauses(g, rest, x2, s1, depth, fuel)
      case r => r
  }

  function MatchStatus(h: Host, pattern: Word, subject: Word, locals: set<string>, s: State): State {
    s.(status := if h.matches(WordVal(h, pattern, locals, s), WordVal(h, subject, locals, s)) then 0 else 1)
  }

  /** Try the patterns in turn; `$?` is 0 on a match and 1 when the last one tried failed. */
  function TryPatterns(h: Host, ps: seq<Word>, subject: Word, locals: set<string>, s: State): (bool, State) {
    if ps == [] then (false, s)
    else
      var s1 := MatchStatus(h, ps[0], subject, locals, s);
      if s1.status == 0 then (true, s1) else TryPatterns(h, ps[1..], subject, locals, s1)
  }

  function EvalArms(g: Script, arms: Arms, x: Static, subject: Word, s: State, depth: nat, fuel: nat): Res
    decreases fuel, arms, 0
  {
    match arms
    case NoArms => Ok(s.(status := 0))
    case Arm(ps, body, ends, rest) =>
      var x1 := x.With(ShapeProgram(body, x).names);
      var (hit, s1) := TryPatterns(g.h, ps, subject, x.locals, s);
      if !hit && ps != [] then EvalArms(g, rest, x1, subject, s1, depth, fuel)
      else
        match EvalProgram(g, body, x, s1, depth, fuel)
        case Ok(s2) => if ends then Ok(s2) else EvalArms(g, rest, x1, subject, s2, depth, fuel)
        case r => r
  }

  function EvalPipe(g: Script, negated: bool, cmd: Cmd, x: Static, s: State, depth: nat, fuel: nat): Res
    decreases fuel, cmd, 3
  {
    if !negated then EvalCmd(g, cmd, x, s, depth, fuel)
    else
      match EvalCmd(g, cmd, x, Suppress(s), depth, fuel)
      case Ok(s1) => Ok(Unsuppress(s1).(status := Negate(s1.status)))
      case r => r
  }

  function EvalMember(g: Script, a: AndOr, x: Static, s: State, depth: nat, fuel: nat): Res
    decreases fuel, a, 0
  {
    if a.Last? then EvalPipe(g, a.negated, a.cmd, x, s, depth, fuel)
    else
      match EvalPipe(g, a.negated, a.cmd, x, Suppress(s), depth, fuel)
      case Ok(s1) => Ok(Unsuppress(s1))
      case r => r
  }

  /** A member that is skipped leaves the status for the next connector. */
  function EvalLinks(g: Script, isAnd: bool, a: AndOr, x: Static, s: State, depth: nat, fuel: nat): Res
    decreases fuel, a, 3
  {
    if isAnd == (s.status == 0) then EvalAndOr(g, a, x, s, depth, fuel)
    else if a.Link? then EvalLinks(g, a.isAnd, a.rest, x.With(ShapeMember(a, x).names), s, depth, fuel)
    else Ok(s)
  }

  function EvalAndOr(g: Script, a: AndOr, x: Static, s: State, depth: nat, fuel: nat): Res
    decreases fuel, a, 2
  {
    var r := EvalMember(g, a, x, s, depth, fuel);
    if r.Ok? && a.Link? then EvalLinks(g, a.isAnd, a.rest, x.With(ShapeMember(a, x).names), r.s, depth, fuel) else r
  }

  function EvalProgram(g: Script, p: Program, x: Static, s: State, depth: nat, fuel: nat): Res
    decreases fuel, p, 0
  {
    match p
    case Nil => Ok(s)
    case Then(head, tail) =>
      match EvalAndOr(g, head, x, s, depth, fuel)
      case Ok(s1) => EvalProgram(g, tail, x.With(ShapeAndOr(head, x).names), s1, depth, fuel)
      case r => r
  }
}
