/** The programs the compiler accepts: no misplaced loop jump, and no nesting or table limit exceeded. */
module Accepts {
  import opened Ast
  import opened Emit

  const POOL_MAX := 65535
  const LOOP_MAX := 64
  const FUNC_MAX := 512

  predicate AcceptsSimple(c: Cmd, x: Static)
    requires c.Simple?
  {
    match Intercept(c.words)
    case NotIntercepted => true
    case Jump(_, _) => |x.flags| > 0
    case BadCount => false
    case Import => false
  }

  predicate AcceptsCmd(c: Cmd, x: Static)
    decreases c, 0
  {
    match c
    case Simple(_, _, _) => AcceptsSimple(c, x)
    case If(cs) => AcceptsClauses(cs, x)
    case For(_, _, body) => |x.flags| < LOOP_MAX && AcceptsProgram(body, x.InLoop(true))
    case While(_, cond, body) =>
      AcceptsProgram(cond, x) && |x.flags| < LOOP_MAX
      && AcceptsProgram(body, WhileBodyStatic(c, x)) && AcceptsProgram(cond, WhileAgainStatic(c, x))
    case Case(subject, arms) => AcceptsArms(arms, x, subject)
    case Group(body) => AcceptsProgram(body, x)
    case FuncDef(name, func) => |x.fns| < FUNC_MAX && AcceptsCmd(func, x.InFunction(name, func))
    case Bracket(_) => true
    case Redirected(_, cmd) => AcceptsCmd(cmd, x)
  }

  predicate AcceptsClauses(cs: Clauses, x: Static)
    decreases cs, 0
  {
    match cs
    case NoElse => true
    case Else(body) => AcceptsProgram(body, x)
    case Elif(cond, body, rest) =>
      var x1 := x.With(ShapeProgram(cond, x).names);
      var x2 := x1.With(ShapeProgram(body, x1).names);
      AcceptsProgram(cond, x) && AcceptsProgram(body, x1) && AcceptsClauses(rest, x2)
  }

  predicate AcceptsArms(arms: Arms, x: Static, subject: Word)
    decreases arms, 0
  {
    match arms
    case NoArms => true
    case Arm(_, body, _, rest) =>
      AcceptsProgram(body, x) && AcceptsArms(rest, x.With(ShapeProgram(body, x).names), subject)
  }

  predicate AcceptsAndOr(a: AndOr, x: Static)
    decreases a, 0
  {
    AcceptsCmd(a.cmd, x) && (a.Link? ==> AcceptsAndOr(a.rest, x.With(ShapeMember(a, x).names)))
  }

  predicate AcceptsProgram(p: Program, x: Static)
    decreases p, 0
  {
    match p
    case Nil => true
    case Then(head, tail) => AcceptsAndOr(head, x) && AcceptsProgram(tail, x.With(ShapeAndOr(head, x).names))
  }
}
