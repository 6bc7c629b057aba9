/**
 Programs the compiler accepts and whose loop jumps stay inside their own code segment: operands fit
 their fields, and `break` and `continue` reach a loop of the same function body. `d` is the number of
 open loops of the current segment.
 */
module Wellformed {
  import opened Bytes
  import opened Ast
  import opened Emit
  import opened Words

  predicate WfSimple(c: Cmd, x: Static, d: nat)
    requires c.Simple?
  {
    match Intercept(c.words)
    case NotIntercepted =>
      SmallAssigns(c.assigns) && SmallRedirs(c.redirs) && SmallWords(c.words)
    case Jump(isBreak, count) =>
      var k := Clamp(count, |x.flags|);
      0 < k <= d
    case _ => false
  }

  predicate WfCmd(c: Cmd, x: Static, d: nat)
    decreases c, 0
  {
    match c
    case Simple(_, _, _) => WfSimple(c, x, d)
    case If(cs) => WfClauses(cs, x, d)
    case For(_, items, body) => SmallWords(items) && WfProgram(body, x.InLoop(true), d + 1)
    case While(_, cond, body) =>
      WfProgram(cond, x, d) && WfProgram(body, WhileBodyStatic(c, x), d + 1)
      && WfProgram(cond, WhileAgainStatic(c, x), d + 1)
    case Case(subject, arms) => SmallWord(subject) && WfArms(arms, x, subject, d)
    case Group(body) => WfProgram(body, x, d)
    case FuncDef(name, func) => WfCmd(func, x.InFunction(name, func), 0)
    case Bracket(e) => SmallTest(e)
    case Redirected(rs, cmd) => SmallRedirs(rs) && WfCmd(cmd, x, d)
  }

  predicate WfClauses(cs: Clauses, x: Static, d: nat)
    decreases cs, 0
  {
    match cs
    case NoElse => true
    case Else(body) => WfProgram(body, x, d)
    case Elif(cond, body, rest) =>
      var x1 := x.With(ShapeProgram(cond, x).names);
      var x2 := x1.With(ShapeProgram(body, x1).names);
      WfProgram(cond, x, d) && WfProgram(body, x1, d) && WfClauses(rest, x2, d)
  }

  predicate WfArms(arms: Arms, x: Static, subject: Word, d: nat)
    decreases arms, 0
  {
    match arms
    case NoArms => true
    case Arm(ps, body, _, rest) =>
      SmallWords(ps) && WfProgram(body, x, d)
      && WfArms(rest, x.With(ShapeProgram(body, x).names), subject, d)
  }

  predicate WfAndOr(a: AndOr, x: Static, d: nat)
    decreases a, 0
  {
    WfCmd(a.cmd, x, d) && (a.Link? ==> WfAndOr(a.rest, x.With(ShapeMember(a, x).names), d))
  }

  predicate WfProgram(p: Program, x: Static, d: nat)
    decreases p, 0
  {
    match p
    case Nil => true
    case Then(head, tail) => WfAndOr(head, x, d) && WfProgram(tail, x.With(ShapeAndOr(head, x).names), d)
  }
}
