/**
 Programs in which nothing jumps out of a suppressed region: a condition, a member of an and-or list before the last
 one, or a negated command.
 */
module Tidy {
  import opened Ast
  import opened Vm
  import opened Emit
  import opened Semantics

  /** The builtins through which `return` is ever requested. */
  const RETURNERS := ["return", "eval", "source", ".", "command"]

  ghost predicate ReturnsByName(h: Host) {
    forall t, argv, status, w :: h.run(t, argv, status, w).fate == Return
      ==> t.Builtin? && t.index < |h.builtins| && h.builtins[t.index] in RETURNERS
  }

  ghost predicate NeverReturns(h: Host) {
    forall t, argv, status, w :: h.run(t, argv, status, w).fate != Return
  }

  /** The command name is spelled out, expands to itself, and is none of the returning builtins. */
  predicate FixedName(words: seq<Word>) {
    words != [] && IsLiteral(words[0]) && words[0][0].text !in RETURNERS
    && !HasGlob(words[0]) && !StartsWithTilde(words[0])
  }

  ghost predicate Steady(h: Host, words: seq<Word>) {
    words == [] || NeverReturns(h) || (ReturnsByName(h) && FixedName(words))
  }

  /**
   `flags` are the loops open where the code stands, the last `k` of them opened since the innermost suppressed
   region (or function body) began; `held` says whether such a region encloses the code within its function.
   Besides jumps and returns out of the region, `continue` aimed at a while- or until-loop leaves it.
   */
  ghost predicate TidyCmd(h: Host, c: Cmd, flags: seq<bool>, k: nat, held: bool)
    decreases c, 0
  {
    match c
    case Simple(_, _, words) =>
      (match Intercept(words)
       case Jump(isBreak, count) =>
         var n := Clamp(count, |flags|);
         n <= k && (isBreak || !held || n == 0 || flags[|flags| - n])
       case NotIntercepted => !held || Steady(h, words)
       case _ => true)
    case If(cs) => TidyClauses(h, cs, flags, k, held)
    case For(_, _, body) => TidyProgram(h, body, flags + [true], k + 1, held)
    case While(_, cond, body) =>
      TidyProgram(h, cond, flags, 0, true) && TidyProgram(h, body, flags + [false], k + 1, held)
      && TidyProgram(h, cond, flags + [false], 0, true)
    case Case(_, arms) => TidyArms(h, arms, flags, k, held)
    case Group(body) => TidyProgram(h, body, flags, k, held)
    case FuncDef(_, func) => TidyCmd(h, func, flags, 0, false)
    case Bracket(_) => true
    case Redirected(_, cmd) => TidyCmd(h, cmd, flags, k, held)
  }

  ghost predicate TidyClauses(h: Host, cs: Clauses, flags: seq<bool>, k: nat, held: bool)
    decreases cs, 0
  {
    match cs
    case NoElse => true
    case Else(body) => TidyProgram(h, body, flags, k, held)
    case Elif(cond, body, rest) =>
      TidyProgram(h, cond, flags, 0, true) && TidyProgram(h, body, flags, k, held) && TidyClauses(h, rest, flags, k, held)
  }

  ghost predicate TidyArms(h: Host, arms: Arms, flags: seq<bool>, k: nat, held: bool)
    decreases arms, 0
  {
    match arms
    case NoArms => true
    case Arm(_, body, _, rest) => TidyProgram(h, body, flags, k, held) && TidyArms(h, rest, flags, k, held)
  }

  ghost predicate TidyPipe(h: Host, negated: bool, cmd: Cmd, flags: seq<bool>, k: nat, held: bool)
    decreases cmd, 1
  {
    if negated then TidyCmd(h, cmd, flags, 0, true) else TidyCmd(h, cmd, flags, k, held)
  }

  ghost predicate TidyAndOr(h: Host, a: AndOr, flags: seq<bool>, k: nat, held: bool)
    decreases a, 0
  {
    match a
    case Last(negated, cmd) => TidyPipe(h, negated, cmd, flags, k, held)
    case Link(negated, cmd, _, rest) => TidyPipe(h, negated, cmd, flags, 0, true) && TidyAndOr(h, rest, flags, k, held)
  }

  ghost predicate TidyProgram(h: Host, p: Program, flags: seq<bool>, k: nat, held: bool)
    decreases p, 0
  {
    match p
    case Nil => true
    case Then(head, tail) => TidyAndOr(h, head, flags, k, held) && TidyProgram(h, tail, flags, k, held)
  }

  /** The program and every function of the script is tidy, and builtins are bound by the host's own numbering. */
  ghost predicate TidyScript(g: Script) {
    TidyProgram(g.h, g.main, [], 0, false)
    && forall i :: 0 <= i < |g.defs| ==> TidyDef(g.h, g.defs[i])
  }

  ghost predicate TidyDef(h: Host, def: Def) {
    def.x.builtins == h.builtins && TidyCmd(h, def.body, def.x.flags, 0, false)
  }

  ghost predicate Ground(g: Script, x: Static) {
    TidyScript(g) && x.builtins == g.h.builtins
  }

  lemma FixedArgv(h: Host, words: seq<Word>, locals: set<string>, s: State)
    requires FixedName(words)
    ensures var argv := Argv(h, words, true, locals, s); argv != [] && argv[0] == words[0][0].text
  {
    var w, text := words[0], words[0][0].text;
    assert PartVals(h, w, locals, s) == [text] + PartVals(h, w[1..], locals, s) == [text];
    assert Join([text]) == text + Join([]) == text;
    assert !NeedsSplit(w);
    assert Fields(h, w, true, locals, s) == [text];
  }

  lemma SteadyResolve(g: Script, words: seq<Word>, x: Static, s: State, depth: nat)
    requires words != [] && Steady(g.h, words) && x.builtins == g.h.builtins
    ensures var d := Resolve(g, words, x, Argv(g.h, words, true, x.locals, s), s, depth);
            d.Ended? ==> !d.a.Unwind?
  {
    hide Argv, HasGlob, StartsWithTilde;
    if !NeverReturns(g.h) { FixedArgv(g.h, words, x.locals, s); }
  }
}
