/**
 What single commands mean, said without the functions that compiler and meaning share: negation, assignments, `exec`, the
 names a function declares local, the functions of an image, and the limits of calls and loops.
 */
module Commands {
  import opened Ast
  import opened Vm
  import opened Emit
  import opened Semantics
  import opened Programs
  import opened Quoting
  import opened LoopCounts

  // ---- negation ----

  /** `! c` has status 1 if c has status 0, and status 0 otherwise; everything else is as c leaves it. */
  lemma NegatedStatus(g: Script, c: Cmd, x: Static, s: State, depth: nat, fuel: nat)
    ensures var was := EvalCmd(g, c, x, s.(supp := s.supp + 1), depth, fuel);
            var now := EvalAndOr(g, Last(true, c), x, s, depth, fuel);
            if was.Ok? then
              now.Ok? && now.s.status == (if was.s.status == 0 then 1 else 0)
              && now.s.w == was.s.w && now.s.redirs == was.s.redirs
            else now == was
  {
    hide EvalCmd;
    var a := Last(true, c);
    assert EvalMember(g, a, x, s, depth, fuel) == EvalPipe(g, true, c, x, s, depth, fuel);
    assert EvalAndOr(g, a, x, s, depth, fuel) == EvalMember(g, a, x, s, depth, fuel);
  }

  /** The same for `!` inside brackets, where two of them give 0 for a test that holds and 1 for one that does not. */
  lemma NegatedTest(h: Host, e: CondExpr, locals: set<string>, s: State)
    ensures var was := EvalTest(h, e, locals, s);
            && EvalTest(h, CondNot(e), locals, s) == was.(status := if was.status == 0 then 1 else 0)
            && EvalTest(h, CondNot(CondNot(e)), locals, s) == was.(status := if was.status == 0 then 0 else 1)
  {
  }

  // ---- assignments ----

  /** The value assigned is the spelled-out beginning and the text of the rest, with a `~` at its very beginning expanded. */
  lemma AssignedValue(h: Host, a: Assign, locals: set<string>, s: State)
    ensures var text := a.prefix + Text(h, a.rest, locals, s);
            AssignVal(h, a, locals, s) == if a.prefix != "" && a.prefix[0] == '~' then h.tilde(text, s.w) else text
  {
    hide Text, WordVal;
    WordText(h, a.rest, locals, s);
  }

  /** An assignment alone sets a name declared local in the innermost scope, and any other, as all are outside functions, by the chain. */
  lemma AssignmentStores(g: Script, a: Assign, x: Static, s: State, depth: nat, fuel: nat)
    ensures var v := AssignVal(g.h, a, x.locals, s);
            EvalCmd(g, Simple([a], [], []), x, s, depth, fuel)
            == Ok(s.(w := if a.name in x.locals then g.h.setLocal(a.name, v, s.w) else g.h.setVar(a.name, v, s.w)))
    ensures TopLevel(g.h).locals == {}
  {
    hide AssignVal;
    var c := Simple([a], [], []);
    assert Intercept(c.words).NotIntercepted?;
    assert [a][1..] == [];
    assert StoreAll(g.h, [a], false, x.locals, s) == StoreAll(g.h, [a][1..], false, x.locals, Store(g.h, a, false, x.locals, s));
    assert EvalCmd(g, c, x, s, depth, fuel) == EvalSimple(g, c, x, s, depth, fuel);
  }

  // ---- exec ----

  /** The one word `exec`, in whatever quotes. */
  predicate JustExec(words: seq<Word>) {
    |words| == 1 && |words[0]| == 1 && words[0][0].Lit? && words[0][0].text == "exec"
  }

  /**
   After a command that goes on, its redirections are undone, unless it is `exec` without arguments, which keeps them; the
   scope of its assignments is closed in both cases.
   */
  lemma FinishUndoes(h: Host, c: Cmd, s: State)
    requires c.Simple? && s.redirs > 0
    ensures var w := if c.assigns != [] then h.popScope(s.w) else s.w;
            Finish(h, c, s) == if JustExec(c.words) then s.(w := w) else s.(w := h.redirRestore(w), redirs := s.redirs - 1)
  {
  }

  // ---- names declared local ----

  /** The simple commands inside a command, those of nested function definitions aside. */
  function Inside(c: Cmd): seq<Cmd> {
    match c
    case Simple(_, _, _) => [c]
    case If(cs) => InsideClauses(cs)
    case For(_, _, body) => InsideProgram(body)
    case While(_, cond, body) => InsideProgram(cond) + InsideProgram(body)
    case Case(_, arms) => InsideArms(arms)
    case Group(body) => InsideProgram(body)
    case FuncDef(_, _) => []
    case Bracket(_) => []
    case Redirected(_, cmd) => Inside(cmd)
  }

  function InsideClauses(cs: Clauses): seq<Cmd> {
    match cs
    case NoElse => []
    case Else(body) => InsideProgram(body)
    case Elif(cond, body, rest) => InsideProgram(cond) + InsideProgram(body) + InsideClauses(rest)
  }

  function InsideArms(arms: Arms): seq<Cmd> {
    match arms
    case NoArms => []
    case Arm(_, body, _, rest) => InsideProgram(body) + InsideArms(rest)
  }

  function InsideAndOr(a: AndOr): seq<Cmd> {
    match a
    case Last(_, cmd) => Inside(cmd)
    case Link(_, cmd, _, rest) => Inside(cmd) + InsideAndOr(rest)
  }

  function InsideProgram(p: Program): seq<Cmd> {
    match p
    case Nil => []
    case Then(head, tail) => InsideAndOr(head) + InsideProgram(tail)
  }

  /** `name`, alone or with `=` and anything behind it. */
  predicate Spells(t: string, name: string) {
    '=' !in name && (t == name || (|t| > |name| && t[..|name|] == name && t[|name|] == '='))
  }

  /** The command is `local` with a word that begins, as it is spelled, with the name. */
  predicate Declares(c: Cmd, name: string) {
    && c.Simple? && |c.words| > 0 && |c.words[0]| == 1 && c.words[0][0].Lit? && c.words[0][0].text == "local"
    && exists i :: 1 <= i < |c.words| && c.words[i] != [] && c.words[i][0].Lit? && Spells(c.words[i][0].text, name)
  }

  ghost predicate SomeDeclares(cs: seq<Cmd>, name: string) {
    exists c :: c in cs && Declares(c, name)
  }

  lemma {:induction false} NamePart(t: string, name: string)
    ensures UpToEquals(t) == name <==> Spells(t, name)
    decreases |t|
  {
    if t != "" && t[0] != '=' {
      if name != "" && name[0] == t[0] {
        NamePart(t[1..], name[1..]);
        assert UpToEquals(t) == name <==> UpToEquals(t[1..]) == name[1..] by { assert name == [t[0]] + name[1..]; }
        assert name == [t[0]] + name[1..];
        assert |t| > |name| ==> (t[..|name|] == name <==> t[1..][..|name| - 1] == name[1..]) by {
          if |t| > |name| { assert t[..|name|] == [t[0]] + t[1..][..|name| - 1]; }
        }
        assert t == name <==> t[1..] == name[1..] by { assert t == [t[0]] + t[1..]; }
      } else {
        assert UpToEquals(t)[0] == t[0];
        if name != "" && |t| > |name| { assert t[..|name|][0] == t[0]; }
      }
    } else if t == "" {
    } else {
      if name != "" && |t| > |name| { assert t[..|name|][0] == '='; }
    }
  }

  lemma LocalsSimple(c: Cmd, name: string)
    requires c.Simple?
    ensures name in LocalsCmd(c) <==> Declares(c, name)
  {
    forall t: string ensures UpToEquals(t) == name <==> Spells(t, name) { NamePart(t, name); }
    hide UpToEquals, Spells;
    if name in LocalsCmd(c) {
      var i :| 1 <= i < |c.words| && |c.words[i]| > 0 && c.words[i][0].Lit? && UpToEquals(c.words[i][0].text) == name;
      assert Spells(c.words[i][0].text, name);
    }
    if Declares(c, name) {
      var i :| 1 <= i < |c.words| && c.words[i] != [] && c.words[i][0].Lit? && Spells(c.words[i][0].text, name);
      assert UpToEquals(c.words[i][0].text) == name;
    }
  }

  lemma SomeSplit(a: seq<Cmd>, b: seq<Cmd>, name: string)
    ensures SomeDeclares(a + b, name) <==> SomeDeclares(a, name) || SomeDeclares(b, name)
  {
  }

  /** A function treats a name as local exactly if some `local` in its body, nested functions aside, declares it. */
  lemma {:induction false} LocalExactlyIf(c: Cmd, name: string)
    ensures name in LocalsCmd(c) <==> SomeDeclares(Inside(c), name)
    decreases c
  {
    hide Declares, LocalNames;
    match c {
      case Simple(_, _, _) =>
        LocalsSimple(c, name);
        assert SomeDeclares([c], name) <==> Declares(c, name) by { assert c in [c]; }
      case If(cs) => LocalClauses(cs, name);
      case For(_, _, body) => LocalProgram(body, name);
      case While(_, cond, body) =>
        LocalProgram(cond, name);
        LocalProgram(body, name);
        SomeSplit(InsideProgram(cond), InsideProgram(body), name);
      case Case(_, arms) => LocalArms(arms, name);
      case Group(body) => LocalProgram(body, name);
      case FuncDef(_, _) =>
      case Bracket(_) =>
      case Redirected(_, cmd) => LocalExactlyIf(cmd, name);
    }
  }

  lemma {:induction false} LocalClauses(cs: Clauses, name: string)
    ensures name in LocalsClauses(cs) <==> SomeDeclares(InsideClauses(cs), name)
    decreases cs
  {
    hide Declares;
    match cs {
      case NoElse =>
      case Else(body) => LocalProgram(body, name);
      case Elif(cond, body, rest) =>
        LocalProgram(cond, name);
        LocalProgram(body, name);
        LocalClauses(rest, name);
        SomeSplit(InsideProgram(cond), InsideProgram(body), name);
        SomeSplit(InsideProgram(cond) + InsideProgram(body), InsideClauses(rest), name);
    }
  }

  lemma {:induction false} LocalArms(arms: Arms, name: string)
    ensures name in LocalsArms(arms) <==> SomeDeclares(InsideArms(arms), name)
    decreases arms
  {
    hide Declares;
    if arms.Arm? {
      LocalProgram(arms.body, name);
      LocalArms(arms.rest, name);
      SomeSplit(InsideProgram(arms.body), InsideArms(arms.rest), name);
    }
  }

  lemma {:induction false} LocalAndOr(a: AndOr, name: string)
    ensures name in LocalsAndOr(a) <==> SomeDeclares(InsideAndOr(a), name)
    decreases a
  {
    hide Declares;
    LocalExactlyIf(a.cmd, name);
    if a.Link? {
      LocalAndOr(a.rest, name);
      SomeSplit(Inside(a.cmd), InsideAndOr(a.rest), name);
    }
  }

  lemma {:induction false} LocalProgram(p: Program, name: string)
    ensures name in LocalsProgram(p) <==> SomeDeclares(InsideProgram(p), name)
    decreases p
  {
    hide Declares;
    if p.Then? {
      LocalAndOr(p.head, name);
      LocalProgram(p.tail, name);
      SomeSplit(InsideAndOr(p.head), InsideProgram(p.tail), name);
    }
  }

  // ---- limits ----

  /** Below 256 open calls, and with the errexit test passed, the body runs; from the 256th on the shell stops with status 1. */
  lemma CallLimit(g: Script, call: Cmd, f: nat, argv: seq<string>, s: State, depth: nat, fuel: nat)
    requires f < |g.defs| && fuel > 0 && s.status == 0
    ensures var r := EvalCallee(g, call, f, argv, s, depth, fuel);
            if depth < 256 then
              r == FromBody(g.h, EvalCmd(g, g.defs[f].body, g.defs[f].x, s.(w := g.h.enter(argv, s.w)), depth + 1, fuel - 1))
            else r.Exit? && r.s.status == 1
  {
    hide EvalCmd;
  }

  /** A for-loop over more than 1024 items stops the shell with status 1 and sets no variable. */
  lemma ItemLimit(g: Script, c: Cmd, x: Static, s: State, depth: nat, fuel: nat)
    requires c.For? && |Items(g.h, c.items, x.locals, s)| > 1024
    ensures EvalCmd(g, c, x, s, depth, fuel) == Exit(s.(status := 1))
  {
    hide EvalFor;
  }
}
