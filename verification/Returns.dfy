/**
 A concrete program on the machine: `f() { return; }` and then `f` again and again. Every call leaves a redirection
 frame open, and there is room for 64 of them.
 */
module Returns {
  import opened Ast
  import opened Vm
  import opened Emit
  import opened Semantics
  import opened Runs
  import opened Programs

  function Named(name: string): Cmd {
    Simple([], [], [[Lit(name, false)]])
  }

  function Calls(n: nat): Program {
    if n == 0 then Nil else Then(Last(false, Named("f")), Calls(n - 1))
  }

  function ReturningProgram(n: nat): Program {
    Then(Last(false, FuncDef("f", Named("return"))), Calls(n))
  }

  /** `return` is a builtin that asks to return with status 0, and `f` is no builtin. */
  ghost predicate HasReturn(h: Host) {
    && "f" !in h.builtins && "return" in h.builtins
    && forall status, w :: Returning(h.run(Builtin(IndexOf(h.builtins, "return")), ["return"], status, w))
  }

  predicate Returning(r: Ran) {
    r.fate == Return && r.status == 0
  }

  lemma NamedArgv(h: Host, name: string, locals: set<string>, s: State)
    requires !GlobChars(name) && name != "" && name[0] != '~'
    ensures Argv(h, [[Lit(name, false)]], true, locals, s) == [name]
  {
    var w := [Lit(name, false)];
    assert PartVals(h, w, locals, s) == [name] + PartVals(h, w[1..], locals, s) == [name];
    assert Join([name]) == name + Join([]) == name;
    assert Fields(h, w, true, locals, s) == [name];
    assert Argv(h, [w], true, locals, s) == [name] + Argv(h, [w][1..], true, locals, s);
  }

  /** A command without assignments and redirections opens a frame of its own. */
  lemma PrepareNamed(h: Host, name: string, locals: set<string>, s: State)
    ensures var p := Prepare(h, Named(name), locals, s);
            if s.redirs >= REDIR_MAX then p.Exit? && p.s.status == 1
            else p.Ok? && p.s.redirs == s.redirs + 1 && p.s.status == s.status && p.s.supp == s.supp
  {
  }

  lemma Opening(g: Script, c: Cmd, x: Static, s: State, depth: nat, fuel: nat)
    requires c.Simple? && c.words != [] && Intercept(c.words).NotIntercepted?
    ensures var p := Prepare(g.h, c, x.locals, s);
            if !p.Ok? then EvalCmd(g, c, x, s, depth, fuel) == p
            else
              var r := EvalExec(g, c, x, Argv(g.h, c.words, true, x.locals, p.s), p.s, depth, fuel);
              EvalCmd(g, c, x, s, depth, fuel) == if r.Ok? then Ok(Finish(g.h, c, r.s)) else r
  {
    hide EvalExec, Prepare, Argv, Intercept, Finish;
    assert EvalCmd(g, c, x, s, depth, fuel) == EvalSimple(g, c, x, s, depth, fuel);
  }

  /** `return` in a function, with its own redirection frame. */
  lemma ReturnReturns(g: Script, x: Static, s: State, depth: nat, fuel: nat)
    requires HasReturn(g.h) && x.builtins == g.h.builtins && depth > 0 && s.status == 0
    ensures var r := EvalCmd(g, Named("return"), x, s, depth, fuel);
            if s.redirs >= REDIR_MAX then r.Exit? && r.s.status == 1
            else r.Ret? && r.s.redirs == s.redirs + 1 && r.s.status == 0 && r.s.supp == s.supp
  {
    var c := Named("return");
    assert Intercept(c.words).NotIntercepted?;
    Opening(g, c, x, s, depth, fuel);
    PrepareNamed(g.h, "return", x.locals, s);
    hide Argv, GlobChars, Intercept, Prepare, EvalCmd, Finish;
    var p := Prepare(g.h, c, x.locals, s);
    if s.redirs < REDIR_MAX {
      NamedArgv(g.h, "return", x.locals, p.s) by { assert !GlobChars("return"); }
      var b := IndexOf(x.builtins, "return");
      var a := Invoke(g.h, Builtin(b), ["return"], p.s, depth);
      assert Returning(g.h.run(Builtin(b), ["return"], p.s.status, p.s.w));
      assert a.Unwind? && a.s.redirs == s.redirs + 1 && a.s.status == 0 && a.s.supp == s.supp;
      assert Resolve(g, c.words, x, ["return"], p.s, depth) == Ended(a);
      assert EvalExec(g, c, x, ["return"], p.s, depth, fuel) == Ret(a.s);
    }
  }

  /** Where `f` is called: the only function, defined above. */
  ghost predicate Calling(g: Script, x: Static) {
    && HasReturn(g.h) && x.builtins == g.h.builtins && x.fns == ["f"]
    && |g.defs| == 1 && g.defs[0].body == Named("return") && g.defs[0].x.builtins == g.h.builtins
  }

  lemma CallReturns(g: Script, x: Static, s: State, fuel: nat)
    requires Calling(g, x) && s.status == 0 && fuel > 0
    ensures var r := EvalCmd(g, Named("f"), x, s, 0, fuel);
            if s.redirs + 1 >= REDIR_MAX then r.Exit? && r.s.status == 1
            else r.Ok? && r.s.redirs == s.redirs + 1 && r.s.status == 0 && r.s.supp == s.supp
  {
    var c := Named("f");
    assert Intercept(c.words).NotIntercepted? && !IsBareExec(c.words);
    Opening(g, c, x, s, 0, fuel);
    PrepareNamed(g.h, "f", x.locals, s);
    hide Argv, GlobChars, Intercept, IsBareExec, Prepare, EvalCmd, EvalExec, Calling;
    var p := Prepare(g.h, c, x.locals, s);
    if s.redirs < REDIR_MAX {
      NamedArgv(g.h, "f", x.locals, p.s) by { assert !GlobChars("f"); }
      CallExec(g, x, p.s, fuel);
    }
  }

  lemma CallExec(g: Script, x: Static, s: State, fuel: nat)
    requires Calling(g, x) && s.status == 0 && fuel > 0 && s.redirs > 0
    ensures var r := EvalExec(g, Named("f"), x, ["f"], s, 0, fuel);
            if s.redirs >= REDIR_MAX then r.Exit? && r.s.status == 1
            else r.Ok? && r.s.redirs == s.redirs + 1 && r.s.status == 0 && r.s.supp == s.supp
  {
    var c := Named("f");
    hide HasReturn, EvalCmd;
    assert "f" !in x.builtins by { assert HasReturn(g.h); NotBuiltin(g.h); }
    assert Resolve(g, c.words, x, ["f"], s, 0) == Callee(0);
    var e := Enter(g.h, ["f"], s, 0);
    assert e.Go? && e.s.status == 0 && e.s.redirs == s.redirs && e.s.supp == s.supp;
    ReturnReturns(g, g.defs[0].x, e.s, 1, fuel - 1);
    assert EvalExec(g, c, x, ["f"], s, 0, fuel) == EvalCallee(g, c, 0, ["f"], s, 0, fuel);
  }

  lemma NotBuiltin(h: Host)
    requires HasReturn(h)
    ensures "f" !in h.builtins
  {
  }

  lemma {:induction false} CallsRun(g: Script, x: Static, n: nat, s: State, fuel: nat)
    requires Calling(g, x) && s.status == 0 && fuel > 0
    ensures var r := EvalProgram(g, Calls(n), x, s, 0, fuel);
            if n > 0 && s.redirs + n >= REDIR_MAX then r.Exit? && r.s.status == 1
            else r.Ok? && r.s.redirs == s.redirs + n && r.s.status == 0 && r.s.supp == s.supp
    decreases n
  {
    hide Calling, EvalCmd, EvalProgram, Calls;
    if n == 0 {
      NoCalls(g, x, s, fuel);
    } else {
      CallReturns(g, x, s, fuel);
      OneMore(g, x, n, s, fuel);
      var r := EvalCmd(g, Named("f"), x, s, 0, fuel);
      if r.Ok? { CallsRun(g, x, n - 1, r.s, fuel); }
    }
  }

  lemma NoCalls(g: Script, x: Static, s: State, fuel: nat)
    ensures EvalProgram(g, Calls(0), x, s, 0, fuel) == Ok(s)
  {
  }

  lemma OneMore(g: Script, x: Static, n: nat, s: State, fuel: nat)
    requires n > 0
    ensures EvalProgram(g, Calls(n), x, s, 0, fuel)
            == var r := EvalCmd(g, Named("f"), x, s, 0, fuel);
               if r.Ok? then EvalProgram(g, Calls(n - 1), x, r.s, 0, fuel) else r
  {
    var a := Last(false, Named("f"));
    OneCall(g, x, s, fuel);
    Nameless(x);
    assert Calls(n) == Then(a, Calls(n - 1));
    hide EvalAndOr, ShapeAndOr, Calls, EvalCmd;
    assert x.With([]) == x;
  }

  lemma OneCall(g: Script, x: Static, s: State, fuel: nat)
    ensures EvalAndOr(g, Last(false, Named("f")), x, s, 0, fuel) == EvalCmd(g, Named("f"), x, s, 0, fuel)
  {
    hide EvalCmd;
    var a := Last(false, Named("f"));
    assert EvalPipe(g, false, a.cmd, x, s, 0, fuel) == EvalCmd(g, a.cmd, x, s, 0, fuel);
    assert EvalMember(g, a, x, s, 0, fuel) == EvalPipe(g, false, a.cmd, x, s, 0, fuel);
  }

  lemma Nameless(x: Static)
    ensures ShapeAndOr(Last(false, Named("f")), x).names == []
  {
    hide EmitCommand;
    assert Intercept(Named("f").words).NotIntercepted?;
  }

  lemma CallDefinesNothing(base: nat, x: Static)
    requires x.flags == []
    ensures EmitAndOr(Last(false, Named("f")), base, x, []).defs == []
  {
    hide EmitCommand;
    var a := Last(false, Named("f"));
    assert Intercept(Named("f").words).NotIntercepted?;
    assert EmitCmd(a.cmd, base, x, []).defs == [];
    assert EmitPipe(false, a.cmd, base, x, []).defs == [];
    assert EmitMember(a, base, x, []).defs == [];
  }

  lemma {:induction false} CallsDefineNothing(n: nat, base: nat, x: Static)
    requires x.flags == []
    ensures EmitProgram(Calls(n), base, x, []).defs == []
    decreases n
  {
    hide EmitAndOr, ShapeAndOr;
    if n > 0 {
      var a := Last(false, Named("f"));
      CallDefinesNothing(base, x);
      CallsDefineNothing(n - 1, base + |EmitAndOr(a, base, x, []).cells|, x.With(ShapeAndOr(a, x).names));
    }
  }

  lemma OneFunction(h: Host, n: nat)
    ensures ScriptOf(h, ReturningProgram(n)).defs
            == [Def("f", Named("return"), JUMP_SIZE, TopLevel(h).InFunction("f", Named("return")), [])]
    ensures ShapeAndOr(Last(false, FuncDef("f", Named("return"))), TopLevel(h)).names == ["f"]
  {
    hide EmitCommand;
    var x := TopLevel(h);
    var c := FuncDef("f", Named("return"));
    var a := Last(false, c);
    assert Intercept(Named("return").words).NotIntercepted?;
    assert EmitCmd(Named("return"), JUMP_SIZE, x.InFunction("f", Named("return")), []).defs == [];
    var def := Def("f", Named("return"), JUMP_SIZE, x.InFunction("f", Named("return")), []);
    assert EmitFuncDef("f", Named("return"), 0, x, []).defs == [def];
    assert EmitCmd(c, 0, x, []).defs == [def];
    assert EmitPipe(false, c, 0, x, []).defs == [def];
    assert EmitMember(a, 0, x, []).defs == [def];
    var e := EmitAndOr(a, 0, x, []);
    assert e.defs == [def];
    CallsDefineNothing(n, |e.cells|, x.With(ShapeAndOr(a, x).names));
  }

  /**
   The run of the bytes: up to 63 calls return, each leaving a redirection frame open for good; the 64th has no room
   for the frame of its `return` and ends the shell with status 1.
   */
  lemma SixtyFourthCallStops(m: Machine, n: nat, w: World, supp: nat)
    requires Loaded(m, ReturningProgram(n)) && HasReturn(m.h)
    ensures exists i: nat, f: State ::
              && Run(m, Start(State(w, 0, supp, 0)), i) == Stop(f)
              && (if n < 64 then f.redirs == n && f.status == 0 else f.status == 1)
  {
    var p, s := ReturningProgram(n), State(w, 0, supp, 0);
    var g, x := ScriptOf(m.h, p), TopLevel(m.h);
    var a := Last(false, FuncDef("f", Named("return")));
    OneFunction(m.h, n);
    var x1 := x.With(["f"]);
    assert Calling(g, x1);
    CallsRun(g, x1, n, s, 1);
    DefinitionDoesNothing(g, x, s);
    hide Loaded, Run, Calling, HasReturn, EvalAndOr, EmitProgram, ShapeAndOr, Calls;
    assert Meaning(m.h, p, s, 1) == EvalProgram(g, Calls(n), x1, s, 0, 1);
    Preservation(m, p, s, 1);
  }

  lemma DefinitionDoesNothing(g: Script, x: Static, s: State)
    ensures EvalAndOr(g, Last(false, FuncDef("f", Named("return"))), x, s, 0, 1) == Ok(s)
  {
    var a := Last(false, FuncDef("f", Named("return")));
    assert EvalPipe(g, false, a.cmd, x, s, 0, 1) == Ok(s);
    assert EvalMember(g, a, x, s, 0, 1) == Ok(s);
  }

  // ---- recursion ----

  /** `f() { f; }` and a call of it. */
  function RecursiveProgram(): Program {
    Then(Last(false, FuncDef("f", Named("f"))), Then(Last(false, Named("f")), Nil))
  }

  /** Where `f` is called: the only function, which calls itself. */
  ghost predicate Recursing(g: Script, x: Static) {
    && "f" !in g.h.builtins && x.builtins == g.h.builtins && x.fns == ["f"]
    && |g.defs| == 1 && g.defs[0].body == Named("f") && g.defs[0].x.builtins == g.h.builtins && g.defs[0].x.fns == ["f"]
  }

  /** Each open call holds a frame, so the frames are used up after 64 calls, long before the call stack. */
  lemma {:induction false} RecursionEnds(g: Script, x: Static, s: State, depth: nat, fuel: nat)
    requires Recursing(g, x) && s.status == 0 && depth <= s.redirs <= 64 && fuel + s.redirs >= 64
    ensures var r := EvalCmd(g, Named("f"), x, s, depth, fuel); r.Exit? && r.s.status == 1 && r.s.redirs == 64
    decreases 64 - s.redirs
  {
    var c := Named("f");
    assert Intercept(c.words).NotIntercepted?;
    Opening(g, c, x, s, depth, fuel);
    PrepareNamed(g.h, "f", x.locals, s);
    PrepareFails(g.h, c, x.locals, s);
    hide Argv, GlobChars, Intercept, Prepare, EvalCmd, EvalExec, Finish;
    var p := Prepare(g.h, c, x.locals, s);
    if s.redirs < 64 {
      NamedArgv(g.h, "f", x.locals, p.s) by { assert !GlobChars("f"); }
      var s1 := p.s.(w := g.h.enter(["f"], p.s.w));
      RecursionEnds(g, g.defs[0].x, s1, depth + 1, fuel - 1);
      RecursiveExec(g, x, p.s, depth, fuel);
    }
  }

  lemma PrepareFails(h: Host, c: Cmd, locals: set<string>, s: State)
    requires c.Simple?
    ensures var p := Prepare(h, c, locals, s); p.Exit? ==> p.s.redirs == s.redirs
  {
    hide StoreValue, AssignVal;
    StoresKeepFrames(h, c.assigns, locals, if c.assigns != [] then s.(w := h.pushScope(1, s.w)) else s);
  }

  lemma {:induction false} StoresKeepFrames(h: Host, assigns: seq<Assign>, locals: set<string>, s: State)
    ensures StoreAll(h, assigns, true, locals, s).redirs == s.redirs
    decreases |assigns|
  {
    hide StoreValue, AssignVal;
    if assigns != [] { StoresKeepFrames(h, assigns[1..], locals, Store(h, assigns[0], true, locals, s)); }
  }

  lemma RecursiveExec(g: Script, x: Static, s: State, depth: nat, fuel: nat)
    requires Recursing(g, x) && s.status == 0 && depth < 256 && fuel > 0
    ensures EvalExec(g, Named("f"), x, ["f"], s, depth, fuel)
            == FromBody(g.h, EvalCmd(g, Named("f"), g.defs[0].x, s.(w := g.h.enter(["f"], s.w)), depth + 1, fuel - 1))
  {
    hide EvalCmd;
    var c := Named("f");
    assert Resolve(g, c.words, x, ["f"], s, depth) == Callee(0);
    assert EvalExec(g, c, x, ["f"], s, depth, fuel) == EvalCallee(g, c, 0, ["f"], s, depth, fuel);
  }

  lemma OneRecursive(h: Host)
    ensures ScriptOf(h, RecursiveProgram()).defs
            == [Def("f", Named("f"), JUMP_SIZE, TopLevel(h).InFunction("f", Named("f")), [])]
    ensures ShapeAndOr(Last(false, FuncDef("f", Named("f"))), TopLevel(h)).names == ["f"]
  {
    hide EmitCommand;
    var x := TopLevel(h);
    var c := FuncDef("f", Named("f"));
    var a := Last(false, c);
    assert Intercept(Named("f").words).NotIntercepted?;
    assert EmitCmd(Named("f"), JUMP_SIZE, x.InFunction("f", Named("f")), []).defs == [];
    var def := Def("f", Named("f"), JUMP_SIZE, x.InFunction("f", Named("f")), []);
    assert EmitFuncDef("f", Named("f"), 0, x, []).defs == [def];
    assert EmitCmd(c, 0, x, []).defs == [def];
    assert EmitPipe(false, c, 0, x, []).defs == [def];
    assert EmitMember(a, 0, x, []).defs == [def];
    var e := EmitAndOr(a, 0, x, []);
    assert e.defs == [def];
    OneCallDefinesNothing(|e.cells|, x.With(ShapeAndOr(a, x).names));
  }

  lemma OneCallDefinesNothing(base: nat, x: Static)
    requires x.flags == []
    ensures EmitProgram(Then(Last(false, Named("f")), Nil), base, x, []).defs == []
  {
    CallDefinesNothing(base, x);
    hide EmitAndOr;
  }

  /**
   The run of the bytes of a function that calls itself without end: on every host it stops with status 1 as soon as 64
   redirection frames are open, one for each open call, although the call stack has room for 256.
   */
  lemma RecursionStops(m: Machine, w: World, supp: nat)
    requires Loaded(m, RecursiveProgram()) && "f" !in m.h.builtins
    ensures exists i: nat, f: State :: Run(m, Start(State(w, 0, supp, 0)), i) == Stop(f) && f.status == 1 && f.redirs == 64
  {
    var s := State(w, 0, supp, 0);
    RecursiveMeaning(m.h, s);
    hide *;
    Preservation(m, RecursiveProgram(), s, 64);
    var r := Meaning(m.h, RecursiveProgram(), s, 64);
    FinalExit(m.h, r);
  }

  lemma FinalExit(h: Host, r: Res)
    requires r.Exit?
    ensures Final(h, r) == [r.s]
  {
  }

  lemma RecursiveMeaning(h: Host, s: State)
    requires "f" !in h.builtins && s.status == 0 && s.redirs == 0
    ensures var r := Meaning(h, RecursiveProgram(), s, 64); r.Exit? && r.s.status == 1 && r.s.redirs == 64
  {
    var g, x := ScriptOf(h, RecursiveProgram()), TopLevel(h);
    OneRecursive(h);
    var x1 := x.With(["f"]);
    assert Recursing(g, x1);
    hide Recursing, EvalProgram, EvalCmd, EmitProgram, ShapeAndOr;
    RecursionEnds(g, x1, s, 0, 64);
    RecursionMeans(g, x, x1, s);
  }

  lemma RecursionMeans(g: Script, x: Static, x1: Static, s: State)
    requires x1 == x.With(["f"]) && ShapeAndOr(Last(false, FuncDef("f", Named("f"))), x).names == ["f"]
    requires EvalCmd(g, Named("f"), x1, s, 0, 64).Exit?
    ensures EvalProgram(g, RecursiveProgram(), x, s, 0, 64) == EvalCmd(g, Named("f"), x1, s, 0, 64)
  {
    var a, c := Last(false, FuncDef("f", Named("f"))), Last(false, Named("f"));
    assert EvalPipe(g, false, a.cmd, x, s, 0, 64) == Ok(s);
    assert EvalMember(g, a, x, s, 0, 64) == Ok(s);
    assert EvalAndOr(g, a, x, s, 0, 64) == Ok(s);
    OneCall(g, x1, s, 64);
    hide EvalAndOr, ShapeAndOr;
    assert EvalProgram(g, Then(c, Nil), x1, s, 0, 64) == EvalAndOr(g, c, x1, s, 0, 64);
  }
}
