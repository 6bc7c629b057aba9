/**
 Redirections undone over whole programs: the world has a descriptor table and saved frames that the redirection
 instructions change as Redirections says. However its commands are nested, looped or called, a program that gives back
 its frames ends with the table it started with.
 */
module Undoing {
  import opened Ast
  import opened Vm
  import opened Emit
  import opened Semantics
  import opened Wellformed
  import opened Tidy
  import opened Errexit
  import opened Ledger
  import opened Frames
  import R = Redirections

  // ---- the world's descriptor table ----

  /** What of a world is its descriptor table, and which redirection an instruction turns out to be in it. */
  datatype Tables = Tables(view: World -> R.Cfg, op: (nat, nat, nat, string, World) -> R.Redir)

  predicate OpFits(op: nat, fd: nat, r: R.Redir) {
    && (op == 0x52 ==> r.OpenOp? && r.fd == fd)
    && (op == 0x53 ==> r.DupOp? && r.fd == fd)
    && (op == 0x55 ==> r.HereOp? && r.fd == fd)
  }

  /** Builtins that run other code in this shell, or open and close descriptors for good. */
  const DISTURBERS := RETURNERS + ["exec"]

  predicate Quiet(h: Host, t: Target) {
    t.Builtin? && t.index < |h.builtins| ==> h.builtins[t.index] !in DISTURBERS
  }

  /** The redirection instructions do to the table what Redirections says; nothing else touches it. */
  ghost predicate TableLaws(h: Host, t: Tables) {
    && (forall name, v, w :: t.view(h.setVar(name, v, w)) == t.view(w) == t.view(h.setLocal(name, v, w)))
    && (forall name, w :: t.view(h.export_(name, w)) == t.view(w))
    && (forall n, w :: t.view(h.pushScope(n, w)) == t.view(w))
    && (forall w :: t.view(h.popScope(w)) == t.view(w))
    && (forall op, l, r, w :: t.view(h.test2(op, l, r, w).0) == t.view(w))
    && (forall argv, w :: t.view(h.enter(argv, w)) == t.view(w))
    && (forall w :: t.view(h.leave(w)) == t.view(w))
    && (forall target, argv, status, w :: Quiet(h, target) ==> t.view(h.run(target, argv, status, w).w) == t.view(w))
    && (forall w :: t.view(h.redirSave(w)) == R.Step(t.view(w), R.SaveI))
    && (forall w :: t.view(h.redirRestore(w)) == R.Step(t.view(w), R.RestoreI))
    && (forall fd, w :: t.view(h.redirClose(fd, w)) == R.Step(t.view(w), R.OpI(R.CloseOp(fd))))
    && (forall op, fd, arg, target, status, w ::
          t.view(h.redirect(op, fd, arg, target, status, w).0) == R.Step(t.view(w), R.OpI(t.op(op, fd, arg, target, w))))
    && (forall op, fd, arg, target, w :: OpFits(op, fd, t.op(op, fd, arg, target, w)))
  }

  /** The saved frames of the world are the frames the machine counts. */
  ghost predicate Synced(t: Tables, s: State) {
    t.view(s.w).Cfg? && |t.view(s.w).frames| == s.redirs
  }

  // ---- redirections that can be undone ----

  /** What a redirection of the tree may turn out to be: opening may fail, and a target word may name any descriptor. */
  predicate OpFor(r: Redir, op: R.Redir) {
    match r
    case Open(fd, _, _) => op.OpenOp? && op.fd == fd
    case Dup(fd, _) => op.DupOp? && op.fd == fd
    case Here(fd, _, _) => op.HereOp? && op.fd == fd
    case Close(fd) => op == R.CloseOp(fd)
  }

  predicate OpsFor(rs: seq<Redir>, ops: seq<R.Redir>) {
    |ops| == |rs| && forall i :: 0 <= i < |rs| ==> OpFor(rs[i], ops[i])
  }

  /** At most 16 redirections, each of them undoable when its turn comes, from whichever of the tables `at` they start. */
  ghost predicate FdsOk(rs: seq<Redir>, at: iset<R.Fds>) {
    |rs| <= R.FRAME_MAX
    && forall t: R.Fds, ops :: t in at && OpsFor(rs, ops) ==> R.AllUndoable(R.State(t, []), ops)
  }

  /** The tables the redirections may lead to. */
  ghost function FdsAfter(rs: seq<Redir>, at: iset<R.Fds>): iset<R.Fds> {
    iset t: R.Fds, ops | t in at && OpsFor(rs, ops) :: R.DoAll(R.State(t, []), ops).t
  }

  /** The command name is spelled out and none of the disturbing builtins. */
  predicate QuietName(words: seq<Word>) {
    FixedName(words) && words[0][0].text != "exec"
  }

  /**
   All redirections of the command are of this sort if its table is one of `at`; `funcs` are the tables of commands that
   may be functions, on which the redirections of functions can rely.
   */
  ghost predicate FdsCmd(funcs: iset<R.Fds>, c: Cmd, at: iset<R.Fds>) {
    match c
    case Simple(_, redirs, words) =>
      (match Intercept(words)
       case NotIntercepted => words == [] || (FdsOk(redirs, at) && QuietName(words) && FdsAfter(redirs, at) <= funcs)
       case _ => true)
    case If(cs) => FdsClauses(funcs, cs, at)
    case For(_, _, body) => FdsProgram(funcs, body, at)
    case While(_, cond, body) => FdsProgram(funcs, cond, at) && FdsProgram(funcs, body, at)
    case Case(_, arms) => FdsArms(funcs, arms, at)
    case Group(body) => FdsProgram(funcs, body, at)
    case FuncDef(_, func) => FdsCmd(funcs, func, funcs)
    case Bracket(_) => true
    case Redirected(rs, cmd) => FdsOk(rs, at) && FdsCmd(funcs, cmd, FdsAfter(rs, at))
  }

  ghost predicate FdsClauses(funcs: iset<R.Fds>, cs: Clauses, at: iset<R.Fds>) {
    match cs
    case NoElse => true
    case Else(body) => FdsProgram(funcs, body, at)
    case Elif(cond, body, rest) => FdsProgram(funcs, cond, at) && FdsProgram(funcs, body, at) && FdsClauses(funcs, rest, at)
  }

  ghost predicate FdsArms(funcs: iset<R.Fds>, arms: Arms, at: iset<R.Fds>) {
    match arms
    case NoArms => true
    case Arm(_, body, _, rest) => FdsProgram(funcs, body, at) && FdsArms(funcs, rest, at)
  }

  ghost predicate FdsAndOr(funcs: iset<R.Fds>, a: AndOr, at: iset<R.Fds>) {
    FdsCmd(funcs, a.cmd, at) && (a.Link? ==> FdsAndOr(funcs, a.rest, at))
  }

  ghost predicate FdsProgram(funcs: iset<R.Fds>, p: Program, at: iset<R.Fds>) {
    match p
    case Nil => true
    case Then(head, tail) => FdsAndOr(funcs, head, at) && FdsProgram(funcs, tail, at)
  }

  ghost predicate FdsScript(g: Script, funcs: iset<R.Fds>) {
    forall i :: 0 <= i < |g.defs| ==> FdsCmd(funcs, g.defs[i].body, funcs)
  }

  /** A contained script whose functions can rely on `funcs`, on a host that keeps the laws. */
  ghost predicate Orderly(g: Script, x: Static, t: Tables, funcs: iset<R.Fds>) {
    TableLaws(g.h, t) && Sound(g) && Sort(g, x, Contained) && FdsScript(g, funcs)
  }

  // ---- opening and giving back the frame of one command ----

  function OpOf(h: Host, t: Tables, r: Redir, locals: set<string>, s: State): R.Redir {
    match r
    case Open(fd, kind, target) => t.op(0x52, fd, kind, WordVal(h, target, locals, s), s.w)
    case Dup(fd, target) => t.op(0x53, fd, 0, WordVal(h, target, locals, s), s.w)
    case Here(fd, expand, target) => t.op(0x55, fd, if expand then 1 else 0, WordVal(h, target, locals, s), s.w)
    case Close(fd) => R.CloseOp(fd)
  }

  function OpsOf(h: Host, t: Tables, rs: seq<Redir>, locals: set<string>, s: State): (r: seq<R.Redir>)
    ensures |r| == |rs|
    decreases |rs|
  {
    if rs == [] then [] else [OpOf(h, t, rs[0], locals, s)] + OpsOf(h, t, rs[1..], locals, ApplyRedir(h, rs[0], locals, s))
  }

  lemma ApplyStep(h: Host, t: Tables, r: Redir, locals: set<string>, s: State)
    requires TableLaws(h, t)
    ensures var op := OpOf(h, t, r, locals, s);
            && t.view(ApplyRedir(h, r, locals, s).w) == R.Step(t.view(s.w), R.OpI(op))
            && OpFor(r, op)
            && ApplyRedir(h, r, locals, s).redirs == s.redirs
  {
    hide WordVal;
  }

  lemma {:induction false} ApplyView(h: Host, t: Tables, rs: seq<Redir>, locals: set<string>, s: State)
    requires TableLaws(h, t) && t.view(s.w).Cfg? && t.view(s.w).frames != []
    ensures var v := t.view(s.w);
            t.view(ApplyRedirs(h, rs, locals, s).w) == R.WithTop(v, R.DoAll(R.Top(v), OpsOf(h, t, rs, locals, s)))
    ensures ApplyRedirs(h, rs, locals, s).redirs == s.redirs
    decreases |rs|
  {
    hide TableLaws, R.Do, OpOf, ApplyRedir;
    var v := t.view(s.w);
    if rs == [] {
      R.SameTop(v);
    } else {
      ApplyStep(h, t, rs[0], locals, s);
      ApplyView(h, t, rs[1..], locals, ApplyRedir(h, rs[0], locals, s));
      WithTopTwice(v, R.Do(R.Top(v), OpOf(h, t, rs[0], locals, s)), R.DoAll(R.Top(v), OpsOf(h, t, rs, locals, s)));
    }
  }

  lemma WithTopTwice(v: R.Cfg, s1: R.State, s2: R.State)
    requires v.Cfg? && v.frames != []
    ensures R.Top(R.WithTop(v, s1)) == s1 && R.WithTop(R.WithTop(v, s1), s2) == R.WithTop(v, s2)
  {
    var top := |v.frames| - 1;
    assert v.frames[top := s1.frame][top := s2.frame] == v.frames[top := s2.frame];
  }

  lemma {:induction false} OpsFit(h: Host, t: Tables, rs: seq<Redir>, locals: set<string>, s: State)
    requires TableLaws(h, t)
    ensures OpsFor(rs, OpsOf(h, t, rs, locals, s))
    decreases |rs|
  {
    hide TableLaws, ApplyRedir;
    if rs != [] {
      ApplyStep(h, t, rs[0], locals, s);
      OpsFit(h, t, rs[1..], locals, ApplyRedir(h, rs[0], locals, s));
      var ops, more := OpsOf(h, t, rs, locals, s), OpsOf(h, t, rs[1..], locals, ApplyRedir(h, rs[0], locals, s));
      forall i | 0 <= i < |rs| ensures OpFor(rs[i], ops[i]) {
        if i > 0 { assert rs[i] == rs[1..][i - 1] && ops[i] == more[i - 1]; }
      }
    }
  }

  /** The frame `o` of a command opened in `s`: giving it back, later, in a world with the same table, restores the table of `s`. */
  ghost predicate Opened(h: Host, t: Tables, s: State, o: State) {
    && Synced(t, o) && o.redirs == s.redirs + 1
    && forall w :: t.view(w) == t.view(o.w) ==> t.view(h.redirRestore(w)) == t.view(s.w)
  }

  lemma OpenFrame(h: Host, t: Tables, rs: seq<Redir>, locals: set<string>, s: State, at: iset<R.Fds>)
    requires TableLaws(h, t) && FdsOk(rs, at) && TableIn(t, s, at)
    ensures var o := OpenRedirs(h, rs, locals, s);
            o.Exit? || (o.Ok? && Opened(h, t, s, o.s) && TableIn(t, o.s, FdsAfter(rs, at)))
  {
    hide ApplyRedirs, OpsFor, R.DoAll, R.AllUndoable, OpsOf, R.Restore;
    if s.redirs < REDIR_MAX {
      var s1 := s.(redirs := s.redirs + 1, w := h.redirSave(s.w));
      var v, v1 := t.view(s.w), t.view(s1.w);
      assert v1 == R.Step(v, R.SaveI) == R.Cfg(v.t, v.frames + [[]]);
      ApplyView(h, t, rs, locals, s1);
      OpsFit(h, t, rs, locals, s1);
      var ops := OpsOf(h, t, rs, locals, s1);
      var d := R.DoAll(R.State(v.t, []), ops);
      R.RedirectionsUndone(v.t, ops);
      var o := ApplyRedirs(h, rs, locals, s1);
      assert t.view(o.w) == R.Cfg(d.t, v.frames + [d.frame]);
      forall w | t.view(w) == t.view(o.w) ensures t.view(h.redirRestore(w)) == v {
        assert t.view(h.redirRestore(w)) == R.Step(t.view(w), R.RestoreI);
        assert (v.frames + [d.frame])[..|v.frames|] == v.frames;
      }
    }
  }

  // ---- redirections that replace open descriptors ----

  ghost function Having(open: set<nat>): iset<R.Fds> {
    iset t: R.Fds | open <= t.Keys
  }

  function FdAfter(r: Redir, open: set<nat>): set<nat> {
    if r.Close? then open - {r.fd} else open
  }

  function OpenAfter(rs: seq<Redir>, open: set<nat>): set<nat>
    decreases |rs|
  {
    if rs == [] then open else OpenAfter(rs[1..], FdAfter(rs[0], open))
  }

  /** What each redirection replaces is open when its turn comes. */
  predicate TargetsOpen(rs: seq<Redir>, open: set<nat>)
    decreases |rs|
  {
    rs == [] || ((!rs[0].Close? ==> rs[0].fd in open) && TargetsOpen(rs[1..], FdAfter(rs[0], open)))
  }

  /** Only closing takes an open descriptor away. */
  lemma OpenStays(s: R.State, r: Redir, op: R.Redir, open: set<nat>)
    requires open <= s.t.Keys && OpFor(r, op) && (!r.Close? ==> r.fd in open)
    ensures R.Undoable(s.t, op) && FdAfter(r, open) <= R.Do(s, op).t.Keys
  {
    hide R.Lowest;
  }

  lemma {:induction false} OpenUndoable(s: R.State, rs: seq<Redir>, ops: seq<R.Redir>, open: set<nat>)
    requires open <= s.t.Keys && OpsFor(rs, ops) && TargetsOpen(rs, open)
    ensures R.AllUndoable(s, ops) && OpenAfter(rs, open) <= R.DoAll(s, ops).t.Keys
    decreases |rs|
  {
    hide R.Do, R.Undoable, OpFor;
    if rs != [] {
      OpenStays(s, rs[0], ops[0], open);
      assert forall i :: 0 <= i < |rs| - 1 ==> rs[1..][i] == rs[i + 1] && ops[1..][i] == ops[i + 1];
      OpenUndoable(R.Do(s, ops[0]), rs[1..], ops[1..], FdAfter(rs[0], open));
    }
  }

  /** Redirections of descriptors that are open can be undone, whatever else is open. */
  lemma OpenTargetsOk(rs: seq<Redir>, open: set<nat>)
    requires |rs| <= R.FRAME_MAX && TargetsOpen(rs, open)
    ensures FdsOk(rs, Having(open)) && FdsAfter(rs, Having(open)) <= Having(OpenAfter(rs, open))
  {
    hide OpsFor, TargetsOpen, R.AllUndoable, R.DoAll;
    forall t: R.Fds, ops | t in Having(open) && OpsFor(rs, ops)
      ensures R.AllUndoable(R.State(t, []), ops) && R.DoAll(R.State(t, []), ops).t in Having(OpenAfter(rs, open))
    {
      OpenUndoable(R.State(t, []), rs, ops, open);
    }
  }

  /** A here-document can be undone, also for a closed descriptor, wherever that is not the lowest free one. */
  lemma HereOkExactlyIf(fd: nat, target: Word, expand: bool, at: iset<R.Fds>, f: R.File)
    ensures FdsOk([Here(fd, expand, target)], at) <==> forall t: R.Fds :: t in at ==> fd in t || fd != R.Lowest(t)
  {
    hide R.Lowest, R.Do;
    var rs, op := [Here(fd, expand, target)], R.HereOp(fd, R.File_(f));
    assert OpsFor(rs, [op]);
    assert [op][1..] == [];
    forall t: R.Fds, ops | t in at && OpsFor(rs, ops)
      ensures R.AllUndoable(R.State(t, []), ops) <==> R.Undoable(t, ops[0])
    {
      assert OpFor(rs[0], ops[0]);
      assert ops[1..] == [];
    }
    if FdsOk(rs, at) {
      forall t: R.Fds | t in at ensures fd in t || fd != R.Lowest(t) {
        assert R.AllUndoable(R.State(t, []), [op]);
        assert R.Undoable(t, op);
      }
    }
  }

  lemma {:induction false} StoresView(h: Host, t: Tables, assigns: seq<Assign>, temp: bool, locals: set<string>, s: State)
    requires TableLaws(h, t)
    ensures var r := StoreAll(h, assigns, temp, locals, s); t.view(r.w) == t.view(s.w) && r.redirs == s.redirs
    decreases |assigns|
  {
    hide AssignVal;
    if assigns != [] { StoresView(h, t, assigns[1..], temp, locals, Store(h, assigns[0], temp, locals, s)); }
  }

  lemma {:induction false} TestView(h: Host, t: Tables, e: CondExpr, locals: set<string>, s: State)
    requires TableLaws(h, t)
    ensures var r := EvalTest(h, e, locals, s); t.view(r.w) == t.view(s.w) && r.redirs == s.redirs
    decreases e
  {
    hide WordVal;
    match e
    case Test1(_, _) =>
    case Test2(_, _, _) =>
    case CondAnd(l, r) =>
      TestView(h, t, l, locals, s);
      TestView(h, t, r, locals, EvalTest(h, l, locals, s));
    case CondOr(l, r) =>
      TestView(h, t, l, locals, s);
      TestView(h, t, r, locals, EvalTest(h, l, locals, s));
    case CondNot(e1) => TestView(h, t, e1, locals, s);
  }

  lemma QuietResolve(g: Script, words: seq<Word>, x: Static, s: State, depth: nat, t: Tables)
    requires QuietName(words) && x.builtins == g.h.builtins && TableLaws(g.h, t)
    ensures var d := Resolve(g, words, x, Argv(g.h, words, true, x.locals, s), s, depth);
            d.Ended? && d.a.Go? ==> t.view(d.a.s.w) == t.view(s.w) && d.a.s.redirs == s.redirs
  {
    hide Argv, HasGlob, StartsWithTilde, Names, TableLaws, Invoke;
    var argv := Argv(g.h, words, true, x.locals, s);
    FixedArgv(g.h, words, x.locals, s);
    forall target | Quiet(g.h, target) { InvokeView(g.h, target, argv, s, depth, t); }
  }

  lemma InvokeView(h: Host, target: Target, argv: seq<string>, s: State, depth: nat, t: Tables)
    requires Quiet(h, target) && TableLaws(h, t)
    ensures var a := Invoke(h, target, argv, s, depth);
            a.Go? ==> t.view(a.s.w) == t.view(s.w) && a.s.redirs == s.redirs
  {
  }

  // ---- every command gives back what it found ----

  ghost predicate Undone(t: Tables, s: State, r: Res) {
    Flowing(r) ==> t.view(r.s.w) == t.view(s.w) && r.s.redirs == s.redirs
  }

  ghost predicate TableIn(t: Tables, s: State, at: iset<R.Fds>) {
    Synced(t, s) && t.view(s.w).t in at
  }

  /** Worlds with the same table and as many frames. */
  lemma StaysIn(t: Tables, s: State, s1: State, at: iset<R.Fds>)
    requires TableIn(t, s, at) && t.view(s1.w) == t.view(s.w) && s1.redirs == s.redirs
    ensures TableIn(t, s1, at)
  {
  }

  lemma FewerIn(t: Tables, s: State, some: iset<R.Fds>, all: iset<R.Fds>)
    requires TableIn(t, s, some) && some <= all
    ensures TableIn(t, s, all)
  {
  }

  lemma OrderlyLaws(g: Script, x: Static, t: Tables, funcs: iset<R.Fds>)
    requires Orderly(g, x, t, funcs)
    ensures TableLaws(g.h, t) && Sound(g) && Sort(g, x, Contained) && x.builtins == g.h.builtins
    ensures forall x1: Static :: x1.builtins == x.builtins ==> Orderly(g, x1, t, funcs)
  {
    hide TableLaws, FdsScript, KindScript, Sound;
  }

  lemma {:induction false} UndoCmd(g: Script, c: Cmd, x: Static, s: State, depth: nat, fuel: nat, t: Tables,
                                   funcs: iset<R.Fds>, at: iset<R.Fds>, d: nat, k: nat)
    requires Orderly(g, x, t, funcs) && WfCmd(c, x, d) && KindCmd(g.h, c, Contained, x.flags, k) && FdsCmd(funcs, c, at) && TableIn(t, s, at)
    ensures Undone(t, s, EvalCmd(g, c, x, s, depth, fuel))
    decreases fuel, c, 2
  {
    hide Orderly, TableIn, EvalProgram, WfProgram, KindProgram, FdsProgram,
    EvalSimple, EvalClauses, EvalFor, EvalLoop, EvalArms, EvalGuard, EvalRedirected, EvalTest, WfSimple, WfClauses, WfArms,
    KindSimple, KindClauses, KindArms, FdsClauses, FdsArms, FdsOk, Items, Intercept, QuietName;
    match c {
      case Simple(_, _, _) => UndoSimple(g, c, x, s, depth, fuel, t, funcs, at, d, k);
      case If(cs) => UndoClauses(g, cs, x, s, depth, fuel, t, funcs, at, d, k);
      case For(_, items, _) => UndoFor(g, c, Items(g.h, items, x.locals, s), x, s, depth, fuel, t, funcs, at, d, k);
      case While(_, cond, _) =>
        UndoGuard(g, cond, x, s, depth, fuel, t, funcs, at, d, k);
        var r := EvalGuard(g, cond, x, s, depth, fuel);
        if r.Ok? {
          StaysIn(t, s, r.s, at);
          UndoLoop(g, c, x, r.s, depth, fuel, t, funcs, at, d, k);
        }
      case Case(subject, arms) => UndoArms(g, arms, subject, x, s, depth, fuel, t, funcs, at, d, k);
      case Group(body) => UndoProgram(g, body, x, s, depth, fuel, t, funcs, at, d, k);
      case FuncDef(_, _) =>
      case Bracket(e) =>
        OrderlyLaws(g, x, t, funcs);
        TestView(g.h, t, e, x.locals, s);
      case Redirected(rs, cmd) => UndoRedirected(g, rs, cmd, x, s, depth, fuel, t, funcs, at, d);
    }
  }

  lemma {:induction false} UndoRedirected(g: Script, rs: seq<Redir>, c: Cmd, x: Static, s: State, depth: nat, fuel: nat,
                                          t: Tables, funcs: iset<R.Fds>, at: iset<R.Fds>, d: nat)
    requires Orderly(g, x, t, funcs) && WfCmd(c, x, d) && KindCmd(g.h, c, Contained, x.flags, 0)
    requires FdsOk(rs, at) && FdsCmd(funcs, c, FdsAfter(rs, at)) && TableIn(t, s, at)
    ensures Undone(t, s, EvalRedirected(g, rs, c, x, s, depth, fuel))
    decreases fuel, c, 3
  {
    hide Orderly, EvalCmd, WfCmd, KindCmd, FdsCmd, FdsOk, OpenRedirs, TableLaws, Sound, Sort;
    OrderlyLaws(g, x, t, funcs);
    OpenFrame(g.h, t, rs, x.locals, s, at);
    var o := OpenRedirs(g.h, rs, x.locals, s);
    if o.Ok? {
      UndoCmd(g, c, x, o.s, depth, fuel, t, funcs, FdsAfter(rs, at), d, 0);
      ContainedKeepsFrames(g, c, x, o.s, depth, fuel, d, 0);
    }
  }

  lemma PrepareView(h: Host, t: Tables, c: Cmd, locals: set<string>, s: State, at: iset<R.Fds>)
    requires c.Simple? && TableLaws(h, t) && FdsOk(c.redirs, at) && TableIn(t, s, at)
    ensures var o := Prepare(h, c, locals, s);
            o.Exit? || (o.Ok? && Opened(h, t, s, o.s) && TableIn(t, o.s, FdsAfter(c.redirs, at)))
  {
    hide OpenRedirs, StoreAll, FdsOk, FdsAfter;
    var s1 := if c.assigns != [] then s.(w := h.pushScope(1, s.w)) else s;
    StoresView(h, t, c.assigns, true, locals, s1);
    OpenFrame(h, t, c.redirs, locals, StoreAll(h, c.assigns, true, locals, s1), at);
  }

  lemma FinishView(h: Host, t: Tables, c: Cmd, s: State, o: State, s2: State)
    requires c.Simple? && TableLaws(h, t) && !IsBareExec(c.words) && Opened(h, t, s, o)
    requires t.view(s2.w) == t.view(o.w) && s2.redirs == o.redirs
    ensures var f := Finish(h, c, s2); t.view(f.w) == t.view(s.w) && f.redirs == s.redirs
  {
    hide IsBareExec;
  }

  lemma {:induction false} UndoSimple(g: Script, c: Cmd, x: Static, s: State, depth: nat, fuel: nat, t: Tables,
                                      funcs: iset<R.Fds>, at: iset<R.Fds>, d: nat, k: nat)
    requires c.Simple? && Orderly(g, x, t, funcs) && WfSimple(c, x, d) && KindSimple(g.h, c, Contained, x.flags, k)
    requires FdsCmd(funcs, c, at) && TableIn(t, s, at)
    ensures Undone(t, s, EvalSimple(g, c, x, s, depth, fuel))
    decreases fuel, c, 1
  {
    hide Orderly, TableIn, EvalExec, EvalProgram, Prepare, Finish, Argv, StoreAll, TableLaws, Sound, Sort, FdsOk, FdsAfter,
    QuietName, Steady, IsBareExec, Opened, Synced;
    OrderlyLaws(g, x, t, funcs);
    match Intercept(c.words) {
      case Jump(_, _) =>
        if fuel > 0 { NeverBack(g, x, s, depth, fuel - 1); }
      case NotIntercepted =>
        if c.words == [] {
          StoresView(g.h, t, c.assigns, false, x.locals, s);
        } else {
          PrepareView(g.h, t, c, x.locals, s, at);
          var p := Prepare(g.h, c, x.locals, s);
          if p.Ok? {
            UndoExec(g, c, x, p.s, depth, fuel, t, funcs, FdsAfter(c.redirs, at));
            var r := EvalExec(g, c, x, Argv(g.h, c.words, true, x.locals, p.s), p.s, depth, fuel);
            if r.Ok? { FinishView(g.h, t, c, s, p.s, r.s); }
          }
        }
      case _ =>
    }
  }

  /** In a contained script nothing leaves the program by a jump or a return, so after a restart there is no way back. */
  lemma NeverBack(g: Script, x: Static, s: State, depth: nat, fuel: nat)
    requires Sound(g) && Sort(g, x, Contained)
    ensures !Flowing(Halting(g.h, EvalProgram(g, g.main, TopLevel(g.h), s, depth, fuel)))
  {
    hide EvalProgram, LedgerProgram, KindScript, Sound;
    FrameMain(g, s, depth, fuel, w => 0, Contained);
  }

  lemma {:induction false} UndoExec(g: Script, c: Cmd, x: Static, s: State, depth: nat, fuel: nat, t: Tables,
                                    funcs: iset<R.Fds>, at: iset<R.Fds>)
    requires c.Simple? && c.words != [] && Orderly(g, x, t, funcs) && QuietName(c.words) && Steady(g.h, c.words) && at <= funcs && TableIn(t, s, at)
    ensures var r := EvalExec(g, c, x, Argv(g.h, c.words, true, x.locals, s), s, depth, fuel); Undone(t, s, r) && (Flowing(r) ==> r.Ok?)
    decreases fuel, c, 0
  {
    hide Orderly, EvalCallee, Argv, Resolve, TableLaws, Sound, Sort, Steady, FixedName;
    OrderlyLaws(g, x, t, funcs);
    var argv := Argv(g.h, c.words, true, x.locals, s);
    QuietResolve(g, c.words, x, s, depth, t);
    SteadyResolve(g, c.words, x, s, depth);
    var q := Resolve(g, c.words, x, argv, s, depth);
    if q.Callee? && q.f < |g.defs| { 
      FewerIn(t, s, at, funcs);
      UndoCall(g, c, q.f, argv, x, s, depth, fuel, t, funcs);
    }
  }

  lemma {:induction false} UndoCall(g: Script, c: Cmd, f: nat, argv: seq<string>, x: Static, s: State, depth: nat, fuel: nat,
                                    t: Tables, funcs: iset<R.Fds>)
    requires f < |g.defs| && Orderly(g, x, t, funcs) && TableIn(t, s, funcs)
    ensures var r := EvalCallee(g, c, f, argv, s, depth, fuel); Undone(t, s, r) && (Flowing(r) ==> r.Ok?)
    decreases fuel, c, -1
  {
    hide EvalCmd, KindCmd, KindProgram, WfCmd, WfProgram, FdsCmd;
    if Enter(g.h, argv, s, depth).Go? && fuel > 0 {
      var def, e := g.defs[f], Enter(g.h, argv, s, depth).s;
      assert KindDef(g.h, def, Contained);
      assert Orderly(g, def.x, t, funcs) by { OrderlyLaws(g, x, t, funcs); }
      UndoCmd(g, def.body, def.x, e, depth + 1, fuel - 1, t, funcs, funcs, 0, 0);
      ContainedKeepsFrames(g, def.body, def.x, e, depth + 1, fuel - 1, 0, 0);
    }
  }

  lemma {:induction false} UndoGuard(g: Script, p: Program, x: Static, s: State, depth: nat, fuel: nat, t: Tables,
                                   funcs: iset<R.Fds>, at: iset<R.Fds>, d: nat, k: nat)
    requires Orderly(g, x, t, funcs) && WfProgram(p, x, d) && KindProgram(g.h, p, Contained, x.flags, k) && FdsProgram(funcs, p, at) && TableIn(t, s, at)
    ensures Undone(t, s, EvalGuard(g, p, x, s, depth, fuel))
    decreases fuel, p, 1
  {
    hide Orderly, TableIn, EvalProgram, WfProgram, KindProgram, FdsProgram;
    StaysIn(t, s, Suppress(s), at);
    UndoProgram(g, p, x, Suppress(s), depth, fuel, t, funcs, at, d, k);
  }

  lemma {:induction false} UndoFor(g: Script, c: Cmd, args: seq<string>, x: Static, s: State, depth: nat, fuel: nat, t: Tables,
                                   funcs: iset<R.Fds>, at: iset<R.Fds>, d: nat, k: nat)
    requires Orderly(g, x, t, funcs) && c.For? && WfCmd(c, x, d) && KindCmd(g.h, c, Contained, x.flags, k) && FdsCmd(funcs, c, at) && TableIn(t, s, at)
    ensures Undone(t, s, EvalFor(g, c, args, x, s, depth, fuel))
    decreases fuel, c, 1, |args|
  {
    hide Orderly, TableIn, EvalProgram, WfProgram, KindProgram, FdsProgram;
    if args != [] {
      OrderlyLaws(g, x, t, funcs);
      var s1 := s.(w := g.h.setVar(c.name, args[0], s.w));
      StaysIn(t, s, s1, at);
      UndoProgram(g, c.body, x.InLoop(true), s1, depth, fuel, t, funcs, at, d + 1, k + 1);
      var r := EvalProgram(g, c.body, x.InLoop(true), s1, depth, fuel);
      if NextRound(r) {
        StaysIn(t, s, r.s, at);
        UndoFor(g, c, args[1..], x, r.s, depth, fuel, t, funcs, at, d, k);
      }
    }
  }

  lemma {:induction false} UndoLoop(g: Script, c: Cmd, x: Static, s: State, depth: nat, fuel: nat, t: Tables,
                                   funcs: iset<R.Fds>, at: iset<R.Fds>, d: nat, k: nat)
    requires Orderly(g, x, t, funcs) && c.While? && WfCmd(c, x, d) && KindCmd(g.h, c, Contained, x.flags, k) && FdsCmd(funcs, c, at) && TableIn(t, s, at)
    ensures Undone(t, s, EvalLoop(g, c, x, s, depth, fuel))
    decreases fuel, c, 1
  {
    hide Orderly, TableIn, EvalProgram, WfProgram, KindProgram, FdsProgram, EvalAgain, ShapeProgram, TableLaws;
    OrderlyLaws(g, x, t, funcs);
    UndoProgram(g, c.body, WhileBodyStatic(c, x), s, depth, fuel, t, funcs, at, d + 1, k + 1);
    var r := EvalProgram(g, c.body, WhileBodyStatic(c, x), s, depth, fuel);
    if r.Ok? {
      StaysIn(t, s, r.s, at);
      UndoAgain(g, c, x, r.s, depth, fuel, t, funcs, at, d, k);
    }
  }

  lemma {:induction false} UndoAgain(g: Script, c: Cmd, x: Static, s: State, depth: nat, fuel: nat, t: Tables,
                                   funcs: iset<R.Fds>, at: iset<R.Fds>, d: nat, k: nat)
    requires Orderly(g, x, t, funcs) && c.While? && WfCmd(c, x, d) && KindCmd(g.h, c, Contained, x.flags, k) && FdsCmd(funcs, c, at) && TableIn(t, s, at)
    ensures Undone(t, s, EvalAgain(g, c, x, s, depth, fuel))
    decreases fuel, c, 0
  {
    hide Orderly, TableIn, EvalProgram, WfProgram, KindProgram, FdsProgram, EvalGuard, EvalLoop, ShapeProgram, TableLaws;
    OrderlyLaws(g, x, t, funcs);
    UndoGuard(g, c.cond, WhileAgainStatic(c, x), s, depth, fuel, t, funcs, at, d + 1, k + 1);
    var r := EvalGuard(g, c.cond, WhileAgainStatic(c, x), s, depth, fuel);
    if r.Ok? && fuel > 0 {
      StaysIn(t, s, r.s, at);
      UndoLoop(g, c, x, r.s, depth, fuel - 1, t, funcs, at, d, k);
    }
  }

  lemma {:induction false} UndoClauses(g: Script, cs: Clauses, x: Static, s: State, depth: nat, fuel: nat, t: Tables,
                                   funcs: iset<R.Fds>, at: iset<R.Fds>, d: nat, k: nat)
    requires Orderly(g, x, t, funcs) && WfClauses(cs, x, d) && KindClauses(g.h, cs, Contained, x.flags, k) && FdsClauses(funcs, cs, at) && TableIn(t, s, at)
    ensures Undone(t, s, EvalClauses(g, cs, x, s, depth, fuel))
    decreases fuel, cs, 0
  {
    hide Orderly, TableIn, EvalProgram, WfProgram, KindProgram, FdsProgram, EvalGuard, ShapeProgram, TableLaws;
    match cs {
      case NoElse =>
      case Else(body) => UndoProgram(g, body, x, s, depth, fuel, t, funcs, at, d, k);
      case Elif(cond, body, rest) =>
        OrderlyLaws(g, x, t, funcs);
        var x1 := x.With(ShapeProgram(cond, x).names);
        var x2 := x1.With(ShapeProgram(body, x1).names);
        UndoGuard(g, cond, x, s, depth, fuel, t, funcs, at, d, k);
        var r := EvalGuard(g, cond, x, s, depth, fuel);
        if r.Ok? {
          StaysIn(t, s, r.s, at);
          UndoProgram(g, body, x1, r.s, depth, fuel, t, funcs, at, d, k);
          UndoClauses(g, rest, x2, r.s, depth, fuel, t, funcs, at, d, k);
        }
    }
  }

  lemma {:induction false} UndoArms(g: Script, arms: Arms, subject: Word, x: Static, s: State, depth: nat, fuel: nat, t: Tables,
                                   funcs: iset<R.Fds>, at: iset<R.Fds>, d: nat, k: nat)
    requires Orderly(g, x, t, funcs) && WfArms(arms, x, subject, d) && KindArms(g.h, arms, Contained, x.flags, k) && FdsArms(funcs, arms, at) && TableIn(t, s, at)
    ensures Undone(t, s, EvalArms(g, arms, x, subject, s, depth, fuel))
    decreases fuel, arms, 0
  {
    hide Orderly, TableIn, EvalProgram, WfProgram, KindProgram, FdsProgram, ShapeProgram, TryPatterns, TableLaws;
    if arms.Arm? {
      OrderlyLaws(g, x, t, funcs);
      PatternsLevel(g.h, arms.patterns, subject, x.locals, s);
      var x1 := x.With(ShapeProgram(arms.body, x).names);
      var s1 := TryPatterns(g.h, arms.patterns, subject, x.locals, s).1;
      StaysIn(t, s, s1, at);
      UndoArms(g, arms.rest, subject, x1, s1, depth, fuel, t, funcs, at, d, k);
      UndoProgram(g, arms.body, x, s1, depth, fuel, t, funcs, at, d, k);
      var r := EvalProgram(g, arms.body, x, s1, depth, fuel);
      if r.Ok? {
        StaysIn(t, s, r.s, at);
        UndoArms(g, arms.rest, subject, x1, r.s, depth, fuel, t, funcs, at, d, k);
      }
    }
  }

  lemma {:induction false} UndoPipe(g: Script, negated: bool, c: Cmd, x: Static, s: State, depth: nat, fuel: nat, t: Tables,
                                   funcs: iset<R.Fds>, at: iset<R.Fds>, d: nat, k: nat)
    requires Orderly(g, x, t, funcs) && WfCmd(c, x, d) && KindCmd(g.h, c, Contained, x.flags, k) && FdsCmd(funcs, c, at) && TableIn(t, s, at)
    ensures Undone(t, s, EvalPipe(g, negated, c, x, s, depth, fuel))
    decreases fuel, c, 3
  {
    hide Orderly, TableIn, EvalCmd, WfCmd, KindCmd, FdsCmd;
    StaysIn(t, s, Suppress(s), at);
    UndoCmd(g, c, x, if negated then Suppress(s) else s, depth, fuel, t, funcs, at, d, k);
  }

  lemma {:induction false} UndoLinks(g: Script, isAnd: bool, a: AndOr, x: Static, s: State, depth: nat, fuel: nat, t: Tables,
                                   funcs: iset<R.Fds>, at: iset<R.Fds>, d: nat, k: nat)
    requires Orderly(g, x, t, funcs) && WfAndOr(a, x, d) && KindAndOr(g.h, a, Contained, x.flags, k) && FdsAndOr(funcs, a, at) && TableIn(t, s, at)
    ensures Undone(t, s, EvalLinks(g, isAnd, a, x, s, depth, fuel))
    decreases fuel, a, 3
  {
    hide Orderly, TableIn, EvalAndOr, WfCmd, KindCmd, FdsCmd, ShapeMember;
    if isAnd == (s.status == 0) {
      UndoAndOr(g, a, x, s, depth, fuel, t, funcs, at, d, k);
    } else if a.Link? {
      OrderlyLaws(g, x, t, funcs);
      UndoLinks(g, a.isAnd, a.rest, x.With(ShapeMember(a, x).names), s, depth, fuel, t, funcs, at, d, k);
    }
  }

  lemma {:induction false} UndoAndOr(g: Script, a: AndOr, x: Static, s: State, depth: nat, fuel: nat, t: Tables,
                                   funcs: iset<R.Fds>, at: iset<R.Fds>, d: nat, k: nat)
    requires Orderly(g, x, t, funcs) && WfAndOr(a, x, d) && KindAndOr(g.h, a, Contained, x.flags, k) && FdsAndOr(funcs, a, at) && TableIn(t, s, at)
    ensures Undone(t, s, EvalAndOr(g, a, x, s, depth, fuel))
    decreases fuel, a, 2
  {
    hide Orderly, TableIn, EvalPipe, EvalLinks, WfCmd, KindCmd, FdsCmd, ShapeMember;
    StaysIn(t, s, Suppress(s), at);
    UndoPipe(g, a.negated, a.cmd, x, if a.Link? then Suppress(s) else s, depth, fuel, t, funcs, at, d, k);
    var r := EvalMember(g, a, x, s, depth, fuel);
    if r.Ok? && a.Link? {
      OrderlyLaws(g, x, t, funcs);
      StaysIn(t, s, r.s, at);
      UndoLinks(g, a.isAnd, a.rest, x.With(ShapeMember(a, x).names), r.s, depth, fuel, t, funcs, at, d, k);
    }
  }

  lemma {:induction false} UndoProgram(g: Script, p: Program, x: Static, s: State, depth: nat, fuel: nat, t: Tables,
                                   funcs: iset<R.Fds>, at: iset<R.Fds>, d: nat, k: nat)
    requires Orderly(g, x, t, funcs) && WfProgram(p, x, d) && KindProgram(g.h, p, Contained, x.flags, k) && FdsProgram(funcs, p, at) && TableIn(t, s, at)
    ensures Undone(t, s, EvalProgram(g, p, x, s, depth, fuel))
    decreases fuel, p, 0
  {
    hide Orderly, TableIn, EvalAndOr, WfAndOr, KindAndOr, FdsAndOr, ShapeAndOr;
    if p.Then? {
      UndoAndOr(g, p.head, x, s, depth, fuel, t, funcs, at, d, k);
      var r := EvalAndOr(g, p.head, x, s, depth, fuel);
      if r.Ok? {
        OrderlyLaws(g, x, t, funcs);
        StaysIn(t, s, r.s, at);
        UndoProgram(g, p.tail, x.With(ShapeAndOr(p.head, x).names), r.s, depth, fuel, t, funcs, at, d, k);
      }
    }
  }
}
