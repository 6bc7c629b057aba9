/**
 `break` and `continue` as they are written: which words they are, which counts they take, and how many loops they leave,
 said of whole loops and without the functions that compiler, meaning and ledger share.
 */
module LoopCounts {
  import opened Bytes
  import opened Ast
  import opened Vm
  import opened Emit
  import opened Semantics
  import opened Runs
  import opened Words
  import opened Wellformed
  import opened Accepts
  import opened Programs
  import opened Quoting

  // ---- the count ----

  predicate AllDigits(t: string) {
    forall i :: 0 <= i < |t| ==> '0' <= t[i] <= '9'
  }

  /** The number a string of decimal digits stands for, from its last digit on. */
  function Value(t: string): nat
    requires AllDigits(t)
    decreases |t|
  {
    if t == "" then 0 else 10 * Value(t[..|t| - 1]) + (t[|t| - 1] - '0') as nat
  }

  predicate Blank(t: string) {
    forall i :: 0 <= i < |t| ==> t[i] in " \t\n\r\U{0b}\U{0c}"
  }

  /** Blanks, a sign that is not negative, and digits. */
  predicate Reads(t: string, blanks: string, sign: string, digits: string) {
    t == blanks + (sign + digits) && Blank(blanks) && sign in ["", "+"] && digits != "" && AllDigits(digits)
  }

  lemma {:induction false} DigitsSnoc(t: string, c: char, acc: nat)
    requires AllDigits(t) && '0' <= c <= '9'
    ensures Digits(t + [c], acc) == 10 * Digits(t, acc) + (c - '0') as nat
    decreases |t|
  {
    if t == "" {
      assert t + [c] == [c] && [c][1..] == "";
    } else {
      assert (t + [c])[1..] == t[1..] + [c];
      DigitsSnoc(t[1..], c, 10 * acc + (t[0] - '0') as nat);
    }
  }

  lemma {:induction false} DigitsValue(t: string)
    requires AllDigits(t)
    ensures Digits(t, 0) == Value(t)
    decreases |t|
  {
    if t != "" {
      var most := t[..|t| - 1];
      DigitsValue(most);
      DigitsSnoc(most, t[|t| - 1], 0);
      assert t == most + [t[|t| - 1]];
    }
  }

  lemma {:induction false} CountValue(t: string, blanks: string, sign: string, digits: string)
    requires Reads(t, blanks, sign, digits)
    ensures CountOf(t) == Value(digits)
    decreases |blanks|
  {
    DigitsValue(digits);
    if blanks != "" {
      assert t[1..] == blanks[1..] + (sign + digits);
      CountValue(t[1..], blanks[1..], sign, digits);
    } else if sign == "" {
      assert t == digits;
    } else {
      assert t[0] == '+' && t[1..] == digits;
    }
  }

  lemma {:induction false} DigitsOnly(t: string, acc: nat)
    requires Digits(t, acc) > 0 && t != ""
    ensures AllDigits(t)
    decreases |t|
  {
    if |t| > 1 { DigitsOnly(t[1..], 10 * acc + (t[0] - '0') as nat); }
  }

  lemma {:induction false} CountShape(t: string) returns (blanks: string, sign: string, digits: string)
    requires CountOf(t) > 0
    ensures Reads(t, blanks, sign, digits)
    decreases |t|
  {
    if t[0] in " \t\n\r\U{0b}\U{0c}" {
      blanks, sign, digits := CountShape(t[1..]);
      blanks := [t[0]] + blanks;
      assert t == blanks + (sign + digits);
    } else if t[0] == '+' {
      blanks, sign, digits := "", "+", t[1..];
      DigitsOnly(digits, 0);
      assert t == blanks + (sign + digits);
    } else {
      blanks, sign, digits := "", "", t;
      DigitsOnly(digits, 0);
      assert t == blanks + (sign + digits);
    }
  }

  // ---- the commands ----

  function JumpWord(isBreak: bool): string {
    if isBreak then "break" else "continue"
  }

  /** The command `break` or `continue`. */
  function Bare(isBreak: bool, quoted: bool): Cmd {
    Simple([], [], [[Lit(JumpWord(isBreak), quoted)]])
  }

  /** The command with a count behind it. */
  function Counted(isBreak: bool, t: string): Cmd {
    Simple([], [], [[Lit(JumpWord(isBreak), false)], [Lit(t, false)]])
  }

  /** The command asks for `n` loops. */
  ghost predicate Asks(c: Cmd, isBreak: bool, n: nat) {
    n >= 1
    && ((n == 1 && exists quoted :: c == Bare(isBreak, quoted))
        || exists t, blanks, sign, digits :: c == Counted(isBreak, t) && Reads(t, blanks, sign, digits) && Value(digits) == n)
  }

  function Min(m: nat, n: nat): nat {
    if m < n then m else n
  }

  /** A jump that has `k` loops to leave before the one it is aimed at. */
  function Leaving(isBreak: bool, k: nat, s: State): Res {
    if isBreak then Brk(k, s) else Cont(k, s)
  }

  lemma AsksIntercept(c: Cmd, isBreak: bool, n: nat)
    requires Asks(c, isBreak, n)
    ensures c.Simple? && Intercept(c.words) == Jump(isBreak, n)
  {
    if n == 1 && exists quoted :: c == Bare(isBreak, quoted) {
      var quoted :| c == Bare(isBreak, quoted);
    } else {
      var t, blanks, sign, digits :| c == Counted(isBreak, t) && Reads(t, blanks, sign, digits) && Value(digits) == n;
      CountValue(t, blanks, sign, digits);
      hide CountOf;
      assert IsNamed(c.words, JumpWord(isBreak)) && IsLiteral(c.words[1]);
    }
  }

  /**
   In a program, the command leaves the loop `n` levels out, or the outermost one, and what stands behind it does not run. A
   `continue` aimed at a while- or until-loop runs the program again.
   */
  lemma JumpMeans(g: Script, c: Cmd, isBreak: bool, n: nat, tail: Program, x: Static, s: State, depth: nat, fuel: nat)
    requires Asks(c, isBreak, n) && |x.flags| > 0
    ensures var m := Min(n, |x.flags|);
            var r := EvalProgram(g, Then(Last(false, c), tail), x, s, depth, fuel);
            r == if isBreak || x.flags[|x.flags| - m] then Leaving(isBreak, m - 1, s) else EvalRestart(g, c, s, depth, fuel)
  {
    AsksIntercept(c, isBreak, n);
    hide Intercept, Asks, EvalRestart;
    var m := Min(n, |x.flags|);
    var r := EvalSimple(g, c, x, s, depth, fuel);
    assert r == if isBreak || x.flags[|x.flags| - m] then Leaving(isBreak, m - 1, s) else EvalRestart(g, c, s, depth, fuel);
    hide EvalSimple;
    RestartLeaves(g, c, s, depth, fuel);
    SingleCommand(g, c, tail, x, s, depth, fuel);
  }

  /** Running the program again never comes back to what follows. */
  lemma RestartLeaves(g: Script, c: Cmd, s: State, depth: nat, fuel: nat)
    ensures !EvalRestart(g, c, s, depth, fuel).Ok?
  {
    hide EvalProgram;
  }

  lemma SingleCommand(g: Script, c: Cmd, tail: Program, x: Static, s: State, depth: nat, fuel: nat)
    requires c.Simple?
    ensures var r := EvalSimple(g, c, x, s, depth, fuel);
            !r.Ok? ==> EvalProgram(g, Then(Last(false, c), tail), x, s, depth, fuel) == r
  {
    hide EvalSimple;
    var r := EvalSimple(g, c, x, s, depth, fuel);
    assert EvalCmd(g, c, x, s, depth, fuel) == r;
    LoneCommand(g, c, tail, x, s, depth, fuel);
  }

  lemma LoneCommand(g: Script, c: Cmd, tail: Program, x: Static, s: State, depth: nat, fuel: nat)
    ensures var r := EvalCmd(g, c, x, s, depth, fuel);
            && (!r.Ok? ==> EvalProgram(g, Then(Last(false, c), tail), x, s, depth, fuel) == r)
            && (tail.Nil? ==> EvalProgram(g, Then(Last(false, c), tail), x, s, depth, fuel) == r)
  {
    hide EvalCmd;
    var a := Last(false, c);
    assert EvalPipe(g, false, c, x, s, depth, fuel) == EvalCmd(g, c, x, s, depth, fuel);
    assert EvalMember(g, a, x, s, depth, fuel) == EvalPipe(g, false, c, x, s, depth, fuel);
    assert EvalAndOr(g, a, x, s, depth, fuel) == EvalMember(g, a, x, s, depth, fuel);
  }

  // ---- one loop over any words ----

  /** The world after the variable was set to each of the values in turn. */
  function SetEach(h: Host, name: string, values: seq<string>, w: World): World
    decreases |values|
  {
    if values == [] then w else SetEach(h, name, values[1..], h.setVar(name, values[0], w))
  }

  lemma {:induction false} ContinueEach(g: Script, c: Cmd, args: seq<string>, x: Static, s: State, depth: nat, fuel: nat)
    requires c.For? && forall s1 :: EvalProgram(g, c.body, x.InLoop(true), s1, depth, fuel) == Cont(0, s1)
    ensures EvalFor(g, c, args, x, s, depth, fuel) == Ok(s.(w := SetEach(g.h, c.name, args, s.w)))
    decreases |args|
  {
    hide EvalProgram;
    if args != [] { ContinueEach(g, c, args[1..], x, s.(w := g.h.setVar(c.name, args[0], s.w)), depth, fuel); }
  }

  /**
   A for-loop over any list that is not empty: with the word `break` as the first command of its body the body is begun
   once, with `continue` once for each item; nothing behind the word runs, and the loop goes on to the command after it.
   */
  lemma FirstCommandJumps(g: Script, name: string, items: seq<Word>, isBreak: bool, quoted: bool, tail: Program,
                          x: Static, s: State, depth: nat, fuel: nat)
    requires 0 < |Items(g.h, items, x.locals, s)| <= 1024
    ensures var args := Items(g.h, items, x.locals, s);
            var c := For(name, items, Then(Last(false, Bare(isBreak, quoted)), tail));
            EvalCmd(g, c, x, s, depth, fuel) == Ok(s.(w := SetEach(g.h, name, if isBreak then args[..1] else args, s.w)))
  {
    var args := Items(g.h, items, x.locals, s);
    var jump := Bare(isBreak, quoted);
    var c := For(name, items, Then(Last(false, jump), tail));
    assert Asks(jump, isBreak, 1);
    hide Asks, Items;
    forall s1 ensures EvalProgram(g, c.body, x.InLoop(true), s1, depth, fuel) == Leaving(isBreak, 0, s1) {
      JumpMeans(g, jump, isBreak, 1, tail, x.InLoop(true), s1, depth, fuel);
    }
    hide EvalProgram;
    assert EvalCmd(g, c, x, s, depth, fuel) == EvalFor(g, c, args, x, s, depth, fuel);
    if isBreak {
      var w1 := g.h.setVar(name, args[0], s.w);
      assert EvalFor(g, c, args, x, s, depth, fuel) == LeaveLoop(Brk(0, s.(w := w1)));
      assert args[..1][1..] == [] && args[..1][0] == args[0];
      assert SetEach(g.h, name, args[..1], s.w) == SetEach(g.h, name, args[..1][1..], w1) == w1;
    } else {
      ContinueEach(g, c, args, x, s, depth, fuel);
    }
  }

  /** A while- or until-loop whose body begins with the word `break` evaluates its condition once and keeps its status. */
  lemma BreakLeavesWhile(g: Script, until: bool, cond: Program, quoted: bool, tail: Program, x: Static, s: State, depth: nat, fuel: nat)
    requires EvalGuard(g, cond, x, s, depth, fuel).Ok?
    ensures var s1 := EvalGuard(g, cond, x, s, depth, fuel).s;
            EvalCmd(g, While(until, cond, Then(Last(false, Bare(true, quoted)), tail)), x, s, depth, fuel)
            == Ok(if (s1.status == 0) == until then s1.(status := 0) else s1)
  {
    var jump := Bare(true, quoted);
    var c := While(until, cond, Then(Last(false, jump), tail));
    var s1 := EvalGuard(g, cond, x, s, depth, fuel).s;
    assert Asks(jump, true, 1);
    hide Asks;
    JumpMeans(g, jump, true, 1, tail, WhileBodyStatic(c, x), s1, depth, fuel);
    hide EvalProgram, EvalGuard, WhileBodyStatic;
    assert EvalLoop(g, c, x, s1, depth, fuel) == Ok(s1);
  }

  // ---- nested loops ----

  /** A for-loop over spelled-out items. */
  datatype Level = Level(name: string, texts: seq<string>)

  predicate WfLevels(levels: seq<Level>) {
    forall i :: 0 <= i < |levels| ==> 0 < |levels[i].texts| <= 1024
  }

  function ItemWords(texts: seq<string>): (r: seq<Word>)
    ensures |r| == |texts|
  {
    seq(|texts|, i requires 0 <= i < |texts| => [Lit(texts[i], true)])
  }

  function LoopOver(levels: seq<Level>, inner: Program): Cmd
    requires levels != []
    decreases |levels|, 0
  {
    For(levels[0].name, ItemWords(levels[0].texts), Nest(levels[1..], inner))
  }

  /** Loops inside each other, the first one outermost. */
  function Nest(levels: seq<Level>, inner: Program): Program
    decreases |levels|, 1
  {
    if levels == [] then inner else Then(Last(false, LoopOver(levels, inner)), Nil)
  }

  /**
   The world after the `kept` outermost loops have gone through all of their items, and each loop inside them has begun just
   one round whenever it was reached.
   */
  function Rounds(h: Host, levels: seq<Level>, kept: nat, w: World): World
    requires WfLevels(levels)
    decreases |levels|, 1
  {
    if levels == [] then w
    else RoundsOf(h, levels, if kept > 0 then levels[0].texts else levels[0].texts[..1], kept, w)
  }

  function RoundsOf(h: Host, levels: seq<Level>, texts: seq<string>, kept: nat, w: World): World
    requires levels != [] && WfLevels(levels)
    decreases |levels|, 0, |texts|
  {
    if texts == [] then w
    else
      var w1 := Rounds(h, levels[1..], if kept > 0 then kept - 1 else 0, h.setVar(levels[0].name, texts[0], w));
      RoundsOf(h, levels, texts[1..], kept, w1)
  }

  lemma LiteralItems(h: Host, texts: seq<string>, locals: set<string>, s: State)
    requires texts != []
    ensures Items(h, ItemWords(texts), locals, s) == texts
  {
    var ws := ItemWords(texts);
    QuotedArgv(h, ws, false, locals, s);
    hide Argv, Text;
    forall i | 0 <= i < |texts| ensures Argv(h, ws, false, locals, s)[i] == texts[i] { LiteralText(h, texts[i], locals, s); }
  }

  lemma LiteralText(h: Host, text: string, locals: set<string>, s: State)
    ensures Text(h, [Lit(text, true)], locals, s) == text
  {
    var w := [Lit(text, true)];
    assert w[..|w| - 1] == [];
    assert Text(h, w, locals, s) == Text(h, [], locals, s) + text == "" + text;
  }

  function Deeper(x: Static, n: nat): Static {
    x.(flags := x.flags + seq(n, i => true))
  }

  /** How many of `r` loops go through all their items when a jump inside them leaves `m`, and what becomes of the jump. */
  function Kept(isBreak: bool, m: nat, r: nat): nat {
    if m > r then 0 else if isBreak then r - m else r - m + 1
  }

  function Passed(isBreak: bool, m: nat, r: nat, s: State): Res
    requires m >= 1
  {
    if m <= r then Ok(s) else Leaving(isBreak, m - 1 - r, s)
  }

  lemma {:induction false} NestRuns(g: Script, levels: seq<Level>, inner: Program, isBreak: bool, m: nat, x: Static, s: State,
                                    depth: nat, fuel: nat)
    requires WfLevels(levels) && m >= 1
    requires forall s1 :: EvalProgram(g, inner, Deeper(x, |levels|), s1, depth, fuel) == Leaving(isBreak, m - 1, s1)
    ensures EvalProgram(g, Nest(levels, inner), x, s, depth, fuel)
            == Passed(isBreak, m, |levels|, s.(w := Rounds(g.h, levels, Kept(isBreak, m, |levels|), s.w)))
    decreases |levels|, 1, 0
  {
    hide EvalProgram, Items;
    if levels == [] {
      assert Deeper(x, 0) == x;
    } else {
      var c := LoopOver(levels, inner);
      var texts, kept := levels[0].texts, Kept(isBreak, m, |levels|);
      LoneCommand(g, c, Nil, x, s, depth, fuel);
      LiteralItems(g.h, texts, x.locals, s);
      assert EvalCmd(g, c, x, s, depth, fuel) == EvalFor(g, c, texts, x, s, depth, fuel);
      hide EvalCmd, EvalFor;
      LoopRuns(g, levels, texts, inner, isBreak, m, x, s, depth, fuel);
    }
  }

  lemma {:induction false} LoopRuns(g: Script, levels: seq<Level>, texts: seq<string>, inner: Program, isBreak: bool, m: nat,
                                    x: Static, s: State, depth: nat, fuel: nat)
    requires levels != [] && WfLevels(levels) && m >= 1 && (texts != [] || Kept(isBreak, m, |levels|) > 0)
    requires forall s1 :: EvalProgram(g, inner, Deeper(x, |levels|), s1, depth, fuel) == Leaving(isBreak, m - 1, s1)
    ensures var kept := Kept(isBreak, m, |levels|);
            EvalFor(g, LoopOver(levels, inner), texts, x, s, depth, fuel)
            == Passed(isBreak, m, |levels|,
                      s.(w := RoundsOf(g.h, levels, if kept > 0 then texts else texts[..1], kept, s.w)))
    decreases |levels|, 0, |texts|
  {
    hide EvalProgram, Rounds;
    var kept, c := Kept(isBreak, m, |levels|), LoopOver(levels, inner);
    if texts != [] {
      var s1 := s.(w := g.h.setVar(c.name, texts[0], s.w));
      DeeperInside(x, |levels|);
      NestRuns(g, levels[1..], inner, isBreak, m, x.InLoop(true), s1, depth, fuel);
      var w2 := Rounds(g.h, levels[1..], Kept(isBreak, m, |levels| - 1), s1.w);
      assert Kept(isBreak, m, |levels| - 1) == if kept > 0 then kept - 1 else 0;
      if kept > 0 {
        LoopRuns(g, levels, texts[1..], inner, isBreak, m, x, s1.(w := w2), depth, fuel);
      } else {
        assert texts[..1][1..] == [];
        assert RoundsOf(g.h, levels, [], kept, w2) == w2;
        assert RoundsOf(g.h, levels, texts[..1], kept, s.w) == RoundsOf(g.h, levels, texts[..1][1..], kept, w2);
      }
    }
  }

  lemma DeeperInside(x: Static, n: nat)
    requires n > 0
    ensures Deeper(x.InLoop(true), n - 1) == Deeper(x, n)
  {
    assert [true] + seq(n - 1, i => true) == seq(n, i => true);
    assert x.flags + [true] + seq(n - 1, i => true) == x.flags + seq(n, i => true);
  }

  /**
   In nested for-loops over any items, `break n`, with n written in any of its spellings, leaves exactly min(n, d) of the d
   loops, and the d - min(n, d) others go on with their next items; `continue n` leaves one loop fewer and goes on with the
   next item of the loop it is aimed at. The status is what it was, and nothing behind the jump runs.
   */
  lemma NestLeaves(g: Script, levels: seq<Level>, c: Cmd, isBreak: bool, n: nat, tail: Program, x: Static, s: State,
                   depth: nat, fuel: nat)
    requires WfLevels(levels) && levels != [] && Asks(c, isBreak, n) && (n <= |levels| || x.flags == [])
    ensures var left := Min(n, |levels|) - (if isBreak then 0 else 1);
            EvalProgram(g, Nest(levels, Then(Last(false, c), tail)), x, s, depth, fuel)
            == Ok(s.(w := Rounds(g.h, levels, |levels| - left, s.w)))
  {
    hide EvalProgram, Asks, Rounds, WfLevels;
    var d, inner := |levels|, Then(Last(false, c), tail);
    var x1, m := Deeper(x, d), Min(n, d);
    assert n >= 1 by { AsksSome(c, isBreak, n); }
    forall s1 ensures EvalProgram(g, inner, x1, s1, depth, fuel) == Leaving(isBreak, m - 1, s1) {
      JumpMeans(g, c, isBreak, n, tail, x1, s1, depth, fuel);
      assert x1.flags[|x1.flags| - m] == seq(d, i => true)[d - m];
    }
    NestRuns(g, levels, inner, isBreak, m, x, s, depth, fuel);
  }

  lemma AsksSome(c: Cmd, isBreak: bool, n: nat)
    requires Asks(c, isBreak, n)
    ensures n >= 1
  {
  }

  // ---- the same on the machine ----

  lemma JumpFits(c: Cmd, isBreak: bool, n: nat, x: Static, d: nat)
    requires Asks(c, isBreak, n) && 0 < |x.flags| == d
    ensures WfProgram(Then(Last(false, c), Nil), x, d)
  {
    AsksIntercept(c, isBreak, n);
    hide Asks, Intercept;
    assert WfSimple(c, x, d);
    assert WfCmd(c, x, d);
    LoneFits(c, x, d);
  }

  lemma {:induction false} NestFits(levels: seq<Level>, c: Cmd, isBreak: bool, n: nat, x: Static)
    requires WfLevels(levels) && Asks(c, isBreak, n) && |x.flags| + |levels| > 0
    ensures WfProgram(Nest(levels, Then(Last(false, c), Nil)), x, |x.flags|)
    decreases |levels|
  {
    var inner := Then(Last(false, c), Nil);
    if levels == [] {
      JumpFits(c, isBreak, n, x, |x.flags|);
    } else {
      NestFits(levels[1..], c, isBreak, n, x.InLoop(true));
      hide WfProgram, Asks;
      var loop := LoopOver(levels, inner);
      assert SmallWords(loop.items);
      assert WfCmd(loop, x, |x.flags|);
      LoneFits(loop, x, |x.flags|);
    }
  }

  lemma LoneFits(c: Cmd, x: Static, d: nat)
    requires WfCmd(c, x, d)
    ensures WfProgram(Then(Last(false, c), Nil), x, d)
  {
    hide WfCmd;
  }

  /** The bytes of such a program, from any start state: the machine stops with exactly the rounds above run. */
  lemma NestOnMachine(m: Machine, levels: seq<Level>, c: Cmd, isBreak: bool, n: nat, s: State)
    requires WfLevels(levels) && levels != [] && Asks(c, isBreak, n)
    requires Loaded(m, Nest(levels, Then(Last(false, c), Nil)))
    ensures var left := Min(n, |levels|) - (if isBreak then 0 else 1);
            var w := Rounds(m.h, levels, |levels| - left, s.w);
            exists i: nat :: Run(m, Start(s), i) == Stop(s.(w := m.h.exitTrap(s.status, w)))
  {
    hide Run, Loaded, EvalProgram, WfLevels, Asks, Rounds, EmitProgram, Nest;
    var p := Nest(levels, Then(Last(false, c), Nil));
    NestLeaves(ScriptOf(m.h, p), levels, c, isBreak, n, Nil, TopLevel(m.h), s, 0, 0);
    Preservation(m, p, s, 0);
  }

  // ---- what is refused ----

  /** Inside a loop, the compiler takes a spelled-out count exactly if it is blanks, perhaps a `+`, and digits that are not all 0. */
  lemma CountTaken(isBreak: bool, t: string, x: Static)
    requires |x.flags| > 0
    ensures AcceptsCmd(Counted(isBreak, t), x)
            <==> exists blanks, sign, digits :: Reads(t, blanks, sign, digits) && Value(digits) > 0
  {
    var words := Counted(isBreak, t).words;
    assert IsNamed(words, JumpWord(isBreak)) && IsLiteral(words[1]);
    if CountOf(t) > 0 {
      var blanks, sign, digits := CountShape(t);
      CountValue(t, blanks, sign, digits);
    } else if blanks, sign, digits :| Reads(t, blanks, sign, digits) && Value(digits) > 0 {
      CountValue(t, blanks, sign, digits);
    }
  }

  lemma {:induction false} NestTaken(levels: seq<Level>, c: Cmd, isBreak: bool, n: nat, x: Static)
    requires Asks(c, isBreak, n) && |x.flags| <= 64
    ensures AcceptsProgram(Nest(levels, Then(Last(false, c), Nil)), x) <==> 0 < |x.flags| + |levels| <= 64
    decreases |levels|
  {
    var inner := Then(Last(false, c), Nil);
    if levels == [] {
      AsksIntercept(c, isBreak, n);
      hide Asks, Intercept;
      assert AcceptsCmd(c, x) == (|x.flags| > 0);
      LoneTaken(c, x);
    } else {
      var loop := LoopOver(levels, inner);
      hide AcceptsProgram, Asks;
      if |x.flags| < 64 { NestTaken(levels[1..], c, isBreak, n, x.InLoop(true)); }
      assert AcceptsCmd(loop, x) <==> |x.flags| < 64 && AcceptsProgram(loop.body, x.InLoop(true));
      LoneTaken(loop, x);
    }
  }

  lemma LoneTaken(c: Cmd, x: Static)
    ensures AcceptsProgram(Then(Last(false, c), Nil), x) == AcceptsCmd(c, x)
  {
    hide AcceptsCmd;
  }

  /** A jump is refused outside every loop, and up to 64 loops may be open around it. */
  lemma NestAccepted(h: Host, levels: seq<Level>, c: Cmd, isBreak: bool, n: nat)
    requires Asks(c, isBreak, n)
    ensures AcceptsProgram(Nest(levels, Then(Last(false, c), Nil)), TopLevel(h)) <==> 1 <= |levels| <= 64
  {
    hide AcceptsProgram, Asks, Nest;
    NestTaken(levels, c, isBreak, n, TopLevel(h));
  }

  // ---- every other command ----

  /** The first word is spelled out and is one of the words the compiler takes for itself. */
  predicate Taken(words: seq<Word>) {
    words != [] && |words[0]| == 1 && words[0][0].Lit?
    && (words[0][0].text in ["break", "continue"] || (words[0][0].text == "lib::import" && |words| >= 2))
  }

  /** A command with words, none of these, is prepared, looked up, run and finished. */
  lemma OrdinaryCommand(g: Script, c: Cmd, x: Static, s: State, depth: nat, fuel: nat)
    requires c.Simple? && c.words != [] && !Taken(c.words)
    ensures var p := Prepare(g.h, c, x.locals, s);
            EvalCmd(g, c, x, s, depth, fuel)
            == if !p.Ok? then p
               else
                 var r := EvalExec(g, c, x, Argv(g.h, c.words, true, x.locals, p.s), p.s, depth, fuel);
                 if r.Ok? then Ok(Finish(g.h, c, r.s)) else r
  {
    assert Intercept(c.words).NotIntercepted?;
    hide EvalExec, Prepare, Argv, Finish, Intercept, Taken;
    assert EvalCmd(g, c, x, s, depth, fuel) == EvalSimple(g, c, x, s, depth, fuel);
  }
}
