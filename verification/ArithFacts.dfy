/** What every evaluation keeps, on every text and in every environment. */
module ArithFacts {
  import opened Int64
  import opened Scopes
  import opened Arith

  /** `w` is what is left of `u` after some of it has been read. */
  predicate IsTail(w: string, u: string) {
    |w| <= |u| && w == u[|u| - |w|..]
  }

  lemma TailTrans(w: string, v: string, u: string)
    requires IsTail(w, v) && IsTail(v, u)
    ensures IsTail(w, u)
  {
  }

  lemma TailDrop(w: string, u: string, n: nat)
    requires n <= |u| && IsTail(w, u[n..])
    ensures IsTail(w, u)
  {
    TailTrans(w, u[n..], u);
  }

  lemma {:induction false} TailSkip(u: string)
    ensures IsTail(Skip(u), u)
    decreases |u|
  {
    if u != "" && IsBlank(u[0]) {
      TailSkip(u[1..]);
      TailDrop(Skip(u), u, 1);
    }
  }

  lemma {:induction false} TailDigits(u: string, base: nat, acc: nat)
    ensures IsTail(Digits(u, base, acc).rest, u)
    decreases |u|
  {
    if u != "" && DigitIn(u[0], base) != base {
      TailDigits(u[1..], base, acc * base + DigitIn(u[0], base));
      TailDrop(Digits(u, base, acc).rest, u, 1);
    }
  }

  lemma TailNumber(u: string)
    requires IsDigit(Ch(u, 0))
    ensures IsTail(Number(u).rest, u)
  {
    TailDigits(u[1..], 8, 0);
    TailDigits(u[1..], 10, (u[0] - '0') as nat);
    if |u| >= 2 { TailDigits(u[2..], 16, 0); }
    var r := Number(u).rest;
    if IsTail(r, u[1..]) { TailDrop(r, u, 1); } else { TailDrop(r, u, 2); }
  }

  /**
   The cursor only moves forward within the text; a skipped expression does not touch the environment; an error
   is never forgotten; scopes are neither opened nor closed.
   */
  ghost predicate Facts(s: St, o: Out, x: bool) {
    && IsTail(o.s.u, s.u)
    && (x ==> o.s.env == s.env)
    && (s.err != NoErr ==> o.s.err != NoErr)
    && |o.s.env| == |s.env|
  }

  lemma FactsAfter(s: St, s1: St, o: Out, x: bool)
    requires IsTail(s1.u, s.u) && |s1.env| == |s.env| && (x ==> s1.env == s.env)
    requires s.err != NoErr ==> s1.err != NoErr
    requires Facts(s1, o, x)
    ensures Facts(s, o, x)
  {
    TailTrans(o.s.u, s1.u, s.u);
  }

  lemma {:induction false} FactsParse(k: nat, s: St, d: nat, x: bool)
    requires k <= UNARY && d <= MAX_DEPTH
    ensures Facts(s, Parse(k, s, d, x), x)
    decreases MAX_DEPTH - d, |s.u|, UNARY + 1 - k, 1
  {
    hide Unary, Rest, Choose, Facts;
    if k == UNARY {
      FactsUnary(s, d, x);
    } else {
      var o := Parse(k + 1, s, d, x);
      FactsParse(k + 1, s, d, x);
      if k == COND { FactsChoose(o.v, o.s, d, x); } else { FactsRest(k, o.v, o.s, d, x); }
      FactsJoin(s, o, Parse(k, s, d, x), x);
    }
  }

  lemma FactsJoin(s: St, o: Out, p: Out, x: bool)
    requires Facts(s, o, x) && Facts(o.s, p, x)
    ensures Facts(s, p, x)
  {
    TailTrans(p.s.u, o.s.u, s.u);
  }

  lemma {:induction false} FactsRest(k: nat, left: int, s: St, d: nat, x: bool)
    requires k <= MUL && k != COND && d <= MAX_DEPTH && In64(left)
    ensures Facts(s, Rest(k, left, s, d, x), x)
    decreases MAX_DEPTH - d, |s.u|, UNARY + 1 - k, 0
  {
    hide Parse, Apply, OpAt, Rest, IsTail, Skips, Skip;
    TailSkip(s.u);
    var u := Skip(s.u);
    var op := OpAt(k, u);
    if s.err != NoErr || op == "" {
      RestEnds(k, left, s, d, x);
    } else {
      var s1 := s.(u := u[|op|..]);
      var x1 := x || Skips(op, left);
      var o := Parse(k + 1, s1, d, x1);
      FactsParse(k + 1, s1, d, x1);
      TailOfSkip(s1.u, s.u, |op|);
      FactsAfter(s, s1, o, x);
      RestIs(k, left, s, d, x);
      if !(Divides(op) && o.v == 0) {
        var v := Apply(op, left, o.v);
        FactsRest(k, v, o.s, d, x);
        FactsJoin(s, o, Rest(k, v, o.s, d, x), x);
      }
    }
  }

  lemma RestEnds(k: nat, left: int, s: St, d: nat, x: bool)
    requires k <= MUL && k != COND && d <= MAX_DEPTH && In64(left)
    requires s.err != NoErr || OpAt(k, Skip(s.u)) == ""
    ensures Rest(k, left, s, d, x) == Out(left, s.(u := Skip(s.u)))
  {
  }

  lemma TailOfSkip(w: string, u: string, n: nat)
    requires n <= |Skip(u)| && w == Skip(u)[n..]
    ensures IsTail(w, u)
  {
    TailSkip(u);
    TailTrans(w, Skip(u), u);
  }

  lemma RestIs(k: nat, left: int, s: St, d: nat, x: bool)
    requires k <= MUL && k != COND && d <= MAX_DEPTH && In64(left)
    requires s.err == NoErr && OpAt(k, Skip(s.u)) != ""
    ensures var u := Skip(s.u);
            var op := OpAt(k, u);
            var o := Parse(k + 1, s.(u := u[|op|..]), d, x || Skips(op, left));
            Rest(k, left, s, d, x)
            == if Divides(op) && o.v == 0 then Out(0, if x then o.s else o.s.(err := DivZero))
               else Rest(k, Apply(op, left, o.v), o.s, d, x)
  {
  }

  lemma {:induction false} FactsChoose(cond: int, s: St, d: nat, x: bool)
    requires d <= MAX_DEPTH && In64(cond)
    ensures Facts(s, Choose(cond, s, d, x), x)
    decreases MAX_DEPTH - d, |s.u|, UNARY + 1 - COND, 0
  {
    hide Parse;
    TailSkip(s.u);
    var u := Skip(s.u);
    if s.err == NoErr && Ch(u, 0) == '?' {
      hide IsTail;
      var s1 := s.(u := u[1..]);
      var x1 := x || cond == 0;
      var t := Parse(COND, s1, d, x1);
      FactsParse(COND, s1, d, x1);
      TailOfSkip(s1.u, s.u, 1);
      FactsAfter(s, s1, t, x);
      var w := Skip(t.s.u);
      if Ch(w, 0) == ':' {
        var s2 := t.s.(u := w[1..]);
        var f := Parse(COND, s2, d, x || cond != 0);
        FactsParse(COND, s2, d, x || cond != 0);
        TailOfSkip(s2.u, t.s.u, 1);
        FactsAfter(t.s, s2, f, x);
        FactsJoin(s, t, f, x);
      } else {
        TailSkip(t.s.u);
        TailTrans(w, t.s.u, s.u);
      }
    }
  }

  lemma {:induction false} FactsUnary(s: St, d: nat, x: bool)
    requires d <= MAX_DEPTH
    ensures Facts(s, Unary(s, d, x), x)
    decreases MAX_DEPTH - d, |s.u|, 1, 0
  {
    hide Primary, PreStep;
    TailSkip(s.u);
    var u := Skip(s.u);
    var a, b := Ch(u, 0), Ch(u, 1);
    if s.err == NoErr {
      if (a == '+' && b != '+' && b != '=') || (a == '-' && b != '-' && b != '=') || a == '!' || a == '~' {
        var s1 := s.(u := u[1..]);
        FactsUnary(s1, d, x);
        TailOfSkip(s1.u, s.u, 1);
        FactsAfter(s, s1, Unary(s1, d, x), x);
      } else if (a == '+' || a == '-') && b == a {
        var s1 := s.(u := Skip(u[2..]));
        var step := if a == '+' then 1 else -1;
        FactsPreStep(step, s1, d, x);
        TailOfSkip(u[2..], s.u, 2);
        TailSkip(u[2..]);
        TailTrans(s1.u, u[2..], s.u);
        FactsAfter(s, s1, PreStep(step, s1, d, x), x);
      } else {
        FactsPrimary(s.(u := u), d, x);
        FactsAfter(s, s.(u := u), Primary(s.(u := u), d, x), x);
      }
    }
  }

  lemma {:induction false} FactsPreStep(step: int, s: St, d: nat, x: bool)
    requires d <= MAX_DEPTH && -1 <= step <= 1
    ensures Facts(s, PreStep(step, s, d, x), x)
    decreases MAX_DEPTH - d, |s.u|, 0, 1
  {
    hide Resolve;
    if IdentStart(Ch(s.u, 0)) {
      var n := IdentLen(s.u);
      FactsResolve(s.u[..n], s.(u := s.u[n..]), d, x);
    }
  }

  lemma {:induction false} FactsPrimary(s: St, d: nat, x: bool)
    requires d <= MAX_DEPTH
    ensures Facts(s, Primary(s, d, x), x)
    decreases MAX_DEPTH - d, |s.u|, 0, 2
  {
    hide Parse, Named, Number;
    TailSkip(s.u);
    var u := Skip(s.u);
    if s.err == NoErr {
      hide IsTail;
      if Ch(u, 0) == '(' {
        var s1 := s.(u := u[1..]);
        var o := Parse(0, s1, d, x);
        FactsParse(0, s1, d, x);
        TailOfSkip(s1.u, s.u, 1);
        FactsAfter(s, s1, o, x);
        var w := Skip(o.s.u);
        TailSkip(o.s.u);
        if Ch(w, 0) == ')' { TailOfSkip(w[1..], o.s.u, 1); }
        TailTrans(Primary(s, d, x).s.u, o.s.u, s.u);
      } else if IsDigit(Ch(u, 0)) {
        TailNumber(u);
        TailTrans(Number(u).rest, u, s.u);
      } else if IdentStart(Ch(u, 0)) {
        var n := IdentLen(u);
        var s1 := s.(u := Skip(u[n..]));
        FactsNamed(u[..n], s1, d, x);
        TailOfSkip(u[n..], s.u, n);
        TailSkip(u[n..]);
        TailTrans(s1.u, u[n..], s.u);
        FactsAfter(s, s1, Named(u[..n], s1, d, x), x);
      }
    }
  }

  lemma {:induction false} FactsNamed(name: string, s: St, d: nat, x: bool)
    requires d <= MAX_DEPTH
    ensures Facts(s, Named(name, s, d, x), x)
    decreases MAX_DEPTH - d, |s.u|, 0, 1
  {
    hide Parse, Resolve, ApplyAssign, AssignOpAt, IsTail, Store;
    var a, b := Ch(s.u, 0), Ch(s.u, 1);
    var op := AssignOpAt(s.u);
    if (a == '+' || a == '-') && b == a {
      var s1 := s.(u := s.u[2..]);
      FactsResolve(name, s1, d, x);
      TailSuffix(s.u, 2);
      FactsAfter(s, s1, Resolve(name, s1, d, x), x);
    } else if a == '=' && b != '=' {
      var s1 := s.(u := s.u[1..]);
      FactsParse(COND, s1, d, x);
      TailSuffix(s.u, 1);
      FactsAfter(s, s1, Parse(COND, s1, d, x), x);
    } else if op != "" {
      var s1 := s.(u := s.u[|op| + 1..]);
      var l := Resolve(name, s1, d, x);
      var o := Parse(COND, l.s, d, x);
      FactsResolve(name, s1, d, x);
      FactsParse(COND, l.s, d, x);
      FactsJoin(s1, l, o, x);
      TailSuffix(s.u, |op| + 1);
      FactsAfter(s, s1, o, x);
    } else {
      FactsResolve(name, s, d, x);
    }
  }

  lemma TailSuffix(u: string, n: nat)
    requires n <= |u|
    ensures IsTail(u[n..], u)
  {
  }

  lemma {:induction false} FactsResolve(name: string, s: St, d: nat, x: bool)
    requires d <= MAX_DEPTH
    ensures Facts(s, Resolve(name, s, d, x), x)
    decreases MAX_DEPTH - d, |s.u|, 0, 0
  {
    hide Parse;
    var text := TextOf(s.env, name);
    if d < MAX_DEPTH && Ch(text, 0) != '\0' { FactsParse(0, St(text, s.env, NoErr), d + 1, x); }
  }

  // ---- the results ----

  /** Reading in noexec mode, at any level and through variables, leaves the environment as it is. */
  lemma SkippedIsPure(k: nat, s: St, d: nat)
    requires k <= UNARY && d <= MAX_DEPTH
    ensures Parse(k, s, d, true).s.env == s.env
  {
    FactsParse(k, s, d, true);
  }

  /** So the right operand of `&&` after 0, and of `||` after anything else, is read but not executed. */
  lemma ShortCircuitPure(k: nat, left: int, s: St, d: nat, x: bool)
    requires k <= MUL && k != COND && d <= MAX_DEPTH && In64(left)
    requires var op := OpAt(k, Skip(s.u)); op != "" && Skips(op, left)
    ensures var u := Skip(s.u);
            Parse(k + 1, s.(u := u[|OpAt(k, u)|..]), d, x || Skips(OpAt(k, u), left)).s.env == s.env
  {
    hide Parse, OpAt, Skip;
    var u := Skip(s.u);
    SkippedIsPure(k + 1, s.(u := u[|OpAt(k, u)|..]), d);
  }

  /** Evaluation reads a prefix of the text and keeps the number of scopes. */
  lemma CursorInside(text: string, env: Chain)
    ensures IsTail(Parse(0, St(Skip(text), env, NoErr), 0, false).s.u, text)
    ensures |ArithEval(text, env).env| == |env|
  {
    hide Parse;
    FactsParse(0, St(Skip(text), env, NoErr), 0, false);
    TailSkip(text);
    TailTrans(Parse(0, St(Skip(text), env, NoErr), 0, false).s.u, Skip(text), text);
  }
}
