/**
 The evaluator as it is written: a cursor, an environment, an error and a noexec flag, updated in place by the
 parse functions as they go. Each is proved to do what its function in Arith says and to give the flag back.
 */
module ArithState {
  import opened Int64
  import opened Scopes
  import opened Arith

  class Evaluator {
    /** The text from the cursor on. */
    var pos: string
    var env: Chain
    var err: Err
    var noexec: bool
    const depth: nat

    constructor (text: string, env: Chain, depth: nat, noexec: bool)
      ensures this.pos == text && this.env == env && this.err == NoErr && this.noexec == noexec && this.depth == depth
    {
      this.pos, this.env, this.err, this.noexec, this.depth := text, env, NoErr, noexec, depth;
    }

    ghost function S(): St
      reads this
    {
      St(pos, env, err)
    }

    method SkipWs()
      modifies this`pos
      ensures pos == Skip(old(pos))
    {
      ghost var start := pos;
      while IsBlank(Ch(pos, 0))
        invariant Skip(pos) == Skip(start)
        decreases |pos|
      {
        pos := pos[1..];
      }
    }

    /** parse_ident, at the start of an identifier. */
    method ParseIdent() returns (name: string)
      modifies this`pos
      ensures var n := IdentLen(old(pos)); name == old(pos)[..n] && pos == old(pos)[n..]
    {
      ghost var start := pos;
      var n := 0;
      while n < |pos| && IdentChar(pos[n])
        invariant n <= |pos| && IdentLen(pos) == n + IdentLen(pos[n..])
      {
        n := n + 1;
      }
      name, pos := pos[..n], pos[n..];
    }

    method SetVar(name: string, v: int)
      modifies this`env
      ensures env == Store(old(env), name, v, noexec)
    {
      if !noexec && env != [] { env := Assign(env, name, Text(Show(v))); }
    }

    /** resolve_var evaluates the text of the variable with an evaluator of its own, one level deeper. */
    method ResolveVar(name: string) returns (v: int)
      requires depth <= MAX_DEPTH
      modifies this`env, this`err
      ensures Out(v, S()) == Resolve(name, old(S()), depth, noexec)
      decreases MAX_DEPTH - depth, |pos|, 0, 0
    {
      hide Parse;
      if depth == MAX_DEPTH {
        err := TooDeep;
        return 0;
      }
      var text := TextOf(env, name);
      if Ch(text, 0) == '\0' { return 0; }
      var sub := new Evaluator(text, env, depth + 1, noexec);
      v := sub.ParseLevel(0);
      env := sub.env;
      if sub.err != NoErr { err := sub.err; }
    }

    method ParsePrimary() returns (v: int)
      requires depth <= MAX_DEPTH
      modifies this`pos, this`env, this`err, this`noexec
      ensures Out(v, S()) == Primary(old(S()), depth, old(noexec)) && noexec == old(noexec)
      decreases MAX_DEPTH - depth, |pos|, 0, 2
    {
      hide Parse, Named, Number;
      SkipWs();
      if err != NoErr { return 0; }
      if Ch(pos, 0) == '(' {
        pos := pos[1..];
        v := ParseLevel(0);
        SkipWs();
        if Ch(pos, 0) == ')' { pos := pos[1..]; } else { err := Syntax; }
        return;
      }
      if IsDigit(Ch(pos, 0)) {
        var r := Number(pos);
        pos := r.rest;
        return r.n;
      }
      if IdentStart(Ch(pos, 0)) {
        var name := ParseIdent();
        SkipWs();
        v := ParseNamed(name);
        return;
      }
      if Ch(pos, 0) != '\0' { err := Syntax; }
      return 0;
    }

    /** The part of parse_primary behind a name. */
    method ParseNamed(name: string) returns (v: int)
      requires depth <= MAX_DEPTH
      modifies this`pos, this`env, this`err, this`noexec
      ensures Out(v, S()) == Named(name, old(S()), depth, old(noexec)) && noexec == old(noexec)
      decreases MAX_DEPTH - depth, |pos|, 0, 1
    {
      hide Parse, Resolve, ApplyAssign, AssignOpAt, Store;
      var a, b := Ch(pos, 0), Ch(pos, 1);
      if (a == '+' || a == '-') && b == a {
        pos := pos[2..];
        v := ResolveVar(name);
        SetVar(name, Wrap(if a == '+' then v + 1 else v - 1));
        return;
      }
      if a == '=' && b != '=' {
        pos := pos[1..];
        v := ParseLevel(COND);
        SetVar(name, v);
        return;
      }
      var op := AssignOpAt(pos);
      if op != "" { v := ParseUpdate(name, op); } else { v := ResolveVar(name); }
    }

    /** A compound assignment, once its operator is known. */
    method ParseUpdate(name: string, op: string) returns (v: int)
      requires depth <= MAX_DEPTH && op == AssignOpAt(pos) && op != ""
      requires var a, b := Ch(pos, 0), Ch(pos, 1); !((a == '+' || a == '-') && b == a) && !(a == '=' && b != '=')
      modifies this`pos, this`env, this`err, this`noexec
      ensures Out(v, S()) == Named(name, old(S()), depth, old(noexec)) && noexec == old(noexec)
      decreases MAX_DEPTH - depth, |pos|, 0, 1, 0
    {
      hide Parse, Resolve, ApplyAssign, AssignOpAt, Store;
      pos := pos[|op| + 1..];
      var lhs := ResolveVar(name);
      var rhs := ParseLevel(COND);
      if Divides(op) && rhs == 0 {
        if !noexec { err := DivZero; }
        return 0;
      }
      v := ApplyAssign(op, lhs, rhs);
      SetVar(name, v);
    }

    method ParseUnary() returns (v: int)
      requires depth <= MAX_DEPTH
      modifies this`pos, this`env, this`err, this`noexec
      ensures Out(v, S()) == Unary(old(S()), depth, old(noexec)) && noexec == old(noexec)
      decreases MAX_DEPTH - depth, |pos|, 1, 0
    {
      hide Primary, PreStep;
      SkipWs();
      if err != NoErr { return 0; }
      var a, b := Ch(pos, 0), Ch(pos, 1);
      if a == '+' && b != '+' && b != '=' {
        pos := pos[1..];
        v := ParseUnary();
      } else if a == '-' && b != '-' && b != '=' {
        pos := pos[1..];
        v := ParseUnary();
        v := Wrap(-v);
      } else if a == '!' {
        pos := pos[1..];
        v := ParseUnary();
        v := Truth(v == 0);
      } else if a == '~' {
        pos := pos[1..];
        v := ParseUnary();
        v := -v - 1;
      } else if (a == '+' || a == '-') && b == a {
        pos := pos[2..];
        SkipWs();
        v := ParsePreStep(if a == '+' then 1 else -1);
      } else {
        v := ParsePrimary();
      }
    }

    method ParsePreStep(step: int) returns (v: int)
      requires depth <= MAX_DEPTH && -1 <= step <= 1
      modifies this`pos, this`env, this`err
      ensures Out(v, S()) == PreStep(step, old(S()), depth, noexec)
      decreases MAX_DEPTH - depth, |pos|, 0, 1
    {
      hide Resolve, Store;
      if !IdentStart(Ch(pos, 0)) {
        err := Syntax;
        return 0;
      }
      var name := ParseIdent();
      v := ResolveVar(name);
      v := Wrap(v + step);
      SetVar(name, v);
    }

    /**
     parse_expr, parse_log_or and the other left-associative levels differ only in their operators, so they share one
     loop here; parse_ternary is the level without one.
     */
    method ParseLevel(k: nat) returns (v: int)
      requires k <= UNARY && depth <= MAX_DEPTH
      modifies this`pos, this`env, this`err, this`noexec
      ensures Out(v, S()) == Parse(k, old(S()), depth, old(noexec)) && noexec == old(noexec)
      decreases MAX_DEPTH - depth, |pos|, UNARY + 1 - k, 1
    {
      hide Rest, Choose, Unary, Apply;
      if k == UNARY {
        v := ParseUnary();
        return;
      }
      v := ParseLevel(k + 1);
      if k == COND { v := ParseTernary(v); } else { v := ParseOperators(k, v); }
    }

    method ParseOperators(k: nat, first: int) returns (left: int)
      requires k <= MUL && k != COND && depth <= MAX_DEPTH && In64(first)
      modifies this`pos, this`env, this`err, this`noexec
      ensures Out(left, S()) == Rest(k, first, old(S()), depth, old(noexec)) && noexec == old(noexec)
      decreases MAX_DEPTH - depth, |pos|, UNARY + 1 - k, 0
    {
      hide Parse, Apply, OpAt, Skip;
      left := first;
      while true
        invariant In64(left) && noexec == old(noexec) && |pos| <= |old(pos)|
        invariant Rest(k, left, S(), depth, noexec) == Rest(k, first, old(S()), depth, old(noexec))
        decreases |pos|
      {
        SkipWs();
        var op := OpAt(k, pos);
        if err != NoErr || op == "" { return; }
        pos := pos[|op|..];
        var was := noexec;
        noexec := noexec || Skips(op, left);
        var rhs := ParseLevel(k + 1);
        noexec := was;
        if Divides(op) && rhs == 0 {
          if !noexec { err := DivZero; }
          return 0;
        }
        left := Apply(op, left, rhs);
      }
    }

    method ParseTernary(cond: int) returns (v: int)
      requires depth <= MAX_DEPTH && In64(cond)
      modifies this`pos, this`env, this`err, this`noexec
      ensures Out(v, S()) == Choose(cond, old(S()), depth, old(noexec)) && noexec == old(noexec)
      decreases MAX_DEPTH - depth, |pos|, UNARY + 1 - COND, 0
    {
      hide Parse;
      SkipWs();
      if err != NoErr || Ch(pos, 0) != '?' { return cond; }
      pos := pos[1..];
      var was := noexec;
      if cond != 0 {
        v := ParseLevel(COND);
        SkipWs();
        if Ch(pos, 0) == ':' {
          pos := pos[1..];
          noexec := true;
          var skipped := ParseLevel(COND);
          noexec := was;
        } else {
          err := Syntax;
        }
      } else {
        noexec := true;
        v := ParseLevel(COND);
        noexec := was;
        SkipWs();
        if Ch(pos, 0) == ':' {
          pos := pos[1..];
          v := ParseLevel(COND);
        } else {
          err := Syntax;
          v := 0;
        }
      }
    }
  }

  /** arith_eval */
  method Evaluate(text: string, env: Chain) returns (v: int, env1: Chain, err: Err)
    ensures Result(v, env1, err) == ArithEval(text, env)
  {
    hide Parse, Skip;
    var s := new Evaluator(text, env, 0, false);
    s.SkipWs();
    if Ch(s.pos, 0) == ')' && Ch(s.pos, 1) == '\0' { return 0, env, NoErr; }
    v := s.ParseLevel(0);
    s.SkipWs();
    if Ch(s.pos, 0) == ')' { s.pos := s.pos[1..]; }
    s.SkipWs();
    env1, err := s.env, s.err;
    if err == NoErr && Ch(s.pos, 0) != '\0' { err := Syntax; }
    if err != NoErr { v := 0; }
  }
}
