/**
 The grammar of arithmetic as a reader of the C standard knows it (sections 6.4.4 and 6.5 of ISO/IEC 9899): which operator
 binds tighter, what literals stand for in their base, what steps and compound assignments abbreviate; and how deep names may
 refer to each other. Said without the tables of the evaluator.
 */
module ArithTexts {
  import opened Int64
  import opened Scopes
  import opened Arith
  import opened ArithFacts
  import opened ArithTrees
  import opened ArithCorrect

  // ---- which operator binds tighter ----

  /** The binary operators from the loosest to the tightest. The conditional stands between 0 and 1. */
  function Rank(op: string): nat {
    if op in {"*", "/", "%"} then 10
    else if op in {"+", "-"} then 9
    else if op in {"<<", ">>"} then 8
    else if op in {"<", ">", "<=", ">="} then 7
    else if op in {"==", "!="} then 6
    else if op == "&" then 5
    else if op == "^" then 4
    else if op == "|" then 3
    else if op == "&&" then 2
    else if op == "||" then 1
    else 0
  }

  const OPERATORS := {"*", "/", "%", "+", "-", "<<", ">>", "<", ">", "<=", ">=", "==", "!=", "&", "^", "|", "&&", "||", ","}

  /** A number, a name, a sign and its operand, a step, or an assignment in parentheses. */
  predicate Atom(e: Expr) {
    !e.Bin? && !e.Cond?
  }

  function Text3(a: Expr, op1: string, b: Expr, op2: string, c: Expr): string {
    Print(UNARY, a) + (" " + (op1 + (" " + (Print(UNARY, b) + (" " + (op2 + (" " + Print(UNARY, c))))))))
  }

  function Grouped(a: Expr, op1: string, b: Expr, op2: string, c: Expr): Expr {
    if Rank(op1) >= Rank(op2) then Bin(op2, Bin(op1, a, b), c) else Bin(op1, a, Bin(op2, b, c))
  }

  lemma RankIsLevel(op: string)
    requires op in OPERATORS
    ensures LevelOf(op) < UNARY && LevelOf(op) == (if Rank(op) == 0 then 0 else Rank(op) + 1)
  {
  }

  lemma AtomText(e: Expr, k: nat)
    requires Atom(e) && k <= UNARY
    ensures Print(k, e) == Print(UNARY, e) && Prec(e) == UNARY
  {
  }

  lemma BinIs(op: string, l: Expr, r: Expr, k: nat)
    requires k <= LevelOf(op)
    ensures Print(k, Bin(op, l, r)) == Print(LevelOf(op), l) + (" " + (op + (" " + Print(LevelOf(op) + 1, r))))
  {
  }

  lemma GroupedText(a: Expr, op1: string, b: Expr, op2: string, c: Expr)
    requires Atom(a) && Atom(b) && Atom(c) && op1 in OPERATORS && op2 in OPERATORS
    ensures Print(0, Grouped(a, op1, b, op2, c)) == Text3(a, op1, b, op2, c)
  {
    RankIsLevel(op1);
    RankIsLevel(op2);
    hide Print, LevelOf, Rank;
    var k1, k2 := LevelOf(op1), LevelOf(op2);
    if Rank(op1) >= Rank(op2) {
      BinIs(op2, Bin(op1, a, b), c, 0);
      BinIs(op1, a, b, k2);
      AtomText(a, k1);
      AtomText(b, k1 + 1);
      AtomText(c, k2 + 1);
      Reassociate(Print(UNARY, a), op1, Print(UNARY, b), op2, Print(UNARY, c));
    } else {
      BinIs(op1, a, Bin(op2, b, c), 0);
      BinIs(op2, b, c, k1 + 1);
      AtomText(a, k1);
      AtomText(b, k2);
      AtomText(c, k2 + 1);
    }
  }

  lemma Reassociate(a: string, op1: string, b: string, op2: string, c: string)
    ensures (a + (" " + (op1 + (" " + b)))) + (" " + (op2 + (" " + c)))
            == a + (" " + (op1 + (" " + (b + (" " + (op2 + (" " + c)))))))
  {
  }

  /**
   Three operands with two operators between them, for every pair of the nineteen operators: the tighter one takes its
   operands first, and of two alike the left one; so the text has the value of that grouping, with its effects, and an error
   exactly if it is undefined.
   */
  lemma TighterFirst(a: Expr, op1: string, b: Expr, op2: string, c: Expr, env: Chain, names: set<string>)
    requires Atom(a) && Atom(b) && Atom(c) && op1 in OPERATORS && op2 in OPERATORS
    requires var e := Grouped(a, op1, b, op2, c); WfExpr(e) && Over(e, names) && Stored(env, names) && !Halts(e, env, false)
    ensures var r, v := ArithEval(Text3(a, op1, b, op2, c), env), Meaning(Grouped(a, op1, b, op2, c), env);
            (r.err == NoErr <==> v.Val?) && (v.Val? ==> r.v == v.v && r.env == v.env)
  {
    GroupedText(a, op1, b, op2, c);
    hide ArithEval, Meaning, Halts, Grouped, Text3, Print, WfExpr, Over, Stored;
    var e := Grouped(a, op1, b, op2, c);
    EvaluatesMeaning(e, false, env, names);
    assert Print(0, e) + "" == Print(0, e);
  }

  lemma NumberOperand(k: nat, n: nat, env: Chain, x: bool)
    requires k <= UNARY
    ensures Operand(k, Num(n), env, x) == Val(Saturate(n), env) && !Halts(Num(n), env, x)
  {
  }

  /** An operation on two numbers is read to its end, unless it is skipped and divides by zero. */
  lemma NumbersRead(op: string, m: nat, n: nat, env: Chain, x: bool)
    requires op in OPERATORS
    ensures !Halts(Bin(op, Num(m), Num(n)), env, x)
    ensures !x ==> !Eval(Bin(op, Num(m), Num(n)), env, x).Ended?
  {
    var k, a, b := LevelOf(op), Saturate(m), Saturate(n);
    RankIsLevel(op);
    NumberOperand(k, m, env, x);
    NumberOperand(k + 1, n, env, x || Skips(op, a));
    hide LevelOf, Saturate, Apply, Operand, Rank;
    assert Right(op, a, env, Num(n), x) == Joined(op, a, Val(b, env), x);
  }

  lemma LeftRead(m: nat, op1: string, n: nat, op2: string, k: nat, env: Chain)
    requires op1 in OPERATORS && op2 in OPERATORS
    ensures !Halts(Bin(op2, Bin(op1, Num(m), Num(n)), Num(k)), env, false)
  {
    var l := Bin(op1, Num(m), Num(n));
    NumbersRead(op1, m, n, env, false);
    OperandIs(LevelOf(op2), l, env, false);
    forall x, env1 ensures !Halts(Num(k), env1, x) { NumberOperand(0, k, env1, x); }
    hide LevelOf, Eval, Operand;
  }

  lemma RightRead(m: nat, op1: string, n: nat, op2: string, k: nat, env: Chain)
    requires op1 in OPERATORS && op2 in OPERATORS
    ensures !Halts(Bin(op1, Num(m), Bin(op2, Num(n), Num(k))), env, false)
  {
    RankIsLevel(op1);
    NumberOperand(LevelOf(op1), m, env, false);
    forall x ensures !Halts(Bin(op2, Num(n), Num(k)), env, x) { NumbersRead(op2, n, k, env, x); }
    hide LevelOf, Eval, Operand, Rank;
  }

  lemma BinFits(op: string, l: Expr, r: Expr)
    requires op in OPERATORS && WfExpr(l) && WfExpr(r) && Over(l, {}) && Over(r, {})
    ensures WfExpr(Bin(op, l, r)) && Over(Bin(op, l, r), {})
  {
    RankIsLevel(op);
    hide LevelOf, Rank;
  }

  lemma NumbersFit(m: nat, op1: string, n: nat, op2: string, k: nat)
    requires op1 in OPERATORS && op2 in OPERATORS
    ensures var e := Grouped(Num(m), op1, Num(n), op2, Num(k)); WfExpr(e) && Over(e, {})
  {
    hide LevelOf, Rank;
    var a, b, c := Num(m), Num(n), Num(k);
    BinFits(op1, a, b);
    BinFits(op2, b, c);
    BinFits(op2, Bin(op1, a, b), c);
    BinFits(op1, a, Bin(op2, b, c));
  }

  /** With numbers for operands nothing more is needed. */
  lemma NumbersGrouped(m: nat, op1: string, n: nat, op2: string, k: nat, env: Chain)
    requires op1 in OPERATORS && op2 in OPERATORS && env != []
    ensures var r := ArithEval(Text3(Num(m), op1, Num(n), op2, Num(k)), env);
            var v := Meaning(Grouped(Num(m), op1, Num(n), op2, Num(k)), env);
            (r.err == NoErr <==> v.Val?) && (v.Val? ==> r.v == v.v && r.env == v.env)
  {
    LeftRead(m, op1, n, op2, k, env);
    RightRead(m, op1, n, op2, k, env);
    NumbersFit(m, op1, n, op2, k);
    hide ArithEval, Meaning, Halts, Text3, Rank, LevelOf, WfExpr, Over;
    TighterFirst(Num(m), op1, Num(n), op2, Num(k), env, {});
  }

  /** `a op b ? c : d`: the conditional is looser than every binary operator but the comma. */
  lemma ConditionLoose(a: Expr, op: string, b: Expr, c: Expr, d: Expr)
    requires Atom(a) && Atom(b) && Atom(c) && Atom(d) && op in OPERATORS
    ensures var branches := " " + ("?" + (" " + (Print(UNARY, c) + (" " + (":" + (" " + Print(UNARY, d)))))));
            Print(UNARY, a) + (" " + (op + (" " + (Print(UNARY, b) + branches))))
            == Print(0, if op == "," then Bin(",", a, Cond(b, c, d)) else Cond(Bin(op, a, b), c, d))
  {
    RankIsLevel(op);
    var branches := " " + ("?" + (" " + (Print(UNARY, c) + (" " + (":" + (" " + Print(UNARY, d)))))));
    if op == "," {
      BinIs(op, a, Cond(b, c, d), 0);
      CondIs(b, c, d, 1);
      AtomText(a, 0);
      AtomText(b, COND + 1);
    } else {
      CondIs(Bin(op, a, b), c, d, 0);
      BinIs(op, a, b, COND + 1);
      AtomText(a, LevelOf(op));
      AtomText(b, LevelOf(op) + 1);
    }
    AtomText(c, COND);
    AtomText(d, COND);
    hide *;
    InFront(Print(UNARY, a), op, Print(UNARY, b), branches);
  }

  lemma InFront(a: string, op: string, b: string, branches: string)
    ensures (a + (" " + (op + (" " + b)))) + branches == a + (" " + (op + (" " + (b + branches))))
  {
  }

  /** `a ? b : c op d`: what follows the colon goes on as far as it can, but not over a comma. */
  lemma LastBranchLong(a: Expr, b: Expr, c: Expr, op: string, d: Expr)
    requires Atom(a) && Atom(b) && Atom(c) && Atom(d) && op in OPERATORS
    ensures var last := Print(UNARY, c) + (" " + (op + (" " + Print(UNARY, d))));
            Print(UNARY, a) + (" " + ("?" + (" " + (Print(UNARY, b) + (" " + (":" + (" " + last)))))))
            == Print(0, if op == "," then Bin(",", Cond(a, b, c), d) else Cond(a, b, Bin(op, c, d)))
  {
    RankIsLevel(op);
    AtomText(a, COND + 1);
    AtomText(b, COND);
    if op == "," {
      BinIs(op, Cond(a, b, c), d, 0);
      CondIs(a, b, c, 0);
      AtomText(c, COND);
      AtomText(d, 1);
      hide *;
      Behind(Print(UNARY, a), Print(UNARY, b), Print(UNARY, c), " " + (op + (" " + Print(UNARY, d))));
    } else {
      CondIs(a, b, Bin(op, c, d), 0);
      BinIs(op, c, d, COND);
      AtomText(c, LevelOf(op));
      AtomText(d, LevelOf(op) + 1);
    }
  }

  lemma CondIs(test: Expr, t: Expr, f: Expr, k: nat)
    requires k <= COND
    ensures Print(k, Cond(test, t, f))
            == Print(COND + 1, test) + (" " + ("?" + (" " + (Print(COND, t) + (" " + (":" + (" " + Print(COND, f))))))))
  {
  }

  // ---- what the other operators abbreviate ----

  /** The signs: `-` subtracts from 0, `~` flips every bit, `!` asks whether the operand is 0, `+` does nothing. */
  lemma SignLaws(v: int)
    requires In64(v)
    ensures UnaryOf('-', v) == Apply("-", 0, v) && UnaryOf('!', v) == Apply("==", v, 0) && UnaryOf('+', v) == v
    ensures Apply("+", v, UnaryOf('~', v)) == -1
  {
    hide ShiftLeft, ShiftRight, Bitwise, Quot, Rem;
  }

  /** `++x` is `x += 1` and `--x` is `x -= 1`; `x++` and `x--` do the same and have the value from before. */
  lemma StepLaws(up: bool, name: string, env: Chain)
    ensures Meaning(Pre(up, name), env) == Meaning(OpAsg(name, if up then "+" else "-", Num(1)), env)
    ensures var after, before := Meaning(Pre(up, name), env), Meaning(Var(name), env);
            after.Val? && before.Val? && Meaning(Post(up, name), env) == Val(before.v, after.env)
  {
    hide Store, Show, ValueOf, ShiftLeft, ShiftRight, Bitwise, Quot, Rem;
    assert Saturate(1) == 1;
  }

  /** `x op= e` is `x = x op (e)` where e changes no variable, but for a shift by a count outside 0..63. */
  lemma CompoundLaw(name: string, op: string, e: Expr, env: Chain)
    requires op in ASSIGN_OPS && Meaning(e, env).Val? && Meaning(e, env).env == env
    requires op in {"<<", ">>"} ==> 0 <= Meaning(e, env).v < 64
    ensures Meaning(OpAsg(name, op, e), env) == Meaning(Asg(name, Bin(op, Var(name), e)), env)
  {
    hide Store, Show, ValueOf, Apply;
    var sum := Bin(op, Var(name), e);
    var b := Meaning(e, env).v;
    assert Meaning(sum, env) == if Divides(op) && b == 0 then Fails else Val(Apply(op, ValueOf(env, name), b), env);
  }

  // ---- literals ----

  /** The value of a digit, in upper or lower case; 99 for what is no digit in any base. */
  function DigitOf(c: char): nat {
    if '0' <= c <= '9' then (c - '0') as nat
    else if 'a' <= c <= 'f' then (c - 'a') as nat + 10
    else if 'A' <= c <= 'F' then (c - 'A') as nat + 10
    else 99
  }

  predicate DigitsIn(t: string, base: nat) {
    forall i :: 0 <= i < |t| ==> DigitOf(t[i]) < base
  }

  /** The number written with these digits, from the last one on. */
  function ValueIn(t: string, base: nat): nat
    decreases |t|
  {
    if t == "" then 0 else ValueIn(t[..|t| - 1], base) * base + DigitOf(t[|t| - 1])
  }

  predicate EndsIn(rest: string, base: nat) {
    rest == "" || DigitOf(rest[0]) >= base
  }

  lemma SameDigit(c: char, base: nat)
    requires 0 < base <= 16
    ensures DigitIn(c, base) == if DigitOf(c) < base then DigitOf(c) else base
  {
  }

  lemma {:induction false} DigitsSplit(t: string, rest: string, base: nat, acc: nat)
    requires DigitsIn(t, base) && 0 < base <= 16
    ensures Digits(t + rest, base, acc) == Digits(rest, base, Digits(t, base, acc).n) && Digits(t, base, acc).rest == ""
    decreases |t|
  {
    if t == "" {
      assert t + rest == rest;
    } else {
      SameDigit(t[0], base);
      assert (t + rest)[1..] == t[1..] + rest;
      DigitsSplit(t[1..], rest, base, acc * base + DigitIn(t[0], base));
    }
  }

  lemma {:induction false} DigitsAre(t: string, base: nat)
    requires DigitsIn(t, base) && 0 < base <= 16
    ensures Digits(t, base, 0) == Read(ValueIn(t, base), "")
    decreases |t|
  {
    if t != "" {
      var most, last := t[..|t| - 1], t[|t| - 1];
      DigitsAre(most, base);
      assert t == most + [last] && [last][1..] == "";
      DigitsSplit(most, [last], base, 0);
      SameDigit(last, base);
      var n := ValueIn(most, base);
      assert Digits([last], base, n) == Digits([last][1..], base, n * base + DigitIn(last, base));
    }
  }

  lemma DigitsEnd(t: string, rest: string, base: nat)
    requires DigitsIn(t, base) && 0 < base <= 16 && EndsIn(rest, base)
    ensures Digits(t + rest, base, 0) == Read(ValueIn(t, base), rest)
  {
    DigitsAre(t, base);
    DigitsSplit(t, rest, base, 0);
    if rest != "" { SameDigit(rest[0], base); }
  }

  function Limited(n: nat): nat {
    if n > 0x7FFF_FFFF_FFFF_FFFF then 0x7FFF_FFFF_FFFF_FFFF else n
  }

  /** `0x` or `0X` and digits in base 16 are read to the first other character, and cut off at 2^63 - 1. */
  lemma HexLiteral(t: string, upper: bool, rest: string)
    requires t != "" && DigitsIn(t, 16) && EndsIn(rest, 16)
    ensures Number((if upper then "0X" else "0x") + t + rest) == Read(Limited(ValueIn(t, 16)), rest)
  {
    hide Digits, ValueIn;
    var u := (if upper then "0X" else "0x") + t + rest;
    assert u[2] == t[0] && u[2..] == t + rest;
    SameDigit(t[0], 16);
    DigitsEnd(t, rest, 16);
  }

  /** Any other literal that starts with 0 is read in base 8, so that 08 is 0 with 8 left over. */
  lemma OctalLiteral(t: string, rest: string)
    requires DigitsIn(t, 8) && EndsIn(rest, 8) && !(t == "" && rest != "" && rest[0] in "xX")
    ensures Number("0" + t + rest) == Read(Limited(ValueIn(t, 8)), rest)
  {
    hide Digits, ValueIn;
    var u := "0" + t + rest;
    assert u[1..] == t + rest;
    assert Ch(u, 1) == if t != "" then t[0] else Ch(rest, 0);
    DigitsEnd(t, rest, 8);
  }

  /** A literal that starts with another digit is read in base 10. */
  lemma DecimalLiteral(t: string, rest: string)
    requires t != "" && t[0] != '0' && DigitsIn(t, 10) && EndsIn(rest, 10)
    ensures Number(t + rest) == Read(Limited(ValueIn(t, 10)), rest)
  {
    hide ValueIn;
    var u := t + rest;
    assert u[0] == t[0];
    DigitsEnd(t, rest, 10);
    SameDigit(u[0], 10);
    assert Digits(u, 10, 0) == Digits(u[1..], 10, DigitIn(u[0], 10));
  }

  /** What is stored in a variable is the number in decimal, with a `-` in front if it is negative and no zeros to spare. */
  lemma ShownInDecimal(n: int)
    ensures var t := Show(n);
            var digits := if n < 0 then t[1..] else t;
            && (n < 0 ==> t[0] == '-')
            && digits != "" && DigitsIn(digits, 10) && ValueIn(digits, 10) == (if n < 0 then -n else n)
            && (digits[0] == '0' ==> digits == "0")
  {
    DecimalDigits(if n < 0 then -n else n);
    DecimalHead(if n < 0 then -n else n);
    if n < 0 { assert Show(n)[1..] == Decimal(-n); }
  }

  lemma {:induction false} DecimalDigits(n: nat)
    ensures DigitsIn(Decimal(n), 10) && ValueIn(Decimal(n), 10) == n
    decreases n
  {
    var t := Decimal(n);
    if n < 10 {
      assert t[..|t| - 1] == "";
    } else {
      DecimalDigits(n / 10);
      assert t[..|t| - 1] == Decimal(n / 10);
    }
  }

  /** The whole evaluation of a text that is one literal. */
  lemma LiteralIs(u: string, n: nat, env: Chain)
    requires IsDigit(Ch(u, 0)) && Number(u) == Read(n, "")
    ensures ArithEval(u, env) == Result(n, env, NoErr)
  {
    hide Parse, Number, Rest;
    var s := St(u, env, NoErr);
    NumberAlone(u, n, env, 0, false);
    ReadAlone(s, n, env, 0, false);
  }

  lemma NumberAlone(u: string, n: nat, env: Chain, d: nat, x: bool)
    requires IsDigit(Ch(u, 0)) && Number(u) == Read(n, "") && d <= MAX_DEPTH
    ensures Parse(UNARY, St(u, env, NoErr), d, x) == Out(n, St("", env, NoErr)) && Skip(u) == u
  {
    hide Number;
    var s := St(u, env, NoErr);
    assert Skip(u) == u && s.(u := u) == s;
    assert Unary(s, d, x) == Primary(s, d, x);
  }

  /** A text that is one primary to its end is a whole expression. */
  lemma ReadAlone(s: St, v: int, env: Chain, d: nat, x: bool)
    requires d <= MAX_DEPTH && In64(v) && Parse(UNARY, s, d, x) == Out(v, St("", env, NoErr))
    ensures Parse(0, s, d, x) == Out(v, St("", env, NoErr))
  {
    hide Parse, Rest;
    QuietEnd(0, "");
    DownFrom(UNARY, 0, s, Val(v, env), "", d, x);
    RestAtEnd(v, env, d, x);
  }

  // ---- blanks, and nothing at all ----

  /** Spaces, tabs and newlines in front make no difference; a text of nothing else is 0. */
  lemma {:induction false} BlankFront(blanks: string, u: string, env: Chain)
    requires forall i :: 0 <= i < |blanks| ==> blanks[i] in " \t\n"
    ensures Skip(blanks + u) == Skip(u) && ArithEval(blanks + u, env) == ArithEval(u, env)
    decreases |blanks|
  {
    hide Parse;
    if blanks == "" {
      assert blanks + u == u;
    } else {
      assert (blanks + u)[1..] == blanks[1..] + u;
      BlankFront(blanks[1..], u, env);
    }
  }

  lemma NothingIsZero(env: Chain)
    ensures ArithEval("", env) == ArithEval(")", env) == Result(0, env, NoErr)
  {
    hide Parse, Rest;
    var s := St("", env, NoErr);
    NothingRead(s);
    ReadAlone(s, 0, env, 0, false);
  }

  lemma NothingRead(s: St)
    requires s.u == "" && s.err == NoErr
    ensures Parse(UNARY, s, 0, false) == Out(0, s)
  {
    assert Skip("") == "";
    assert Unary(s, 0, false) == Primary(s, 0, false);
  }

  // ---- what is no expression ----

  /** An expression followed by something that is neither an operator nor a closing parenthesis is an error. */
  lemma JunkFails(e: Expr, c: char, more: string, env: Chain, names: set<string>)
    requires WfExpr(e) && Over(e, names) && Stored(env, names)
    requires c !in "\0 \t\n)?:,|^&=!<>+-*/%"
    ensures var r := ArithEval(Print(0, e) + (" " + ([c] + more)), env); r.err != NoErr && r.v == 0
  {
    var junk := [c] + more;
    var rest := " " + junk;
    JunkQuiet(c, more);
    PrintStart(e);
    TextStart(Print(0, e), rest);
    hide Parse, Rest, Eval, Print, Quiet, Stored, WfExpr, Over, Tail, OpAt;
    Reads(0, e, rest, env, 0, false, names);
    Blanks(0, St(Print(0, e) + rest, env, NoErr), 0, false);
    var r := Eval(e, env, false);
    if r.Halt? { TailMul(r.rem, rest); }
    if r.Val? || r.Ended? {
      var q := Settle(r);
      RestEnds(0, q.v, St(rest, q.env, NoErr), 0, false);
    }
  }

  lemma JunkQuiet(c: char, more: string)
    requires c !in "\0 \t\n)?:,|^&=!<>+-*/%"
    ensures var rest := " " + ([c] + more); Quiet(0, rest) && Skip(rest) == [c] + more && OpAt(0, [c] + more) == ""
    ensures Ch([c] + more, 0) == c && c != ')' && c != '\0' && !IsBlank(c)
  {
    var u := [c] + more;
    SkipSpace(u);
    assert Skip(u) == u;
    forall j | 0 < j <= MUL ensures OpAt(j, u) == "" {
    }
  }

  /** A parenthesis that is not closed is an error. */
  lemma UnclosedFails(e: Expr, env: Chain, names: set<string>)
    requires WfExpr(e) && Over(e, names) && Stored(env, names)
    ensures var r := ArithEval("(" + Print(0, e), env); r.err != NoErr && r.v == 0
  {
    var u, s := "(" + Print(0, e), St("(" + Print(0, e), env, NoErr);
    assert u[1..] == Print(0, e) + "" && Skip(u) == u;
    QuietEnd(0, "");
    hide Parse, Rest, Eval, Print, Quiet, Stored, WfExpr, Over, Tail, OpAt;
    Reads(0, e, "", env, 0, false, names);
    ParenIs(s, 0, false);
    var r := Eval(e, env, false);
    if r.Halt? { TailMul(r.rem, ""); }
    if r.Val? || r.Ended? { RestAtEnd(Settle(r).v, Settle(r).env, 0, false); }
    ErrorDown(0, s, 0, false);
  }

  /** A question mark without its colon is an error. */
  lemma MissingColonFails(a: Expr, b: Expr, env: Chain, names: set<string>)
    requires Atom(a) && WfExpr(a) && WfExpr(b) && Over(a, names) && Over(b, names) && Stored(env, names)
    ensures var r := ArithEval(Print(UNARY, a) + (" " + ("?" + (" " + Print(COND, b)))), env); r.err != NoErr && r.v == 0
  {
    var branch := "?" + (" " + Print(COND, b));
    var mid := " " + branch;
    var s := St(Print(UNARY, a) + mid, env, NoErr);
    AtomText(a, COND + 1);
    PrintStart(a);
    TextStart(Print(UNARY, a), mid);
    MarkStops(" " + Print(COND, b));
    hide Parse, Rest, Choose, Eval, Print, Quiet, Stored, WfExpr, Over, Tail, OpAt, Operand;
    Reads(COND + 1, a, mid, env, 0, false, names);
    OperandProper(COND + 1, a, env, false, names);
    AtomWhole(a, env);
    ParseIs(COND, s, 0, false);
    var o := Parse(COND + 1, s, 0, false);
    var q := Operand(COND + 1, a, env, false);
    if q.Val? {
      RestAtMark(q.v, q.env, " " + Print(COND, b), 0, false);
      NoColon(q.v, b, q.env, names);
    } else {
      FactsChoose(o.v, o.s, 0, false);
    }
    LowestFails(s);
    Blanks(0, s, 0, false);
  }

  lemma AtomWhole(a: Expr, env: Chain)
    requires Atom(a) && WfExpr(a)
    ensures var q := Operand(COND + 1, a, env, false); q.Val? || q.Fails?
  {
    UnaryWhole(a, env, false);
  }

  lemma NoColon(v: int, b: Expr, env: Chain, names: set<string>)
    requires In64(v) && WfExpr(b) && Over(b, names) && Stored(env, names)
    ensures Choose(v, St("?" + (" " + Print(COND, b)), env, NoErr), 0, false).s.err != NoErr
  {
    var u := "?" + (" " + Print(COND, b));
    assert Skip(u) == u && u[1..] == " " + Print(COND, b) && Print(COND, b) + "" == Print(COND, b);
    QuietEnd(COND, "");
    hide Parse, Rest, Print, Quiet, Stored, WfExpr, Over, Tail, OpAt, Operand;
    var x := v == 0;
    Reads(COND, b, "", env, 0, x, names);
    OneSpace(COND, St(u[1..], env, NoErr), Print(COND, b), 0, x);
    var q := Operand(COND, b, env, x);
    if q.Halt? { TailMul(q.rem, ""); }
    ChooseIs(v, St(u, env, NoErr), 0, false);
    var t := Parse(COND, St(u[1..], env, NoErr), 0, x);
    var w := Skip(t.s.u);
    if t.s.err != NoErr && Ch(w, 0) == ':' { FactsParse(COND, t.s.(u := w[1..]), 0, v != 0); }
  }

  lemma LowestFails(s: St)
    requires Parse(COND, s, 0, false).s.err != NoErr
    ensures Parse(0, s, 0, false).s.err != NoErr
  {
    hide Rest;
    var o := Parse(1, s, 0, false);
    ParseIs(0, s, 0, false);
    RestEnds(0, o.v, o.s, 0, false);
  }

  /** An operator with nothing behind it is no error: the missing operand reads as 0. */
  lemma DanglingIsZero(a: Expr, op: string, env: Chain, names: set<string>)
    requires Atom(a) && WfExpr(a) && Over(a, names) && Stored(env, names) && op in OPERATORS && Eval(a, env, false).Val?
    ensures var r, q := ArithEval(Print(UNARY, a) + (" " + (op + " ")), env), Eval(a, env, false);
            if Divides(op) then r.err == DivZero else r == Result(Apply(op, q.v, 0), q.env, NoErr)
  {
    RankIsLevel(op);
    var k, q := LevelOf(op), Eval(a, env, false);
    var rest := " " + (op + " ");
    var s := St(Print(UNARY, a) + rest, env, NoErr);
    QuietOp(op, "");
    assert op + (" " + "") == op + " ";
    PrintStart(a);
    TextStart(Print(UNARY, a), rest);
    AtomText(a, k);
    hide Parse, Rest, Eval, Print, Quiet, Stored, WfExpr, Over, Tail, OpAt, Apply, LevelOf, Rank;
    Reads(k, a, rest, env, 0, false, names);
    RestDangling(k, op, q.v, q.env);
    Blanks(0, s, 0, false);
    Lower(k, s);
  }

  lemma RestDangling(k: nat, op: string, v: int, env: Chain)
    requires op in OPERATORS && k == LevelOf(op) && In64(v)
    ensures var o := Rest(k, v, St(" " + (op + " "), env, NoErr), 0, false);
            if Divides(op) then o.s.err == DivZero else o == Out(Apply(op, v, 0), St("", env, NoErr))
  {
    RankIsLevel(op);
    QuietOp(op, "");
    var s := St(" " + (op + " "), env, NoErr);
    assert op + (" " + "") == op + " ";
    hide Parse, Rest, OpAt, Apply, LevelOf, Rank, Quiet;
    RestIs(k, v, s, 0, false);
    NothingAt(k + 1, env, Skips(op, v));
    assert (op + " ")[|op|..] == " ";
    if !Divides(op) { NothingMore(k, Apply(op, v, 0), env); }
  }

  lemma NothingMore(k: nat, v: int, env: Chain)
    requires k <= MUL && k != COND && In64(v)
    ensures Rest(k, v, St("", env, NoErr), 0, false) == Out(v, St("", env, NoErr))
  {
    hide Parse;
  }

  lemma {:induction false} NothingAt(k: nat, env: Chain, x: bool)
    requires k <= UNARY
    ensures Parse(k, St(" ", env, NoErr), 0, x) == Out(0, St("", env, NoErr))
    decreases UNARY - k
  {
    hide Parse;
    if k == UNARY {
      BlankUnary(St(" ", env, NoErr), x);
    } else {
      NothingAt(k + 1, env, x);
      HandOn(k, St(" ", env, NoErr), x);
    }
  }

  /** A level whose first operand ends with the text has that value. */
  lemma HandOn(k: nat, s: St, x: bool)
    requires k < UNARY && Parse(k + 1, s, 0, x).s.u == "" && Parse(k + 1, s, 0, x).s.err == NoErr
    ensures Parse(k, s, 0, x) == Parse(k + 1, s, 0, x)
  {
    var o := Parse(k + 1, s, 0, x);
    hide Parse, Rest, Choose;
    ParseIs(k, s, 0, x);
    LevelEnds(k, o.v, o.s, x);
  }

  lemma BlankUnary(s: St, x: bool)
    requires s.u == " " && s.err == NoErr
    ensures Parse(UNARY, s, 0, x) == Out(0, s.(u := ""))
  {
    SkipSpace("");
    assert " " + "" == " " && Skip("") == "";
    assert Unary(s, 0, x) == Primary(s.(u := ""), 0, x);
  }

  /** At the end of the text a level hands on what it has. */
  lemma LevelEnds(k: nat, v: int, t: St, x: bool)
    requires k < UNARY && In64(v) && t.u == "" && t.err == NoErr
    ensures (if k == COND then Choose(v, t, 0, x) else Rest(k, v, t, 0, x)) == Out(v, t)
  {
    hide Parse;
    assert Skip("") == "" && t.(u := "") == t;
  }

  /** From the level at which the text was read to its end, or an error was met, down to the lowest. */
  lemma {:induction false} Lower(k: nat, s: St)
    requires k <= UNARY
    requires var o := Parse(k, s, 0, false); o.s.err != NoErr || (o.s.u == "" && o.s.err == NoErr)
    ensures var o, p := Parse(k, s, 0, false), Parse(0, s, 0, false);
            if o.s.err != NoErr then p.s.err == o.s.err else p == o
    decreases k
  {
    hide Parse, Rest, Choose;
    if k > 0 {
      var o := Parse(k, s, 0, false);
      if o.s.err != NoErr {
        ErrorStep(k - 1, s, 0, false);
      } else {
        HandOn(k - 1, s, false);
      }
      Lower(k - 1, s);
    }
  }

  // ---- names that refer to names ----

  /** Each name holds the next one as its text, and the last one holds a number. */
  ghost predicate Chained(names: seq<string>, env: Chain) {
    && names != [] && (forall i :: 0 <= i < |names| ==> IsName(names[i]))
    && (forall i :: 0 <= i < |names| - 1 ==> TextOf(env, names[i]) == names[i + 1])
    && IsStored(env, names[|names| - 1])
  }

  lemma {:induction false} ChainResolves(names: seq<string>, s: St, d: nat, x: bool)
    requires Chained(names, s.env) && d <= 32
    ensures var o := Resolve(names[0], s, d, x);
            if d + |names| <= 32 then o == Out(ValueOf(s.env, names[|names| - 1]), s) else o.s.err == TooDeep
    decreases |names|
  {
    if d < 32 {
      if |names| == 1 {
        ResolveStored(names[0], s, d, x);
      } else {
        var more := names[1..];
        assert Chained(more, s.env);
        var s1 := St("", s.env, NoErr);
        ChainResolves(more, s1, d + 1, x);
        NameAlone(more[0], s.env, d + 1, x);
        hide Parse, TextOf, Chained, ValueOf;
        ResolveName(names[0], more[0], s, d, x);
        if d + |names| > 32 {
          ErrorDown(0, St(more[0], s.env, NoErr), d + 1, x);
        } else {
          ReadAlone(St(more[0], s.env, NoErr), ValueOf(s.env, more[|more| - 1]), s.env, d + 1, x);
        }
      }
    }
  }

  lemma NameAlone(name: string, env: Chain, d: nat, x: bool)
    requires IsName(name) && d <= MAX_DEPTH
    ensures Parse(UNARY, St(name, env, NoErr), d, x) == Resolve(name, St("", env, NoErr), d, x)
  {
    hide Parse, Resolve;
    assert Skip("") == "" && AssignOpAt("") == "" && name + "" == name;
    NameIs(name, "", env, d, x);
    assert Named(name, St("", env, NoErr), d, x) == Resolve(name, St("", env, NoErr), d, x);
  }

  lemma ResolveName(name: string, text: string, s: St, d: nat, x: bool)
    requires TextOf(s.env, name) == text && IsName(text) && d < MAX_DEPTH
    ensures var o := Parse(0, St(text, s.env, NoErr), d + 1, x);
            Resolve(name, s, d, x) == Out(o.v, s.(env := o.s.env, err := if o.s.err != NoErr then o.s.err else s.err))
  {
    hide Parse;
    NameAt(text, "");
  }

  /** Up to 32 names may refer to each other in a row; one more is the depth error. */
  lemma ChainLimit(names: seq<string>, env: Chain)
    requires Chained(names, env)
    ensures var r := ArithEval(names[0], env);
            if |names| <= 32 then r == Result(ValueOf(env, names[|names| - 1]), env, NoErr) else r.err == TooDeep
  {
    var s := St("", env, NoErr);
    ChainResolves(names, s, 0, false);
    NameAlone(names[0], env, 0, false);
    NameAt(names[0], "");
    assert names[0] + "" == names[0];
    hide Parse, ValueOf, Chained;
    if |names| <= 32 {
      ReadAlone(St(names[0], env, NoErr), ValueOf(env, names[|names| - 1]), env, 0, false);
    } else {
      ErrorDown(0, St(names[0], env, NoErr), 0, false);
    }
  }
}
