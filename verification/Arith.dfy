/**
 The arithmetic evaluator (src/vm/arith.c) as functions on the text still to be read. Level 0 is the comma,
 1 the conditional, 2 to 11 the left-associative operators from `||` to `*`, and 12 the unary operators, above the
 primaries. `d` is the depth of variable evaluation and `x` the noexec flag.
 */
module Arith {
  import opened Int64
  import opened Scopes

  const MAX_DEPTH := 32
  const COND := 1
  const MUL := 11
  const UNARY := 12

  datatype Err = NoErr | Syntax | DivZero | TooDeep

  /** The text still to be read, the environment and the error so far. */
  datatype St = St(u: string, env: Chain, err: Err)

  datatype Out = Out(v: int, s: St)

  // ---- characters ----

  /** The character `i` places ahead; the end of the text reads as NUL. */
  function Ch(u: string, i: nat): char {
    if i < |u| then u[i] else '\0'
  }

  predicate IsBlank(c: char) {
    c == ' ' || c == '\t' || c == '\n'
  }

  predicate IsDigit(c: char) {
    '0' <= c <= '9'
  }

  predicate IdentStart(c: char) {
    'a' <= c <= 'z' || 'A' <= c <= 'Z' || c == '_'
  }

  predicate IdentChar(c: char) {
    IdentStart(c) || IsDigit(c)
  }

  function Skip(u: string): (r: string)
    ensures |r| <= |u|
    ensures !IsBlank(Ch(r, 0))
  {
    if u != "" && IsBlank(u[0]) then Skip(u[1..]) else u
  }

  function IdentLen(u: string): (n: nat)
    ensures n <= |u|
    ensures u != "" && IdentStart(u[0]) ==> n > 0
  {
    if u != "" && IdentChar(u[0]) then 1 + IdentLen(u[1..]) else 0
  }

  /** The value of a digit in the given base, or the base itself for any other character. */
  function DigitIn(c: char, base: nat): (r: nat)
    ensures r <= base
  {
    var n := if IsDigit(c) then (c - '0') as nat
             else if 'a' <= c <= 'f' then 10 + (c - 'a') as nat
             else if 'A' <= c <= 'F' then 10 + (c - 'A') as nat
             else base;
    if n < base then n else base
  }

  datatype Read = Read(n: nat, rest: string)

  function Digits(u: string, base: nat, acc: nat): (r: Read)
    ensures |r.rest| <= |u|
    decreases |u|
  {
    if u == "" || DigitIn(u[0], base) == base then Read(acc, u)
    else Digits(u[1..], base, acc * base + DigitIn(u[0], base))
  }

  /** strtoll with base 0 at a digit: hexadecimal, octal or decimal, saturating. */
  function Number(u: string): (r: Read)
    requires IsDigit(Ch(u, 0))
    ensures |r.rest| < |u| && In64(r.n)
  {
    var r := if u[0] == '0' && Ch(u, 1) in "xX" && DigitIn(Ch(u, 2), 16) < 16 then Digits(u[2..], 16, 0)
             else if u[0] == '0' then Digits(u[1..], 8, 0)
             else Digits(u[1..], 10, (u[0] - '0') as nat);
    Read(if r.n > MAX64 then MAX64 else r.n, r.rest)
  }

  // ---- operators ----

  /** The operator of level `k` that the text starts with, or "" if there is none. */
  function OpAt(k: nat, u: string): (op: string)
    ensures |op| <= |u|
  {
    var a, b, c := Ch(u, 0), Ch(u, 1), Ch(u, 2);
    if k == 0 then (if a == ',' then "," else "")
    else if k == 2 then (if a == '|' && b == '|' then "||" else "")
    else if k == 3 then (if a == '&' && b == '&' then "&&" else "")
    else if k == 4 then (if a == '|' && b != '|' && b != '=' then "|" else "")
    else if k == 5 then (if a == '^' && b != '=' then "^" else "")
    else if k == 6 then (if a == '&' && b != '&' && b != '=' then "&" else "")
    else if k == 7 then (if a == '=' && b == '=' then "==" else if a == '!' && b == '=' then "!=" else "")
    else if k == 8 then
      (if a == '<' && b == '=' then "<="
       else if a == '>' && b == '=' then ">="
       else if a == '<' && b != '<' then "<"
       else if a == '>' && b != '>' then ">" else "")
    else if k == 9 then
      (if a == '<' && b == '<' && c != '=' then "<<"
       else if a == '>' && b == '>' && c != '=' then ">>" else "")
    else if k == 10 then
      (if a == '+' && b != '+' && b != '=' then "+"
       else if a == '-' && b != '-' && b != '=' then "-" else "")
    else if k == 11 then
      (if a == '*' && b != '=' then "*"
       else if a == '/' && b != '=' then "/"
       else if a == '%' && b != '=' then "%" else "")
    else ""
  }

  function Truth(b: bool): int {
    if b then 1 else 0
  }

  /** The value of a binary operator. Only the first operand of a skipped `&&` or `||` matters. */
  function Apply(op: string, a: int, b: int): (r: int)
    requires In64(a) && In64(b) && ((op == "/" || op == "%") ==> b != 0)
    ensures In64(r)
  {
    if op == "||" then Truth(a != 0 || b != 0)
    else if op == "&&" then Truth(a != 0 && b != 0)
    else if op == "|" then Bitwise(OR, a, b)
    else if op == "^" then Bitwise(XOR, a, b)
    else if op == "&" then Bitwise(AND, a, b)
    else if op == "==" then Truth(a == b)
    else if op == "!=" then Truth(a != b)
    else if op == "<=" then Truth(a <= b)
    else if op == ">=" then Truth(a >= b)
    else if op == "<" then Truth(a < b)
    else if op == ">" then Truth(a > b)
    else if op == "<<" then (if b < 0 || b >= 64 then 0 else ShiftLeft(a, b))
    else if op == ">>" then (if b < 0 || b >= 64 then 0 else ShiftRight(a, b))
    else if op == "+" then Wrap(a + b)
    else if op == "-" then Wrap(a - b)
    else if op == "*" then Wrap(a * b)
    else if op == "/" then Quot(a, b)
    else if op == "%" then Rem(a, b)
    else b
  }

  /** `<<=` and `>>=` leave the value alone for a count outside 0..63, unlike `<<` and `>>`. */
  function ApplyAssign(op: string, a: int, b: int): (r: int)
    requires In64(a) && In64(b) && ((op == "/" || op == "%") ==> b != 0)
    ensures In64(r)
  {
    if (op == "<<" || op == ">>") && (b < 0 || b >= 64) then a else Apply(op, a, b)
  }

  /** The operator of a compound assignment that the text starts with, or "". */
  function AssignOpAt(u: string): (op: string)
    ensures op != "" ==> |op| + 1 <= |u|
  {
    var a, b := Ch(u, 0), Ch(u, 1);
    if b == '=' && a in "+-*/%&^|" then [a]
    else if (a == '<' || a == '>') && b == a && Ch(u, 2) == '=' then [a, a]
    else ""
  }

  predicate Divides(op: string) {
    op == "/" || op == "%"
  }

  /** Whether the right operand is read without being executed. */
  predicate Skips(op: string, left: int) {
    (op == "&&" && left == 0) || (op == "||" && left != 0)
  }

  // ---- variables ----

  function Decimal(n: nat): (r: string)
    ensures r != ""
  {
    if n < 10 then [n as char + '0'] else Decimal(n / 10) + [(n % 10) as char + '0']
  }

  function Show(n: int): string {
    if n < 0 then "-" + Decimal(-n) else Decimal(n)
  }

  function TextOf(env: Chain, name: string): string {
    match Get(env, name)
    case Found(Variable(Text(text), _)) => text
    case _ => ""
  }

  function Store(env: Chain, name: string, v: int, x: bool): (r: Chain)
    ensures |r| == |env|
    ensures x ==> r == env
  {
    if x || env == [] then env else Assign(env, name, Text(Show(v)))
  }

  // ---- the evaluator ----

  function Parse(k: nat, s: St, d: nat, x: bool): (o: Out)
    requires k <= UNARY && d <= MAX_DEPTH
    ensures In64(o.v) && |o.s.u| <= |s.u|
    decreases MAX_DEPTH - d, |s.u|, UNARY + 1 - k, 1
  {
    if k == UNARY then Unary(s, d, x)
    else
      var o := Parse(k + 1, s, d, x);
      if k == COND then Choose(o.v, o.s, d, x) else Rest(k, o.v, o.s, d, x)
  }

  /** What follows the first operand of level `k`: any number of operators of that level, from the left. */
  function Rest(k: nat, left: int, s: St, d: nat, x: bool): (o: Out)
    requires k <= MUL && k != COND && d <= MAX_DEPTH && In64(left)
    ensures In64(o.v) && |o.s.u| <= |s.u|
    decreases MAX_DEPTH - d, |s.u|, UNARY + 1 - k, 0
  {
    var u := Skip(s.u);
    var op := OpAt(k, u);
    if s.err != NoErr || op == "" then Out(left, s.(u := u))
    else
      var o := Parse(k + 1, s.(u := u[|op|..]), d, x || Skips(op, left));
      if Divides(op) && o.v == 0 then Out(0, if x then o.s else o.s.(err := DivZero))
      else Rest(k, Apply(op, left, o.v), o.s, d, x)
  }

  /** What follows the condition of a conditional expression, if it is one. */
  function Choose(cond: int, s: St, d: nat, x: bool): (o: Out)
    requires d <= MAX_DEPTH && In64(cond)
    ensures In64(o.v) && |o.s.u| <= |s.u|
    decreases MAX_DEPTH - d, |s.u|, UNARY + 1 - COND, 0
  {
    var u := Skip(s.u);
    if s.err != NoErr || Ch(u, 0) != '?' then Out(cond, s.(u := u))
    else
      var t := Parse(COND, s.(u := u[1..]), d, x || cond == 0);
      var w := Skip(t.s.u);
      if Ch(w, 0) != ':' then Out(if cond != 0 then t.v else 0, t.s.(u := w, err := Syntax))
      else
        var f := Parse(COND, t.s.(u := w[1..]), d, x || cond != 0);
        Out(if cond != 0 then t.v else f.v, f.s)
  }

  function Unary(s: St, d: nat, x: bool): (o: Out)
    requires d <= MAX_DEPTH
    ensures In64(o.v) && |o.s.u| <= |s.u|
    decreases MAX_DEPTH - d, |s.u|, 1, 0
  {
    var u := Skip(s.u);
    var a, b := Ch(u, 0), Ch(u, 1);
    if s.err != NoErr then Out(0, s.(u := u))
    else if a == '+' && b != '+' && b != '=' then Unary(s.(u := u[1..]), d, x)
    else if a == '-' && b != '-' && b != '=' then
      var o := Unary(s.(u := u[1..]), d, x);
      Out(Wrap(-o.v), o.s)
    else if a == '!' then
      var o := Unary(s.(u := u[1..]), d, x);
      Out(Truth(o.v == 0), o.s)
    else if a == '~' then
      var o := Unary(s.(u := u[1..]), d, x);
      Out(-o.v - 1, o.s)
    else if (a == '+' || a == '-') && b == a then PreStep(if a == '+' then 1 else -1, s.(u := Skip(u[2..])), d, x)
    else Primary(s.(u := u), d, x)
  }

  function PreStep(step: int, s: St, d: nat, x: bool): (o: Out)
    requires d <= MAX_DEPTH && -1 <= step <= 1
    ensures In64(o.v) && |o.s.u| <= |s.u|
    decreases MAX_DEPTH - d, |s.u|, 0, 1
  {
    if !IdentStart(Ch(s.u, 0)) then Out(0, s.(err := Syntax))
    else
      var n := IdentLen(s.u);
      var o := Resolve(s.u[..n], s.(u := s.u[n..]), d, x);
      var v := Wrap(o.v + step);
      Out(v, o.s.(env := Store(o.s.env, s.u[..n], v, x)))
  }

  function Primary(s: St, d: nat, x: bool): (o: Out)
    requires d <= MAX_DEPTH
    ensures In64(o.v) && |o.s.u| <= |s.u|
    decreases MAX_DEPTH - d, |s.u|, 0, 2
  {
    var u := Skip(s.u);
    if s.err != NoErr then Out(0, s.(u := u))
    else if Ch(u, 0) == '(' then
      var o := Parse(0, s.(u := u[1..]), d, x);
      var w := Skip(o.s.u);
      Out(o.v, if Ch(w, 0) == ')' then o.s.(u := w[1..]) else o.s.(u := w, err := Syntax))
    else if IsDigit(Ch(u, 0)) then Out(Number(u).n, s.(u := Number(u).rest))
    else if IdentStart(Ch(u, 0)) then
      var n := IdentLen(u);
      Named(u[..n], s.(u := Skip(u[n..])), d, x)
    else if Ch(u, 0) != '\0' then Out(0, s.(u := u, err := Syntax))
    else Out(0, s.(u := u))
  }

  /** What a name stands for: a step, an assignment, or its value. */
  function Named(name: string, s: St, d: nat, x: bool): (o: Out)
    requires d <= MAX_DEPTH
    ensures In64(o.v) && |o.s.u| <= |s.u|
    decreases MAX_DEPTH - d, |s.u|, 0, 1
  {
    var a, b := Ch(s.u, 0), Ch(s.u, 1);
    var op := AssignOpAt(s.u);
    if (a == '+' || a == '-') && b == a then
      var o := Resolve(name, s.(u := s.u[2..]), d, x);
      Out(o.v, o.s.(env := Store(o.s.env, name, Wrap(if a == '+' then o.v + 1 else o.v - 1), x)))
    else if a == '=' && b != '=' then
      var o := Parse(COND, s.(u := s.u[1..]), d, x);
      Out(o.v, o.s.(env := Store(o.s.env, name, o.v, x)))
    else if op != "" then
      var l := Resolve(name, s.(u := s.u[|op| + 1..]), d, x);
      var o := Parse(COND, l.s, d, x);
      if Divides(op) && o.v == 0 then Out(0, if x then o.s else o.s.(err := DivZero))
      else
        var v := ApplyAssign(op, l.v, o.v);
        Out(v, o.s.(env := Store(o.s.env, name, v, x)))
    else Resolve(name, s, d, x)
  }

  /** The value of a variable, whose text is evaluated one level deeper; what follows a complete expression in it is ignored. */
  function Resolve(name: string, s: St, d: nat, x: bool): (o: Out)
    requires d <= MAX_DEPTH
    ensures In64(o.v) && o.s.u == s.u
    decreases MAX_DEPTH - d, |s.u|, 0, 0
  {
    var text := TextOf(s.env, name);
    if d == MAX_DEPTH then Out(0, s.(err := TooDeep))
    else if Ch(text, 0) == '\0' then Out(0, s)
    else
      var o := Parse(0, St(text, s.env, NoErr), d + 1, x);
      Out(o.v, s.(env := o.s.env, err := if o.s.err != NoErr then o.s.err else s.err))
  }

  datatype Result = Result(v: int, env: Chain, err: Err)

  /** The text may end in the one `)` that the lexer leaves there. */
  function ArithEval(text: string, env: Chain): (r: Result)
    ensures In64(r.v)
  {
    var u := Skip(text);
    if Ch(u, 0) == ')' && Ch(u, 1) == '\0' then Result(0, env, NoErr)
    else
      var o := Parse(0, St(u, env, NoErr), 0, false);
      var w := Skip(o.s.u);
      var w1 := Skip(if Ch(w, 0) == ')' then w[1..] else w);
      var err := if o.s.err == NoErr && Ch(w1, 0) != '\0' then Syntax else o.s.err;
      Result(if err == NoErr then o.v else 0, o.s.env, err)
  }
}
