/**
 Expression trees, their value, and their text with minimal parentheses. The evaluator, which never builds a tree,
 gives on the text of a tree the value and the environment of that tree.
 */
module ArithTrees {
  import opened Int64
  import opened Scopes
  import opened Arith
  import opened ArithFacts

  datatype Expr =
    | Num(n: nat)
    | Var(name: string)
    | Bin(op: string, l: Expr, r: Expr)
    | Un(c: char, e: Expr)
    | Cond(test: Expr, t: Expr, f: Expr)
    | Asg(name: string, e: Expr)
    | OpAsg(name: string, op: string, e: Expr)
    | Pre(up: bool, name: string)
    | Post(up: bool, name: string)

  function OpsOf(k: nat): set<string> {
    if k == 0 then {","}
    else if k == 2 then {"||"}
    else if k == 3 then {"&&"}
    else if k == 4 then {"|"}
    else if k == 5 then {"^"}
    else if k == 6 then {"&"}
    else if k == 7 then {"==", "!="}
    else if k == 8 then {"<=", ">=", "<", ">"}
    else if k == 9 then {"<<", ">>"}
    else if k == 10 then {"+", "-"}
    else if k == 11 then {"*", "/", "%"}
    else {}
  }

  function LevelOf(op: string): (k: nat)
    ensures k <= UNARY
    ensures k < UNARY ==> op in OpsOf(k)
  {
    if op == "," then 0 else if op == "||" then 2 else if op == "&&" then 3 else if op == "|" then 4
    else if op == "^" then 5 else if op == "&" then 6
    else if op in {"==", "!="} then 7 else if op in {"<=", ">=", "<", ">"} then 8
    else if op in {"<<", ">>"} then 9 else if op in {"+", "-"} then 10
    else if op in {"*", "/", "%"} then 11 else UNARY
  }

  const ASSIGN_OPS := {"+", "-", "*", "/", "%", "&", "^", "|", "<<", ">>"}

  predicate Letter(c: char) {
    'a' <= c <= 'z' || 'A' <= c <= 'Z'
  }

  /** Letters, digits and underscores, the first of them no digit. */
  predicate IsName(s: string) {
    && s != "" && (Letter(s[0]) || s[0] == '_')
    && forall i :: 0 <= i < |s| ==> Letter(s[i]) || s[i] == '_' || '0' <= s[i] <= '9'
  }

  predicate WfExpr(e: Expr) {
    match e
    case Num(_) => true
    case Var(name) => IsName(name)
    case Bin(op, l, r) => LevelOf(op) < UNARY && WfExpr(l) && WfExpr(r)
    case Un(c, e1) => c in "+-!~" && WfExpr(e1)
    case Cond(test, t, f) => WfExpr(test) && WfExpr(t) && WfExpr(f)
    case Asg(name, e1) => IsName(name) && WfExpr(e1)
    case OpAsg(name, op, e1) => IsName(name) && op in ASSIGN_OPS && WfExpr(e1)
    case Pre(_, name) => IsName(name)
    case Post(_, name) => IsName(name)
  }

  // ---- values ----

  function Prec(e: Expr): (k: nat)
    ensures k <= UNARY
  {
    match e
    case Bin(op, _, _) => LevelOf(op)
    case Cond(_, _, _) => COND
    case _ => UNARY
  }

  /** What is left unread: operators with their right operands, or the branches of a conditional. */
  datatype Item = Op(op: string, r: Expr) | Branches(t: Expr, f: Expr)

  /**
   `Val` is a value, and `Fails` an error. A zero divisor in an operand that is only read ends the multiplication it stands
   in with value 0: that is `Ended`. If the multiplication is not over there, reading halts in front of the rest of it.
   */
  datatype Val =
    | Val(v: int, env: Chain)
    | Ended(env: Chain)
    | Halt(v: int, env: Chain, rem: seq<Item>)
    | Fails

  predicate Sane(r: Val) {
    (r.Val? || r.Halt? ==> In64(r.v)) && (r.Halt? ==> r.rem != [])
  }

  /** What is in parentheses must be read to its end. */
  function Settle(r: Val): (q: Val)
    ensures q.Val? || q.Fails?
    ensures Sane(r) ==> Sane(q)
  {
    match r
    case Val(_, _) => r
    case Ended(env) => Val(0, env)
    case _ => Fails
  }

  function Size(e: Expr): (n: nat)
    ensures n > 0
  {
    match e
    case Bin(_, l, r) => 1 + Size(l) + Size(r)
    case Un(_, e1) => 1 + Size(e1)
    case Cond(test, t, f) => 1 + Size(test) + Size(t) + Size(f)
    case Asg(_, e1) => 1 + Size(e1)
    case OpAsg(_, _, e1) => 1 + Size(e1)
    case _ => 1
  }

  function ItemSize(i: Item): nat {
    match i
    case Op(_, r) => 1 + Size(r)
    case Branches(t, f) => 1 + Size(t) + Size(f)
  }

  function RemSize(rem: seq<Item>): nat {
    if rem == [] then 0 else ItemSize(rem[0]) + RemSize(rem[1..])
  }

  lemma {:induction false} RemSizeAdd(rem: seq<Item>, i: Item)
    ensures RemSize(rem + [i]) == RemSize(rem) + ItemSize(i)
    decreases |rem|
  {
    if rem == [] {
      assert rem + [i] == [i] && [i][1..] == [];
    } else {
      assert (rem + [i])[1..] == rem[1..] + [i];
      RemSizeAdd(rem[1..], i);
    }
  }

  /** Reading back what was stored: the digits saturate before the sign is applied. */
  function ReadBack(n: int): int {
    if n == MIN64 then MIN64 + 1 else n
  }

  function ValueOf(env: Chain, name: string): (v: int)
    ensures In64(v)
  {
    var text := TextOf(env, name);
    if text == "" then 0
    else if text[0] == '-' then -(Saturate(Digits(text[1..], 10, 0).n) as int)
    else Saturate(Digits(text, 10, 0).n)
  }

  function Saturate(n: nat): (r: nat)
    ensures r <= MAX64
  {
    if n > MAX64 then MAX64 else n
  }

  function UnaryOf(c: char, v: int): (r: int)
    requires In64(v)
    ensures In64(r)
  {
    if c == '-' then Wrap(-v) else if c == '!' then Truth(v == 0) else if c == '~' then -v - 1 else v
  }

  function Stepped(up: bool, v: int): (r: int)
    ensures In64(r)
  {
    Wrap(if up then v + 1 else v - 1)
  }

  /**
   How the evaluator reads the text of a tree, with the environment after it; with `x`, nothing is executed. Apart from
   the rest that a zero divisor leaves unread this is the usual meaning.
   */
  function Eval(e: Expr, env: Chain, x: bool): (r: Val)
    ensures Sane(r)
    ensures r.Halt? ==> RemSize(r.rem) < Size(e)
    decreases Size(e), 1
  {
    match e
    case Num(n) => Val(Saturate(n), env)
    case Var(name) => Val(ValueOf(env, name), env)
    case Bin(op, l, r) => AfterLeft(op, Operand(LevelOf(op), l, env, x), r, x)
    case Un(c, e1) =>
      (match Settle(Eval(e1, env, x))
       case Val(v, env1) => Val(UnaryOf(c, v), env1)
       case z => Fails)
    case Cond(test, t, f) => AfterTest(Operand(COND + 1, test, env, x), t, f, x)
    case Asg(name, e1) => AfterAssigned(name, Operand(COND, e1, env, x), x)
    case OpAsg(name, op, e1) => AfterUpdate(name, op, ValueOf(env, name), Operand(COND, e1, env, x), x)
    case Pre(up, name) =>
      var v := Stepped(up, ValueOf(env, name));
      Val(v, Store(env, name, v, x))
    case Post(up, name) =>
      var v := ValueOf(env, name);
      Val(v, Store(env, name, Stepped(up, v), x))
  }

  /** A binary operator, with its left operand read. */
  function AfterLeft(op: string, q: Val, r: Expr, x: bool): (p: Val)
    requires Sane(q)
    ensures Sane(p)
    ensures p.Halt? ==> RemSize(p.rem) <= 1 + Size(r) + (if q.Halt? then RemSize(q.rem) else 0)
    decreases Size(r), 4
  {
    match q
    case Val(a, env) => Right(op, a, env, r, x)
    case Ended(env) => if LevelOf(op) == MUL then Halt(0, env, [Op(op, r)]) else Right(op, 0, env, r, x)
    case Halt(a, env, rem) =>
      RemSizeAdd(rem, Op(op, r));
      Halt(a, env, rem + [Op(op, r)])
    case Fails => Fails
  }

  /** A conditional, with its condition read. */
  function AfterTest(q: Val, t: Expr, f: Expr, x: bool): (p: Val)
    requires Sane(q)
    ensures Sane(p)
    ensures p.Halt? ==> RemSize(p.rem) <= 1 + Size(t) + Size(f) + (if q.Halt? then RemSize(q.rem) else 0)
    decreases Size(t) + Size(f), 5
  {
    match q
    case Val(a, env) => Choice(a, env, t, f, x)
    case Ended(env) => Choice(0, env, t, f, x)
    case Halt(a, env, rem) =>
      RemSizeAdd(rem, Branches(t, f));
      Halt(a, env, rem + [Branches(t, f)])
    case Fails => Fails
  }

  function Left(q: Val): seq<Item> {
    if q.Halt? then q.rem else []
  }

  /** An assignment, with its right side read. */
  function AfterAssigned(name: string, q: Val, x: bool): (p: Val)
    requires Sane(q)
    ensures Sane(p) && (p.Val? || p.Fails?)
    decreases RemSize(Left(q)), 6
  {
    match q
    case Val(v, env) => Val(v, Store(env, name, v, x))
    case Ended(env) => Val(0, Store(env, name, 0, x))
    case Halt(v, env, rem) => Resume(v, Store(env, name, v, x), rem, x)
    case Fails => Fails
  }

  /** A compound assignment to a variable that was `a`, with its right side read. */
  function AfterUpdate(name: string, op: string, a: int, q: Val, x: bool): (p: Val)
    requires In64(a) && Sane(q)
    ensures Sane(p) && (p.Val? || p.Fails?)
    decreases RemSize(Left(q)), 6
  {
    match q
    case Val(b, env) => Update(name, op, a, b, env, x)
    case Ended(env) => Update(name, op, a, 0, env, x)
    case Halt(b, env, rem) =>
      var u := Update(name, op, a, b, env, x);
      if u.Val? then Resume(u.v, u.env, rem, x) else Fails
    case Fails => Fails
  }

  /** Where an operand of level `k` is wanted, a weaker one is in parentheses. */
  function Operand(k: nat, e: Expr, env: Chain, x: bool): (r: Val)
    ensures Sane(r)
    ensures r.Halt? ==> RemSize(r.rem) < Size(e)
    decreases Size(e), 2
  {
    if Prec(e) < k then Settle(Eval(e, env, x)) else Eval(e, env, x)
  }

  /** The right operand, read and combined with the left one. */
  function Right(op: string, a: int, env: Chain, r: Expr, x: bool): (q: Val)
    requires In64(a)
    ensures Sane(q)
    ensures q.Halt? ==> RemSize(q.rem) < Size(r)
    decreases Size(r), 3
  {
    Joined(op, a, Operand(LevelOf(op) + 1, r, env, x || Skips(op, a)), x)
  }

  function Joined(op: string, a: int, q: Val, x: bool): (p: Val)
    requires In64(a) && Sane(q)
    ensures Sane(p) && (p.Halt? ==> q.Halt? && p.rem == q.rem)
  {
    match q
    case Val(b, env1) => Combine(op, a, b, env1, x)
    case Ended(env1) => Combine(op, a, 0, env1, x)
    case Halt(b, env1, rem) => if Divides(op) then Fails else Halt(Apply(op, a, b), env1, rem)
    case Fails => Fails
  }

  function Combine(op: string, a: int, b: int, env: Chain, x: bool): (q: Val)
    requires In64(a) && In64(b)
    ensures Sane(q) && !q.Halt?
  {
    if Divides(op) && b == 0 then (if x then Ended(env) else Fails) else Val(Apply(op, a, b), env)
  }

  /** The branches of a conditional: both are read, one of them without effect. */
  function Choice(a: int, env: Chain, t: Expr, f: Expr, x: bool): (q: Val)
    requires In64(a)
    ensures Sane(q) && !q.Ended?
    ensures q.Halt? ==> RemSize(q.rem) < Size(f)
    decreases Size(t) + Size(f), 4
  {
    match Settle(Eval(t, env, x || a == 0))
    case Val(b, env1) =>
      Branch(a, b, Operand(COND, f, env1, x || a != 0))
    case z => Fails
  }

  function Branch(a: int, b: int, q: Val): (p: Val)
    requires In64(b) && Sane(q)
    ensures Sane(p) && !p.Ended? && (p.Halt? ==> q.Halt? && p.rem == q.rem)
  {
    match q
    case Val(c, env2) => Val(if a != 0 then b else c, env2)
    case Ended(env2) => Val(if a != 0 then b else 0, env2)
    case Halt(c, env2, rem) => Halt(if a != 0 then b else c, env2, rem)
    case Fails => Fails
  }

  /** A compound assignment of `b` to a variable that was `a`. */
  function Update(name: string, op: string, a: int, b: int, env: Chain, x: bool): (q: Val)
    requires In64(a) && In64(b)
    ensures Sane(q) && (q.Val? || q.Fails?)
  {
    if Divides(op) && b == 0 then (if x then Val(0, env) else Fails)
    else
      var v := ApplyAssign(op, a, b);
      Val(v, Store(env, name, v, x))
  }

  /**
   The right side of an assignment that halted is not lost: the levels around the assignment go on reading, with the
   assigned value as their left operand. A second halt is an error.
   */
  function Resume(v: int, env: Chain, rem: seq<Item>, x: bool): (q: Val)
    requires In64(v)
    ensures Sane(q) && (q.Val? || q.Fails?)
    decreases RemSize(rem), 5
  {
    if rem == [] then Val(v, env)
    else
      match (match rem[0]
             case Op(op, r) => Right(op, v, env, r, x)
             case Branches(t, f) => Choice(v, env, t, f, x))
      case Val(w, env1) => Resume(w, env1, rem[1..], x)
      case Ended(env1) => if |rem| > 1 && ItemLevel(rem[1]) == MUL then Fails else Resume(0, env1, rem[1..], x)
      case z => Fails
  }

  function ItemLevel(i: Item): nat {
    match i
    case Op(op, _) => LevelOf(op)
    case Branches(_, _) => COND
  }

  /** The usual meaning, in which a skipped operand is not looked at. Nothing if a divisor is zero. */
  function Meaning(e: Expr, env: Chain): (r: Val)
    ensures (r.Val? && In64(r.v)) || r.Fails?
  {
    match e
    case Num(n) => Val(Saturate(n), env)
    case Var(name) => Val(ValueOf(env, name), env)
    case Bin(op, l, r) =>
      var a := Meaning(l, env);
      if !a.Val? then a
      else if op == "&&" && a.v == 0 then Val(0, a.env)
      else if op == "||" && a.v != 0 then Val(1, a.env)
      else
        var b := Meaning(r, a.env);
        if !b.Val? then b else if Divides(op) && b.v == 0 then Fails else Val(Apply(op, a.v, b.v), b.env)
    case Un(c, e1) =>
      var a := Meaning(e1, env);
      if a.Val? then Val(UnaryOf(c, a.v), a.env) else a
    case Cond(test, t, f) =>
      var a := Meaning(test, env);
      if a.Val? then Meaning(if a.v != 0 then t else f, a.env) else a
    case Asg(name, e1) =>
      var a := Meaning(e1, env);
      if a.Val? then Val(a.v, Store(a.env, name, a.v, false)) else a
    case OpAsg(name, op, e1) =>
      var b := Meaning(e1, env);
      if !b.Val? then b
      else if Divides(op) && b.v == 0 then Fails
      else
        var v := ApplyAssign(op, ValueOf(env, name), b.v);
        Val(v, Store(b.env, name, v, false))
    case Pre(up, name) =>
      var v := Stepped(up, ValueOf(env, name));
      Val(v, Store(env, name, v, false))
    case Post(up, name) =>
      var v := ValueOf(env, name);
      Val(v, Store(env, name, Stepped(up, v), false))
  }

  lemma UnIs(e: Expr, env: Chain, x: bool)
    ensures Settle(Operand(UNARY, e, env, x)) == Settle(Eval(e, env, x))
  {
  }

  // ---- when the evaluator agrees with the meaning ----

  /** Reading the tree halts somewhere. */
  predicate Halts(e: Expr, env: Chain, x: bool)
    decreases Size(e), 1
  {
    match e
    case Bin(op, l, r) =>
      Halts(l, env, x)
      || (match Operand(LevelOf(op), l, env, x)
          case Val(a, env1) => Halts(r, env1, x || Skips(op, a))
          case Ended(env1) => LevelOf(op) == MUL || Halts(r, env1, x || Skips(op, 0))
          case z => false)
    case Un(_, e1) => Halts(e1, env, x)
    case Cond(test, t, f) =>
      Halts(test, env, x)
      || (match Settle(Eval(test, env, x))
          case Val(a, env1) =>
            Halts(t, env1, x || a == 0)
            || (match Settle(Eval(t, env1, x || a == 0))
                case Val(_, env2) => Halts(f, env2, x || a != 0)
                case z => false)
          case z => false)
    case Asg(_, e1) => Halts(e1, env, x)
    case OpAsg(_, _, e1) => Halts(e1, env, x)
    case _ => false
  }

  predicate AssignFree(e: Expr) {
    match e
    case Bin(_, l, r) => AssignFree(l) && AssignFree(r)
    case Un(_, e1) => AssignFree(e1)
    case Cond(test, t, f) => AssignFree(test) && AssignFree(t) && AssignFree(f)
    case Asg(_, _) => false
    case OpAsg(_, _, _) => false
    case _ => true
  }

  /** Where reading halts nowhere, a skipped operand is read to its end and changes nothing. */
  lemma OperandIs(k: nat, e: Expr, env: Chain, x: bool)
    ensures var r, q := Eval(e, env, x), Operand(k, e, env, x);
            && (r.Val? ==> q == r) && (r.Ended? ==> Settle(q) == Settle(r)) && (Settle(r).Fails? ==> Settle(q).Fails?)
            && (q.Ended? ==> r.Ended?) && (q.Val? ==> q == Settle(r)) && (r.Fails? ==> q.Fails?)
  {
  }

  lemma ChoiceIs(a: int, env: Chain, t: Expr, f: Expr, x: bool)
    requires In64(a)
    ensures var b, q := Settle(Eval(t, env, x || a == 0)), Choice(a, env, t, f, x);
            if b.Fails? then q.Fails?
            else
              var c := Settle(Eval(f, b.env, x || a != 0));
              if c.Fails? then Settle(q).Fails? && (Eval(f, b.env, x || a != 0).Fails? ==> q.Fails?) else q == Val(if a != 0 then b.v else c.v, c.env)
  {
    var b := Settle(Eval(t, env, x || a == 0));
    if b.Val? { OperandIs(COND, f, b.env, x || a != 0); }
  }

  lemma RightIs(op: string, a: int, env: Chain, r: Expr, x: bool)
    requires In64(a)
    ensures var b, q := Eval(r, env, x || Skips(op, a)), Right(op, a, env, r, x);
            && (b.Val? || b.Ended? ==> q == Combine(op, a, Settle(b).v, Settle(b).env, x))
            && (Settle(b).Fails? ==> Settle(q).Fails?) && (b.Fails? ==> q.Fails?)
  {
    hide Combine, Apply;
  }

  lemma {:induction false} SkipKeepsEnv(e: Expr, env: Chain)
    requires !Halts(e, env, true)
    ensures var r := Eval(e, env, true); (r.Val? || r.Ended?) && r.env == env
    decreases e
  {
    hide Apply, ApplyAssign, ValueOf;
    match e {
      case Num(_) =>
      case Var(_) =>
      case Bin(op, l, r) =>
        SkipKeepsEnv(l, env);
        SkipKeepsEnv(r, env);
        var a := Settle(Eval(l, env, true));
        OperandIs(LevelOf(op), l, env, true);
        RightIs(op, a.v, env, r, true);
      case Un(_, e1) => SkipKeepsEnv(e1, env);
      case Cond(test, t, f) =>
        SkipKeepsEnv(test, env);
        SkipKeepsEnv(t, env);
        SkipKeepsEnv(f, env);
        OperandIs(COND + 1, test, env, true);
        ChoiceIs(Settle(Eval(test, env, true)).v, env, t, f, true);
      case Asg(_, e1) => SkipKeepsEnv(e1, env); OperandIs(COND, e1, env, true);
      case OpAsg(_, _, e1) => SkipKeepsEnv(e1, env); OperandIs(COND, e1, env, true);
      case Pre(_, _) =>
      case Post(_, _) =>
    }
  }

  /** Where reading halts nowhere, reading the skipped operands as well makes no difference. */
  lemma {:induction false} EvalIsMeaning(e: Expr, env: Chain)
    requires !Halts(e, env, false)
    ensures Meaning(e, env) == Eval(e, env, false)
    decreases e
  {
    hide ValueOf, Store, Apply, ApplyAssign;
    match e {
      case Num(_) =>
      case Var(_) =>
      case Bin(op, l, r) =>
        EvalIsMeaning(l, env);
        OperandIs(LevelOf(op), l, env, false);
        var a := Eval(l, env, false);
        if a.Val? {
          RightIs(op, a.v, a.env, r, false);
          if Skips(op, a.v) {
            SkipKeepsEnv(r, a.env);
            SkippedValue(op, a.v);
          } else {
            EvalIsMeaning(r, a.env);
          }
        }
      case Un(_, e1) => EvalIsMeaning(e1, env);
      case Cond(test, t, f) =>
        EvalIsMeaning(test, env);
        OperandIs(COND + 1, test, env, false);
        var a := Eval(test, env, false);
        if a.Val? {
          ChoiceIs(a.v, a.env, t, f, false);
          if a.v != 0 {
            EvalIsMeaning(t, a.env);
            var b := Eval(t, a.env, false);
            if b.Val? { SkipKeepsEnv(f, b.env); }
          } else {
            SkipKeepsEnv(t, a.env);
            EvalIsMeaning(f, a.env);
          }
        }
      case Asg(_, e1) => EvalIsMeaning(e1, env); OperandIs(COND, e1, env, false);
      case OpAsg(_, _, e1) => EvalIsMeaning(e1, env); OperandIs(COND, e1, env, false);
      case Pre(_, _) =>
      case Post(_, _) =>
    }
  }

  lemma SkippedValue(op: string, a: int)
    requires In64(a) && Skips(op, a)
    ensures forall b :: In64(b) ==> Apply(op, a, b) == (if op == "&&" then 0 else 1)
  {
  }

  /** A halt is an error, unless it is on the right side of an assignment. */
  lemma {:induction false} HaltFails(e: Expr, env: Chain, x: bool)
    requires Halts(e, env, x) && AssignFree(e)
    ensures Settle(Eval(e, env, x)).Fails?
    decreases e
  {
    hide ValueOf, Store, Apply;
    match e {
      case Bin(op, l, r) =>
        OperandIs(LevelOf(op), l, env, x);
        if Halts(l, env, x) {
          HaltFails(l, env, x);
        } else {
          var a := Settle(Eval(l, env, x));
          var q := Operand(LevelOf(op), l, env, x);
          if a.Val? && Halts(r, a.env, x || Skips(op, a.v)) {
            HaltFails(r, a.env, x || Skips(op, a.v));
            RightIs(op, a.v, a.env, r, x);
            assert Settle(AfterLeft(op, q, r, x)).Fails?;
          }
        }
      case Un(_, e1) => HaltFails(e1, env, x);
      case Cond(test, t, f) =>
        OperandIs(COND + 1, test, env, x);
        if Halts(test, env, x) {
          HaltFails(test, env, x);
        } else {
          var a := Settle(Eval(test, env, x));
          if a.Val? {
            ChoiceIs(a.v, a.env, t, f, x);
            if Halts(t, a.env, x || a.v == 0) {
              HaltFails(t, a.env, x || a.v == 0);
            } else {
              var b := Settle(Eval(t, a.env, x || a.v == 0));
              if b.Val? && Halts(f, b.env, x || a.v != 0) { HaltFails(f, b.env, x || a.v != 0); }
            }
          }
        }
      case _ =>
    }
  }

  // ---- text ----

  /** The text of a tree where an operand of level `k` is wanted. Assignments are always in parentheses. */
  function Print(k: nat, e: Expr): string
    decreases e, 1
  {
    if Prec(e) >= k then Body(e) else "(" + (" " + (Body(e) + " )"))
  }

  function Body(e: Expr): string
    decreases e, 0
  {
    match e
    case Num(n) => Decimal(n)
    case Var(name) => name
    case Bin(op, l, r) => Print(LevelOf(op), l) + (" " + (op + (" " + Print(LevelOf(op) + 1, r))))
    case Un(c, e1) => [c] + (" " + Print(UNARY, e1))
    case Cond(test, t, f) =>
      Print(COND + 1, test) + (" " + ("?" + (" " + (Print(COND, t) + (" " + (":" + (" " + Print(COND, f))))))))
    case Asg(name, e1) => "(" + (name + (" " + ("=" + (" " + (Print(COND, e1) + ")")))))
    case OpAsg(name, op, e1) => "(" + (name + (" " + (op + ("=" + (" " + (Print(COND, e1) + ")"))))))
    case Pre(up, name) => (if up then "++" else "--") + name
    case Post(up, name) => name + (if up then "++" else "--")
  }
}
