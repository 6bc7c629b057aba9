/** The evaluator on the text of a tree gives the value of the tree. */
module ArithCorrect {
  import opened Int64
  import opened Scopes
  import opened Arith
  import opened ArithFacts
  import opened ArithTrees

  // ---- numbers and names ----

  lemma {:induction false} DigitsDecimal(n: nat, rest: string)
    ensures Digits(Decimal(n) + rest, 10, 0) == Digits(rest, 10, n)
    decreases n
  {
    var last := (n % 10) as char + '0';
    if n < 10 {
      assert Decimal(n) + rest == [n as char + '0'] + rest;
      assert (Decimal(n) + rest)[1..] == rest;
    } else {
      assert Decimal(n) + rest == Decimal(n / 10) + ([last] + rest);
      DigitsDecimal(n / 10, [last] + rest);
      assert ([last] + rest)[1..] == rest;
    }
  }

  lemma {:induction false} DecimalHead(n: nat)
    ensures IsDigit(Decimal(n)[0]) && (n > 0 ==> Decimal(n)[0] != '0')
    decreases n
  {
    if n >= 10 { DecimalHead(n / 10); }
  }

  /** What may follow a number or a name. */
  predicate Clean(rest: string) {
    rest == "" || rest[0] == ' ' || rest[0] == ')'
  }

  lemma NumberDecimal(n: nat, rest: string)
    requires Clean(rest)
    ensures var u := Decimal(n) + rest; IsDigit(Ch(u, 0)) && Number(u) == Read(Saturate(n), rest)
  {
    var u := Decimal(n) + rest;
    DecimalHead(n);
    assert u[0] == Decimal(n)[0];
    assert Digits(rest, 10, n) == Read(n, rest);
    DigitsDecimal(n, rest);
    if n == 0 {
      assert u == "0" + rest && u[1..] == rest;
      assert Digits(rest, 8, 0) == Read(0, rest);
    } else {
      assert Digits(u, 10, 0) == Digits(u[1..], 10, (u[0] - '0') as nat);
    }
  }

  lemma {:induction false} NameLength(name: string, rest: string)
    requires Clean(rest) || (rest != "" && !IdentChar(rest[0]))
    requires forall i :: 0 <= i < |name| ==> IdentChar(name[i])
    ensures IdentLen(name + rest) == |name|
    decreases |name|
  {
    if name == "" {
      assert name + rest == rest;
    } else {
      assert (name + rest)[1..] == name[1..] + rest;
      NameLength(name[1..], rest);
    }
  }

  // ---- blanks ----

  lemma {:induction false} SkipTwice(u: string)
    ensures Skip(Skip(u)) == Skip(u)
    decreases |u|
  {
    if u != "" && IsBlank(u[0]) { SkipTwice(u[1..]); }
  }

  lemma SkipSpace(u: string)
    ensures Skip(" " + u) == Skip(u)
  {
    assert (" " + u)[1..] == u;
  }

  lemma {:induction false} Blanks(k: nat, s: St, d: nat, x: bool)
    requires k <= UNARY && d <= MAX_DEPTH
    ensures Parse(k, s.(u := Skip(s.u)), d, x) == Parse(k, s, d, x)
    decreases UNARY - k
  {
    SkipTwice(s.u);
    if k < UNARY {
      hide Rest, Choose, Unary;
      Blanks(k + 1, s, d, x);
    } else {
      hide Primary, PreStep;
    }
  }

  /** A space in front makes no difference. */
  lemma OneSpace(k: nat, s: St, u: string, d: nat, x: bool)
    requires k <= UNARY && d <= MAX_DEPTH && s.u == " " + u
    ensures Parse(k, s, d, x) == Parse(k, s.(u := u), d, x)
  {
    hide Parse;
    SkipSpace(u);
    Blanks(k, s, d, x);
    Blanks(k, s.(u := u), d, x);
  }

  lemma RestSkips(k: nat, v: int, s: St, t: St, d: nat, x: bool)
    requires k <= MUL && k != COND && d <= MAX_DEPTH && In64(v)
    requires Skip(s.u) == Skip(t.u) && s.env == t.env && s.err == t.err
    ensures Rest(k, v, s, d, x) == Rest(k, v, t, d, x)
  {
    hide Parse;
  }

  // ---- what may follow an operand of level k ----

  predicate NoOpAbove(k: nat, u: string) {
    forall j :: k < j <= MUL ==> OpAt(j, u) == ""
  }

  predicate Quiet(k: nat, rest: string) {
    var u := Skip(rest);
    && Clean(rest) && NoOpAbove(k, u) && AssignOpAt(u) == ""
    && (k <= COND ==> Ch(u, 0) != '?')
    && !(Ch(u, 0) == '=' && Ch(u, 1) != '=')
    && !(Ch(u, 0) == '+' && Ch(u, 1) == '+') && !(Ch(u, 0) == '-' && Ch(u, 1) == '-')
  }

  lemma QuietMore(k: nat, j: nat, rest: string)
    requires Quiet(k, rest) && k <= j
    ensures Quiet(j, rest)
  {
    hide OpAt;
  }

  /** The end of the text, a closing parenthesis and a colon end every operand. */
  lemma QuietEnd(k: nat, rest: string)
    requires Clean(rest) && (Skip(rest) == "" || Skip(rest)[0] == ')' || Skip(rest)[0] == ':')
    ensures Quiet(k, rest)
  {
    var u := Skip(rest);
    forall j | k < j <= MUL ensures OpAt(j, u) == "" {
    }
  }

  lemma QuietMark(k: nat, rest: string)
    requires k > COND && Clean(rest) && Skip(rest) != "" && Skip(rest)[0] == '?'
    ensures Quiet(k, rest)
  {
    var u := Skip(rest);
    forall j | k < j <= MUL ensures OpAt(j, u) == "" {
    }
  }

  /** An operator of level `k` between blanks ends an operand of its level, and is found there. */
  lemma QuietOp(op: string, more: string)
    requires LevelOf(op) < UNARY
    ensures var u := op + (" " + more);
            Skip(" " + u) == u && OpAt(LevelOf(op), u) == op && Quiet(LevelOf(op), " " + u) && u[|op|..] == " " + more
  {
    var u := op + (" " + more);
    var k := LevelOf(op);
    OpShape(op);
    assert u[0] == op[0];
    assert u[|op|] == ' ';
    assert |op| == 2 ==> u[1] == op[1];
    SkipSpace(u);
    assert Skip(u) == u;
    OpFound(op, u);
    assert u[|op|..] == " " + more;
  }

  lemma OpShape(op: string)
    requires LevelOf(op) < UNARY
    ensures 1 <= |op| <= 2 && !IsBlank(op[0])
  {
  }

  lemma OpFound(op: string, u: string)
    requires LevelOf(op) < UNARY && 1 <= |op| <= 2 && |op| < |u| && u[..|op|] == op && u[|op|] == ' '
    ensures OpAt(LevelOf(op), u) == op && NoOpAbove(LevelOf(op), u) && AssignOpAt(u) == "" && Ch(u, 0) != '?'
    ensures !(Ch(u, 0) == '=' && Ch(u, 1) != '=')
    ensures !(Ch(u, 0) == '+' && Ch(u, 1) == '+') && !(Ch(u, 0) == '-' && Ch(u, 1) == '-')
  {
    assert op[0] == u[0] && (|op| == 2 ==> op[1] == u[1]);
    var k := LevelOf(op);
    forall j | k < j <= MUL ensures OpAt(j, u) == "" {
    }
  }

  // ---- what is left unread ----

  function ItemText(i: Item, more: string): string {
    match i
    case Op(op, r) => op + (" " + (Print(LevelOf(op) + 1, r) + more))
    case Branches(t, f) =>
      "?" + (" " + (Print(COND, t) + (" " + (":" + (" " + (Print(COND, f) + more))))))
  }

  /** The text of the items, with `rest` behind them. */
  function Tail(rem: seq<Item>, rest: string): string {
    if rem == [] then rest else " " + ItemText(rem[0], Tail(rem[1..], rest))
  }

  lemma {:induction false} TailAdd(rem: seq<Item>, i: Item, rest: string)
    ensures Tail(rem + [i], rest) == Tail(rem, " " + ItemText(i, rest))
    decreases |rem|
  {
    hide ItemText;
    if rem == [] {
      assert rem + [i] == [i] && [i][1..] == [];
    } else {
      assert (rem + [i])[1..] == rem[1..] + [i];
      TailAdd(rem[1..], i, rest);
    }
  }

  predicate FirstMul(rem: seq<Item>) {
    rem != [] && rem[0].Op? && LevelOf(rem[0].op) == MUL
  }

  /** At an operator of a multiplication no level below takes over, and nothing else is ended by it. */
  lemma TailMul(rem: seq<Item>, rest: string)
    requires FirstMul(rem)
    ensures var u := Skip(Tail(rem, rest));
            && Skip(u) == u && (forall k: nat :: k < MUL ==> OpAt(k, u) == "")
            && Ch(u, 0) != '?' && Ch(u, 0) != ':' && Ch(u, 0) != ')' && Ch(u, 0) != '\0'
  {
    var op := rem[0].op;
    var more := Print(LevelOf(op) + 1, rem[0].r) + Tail(rem[1..], rest);
    var u := op + (" " + more);
    hide Print, Tail;
    assert Tail(rem, rest) == " " + u by { TailOp(rem, rest); }
    SkipSpace(u);
    assert op in {"*", "/", "%"};
    hide LevelOf, OpAt;
    MulStops(op, more);
  }

  lemma MulStops(op: string, more: string)
    requires op in {"*", "/", "%"}
    ensures var u := op + (" " + more);
            && Skip(u) == u && (forall k: nat :: k < MUL ==> OpAt(k, u) == "")
            && Ch(u, 0) != '?' && Ch(u, 0) != ':' && Ch(u, 0) != ')' && Ch(u, 0) != '\0'
  {
    var u := op + (" " + more);
    assert u[0] == op[0] && u[1] == ' ';
  }

  lemma TailOp(rem: seq<Item>, rest: string)
    requires rem != [] && rem[0].Op?
    ensures Tail(rem, rest)
            == " " + (rem[0].op + (" " + (Print(LevelOf(rem[0].op) + 1, rem[0].r) + Tail(rem[1..], rest))))
  {
  }

  // ---- from one level to the one below ----

  /** The outcome is a value, and reading has come to `rest`. */
  predicate Landing(o: Out, v: int, env: Chain, rest: string) {
    o.v == v && o.s.env == env && o.s.err == NoErr && Skip(o.s.u) == Skip(rest)
  }

  predicate InLoop(k: nat) {
    k <= MUL && k != COND
  }

  /** The outcome `o` at level `k` of reading a tree with result `r`, when `rest` is still to be read. */
  ghost predicate Meets(k: nat, o: Out, r: Val, rest: string, d: nat, x: bool)
    requires k <= UNARY && d <= MAX_DEPTH && Sane(r)
  {
    match r
    case Val(v, env) => if InLoop(k) then o == Rest(k, v, St(rest, env, NoErr), d, x) else Landing(o, v, env, rest)
    case Ended(env) =>
      if InLoop(k) && k != MUL then o == Rest(k, 0, St(rest, env, NoErr), d, x) else Landing(o, 0, env, rest)
    case Halt(v, env, rem) => k <= MUL && FirstMul(rem) && Landing(o, v, env, Tail(rem, rest))
    case Fails => o.s.err != NoErr
  }

  /** Nothing that follows belongs to the operand, so the outcome is just its value. */
  lemma Landed(k: nat, o: Out, r: Val, rest: string, d: nat, x: bool)
    requires 0 < k <= UNARY && d <= MAX_DEPTH && Sane(r) && Quiet(k - 1, rest)
    requires (r.Val? || r.Ended?) && Meets(k, o, r, rest, d, x)
    ensures Landing(o, Settle(r).v, Settle(r).env, rest)
  {
    SkipTwice(rest);
    if InLoop(k) {
      assert OpAt(k, Skip(rest)) == "";
      hide OpAt;
    }
  }

  lemma ParseIs(k: nat, s: St, d: nat, x: bool)
    requires k < UNARY && d <= MAX_DEPTH
    ensures var o := Parse(k + 1, s, d, x);
            Parse(k, s, d, x) == if k == COND then Choose(o.v, o.s, d, x) else Rest(k, o.v, o.s, d, x)
  {
    hide Rest, Choose;
  }

  lemma ChooseEnds(cond: int, s: St, d: nat, x: bool)
    requires d <= MAX_DEPTH && In64(cond) && (s.err != NoErr || Ch(Skip(s.u), 0) != '?')
    ensures Choose(cond, s, d, x) == Out(cond, s.(u := Skip(s.u)))
  {
  }

  lemma Down(k: nat, s: St, r: Val, rest: string, d: nat, x: bool)
    requires k < UNARY && d <= MAX_DEPTH && Sane(r) && Quiet(k, rest) && (k == MUL ==> !r.Ended?)
    requires Meets(k + 1, Parse(k + 1, s, d, x), r, rest, d, x)
    ensures Meets(k, Parse(k, s, d, x), r, rest, d, x)
  {
    hide Rest, Choose, Parse, OpAt, Tail;
    var o := Parse(k + 1, s, d, x);
    ParseIs(k, s, d, x);
    match r {
      case Fails =>
        if k == COND { FactsChoose(o.v, o.s, d, x); } else { FactsRest(k, o.v, o.s, d, x); }
      case Halt(_, _, rem) =>
        TailMul(rem, rest);
        SkipTwice(o.s.u);
        if k == COND { ChooseEnds(o.v, o.s, d, x); } else { RestEnds(k, o.v, o.s, d, x); }
      case _ =>
        Landed(k + 1, o, r, rest, d, x);
        hide Quiet;
        if k == COND {
          QuietCond(k, rest);
          SkipTwice(o.s.u);
          ChooseEnds(o.v, o.s, d, x);
        } else {
          RestSkips(k, o.v, o.s, St(rest, o.s.env, NoErr), d, x);
        }
    }
  }

  lemma QuietCond(k: nat, rest: string)
    requires k <= COND && Quiet(k, rest)
    ensures Ch(Skip(rest), 0) != '?'
  {
  }

  lemma {:induction false} DownFrom(j: nat, k: nat, s: St, r: Val, rest: string, d: nat, x: bool)
    requires k <= j <= UNARY && d <= MAX_DEPTH && Sane(r) && Quiet(k, rest) && (j == UNARY ==> !r.Ended?)
    requires Meets(j, Parse(j, s, d, x), r, rest, d, x)
    ensures Meets(k, Parse(k, s, d, x), r, rest, d, x)
    decreases j - k
  {
    hide Parse, Quiet, Meets;
    if k < j {
      QuietMore(k, k + 1, rest);
      DownFrom(j, k + 1, s, r, rest, d, x);
      Down(k, s, r, rest, d, x);
    }
  }

  /** Where reading has come to an operator of a multiplication, the levels below end there too. */
  lemma {:induction false} StopsDown(j: nat, k: nat, s: St, u: string, d: nat, x: bool)
    requires k <= j <= MUL && d <= MAX_DEPTH && (forall i: nat :: i < MUL ==> OpAt(i, u) == "") && Ch(u, 0) != '?' && Skip(u) == u
    requires var o := Parse(j, s, d, x); o.s.err != NoErr || Skip(o.s.u) == u
    ensures var o := Parse(k, s, d, x); o.s.err != NoErr || Skip(o.s.u) == u
    decreases j - k
  {
    hide Parse, Rest, Choose, OpAt;
    if k < j {
      StopsDown(j, k + 1, s, u, d, x);
      var o := Parse(k + 1, s, d, x);
      ParseIs(k, s, d, x);
      if o.s.err != NoErr {
        if k == COND { FactsChoose(o.v, o.s, d, x); } else { FactsRest(k, o.v, o.s, d, x); }
      } else {
        if k == COND { ChooseEnds(o.v, o.s, d, x); } else { RestEnds(k, o.v, o.s, d, x); }
      }
    }
  }

  // ---- variables ----

  /** The variable holds the text of a 64-bit number, or nothing. */
  ghost predicate IsStored(env: Chain, name: string) {
    TextOf(env, name) == "" || exists n :: In64(n) && TextOf(env, name) == Show(n)
  }

  ghost predicate Stored(env: Chain, names: set<string>) {
    env != [] && forall name :: name in names ==> IsStored(env, name)
  }

  /** The variables the tree reads; those it only assigns may hold any text before. */
  predicate Over(e: Expr, names: set<string>) {
    match e
    case Num(_) => true
    case Var(name) => name in names
    case Bin(_, l, r) => Over(l, names) && Over(r, names)
    case Un(_, e1) => Over(e1, names)
    case Cond(test, t, f) => Over(test, names) && Over(t, names) && Over(f, names)
    case Asg(_, e1) => Over(e1, names)
    case OpAsg(name, _, e1) => name in names && Over(e1, names)
    case Pre(_, name) => name in names
    case Post(_, name) => name in names
  }

  lemma ReadsNumber(n: nat, rest: string, env: Chain, d: nat, x: bool)
    requires d <= MAX_DEPTH && Clean(rest)
    ensures Parse(UNARY, St(Decimal(n) + rest, env, NoErr), d, x) == Out(Saturate(n), St(rest, env, NoErr))
  {
    hide Number, Saturate;
    var u := Decimal(n) + rest;
    NumberDecimal(n, rest);
    DecimalHead(n);
    assert u[0] == Decimal(n)[0];
    assert Skip(u) == u;
    var s := St(u, env, NoErr);
    assert s.(u := u) == s;
    assert Primary(s, d, x) == Out(Saturate(n), St(rest, env, NoErr));
    assert Unary(s, d, x) == Primary(s, d, x);
  }

  lemma ReadsShown(n: int, env: Chain, d: nat, x: bool)
    requires In64(n) && d <= MAX_DEPTH
    ensures var o := Parse(0, St(Show(n), env, NoErr), d, x);
            o.v == ReadBack(n) && o.s.env == env && o.s.err == NoErr
  {
    hide Parse, Rest;
    QuietEnd(0, "");
    var s := St(Show(n), env, NoErr);
    var v := ReadBack(n);
    if n >= 0 {
      assert Show(n) == Decimal(n) + "";
      ReadsNumber(n, "", env, d, x);
    } else {
      assert Show(n) == "-" + Decimal(-n) && Show(n)[1..] == Decimal(-n) + "";
      ReadsNumber(-n, "", env, d, x);
      DecimalHead(-n);
      assert Show(n)[1] == Decimal(-n)[0];
      ReadsMinus(s, d, x);
    }
    assert Parse(UNARY, s, d, x).v == v;
    DownFrom(UNARY, 0, s, Val(v, env), "", d, x);
    RestAtEnd(v, env, d, x);
  }

  lemma ReadsMinus(s: St, d: nat, x: bool)
    requires d <= MAX_DEPTH && s.err == NoErr && |s.u| >= 2 && s.u[0] == '-' && IsDigit(s.u[1])
    ensures var o := Parse(UNARY, s.(u := s.u[1..]), d, x); Parse(UNARY, s, d, x) == Out(Wrap(-o.v), o.s)
  {
    hide Primary, PreStep;
    assert Skip(s.u) == s.u;
  }

  lemma RestAtEnd(v: int, env: Chain, d: nat, x: bool)
    requires d <= MAX_DEPTH && In64(v)
    ensures Rest(0, v, St("", env, NoErr), d, x) == Out(v, St("", env, NoErr))
  {
  }

  lemma ShownValue(n: int, text: string)
    requires In64(n) && text == Show(n)
    ensures text != "" && !IsBlank(text[0]) && text[0] != '\0'
    ensures (if text[0] == '-' then -(Saturate(Digits(text[1..], 10, 0).n) as int) else Saturate(Digits(text, 10, 0).n))
            == ReadBack(n)
  {
    var m: nat := if n < 0 then -n else n;
    DecimalHead(m);
    DigitsDecimal(m, "");
    assert Decimal(m) + "" == Decimal(m);
    if n < 0 { assert text[1..] == Decimal(m); }
  }

  /** A stored variable is resolved to its value, at any depth below the limit, and changes nothing. */
  lemma ResolveStored(name: string, s: St, d: nat, x: bool)
    requires IsStored(s.env, name) && d < MAX_DEPTH
    ensures Resolve(name, s, d, x) == Out(ValueOf(s.env, name), s)
  {
    hide Parse, Show, Digits;
    var text := TextOf(s.env, name);
    if text != "" {
      var n :| In64(n) && text == Show(n);
      ShownValue(n, text);
      ReadsShown(n, s.env, d + 1, x);
    }
  }

  /** What was stored is read back, except the smallest number, which comes back as the one above it. */
  lemma StoredReadsBack(env: Chain, name: string, n: int, u: string, d: nat, x: bool)
    requires env != [] && In64(n) && d < MAX_DEPTH && !Frozen(env, name)
    ensures Resolve(name, St(u, Store(env, name, n, false), NoErr), d, x).v == (if n == MIN64 then MIN64 + 1 else n)
  {
    hide Parse;
    AssignReads(env, name, Text(Show(n)), name);
    ShownValue(n, Show(n));
    ReadsShown(n, Store(env, name, n, false), d + 1, x);
  }

  lemma StoreStored(env: Chain, name: string, v: int, x: bool, names: set<string>)
    requires Stored(env, names) && In64(v)
    ensures Stored(Store(env, name, v, x), names)
  {
    hide Show;
    if !x {
      forall other | other in names ensures IsStored(Store(env, name, v, x), other) {
        AssignReads(env, name, Text(Show(v)), other);
        assert IsStored(env, other);
      }
    }
  }

  // ---- what a reading leaves ----

  predicate ItemOk(i: Item, lo: nat, names: set<string>) {
    lo <= ItemLevel(i)
    && match i
       case Op(op, r) => LevelOf(op) < UNARY && WfExpr(r) && Over(r, names)
       case Branches(t, f) => WfExpr(t) && WfExpr(f) && Over(t, names) && Over(f, names)
  }

  /** Items from the strongest to the weakest, down to level `lo`. */
  predicate RemOk(rem: seq<Item>, lo: nat, names: set<string>) {
    && (forall i :: 0 <= i < |rem| ==> ItemOk(rem[i], lo, names))
    && (forall i, j :: 0 <= i < j < |rem| ==> Below(rem[i], rem[j]))
  }

  predicate Below(i: Item, j: Item) {
    ItemLevel(j) <= ItemLevel(i) && (i.Branches? ==> ItemLevel(j) < COND)
  }

  lemma RemAdd(rem: seq<Item>, i: Item, names: set<string>)
    requires RemOk(rem, ItemLevel(i) + (if i.Branches? then 1 else 0), names) && ItemOk(i, ItemLevel(i), names)
    requires i.Branches? || ItemLevel(i) != COND
    ensures RemOk(rem + [i], ItemLevel(i), names)
  {
    var more := rem + [i];
    forall a | 0 <= a < |more| ensures ItemOk(more[a], ItemLevel(i), names) {
      if a < |rem| { assert ItemOk(rem[a], ItemLevel(i) + (if i.Branches? then 1 else 0), names); }
    }
    forall a, b | 0 <= a < b < |more| ensures Below(more[a], more[b]) {
      if b < |rem| { assert Below(rem[a], rem[b]); } else { assert ItemOk(rem[a], ItemLevel(i) + (if i.Branches? then 1 else 0), names); }
    }
  }

  lemma RemLess(rem: seq<Item>, lo: nat, lo1: nat, names: set<string>)
    requires RemOk(rem, lo, names) && lo1 <= lo
    ensures RemOk(rem, lo1, names)
  {
    forall a | 0 <= a < |rem| ensures ItemOk(rem[a], lo1, names) {
      assert ItemOk(rem[a], lo, names);
    }
  }

  lemma RemNext(rem: seq<Item>, lo: nat, names: set<string>)
    requires RemOk(rem, lo, names) && rem != []
    ensures RemOk(rem[1..], lo, names) && ItemOk(rem[0], lo, names)
    ensures forall i :: 0 <= i < |rem| - 1 ==> Below(rem[0], rem[1..][i])
  {
    var next := rem[1..];
    forall a | 0 <= a < |next| ensures ItemOk(next[a], lo, names) {
      assert next[a] == rem[a + 1];
    }
    forall a, b | 0 <= a < b < |next| ensures Below(next[a], next[b]) {
      assert next[a] == rem[a + 1] && next[b] == rem[b + 1];
    }
    forall a | 0 <= a < |next| ensures Below(rem[0], next[a]) {
      assert next[a] == rem[a + 1];
    }
  }

  /** A result with its variables stored, and with items of level `lo` or stronger if it halted. */
  ghost predicate Proper(r: Val, lo: nat, names: set<string>) {
    && (r.Val? || r.Ended? || r.Halt? ==> Stored(r.env, names))
    && (r.Halt? ==> FirstMul(r.rem) && RemOk(r.rem, lo, names))
  }

  lemma {:induction false} EvalProper(e: Expr, env: Chain, x: bool, names: set<string>)
    requires Stored(env, names) && Over(e, names) && WfExpr(e)
    ensures Proper(Eval(e, env, x), Prec(e), names)
    decreases Size(e), 1
  {
    hide Stored, Store, ValueOf, RemOk, Operand, Proper;
    match e {
      case Num(_) => WholeProper(e, env, x, names);
      case Var(_) => WholeProper(e, env, x, names);
      case Bin(op, l, r) => BinProper(op, l, r, env, x, names);
      case Un(c, e1) =>
        EvalProper(e1, env, x, names);
        UnProper(c, e1, env, x, names);
      case Cond(test, t, f) => CondProper(test, t, f, env, x, names);
      case Asg(name, e1) => AsgProper(name, e1, env, x, names);
      case OpAsg(name, op, e1) => OpAsgProper(name, op, e1, env, x, names);
      case Pre(_, _) => WholeProper(e, env, x, names);
      case Post(_, _) => WholeProper(e, env, x, names);
    }
  }

  lemma WholeProper(e: Expr, env: Chain, x: bool, names: set<string>)
    requires Stored(env, names) && (e.Num? || e.Var? || e.Pre? || e.Post?)
    ensures Proper(Eval(e, env, x), Prec(e), names)
  {
    hide Stored, Store, ValueOf;
    var r := Eval(e, env, x);
    match e {
      case Pre(up, name) => StoreStored(env, name, r.v, x, names);
      case Post(up, name) => StoreStored(env, name, Stepped(up, r.v), x, names);
      case _ =>
    }
  }

  lemma UnProper(c: char, e: Expr, env: Chain, x: bool, names: set<string>)
    requires Proper(Eval(e, env, x), Prec(e), names)
    ensures Proper(Eval(Un(c, e), env, x), UNARY, names)
  {
    hide Stored, RemOk;
  }

  lemma {:induction false} BinProper(op: string, l: Expr, r: Expr, env: Chain, x: bool, names: set<string>)
    requires Stored(env, names) && LevelOf(op) < UNARY && Over(l, names) && WfExpr(l) && Over(r, names) && WfExpr(r)
    ensures Proper(Eval(Bin(op, l, r), env, x), LevelOf(op), names)
    decreases Size(l) + Size(r), 4
  {
    hide Stored, RemOk, LevelOf, OpsOf, Operand, Right, Over, WfExpr;
    OperandProper(LevelOf(op), l, env, x, names);
    match Operand(LevelOf(op), l, env, x) {
      case Val(a, env1) => RightProper(op, a, env1, r, x, names);
      case Ended(env1) =>
        RightProper(op, 0, env1, r, x, names);
        OneItem(Op(op, r), names);
      case Halt(_, _, rem) =>
        OpLevels(op);
        RemAdd(rem, Op(op, r), names);
      case Fails =>
    }
  }

  lemma {:induction false} CondProper(test: Expr, t: Expr, f: Expr, env: Chain, x: bool, names: set<string>)
    requires Stored(env, names) && Over(test, names) && Over(t, names) && Over(f, names) && WfExpr(test) && WfExpr(t) && WfExpr(f)
    ensures Proper(Eval(Cond(test, t, f), env, x), COND, names)
    decreases Size(test) + Size(t) + Size(f), 5
  {
    hide Stored, RemOk, Operand, Choice, Over, WfExpr;
    OperandProper(COND + 1, test, env, x, names);
    match Operand(COND + 1, test, env, x) {
      case Val(a, env1) => ChoiceProper(a, env1, t, f, x, names);
      case Ended(env1) => ChoiceProper(0, env1, t, f, x, names);
      case Halt(_, _, rem) => RemAdd(rem, Branches(t, f), names);
      case Fails =>
    }
  }

  lemma {:induction false} AsgProper(name: string, e: Expr, env: Chain, x: bool, names: set<string>)
    requires Stored(env, names) && Over(e, names) && WfExpr(e)
    ensures Proper(Eval(Asg(name, e), env, x), UNARY, names)
    decreases Size(e), 6
  {
    hide Stored, Store, RemOk, Operand, Resume, Over, WfExpr;
    OperandProper(COND, e, env, x, names);
    match Operand(COND, e, env, x) {
      case Val(v, env1) => StoreStored(env1, name, v, x, names);
      case Ended(env1) => StoreStored(env1, name, 0, x, names);
      case Halt(v, env1, rem) =>
        StoreStored(env1, name, v, x, names);
        ResumeProper(v, Store(env1, name, v, x), rem, x, names);
      case Fails =>
    }
  }

  lemma {:induction false} OpAsgProper(name: string, op: string, e: Expr, env: Chain, x: bool, names: set<string>)
    requires Stored(env, names) && Over(e, names) && WfExpr(e)
    ensures Proper(Eval(OpAsg(name, op, e), env, x), UNARY, names)
    decreases Size(e), 6
  {
    hide Stored, RemOk, Operand, Resume, Over, WfExpr, Update;
    OperandProper(COND, e, env, x, names);
    var a := ValueOf(env, name);
    match Operand(COND, e, env, x) {
      case Val(b, env1) => UpdateProper(name, op, a, b, env1, x, names);
      case Ended(env1) => UpdateProper(name, op, a, 0, env1, x, names);
      case Halt(b, env1, rem) =>
        UpdateProper(name, op, a, b, env1, x, names);
        var u := Update(name, op, a, b, env1, x);
        if u.Val? { ResumeProper(u.v, u.env, rem, x, names); }
      case Fails =>
    }
  }

  lemma OpLevels(op: string)
    ensures LevelOf(op) != COND
  {
  }

  lemma OneItem(i: Item, names: set<string>)
    requires ItemOk(i, ItemLevel(i), names)
    ensures RemOk([i], ItemLevel(i), names)
  {
  }

  lemma {:induction false} OperandProper(k: nat, e: Expr, env: Chain, x: bool, names: set<string>)
    requires Stored(env, names) && Over(e, names) && WfExpr(e)
    ensures Proper(Operand(k, e, env, x), k, names)
    decreases Size(e), 2
  {
    hide Stored, RemOk;
    EvalProper(e, env, x, names);
    var r := Eval(e, env, x);
    if r.Halt? && Prec(e) >= k { RemLess(r.rem, Prec(e), k, names); }
  }

  lemma {:induction false} RightProper(op: string, a: int, env: Chain, r: Expr, x: bool, names: set<string>)
    requires Stored(env, names) && Over(r, names) && WfExpr(r) && In64(a) && LevelOf(op) < UNARY
    ensures Proper(Right(op, a, env, r, x), LevelOf(op), names)
    decreases Size(r), 3
  {
    hide Stored, RemOk, Apply, Operand, LevelOf;
    var k := LevelOf(op) + 1;
    OperandProper(k, r, env, x || Skips(op, a), names);
    var q := Operand(k, r, env, x || Skips(op, a));
    if q.Halt? { RemLess(q.rem, k, LevelOf(op), names); }
  }

  lemma {:induction false} ChoiceProper(a: int, env: Chain, t: Expr, f: Expr, x: bool, names: set<string>)
    requires Stored(env, names) && Over(t, names) && Over(f, names) && WfExpr(t) && WfExpr(f) && In64(a)
    ensures Proper(Choice(a, env, t, f, x), COND, names)
    decreases Size(t) + Size(f), 4
  {
    hide Stored, RemOk, Eval, Operand;
    EvalProper(t, env, x || a == 0, names);
    var b := Settle(Eval(t, env, x || a == 0));
    if b.Val? { OperandProper(COND, f, b.env, x || a != 0, names); }
  }

  lemma UpdateProper(name: string, op: string, a: int, b: int, env: Chain, x: bool, names: set<string>)
    requires Stored(env, names) && In64(a) && In64(b)
    ensures Proper(Update(name, op, a, b, env, x), 0, names)
  {
    hide Stored, Store, ApplyAssign;
    var u := Update(name, op, a, b, env, x);
    if u.Val? && !(Divides(op) && b == 0) { StoreStored(env, name, u.v, x, names); }
  }

  lemma {:induction false} ResumeProper(v: int, env: Chain, rem: seq<Item>, x: bool, names: set<string>)
    requires In64(v) && Stored(env, names) && RemOk(rem, COND, names)
    ensures Proper(Resume(v, env, rem, x), 0, names)
    decreases RemSize(rem), 5
  {
    hide Stored, RemOk, Right, Choice;
    if rem != [] {
      RemNext(rem, COND, names);
      match rem[0] {
        case Op(op, r) =>
          RightProper(op, v, env, r, x, names);
          var q := Right(op, v, env, r, x);
          if q.Val? || q.Ended? { ResumeProper(Settle(q).v, q.env, rem[1..], x, names); }
        case Branches(t, f) =>
          ChoiceProper(v, env, t, f, x, names);
          var q := Choice(v, env, t, f, x);
          if q.Val? { ResumeProper(q.v, q.env, rem[1..], x, names); }
      }
    }
  }

  // ---- trees ----

  /** Reading the text of `e` where an operand of level `k` is wanted, with `rest` behind it. */
  lemma {:induction false} Reads(k: nat, e: Expr, rest: string, env: Chain, d: nat, x: bool, names: set<string>)
    requires k <= UNARY && WfExpr(e) && Over(e, names) && Stored(env, names) && d < MAX_DEPTH && Quiet(k, rest)
    ensures Meets(k, Parse(k, St(Print(k, e) + rest, env, NoErr), d, x), Operand(k, e, env, x), rest, d, x)
    decreases Size(e), if Prec(e) < k then 2 else 1, UNARY - k
  {
    hide Parse, Eval, Body, Quiet, Meets, WfExpr, Stored, Over;
    var s := St(Print(k, e) + rest, env, NoErr);
    if k < UNARY && Prec(e) != k {
      QuietMore(k, k + 1, rest);
      assert Print(k, e) == Print(k + 1, e);
      Reads(k + 1, e, rest, env, d, x, names);
      EndedAtMul(k, e, env, x);
      Down(k, s, Operand(k, e, env, x), rest, d, x);
    } else if Prec(e) < k {
      ReadsParens(e, rest, env, d, x, names);
    } else if e.Bin? {
      ReadsBin(e, rest, env, d, x, names);
    } else if e.Cond? {
      ReadsCond(e, rest, env, d, x, names);
    } else {
      ReadsUnary(e, rest, env, d, x, names);
    }
  }

  /** Only a multiplication ends in a zero divisor, so parentheses around anything weaker make no difference here. */
  lemma EndedAtMul(k: nat, e: Expr, env: Chain, x: bool)
    requires k < UNARY && Prec(e) != k && WfExpr(e)
    ensures Operand(k + 1, e, env, x) == Operand(k, e, env, x) && (k == MUL ==> !Operand(k, e, env, x).Ended?)
  {
    hide Eval, WfExpr;
    if k == MUL && Prec(e) > MUL { UnaryWhole(e, env, x); }
  }

  lemma UnaryWhole(e: Expr, env: Chain, x: bool)
    requires Prec(e) > MUL && WfExpr(e)
    ensures var r := Eval(e, env, x); r.Val? || r.Fails?
  {
    hide Resume, Update;
  }

  lemma {:induction false} ReadsParens(e: Expr, rest: string, env: Chain, d: nat, x: bool, names: set<string>)
    requires WfExpr(e) && Over(e, names) && Stored(env, names) && d < MAX_DEPTH && Quiet(UNARY, rest) && Prec(e) < UNARY
    ensures Meets(UNARY, Parse(UNARY, St(Print(UNARY, e) + rest, env, NoErr), d, x), Settle(Eval(e, env, x)), rest, d, x)
    decreases Size(e), 1, UNARY + 1
  {
    hide Parse, Eval, Body, Quiet, WfExpr, Stored, Over, OpAt, Tail;
    var inner, tail := Body(e), " )" + rest;
    var u := Print(UNARY, e) + rest;
    var s := St(u, env, NoErr);
    assert u == "(" + (" " + (inner + tail));
    assert u[1..] == " " + (inner + tail);
    assert Print(0, e) == inner;
    SkipSpace(")" + rest);
    assert tail == " " + (")" + rest);
    assert Skip(")" + rest) == ")" + rest;
    QuietEnd(0, tail);
    Reads(0, e, tail, env, d, x, names);
    var s1 := s.(u := " " + (inner + tail));
    OneSpace(0, s1, inner + tail, d, x);
    ParenIs(s, d, x);
    var r := Eval(e, env, x);
    match r {
      case Val(v, env1) => RestAtParen(v, env1, rest, d, x);
      case Ended(env1) => RestAtParen(0, env1, rest, d, x);
      case Halt(_, _, rem) => TailMul(rem, tail);
      case Fails =>
    }
  }

  lemma ParenIs(s: St, d: nat, x: bool)
    requires d <= MAX_DEPTH && s.err == NoErr && Ch(s.u, 0) == '('
    ensures var o := Parse(0, s.(u := s.u[1..]), d, x);
            var w := Skip(o.s.u);
            Parse(UNARY, s, d, x)
            == Out(o.v, if Ch(w, 0) == ')' then o.s.(u := w[1..]) else o.s.(u := w, err := Syntax))
  {
    hide Rest, Choose;
    assert Skip(s.u) == s.u && s.(u := s.u) == s;
    assert Unary(s, d, x) == Primary(s, d, x);
  }

  lemma RestAtParen(v: int, env: Chain, rest: string, d: nat, x: bool)
    requires d <= MAX_DEPTH && In64(v)
    ensures Rest(0, v, St(" )" + rest, env, NoErr), d, x) == Out(v, St(")" + rest, env, NoErr))
    ensures Ch(Skip(")" + rest), 0) == ')' && Skip(")" + rest)[1..] == rest
  {
    assert " )" + rest == " " + (")" + rest);
    SkipSpace(")" + rest);
    assert Skip(")" + rest) == ")" + rest;
  }

  lemma {:induction false} ReadsBin(e: Expr, rest: string, env: Chain, d: nat, x: bool, names: set<string>)
    requires e.Bin? && WfExpr(e) && Over(e, names) && Stored(env, names) && d < MAX_DEPTH && Quiet(Prec(e), rest)
    ensures var k := Prec(e); Meets(k, Parse(k, St(Print(k, e) + rest, env, NoErr), d, x), Eval(e, env, x), rest, d, x)
    decreases Size(e), 0, 0
  {
    hide Parse, Print, Quiet, Stored, OpsOf, Rest, Apply, Operand, Right, Over, Tail;
    var k, op := Prec(e), e.op;
    var more := Print(k + 1, e.r) + rest;
    var mid := " " + (op + (" " + more));
    var s := St(Print(k, e.l) + mid, env, NoErr);
    BinText(e, rest);
    QuietOp(op, more);
    OverBin(e, names);
    Reads(k, e.l, mid, env, d, x, names);
    OperandProper(k, e.l, env, x, names);
    var q := Operand(k, e.l, env, x);
    match q {
      case Val(a, env1) =>
        ReadsSecond(k, op, a, env1, e.r, rest, d, x, names);
      case Ended(env1) =>
        if k == MUL {
          assert Tail([Op(op, e.r)], rest) == mid by { TailOne(Op(op, e.r), rest); }
        } else {
          ReadsSecond(k, op, 0, env1, e.r, rest, d, x, names);
        }
      case Halt(_, _, rem) =>
        TailAdd(rem, Op(op, e.r), rest);
      case Fails =>
    }
  }

  lemma TailOne(i: Item, rest: string)
    ensures Tail([i], rest) == " " + ItemText(i, rest)
  {
    hide ItemText;
    assert [i][1..] == [];
  }

  lemma OverBin(e: Expr, names: set<string>)
    requires e.Bin? && Over(e, names)
    ensures Over(e.l, names) && Over(e.r, names)
  {
  }

  /** The right operand from the operator on. */
  lemma {:induction false} ReadsSecond(k: nat, op: string, a: int, env: Chain, r: Expr, rest: string, d: nat, x: bool,
                                       names: set<string>)
    requires k == LevelOf(op) < UNARY && In64(a) && WfExpr(r) && Over(r, names) && Stored(env, names) && d < MAX_DEPTH && Quiet(k, rest)
    ensures Meets(k, Rest(k, a, St(" " + (op + (" " + (Print(k + 1, r) + rest))), env, NoErr), d, x),
                  Right(op, a, env, r, x), rest, d, x)
    decreases Size(r), 3, 0
  {
    hide Parse, Print, Quiet, Stored, Rest, Apply, Operand, Right, Over, Meets;
    QuietMore(k, k + 1, rest);
    Reads(k + 1, r, rest, env, d, x || Skips(op, a), names);
    ReadsRight(k, op, a, env, r, rest, d, x);
  }

  lemma BinText(e: Expr, rest: string)
    requires e.Bin? && LevelOf(e.op) < UNARY
    ensures var k := LevelOf(e.op);
            Print(k, e) + rest == Print(k, e.l) + (" " + (e.op + (" " + (Print(k + 1, e.r) + rest))))
  {
    hide LevelOf;
  }

  /** The loop of level `k` at its operator: the right operand is read and combined, and the loop goes on. */
  lemma ReadsRight(k: nat, op: string, a: int, env: Chain, r: Expr, rest: string, d: nat, x: bool)
    requires k == LevelOf(op) < UNARY && In64(a) && d < MAX_DEPTH && Quiet(k, rest)
    requires var x1 := x || Skips(op, a);
             Meets(k + 1, Parse(k + 1, St(Print(k + 1, r) + rest, env, NoErr), d, x1), Operand(k + 1, r, env, x1), rest, d, x1)
    ensures Meets(k, Rest(k, a, St(" " + (op + (" " + (Print(k + 1, r) + rest))), env, NoErr), d, x),
                  Right(op, a, env, r, x), rest, d, x)
  {
    hide Parse, Print, Quiet, OpsOf, Rest, Apply, Operand, Skips, OpAt, Tail;
    var more := Print(k + 1, r) + rest;
    var u := op + (" " + more);
    var s := St(" " + u, env, NoErr);
    var x1 := x || Skips(op, a);
    QuietOp(op, more);
    OpLevels(op);
    RestIs(k, a, s, d, x);
    var s1 := s.(u := " " + more);
    OneSpace(k + 1, s1, more, d, x1);
    hide Meets, Quiet;
    Joins(k, op, a, Parse(k + 1, s1, d, x1), Operand(k + 1, r, env, x1), rest, d, x);
  }

  /** What the loop makes of its right operand. */
  lemma Joins(k: nat, op: string, a: int, o: Out, q: Val, rest: string, d: nat, x: bool)
    requires k == LevelOf(op) < UNARY && In64(a) && In64(o.v) && d < MAX_DEPTH && Quiet(k, rest) && Sane(q)
    requires Meets(k + 1, o, q, rest, d, x || Skips(op, a))
    ensures k != COND
    ensures Meets(k, if Divides(op) && o.v == 0 then Out(0, if x then o.s else o.s.(err := DivZero))
                     else Rest(k, Apply(op, a, o.v), o.s, d, x), Joined(op, a, q, x), rest, d, x)
  {
    hide Quiet, OpsOf, Rest, Apply, OpAt, Tail, LevelOf;
    OpLevels(op);
    match q {
      case Halt(b, env2, rem) =>
        if Divides(op) { DividesMul(op, a); }
        TailMul(rem, rest);
        SkipTwice(o.s.u);
        RestEnds(k, Apply(op, a, b), o.s, d, x);
      case Fails =>
        if !(Divides(op) && o.v == 0) { FactsRest(k, Apply(op, a, o.v), o.s, d, x); }
      case _ =>
        Landed(k + 1, o, q, rest, d, x || Skips(op, a));
        var b, env2 := Settle(q).v, Settle(q).env;
        if Divides(op) && b == 0 { DividesMul(op, a); } else { RestSkips(k, Apply(op, a, b), o.s, St(rest, env2, NoErr), d, x); }
    }
  }

  lemma DividesMul(op: string, a: int)
    requires Divides(op)
    ensures LevelOf(op) == MUL && !Skips(op, a)
  {
  }

  lemma {:induction false} ReadsCond(e: Expr, rest: string, env: Chain, d: nat, x: bool, names: set<string>)
    requires e.Cond? && WfExpr(e) && Over(e, names) && Stored(env, names) && d < MAX_DEPTH && Quiet(COND, rest)
    ensures Meets(COND, Parse(COND, St(Print(COND, e) + rest, env, NoErr), d, x), Eval(e, env, x), rest, d, x)
    decreases Size(e), 0, 0
  {
    hide Parse, Print, Quiet, Stored, Choose, Operand, Choice, Over, OpAt, Tail;
    var els := " " + (":" + (" " + (Print(COND, e.f) + rest)));
    var mid := " " + ("?" + (" " + (Print(COND, e.t) + els)));
    var s := St(Print(COND + 1, e.test) + mid, env, NoErr);
    CondText(e, rest);
    MarkStops(" " + (Print(COND, e.t) + els));
    OverCond(e, names);
    Reads(COND + 1, e.test, mid, env, d, x, names);
    OperandProper(COND + 1, e.test, env, x, names);
    ParseIs(COND, s, d, x);
    var o := Parse(COND + 1, s, d, x);
    var q := Operand(COND + 1, e.test, env, x);
    match q {
      case Halt(_, _, rem) =>
        TailMul(rem, mid);
        TailAdd(rem, Branches(e.t, e.f), rest);
        SkipTwice(o.s.u);
        ChooseEnds(o.v, o.s, d, x);
      case Fails => FactsChoose(o.v, o.s, d, x);
      case _ =>
        var a, env1 := Settle(q).v, Settle(q).env;
        RestAtMark(a, env1, " " + (Print(COND, e.t) + els), d, x);
        ReadsBranches(a, env1, e.t, e.f, rest, d, x, names);
    }
  }

  lemma OverCond(e: Expr, names: set<string>)
    requires e.Cond? && Over(e, names)
    ensures Over(e.test, names) && Over(e.t, names) && Over(e.f, names)
  {
  }

  /** Both branches from the question mark on. */
  lemma {:induction false} ReadsBranches(a: int, env: Chain, t: Expr, f: Expr, rest: string, d: nat, x: bool, names: set<string>)
    requires In64(a) && WfExpr(t) && WfExpr(f) && Over(t, names) && Over(f, names) && Stored(env, names) && d < MAX_DEPTH && Quiet(COND, rest)
    ensures var els := " " + (":" + (" " + (Print(COND, f) + rest)));
            Meets(COND, Choose(a, St("?" + (" " + (Print(COND, t) + els)), env, NoErr), d, x), Choice(a, env, t, f, x), rest, d, x)
    decreases Size(t) + Size(f), 4, 0
  {
    hide Parse, Print, Quiet, Stored, Choose, Choice, Over, Meets, Eval;
    var els := " " + (":" + (" " + (Print(COND, f) + rest)));
    var x1, x2 := x || a == 0, x || a != 0;
    ColonStops(" " + (Print(COND, f) + rest));
    Reads(COND, t, els, env, d, x1, names);
    EvalProper(t, env, x1, names);
    var b := Settle(Eval(t, env, x1));
    if b.Val? { Reads(COND, f, rest, b.env, d, x2, names); }
    ReadsChoose(a, t, f, rest, env, d, x);
  }

  lemma CondText(e: Expr, rest: string)
    requires e.Cond?
    ensures Print(COND, e) + rest
            == Print(COND + 1, e.test) + (" " + ("?" + (" " + (Print(COND, e.t)
               + (" " + (":" + (" " + (Print(COND, e.f) + rest))))))))
  {
    var p, q, r := Print(COND + 1, e.test), Print(COND, e.t), Print(COND, e.f);
    assert Print(COND, e) == p + (" " + ("?" + (" " + (q + (" " + (":" + (" " + r)))))));
    hide *;
    Behind(p, q, r, rest);
  }

  lemma Behind(a: string, b: string, c: string, more: string)
    ensures (a + (" " + ("?" + (" " + (b + (" " + (":" + (" " + c)))))))) + more
            == a + (" " + ("?" + (" " + (b + (" " + (":" + (" " + (c + more))))))))
  {
    var tail := " " + (":" + (" " + c));
    assert tail + more == " " + (":" + (" " + (c + more)));
    assert (b + tail) + more == b + (tail + more);
    assert (" " + ("?" + (" " + (b + tail)))) + more == " " + ("?" + (" " + (b + (tail + more))));
  }

  lemma MarkStops(more: string)
    ensures Quiet(COND + 1, " " + ("?" + more))
    ensures Skip(" " + ("?" + more)) == "?" + more
  {
    SkipSpace("?" + more);
    assert Skip("?" + more) == "?" + more;
    QuietMark(COND + 1, " " + ("?" + more));
  }

  lemma ColonStops(more: string)
    ensures Quiet(COND, " " + (":" + more))
    ensures Skip(" " + (":" + more)) == ":" + more
  {
    SkipSpace(":" + more);
    assert Skip(":" + more) == ":" + more;
    QuietEnd(COND, " " + (":" + more));
  }

  lemma RestAtMark(v: int, env: Chain, more: string, d: nat, x: bool)
    requires d <= MAX_DEPTH && In64(v)
    ensures Rest(COND + 1, v, St(" " + ("?" + more), env, NoErr), d, x) == Out(v, St("?" + more, env, NoErr))
  {
    MarkStops(more);
    assert OpAt(COND + 1, "?" + more) == "";
  }

  /** The conditional at its question mark: both branches are read, one of them without effect. */
  lemma ReadsChoose(a: int, t: Expr, f: Expr, rest: string, env: Chain, d: nat, x: bool)
    requires In64(a) && d < MAX_DEPTH
    requires var els := " " + (":" + (" " + (Print(COND, f) + rest)));
             var x1, x2 := x || a == 0, x || a != 0;
             var b := Settle(Eval(t, env, x1));
             && Meets(COND, Parse(COND, St(Print(COND, t) + els, env, NoErr), d, x1), Operand(COND, t, env, x1), els, d, x1)
             && (b.Val? ==> Meets(COND, Parse(COND, St(Print(COND, f) + rest, b.env, NoErr), d, x2),
                                  Operand(COND, f, b.env, x2), rest, d, x2))
    ensures var els := " " + (":" + (" " + (Print(COND, f) + rest)));
            Meets(COND, Choose(a, St("?" + (" " + (Print(COND, t) + els)), env, NoErr), d, x), Choice(a, env, t, f, x), rest, d, x)
  {
    hide Parse, Print, Eval, Tail, OpAt;
    var els := " " + (":" + (" " + (Print(COND, f) + rest)));
    var u := "?" + (" " + (Print(COND, t) + els));
    var s1 := St(" " + (Print(COND, t) + els), env, NoErr);
    assert Skip(u) == u && u[1..] == s1.u;
    var x1, x2 := x || a == 0, x || a != 0;
    OneSpace(COND, s1, Print(COND, t) + els, d, x1);
    var o := Parse(COND, s1, d, x1);
    ColonStops(" " + (Print(COND, f) + rest));
    var w := Skip(o.s.u);
    ChooseIs(a, St(u, env, NoErr), d, x);
    var q := Operand(COND, t, env, x1);
    OperandSettles(t, env, x1);
    hide Choose;
    if q.Halt? || q.Fails? {
      assert o.s.err == NoErr ==> Ch(w, 0) != ':' by { if q.Halt? { TailMul(q.rem, els); } }
      if o.s.err != NoErr && Ch(w, 0) == ':' { FactsParse(COND, o.s.(u := w[1..]), d, x2); }
    } else {
      var b := Settle(q);
      assert w[1..] == " " + (Print(COND, f) + rest);
      OneSpace(COND, St(w[1..], o.s.env, NoErr), Print(COND, f) + rest, d, x2);
      hide Meets;
      assert o == Out(b.v, St(o.s.u, b.env, NoErr));
      Chosen(a, b, Parse(COND, St(w[1..], o.s.env, NoErr), d, x2), Operand(COND, f, b.env, x2), rest, d, x);
      assert Choice(a, env, t, f, x) == Branch(a, b.v, Operand(COND, f, b.env, x2));
    }
  }

  lemma OperandSettles(e: Expr, env: Chain, x: bool)
    ensures Settle(Operand(COND, e, env, x)) == Settle(Eval(e, env, x))
  {
  }

  lemma ChooseIs(cond: int, s: St, d: nat, x: bool)
    requires d <= MAX_DEPTH && In64(cond) && s.err == NoErr && Ch(s.u, 0) == '?'
    ensures var t := Parse(COND, s.(u := s.u[1..]), d, x || cond == 0);
            var w := Skip(t.s.u);
            Choose(cond, s, d, x)
            == if Ch(w, 0) != ':' then Out(if cond != 0 then t.v else 0, t.s.(u := w, err := Syntax))
               else
                 var f := Parse(COND, t.s.(u := w[1..]), d, x || cond != 0);
                 Out(if cond != 0 then t.v else f.v, f.s)
  {
    hide Parse;
    assert Skip(s.u) == s.u;
  }

  lemma Chosen(a: int, b: Val, o: Out, q: Val, rest: string, d: nat, x: bool)
    requires d <= MAX_DEPTH && b.Val? && Sane(b) && Sane(q) && In64(a) && Meets(COND, o, q, rest, d, x || a != 0)
    ensures Meets(COND, Out(if a != 0 then b.v else o.v, o.s), Branch(a, b.v, q), rest, d, x)
  {
    hide Tail;
  }

  // ---- after a halt on the right side of an assignment ----

  /** What the levels around an assignment in parentheses come to. */
  ghost predicate Closes(o: Out, r: Val, rest: string)
    requires r.Val? || r.Fails?
  {
    match r
    case Val(v, env) => Landing(o, v, env, rest)
    case _ => o.s.err != NoErr || Ch(Skip(o.s.u), 0) != ')'
  }

  lemma QuietTail(rem: seq<Item>, lo: nat, rest: string, k: nat, names: set<string>)
    requires RemOk(rem, COND, names) && (rem != [] ==> k >= ItemLevel(rem[0]) + (if rem[0].Branches? then 1 else 0))
    requires lo <= COND
    ensures Quiet(k, Tail(rem, ")" + rest))
  {
    hide Print, RemOk;
    if rem == [] {
      ParenStops(k, rest);
    } else {
      RemNext(rem, COND, names);
      hide ItemOk;
      match rem[0] {
        case Op(op, r) =>
          var more := Print(LevelOf(op) + 1, r) + Tail(rem[1..], ")" + rest);
          assert LevelOf(op) < UNARY by { assert ItemOk(rem[0], COND, names); ItemIs(rem[0], COND, names); }
          hide Tail, Quiet;
          TailOp(rem, ")" + rest);
          QuietOp(op, more);
          QuietMore(LevelOf(op), k, Tail(rem, ")" + rest));
        case Branches(t, f) =>
          MarkStops(" " + (Print(COND, t) + (" " + (":" + (" " + (Print(COND, f) + Tail(rem[1..], ")" + rest)))))));
          QuietMore(COND + 1, k, Tail(rem, ")" + rest));
      }
    }
  }

  lemma ItemIs(i: Item, lo: nat, names: set<string>)
    requires ItemOk(i, lo, names)
    ensures lo <= ItemLevel(i)
    ensures i.Op? ==> LevelOf(i.op) < UNARY && WfExpr(i.r) && Over(i.r, names)
    ensures i.Branches? ==> WfExpr(i.t) && WfExpr(i.f) && Over(i.t, names) && Over(i.f, names)
  {
  }

  /**
   From a value in front of the items: the loops of the levels around it take them one after the other, as long as none
   of them halts again.
   */
  lemma {:induction false} Climbs(k: nat, s: St, v: int, env: Chain, rem: seq<Item>, rest: string, d: nat, x: bool,
                                  names: set<string>)
    requires k <= MUL && d < MAX_DEPTH && In64(v) && Stored(env, names) && RemOk(rem, COND, names)
    requires rem != [] ==> ItemLevel(rem[0]) <= k && (rem[0].Branches? ==> k > COND)
    requires Meets(k, Parse(k, s, d, x), Val(v, env), Tail(rem, ")" + rest), d, x)
    ensures Closes(Parse(0, s, d, x), Resume(v, env, rem, x), ")" + rest)
    decreases RemSize(rem), 5, 0
  {
    hide Parse, Print, Stored, RemOk, Right, Choice, Meets, Quiet, Tail, Over;
    if rem == [] {
      assert Tail(rem, ")" + rest) == ")" + rest by { TailNone(rem, ")" + rest); }
      ParenStops(0, rest);
      DownFrom(k, 0, s, Val(v, env), ")" + rest, d, x);
      RestAtClose(v, env, rest, d, x);
      ClimbsEnd(Parse(0, s, d, x), v, env, rest, d, x);
    } else {
      RemNext(rem, COND, names);
      ItemIs(rem[0], COND, names);
      match rem[0] {
        case Op(op, r) => ClimbsOp(k, s, v, env, rem, rest, d, x, names);
        case Branches(t, f) => ClimbsBranches(k, s, v, env, rem, rest, d, x, names);
      }
    }
  }

  lemma TailNone(rem: seq<Item>, rest: string)
    requires rem == []
    ensures Tail(rem, rest) == rest
  {
  }

  lemma ClimbsEnd(o: Out, v: int, env: Chain, rest: string, d: nat, x: bool)
    requires d <= MAX_DEPTH && In64(v) && Meets(0, o, Val(v, env), ")" + rest, d, x)
    requires Rest(0, v, St(")" + rest, env, NoErr), d, x) == Out(v, St(")" + rest, env, NoErr))
    ensures Landing(o, v, env, ")" + rest)
  {
  }

  lemma {:induction false} ClimbsOp(k: nat, s: St, v: int, env: Chain, rem: seq<Item>, rest: string, d: nat, x: bool,
                                    names: set<string>)
    requires k <= MUL && d < MAX_DEPTH && In64(v) && Stored(env, names) && RemOk(rem, COND, names)
    requires rem != [] && rem[0].Op? && ItemLevel(rem[0]) <= k
    requires Meets(k, Parse(k, s, d, x), Val(v, env), Tail(rem, ")" + rest), d, x)
    ensures Closes(Parse(0, s, d, x), Resume(v, env, rem, x), ")" + rest)
    decreases RemSize(rem), 4, 0
  {
    hide Parse, Print, Stored, RemOk, Right, Choice, Quiet, Tail, Over, Rest, OpAt;
    var Op(op, r) := rem[0];
    var j, next := LevelOf(op), Tail(rem[1..], ")" + rest);
    RemNext(rem, COND, names);
    ItemIs(rem[0], COND, names);
    OpLevels(op);
    TailOp(rem, ")" + rest);
    QuietTail(rem, COND, rest, j, names);
    DownFrom(k, j, s, Val(v, env), Tail(rem, ")" + rest), d, x);
    if |rem| > 1 { assert Below(rem[0], rem[1..][0]); }
    QuietTail(rem[1..], COND, rest, j, names);
    ReadsSecond(j, op, v, env, r, next, d, x, names);
    RightProper(op, v, env, r, x, names);
    var q := Right(op, v, env, r, x);
    assert Meets(j, Parse(j, s, d, x), q, next, d, x);
    match q {
      case Val(w, env1) => Climbs(j, s, w, env1, rem[1..], rest, d, x, names);
      case Ended(env1) =>
        EndedMul(op, v, env, r, x);
        if |rem| > 1 && ItemLevel(rem[1]) == MUL {
          assert rem[1] == rem[1..][0];
          TailMul(rem[1..], ")" + rest);
          SkipTwice(next);
          StopsDown(MUL, 0, s, Skip(next), d, x);
        } else {
          QuietTail(rem[1..], COND, rest, MUL - 1, names);
          Down(MUL - 1, s, q, next, d, x);
          Climbs(MUL - 1, s, 0, env1, rem[1..], rest, d, x, names);
        }
      case Halt(_, _, more) =>
        TailMul(more, next);
        StopsDown(j, 0, s, Skip(Tail(more, next)), d, x);
      case Fails => FailsDown(j, s, d, x);
    }
  }

  lemma EndedMul(op: string, a: int, env: Chain, r: Expr, x: bool)
    requires In64(a) && Right(op, a, env, r, x).Ended?
    ensures LevelOf(op) == MUL
  {
    hide Operand;
  }

  lemma {:induction false} FailsDown(j: nat, s: St, d: nat, x: bool)
    requires j <= UNARY && d <= MAX_DEPTH && Parse(j, s, d, x).s.err != NoErr
    ensures Parse(0, s, d, x).s.err != NoErr
    decreases j
  {
    hide Parse, Rest, Choose, IsTail;
    if j > 0 {
      ParseIs(j - 1, s, d, x);
      var o := Parse(j, s, d, x);
      if j - 1 == COND { FactsChoose(o.v, o.s, d, x); } else { FactsRest(j - 1, o.v, o.s, d, x); }
      FailsDown(j - 1, s, d, x);
    }
  }

  lemma {:induction false} ClimbsBranches(k: nat, s: St, v: int, env: Chain, rem: seq<Item>, rest: string, d: nat, x: bool,
                                          names: set<string>)
    requires COND < k <= MUL && d < MAX_DEPTH && In64(v) && Stored(env, names) && RemOk(rem, COND, names)
    requires rem != [] && rem[0].Branches?
    requires Meets(k, Parse(k, s, d, x), Val(v, env), Tail(rem, ")" + rest), d, x)
    ensures Closes(Parse(0, s, d, x), Resume(v, env, rem, x), ")" + rest)
    decreases RemSize(rem), 4, 0
  {
    hide Parse, Print, Stored, RemOk, Right, Choice, Quiet, Over, Rest, OpAt, Choose;
    var Branches(t, f) := rem[0];
    RemNext(rem, COND, names);
    ItemIs(rem[0], COND, names);
    if |rem| > 1 {
      assert Below(rem[0], rem[1..][0]);
      assert ItemOk(rem[1..][0], COND, names) by { RemNext(rem[1..], COND, names); }
    }
    assert rem[1..] == [];
    var close := ")" + rest;
    var more := " " + (Print(COND, t) + (" " + (":" + (" " + (Print(COND, f) + close)))));
    assert Tail(rem, close) == " " + ("?" + more);
    hide Tail;
    MarkStops(more);
    DownFrom(k, COND + 1, s, Val(v, env), Tail(rem, close), d, x);
    RestAtMark(v, env, more, d, x);
    ParseIs(COND, s, d, x);
    ParenStops(COND, rest);
    ReadsBranches(v, env, t, f, close, d, x, names);
    ChoiceProper(v, env, t, f, x, names);
    var q := Choice(v, env, t, f, x);
    assert Meets(COND, Parse(COND, s, d, x), q, close, d, x);
    match q {
      case Val(w, env1) =>
        TailNone(rem[1..], close);
        Climbs(COND, s, w, env1, rem[1..], rest, d, x, names);
      case Halt(_, _, left) =>
        TailMul(left, close);
        StopsDown(COND, 0, s, Skip(Tail(left, close)), d, x);
      case Fails => FailsDown(COND, s, d, x);
    }
  }

  // ---- unary expressions and primaries ----

  lemma {:induction false} ReadsUnary(e: Expr, rest: string, env: Chain, d: nat, x: bool, names: set<string>)
    requires Prec(e) == UNARY && WfExpr(e) && Over(e, names) && Stored(env, names) && d < MAX_DEPTH && Quiet(UNARY, rest)
    ensures Meets(UNARY, Parse(UNARY, St(Print(UNARY, e) + rest, env, NoErr), d, x), Eval(e, env, x), rest, d, x)
    decreases Size(e), 0, 0
  {
    hide Parse, Quiet, Stored, ValueOf, Store, Skip, NoOpAbove, AssignOpAt, Saturate, Operand, Meets;
    match e {
      case Num(n) =>
        QuietClean(UNARY, rest);
        ReadsNumber(n, rest, env, d, x);
        assert Print(UNARY, e) == Decimal(n);
        Lands(Parse(UNARY, St(Print(UNARY, e) + rest, env, NoErr), d, x), Saturate(n), env, rest, d, x);
      case Var(name) => ReadsVar(name, rest, env, d, x) by { StoredOne(env, name, names); }
      case Bin(_, _, _) =>
      case Cond(_, _, _) =>
      case Un(c, e1) =>
        Reads(UNARY, e1, rest, env, d, x, names);
        ReadsSign(c, e1, rest, env, d, x);
      case Asg(name, e1) => ReadsAsg(name, e1, rest, env, d, x, names);
      case OpAsg(name, op, e1) => ReadsOpAsg(name, op, e1, rest, env, d, x, names);
      case Pre(up, name) => ReadsPre(up, name, rest, env, d, x) by { StoredOne(env, name, names); }
      case Post(up, name) => ReadsPost(up, name, rest, env, d, x) by { StoredOne(env, name, names); }
    }
  }

  lemma Lands(o: Out, v: int, env: Chain, rest: string, d: nat, x: bool)
    requires d <= MAX_DEPTH && In64(v) && o == Out(v, St(rest, env, NoErr))
    ensures Meets(UNARY, o, Val(v, env), rest, d, x)
  {
  }

  lemma StoredOne(env: Chain, name: string, names: set<string>)
    requires Stored(env, names) && name in names
    ensures IsStored(env, name)
  {
  }

  lemma QuietClean(k: nat, rest: string)
    requires Quiet(k, rest)
    ensures Clean(rest)
  {
  }

  lemma ParenStops(k: nat, rest: string)
    ensures Skip(")" + rest) == ")" + rest && Quiet(k, ")" + rest)
  {
    QuietEnd(k, ")" + rest);
  }

  lemma ReadsSign(c: char, e: Expr, rest: string, env: Chain, d: nat, x: bool)
    requires c in "+-!~" && d < MAX_DEPTH
    requires Meets(UNARY, Parse(UNARY, St(Print(UNARY, e) + rest, env, NoErr), d, x), Operand(UNARY, e, env, x), rest, d, x)
    ensures Meets(UNARY, Parse(UNARY, St(Print(UNARY, Un(c, e)) + rest, env, NoErr), d, x), Eval(Un(c, e), env, x), rest, d, x)
  {
    var p := Print(UNARY, e) + rest;
    var u := Print(UNARY, Un(c, e)) + rest;
    SignText(c, e, rest);
    UnIs(e, env, x);
    hide Primary, PreStep, Print, Parse, Unary, Operand, Tail, UnaryOf;
    var s := St(u, env, NoErr);
    SignIs(c, s, d, x);
    OneSpace(UNARY, s.(u := " " + p), p, d, x);
  }

  lemma SignText(c: char, e: Expr, rest: string)
    ensures var u := Print(UNARY, Un(c, e)) + rest;
            u == [c] + (" " + (Print(UNARY, e) + rest)) && u[1..] == " " + (Print(UNARY, e) + rest) && u[1] == ' '
  {
    assert Print(UNARY, Un(c, e)) == [c] + (" " + Print(UNARY, e));
    hide Print;
    assert ([c] + (" " + Print(UNARY, e))) + rest == [c] + (" " + (Print(UNARY, e) + rest));
  }

  lemma SignIs(c: char, s: St, d: nat, x: bool)
    requires c in "+-!~" && d <= MAX_DEPTH && s.err == NoErr && |s.u| >= 2 && s.u[0] == c && s.u[1] == ' '
    ensures var o := Parse(UNARY, s.(u := s.u[1..]), d, x); Parse(UNARY, s, d, x) == Out(UnaryOf(c, o.v), o.s)
  {
    hide Primary, PreStep;
    assert Skip(s.u) == s.u;
  }

  /** A name is read up to the first character that cannot belong to it. */
  lemma NameIs(name: string, tail: string, env: Chain, d: nat, x: bool)
    requires IsName(name) && d <= MAX_DEPTH && (tail == "" || !IdentChar(tail[0]))
    ensures Parse(UNARY, St(name + tail, env, NoErr), d, x) == Named(name, St(Skip(tail), env, NoErr), d, x)
  {
    hide Named;
    var u := name + tail;
    var s := St(u, env, NoErr);
    NameAt(name, tail);
    assert s.(u := u) == s;
    assert Unary(s, d, x) == Primary(s, d, x);
  }

  lemma NameAt(name: string, tail: string)
    requires IsName(name) && (tail == "" || !IdentChar(tail[0]))
    ensures var u := name + tail;
            && Skip(u) == u && IdentStart(Ch(u, 0)) && IdentLen(u) == |name|
            && u[..|name|] == name && u[|name|..] == tail
  {
    var u := name + tail;
    assert u[0] == name[0];
    if tail == "" { NameLength(name, tail); } else { NameLength(name, tail); }
  }

  lemma ReadsVar(name: string, rest: string, env: Chain, d: nat, x: bool)
    requires IsName(name) && IsStored(env, name) && d < MAX_DEPTH && Quiet(UNARY, rest)
    ensures Meets(UNARY, Parse(UNARY, St(name + rest, env, NoErr), d, x), Val(ValueOf(env, name), env), rest, d, x)
  {
    hide Parse, ValueOf, IsStored, Resolve, NoOpAbove;
    NameIs(name, rest, env, d, x);
    SkipTwice(rest);
    ResolveStored(name, St(Skip(rest), env, NoErr), d, x);
  }

  lemma ReadsPost(up: bool, name: string, rest: string, env: Chain, d: nat, x: bool)
    requires IsName(name) && IsStored(env, name) && d < MAX_DEPTH
    ensures Meets(UNARY, Parse(UNARY, St(Print(UNARY, Post(up, name)) + rest, env, NoErr), d, x),
                  Eval(Post(up, name), env, x), rest, d, x)
  {
    hide Parse, ValueOf, IsStored, Resolve, Store;
    var sign := if up then "++" else "--";
    var tail := sign + rest;
    assert (name + sign) + rest == name + tail;
    NameIs(name, tail, env, d, x);
    assert Skip(tail) == tail && tail[2..] == rest;
    ResolveStored(name, St(rest, env, NoErr), d, x);
  }

  lemma ReadsPre(up: bool, name: string, rest: string, env: Chain, d: nat, x: bool)
    requires IsName(name) && IsStored(env, name) && d < MAX_DEPTH && Quiet(UNARY, rest)
    ensures Meets(UNARY, Parse(UNARY, St(Print(UNARY, Pre(up, name)) + rest, env, NoErr), d, x),
                  Eval(Pre(up, name), env, x), rest, d, x)
  {
    QuietClean(UNARY, rest);
    PreShape(up, name, env, x);
    hide *;
    var v := Stepped(up, ValueOf(env, name));
    var u := ((if up then "++" else "--") + name) + rest;
    PreOut(up, name, rest, u, v, env, d, x);
    Lands(Parse(UNARY, St(u, env, NoErr), d, x), v, Store(env, name, v, x), rest, d, x);
  }

  lemma PreOut(up: bool, name: string, rest: string, u: string, v: int, env: Chain, d: nat, x: bool)
    requires IsName(name) && IsStored(env, name) && d < MAX_DEPTH && Clean(rest)
    requires u == ((if up then "++" else "--") + name) + rest && v == Stepped(up, ValueOf(env, name))
    ensures Parse(UNARY, St(u, env, NoErr), d, x) == Out(v, St(rest, Store(env, name, v, x), NoErr))
  {
    hide ValueOf, IsStored, Resolve, Store, Parse, IsName, PreStep, Skip;
    ResolveStored(name, St(rest, env, NoErr), d, x);
    PreIs(up, name, rest, env, d, x);
    PreStepIs(if up then 1 else -1, name, rest, env, d, x);
  }

  lemma PreShape(up: bool, name: string, env: Chain, x: bool)
    ensures Print(UNARY, Pre(up, name)) == (if up then "++" else "--") + name
    ensures var v := Stepped(up, ValueOf(env, name)); Eval(Pre(up, name), env, x) == Val(v, Store(env, name, v, x))
  {
  }

  lemma PreStepIs(step: int, name: string, rest: string, env: Chain, d: nat, x: bool)
    requires d <= MAX_DEPTH && -1 <= step <= 1 && IsName(name) && Clean(rest)
    ensures var o := Resolve(name, St(rest, env, NoErr), d, x);
            var v := Wrap(o.v + step);
            PreStep(step, St(Skip(name + rest), env, NoErr), d, x) == Out(v, o.s.(env := Store(o.s.env, name, v, x)))
  {
    NameAt(name, rest);
    hide Resolve, Store, IdentLen, IdentStart, IsName;
  }

  lemma PreIs(up: bool, name: string, rest: string, env: Chain, d: nat, x: bool)
    requires IsName(name) && d <= MAX_DEPTH
    ensures var sign := if up then "++" else "--";
            Parse(UNARY, St((sign + name) + rest, env, NoErr), d, x)
            == PreStep(if up then 1 else -1, St(Skip(name + rest), env, NoErr), d, x)
  {
    hide Primary, PreStep;
    var sign := if up then "++" else "--";
    var u := (sign + name) + rest;
    assert u == sign + (name + rest) && u[2..] == name + rest && u[0] == u[1] == sign[0];
    assert Skip(u) == u;
  }

  /** An assignment in parentheses: what is left unread of its right side, the levels around it read. */
  lemma {:induction false} NameInParens(name: string, tail: string, rest: string, v: int, env1: Chain, rem: seq<Item>,
                                        env: Chain, d: nat, x: bool, names: set<string>)
    requires IsName(name) && d < MAX_DEPTH && tail != "" && tail[0] == ' ' && In64(v)
    requires Stored(env1, names) && RemOk(rem, COND, names) && (rem != [] ==> FirstMul(rem))
    requires Landing(Named(name, St(Skip(tail), env, NoErr), d, x), v, env1, Tail(rem, ")" + rest))
    ensures Meets(UNARY, Parse(UNARY, St("(" + (name + tail), env, NoErr), d, x), Resume(v, env1, rem, x), rest, d, x)
    decreases RemSize(rem), 6, 0
  {
    hide Parse, Named, Quiet, Tail, RemOk, Stored, Resume, OpAt;
    var s := St("(" + (name + tail), env, NoErr);
    var s1 := s.(u := name + tail);
    assert s.u[1..] == name + tail;
    NameIs(name, tail, env, d, x);
    QuietTail(rem, COND, rest, MUL, names);
    Down(MUL, s1, Val(v, env1), Tail(rem, ")" + rest), d, x);
    Climbs(MUL, s1, v, env1, rem, rest, d, x, names);
    ParenIs(s, d, x);
    assert Skip(")" + rest) == ")" + rest && (")" + rest)[1..] == rest;
  }

  /** An assignment that failed fails in parentheses, too. */
  lemma NameFails(name: string, tail: string, rest: string, env: Chain, d: nat, x: bool)
    requires IsName(name) && d < MAX_DEPTH && tail != "" && tail[0] == ' '
    requires Named(name, St(Skip(tail), env, NoErr), d, x).s.err != NoErr
    ensures Parse(UNARY, St("(" + (name + tail), env, NoErr), d, x).s.err != NoErr
  {
    hide Parse, Named;
    var s := St("(" + (name + tail), env, NoErr);
    assert s.u[1..] == name + tail;
    NameIs(name, tail, env, d, x);
    FailsDown(UNARY, s.(u := name + tail), d, x);
    ParenIs(s, d, x);
  }

  lemma RestAtClose(v: int, env: Chain, rest: string, d: nat, x: bool)
    requires d <= MAX_DEPTH && In64(v)
    ensures Rest(0, v, St(")" + rest, env, NoErr), d, x) == Out(v, St(")" + rest, env, NoErr))
  {
    assert Skip(")" + rest) == ")" + rest;
  }

  lemma {:induction false} ReadsAsg(name: string, e: Expr, rest: string, env: Chain, d: nat, x: bool, names: set<string>)
    requires IsName(name) && WfExpr(e) && Over(e, names) && Stored(env, names) && d < MAX_DEPTH
    ensures Meets(UNARY, Parse(UNARY, St(Print(UNARY, Asg(name, e)) + rest, env, NoErr), d, x),
                  Eval(Asg(name, e), env, x), rest, d, x)
    decreases Size(e), 7, 0
  {
    hide Parse, Store, Resolve, Tail, Quiet, Stored, RemOk, Over, Operand, WfExpr, Resume;
    var p := Print(COND, e);
    assert Print(UNARY, Asg(name, e)) == "(" + (name + (" " + ("=" + (" " + (p + ")")))));
    hide Print;
    var right := p + (")" + rest);
    var u := "=" + (" " + right);
    var tail := " " + u;
    assert ("(" + (name + (" " + ("=" + (" " + (p + ")")))))) + rest == "(" + (name + tail);
    SkipSpace(u);
    assert Skip(u) == u && u[1] == ' ' && u[1..] == " " + right;
    OneSpace(COND, St(" " + right, env, NoErr), right, d, x);
    ParenStops(COND, rest);
    Reads(COND, e, ")" + rest, env, d, x, names);
    OperandProper(COND, e, env, x, names);
    NoRem(")" + rest, names);
    var o := Named(name, St(Skip(tail), env, NoErr), d, x);
    match Operand(COND, e, env, x) {
      case Val(v, env1) => AsgLands(name, tail, rest, o, v, env1, [], env, d, x, names);
      case Ended(env1) => AsgLands(name, tail, rest, o, 0, env1, [], env, d, x, names);
      case Halt(v, env1, rem) => AsgLands(name, tail, rest, o, v, env1, rem, env, d, x, names);
      case Fails => NameFails(name, tail, rest, env, d, x);
    }
  }

  lemma NoRem(rest: string, names: set<string>)
    ensures RemOk([], COND, names) && Tail([], rest) == rest
  {
  }

  lemma {:induction false} AsgLands(name: string, tail: string, rest: string, o: Out, v: int, env1: Chain, rem: seq<Item>,
                                    env: Chain, d: nat, x: bool, names: set<string>)
    requires IsName(name) && d < MAX_DEPTH && tail != "" && tail[0] == ' ' && In64(v)
    requires Stored(env1, names) && RemOk(rem, COND, names) && (rem != [] ==> FirstMul(rem))
    requires o == Named(name, St(Skip(tail), env, NoErr), d, x)
    requires Landing(o, v, Store(env1, name, v, x), Tail(rem, ")" + rest))
    ensures Meets(UNARY, Parse(UNARY, St("(" + (name + tail), env, NoErr), d, x), Resume(v, Store(env1, name, v, x), rem, x), rest, d, x)
    ensures rem == [] ==> Resume(v, Store(env1, name, v, x), rem, x) == Val(v, Store(env1, name, v, x))
    decreases RemSize(rem), 7, 0
  {
    hide Parse, Store, Named, Tail, RemOk, Stored, Right, Choice;
    StoreStored(env1, name, v, x, names);
    NameInParens(name, tail, rest, v, Store(env1, name, v, x), rem, env, d, x, names);
  }

  lemma {:induction false} ReadsOpAsg(name: string, op: string, e: Expr, rest: string, env: Chain, d: nat, x: bool, names: set<string>)
    requires IsName(name) && op in ASSIGN_OPS && WfExpr(e) && Over(e, names) && name in names && Stored(env, names) && d < MAX_DEPTH
    ensures Meets(UNARY, Parse(UNARY, St(Print(UNARY, OpAsg(name, op, e)) + rest, env, NoErr), d, x),
                  Eval(OpAsg(name, op, e), env, x), rest, d, x)
    decreases Size(e), 7, 0
  {
    hide Parse, Store, Resolve, ValueOf, Stored, ApplyAssign, AssignOpAt, Tail, Quiet, RemOk, Over, Operand, WfExpr, Resume, Update, Named;
    var p := Print(COND, e);
    assert Print(UNARY, OpAsg(name, op, e)) == "(" + (name + (" " + (op + ("=" + (" " + (p + ")"))))));
    hide Print;
    var right := p + (")" + rest);
    var u := op + ("=" + (" " + right));
    var tail := " " + u;
    assert ("(" + (name + (" " + (op + ("=" + (" " + (p + ")"))))))) + rest == "(" + (name + tail);
    SkipSpace(u);
    AssignOpFound(op, " " + right);
    var s := St(" " + right, env, NoErr);
    ResolveStored(name, s, d, x) by { StoredOne(env, name, names); }
    OneSpace(COND, s, right, d, x);
    ParenStops(COND, rest);
    Reads(COND, e, ")" + rest, env, d, x, names);
    OperandProper(COND, e, env, x, names);
    NoRem(")" + rest, names);
    var a := ValueOf(env, name);
    NamedUpdate(name, op, right, env, d, x);
    match Operand(COND, e, env, x) {
      case Val(b, env1) => UpdateLands(name, op, tail, rest, a, b, env1, [], env, d, x, names);
      case Ended(env1) => UpdateLands(name, op, tail, rest, a, 0, env1, [], env, d, x, names);
      case Halt(b, env1, rem) => UpdateLands(name, op, tail, rest, a, b, env1, rem, env, d, x, names);
      case Fails => NameFails(name, tail, rest, env, d, x);
    }
  }

  /** A compound assignment on the text: the variable is read, then the right side. */
  lemma NamedUpdate(name: string, op: string, right: string, env: Chain, d: nat, x: bool)
    requires op in ASSIGN_OPS && d < MAX_DEPTH
    requires Resolve(name, St(" " + right, env, NoErr), d, x) == Out(ValueOf(env, name), St(" " + right, env, NoErr))
    requires Parse(COND, St(" " + right, env, NoErr), d, x) == Parse(COND, St(right, env, NoErr), d, x)
    ensures var o := Parse(COND, St(right, env, NoErr), d, x);
            var p := Named(name, St(op + ("=" + (" " + right)), env, NoErr), d, x);
            var u := Update(name, op, ValueOf(env, name), o.v, o.s.env, x);
            if u.Val? then p == Out(u.v, o.s.(env := u.env)) else p.s.err != NoErr
    ensures var o := Parse(COND, St(right, env, NoErr), d, x);
            o.s.err != NoErr ==> Named(name, St(op + ("=" + (" " + right)), env, NoErr), d, x).s.err != NoErr
  {
    hide Parse, Store, Resolve, ValueOf, ApplyAssign, AssignOpAt;
    AssignOpFound(op, " " + right);
  }

  lemma {:induction false} UpdateLands(name: string, op: string, tail: string, rest: string, a: int, b: int, env1: Chain,
                                       rem: seq<Item>, env: Chain, d: nat, x: bool, names: set<string>)
    requires IsName(name) && d < MAX_DEPTH && tail != "" && tail[0] == ' ' && In64(a) && In64(b)
    requires Stored(env1, names) && RemOk(rem, COND, names) && (rem != [] ==> FirstMul(rem))
    requires var o, q := Named(name, St(Skip(tail), env, NoErr), d, x), Update(name, op, a, b, env1, x);
             if q.Val? then Landing(o, q.v, q.env, Tail(rem, ")" + rest)) else o.s.err != NoErr
    ensures var q := Update(name, op, a, b, env1, x);
            Meets(UNARY, Parse(UNARY, St("(" + (name + tail), env, NoErr), d, x),
                  if q.Val? then Resume(q.v, q.env, rem, x) else Fails, rest, d, x)
    ensures var q := Update(name, op, a, b, env1, x); rem == [] && q.Val? ==> Resume(q.v, q.env, rem, x) == q
    decreases RemSize(rem), 7, 0
  {
    hide Parse, Store, Named, Tail, RemOk, Stored, Right, Choice, Update;
    UpdateProper(name, op, a, b, env1, x, names);
    var q := Update(name, op, a, b, env1, x);
    if q.Val? {
      NameInParens(name, tail, rest, q.v, q.env, rem, env, d, x, names);
    } else {
      NameFails(name, tail, rest, env, d, x);
    }
  }

  lemma AssignOpFound(op: string, more: string)
    requires op in ASSIGN_OPS
    ensures var u := op + ("=" + more);
            && Skip(u) == u && AssignOpAt(u) == op && u[|op| + 1..] == more
            && Ch(u, 0) != '=' && !((Ch(u, 0) == '+' || Ch(u, 0) == '-') && Ch(u, 1) == Ch(u, 0))
  {
    var u := op + ("=" + more);
    assert 1 <= |op| <= 2;
    assert u[0] == op[0] && u[|op|] == '=' && (|op| == 2 ==> u[1] == op[1]);
    assert u[|op| + 1..] == more;
    if |op| == 1 { assert op == [u[0]]; } else { assert op == [u[0], u[0]]; }
  }

  // ---- the result ----

  /**
   The evaluator on the text of any tree, with or without the closing parenthesis the lexer leaves behind it: there is no
   error exactly if the tree is read to a value, and then value and environment are those of the tree. Only variables the
   tree reads have to hold numbers.
   */
  lemma EvaluatesTree(e: Expr, close: bool, env: Chain, names: set<string>)
    requires WfExpr(e) && Over(e, names) && Stored(env, names)
    ensures var r := ArithEval(Print(0, e) + (if close then ")" else ""), env);
            match Settle(Eval(e, env, false))
            case Val(v, env1) => r == Result(v, env1, NoErr)
            case _ => r.err != NoErr && r.v == 0
  {
    hide Parse, Eval, Print, Quiet, Stored, WfExpr, Over, Tail, OpAt;
    var rest := if close then ")" else "";
    var text := Print(0, e) + rest;
    assert ")" + "" == ")";
    if close { ParenStops(0, ""); } else { QuietEnd(0, rest); }
    Reads(0, e, rest, env, 0, false, names);
    Blanks(0, St(text, env, NoErr), 0, false);
    PrintStart(e);
    TextStart(Print(0, e), rest);
    var r := Eval(e, env, false);
    match r {
      case Halt(_, _, rem) => TailMul(rem, rest);
      case Fails =>
      case _ =>
        var q := Settle(r);
        if close { RestAtClose(q.v, q.env, "", 0, false); } else { RestAtEnd(q.v, q.env, 0, false); }
    }
  }

  /** Against the usual meaning, in which a skipped operand plays no part: wherever reading halts nowhere, they agree. */
  lemma EvaluatesMeaning(e: Expr, close: bool, env: Chain, names: set<string>)
    requires WfExpr(e) && Over(e, names) && Stored(env, names) && !Halts(e, env, false)
    ensures var r := ArithEval(Print(0, e) + (if close then ")" else ""), env);
            var v := Meaning(e, env);
            && (r.err == NoErr <==> v.Val?)
            && (v.Val? ==> r.v == v.v && r.env == v.env)
            && (!v.Val? ==> r.v == 0)
  {
    hide Eval, Meaning, Print, ArithEval, Stored, WfExpr, Halts;
    EvaluatesTree(e, close, env, names);
    EvalIsMeaning(e, env);
  }

  /** Without assignments there is no error exactly if the meaning is defined and reading halts nowhere. */
  lemma ErrorFreeExactlyIf(e: Expr, close: bool, env: Chain, names: set<string>)
    requires WfExpr(e) && Over(e, names) && Stored(env, names) && AssignFree(e)
    ensures ArithEval(Print(0, e) + (if close then ")" else ""), env).err == NoErr
            <==> Meaning(e, env).Val? && !Halts(e, env, false)
  {
    hide Eval, Meaning, Print, ArithEval, Stored, WfExpr, Halts;
    EvaluatesTree(e, close, env, names);
    if Halts(e, env, false) { HaltFails(e, env, false); } else { EvalIsMeaning(e, env); }
  }

  // ---- variables that refer to themselves ----

  lemma {:induction false} ErrorDown(k: nat, s: St, d: nat, x: bool)
    requires k <= UNARY && d <= MAX_DEPTH && Parse(UNARY, s, d, x).s.err != NoErr
    ensures Parse(k, s, d, x).s.err == Parse(UNARY, s, d, x).s.err
    decreases UNARY - k
  {
    hide Parse;
    if k < UNARY {
      ErrorDown(k + 1, s, d, x);
      ErrorStep(k, s, d, x);
    }
  }

  lemma ErrorStep(k: nat, s: St, d: nat, x: bool)
    requires k < UNARY && d <= MAX_DEPTH && Parse(k + 1, s, d, x).s.err != NoErr
    ensures Parse(k, s, d, x).s.err == Parse(k + 1, s, d, x).s.err
  {
    hide Unary;
  }

  /** A variable whose value is its own name is given up at the depth limit, from whatever depth it is met. */
  lemma {:induction false} SelfReference(name: string, s: St, d: nat, x: bool)
    requires IsName(name) && TextOf(s.env, name) == name && d <= MAX_DEPTH
    ensures Resolve(name, s, d, x).s.err == TooDeep
    decreases MAX_DEPTH - d
  {
    if d < MAX_DEPTH {
      hide Parse, TextOf;
      var s1 := St("", s.env, NoErr);
      assert Skip("") == "" && AssignOpAt("") == "" && name + "" == name;
      NameIs(name, "", s.env, d + 1, x);
      SelfReference(name, s1, d + 1, x);
      assert Named(name, s1, d + 1, x) == Resolve(name, s1, d + 1, x);
      ErrorDown(0, St(name, s.env, NoErr), d + 1, x);
      NameAt(name, "");
    }
  }

  // ---- a zero divisor in an operand that is skipped ----

  /** In a skipped operand a zero divisor ends the multiplication it stands in, whatever the divisor is and whatever follows. */
  lemma ZeroEnds(l: Expr, op: string, r: Expr, rest: string, env: Chain, d: nat, names: set<string>)
    requires WfExpr(l) && WfExpr(r) && Over(l, names) && Over(r, names) && Stored(env, names) && d < MAX_DEPTH
    requires Divides(op) && Quiet(MUL, rest)
    requires Operand(MUL, l, env, true).Val? && Settle(Operand(UNARY, r, env, true)) == Val(0, env)
    requires Operand(MUL, l, env, true).env == env
    ensures Landing(Parse(MUL, St(Print(MUL, Bin(op, l, r)) + rest, env, NoErr), d, true), 0, env, rest)
  {
    hide Parse, Print, Quiet, Stored, Operand;
    DividesMul(op, Operand(MUL, l, env, true).v);
    var e := Bin(op, l, r);
    ReadsBin(e, rest, env, d, true, names);
    ZeroValue(e, env);
  }

  lemma ZeroValue(e: Expr, env: Chain)
    requires e.Bin? && Divides(e.op) && Operand(MUL, e.l, env, true).Val? && Operand(MUL, e.l, env, true).env == env
    requires Settle(Operand(UNARY, e.r, env, true)) == Val(0, env)
    ensures Eval(e, env, true) == Ended(env)
  {
    hide Operand;
    var a := Operand(MUL, e.l, env, true);
    DividesMul(e.op, a.v);
    assert Right(e.op, a.v, env, e.r, true) == Ended(env);
  }

  function SkippedZeroTree(): Expr {
    Bin("&&", Num(0), Bin("*", Bin("/", Num(1), Num(0)), Num(2)))
  }

  /** `0 && 1 / 0 * 2` means 0, but reading its skipped operand halts in the middle and leaves an error. */
  lemma SkippedZeroFails(env: Chain)
    requires env != []
    ensures Meaning(SkippedZeroTree(), env) == Val(0, env)
    ensures ArithEval(Print(0, SkippedZeroTree()), env).err != NoErr
  {
    hide Print, ArithEval;
    var e := SkippedZeroTree();
    SkippedHalts(env);
    EvaluatesTree(e, false, env, {});
    assert Print(0, e) + "" == Print(0, e);
  }

  lemma SkippedHalts(env: Chain)
    ensures WfExpr(SkippedZeroTree()) && Over(SkippedZeroTree(), {}) && Meaning(SkippedZeroTree(), env) == Val(0, env)
    ensures Settle(Eval(SkippedZeroTree(), env, false)).Fails?
  {
    var div := Bin("/", Num(1), Num(0));
    assert Operand(UNARY, Num(0), env, true) == Val(0, env);
    assert Right("/", 1, env, Num(0), true) == Ended(env);
    assert Operand(MUL, Num(1), env, true) == Val(1, env);
    assert Eval(div, env, true) == Ended(env) && Operand(MUL, div, env, true) == Ended(env);
    assert Eval(Bin("*", div, Num(2)), env, true) == Halt(0, env, [Op("*", Num(2))]);
    assert Right("&&", 0, env, Bin("*", div, Num(2)), false).Halt?;
  }

  /** `(x = 1 || 1 / 0 * 2)`, whose meaning is 1. */
  function RescuedTree(): Expr {
    Asg("x", Bin("||", Num(1), Bin("*", Bin("/", Num(1), Num(0)), Num(2))))
  }

  /** On the right side of an assignment the halt is no error: x becomes 1, but the value of the assignment is 2. */
  lemma RescuedValue(env: Chain)
    requires env != []
    ensures Meaning(RescuedTree(), env) == Val(1, Store(env, "x", 1, false))
    ensures ArithEval(Print(0, RescuedTree()), env) == Result(2, Store(env, "x", 1, false), NoErr)
  {
    hide Print, ArithEval, Store;
    var e := RescuedTree();
    RescuedHalts(env);
    EvaluatesTree(e, false, env, {});
    assert Print(0, e) + "" == Print(0, e);
  }

  lemma RescuedHalts(env: Chain)
    ensures WfExpr(RescuedTree()) && Over(RescuedTree(), {}) && Meaning(RescuedTree(), env) == Val(1, Store(env, "x", 1, false))
    ensures Eval(RescuedTree(), env, false) == Val(2, Store(env, "x", 1, false))
  {
    hide Store;
    var div := Bin("/", Num(1), Num(0));
    var times := Op("*", Num(2));
    assert Operand(UNARY, Num(0), env, true) == Val(0, env);
    assert Right("/", 1, env, Num(0), true) == Ended(env);
    assert Operand(MUL, Num(1), env, true) == Val(1, env);
    assert Eval(div, env, true) == Ended(env) && Operand(MUL, div, env, true) == Ended(env);
    assert Eval(Bin("*", div, Num(2)), env, true) == Halt(0, env, [times]);
    var or := Bin("||", Num(1), Bin("*", div, Num(2)));
    assert Meaning(or, env) == Val(1, env);
    assert Right("||", 1, env, or.r, false) == Halt(1, env, [times]);
    assert Eval(or, env, false) == Halt(1, env, [times]);
    RescuedRest(Store(env, "x", 1, false));
  }

  lemma RescuedRest(env: Chain)
    ensures Resume(1, env, [Op("*", Num(2))], false) == Val(2, env)
  {
    var times := Op("*", Num(2));
    assert Operand(UNARY, Num(2), env, false) == Val(2, env);
    assert Right("*", 1, env, Num(2), false) == Val(2, env);
    assert [times][1..] == [];
    assert Resume(2, env, [], false) == Val(2, env);
    assert Resume(1, env, [times], false) == Val(2, env);
  }

  lemma TextStart(p: string, rest: string)
    requires p != "" && !IsBlank(p[0]) && p[0] != ')'
    ensures Ch(Skip(p + rest), 0) != ')'
  {
    assert (p + rest)[0] == p[0];
  }

  lemma {:induction false} PrintStart(e: Expr)
    requires WfExpr(e)
    ensures forall k :: Print(k, e) != "" && !IsBlank(Print(k, e)[0]) && Print(k, e)[0] != ')'
    decreases e
  {
    match e
    case Num(n) => DecimalHead(n);
    case Bin(op, l, _) =>
      PrintStart(l);
      assert Body(e)[0] == Print(LevelOf(op), l)[0];
    case Cond(test, _, _) =>
      PrintStart(test);
      assert Body(e)[0] == Print(COND + 1, test)[0];
    case _ =>
  }
}
