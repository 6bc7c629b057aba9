/** Runs of the machine, and the single instructions the compiler emits, read from the code buffer. */
module Runs {
  import opened Bytes
  import opened Bytecode
  import opened Vm
  import opened Emit

  // ---- cells in memory ----

  ghost predicate Holds(pool: seq<string>, b: byte, cell: Cell) {
    match cell
    case B(b') => b == b'
    case ConstLo(s) => s in pool && b == IndexOf(pool, s) % 0x100
    case ConstHi(s) => s in pool && b == IndexOf(pool, s) / 0x100 % 0x100
  }

  /** The code holds `cells` from offset `pos` on. */
  ghost predicate At(m: Machine, pos: nat, cells: seq<Cell>) {
    && pos + |cells| <= |m.code|
    && forall i :: 0 <= i < |cells| ==> Holds(m.pool, m.code[pos + i], cells[i])
  }

  lemma AtSplit(m: Machine, pos: nat, a: seq<Cell>, b: seq<Cell>)
    ensures At(m, pos, a + b) <==> At(m, pos, a) && At(m, pos + |a|, b)
    ensures At(m, pos, a + b) ==> pos + |a| + |b| <= |m.code|
  {
    if At(m, pos, a + b) {
      forall i | 0 <= i < |a| ensures Holds(m.pool, m.code[pos + i], a[i]) {
        assert (a + b)[i] == a[i];
      }
      forall i | 0 <= i < |b| ensures Holds(m.pool, m.code[pos + |a| + i], b[i]) {
        assert (a + b)[|a| + i] == b[i];
      }
    }
    if At(m, pos, a) && At(m, pos + |a|, b) {
      forall i | 0 <= i < |a + b| ensures Holds(m.pool, m.code[pos + i], (a + b)[i]) {
        if i >= |a| {
          assert (a + b)[i] == b[i - |a|];
          assert Holds(m.pool, m.code[pos + |a| + (i - |a|)], b[i - |a|]);
        }
      }
    }
  }

  // ---- runs ----

  ghost predicate Star(m: Machine, c: Cfg, d: Cfg) {
    exists n: nat :: Run(m, c, n) == Next(d)
  }

  ghost predicate Plus(m: Machine, c: Cfg, d: Cfg) {
    exists n: nat :: n >= 1 && Run(m, c, n) == Next(d)
  }

  /** How a run is expected to go on. `Forever` is relative to a bound: at least that many more instructions. */
  datatype Goal = To(c: Cfg) | StopAt(s: State) | Forever | Never

  ghost predicate Meets(m: Machine, c: Cfg, fuel: nat, goal: Goal) {
    match goal
    case To(d) => Star(m, c, d)
    case StopAt(s) => exists n: nat :: Run(m, c, n) == Stop(s)
    case Forever => exists n: nat :: n >= fuel && Run(m, c, n).Next?
    case Never => false
  }

  lemma {:induction false} RunAdd(m: Machine, c: Cfg, n: nat, k: nat)
    ensures Run(m, c, n).Next? ==> Run(m, c, n + k) == Run(m, Run(m, c, n).c, k)
    ensures !Run(m, c, n).Next? ==> Run(m, c, n + k) == Run(m, c, n)
    decreases n
  {
    if n > 0 {
      match Step(m, c)
      case Next(d) => RunAdd(m, d, n - 1, k);
      case _ =>
    }
  }

  lemma Refl(m: Machine, c: Cfg)
    ensures Star(m, c, c)
  {
    assert Run(m, c, 0) == Next(c);
  }

  lemma Trans(m: Machine, c: Cfg, d: Cfg, e: Cfg)
    requires Star(m, c, d) && Star(m, d, e)
    ensures Star(m, c, e)
  {
    hide Step;
    var n: nat :| Run(m, c, n) == Next(d);
    var k: nat :| Run(m, d, k) == Next(e);
    RunAdd(m, c, n, k);
  }

  lemma OneStep(m: Machine, c0: Cfg, c: Cfg, d: Cfg)
    requires Star(m, c0, c) && Step(m, c) == Next(d)
    ensures Star(m, c0, d) && Plus(m, c0, d)
  {
    hide Step;
    var n: nat :| Run(m, c0, n) == Next(c);
    assert Run(m, c, 1) == Next(d) by { assert Run(m, d, 0) == Next(d); }
    RunAdd(m, c0, n, 1);
  }

  lemma LastStep(m: Machine, c0: Cfg, c: Cfg, s: State)
    requires Star(m, c0, c) && Step(m, c) == Stop(s)
    ensures Meets(m, c0, 0, StopAt(s))
  {
    hide Step;
    var n: nat :| Run(m, c0, n) == Next(c);
    assert Run(m, c, 1) == Stop(s);
    RunAdd(m, c0, n, 1);
  }

  lemma Onward(m: Machine, c: Cfg, d: Cfg, fuel: nat, goal: Goal)
    requires Star(m, c, d) && Meets(m, d, fuel, goal)
    ensures Meets(m, c, fuel, goal)
  {
    hide Step;
    var n: nat :| Run(m, c, n) == Next(d);
    match goal
    case To(e) => Trans(m, c, d, e);
    case StopAt(s) =>
      var k: nat :| Run(m, d, k) == Stop(s);
      RunAdd(m, c, n, k);
    case Forever =>
      var k: nat :| k >= fuel && Run(m, d, k).Next?;
      RunAdd(m, c, n, k);
      assert n + k >= fuel;
  }

  /** A step on the way accounts for one unit of fuel. */
  lemma AfterPlus(m: Machine, c: Cfg, d: Cfg, fuel: nat, goal: Goal)
    requires fuel > 0 && Plus(m, c, d) && Meets(m, d, fuel - 1, goal)
    ensures Meets(m, c, fuel, goal)
  {
    hide Step;
    var n: nat :| n >= 1 && Run(m, c, n) == Next(d);
    match goal
    case To(e) =>
      assert Star(m, c, d);
      Trans(m, c, d, e);
    case StopAt(s) =>
      var k: nat :| Run(m, d, k) == Stop(s);
      RunAdd(m, c, n, k);
    case Forever =>
      var k: nat :| k >= fuel - 1 && Run(m, d, k).Next?;
      RunAdd(m, c, n, k);
      assert n + k >= fuel;
  }

  lemma NoFuel(m: Machine, c: Cfg)
    ensures Meets(m, c, 0, Forever)
  {
    assert Run(m, c, 0).Next?;
  }

  // ---- decoding ----

  lemma Decode(m: Machine, c: Cfg, op: byte, bytes: seq<byte>)
    requires At(m, c.ip, [B(op)] + Bs(bytes)) && |bytes| == OperandSize(op)
    ensures Step(m, c) == Exec(m, c.(ip := c.ip + 1 + |bytes|), op, bytes)
  {
    AtSplit(m, c.ip, [B(op)], Bs(bytes));
    assert Holds(m.pool, m.code[c.ip + 0], [B(op)][0]);
    var a := m.code[c.ip + 1..c.ip + 1 + |bytes|];
    forall i | 0 <= i < |bytes| ensures a[i] == bytes[i] {
      assert Holds(m.pool, m.code[c.ip + 1 + i], Bs(bytes)[i]);
    }
    assert a == bytes;
  }

  lemma Decode0(m: Machine, c: Cfg, op: byte)
    requires At(m, c.ip, Op(op)) && OperandSize(op) == 0
    ensures Step(m, c) == Exec(m, c.(ip := c.ip + 1), op, [])
  {
    assert Op(op) == [B(op)] + Bs([]);
    Decode(m, c, op, []);
  }

  lemma Decode1(m: Machine, c: Cfg, op: byte, x: nat)
    requires At(m, c.ip, Op1(op, x)) && OperandSize(op) == 1 && x < 0x100
    ensures Step(m, c) == Exec(m, c.(ip := c.ip + 2), op, [x])
  {
    assert Op1(op, x) == [B(op)] + Bs([x]);
    Decode(m, c, op, [x]);
  }

  lemma Decode2(m: Machine, c: Cfg, op: byte, x: nat, y: nat)
    requires At(m, c.ip, Op2(op, x, y)) && OperandSize(op) == 2 && x < 0x100 && y < 0x100
    ensures Step(m, c) == Exec(m, c.(ip := c.ip + 3), op, [x, y])
  {
    assert Op2(op, x, y) == [B(op)] + Bs([x, y]);
    Decode(m, c, op, [x, y]);
  }

  lemma Decode16(m: Machine, c: Cfg, op: byte, x: nat)
    requires At(m, c.ip, Op16(op, x)) && OperandSize(op) == 2 && x < TWO16
    ensures U16(Le16(x)) == x
    ensures Step(m, c) == Exec(m, c.(ip := c.ip + 3), op, Le16(x))
  {
    Le16RoundTrip(x);
    Decode(m, c, op, Le16(x));
  }

  lemma Decode32(m: Machine, c: Cfg, op: byte, x: int)
    requires At(m, c.ip, Op32(op, x)) && OperandSize(op) == 4 && -TWO31 <= x < TWO31
    ensures I32(Le32(x)) == x
    ensures Step(m, c) == Exec(m, c.(ip := c.ip + 5), op, Le32(x))
  {
    I32RoundTrip(x);
    Decode(m, c, op, Le32(x));
  }

  lemma DecodeConst(m: Machine, c: Cfg, op: byte, s: string)
    requires At(m, c.ip, OpConst(op, s)) && OperandSize(op) == 2 && |m.pool| < TWO16
    ensures s in m.pool
    ensures U16(Le16(IndexOf(m.pool, s))) == IndexOf(m.pool, s) < |m.pool|
    ensures Step(m, c) == Exec(m, c.(ip := c.ip + 3), op, Le16(IndexOf(m.pool, s)))
  {
    var k := OpConst(op, s);
    assert Holds(m.pool, m.code[c.ip + 0], k[0]);
    assert Holds(m.pool, m.code[c.ip + 1], k[1]);
    assert Holds(m.pool, m.code[c.ip + 2], k[2]);
    var i := IndexOf(m.pool, s);
    Le16RoundTrip(i);
    var bytes := Le16(i);
    forall j | 0 <= j < 3 ensures Holds(m.pool, m.code[c.ip + j], ([B(op)] + Bs(bytes))[j]) {
      if j == 1 { assert Bs(bytes)[0] == B(bytes[0]); }
      if j == 2 { assert Bs(bytes)[1] == B(bytes[1]); }
    }
    Decode(m, c, op, bytes);
  }

  // ---- instructions, as continuations of a run ----

  /** The instructions that only touch the status or the errexit counter. */
  function StatusOp(op: byte, s: State): State {
    if op == ERREXIT_PUSH then s.(supp := s.supp + 1)
    else if op == ERREXIT_POP then s.(supp := if s.supp > 0 then s.supp - 1 else 0)
    else if op == STATUS_ZERO then s.(status := 0)
    else s.(status := Negate(s.status))
  }

  lemma DoStatus(m: Machine, c0: Cfg, c: Cfg, op: byte) returns (d: Cfg)
    requires Star(m, c0, c) && At(m, c.ip, Op(op))
    requires op in {ERREXIT_PUSH, ERREXIT_POP, STATUS_ZERO, NEGATE_STATUS}
    ensures d == c.(ip := c.ip + 1, s := StatusOp(op, c.s)) && Star(m, c0, d)
  {
    Decode0(m, c, op);
    d := c.(ip := c.ip + 1, s := StatusOp(op, c.s));
    OneStep(m, c0, c, d);
  }

  predicate Taken(op: byte, s: State) {
    op == JMP || (op == JMP_TRUE && s.status == 0) || (op == JMP_FALSE && s.status != 0)
  }

  lemma DoJump(m: Machine, c0: Cfg, c: Cfg, op: byte, target: nat) returns (d: Cfg)
    requires Star(m, c0, c) && At(m, c.ip, JumpTo(op, c.ip, target))
    requires op in {JMP, JMP_TRUE, JMP_FALSE}
    requires target <= |m.code| < TWO31
    ensures d == c.(ip := if Taken(op, c.s) then target else c.ip + JUMP_SIZE)
    ensures Star(m, c0, d) && Plus(m, c0, d)
  {
    Decode32(m, c, op, target - (c.ip + JUMP_SIZE));
    d := c.(ip := if Taken(op, c.s) then target else c.ip + JUMP_SIZE);
    OneStep(m, c0, c, d);
  }
}
