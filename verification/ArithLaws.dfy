/** What the operators mean, said without the table that defines them. */
module ArithLaws {
  import opened Int64
  import opened Arith

  /** Exactly one of `<`, `==` and `>` holds; the other three comparisons are their negations; all follow the order. */
  lemma ComparisonLaws(a: int, b: int)
    requires In64(a) && In64(b)
    ensures Apply("<", a, b) + Apply("==", a, b) + Apply(">", a, b) == 1
    ensures Apply("<=", a, b) == 1 - Apply(">", a, b) && Apply(">=", a, b) == 1 - Apply("<", a, b)
    ensures Apply("!=", a, b) == 1 - Apply("==", a, b)
    ensures Apply("<", a, b) == Apply(">", b, a) && (Apply("<", a, b) == 1 ==> a + 1 <= b)
    ensures Apply("==", a, b) == 1 ==> a == b
  {
  }

  /** A skipped operand does not matter, and the value of a logical operator is 0 or 1. */
  lemma LogicLaws(a: int, b: int, c: int)
    requires In64(a) && In64(b) && In64(c)
    ensures Skips("&&", a) ==> Apply("&&", a, b) == Apply("&&", a, c) == 0
    ensures Skips("||", a) ==> Apply("||", a, b) == Apply("||", a, c) == 1
    ensures !Skips("&&", a) ==> Apply("&&", a, b) == (if b == 0 then 0 else 1)
    ensures !Skips("||", a) ==> Apply("||", a, b) == (if b == 0 then 0 else 1)
    ensures Skips("&&", a) <==> !Skips("||", a)
  {
  }

  lemma WrapShift(n: int, k: int)
    ensures Wrap(n + k * TWO64) == Wrap(n)
  {
    WrapUnique(n + k * TWO64, Wrap(n), WrapSteps(n) - k);
  }

  /** The multiple of 2^64 that Wrap adds. */
  function WrapSteps(n: int): (k: int)
    ensures Wrap(n) == n + k * TWO64
  {
    -((n + TWO63) / TWO64)
  }

  /** Sum and product are those of the integers up to a multiple of 2^64, and subtraction undoes addition. */
  lemma RingLaws(a: int, b: int)
    requires In64(a) && In64(b)
    ensures In64(a + b) ==> Apply("+", a, b) == a + b
    ensures In64(a * b) ==> Apply("*", a, b) == a * b
    ensures Apply("-", Apply("+", a, b), b) == a && Apply("+", Apply("-", a, b), b) == a
    ensures Apply("*", a, -1) == Apply("-", 0, a)
  {
    RingIs(a, b);
    RingIs(Wrap(a + b), b);
    RingIs(Wrap(a - b), b);
    RingIs(a, -1);
    RingIs(0, a);
    assert a * -1 == 0 - a;
    hide Apply, Wrap, WrapSteps;
    WrapShift(a, WrapSteps(a + b));
    WrapShift(a, WrapSteps(a - b));
  }

  lemma RingIs(a: int, b: int)
    requires In64(a) && In64(b)
    ensures Apply("+", a, b) == Wrap(a + b) && Apply("-", a, b) == Wrap(a - b) && Apply("*", a, b) == Wrap(a * b)
    ensures In64(a + b) ==> Wrap(a + b) == a + b
    ensures In64(a * b) ==> Wrap(a * b) == a * b
  {
    hide ShiftLeft, ShiftRight, Bitwise, Quot, Rem;
  }

  /** Shifting left by one more place doubles, and by 0 changes nothing; counts outside 0..63 give 0. */
  lemma LeftShiftLaws(a: int, n: nat)
    requires In64(a)
    ensures Apply("<<", a, 0) == a
    ensures n < 63 ==> Apply("<<", a, n + 1) == Apply("+", Apply("<<", a, n), Apply("<<", a, n))
    ensures 64 <= n <= MAX64 ==> Apply("<<", a, n) == 0 == Apply(">>", a, n)
  {
    if n < 63 {
      var x := a * Pow2(n);
      var k := WrapSteps(x);
      DoublePower(a, n);
      WrapShift(2 * x, 2 * k);
      assert 2 * x + 2 * k * TWO64 == Wrap(x) + Wrap(x);
      assert Apply("<<", a, n) == Wrap(x) && Apply("<<", a, n + 1) == Wrap(2 * x);
    }
  }

  lemma DoublePower(a: int, n: nat)
    ensures a * Pow2(n + 1) == 2 * (a * Pow2(n))
  {
    var p := Pow2(n);
    assert a * (2 * p) == 2 * (a * p);
  }

  lemma RightShiftIs(a: int, n: nat)
    requires In64(a) && n < 64
    ensures Apply(">>", a, n) == a / Pow2(n)
  {
    hide ShiftLeft, Bitwise, Quot, Rem, Wrap;
  }

  /** Shifting right divides by a power of two and rounds towards minus infinity. */
  lemma RightShiftLaws(a: int, n: nat)
    requires In64(a) && n < 64
    ensures var q := Apply(">>", a, n); q * Pow2(n) <= a < (q + 1) * Pow2(n)
  {
    RightShiftIs(a, n);
    hide Apply, Pow2;
    DivBounds(a, Pow2(n));
  }

  lemma DivBounds(a: int, p: nat)
    requires p > 0
    ensures a / p * p <= a < (a / p + 1) * p
  {
    var q := a / p;
    assert a == q * p + a % p;
    assert (q + 1) * p == q * p + p;
  }

  /** Assigning shifts: a count outside 0..63 leaves the variable as it was, where the plain shift gives 0. */
  lemma AssignShiftLaws(a: int, b: int)
    requires In64(a) && In64(b)
    ensures !(0 <= b < 64) ==> ApplyAssign("<<", a, b) == ApplyAssign(">>", a, b) == a && Apply("<<", a, b) == Apply(">>", a, b) == 0
    ensures 0 <= b < 64 ==> ApplyAssign("<<", a, b) == Apply("<<", a, b) && ApplyAssign(">>", a, b) == Apply(">>", a, b)
  {
  }

  // ---- division ----

  lemma DivisionIs(a: int, b: int)
    requires In64(a) && In64(b) && b != 0
    ensures Apply("/", a, b) == Quot(a, b) && Apply("%", a, b) == Rem(a, b)
  {
    hide ShiftLeft, ShiftRight, Bitwise, Quot, Rem, Wrap;
  }

  /** The multiple of 2^64 by which `n` differs from its wrapped value. */
  lemma WrapMultiple(n: int)
    ensures (n - Wrap(n)) % TWO64 == 0
  {
    var k := WrapSteps(n);
    assert n - Wrap(n) == -k * TWO64;
  }

  /**
   Quotient times divisor plus remainder is the dividend modulo 2^64, and exactly so but for the smallest number by -1; the
   remainder is smaller than the divisor and has the sign of the dividend.
   */
  lemma DivisionLaws(a: int, b: int)
    requires In64(a) && In64(b) && b != 0
    ensures var q, r := Apply("/", a, b), Apply("%", a, b);
            && (q * b + r - a) % TWO64 == 0
            && (!(a == MIN64 && b == -1) ==> q * b + r == a)
            && (if b > 0 then -b < r < b else b < r < -b)
            && (a >= 0 ==> r >= 0) && (a <= 0 ==> r <= 0)
  {
    DivisionIs(a, b);
    hide Apply, Quot, Rem, Wrap;
    QuotRem(a, b);
    WrapMultiple(Quot(a, b) * b + Rem(a, b));
  }

  // ---- bits ----

  lemma BitwiseIs(a: int, b: int)
    requires In64(a) && In64(b)
    ensures Apply("&", a, b) == Bitwise(AND, a, b) && Apply("|", a, b) == Bitwise(OR, a, b) && Apply("^", a, b) == Bitwise(XOR, a, b)
  {
    hide ShiftLeft, ShiftRight, Bitwise, Quot, Rem, Wrap;
  }

  lemma HalveTwice(x: nat, p: nat)
    requires p > 0
    ensures x / 2 / p == x / (2 * p)
  {
    var q, r := x / 2 / p, x / 2 % p;
    assert x / 2 == q * p + r;
    assert x == (2 * p) * q + (2 * r + x % 2);
    QuotientIs(x, 2 * p, q, 2 * r + x % 2);
  }

  lemma QuotientIs(x: int, m: nat, q: int, r: nat)
    requires x == m * q + r && r < m
    ensures x / m == q
  {
    var d := x / m - q;
    assert x == m * (x / m) + x % m;
    assert m * d == r - x % m;
    if d > 0 { Grow(m, d); }
    if d < 0 {
      Grow(m, -d);
      Signs(m, d);
    }
  }

  lemma Grow(m: nat, d: nat)
    requires d > 0
    ensures m * d >= m
  {
    assert m * d == m + m * (d - 1);
    NonNegative(m, d - 1);
  }

  lemma {:induction false} BitAtIs(x: nat, i: nat)
    ensures BitAt(x, i) == x / Pow2(i) % 2
    decreases i
  {
    if i > 0 {
      BitAtIs(x / 2, i - 1);
      HalveTwice(x, Pow2(i - 1));
    }
  }

  /** Adding an even multiple of the divisor leaves the lowest bit of the quotient. */
  lemma SameBit(a: int, p: nat, h: nat)
    requires p > 0
    ensures (a + p * (2 * h)) / p % 2 == a / p % 2
  {
    var q, r := a / p, a % p;
    assert a == p * q + r;
    assert p * (q + 2 * h) == p * q + p * (2 * h);
    QuotientIs(a + p * (2 * h), p, q + 2 * h, r);
  }

  lemma TopHalf(i: nat)
    requires i < 64
    ensures TWO64 == Pow2(i) * (2 * Pow2(63 - i))
  {
    Pow64();
    PowAdd(i, 64 - i);
    assert Pow2(64 - i) == 2 * Pow2(63 - i);
  }

  /** The bits of two's complement are those of the rounded-down quotients by the powers of two. */
  lemma UnsignedBit(a: int, i: nat)
    requires In64(a) && i < 64
    ensures BitAt(Unsigned(a), i) == a / Pow2(i) % 2
  {
    hide BitAt, Pow2;
    BitAtIs(Unsigned(a), i);
    TopHalf(i);
    SameBit(a, Pow2(i), Pow2(63 - i));
    assert Unsigned(a) == a || Unsigned(a) == a + TWO64;
  }

  /** Each of the 64 bits of the result is set exactly if it is set in both, in one or the other, in one but not the other. */
  lemma BitLaws(a: int, b: int, i: nat)
    requires In64(a) && In64(b) && i < 64
    ensures var p := Pow2(i);
            && (Apply("&", a, b) / p % 2 == 1 <==> a / p % 2 == 1 && b / p % 2 == 1)
            && (Apply("|", a, b) / p % 2 == 1 <==> a / p % 2 == 1 || b / p % 2 == 1)
            && (Apply("^", a, b) / p % 2 == 1 <==> a / p % 2 != b / p % 2)
  {
    BitwiseIs(a, b);
    hide Apply, Bitwise, Pow2, Unsigned, BitAt, Wrap;
    UnsignedBit(a, i);
    UnsignedBit(b, i);
    BitwiseAt(AND, a, b, i);
    BitwiseAt(OR, a, b, i);
    BitwiseAt(XOR, a, b, i);
    UnsignedBit(Bitwise(AND, a, b), i);
    UnsignedBit(Bitwise(OR, a, b), i);
    UnsignedBit(Bitwise(XOR, a, b), i);
    BitValues(BitAt(Unsigned(a), i), BitAt(Unsigned(b), i));
  }

  lemma BitValues(x: nat, y: nat)
    requires x < 2 && y < 2
    ensures Bit(AND, x, y) == 1 <==> x == 1 && y == 1
    ensures Bit(OR, x, y) == 1 <==> x == 1 || y == 1
    ensures Bit(XOR, x, y) == 1 <==> x != y
  {
    assert x * y == if x == 1 then y else 0;
  }

  // ---- the rest of the table ----

  /** The comma gives its right operand. */
  lemma CommaLaw(a: int, b: int)
    requires In64(a) && In64(b)
    ensures Apply(",", a, b) == b
  {
  }

  /** A compound assignment computes what its operator does, but for a shift by a count outside 0..63. */
  lemma AssignLaws(op: string, a: int, b: int)
    requires In64(a) && In64(b) && (op in {"/", "%"} ==> b != 0)
    ensures op !in {"<<", ">>"} || 0 <= b < 64 ==> ApplyAssign(op, a, b) == Apply(op, a, b)
  {
    hide Apply;
  }
}
