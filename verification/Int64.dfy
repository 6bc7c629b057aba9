/** 64-bit two's complement arithmetic, as the evaluator's casts through uint64_t and its checks give it. */
module Int64 {
  const TWO63 := 0x8000_0000_0000_0000
  const TWO64 := 0x1_0000_0000_0000_0000
  const MIN64 := -TWO63
  const MAX64 := TWO63 - 1

  predicate In64(n: int) {
    MIN64 <= n <= MAX64
  }

  function Wrap(n: int): (r: int)
    ensures In64(r)
    ensures In64(n) ==> r == n
  {
    (n + TWO63) % TWO64 - TWO63
  }

  /** Two values in range that differ by a multiple of 2^64 are equal, so Wrap is the only such result. */
  lemma WrapUnique(n: int, r: int, k: int)
    requires In64(r) && r == n + k * TWO64
    ensures r == Wrap(n)
  {
    var j := (n + TWO63) / TWO64;
    assert Wrap(n) == n - j * TWO64;
    assert r - Wrap(n) == (k + j) * TWO64;
  }

  function Unsigned(n: int): (r: nat)
    requires In64(n)
    ensures r < TWO64 && Wrap(r) == n
  {
    if n < 0 then n + TWO64 else n
  }

  function Abs(n: int): nat {
    if n < 0 then -n else n
  }

  function Signed(negative: bool, n: nat): int {
    if negative then -(n as int) else n
  }

  function Div(a: nat, b: nat): nat
    requires b > 0
  {
    a / b
  }

  function Mod(a: nat, b: nat): nat
    requires b > 0
  {
    a % b
  }

  /** C division truncates towards zero; the one quotient out of range is caught by the source. */
  function Quot(a: int, b: int): (r: int)
    requires In64(a) && In64(b) && b != 0
    ensures In64(r)
  {
    DivBound(Abs(a), Abs(b));
    if a == MIN64 && b == -1 then MIN64 else Signed((a < 0) != (b < 0), Div(Abs(a), Abs(b)))
  }

  function Rem(a: int, b: int): (r: int)
    requires In64(a) && In64(b) && b != 0
    ensures In64(r)
  {
    DivBound(Abs(a), Abs(b));
    if a == MIN64 && b == -1 then 0 else Signed(a < 0, Mod(Abs(a), Abs(b)))
  }

  /** a / b <= a, and below a when b is not 1. */
  lemma DivBound(a: nat, b: nat)
    requires b > 0
    ensures Div(a, b) <= a && (b >= 2 && a > 0 ==> Div(a, b) < a)
    ensures a == Div(a, b) * b + Mod(a, b) && Mod(a, b) < b
  {
    var q := a / b;
    assert a == q * b + a % b;
    if b == 1 {
      assert q * b == q;
    } else {
      Doubles(q, b);
    }
  }

  lemma Doubles(q: nat, b: nat)
    requires b >= 2
    ensures q * b >= 2 * q
  {
    assert q * b == q * 2 + q * (b - 2);
  }

  lemma Signs(d: int, q: int)
    ensures (-d) * (-q) == d * q && (-d) * q == -(d * q) && d * (-q) == -(d * q)
  {
  }

  lemma SignedTimes(n: bool, m: bool, d: nat, q: nat)
    ensures Signed(n, d) * Signed(m, q) == (if n == m then d * q else -(d * q))
  {
    Signs(d, q);
  }

  /** Quotient and remainder fit together, and the remainder takes the sign of the dividend. */
  lemma QuotRem(a: int, b: int)
    requires In64(a) && In64(b) && b != 0
    ensures a == Wrap(Quot(a, b) * b + Rem(a, b)) && (!(a == MIN64 && b == -1) ==> a == Quot(a, b) * b + Rem(a, b))
    ensures Abs(Rem(a, b)) < Abs(b) && (a >= 0 ==> Rem(a, b) >= 0) && (a <= 0 ==> Rem(a, b) <= 0)
  {
    hide Wrap, Div, Mod;
    if a == MIN64 && b == -1 {
      assert MIN64 * -1 == TWO63;
      WrapUnique(TWO63, MIN64, -1);
    } else {
      var d, q := Div(Abs(a), Abs(b)), Abs(b);
      DivBound(Abs(a), q);
      SignedTimes((a < 0) != (b < 0), b < 0, d, q);
      Fits(a, b, d, q, Mod(Abs(a), q));
    }
  }

  lemma Fits(a: int, b: int, d: nat, q: nat, r: nat)
    requires In64(a) && Abs(a) == d * q + r && q == Abs(b)
    requires Signed((a < 0) != (b < 0), d) * Signed(b < 0, q) == (if ((a < 0) != (b < 0)) == (b < 0) then d * q else -(d * q))
    ensures Signed((a < 0) != (b < 0), d) * b + Signed(a < 0, r) == a
  {
    assert Signed(b < 0, q) == b;
  }

  // ---- bits ----

  datatype BitOp = AND | OR | XOR

  function Bit(op: BitOp, x: nat, y: nat): (r: nat)
    requires x < 2 && y < 2
    ensures r < 2
  {
    match op
    case AND => x * y
    case OR => if x + y > 0 then 1 else 0
    case XOR => (x + y) % 2
  }

  function Pow2(n: nat): (r: nat)
    ensures r > 0
  {
    if n == 0 then 1 else 2 * Pow2(n - 1)
  }

  function BitwiseN(op: BitOp, x: nat, y: nat, n: nat): (r: nat)
    ensures r < Pow2(n)
    decreases n
  {
    if n == 0 then 0 else Bit(op, x % 2, y % 2) + 2 * BitwiseN(op, x / 2, y / 2, n - 1)
  }

  function BitAt(x: nat, i: nat): (r: nat)
    ensures r < 2
    decreases i
  {
    if i == 0 then x % 2 else BitAt(x / 2, i - 1)
  }

  lemma {:induction false} BitwiseBit(op: BitOp, x: nat, y: nat, n: nat, i: nat)
    requires i < n
    ensures BitAt(BitwiseN(op, x, y, n), i) == Bit(op, BitAt(x, i), BitAt(y, i))
    decreases n
  {
    var low, high := Bit(op, x % 2, y % 2), BitwiseN(op, x / 2, y / 2, n - 1);
    assert (low + 2 * high) / 2 == high && (low + 2 * high) % 2 == low;
    if i > 0 { BitwiseBit(op, x / 2, y / 2, n - 1, i - 1); }
  }

  function Bitwise(op: BitOp, a: int, b: int): (r: int)
    requires In64(a) && In64(b)
    ensures In64(r)
  {
    Wrap(BitwiseN(op, Unsigned(a), Unsigned(b), 64))
  }

  lemma Pow64()
    ensures Pow2(64) == TWO64
  {
    hide Pow2;
    Pow8();
    PowAdd(8, 8);
    PowAdd(16, 16);
    PowAdd(32, 32);
  }

  lemma Pow8()
    ensures Pow2(8) == 0x100
  {
  }

  lemma {:induction false} PowAdd(m: nat, n: nat)
    ensures Pow2(m + n) == Pow2(m) * Pow2(n)
    decreases m
  {
    if m > 0 {
      PowAdd(m - 1, n);
      Associate(Pow2(m - 1), Pow2(n));
    }
  }

  lemma Associate(x: int, y: int)
    ensures (2 * x) * y == 2 * (x * y)
  {
  }

  lemma SameUnsigned(u: nat)
    requires u < TWO64
    ensures Unsigned(Wrap(u)) == u
  {
  }

  /** Every bit of the result is the operation on the bits of the operands. */
  lemma BitwiseAt(op: BitOp, a: int, b: int, i: nat)
    requires In64(a) && In64(b) && i < 64
    ensures BitAt(Unsigned(Bitwise(op, a, b)), i) == Bit(op, BitAt(Unsigned(a), i), BitAt(Unsigned(b), i))
  {
    Pow64();
    var u := BitwiseN(op, Unsigned(a), Unsigned(b), 64);
    SameUnsigned(u);
    BitwiseBit(op, Unsigned(a), Unsigned(b), 64, i);
  }

  // ---- shifts ----

  function ShiftLeft(a: int, n: nat): (r: int)
    ensures In64(r)
  {
    Wrap(a * Pow2(n))
  }

  /** Arithmetic shift: rounds towards minus infinity. */
  function ShiftRight(a: int, n: nat): (r: int)
    requires In64(a)
    ensures In64(r)
  {
    Floor(a, Pow2(n));
    a / Pow2(n)
  }

  lemma Floor(a: int, d: nat)
    requires d > 0
    ensures if a >= 0 then 0 <= a / d <= a else a <= a / d < 0
  {
    var q := a / d;
    assert a == q * d + a % d;
    if a >= 0 {
      DivBound(a, d);
    } else {
      if q >= 0 { NonNegative(q, d); }
      if q < a { Below(q, a, d); }
    }
  }

  lemma NonNegative(q: nat, d: nat)
    ensures q * d >= 0
  {
  }

  lemma Below(q: int, a: int, d: nat)
    requires q < a < 0 && d > 0
    ensures q * d + d <= a
  {
    assert q * d + d == (q + 1) * d;
    NonNegative(a - (q + 1), d);
    assert (a - (q + 1)) * d == a * d - (q + 1) * d;
    NonNegative(-a, d - 1);
    assert (-a) * (d - 1) == a - a * d;
  }
}
