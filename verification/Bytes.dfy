/** Bytes and the little-endian encodings shared by the bytecode buffer and the image file. */
module Bytes {

  type byte = n: int | 0 <= n < 0x100

  const TWO16 := 0x1_0000
  const TWO31 := 0x8000_0000
  const TWO32 := 0x1_0000_0000

  /** The two bytes of `x` modulo 2^16, low byte first. */
  function Le16(x: int): (r: seq<byte>)
    ensures |r| == 2
  {
    [x % 0x100, x / 0x100 % 0x100]
  }

  /** The four bytes of `x` modulo 2^32, low byte first. A negative `x` is encoded in two's complement. */
  function Le32(x: int): (r: seq<byte>)
    ensures |r| == 4
  {
    [x % 0x100, x / 0x100 % 0x100, x / 0x1_0000 % 0x100, x / 0x100_0000 % 0x100]
  }

  function U16(a: seq<byte>): (r: nat)
    requires |a| == 2
    ensures r < TWO16
  {
    a[0] as int + 0x100 * (a[1] as int)
  }

  function U32(a: seq<byte>): (r: nat)
    requires |a| == 4
    ensures r < TWO32
  {
    a[0] as int + 0x100 * (a[1] as int) + 0x1_0000 * (a[2] as int) + 0x100_0000 * (a[3] as int)
  }

  /** The same four bytes read as a signed 32-bit integer. */
  function I32(a: seq<byte>): (r: int)
    requires |a| == 4
    ensures -TWO31 <= r < TWO31
  {
    if U32(a) < TWO31 then U32(a) else U32(a) - TWO32
  }

  /** The low byte comes first: a number below 256 is that byte and zeros. */
  lemma LowByteFirst(x: int)
    requires 0 <= x < 0x100
    ensures Le16(x) == [x, 0] && Le32(x) == [x, 0, 0, 0]
  {
  }

  /** And four bytes are those of the low half and then those of the high half. */
  lemma LowHalfFirst(low: int, high: int)
    requires 0 <= low < TWO16 && 0 <= high < TWO16
    ensures Le32(low + TWO16 * high) == Le16(low) + Le16(high)
  {
    var x := low + TWO16 * high;
    assert x / 0x1_0000 == high && x / 0x100_0000 == high / 0x100;
    assert x / 0x100 == low / 0x100 + 0x100 * high;
  }

  lemma Le16RoundTrip(x: int)
    requires 0 <= x < TWO16
    ensures U16(Le16(x)) == x
  {
  }

  lemma Le32RoundTrip(x: int)
    ensures U32(Le32(x)) == x % TWO32
  {
    var q1, q2, q3 := x / 0x100, x / 0x1_0000, x / 0x100_0000;
    assert q2 == q1 / 0x100 && q3 == q2 / 0x100;
    assert x == 0x100 * q1 + x % 0x100;
    assert q1 == 0x100 * q2 + q1 % 0x100;
    assert q2 == 0x100 * q3 + q2 % 0x100;
    assert q3 == 0x100 * (q3 / 0x100) + q3 % 0x100;
    assert x == TWO32 * (q3 / 0x100) + U32(Le32(x));
  }

  /** A signed offset survives the trip through the code buffer exactly when it fits in 32 bits. */
  lemma I32RoundTrip(x: int)
    ensures I32(Le32(x)) == x <==> -TWO31 <= x < TWO31
  {
    hide Le32, U32;
    Le32RoundTrip(x);
  }
}
