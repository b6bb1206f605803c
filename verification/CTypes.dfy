/** The C integer arithmetic of the target: 32-bit int, 64-bit long, two's complement. */
module CTypes {
  const TWO_32: int := 0x1_0000_0000

  type int32 = x: int | -0x8000_0000 <= x < 0x8000_0000
  type uint32 = x: int | 0 <= x < 0x1_0000_0000
  type Byte = x: int | 0 <= x < 256

  datatype Option<+T> = None | Some(value: T)

  /** Conversion of any integer to int. */
  function Wrap32(x: int): int32 {
    (x + 0x8000_0000) % TWO_32 - 0x8000_0000
  }

  /** Conversion of any integer to uint32_t. */
  function U32(x: int): uint32 {
    x % TWO_32
  }

  /** The value strtol returns for a number outside the range of long. */
  function ClampLong(x: int): int {
    if x < -0x8000_0000_0000_0000 then -0x8000_0000_0000_0000
    else if x > 0x7FFF_FFFF_FFFF_FFFF then 0x7FFF_FFFF_FFFF_FFFF
    else x
  }

  /** The conversions are those of two's complement: congruent modulo 2^32, and in range by
      their types, which determines them. */
  lemma ConversionsAreModular(x: int)
    ensures (Wrap32(x) - x) % 0x1_0000_0000 == 0
    ensures (U32(x) - x) % 0x1_0000_0000 == 0
  {
    var q, r := (x + 0x8000_0000) / TWO_32, x / TWO_32;
    assert Wrap32(x) - x == -q * TWO_32 && U32(x) - x == -r * TWO_32;
    QuotientUnique(-q * TWO_32, -q, 0, TWO_32);
    QuotientUnique(-r * TWO_32, -r, 0, TWO_32);
  }

  /** A saturated value is the nearest one that fits 64 bits. */
  lemma ClampIsNearest(x: int, y: int)
    requires -0x8000_0000_0000_0000 <= y < 0x8000_0000_0000_0000
    ensures -0x8000_0000_0000_0000 <= ClampLong(x) < 0x8000_0000_0000_0000
    ensures x <= y ==> x <= ClampLong(x) <= y || ClampLong(x) == x
    ensures y <= x ==> y <= ClampLong(x) <= x || ClampLong(x) == x
  {
  }

  /** Wrapping after each addition is the same as wrapping once. */
  lemma WrapSum(a: int, b: int, c: int)
    ensures Wrap32(Wrap32(a + b) + c) == Wrap32(a + b + c)
  {
  }

  lemma QuotientUnique(x: int, q: int, r: int, m: int)
    requires m > 0 && 0 <= r < m && x == q * m + r
    ensures x / m == q && x % m == r
  {
    var d := q - x / m;
    assert d * m == q * m - (x / m) * m;
    if d >= 1 {
      MulAtLeast(d, m);
    } else if d <= -1 {
      MulAtLeast(-d, m);
    }
  }

  lemma MulAtLeast(k: int, m: int)
    requires k >= 1 && m >= 0
    ensures k * m >= m
  {
    assert k * m == (k - 1) * m + m;
  }
}
