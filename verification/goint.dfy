/**
 Go's `int` taken as 64 bits wide, as on 64-bit platforms: a two's-complement
 integer whose addition wraps around silently.
 */
module GoInt {

  const Modulus: int := 0x1_0000_0000_0000_0000
  const MinInt64: int := -0x8000_0000_0000_0000
  const MaxInt64: int := 0x7fff_ffff_ffff_ffff

  type Int64 = x: int | MinInt64 <= x <= MaxInt64

  /** The value a Go `int` holds after an arithmetic result `x` wraps around. */
  function Wrap(x: int): (r: Int64)
    ensures MinInt64 <= x <= MaxInt64 ==> r == x
  {
    (x - MinInt64) % Modulus + MinInt64
  }

  /** Wrapping changes a value by a multiple of 2^64. */
  lemma WrapCongruent(x: int)
    ensures (Wrap(x) - x) % Modulus == 0
  {
  }

  /** Two results less than 2^64 apart stay distinct after wrapping. */
  lemma WrapDistinct(a: int, b: int)
    requires a < b < a + Modulus
    ensures Wrap(a) != Wrap(b)
  {
    var x, y := a - MinInt64, b - MinInt64;
    var k := y / Modulus - x / Modulus;
    assert y - x == k * Modulus + (y % Modulus - x % Modulus);
    if k <= 0 {
      assert k * Modulus <= 0;
      assert y % Modulus > x % Modulus;
    } else {
      assert k * Modulus >= Modulus;
      assert y % Modulus < x % Modulus;
    }
  }
}
