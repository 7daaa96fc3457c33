/** The parts of Java's 32-bit `int` arithmetic the model needs. */
module JavaInt {

  const MinInt: int := -0x8000_0000
  const MaxInt: int := 0x7fff_ffff

  predicate IsInt32(x: int) {
    MinInt <= x <= MaxInt
  }

  /** The two's-complement wrap-around Java applies to an `int` result. */
  function Wrap32(x: int): (r: int)
    ensures IsInt32(r)
    ensures (r - x) % 0x1_0000_0000 == 0
    ensures IsInt32(x) ==> r == x
  {
    (x - MinInt) % 0x1_0000_0000 + MinInt
  }

  /** Half of `a`, rounded toward zero as Java's `(int)` cast of `0.5 * a` rounds. */
  function TruncHalf(a: int): (q: int)
    ensures a >= 0 ==> 0 <= q && a - 1 <= 2 * q <= a
    ensures a <= 0 ==> q <= 0 && a <= 2 * q <= a + 1
  {
    if a >= 0 then a / 2 else -((-a) / 2)
  }
}
