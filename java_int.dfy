/** The parts of Java's integer semantics that the trip library relies on:
    32-bit `int` wrap-around, `Math.abs` on `int`, and `/` rounding toward zero. */
module JavaInt {

  const INT_MIN: int := -0x8000_0000
  const INT_MAX: int := 0x7fff_ffff
  const LONG_MIN: int := -0x8000_0000_0000_0000
  const LONG_MAX: int := 0x7fff_ffff_ffff_ffff

  /** A value of Java type `int`. */
  type int32 = x: int | -0x8000_0000 <= x <= 0x7fff_ffff

  /** Narrowing to `int` (a cast, or the result of `int` arithmetic): two's-complement wrap-around. */
  function Wrap(x: int): (r: int32)
    ensures INT_MIN <= x <= INT_MAX ==> r == x
    ensures (x - r) % 0x1_0000_0000 == 0
  {
    (x - INT_MIN) % 0x1_0000_0000 + INT_MIN
  }

  /** `Math.abs` on `int`: the one value without a positive counterpart stays negative. */
  function Abs32(x: int32): (r: int32)
    ensures x != INT_MIN ==> 0 <= r && (r == x || r == -x)
    ensures x == INT_MIN ==> r == INT_MIN
  {
    if x < 0 && x != INT_MIN then -x else x
  }

  /** `Math.abs` on `long`, whose range is not a concern for epoch times. */
  function Abs(x: int): (r: int)
    ensures 0 <= r && (r == x || r == -x)
  {
    if x < 0 then -x else x
  }

  /** Java's `a / b` for a positive divisor: the quotient is rounded toward zero,
      so the remainder has the sign of the dividend. */
  function Quot(a: int, b: int): (q: int)
    requires b > 0
    ensures 0 <= a ==> 0 <= a - q * b < b
    ensures a < 0 ==> -b < a - q * b <= 0
  {
    if a >= 0 then a / b else -((-a) / b)
  }
}
