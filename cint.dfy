// C integer arithmetic: `/` and `%` truncate toward zero, unlike Dafny's
// Euclidean operators.
module CInt {
  const INT_MIN: int := -0x8000_0000
  const INT_MAX: int := 0x7FFF_FFFF

  predicate IsInt32(x: int) { INT_MIN <= x <= INT_MAX }

  function Abs(x: int): nat { if x < 0 then -x else x }

  /** C's `a / b`: the magnitudes divide, the sign is the product of the signs. */
  function CDiv(a: int, b: int): (q: int)
    requires b != 0
  {
    if (a >= 0) == (b > 0) then Abs(a) / Abs(b) else -(Abs(a) / Abs(b))
  }

  /** C's `a % b`: the remainder takes the sign of the dividend. */
  function CRem(a: int, b: int): (m: int)
    requires b != 0
  {
    if a >= 0 then Abs(a) % Abs(b) else -(Abs(a) % Abs(b))
  }
}
