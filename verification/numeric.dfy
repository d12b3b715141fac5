/** Python's numeric conversions on exact reals: `int(x)` truncates toward
    zero, `round(x)` rounds half to even, and `min(a, b)` keeps the first
    argument unless the second is strictly smaller. */
module Numeric {

  /** `int(x)` for a float `x`: the integer part, rounding toward zero. */
  function Trunc(x: real): (r: int)
    ensures 0.0 <= x ==> r as real <= x < r as real + 1.0
    ensures x < 0.0 ==> r as real - 1.0 < x <= r as real
  {
    if x >= 0.0 then x.Floor else -((-x).Floor)
  }

  /** Truncation toward zero is symmetric about zero. */
  lemma TruncNegate(x: real)
    ensures Trunc(-x) == -Trunc(x)
  {
  }

  /** On a quotient of integers with a positive divisor, the real floor is
      Dafny's (Euclidean) integer division. */
  lemma FloorOfQuotient(n: int, d: int)
    requires d > 0
    ensures ((n as real) / (d as real)).Floor == n / d
  {
    var q, rem := n / d, n % d;
    assert n == q * d + rem;
    assert (n as real) / (d as real) == q as real + (rem as real) / (d as real);
    assert 0.0 <= (rem as real) / (d as real) < 1.0;
  }

  /** Python's two-argument `min`. */
  function Min(a: real, b: real): (r: real)
    ensures r <= a && r <= b
    ensures r == a || r == b
  {
    if b < a then b else a
  }

  /** `round(x)` for a float `x`: the nearest integer, ties to the even one. */
  function RoundHalfEven(x: real): (r: int)
    ensures x - 0.5 <= r as real <= x + 0.5
    ensures (r as real - x == 0.5 || x - r as real == 0.5) ==> r % 2 == 0
  {
    var f := x.Floor;
    var d := x - f as real;
    if d < 0.5 then f
    else if d > 0.5 then f + 1
    else if f % 2 == 0 then f
    else f + 1
  }

  /** The two properties of `RoundHalfEven` pin the result down: no other
      integer is within one half of `x` and even on a tie. */
  lemma RoundHalfEvenUnique(x: real, k: int)
    requires x - 0.5 <= k as real <= x + 0.5
    requires (k as real - x == 0.5 || x - k as real == 0.5) ==> k % 2 == 0
    ensures k == RoundHalfEven(x)
  {
  }
}
