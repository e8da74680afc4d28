/** Multiplication and division facts the solver does not find by itself. */
module Arithmetic {
  lemma MulMonotone(x: int, y: int, k: int)
    requires x <= y && k >= 0
    ensures k * x <= k * y
  {
  }

  lemma DivMonotone(x: int, y: int, d: int)
    requires x <= y && d > 0
    ensures x / d <= y / d
  {
    var q, q' := x / d, y / d;
    assert x == d * q + x % d && y == d * q' + y % d;
    if q > q' {
      MulMonotone(q' + 1, q, d);
    }
  }

  /** A quotient is rounded down. */
  lemma DivRoundsDown(x: int, d: int)
    requires d > 0
    ensures d * (x / d) <= x < d * (x / d) + d
  {
  }

  lemma DivExact(x: int, d: int)
    requires d > 0
    ensures (x * d) / d == x
  {
    var q := (x * d) / d;
    assert x * d == d * q + (x * d) % d;
    if q < x {
      MulMonotone(q + 1, x, d);
    }
    if q > x {
      MulMonotone(x + 1, q, d);
    }
  }
}
