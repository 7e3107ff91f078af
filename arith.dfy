/** Two facts of integer multiplication and division that the index
    arithmetic of the frame loops rests on. */
module Arith {

  lemma MulLeq(a: int, b: int, c: nat)
    requires a <= b
    ensures a * c <= b * c
  {
  }

  /** Euclidean division recovers the quotient and remainder it was built from. */
  lemma DivModUnique(i: int, d: int, q: int, r: int)
    requires 0 <= r < d && i == q * d + r
    ensures i / d == q && i % d == r
  {
    var q', r' := i / d, i % d;
    assert q' * d + r' == i;
    assert (q - q') * d == r' - r;
    if q > q' {
      MulLeq(1, q - q', d);
    } else if q < q' {
      MulLeq(1, q' - q, d);
    }
  }
}
