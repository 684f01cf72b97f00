/** Quotients and products of reals, where the solver needs a hand. */
module RealArithmetic {
  lemma DivMonotone(a: real, b: real, t: real)
    requires a <= b && t > 0.0
    ensures a / t <= b / t
  {
  }

  lemma ExactQuotient(a: real, t: real, q: real)
    requires t > 0.0 && q * t == a
    ensures a / t == q
  {
  }

  lemma QuotientTimes(a: real, t: real)
    requires t > 0.0
    ensures a / t * t == a
  {
  }

  lemma CompareScaled(x: real, y: real, s: real)
    requires s > 0.0
    ensures (x < y <==> x * s < y * s) && (x == y <==> x * s == y * s)
  {
  }
}
