/** Products and integer quotients, where the solver needs a hand. */
module IntegerArithmetic {
  type Positive = n: int | n >= 1 witness 1

  lemma {:induction false} ProductGap(p: int, q: int, n: Positive)
    requires p > q
    ensures p * n >= q * n + n
  {
    assert (p - q - 1) * n >= 0;
    assert (p - q - 1) * n == p * n - q * n - n;
  }

  lemma DivNonNegative(a: int, n: Positive)
    requires a >= 0
    ensures a / n >= 0
  {
  }

  lemma DivBounds(a: int, n: Positive)
    ensures (a / n) * n <= a < (a / n) * n + n
  {
  }

  lemma {:induction false} DivMonotone(a: int, b: int, n: Positive)
    requires a <= b
    ensures a / n <= b / n
  {
    DivBounds(a, n);
    DivBounds(b, n);
    var p, q := a / n, b / n;
    if p > q {
      ProductGap(p, q, n);
    }
  }

  /** The quotient is determined by its bounds. */
  lemma {:induction false} DivUnique(a: int, n: Positive, k: int)
    requires k * n <= a < k * n + n
    ensures a / n == k
  {
    DivBounds(a, n);
    var q := a / n;
    if q > k {
      ProductGap(q, k, n);
    } else if q < k {
      ProductGap(k, q, n);
    }
  }
}
