/** Small facts of real arithmetic that the solver does not find by itself. */
module Arith {

  lemma MulNonNeg(a: real, b: real)
    requires 0.0 <= a && 0.0 <= b
    ensures 0.0 <= a * b
  {
  }

  lemma MulLeRight(a: real, b: real, c: real)
    requires a <= b && 0.0 <= c
    ensures a * c <= b * c
  {
    MulNonNeg(b - a, c);
    assert (b - a) * c == b * c - a * c;
  }

  lemma MulLtRight(a: real, b: real, c: real)
    requires a < b && 0.0 < c
    ensures a * c < b * c
  {
    assert (b - a) * c > 0.0;
    assert (b - a) * c == b * c - a * c;
  }

  lemma DivMulCancel(a: real, b: real)
    requires b != 0.0
    ensures (a * b) / b == a && (a / b) * b == a
  {
  }

  lemma DivMonotone(a: real, b: real, c: real)
    requires a <= b && 0.0 < c
    ensures a / c <= b / c
  {
    DivMulCancel(a, c);
    DivMulCancel(b, c);
    if a / c > b / c {
      MulLtRight(b / c, a / c, c);
    }
  }

  /** A ratio against a positive denominator, compared by cross-multiplying. */
  lemma DivAtLeast(a: real, b: real, k: real)
    requires 0.0 < b
    ensures a / b >= k <==> a >= k * b
  {
    DivMulCancel(a, b);
    DivMulCancel(k, b);
    if a / b >= k {
      MulLeRight(k, a / b, b);
    } else if a >= k * b {
      DivMonotone(k * b, a, b);
      assert false;
    }
  }

  lemma DivAtMost(a: real, b: real, k: real)
    requires 0.0 < b
    ensures a / b <= k <==> a <= k * b
  {
    DivMulCancel(a, b);
    DivMulCancel(k, b);
    if a / b <= k {
      MulLeRight(a / b, k, b);
    } else if a <= k * b {
      DivMonotone(a, k * b, b);
      assert false;
    }
  }

  /** A positive numerator over a larger positive denominator gives a smaller ratio. */
  lemma DivAntitone(a: real, x: real, y: real)
    requires 0.0 < a && 0.0 < x < y
    ensures a / y < a / x
  {
    DivMulCancel(a, x);
    DivMulCancel(a, y);
    MulLtRight(x, y, a / y);
    if a / y >= a / x {
      MulLeRight(a / x, a / y, x);
      assert false;
    }
  }
}
