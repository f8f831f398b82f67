/** Facts of real arithmetic the other modules' proofs step through. */
module RealArith {

  lemma MulNonNegative(a: real, b: real)
    requires a >= 0.0 && b >= 0.0
    ensures a * b >= 0.0
  {
  }

  lemma MulPositive(a: real, b: real)
    requires a > 0.0 && b > 0.0
    ensures a * b > 0.0
  {
  }

  /** Multiplying both sides by a positive factor keeps a strict order. */
  lemma CompareScaled(x: real, c: real, n: real)
    requires n > 0.0
    ensures x > c <==> x * n > c * n
  {
    if x > c {
      MulPositive(x - c, n);
    } else {
      MulNonNegative(c - x, n);
    }
  }

  /** Division by a common denominator distributes over a sum. */
  lemma DivAdd(a: real, b: real, t: real)
    requires t != 0.0
    ensures a / t + b / t == (a + b) / t
  {
  }

  lemma DivMul(x: real, n: real)
    requires n != 0.0
    ensures x / n * n == x
  {
  }

  lemma DivSelf(t: real)
    requires t != 0.0
    ensures t / t == 1.0
  {
  }

  /** A part of a positive whole is at most the whole. */
  lemma DivAtMostOne(b: real, t: real)
    requires 0.0 < b <= t
    ensures 0.0 < b / t <= 1.0
  {
    var q := b / t;
    assert q * t == b;
    if q > 1.0 {
      MulPositive(q - 1.0, t);
    }
    if q <= 0.0 {
      MulNonNegative(-q, t);
    }
  }
}
