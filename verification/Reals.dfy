/** The few facts about products and quotients of reals that the learners need. */
module Reals {

  function Min(a: real, b: real): real {
    if b < a then b else a
  }

  lemma Product(x: real, y: real)
    requires x >= 0.0 && y >= 0.0
    ensures x * y >= 0.0
  {
  }

  lemma Quotient(a: real, b: real, q: real)
    requires b != 0.0 && a == q * b
    ensures a / b == q
  {
  }

  lemma MulLe(a: real, b: real, k: real)
    requires a <= b && k >= 0.0
    ensures a * k <= b * k && k * a <= k * b
  {
    assert (b - a) * k >= 0.0;
  }

  lemma CancelLe(a: real, b: real, k: real)
    requires k > 0.0 && a * k <= b * k
    ensures a <= b
  {
    assert a > b ==> (a - b) * k > 0.0;
  }

  lemma DivMul(a: real, b: real)
    requires b != 0.0
    ensures a / b * b == a
  {
  }

  /** A quotient is bounded as its numerator is. */
  lemma DivBetween(a: real, b: real, lo: real, hi: real)
    requires b > 0.0 && lo * b <= a <= hi * b
    ensures lo <= a / b <= hi
  {
    DivMul(a, b);
    CancelLe(lo, a / b, b);
    CancelLe(a / b, hi, b);
  }

  /** Comparing two quotients by cross multiplication. */
  lemma CrossLe(a: real, b: real, c: real, d: real)
    requires b > 0.0 && d > 0.0 && a * d <= c * b
    ensures a / b <= c / d
  {
    var q, r := a / b, c / d;
    DivMul(a, b);
    DivMul(c, d);
    assert q * b * d == a * d && r * d * b == c * b;
    assert b * d > 0.0;
    assert q * (b * d) == q * b * d && r * (b * d) == r * d * b;
    CancelLe(q, r, b * d);
  }

  lemma FractionLe(f: real, a: real, b: real)
    requires 0.0 <= f <= 1.0 && a <= b && 0.0 <= b
    ensures f * a <= b
  {
    if a <= 0.0 {
      MulLe(a, 0.0, f);
    } else {
      MulLe(f, 1.0, a);
    }
  }

  /** A fraction of a value of bounded size is of bounded size. */
  lemma FractionOf(f: real, a: real, b: real) returns (part: real)
    requires 0.0 <= f <= 1.0 && -b <= a <= b
    ensures part == f * a && -b <= part <= b
  {
    part := f * a;
    FractionLe(f, a, b);
    FractionLe(f, -a, b);
    assert f * -a == -(f * a);
  }
}
