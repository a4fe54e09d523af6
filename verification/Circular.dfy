/** Arithmetic of circular indices. */
module Circular {

  /** Two positions less than n apart share a slot only if they are the same position. */
  lemma SameSlot(k: nat, m: nat, n: nat)
    requires n > 0 && k <= m < k + n && k % n == m % n
    ensures k == m
  {
    var a, b := k / n, m / n;
    assert k == a * n + k % n && m == b * n + m % n;
    assert m - k == (b - a) * n;
    if b - a >= 1 {
      Stretch(b - a, n);
    } else if b - a <= -1 {
      Stretch(a - b, n);
    }
  }

  /** Positions exactly n apart share a slot. */
  lemma NextLap(k: nat, n: nat)
    requires n > 0
    ensures (k + n) % n == k % n
  {
    Unique(k + n, k / n + 1, k % n, n);
  }

  /** Advancing a slot is advancing the position. */
  lemma Advance(k: nat, n: nat)
    requires n > 0
    ensures (k % n + 1) % n == (k + 1) % n
  {
    var q, r := k / n, k % n;
    if r + 1 < n {
      Unique(k + 1, q, r + 1, n);
      Unique(r + 1, 0, r + 1, n);
    } else {
      Unique(k + 1, q + 1, 0, n);
      Unique(r + 1, 1, 0, n);
    }
  }

  /** Quotient and remainder are what they should be. */
  lemma Unique(x: nat, q: int, r: nat, n: nat)
    requires n > 0 && x == q * n + r && r < n
    ensures x / n == q && x % n == r
  {
    var a, m := x / n, x % n;
    assert x == a * n + m;
    assert (q - a) * n == m - r;
    if q - a >= 1 {
      Stretch(q - a, n);
    } else if q - a <= -1 {
      Stretch(a - q, n);
    }
  }

  /** Two positions share a slot exactly when they are a whole number of laps apart. */
  lemma SlotsMeet(k: nat, m: nat, n: nat)
    requires n > 0 && k <= m
    ensures k % n == m % n <==> (m - k) % n == 0
  {
    var q, r := (m - k) / n, (m - k) % n;
    assert m == k / n * n + k % n + q * n + r;
    assert k / n * n + q * n == (k / n + q) * n;
    if k % n + r < n {
      Unique(m, k / n + q, k % n + r, n);
    } else {
      assert (k / n + q) * n + n == (k / n + q + 1) * n;
      Unique(m, k / n + q + 1, k % n + r - n, n);
    }
  }

  lemma Stretch(d: int, n: nat)
    requires d >= 1
    ensures d * n >= n
  {
  }
}
