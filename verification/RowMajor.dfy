/** Rows of a flat n*n vector, addressed as row * n + column. */
module RowMajor {

  function Row<T>(s: seq<T>, n: nat, r: nat): (row: seq<T>)
    requires |s| == n * n && r < n
    ensures |row| == n
  {
    Bounds(n, r);
    s[r * n..r * n + n]
  }

  lemma Bounds(n: nat, r: nat)
    requires r < n
    ensures 0 <= r * n && r * n + n <= n * n
  {
    Before(n, r, n);
  }

  lemma Before(n: nat, q: nat, r: nat)
    requires q < r
    ensures q * n + n <= r * n
  {
    AtLeastOne(r - q, n);
    assert (r - q) * n == r * n - q * n;
  }

  lemma AtLeastOne(d: int, n: nat)
    requires d >= 1
    ensures d * n >= n
  {
  }

  /** The column of a flat index. */
  lemma Column(n: nat, r: nat, j: nat)
    requires j < n
    ensures (r * n + j) % n == j
  {
    var x := r * n + j;
    var q, m := x / n, x % n;
    assert x == q * n + m;
    var d := r - q;
    assert d * n == r * n - q * n;
    if d >= 1 {
      AtLeastOne(d, n);
    } else if d <= -1 {
      AtLeastOne(-d, n);
    }
  }

  /** Writing inside row r leaves every other row alone. */
  lemma OtherRow<T>(s: seq<T>, t: seq<T>, n: nat, r: nat, q: nat)
    requires |s| == |t| == n * n && r < n && q < n && q != r
    requires forall k :: 0 <= k < |s| && !(r * n <= k < r * n + n) ==> s[k] == t[k]
    ensures Row(s, n, q) == Row(t, n, q)
  {
    Bounds(n, q);
    if q < r {
      Before(n, q, r);
    } else {
      Before(n, r, q);
    }
    var lo, hi := q * n, q * n + n;
    assert s[lo..hi] == t[lo..hi];
  }

  lemma SameRow<T>(s: seq<T>, n: nat, r: nat, j: nat)
    requires |s| == n * n && r < n && j < n
    ensures 0 <= r * n + j < n * n && Row(s, n, r)[j] == s[r * n + j]
  {
    Bounds(n, r);
  }
}
