/** The Vargha-Delaney A12 effect size, computed from a rank sum, against its definition as a count of pairs. */
module EffectSize {
  import opened Sums

  /** A float result: dividing by a zero sample size does not yield a number. */
  datatype Measure = Finite(value: real) | NotANumber

  /** How many elements of z lie below v. */
  function Below(z: seq<real>, v: real): nat {
    if |z| == 0 then 0 else Below(z[..|z| - 1], v) + (if z[|z| - 1] < v then 1 else 0)
  }

  /** How many elements of z tie with v. */
  function Tied(z: seq<real>, v: real): nat {
    if |z| == 0 then 0 else Tied(z[..|z| - 1], v) + (if z[|z| - 1] == v then 1 else 0)
  }

  /** The rank of v among z: tied elements share the average of the ranks they occupy. */
  function MidRank(z: seq<real>, v: real): real {
    Below(z, v) as real + (Tied(z, v) + 1) as real / 2.0
  }

  function RankData(z: seq<real>): (ranks: seq<real>)
    ensures |ranks| == |z|
  {
    seq(|z|, i requires 0 <= i < |z| => MidRank(z, z[i]))
  }

  function A12(x: seq<real>, y: seq<real>): Measure {
    var ranked := RankData(x + y);
    var rankSum := Sum(ranked[..|x|]);
    var numerator := 2.0 * rankSum - (|x| * (|x| + 1)) as real;
    var denominator := (2 * |y| * |x|) as real;
    if denominator == 0.0 then NotANumber else Finite(numerator / denominator)
  }

  /** What the pairing of v against y is worth: one point per smaller element, half a point per tie. */
  ghost function Score(v: real, y: seq<real>): real {
    Below(y, v) as real + Tied(y, v) as real / 2.0
  }

  /** The pairwise count: #{(a, b) : a > b} + #{(a, b) : a = b} / 2 over all pairs from x and y. */
  ghost function Wins(x: seq<real>, y: seq<real>): real {
    if |x| == 0 then 0.0 else Wins(x[..|x| - 1], y) + Score(x[|x| - 1], y)
  }

  predicate Sorted(s: seq<real>) {
    forall i, j :: 0 <= i <= j < |s| ==> s[i] <= s[j]
  }

  /** Below and Tied do not depend on the order of z. */
  lemma {:induction false} CountsAreMultiset(z: seq<real>, s: seq<real>, v: real)
    requires multiset(z) == multiset(s)
    ensures Below(z, v) == Below(s, v) && Tied(z, v) == Tied(s, v)
  {
    if |z| == 0 {
      assert |multiset(s)| == 0;
    } else {
      var last := z[|z| - 1];
      assert z == z[..|z| - 1] + [last];
      assert last in multiset(s);
      var k :| 0 <= k < |s| && s[k] == last;
      var rest := s[..k] + s[k + 1..];
      assert s == s[..k] + [last] + s[k + 1..];
      assert multiset(s) == multiset(s[..k]) + multiset{last} + multiset(s[k + 1..]);
      assert multiset(rest) == multiset(s[..k]) + multiset(s[k + 1..]);
      assert multiset(z) == multiset(z[..|z| - 1]) + multiset{last};
      assert multiset(rest) == multiset(z[..|z| - 1]) by {
        assert multiset(rest) == multiset(s) - multiset{last};
      }
      CountsAreMultiset(z[..|z| - 1], rest, v);
      Counts(s[..k] + [last], s[k + 1..], v);
      Counts(s[..k], [last], v);
      Counts(s[..k], s[k + 1..], v);
      assert [last][..0] == [];
    }
  }

  lemma {:induction false} Counts(a: seq<real>, b: seq<real>, v: real)
    ensures Below(a + b, v) == Below(a, v) + Below(b, v)
    ensures Tied(a + b, v) == Tied(a, v) + Tied(b, v)
  {
    if |b| == 0 {
      assert a + b == a;
    } else {
      assert (a + b)[..|a + b| - 1] == a + b[..|b| - 1];
      Counts(a, b[..|b| - 1], v);
    }
  }

  lemma {:induction false} SortedPositions(s: seq<real>, v: real, p: nat)
    requires Sorted(s) && p < |s|
    ensures s[p] < v <==> p < Below(s, v)
    ensures s[p] == v <==> Below(s, v) <= p < Below(s, v) + Tied(s, v)
  {
    var last := |s| - 1;
    CountsBounded(s[..last], v);
    if p < last {
      SortedPositions(s[..last], v, p);
    }
    if last > 0 {
      SortedPositions(s[..last], v, last - 1);
    }
  }

  lemma {:induction false} CountsBounded(z: seq<real>, v: real)
    ensures Below(z, v) + Tied(z, v) <= |z|
  {
    if |z| == 0 {
    } else {
      CountsBounded(z[..|z| - 1], v);
    }
  }

  /** MidRank is what "average" ranking means: in any sorted arrangement of z the elements equal to v occupy
      the 1-based positions first..last, and their rank is the midpoint of the two. */
  lemma {:induction false} MidRankIsAveragePosition(z: seq<real>, s: seq<real>, v: real)
    requires multiset(z) == multiset(s) && Sorted(s) && v in z
    ensures var first, last := Below(z, v) + 1, Below(z, v) + Tied(z, v);
            && first <= last
            && (forall p :: 0 <= p < |s| ==> (s[p] == v <==> first <= p + 1 <= last))
            && MidRank(z, v) == (first + last) as real / 2.0
  {
    CountsAreMultiset(z, s, v);
    forall p: nat | p < |s|
      ensures s[p] == v <==> Below(s, v) <= p < Below(s, v) + Tied(s, v)
    {
      SortedPositions(s, v, p);
    }
    assert v in multiset(z) && v in multiset(s);
    var p :| 0 <= p < |s| && s[p] == v;
    SortedPositions(s, v, p);
  }

  /** Scoring v against y and y against v shares out one point per element. */
  lemma {:induction false} ScoreComplement(y: seq<real>, x: seq<real>, v: real)
    requires |x| > 0 && x[|x| - 1] == v
    ensures Wins(y, x) == Wins(y, x[..|x| - 1]) + |y| as real - Score(v, y)
  {
    if |y| == 0 {
    } else {
      ScoreComplement(y[..|y| - 1], x, v);
    }
  }

  lemma {:induction false} NoOpponents(y: seq<real>)
    ensures Wins(y, []) == 0.0
  {
    if |y| == 0 {
    } else {
      NoOpponents(y[..|y| - 1]);
    }
  }

  /** Every pair hands out exactly one point. */
  lemma {:induction false} WinsComplement(x: seq<real>, y: seq<real>)
    ensures Wins(x, y) + Wins(y, x) == (|x| * |y|) as real
  {
    if |x| == 0 {
      NoOpponents(y);
    } else {
      WinsComplement(x[..|x| - 1], y);
      ScoreComplement(y, x, x[|x| - 1]);
      assert |x| * |y| == (|x| - 1) * |y| + |y|;
    }
  }

  lemma {:induction false} WinsNonNegative(x: seq<real>, y: seq<real>)
    ensures Wins(x, y) >= 0.0
  {
    if |x| == 0 {
    } else {
      WinsNonNegative(x[..|x| - 1], y);
    }
  }

  /** The ranks of the first k elements of x within x + y: points against x, points against y, and a half each. */
  lemma {:induction false} RankSumSplits(x: seq<real>, y: seq<real>, k: nat)
    requires k <= |x|
    ensures Sum(RankData(x + y)[..k]) == Wins(x[..k], x) + Wins(x[..k], y) + k as real / 2.0
  {
    if k == 0 {
    } else {
      RankSumSplits(x, y, k - 1);
      SumStep(RankData(x + y), k - 1);
      assert x[..k][..k - 1] == x[..k - 1];
      assert (x + y)[k - 1] == x[k - 1];
      Counts(x, y, x[k - 1]);
    }
  }

  /** Twice the rank sum, less the ranks the sample would have on its own, is twice the pairwise count. */
  lemma {:induction false} NumeratorCountsWins(x: seq<real>, y: seq<real>)
    ensures 2.0 * Sum(RankData(x + y)[..|x|]) - (|x| * (|x| + 1)) as real == 2.0 * Wins(x, y)
  {
    RankSumSplits(x, y, |x|);
    assert x[..|x|] == x;
    WinsComplement(x, x);
    assert |x| * (|x| + 1) == |x| * |x| + |x|;
  }

  /** Headline: the rank-sum formula is the pairwise definition, and it is a number exactly when both
      samples are non-empty. */
  lemma {:induction false} RankSumIsPairwise(x: seq<real>, y: seq<real>)
    ensures A12(x, y).Finite? <==> |x| > 0 && |y| > 0
    ensures A12(x, y).Finite? ==> A12(x, y).value == Wins(x, y) / (|x| * |y|) as real
  {
    var numerator := 2.0 * Sum(RankData(x + y)[..|x|]) - (|x| * (|x| + 1)) as real;
    NumeratorCountsWins(x, y);
    Denominator(|x|, |y|);
    if |x| > 0 && |y| > 0 {
      HalveBoth(numerator, Wins(x, y), (|x| * |y|) as real);
    }
  }

  lemma Denominator(m: nat, n: nat)
    ensures (2 * n * m) as real == 2.0 * (m * n) as real
    ensures m > 0 && n > 0 ==> (m * n) as real > 0.0
    ensures m == 0 || n == 0 ==> m * n == 0
  {
    assert 2 * n * m == 2 * (m * n);
  }

  lemma PositiveProduct(a: nat, b: nat)
    requires a > 0 && b > 0
    ensures a * b > 0
  {
  }

  lemma HalveBoth(double: real, a: real, d: real)
    requires d > 0.0 && double == 2.0 * a
    ensures double / (2.0 * d) == a / d
  {
  }

  /** A12 is a probability, and swapping the samples complements it. */
  lemma {:induction false} A12IsProbability(x: seq<real>, y: seq<real>)
    requires |x| > 0 && |y| > 0
    ensures A12(x, y).Finite? && A12(y, x).Finite?
    ensures 0.0 <= A12(x, y).value <= 1.0
    ensures A12(x, y).value + A12(y, x).value == 1.0
  {
    RankSumIsPairwise(x, y);
    RankSumIsPairwise(y, x);
    WinsComplement(x, y);
    WinsNonNegative(x, y);
    WinsNonNegative(y, x);
    PositiveProduct(|x|, |y|);
    var d := (|x| * |y|) as real;
    assert |x| * |y| == |y| * |x|;
    ShareOut(Wins(x, y), Wins(y, x), d);
  }

  lemma ShareOut(a: real, b: real, d: real)
    requires d > 0.0 && a >= 0.0 && b >= 0.0 && a + b == d
    ensures 0.0 <= a / d <= 1.0 && a / d + b / d == 1.0
  {
    assert a / d + b / d == (a + b) / d;
  }

  /** A sample against itself scores one half, whatever its ties. */
  lemma {:induction false} A12OfSelf(x: seq<real>)
    requires |x| > 0
    ensures A12(x, x) == Finite(0.5)
  {
    A12IsProbability(x, x);
  }
}
