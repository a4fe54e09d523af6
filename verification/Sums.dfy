/** Finite sums over sequences and occurrence counts, shared by the learners and the statistics code. */
module Sums {

  /** The sum of a sequence of reals, taken from the left. */
  function Sum(s: seq<real>): real {
    if |s| == 0 then 0.0 else Sum(s[..|s| - 1]) + s[|s| - 1]
  }

  /** The sum of a sequence of counters. */
  ghost function Total(s: seq<nat>): nat {
    if |s| == 0 then 0 else Total(s[..|s| - 1]) + s[|s| - 1]
  }

  /** How often x occurs in s. */
  ghost function Count<T>(s: seq<T>, x: T): nat {
    if |s| == 0 then 0 else Count(s[..|s| - 1], x) + (if s[|s| - 1] == x then 1 else 0)
  }

  lemma SumStep(s: seq<real>, i: nat)
    requires i < |s|
    ensures Sum(s[..i + 1]) == Sum(s[..i]) + s[i]
  {
    assert s[..i + 1][..i] == s[..i];
  }

  lemma TotalStep(s: seq<nat>, i: nat)
    requires i < |s|
    ensures Total(s[..i + 1]) == Total(s[..i]) + s[i]
  {
    assert s[..i + 1][..i] == s[..i];
  }

  lemma CountStep<T>(s: seq<T>, i: nat, x: T)
    requires i < |s|
    ensures Count(s[..i + 1], x) == Count(s[..i], x) + (if s[i] == x then 1 else 0)
  {
    assert s[..i + 1][..i] == s[..i];
  }

  lemma CountAppend<T>(s: seq<T>, y: T, x: T)
    ensures Count(s + [y], x) == Count(s, x) + (if y == x then 1 else 0)
  {
    assert (s + [y])[..|s|] == s;
  }

  lemma {:induction false} SumUpdate(s: seq<real>, i: nat, v: real)
    requires i < |s|
    ensures Sum(s[i := v]) == Sum(s) - s[i] + v
  {
    var last := |s| - 1;
    if i == last {
      assert s[i := v][..last] == s[..last];
    } else {
      assert s[i := v][..last] == s[..last][i := v];
      SumUpdate(s[..last], i, v);
    }
  }

  lemma {:induction false} TotalUpdate(s: seq<nat>, i: nat, v: nat)
    requires i < |s|
    ensures Total(s[i := v]) == Total(s) - s[i] + v
  {
    var last := |s| - 1;
    if i == last {
      assert s[i := v][..last] == s[..last];
    } else {
      assert s[i := v][..last] == s[..last][i := v];
      TotalUpdate(s[..last], i, v);
    }
  }

  lemma {:induction false} SumConstant(s: seq<real>, c: real)
    requires forall i :: 0 <= i < |s| ==> s[i] == c
    ensures Sum(s) == (|s| as real) * c
  {
    if |s| == 0 {
    } else {
      SumConstant(s[..|s| - 1], c);
    }
  }

  lemma {:induction false} TotalZero(s: seq<nat>)
    requires forall i :: 0 <= i < |s| ==> s[i] == 0
    ensures Total(s) == 0
  {
    if |s| == 0 {
    } else {
      TotalZero(s[..|s| - 1]);
    }
  }

  lemma {:induction false} TotalOfOnes(s: seq<nat>)
    requires forall i :: 0 <= i < |s| ==> s[i] == 1
    ensures Total(s) == |s|
  {
    if |s| == 0 {
    } else {
      TotalOfOnes(s[..|s| - 1]);
    }
  }

  lemma {:induction false} TotalAtLeast(s: seq<nat>, i: nat)
    requires i < |s|
    ensures Total(s) >= s[i]
  {
    if i == |s| - 1 {
    } else {
      TotalAtLeast(s[..|s| - 1], i);
    }
  }

  /** Pointwise linear combination: the sum of a + k*b. */
  lemma {:induction false} SumLinear(a: seq<real>, b: seq<real>, c: seq<real>, k: real)
    requires |a| == |b| == |c|
    requires forall i :: 0 <= i < |a| ==> c[i] == a[i] + k * b[i]
    ensures Sum(c) == Sum(a) + k * Sum(b)
  {
    if |a| == 0 {
    } else {
      var m := |a| - 1;
      SumLinear(a[..m], b[..m], c[..m], k);
    }
  }

  lemma {:induction false} SumScale(a: seq<real>, c: seq<real>, k: real)
    requires |a| == |c|
    requires forall i :: 0 <= i < |a| ==> c[i] == k * a[i]
    ensures Sum(c) == k * Sum(a)
  {
    if |a| == 0 {
    } else {
      var m := |a| - 1;
      SumScale(a[..m], c[..m], k);
    }
  }

  lemma {:induction false} SumMonotone(a: seq<real>, b: seq<real>)
    requires |a| == |b|
    requires forall i :: 0 <= i < |a| ==> a[i] <= b[i]
    ensures Sum(a) <= Sum(b)
    ensures Sum(a) == Sum(b) ==> a == b
  {
    if |a| == 0 {
    } else {
      var m := |a| - 1;
      SumMonotone(a[..m], b[..m]);
      assert a == a[..m] + [a[m]] && b == b[..m] + [b[m]];
    }
  }

  lemma {:induction false} SumOfTotals(a: seq<nat>, b: seq<real>)
    requires |a| == |b|
    requires forall i :: 0 <= i < |a| ==> b[i] == a[i] as real
    ensures Sum(b) == Total(a) as real
  {
    if |a| == 0 {
    } else {
      var m := |a| - 1;
      SumOfTotals(a[..m], b[..m]);
    }
  }

  lemma {:induction false} TotalMonotone(a: seq<nat>, b: seq<nat>)
    requires |a| == |b|
    requires forall i :: 0 <= i < |a| ==> a[i] <= b[i]
    ensures Total(a) <= Total(b)
  {
    if |a| == 0 {
    } else {
      var m := |a| - 1;
      TotalMonotone(a[..m], b[..m]);
    }
  }
}
