/** The particle-swarm arithmetic that both operator learners share: positions, velocities and the probability
    simplex they are normalised onto. */
module Swarm {
  import opened Circular
  import opened Reals
  import opened Sums

  datatype Params = Params(wInit: real, wEnd: real, gMax: int, vMin: real, vMax: real, updatePeriod: nat)

  /** The two random coefficients drawn for one operator in one update. */
  datatype Pull = Pull(own: real, shared: real)

  const DEFAULTS: Params := Params(0.9, 0.3, 5000, 0.05, 1.0, 500000)

  /** The part of a learner's state that an update moves. */
  datatype Particles = Particles(x: seq<real>, v: seq<real>, lBest: seq<real>, gBest: seq<real>,
                                 effBest: seq<real>, prob: seq<real>, generation: int)

  ghost predicate Shaped(s: Particles, n: nat) {
    |s.x| == |s.v| == |s.lBest| == |s.gBest| == |s.effBest| == |s.prob| == n
  }

  predicate PullOk(r: Pull) {
    0.0 <= r.own < 1.0 && 0.0 <= r.shared < 1.0
  }

  /** The generation counter wraps to zero behind gMax. */
  function NextGeneration(p: Params, g: int): int {
    if p.gMax > 0 && g + 1 > p.gMax then 0 else g + 1
  }

  function Inertia(p: Params, g: int): real {
    if p.gMax > 0 then (p.wInit - p.wEnd) * ((p.gMax - g) as real) / (p.gMax as real) + p.wEnd else p.wInit
  }

  /** The counters of every operator and their snapshots from the last update. */
  datatype Window = Window(finds: seq<nat>, cycles: seq<nat>, findsPrev: seq<nat>, cyclesPrev: seq<nat>)

  /** Finds per application since the last snapshot. */
  function Efficiency(f: int, c: int, f0: int, c0: int): real {
    if c - c0 > 0 then (f - f0) as real / (c - c0) as real else 0.0
  }

  /** Only an operator that was applied in the window can improve its best efficiency. */
  predicate Improves(f: int, c: int, f0: int, c0: int, best: real) {
    c - c0 > 0 && Efficiency(f, c, f0, c0) > best
  }

  /** An improved operator remembers its new efficiency and the position it was reached at. */
  predicate BestAt(f: int, c: int, f0: int, c0: int, x: real, eff0: real, l0: real, eff: real, l: real) {
    if Improves(f, c, f0, c0, eff0) then eff == Efficiency(f, c, f0, c0) && l == x else eff == eff0 && l == l0
  }

  ghost predicate BestsRecorded(win: Window, x: seq<real>, eff0: seq<real>, l0: seq<real>,
                                eff: seq<real>, l: seq<real>)
  {
    |x| == |eff0| == |l0| == |eff| == |l| == |win.finds| == |win.cycles| == |win.findsPrev| == |win.cyclesPrev| &&
    forall i :: 0 <= i < |x| ==>
      BestAt(win.finds[i], win.cycles[i], win.findsPrev[i], win.cyclesPrev[i], x[i], eff0[i], l0[i], eff[i], l[i])
  }

  /** The local bests after a window. */
  ghost function LocalBests(win: Window, x: seq<real>, eff0: seq<real>, l0: seq<real>): seq<real>
    requires |x| == |eff0| == |l0| == |win.finds| == |win.cycles| == |win.findsPrev| == |win.cyclesPrev|
  {
    seq(|x|, i requires 0 <= i < |x| =>
      if Improves(win.finds[i], win.cycles[i], win.findsPrev[i], win.cyclesPrev[i], eff0[i]) then x[i] else l0[i])
  }

  /** The share in all finds, once there is one. */
  ghost function GlobalBest(finds: seq<nat>, g0: seq<real>): seq<real> {
    if Total(finds) > 0 then Shares(finds) else g0
  }

  function Velocity(w: real, c: real, r: Pull, v: real, x: real, l: real, g: real): real {
    w * v + c * r.own * (l - x) + c * r.shared * (g - x)
  }

  ghost function Uniform(n: nat): seq<real> {
    seq(n, i requires 0 <= i < n => 1.0 / (n as real))
  }

  /** Every entry divided by the sum of all entries. */
  ghost function Normalised(y: seq<real>): (prob: seq<real>)
    requires Sum(y) != 0.0
    ensures |prob| == |y|
  {
    seq(|y|, i requires 0 <= i < |y| => y[i] / Sum(y))
  }

  /** The share of every operator in all finds. */
  ghost function Shares(finds: seq<nat>): seq<real>
    requires Total(finds) > 0
  {
    seq(|finds|, i requires 0 <= i < |finds| => finds[i] as real / Total(finds) as real)
  }

  ghost predicate Within(s: seq<real>, lo: real, hi: real) {
    forall i :: 0 <= i < |s| ==> lo <= s[i] <= hi
  }

  /** The probability below which no operator falls. */
  function Floor(p: Params, n: nat): real
    requires n > 0 && 0.0 < p.vMin <= p.vMax
  {
    Positive(p, n);
    p.vMin / (p.vMin + (n - 1) as real * p.vMax)
  }

  lemma Positive(p: Params, n: nat)
    requires n > 0 && 0.0 < p.vMin <= p.vMax
    ensures p.vMin + (n - 1) as real * p.vMax > 0.0
  {
  }

  /** The counters of one operator and their last snapshots: no window subtraction can underflow. */
  predicate CountersOk(f: int, c: int, f0: int, c0: int) {
    0 <= f0 <= f && 0 <= c0 <= c && f <= c && f0 <= c0 && f - f0 <= c - c0
  }

  ghost predicate Counters(win: Window) {
    |win.finds| == |win.cycles| == |win.findsPrev| == |win.cyclesPrev| &&
    forall i :: 0 <= i < |win.finds| ==>
      CountersOk(win.finds[i], win.cycles[i], win.findsPrev[i], win.cyclesPrev[i])
  }

  /** What counting one execution does to a counter vector. */
  ghost predicate Counted(before: seq<nat>, after: seq<nat>, ops: seq<nat>) {
    |after| == |before| && forall i :: 0 <= i < |after| ==> after[i] == before[i] + Count(ops, i)
  }

  lemma {:induction false} CountedStep(before: seq<nat>, after: seq<nat>, ops: seq<nat>, k: nat)
    requires k < |ops| && Counted(before, after, ops[..k])
    ensures ops[k] < |after| ==> Counted(before, after[ops[k] := after[ops[k]] + 1], ops[..k + 1])
    ensures ops[k] >= |after| ==> Counted(before, after, ops[..k + 1])
  {
    forall i | 0 <= i < |after|
      ensures Count(ops[..k + 1], i) == Count(ops[..k], i) + (if ops[k] == i then 1 else 0)
    {
      CountStep(ops, k, i);
    }
  }

  /** How many entries of ops are operators at all. */
  ghost function Known(ops: seq<nat>, n: nat): nat {
    if |ops| == 0 then 0 else Known(ops[..|ops| - 1], n) + (if ops[|ops| - 1] < n then 1 else 0)
  }

  lemma {:induction false} AllKnown(ops: seq<nat>, n: nat)
    requires forall k :: 0 <= k < |ops| ==> ops[k] < n
    ensures Known(ops, n) == |ops|
  {
    if |ops| == 0 {
    } else {
      AllKnown(ops[..|ops| - 1], n);
    }
  }

  /** Counts one execution: every operator of the sequence, and a find for each when it found something.
      Entries that are no operator are skipped. */
  method CountExecution(cycles: seq<nat>, finds: seq<nat>, ops: seq<nat>, found: bool)
    returns (cycles': seq<nat>, finds': seq<nat>)
    requires |finds| == |cycles|
    ensures Counted(cycles, cycles', ops)
    ensures if found then Counted(finds, finds', ops) else finds' == finds
  {
    cycles', finds' := cycles, finds;
    for k := 0 to |ops|
      invariant Counted(cycles, cycles', ops[..k])
      invariant if found then Counted(finds, finds', ops[..k]) else finds' == finds
    {
      var i := ops[k];
      CountedStep(cycles, cycles', ops, k);
      if found {
        CountedStep(finds, finds', ops, k);
      }
      if i < |cycles| {
        cycles' := cycles'[i := cycles'[i] + 1];
        if found {
          finds' := finds'[i := finds'[i] + 1];
        }
      }
    }
    assert ops[..|ops|] == ops;
  }

  /** The global best is the share in all finds, once there is one. */
  method RecordGlobalBest(finds: seq<nat>, best: seq<real>) returns (best': seq<real>)
    requires |best| == |finds|
    ensures |best'| == |finds| && best' == GlobalBest(finds, best)
  {
    best' := best;
    var total: nat := 0;
    for i := 0 to |finds|
      invariant total == Total(finds[..i])
    {
      TotalStep(finds, i);
      total := total + finds[i];
    }
    assert finds[..|finds|] == finds;
    if total > 0 {
      for i := 0 to |finds|
        invariant |best'| == |finds|
        invariant forall k :: 0 <= k < i ==> best'[k] == finds[k] as real / total as real
      {
        best' := best'[i := finds[i] as real / total as real];
      }
    }
  }

  /** Counting is conservative: the counters grow by exactly the number of operators in the sequence. */
  lemma {:induction false} CountedTotal(before: seq<nat>, after: seq<nat>, ops: seq<nat>)
    requires Counted(before, after, ops)
    ensures Total(after) == Total(before) + Known(ops, |before|)
    decreases |ops|
  {
    if |ops| == 0 {
      assert after == before;
    } else {
      var rest, last := ops[..|ops| - 1], ops[|ops| - 1];
      if last < |before| {
        var mid: seq<nat> := after[last := after[last] - 1];
        CountedTotal(before, mid, rest);
        TotalUpdate(after, last, after[last] - 1);
      } else {
        CountedTotal(before, after, rest);
      }
    }
  }

  /** Finds are counted only where cycles are, so the counters stay consistent. */
  lemma {:induction false} CountedKeepsCounters(win: Window, f: seq<nat>, c: seq<nat>, ops: seq<nat>, found: bool)
    requires Counters(win)
    requires Counted(win.cycles, c, ops) && (if found then Counted(win.finds, f, ops) else f == win.finds)
    ensures Counters(win.(finds := f, cycles := c))
  {
    forall i | 0 <= i < |f| ensures CountersOk(f[i], c[i], win.findsPrev[i], win.cyclesPrev[i]) {
      assert CountersOk(win.finds[i], win.cycles[i], win.findsPrev[i], win.cyclesPrev[i]);
    }
  }

  lemma {:induction false} SnapshotKeepsCounters(win: Window)
    requires Counters(win)
    ensures Counters(Window(win.finds, win.cycles, win.finds, win.cycles))
  {
    forall i | 0 <= i < |win.finds| ensures CountersOk(win.finds[i], win.cycles[i], win.finds[i], win.cycles[i]) {
      assert CountersOk(win.finds[i], win.cycles[i], win.findsPrev[i], win.cyclesPrev[i]);
    }
  }

  /** With consistent counters every recorded best efficiency is a fraction. */
  lemma {:induction false} BestsStayFractions(win: Window, x: seq<real>, eff0: seq<real>, l0: seq<real>,
                                              eff: seq<real>, l: seq<real>)
    requires Counters(win) && BestsRecorded(win, x, eff0, l0, eff, l) && Within(eff0, 0.0, 1.0)
    ensures Within(eff, 0.0, 1.0)
    ensures Within(x, 0.0, 1.0) && Within(l0, 0.0, 1.0) ==> Within(l, 0.0, 1.0)
  {
    forall i | 0 <= i < |x| ensures 0.0 <= eff[i] <= 1.0 {
      var f, c, f0, c0 := win.finds[i], win.cycles[i], win.findsPrev[i], win.cyclesPrev[i];
      assert CountersOk(f, c, f0, c0) && BestAt(f, c, f0, c0, x[i], eff0[i], l0[i], eff[i], l[i]);
      EfficiencyIsFraction(f, c, f0, c0);
    }
    if Within(x, 0.0, 1.0) && Within(l0, 0.0, 1.0) {
      forall i | 0 <= i < |x| ensures 0.0 <= l[i] <= 1.0 {
        assert BestAt(win.finds[i], win.cycles[i], win.findsPrev[i], win.cyclesPrev[i],
                      x[i], eff0[i], l0[i], eff[i], l[i]);
      }
    }
  }

  lemma EfficiencyIsFraction(f: int, c: int, f0: int, c0: int)
    requires CountersOk(f, c, f0, c0)
    ensures 0.0 <= Efficiency(f, c, f0, c0) <= 1.0
  {
    if c - c0 > 0 {
      DivBetween((f - f0) as real, (c - c0) as real, 0.0, 1.0);
    }
  }

  /** What an operator remembers is its best window: never worse than before nor than the closing window, and reached
      at the position that is remembered with it. */
  lemma RememberedIsBest(f: int, c: int, f0: int, c0: int, x: real, eff0: real, l0: real, eff: real, l: real)
    requires CountersOk(f, c, f0, c0) && BestAt(f, c, f0, c0, x, eff0, l0, eff, l)
    ensures eff >= eff0 && (c > c0 ==> eff * (c - c0) as real >= (f - f0) as real)
    ensures (eff == eff0 && l == l0) || (c > c0 && eff > eff0 && eff * (c - c0) as real == (f - f0) as real && l == x)
  {
    if c > c0 {
      DivMul((f - f0) as real, (c - c0) as real);
      if eff == eff0 {
        MulLe(Efficiency(f, c, f0, c0), eff, (c - c0) as real);
      }
    }
  }

  lemma {:induction false} UniformIsDistribution(n: nat)
    requires n > 0
    ensures Sum(Uniform(n)) == 1.0 && Within(Uniform(n), 0.0, 1.0)
  {
    SumConstant(Uniform(n), 1.0 / (n as real));
    DivBetween(1.0, n as real, 0.0, 1.0);
  }

  /** Dividing by a non-zero sum puts the entries on the simplex. */
  lemma {:induction false} NormalisedSumsToOne(y: seq<real>)
    requires Sum(y) != 0.0
    ensures Sum(Normalised(y)) == 1.0
  {
    SumScale(y, Normalised(y), 1.0 / Sum(y));
  }

  /** Normalising keeps all ratios: a probability is to the position it came from as one is to the sum. */
  lemma {:induction false} NormalisedKeepsRatios(y: seq<real>)
    requires Sum(y) != 0.0
    ensures forall i :: 0 <= i < |y| ==> Normalised(y)[i] * Sum(y) == y[i]
    ensures forall i, j :: 0 <= i < |y| && 0 <= j < |y| ==> Normalised(y)[i] * y[j] == Normalised(y)[j] * y[i]
  {
    hide Normalised, Sum;
    forall i, j | 0 <= i < |y| && 0 <= j < |y|
      ensures Normalised(y)[i] * Sum(y) == y[i] && Normalised(y)[i] * y[j] == Normalised(y)[j] * y[i]
    {
      NormalisedPair(y, i, j);
    }
  }

  lemma {:induction false} NormalisedPair(y: seq<real>, i: nat, j: nat)
    requires Sum(y) != 0.0 && i < |y| && j < |y|
    ensures Normalised(y)[i] * Sum(y) == y[i] && Normalised(y)[i] * y[j] == Normalised(y)[j] * y[i]
  {
    hide Sum;
    SameRatio(y[i], y[j], Sum(y));
    SameRatio(y[j], y[i], Sum(y));
  }

  /** One probability is to another as their positions are, and in the same order. */
  ghost predicate InRatio(p: real, q: real, a: real, b: real) {
    p * b == q * a && (a <= b ==> p <= q) && (a < b ==> p < q)
  }

  lemma {:induction false} NormalisedInRatio(y: seq<real>, i: nat, j: nat)
    requires Sum(y) > 0.0 && i < |y| && j < |y|
    ensures InRatio(Normalised(y)[i], Normalised(y)[j], y[i], y[j])
  {
    NormalisedPair(y, i, j);
    NormalisedPair(y, j, i);
    hide Sum, Normalised;
    SharesCompare(Normalised(y)[i], Normalised(y)[j], y[i], y[j], Sum(y));
  }

  /** More finds, a larger share. */
  lemma {:induction false} MoreFindsLargerShare(finds: seq<nat>, i: nat, j: nat)
    requires i < |finds| && j < |finds| && finds[i] < finds[j]
    ensures Total(finds) > 0 && |Shares(finds)| == |finds| && Shares(finds)[i] < Shares(finds)[j]
  {
    TotalAtLeast(finds, j);
    var a, b, sum := finds[i] as real, finds[j] as real, Total(finds) as real;
    DivMul(a, sum);
    DivMul(b, sum);
    SharesCompare(a / sum, b / sum, a, b, sum);
  }

  lemma SharesCompare(x: real, y: real, a: real, b: real, sum: real)
    requires sum > 0.0 && x * sum == a && y * sum == b
    ensures (a <= b ==> x <= y) && (a < b ==> x < y)
  {
    if a <= b {
      CancelLe(x, y, sum);
    }
  }

  lemma SameRatio(a: real, b: real, sum: real)
    requires sum != 0.0
    ensures a / sum * sum == a && a / sum * b == b / sum * a
  {
    var x, y := a / sum, b / sum;
    DivMul(a, sum);
    DivMul(b, sum);
    assert x * (y * sum) == y * (x * sum);
  }

  /** The shares are in proportion to the finds. */
  lemma {:induction false} SharesAreProportional(finds: seq<nat>)
    requires Total(finds) > 0
    ensures Sum(Shares(finds)) == 1.0
    ensures forall i :: 0 <= i < |finds| ==> Shares(finds)[i] * Total(finds) as real == finds[i] as real
  {
    var counts := seq(|finds|, i requires 0 <= i < |finds| => finds[i] as real);
    SumOfTotals(finds, counts);
    NormalisedSumsToOne(counts);
    NormalisedKeepsRatios(counts);
    assert Shares(finds) == Normalised(counts);
  }

  lemma {:induction false} AtMostSum(y: seq<real>, i: nat)
    requires i < |y| && forall k :: 0 <= k < |y| ==> y[k] >= 0.0
    ensures 0.0 <= y[i] <= Sum(y)
  {
    SumUpdate(y, i, 0.0);
    SumConstant(seq(|y|, k => 0.0), 0.0);
    SumMonotone(seq(|y|, k => 0.0), y[i := 0.0]);
  }

  lemma {:induction false} NormalisedIsFraction(y: seq<real>)
    requires Sum(y) > 0.0 && forall k :: 0 <= k < |y| ==> y[k] >= 0.0
    ensures Within(Normalised(y), 0.0, 1.0)
  {
    forall i | 0 <= i < |y| ensures 0.0 <= Normalised(y)[i] <= 1.0 {
      AtMostSum(y, i);
      DivBetween(y[i], Sum(y), 0.0, 1.0);
    }
  }

  lemma {:induction false} SharesAreFractions(finds: seq<nat>)
    requires Total(finds) > 0
    ensures Within(Shares(finds), 0.0, 1.0)
  {
    forall i | 0 <= i < |finds| ensures 0.0 <= Shares(finds)[i] <= 1.0 {
      TotalAtLeast(finds, i);
      DivBetween(finds[i] as real, Total(finds) as real, 0.0, 1.0);
    }
  }

  /** All entries but one at their upper bound. */
  lemma {:induction false} SumBelow(y: seq<real>, i: nat, hi: real)
    requires i < |y| && forall k :: 0 <= k < |y| ==> y[k] <= hi
    ensures Sum(y) <= y[i] + (|y| - 1) as real * hi
  {
    var top := seq(|y|, k => hi);
    SumUpdate(y, i, hi);
    SumMonotone(y[i := hi], top);
    SumConstant(top, hi);
    assert |y| as real * hi == (|y| - 1) as real * hi + hi;
  }

  lemma FloorArithmetic(a: real, lo: real, rest: real, sum: real)
    requires 0.0 < lo <= a && 0.0 <= rest && 0.0 < sum <= a + rest
    ensures lo / (lo + rest) <= a / sum
  {
    MulLe(sum, a + rest, lo);
    MulLe(lo, a, rest);
    assert lo * (a + rest) == lo * a + lo * rest;
    assert a * (lo + rest) == a * lo + a * rest;
    CrossLe(lo, lo + rest, a, sum);
  }

  lemma {:induction false} ShareAboveFloor(p: Params, y: seq<real>, i: nat)
    requires 0.0 < p.vMin <= p.vMax && i < |y| && Within(y, p.vMin, p.vMax)
    ensures Sum(y) > 0.0 && y[i] / Sum(y) >= Floor(p, |y|)
  {
    AtMostSum(y, i);
    SumBelow(y, i, p.vMax);
    FloorArithmetic(y[i], p.vMin, (|y| - 1) as real * p.vMax, Sum(y));
  }

  /** No operator starves: clamped positions keep every normalised probability at or above the floor. */
  lemma {:induction false} NormalisedAboveFloor(p: Params, y: seq<real>)
    requires 0.0 < p.vMin <= p.vMax && |y| > 0 && Within(y, p.vMin, p.vMax)
    ensures Sum(y) > 0.0
    ensures forall i :: 0 <= i < |y| ==> Normalised(y)[i] >= Floor(p, |y|)
  {
    ShareAboveFloor(p, y, 0);
    forall i | 0 <= i < |y| ensures Normalised(y)[i] >= Floor(p, |y|) {
      ShareAboveFloor(p, y, i);
    }
  }

  /** The floor is reached: by an operator at the lower bound while all others are at the upper one. */
  lemma {:induction false} FloorReached(p: Params, n: nat)
    requires 0.0 < p.vMin <= p.vMax && n > 0
    ensures var y := seq(n, i => if i == 0 then p.vMin else p.vMax);
      Sum(y) == p.vMin + (n - 1) as real * p.vMax && Sum(y) > 0.0 && Normalised(y)[0] == Floor(p, n)
  {
    var y := seq(n, i => if i == 0 then p.vMin else p.vMax);
    var top := seq(n, i => p.vMax);
    SumConstant(top, p.vMax);
    SumUpdate(top, 0, p.vMin);
    assert y == top[0 := p.vMin];
    assert n as real * p.vMax == (n - 1) as real * p.vMax + p.vMax;
    Positive(p, n);
  }

  lemma {:induction false} UniformAboveFloor(p: Params, n: nat)
    requires n > 0 && 0.0 < p.vMin <= p.vMax
    ensures forall i :: 0 <= i < n ==> Uniform(n)[i] >= Floor(p, n)
  {
    EvenShareAboveFloor(p, n);
  }

  lemma EvenShareAboveFloor(p: Params, n: nat)
    requires n > 0 && 0.0 < p.vMin <= p.vMax
    ensures 1.0 / (n as real) >= Floor(p, n)
  {
    var m := (n - 1) as real;
    Positive(p, n);
    MulLe(p.vMin, p.vMax, m);
    assert n as real == m + 1.0;
    EvenShare(p.vMin, p.vMax, m);
    CrossLe(p.vMin, p.vMin + m * p.vMax, 1.0, n as real);
  }

  lemma EvenShare(lo: real, hi: real, m: real)
    requires m * lo <= m * hi
    ensures lo * (m + 1.0) <= 1.0 * (lo + m * hi)
  {
    assert lo * (m + 1.0) == m * lo + lo;
  }

  /** The probabilities sum to one whatever the parameters, are fractions when no position can be negative, and
      stay above the floor when no position can be zero. */
  ghost predicate OnSimplex(p: Params, prob: seq<real>) {
    |prob| > 0 ==>
      && Sum(prob) == 1.0
      && (0.0 <= p.vMin <= p.vMax ==> Within(prob, 0.0, 1.0))
      && (0.0 < p.vMin <= p.vMax ==> forall i :: 0 <= i < |prob| ==> prob[i] >= Floor(p, |prob|))
  }

  lemma {:induction false} UniformOnSimplex(p: Params, n: nat)
    ensures OnSimplex(p, Uniform(n))
  {
    if n > 0 {
      UniformIsDistribution(n);
      if 0.0 < p.vMin <= p.vMax {
        UniformAboveFloor(p, n);
      }
    }
  }

  /** The share of the unit interval that selects operator i: it starts where the operators before it end, and is
      as long as the operator's probability. */
  ghost predicate Selects(prob: seq<real>, u: real, i: nat) {
    i < |prob| && Sum(prob[..i]) <= u < Sum(prob[..i + 1])
  }

  /** A weighted draw, with u the uniform draw behind it. Without any weights it is always index 0. */
  method SelectOperator(prob: seq<real>, u: real) returns (i: nat)
    requires |prob| > 0 ==> Sum(prob) == 1.0
    requires 0.0 <= u < 1.0
    ensures prob == [] ==> i == 0
    ensures prob != [] ==> Selects(prob, u, i) && prob[i] > 0.0
  {
    i := 0;
    if prob == [] {
      return;
    }
    var below := 0.0;
    SumStep(prob, 0);
    while i < |prob| - 1 && below + prob[i] <= u
      invariant i < |prob| && below == Sum(prob[..i]) <= u
      invariant Sum(prob[..i + 1]) == below + prob[i]
    {
      below := below + prob[i];
      i := i + 1;
      SumStep(prob, i);
    }
    assert i == |prob| - 1 ==> prob[..i + 1] == prob;
  }

  /** The generation counter stays where the inertia is a weighted mean of its two end points. */
  predicate GenerationOk(p: Params, g: int) {
    0 <= g && (p.gMax > 0 ==> g <= p.gMax)
  }

  lemma InertiaBetween(p: Params, g: int)
    requires p.wEnd <= p.wInit && GenerationOk(p, g)
    ensures p.wEnd <= Inertia(p, g) <= p.wInit
  {
    if p.gMax > 0 {
      var d, m, k := p.wInit - p.wEnd, p.gMax as real, (p.gMax - g) as real;
      MulLe(0.0, d, k);
      MulLe(k, m, d);
      DivBetween(d * k, m, 0.0, d);
    }
  }

  /** The generations run through 0, ..., gMax again and again. */
  lemma GenerationsCycle(p: Params, k: nat)
    requires p.gMax > 0
    ensures NextGeneration(p, k % (p.gMax + 1)) == (k + 1) % (p.gMax + 1)
  {
    var n: nat := p.gMax + 1;
    Advance(k, n);
    if k % n + 1 < n {
      Unique(k % n + 1, 0, k % n + 1, n);
    } else {
      Unique(n, 1, 0, n);
    }
  }

  /** From generation to generation the inertia falls by equal steps from its first value to its last. */
  lemma InertiaFalls(p: Params, g: int)
    requires p.gMax > 0
    ensures Inertia(p, 0) == p.wInit && Inertia(p, p.gMax) == p.wEnd
    ensures (Inertia(p, g) - Inertia(p, g + 1)) * p.gMax as real == p.wInit - p.wEnd
  {
    var d, m := p.wInit - p.wEnd, p.gMax as real;
    DivMul(d * (p.gMax - g) as real, m);
    DivMul(d * (p.gMax - g - 1) as real, m);
    Quotient(d * m, m, d);
    Quotient(d * 0.0, m, 0.0);
    assert (p.gMax - g) as real == (p.gMax - g - 1) as real + 1.0;
    assert d * ((p.gMax - g - 1) as real + 1.0) == d * (p.gMax - g - 1) as real + d;
    Differ(Inertia(p, g) - p.wEnd, Inertia(p, g + 1) - p.wEnd, m);
  }

  lemma Differ(a: real, b: real, m: real)
    ensures (a - b) * m == a * m - b * m
  {
  }

  /** A velocity is the old one, damped, and the two pulls together, scaled by the trust in the window. */
  lemma VelocityIsDampedPlusPulls(w: real, c: real, r: Pull, v: real, x: real, l: real, g: real)
    ensures Velocity(w, c, r, v, x, l, g) == w * v + c * (r.own * (l - x) + r.shared * (g - x))
    ensures Velocity(0.0, 1.0, Pull(1.0, 0.0), v, x, l, g) == l - x
    ensures Velocity(0.0, 1.0, Pull(0.0, 1.0), v, x, l, g) == g - x
  {
    assert c * (r.own * (l - x) + r.shared * (g - x)) == c * (r.own * (l - x)) + c * (r.shared * (g - x));
    assert c * r.own * (l - x) == c * (r.own * (l - x)) && c * r.shared * (g - x) == c * (r.shared * (g - x));
  }

  /** The better the global best, the larger the velocity. */
  lemma VelocityRises(w: real, c: real, r: Pull, v: real, x: real, l: real, g: real, g': real)
    requires 0.0 <= c && 0.0 <= r.shared && g <= g'
    ensures Velocity(w, c, r, v, x, l, g) <= Velocity(w, c, r, v, x, l, g')
    ensures 0.0 < c && 0.0 < r.shared && g < g' ==> Velocity(w, c, r, v, x, l, g) < Velocity(w, c, r, v, x, l, g')
  {
    var k := c * r.shared;
    Product(c, r.shared);
    MulLe(g - x, g' - x, k);
    if 0.0 < c && 0.0 < r.shared && g < g' {
      assert k > 0.0;
      assert k * (g' - x) - k * (g - x) == k * (g' - g);
      assert k * (g' - g) > 0.0;
    }
  }

  /** Inertia below one draws a velocity in by at least two, when 2/(1-top) bounds it. */
  lemma InertiaContracts(w: real, top: real, b: real, v: real) returns (drift: real)
    requires 0.0 <= w <= top < 1.0 && b * (1.0 - top) == 2.0 && -b <= v <= b
    ensures drift == w * v && 2.0 - b <= drift <= b - 2.0
  {
    drift := w * v;
    CancelLe(0.0, b, 1.0 - top);
    MulLe(w, top, b);
    assert w * b <= b - 2.0;
    MulLe(v, b, w);
    assert w * v <= b - 2.0;
    MulLe(-v, b, w);
    assert w * -v == -(w * v);
    assert w * v >= 2.0 - b;
  }

  lemma FullPull(w: real, r: Pull, v: real, x: real, l: real, g: real, drift: real, own: real, shared: real)
    requires drift == w * v && own == r.own * (l - x) && shared == r.shared * (g - x)
    ensures Velocity(w, 1.0, r, v, x, l, g) == drift + own + shared
  {
  }

  /** The code of the online learner never clamps a velocity; inertia below one still bounds it by 2/(1-top),
      because both pulls together are shorter than two. */
  lemma VelocityBounded(w: real, top: real, b: real, r: Pull, v: real, x: real, l: real, g: real)
    requires 0.0 <= w <= top < 1.0 && b * (1.0 - top) == 2.0 && PullOk(r)
    requires -b <= v <= b && 0.0 <= x <= 1.0 && 0.0 <= l <= 1.0 && 0.0 <= g <= 1.0
    ensures -b <= Velocity(w, 1.0, r, v, x, l, g) <= b
  {
    var own := FractionOf(r.own, l - x, 1.0);
    var shared := FractionOf(r.shared, g - x, 1.0);
    var drift := InertiaContracts(w, top, b, v);
    FullPull(w, r, v, x, l, g, drift, own, shared);
  }
}
