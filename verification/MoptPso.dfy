/** The particle-swarm operator learner of the unified learner: windowed efficiencies, clamped velocities, and a
    probability vector that is renormalised after every update. Time is any non-decreasing number. */
module MoptPso {
  import opened Reals
  import opened Sums
  import opened Swarm

  function Clamp(a: real, lo: real, hi: real): (r: real)
    requires lo <= hi
    ensures lo <= r <= hi
    ensures a < r ==> r == lo
    ensures r < a ==> r == hi
  {
    if a < lo then lo else if hi < a then hi else a
  }

  /** Few samples raise the inertia ... */
  function AdaptedInertia(w: real, sampleRatio: real): real {
    if sampleRatio < 1.0 then w + (1.0 - w) * (1.0 - sampleRatio) * 0.5 else w
  }

  /** ... and shrink both the learning factors and the velocity limit. */
  function Trust(sampleRatio: real): (c: real)
    ensures sampleRatio >= 0.0 ==> 0.3 <= c <= 1.0
  {
    Min(1.0, sampleRatio + 0.3)
  }

  /** A full window is trusted fully and leaves the inertia alone; with emptier windows the trust falls by as much,
      down to 0.3, and the inertia rises towards the mean of itself and one. */
  lemma EmptierWindowsLearnLess(w: real, less: real, more: real)
    requires 0.0 <= less <= more <= 1.0
    ensures Trust(1.0) == 1.0 && AdaptedInertia(w, 1.0) == w
    ensures Trust(0.0) == 0.3 && AdaptedInertia(w, 0.0) == (w + 1.0) / 2.0
    ensures Trust(less) <= Trust(more) && (more <= 0.7 ==> Trust(more) - Trust(less) == more - less)
    ensures w <= 1.0 ==> w <= AdaptedInertia(w, more) <= AdaptedInertia(w, less) <= 1.0
  {
    if w <= 1.0 {
      InertiaRises(1.0 - w, w, less, more);
    }
  }

  lemma InertiaRises(k: real, w: real, less: real, more: real)
    requires k == 1.0 - w && 0.0 <= k && 0.0 <= less <= more <= 1.0
    ensures w <= AdaptedInertia(w, more) <= AdaptedInertia(w, less) <= 1.0
  {
    var x, y := k * (1.0 - more), k * (1.0 - less);
    assert 0.0 <= x <= y <= k by {
      MulLe(1.0 - more, 1.0 - less, k);
      MulLe(1.0 - less, 1.0, k);
      Product(k, 1.0 - more);
    }
    assert more < 1.0 ==> AdaptedInertia(w, more) == w + x * 0.5;
    assert less < 1.0 ==> AdaptedInertia(w, less) == w + y * 0.5;
  }

  lemma TrustedPart(f: real, a: real)
    requires 0.0 <= f <= 1.0 && 0.0 <= a
    ensures 0.0 <= a * f <= a
  {
    var part := FractionOf(f, a, a);
    MulLe(0.0, a, f);
  }

  function Limit(p: Params, ratio: real): (limit: real)
    requires 0.0 <= p.vMax && 0.0 <= ratio
    ensures 0.0 <= limit <= p.vMax
  {
    TrustedPart(Trust(ratio), p.vMax);
    p.vMax * Trust(ratio)
  }

  /** Where the operators land before normalisation. */
  ghost function Positions(p: Params, x: seq<real>, v: seq<real>): (y: seq<real>)
    requires p.vMin <= p.vMax && |x| == |v|
    ensures |y| == |x| && Within(y, p.vMin, p.vMax)
  {
    seq(|x|, i requires 0 <= i < |x| => Clamp(x[i] + v[i], p.vMin, p.vMax))
  }

  /** The largest speed any operator can have: the initial one, or the limit. */
  function TopSpeed(p: Params): real {
    if p.vMax < 0.1 then 0.1 else p.vMax
  }

  /** The clamped velocities of one update. */
  ghost predicate Moved(w: real, c: real, limit: real, r: seq<Pull>, v0: seq<real>, x0: seq<real>,
                        l: seq<real>, g: seq<real>, v: seq<real>) {
    |r| == |v0| == |x0| == |l| == |g| == |v| && limit >= 0.0 &&
    forall i :: 0 <= i < |v| ==> v[i] == Clamp(Velocity(w, c, r[i], v0[i], x0[i], l[i], g[i]), -limit, limit)
  }

  /** Positions on the simplex, unless all of them are zero or negative. */
  ghost predicate Placed(p: Params, x0: seq<real>, v: seq<real>, prob0: seq<real>, x: seq<real>, prob: seq<real>) {
    p.vMin <= p.vMax && |x0| == |v| &&
    var y := Positions(p, x0, v);
    if Sum(y) > 0.0 then prob == Normalised(y) && x == prob else x == y && prob == prob0
  }

  /** Everything an update does to the swarm, given the counters it sees. */
  ghost predicate Learned(p: Params, win: Window, ratio: real, r: seq<Pull>, s: Particles, t: Particles)
    requires 0.0 <= p.vMax && 0.0 <= ratio
  {
    && p.vMin <= p.vMax && |s.x| == |t.v|
    && BestsRecorded(win, s.x, s.effBest, s.lBest, t.effBest, t.lBest)
    && t.gBest == GlobalBest(win.finds, s.gBest)
    && t.generation == NextGeneration(p, s.generation)
    && Moved(AdaptedInertia(Inertia(p, t.generation), ratio), Trust(ratio), Limit(p, ratio), r,
             s.v, s.x, t.lBest, t.gBest, t.v)
    && Placed(p, s.x, t.v, s.prob, t.x, t.prob)
  }

  /** What holds of the swarm after every update. */
  ghost predicate SwarmOk(p: Params, s: Particles, n: nat) {
    && Shaped(s, n)
    && OnSimplex(p, s.prob)
    && Within(s.v, -TopSpeed(p), TopSpeed(p))
    && Within(s.effBest, 0.0, 1.0)
    && GenerationOk(p, s.generation)
    && (0.0 <= p.vMin ==> Within(s.x, 0.0, 1.0) && Within(s.lBest, 0.0, 1.0) && Within(s.gBest, 0.0, 1.0))
  }

  /** Normalising clamped positions stays on the simplex, above the floor. */
  lemma {:induction false} PositionsOnSimplex(p: Params, x: seq<real>, v: seq<real>)
    requires p.vMin <= p.vMax && |x| == |v|
    ensures var y := Positions(p, x, v); Sum(y) > 0.0 ==> OnSimplex(p, Normalised(y))
    ensures var y := Positions(p, x, v); 0.0 <= p.vMin && Sum(y) <= 0.0 ==> Within(y, 0.0, 1.0)
    ensures 0.0 < p.vMin && |x| > 0 ==> Sum(Positions(p, x, v)) > 0.0
  {
    var y := Positions(p, x, v);
    if Sum(y) > 0.0 {
      NormalisedSumsToOne(y);
      if 0.0 <= p.vMin {
        NormalisedIsFraction(y);
      }
    }
    if 0.0 < p.vMin && |x| > 0 {
      NormalisedAboveFloor(p, y);
    }
    if 0.0 <= p.vMin && Sum(y) <= 0.0 {
      forall i | 0 <= i < |y| ensures 0.0 <= y[i] <= 1.0 {
        AtMostSum(y, i);
      }
    }
  }

  lemma {:induction false} MovedWithin(w: real, c: real, limit: real, r: seq<Pull>, v0: seq<real>, x0: seq<real>,
                                       l: seq<real>, g: seq<real>, v: seq<real>, top: real)
    requires Moved(w, c, limit, r, v0, x0, l, g, v) && limit <= top
    ensures Within(v, -top, top)
  {
    forall i | 0 <= i < |v| ensures -top <= v[i] <= top {
      var a := Clamp(Velocity(w, c, r[i], v0[i], x0[i], l[i], g[i]), -limit, limit);
      assert v[i] == a;
    }
  }

  lemma {:induction false} PlacedOnSimplex(p: Params, x0: seq<real>, v: seq<real>, prob0: seq<real>,
                                           x: seq<real>, prob: seq<real>)
    requires Placed(p, x0, v, prob0, x, prob) && OnSimplex(p, prob0)
    ensures OnSimplex(p, prob)
    ensures 0.0 <= p.vMin && |x| > 0 ==> Within(x, 0.0, 1.0)
  {
    PositionsOnSimplex(p, x0, v);
  }

  lemma {:induction false} GlobalBestIsFraction(finds: seq<nat>, g0: seq<real>)
    requires Within(g0, 0.0, 1.0)
    ensures Within(GlobalBest(finds, g0), 0.0, 1.0)
  {
    if Total(finds) > 0 {
      SharesAreFractions(finds);
    }
  }

  /** The swarm invariant survives every update: the probabilities stay a distribution above the floor, the
      velocities within their limit, and all remembered positions and efficiencies fractions. */
  lemma {:induction false} LearnedKeepsSwarm(p: Params, win: Window, ratio: real, r: seq<Pull>,
                                             s: Particles, t: Particles, n: nat)
    requires 0.0 <= p.vMax && ratio >= 0.0
    requires SwarmOk(p, s, n) && Counters(win) && Shaped(t, n) && Learned(p, win, ratio, r, s, t)
    ensures SwarmOk(p, t, n)
  {
    assert Within(t.v, -TopSpeed(p), TopSpeed(p)) by {
      MovedWithin(AdaptedInertia(Inertia(p, t.generation), ratio), Trust(ratio), Limit(p, ratio), r,
                  s.v, s.x, t.lBest, t.gBest, t.v, TopSpeed(p));
    }
    PlacedOnSimplex(p, s.x, t.v, s.prob, t.x, t.prob);
    BestsStayFractions(win, s.x, s.effBest, s.lBest, t.effBest, t.lBest);
    if 0.0 <= p.vMin {
      GlobalBestIsFraction(win.finds, s.gBest);
    }
  }

  /** When some position has weight, the new probabilities stand in the ratio of the positions, cut to their range. */
  lemma {:induction false} ProbabilitiesFollowPositions(p: Params, win: Window, ratio: real, r: seq<Pull>,
                                                        s: Particles, t: Particles, i: nat, j: nat)
    requires 0.0 <= p.vMax && 0.0 <= ratio && Learned(p, win, ratio, r, s, t) && i < |s.x| && j < |s.x|
    requires Sum(Positions(p, s.x, t.v)) > 0.0
    ensures |t.prob| == |t.v| == |s.x|
    ensures var a, b := Clamp(s.x[i] + t.v[i], p.vMin, p.vMax), Clamp(s.x[j] + t.v[j], p.vMin, p.vMax);
      InRatio(t.prob[i], t.prob[j], a, b)
  {
    hide Positions, Moved, BestsRecorded, Clamp, Sum;
    PlacedInRatio(p, s.x, t.v, s.prob, t.x, t.prob, i, j);
  }

  lemma {:induction false} PlacedInRatio(p: Params, x0: seq<real>, v: seq<real>, prob0: seq<real>,
                                         x: seq<real>, prob: seq<real>, i: nat, j: nat)
    requires Placed(p, x0, v, prob0, x, prob) && i < |x0| && j < |x0| && Sum(Positions(p, x0, v)) > 0.0
    ensures |prob| == |x0|
    ensures var a, b := Clamp(x0[i] + v[i], p.vMin, p.vMax), Clamp(x0[j] + v[j], p.vMin, p.vMax);
      InRatio(prob[i], prob[j], a, b)
  {
    PositionAt(p, x0, v, i);
    PositionAt(p, x0, v, j);
    hide Positions, Clamp, Sum, Normalised, InRatio;
    NormalisedInRatio(Positions(p, x0, v), i, j);
  }

  lemma {:induction false} PositionAt(p: Params, x: seq<real>, v: seq<real>, i: nat)
    requires p.vMin <= p.vMax && |x| == |v| && i < |x|
    ensures Positions(p, x, v)[i] == Clamp(x[i] + v[i], p.vMin, p.vMax)
  {
  }

  lemma ClampRises(a: real, b: real, lo: real, hi: real)
    requires lo <= hi && a <= b
    ensures Clamp(a, lo, hi) <= Clamp(b, lo, hi)
    ensures a < b && lo < hi && lo < b && a < hi ==> Clamp(a, lo, hi) < Clamp(b, lo, hi)
  {
  }

  /** The swarm learns: of two operators that stood alike and were pulled alike, the one with more finds is not less
      probable afterwards, and is more probable unless both were stopped by the same limit. */
  lemma {:induction false} MoreFindsMoreProbable(p: Params, win: Window, ratio: real, r: seq<Pull>,
                                                 s: Particles, t: Particles, i: nat, j: nat)
    requires 0.0 <= p.vMax && 0.0 <= ratio && Learned(p, win, ratio, r, s, t) && i < |s.x| && j < |s.x|
    requires Sum(Positions(p, s.x, t.v)) > 0.0
    requires s.x[i] == s.x[j] && s.v[i] == s.v[j] && t.lBest[i] == t.lBest[j] && r[i] == r[j] && PullOk(r[i])
    requires |win.finds| == |s.x| && win.finds[i] < win.finds[j]
    ensures |t.prob| == |t.v| == |s.x| && t.prob[i] <= t.prob[j]
    ensures var limit := Limit(p, ratio);
      r[i].shared > 0.0 && t.v[i] < limit && t.v[j] > -limit
      && p.vMin < p.vMax && s.x[i] + t.v[i] < p.vMax && s.x[j] + t.v[j] > p.vMin
      ==> t.prob[i] < t.prob[j]
  {
    hide Positions, BestsRecorded, Sum, Clamp, Velocity, AdaptedInertia, Inertia, Trust, Limit, Placed, NextGeneration;
    MoreFindsLargerShare(win.finds, i, j);
    var limit := Limit(p, ratio);
    var a := Velocity(AdaptedInertia(Inertia(p, t.generation), ratio), Trust(ratio), r[i], s.v[i], s.x[i],
                      t.lBest[i], t.gBest[i]);
    var b := Velocity(AdaptedInertia(Inertia(p, t.generation), ratio), Trust(ratio), r[j], s.v[j], s.x[j],
                      t.lBest[j], t.gBest[j]);
    assert t.v[i] == Clamp(a, -limit, limit) && t.v[j] == Clamp(b, -limit, limit);
    VelocityRises(AdaptedInertia(Inertia(p, t.generation), ratio), Trust(ratio), r[i], s.v[i], s.x[i], t.lBest[i],
                  t.gBest[i], t.gBest[j]);
    ClampRises(a, b, -limit, limit);
    ClampReached(a, b, -limit, limit);
    ClampRises(s.x[i] + t.v[i], s.x[j] + t.v[j], p.vMin, p.vMax);
    ProbabilitiesFollowPositions(p, win, ratio, r, s, t, i, j);
  }

  lemma ClampReached(a: real, b: real, lo: real, hi: real)
    requires lo <= hi
    ensures Clamp(a, lo, hi) < hi ==> lo < hi && a < hi
    ensures lo < Clamp(b, lo, hi) ==> lo < hi && lo < b
  {
  }

  class PsoLearner {
    const n: nat
    const p: Params
    const timePeriod: int
    const minSamples: nat

    var x: seq<real>
    var v: seq<real>
    var lBest: seq<real>
    var gBest: seq<real>
    var effBest: seq<real>
    var prob: seq<real>
    var finds: seq<nat>
    var cycles: seq<nat>
    var findsPrev: seq<nat>
    var cyclesPrev: seq<nat>
    var generation: int
    var execs: nat
    var updates: nat
    var lastUpdate: int
    var execsSinceUpdate: nat
    var timeTriggered: nat

    /** What clamping demands of the parameters. */
    predicate ParamsOk() {
      p.vMin <= p.vMax && 0.0 <= p.vMax
    }

    ghost predicate Sized()
      reads this
    {
      && ParamsOk()
      && |x| == |v| == |lBest| == |gBest| == |effBest| == |prob| == n
      && |finds| == |cycles| == |findsPrev| == |cyclesPrev| == n
    }

    ghost function Swarm(): Particles
      reads this
    {
      Particles(x, v, lBest, gBest, effBest, prob, generation)
    }

    ghost function Counts(): Window
      reads this
    {
      Window(finds, cycles, findsPrev, cyclesPrev)
    }

    ghost predicate PeriodsOk()
      reads this
    {
      && (p.updatePeriod > 0 ==> execsSinceUpdate < p.updatePeriod)
      && timeTriggered <= updates && updates + execsSinceUpdate <= execs
    }

    ghost predicate Valid()
      reads this
    {
      Sized() && Counters(Counts()) && PeriodsOk() && SwarmOk(p, Swarm(), n)
    }

    constructor (n: nat, p: Params, timePeriod: int, minSamples: nat, now: int)
      requires p.vMin <= p.vMax && 0.0 <= p.vMax
      ensures this.n == n && this.p == p && this.timePeriod == timePeriod && this.minSamples == minSamples
      ensures Valid()
      ensures x == lBest == gBest == prob == Uniform(n)
      ensures v == seq(n, i => 0.1) && effBest == seq(n, i => 0.0)
      ensures finds == cycles == findsPrev == cyclesPrev == seq(n, i => 0)
      ensures generation == execs == updates == execsSinceUpdate == timeTriggered == 0 && lastUpdate == now
    {
      this.n, this.p, this.timePeriod, this.minSamples := n, p, timePeriod, minSamples;
      x := seq(n, i requires 0 <= i < n => 1.0 / (n as real));
      lBest := seq(n, i requires 0 <= i < n => 1.0 / (n as real));
      gBest := seq(n, i requires 0 <= i < n => 1.0 / (n as real));
      prob := seq(n, i requires 0 <= i < n => 1.0 / (n as real));
      v, effBest := seq(n, i => 0.1), seq(n, i => 0.0);
      finds, cycles := seq(n, i => 0), seq(n, i => 0);
      findsPrev, cyclesPrev := seq(n, i => 0), seq(n, i => 0);
      generation, execs, updates, execsSinceUpdate, timeTriggered := 0, 0, 0, 0, 0;
      lastUpdate := now;
      new;
      assert x == Uniform(n) && lBest == Uniform(n) && gBest == Uniform(n) && prob == Uniform(n);
      UniformOnSimplex(p, n);
      if n > 0 {
        UniformIsDistribution(n);
      }
    }

    /** A sequence of len operators, each drawn from the current probabilities; us are the uniform draws.
        A learner without operators can only name index 0. */
    method GenerateSequence(len: nat, us: seq<real>) returns (ops: seq<nat>)
      requires Valid() && |us| == len && forall k :: 0 <= k < len ==> 0.0 <= us[k] < 1.0
      ensures |ops| == len
      ensures n > 0 ==> forall k :: 0 <= k < len ==> Selects(prob, us[k], ops[k]) && prob[ops[k]] > 0.0
      ensures n == 0 ==> forall k :: 0 <= k < len ==> ops[k] == 0
    {
      hide Selects, Counters, PeriodsOk;
      ops := [];
      for i := 0 to len
        invariant |ops| == i
        invariant n > 0 ==>
          forall k :: 0 <= k < i ==> ops[k] < n && Selects(prob, us[k], ops[k]) && prob[ops[k]] > 0.0
        invariant n == 0 ==> forall k :: 0 <= k < i ==> ops[k] == 0
      {
        var op := SelectOperator(prob, us[i]);
        ops := ops + [op];
      }
    }

    /** The sample ratio of an update: below one only when the clock forced it before the period was full. */
    function SampleRatio(since: nat): (ratio: real)
      ensures 0.0 <= ratio <= 1.0
    {
      if ByClock(since) then since as real / p.updatePeriod as real else 1.0
    }

    predicate ExecTrigger(since: nat) {
      p.updatePeriod > 0 && since >= p.updatePeriod
    }

    /** An update that only the clock asked for. */
    predicate ByClock(since: nat) {
      !ExecTrigger(since) && p.updatePeriod > 0
    }

    predicate TimeTrigger(since: nat, now: int)
      reads this
    {
      now - lastUpdate >= timePeriod && since >= minSamples
    }

    /** Step 1: efficiencies of the closing window. */
    method RecordBests()
      requires Sized() && Counters(Counts())
      modifies `effBest, `lBest
      ensures Sized()
      ensures BestsRecorded(Counts(), x, old(effBest), old(lBest), effBest, lBest)
    {
      for i := 0 to n
        invariant Sized()
        invariant forall k :: 0 <= k < i ==>
          BestAt(finds[k], cycles[k], findsPrev[k], cyclesPrev[k], x[k],
                 old(effBest)[k], old(lBest)[k], effBest[k], lBest[k])
        invariant forall k :: i <= k < n ==> effBest[k] == old(effBest)[k] && lBest[k] == old(lBest)[k]
      {
        assert CountersOk(finds[i], cycles[i], findsPrev[i], cyclesPrev[i]);
        var df := finds[i] - findsPrev[i];
        var dc := cycles[i] - cyclesPrev[i];
        if dc > 0 {
          var eff := df as real / dc as real;
          if eff > effBest[i] {
            effBest := effBest[i := eff];
            lBest := lBest[i := x[i]];
          }
        }
      }
    }

    /** Step 3: velocities and positions, both clamped. */
    method MoveParticles(w: real, c: real, limit: real, r: seq<Pull>) returns (xsum: real)
      requires Sized() && |r| == n && limit >= 0.0
      modifies `v, `x
      ensures |x| == |v| == n
      ensures Moved(w, c, limit, r, old(v), old(x), lBest, gBest, v)
      ensures x == Positions(p, old(x), v)
      ensures xsum == Sum(x)
    {
      assert Sum(x[..0]) == 0.0;
      hide Velocity, Sum;
      xsum := 0.0;
      for i := 0 to n
        invariant Sized()
        invariant forall k :: 0 <= k < i ==>
          v[k] == Clamp(Velocity(w, c, r[k], old(v)[k], old(x)[k], lBest[k], gBest[k]), -limit, limit)
        invariant forall k :: 0 <= k < i ==> x[k] == Clamp(old(x)[k] + v[k], p.vMin, p.vMax)
        invariant forall k :: i <= k < n ==> v[k] == old(v)[k] && x[k] == old(x)[k]
        invariant xsum == Sum(x[..i])
      {
        v := v[i := Velocity(w, c, r[i], v[i], x[i], lBest[i], gBest[i])];
        v := v[i := Clamp(v[i], -limit, limit)];
        ghost var x0 := x;
        x := x[i := Clamp(x[i] + v[i], p.vMin, p.vMax)];
        assert x[..i] == x0[..i];
        SumStep(x, i);
        xsum := xsum + x[i];
      }
      assert x[..n] == x;
    }

    /** Step 4: back onto the simplex. */
    method Normalise(xsum: real)
      requires Sized() && xsum == Sum(x)
      modifies `prob, `x
      ensures Sized()
      ensures if xsum > 0.0 then prob == Normalised(old(x)) && x == prob else x == old(x) && prob == old(prob)
    {
      if xsum > 0.0 {
        for i := 0 to n
          invariant Sized()
          invariant forall k :: 0 <= k < i ==> x[k] == prob[k] == old(x[k]) / xsum
          invariant forall k :: i <= k < n ==> x[k] == old(x[k])
        {
          prob := prob[i := x[i] / xsum];
          x := x[i := prob[i]];
        }
      }
    }

    /** The next generation and its inertia. */
    method NextInertia(ratio: real) returns (w: real)
      modifies `generation
      ensures generation == NextGeneration(p, old(generation))
      ensures w == AdaptedInertia(Inertia(p, generation), ratio)
    {
      generation := generation + 1;
      if p.gMax > 0 && generation > p.gMax {
        generation := 0;
      }
      w := p.wInit;
      if p.gMax > 0 {
        w := (p.wInit - p.wEnd) * ((p.gMax - generation) as real) / (p.gMax as real) + p.wEnd;
      }
      if ratio < 1.0 {
        w := w + (1.0 - w) * (1.0 - ratio) * 0.5;
      }
    }

    /** All four steps, and the snapshot that opens the next window. */
    method UpdateProbsAdaptive(ratio: real, r: seq<Pull>)
      requires Sized() && Counters(Counts()) && |r| == n && ratio >= 0.0
      modifies `effBest, `lBest, `gBest, `v, `x, `prob, `generation, `updates, `findsPrev, `cyclesPrev
      ensures Sized() && Learned(p, old(Counts()), ratio, r, old(Swarm()), Swarm())
      ensures updates == old(updates) + 1
      ensures findsPrev == finds && cyclesPrev == cycles
    {
      RecordBests();
      updates := updates + 1;
      var w := NextInertia(ratio);
      gBest := RecordGlobalBest(finds, gBest);
      var xsum := MoveParticles(w, Trust(ratio), Limit(p, ratio), r);
      Normalise(xsum);
      findsPrev := finds;
      cyclesPrev := cycles;
    }

    /** Step 0: how far the window got, and whether only the clock closed it. */
    method TakeSampleRatio(now: int) returns (ratio: real)
      requires ExecTrigger(execsSinceUpdate) || TimeTrigger(execsSinceUpdate, now)
      modifies `timeTriggered
      ensures ratio == SampleRatio(execsSinceUpdate)
      ensures timeTriggered == old(timeTriggered) + (if ByClock(execsSinceUpdate) then 1 else 0)
    {
      var execTrigger := p.updatePeriod > 0 && execsSinceUpdate >= p.updatePeriod;
      var timeTrigger := now - lastUpdate >= timePeriod && execsSinceUpdate >= minSamples;
      ratio := 1.0;
      if timeTrigger && !execTrigger && p.updatePeriod > 0 {
        ratio := execsSinceUpdate as real / p.updatePeriod as real;
        timeTriggered := timeTriggered + 1;
      }
    }

    /** Learning from the window keeps the swarm and the counters valid. */
    method Learn(now: int, r: seq<Pull>)
      requires Sized() && Counters(Counts()) && SwarmOk(p, Swarm(), n) && |r| == n
      requires ExecTrigger(execsSinceUpdate) || TimeTrigger(execsSinceUpdate, now)
      modifies `effBest, `lBest, `gBest, `v, `x, `prob, `generation, `updates, `findsPrev, `cyclesPrev,
               `execsSinceUpdate, `lastUpdate, `timeTriggered
      ensures Sized() && Counters(Counts()) && SwarmOk(p, Swarm(), n)
      ensures Learned(p, old(Counts()), SampleRatio(old(execsSinceUpdate)), r, old(Swarm()), Swarm())
      ensures findsPrev == finds && cyclesPrev == cycles
      ensures updates == old(updates) + 1 && execsSinceUpdate == 0 && lastUpdate == now
      ensures timeTriggered == old(timeTriggered) + (if ByClock(old(execsSinceUpdate)) then 1 else 0)
    {
      hide Learned, SwarmOk, Counters;
      var ratio := TakeSampleRatio(now);
      UpdateProbsAdaptive(ratio, r);
      SnapshotKeepsCounters(old(Counts()));
      LearnedKeepsSwarm(p, old(Counts()), ratio, r, old(Swarm()), Swarm(), n);
      execsSinceUpdate := 0;
      lastUpdate := now;
    }

    /** Feedback for one execution: it is counted, and when the period is full or the clock says so the swarm
        learns from the window and a new window starts. */
    method Update(ops: seq<nat>, found: bool, now: int, r: seq<Pull>)
      requires Valid() && |r| == n
      modifies this
      ensures Valid()
      ensures execs == old(execs) + 1
      ensures Counted(old(cycles), cycles, ops)
      ensures if found then Counted(old(finds), finds, ops) else finds == old(finds)
      ensures var since := old(execsSinceUpdate) + 1;
        var full, due := 0 < p.updatePeriod <= since, now - old(lastUpdate) >= timePeriod && since >= minSamples;
        var early := 0 < p.updatePeriod && since < p.updatePeriod;
        if full || due
        then Learned(p, old(Counts()).(finds := finds, cycles := cycles),
                     if early then since as real / p.updatePeriod as real else 1.0, r, old(Swarm()), Swarm())
             && findsPrev == finds && cyclesPrev == cycles
             && updates == old(updates) + 1 && execsSinceUpdate == 0 && lastUpdate == now
             && timeTriggered == old(timeTriggered) + (if early then 1 else 0)
        else Swarm() == old(Swarm()) && findsPrev == old(findsPrev) && cyclesPrev == old(cyclesPrev)
             && updates == old(updates) && execsSinceUpdate == since && lastUpdate == old(lastUpdate)
             && timeTriggered == old(timeTriggered)
    {
      hide Learned, SwarmOk, Counters, Counted;
      execs := execs + 1;
      execsSinceUpdate := execsSinceUpdate + 1;
      cycles, finds := CountExecution(cycles, finds, ops, found);
      CountedKeepsCounters(old(Counts()), finds, cycles, ops, found);
      assert Swarm() == old(Swarm()) && Counts() == old(Counts()).(finds := finds, cycles := cycles);
      var execTrigger := p.updatePeriod > 0 && execsSinceUpdate >= p.updatePeriod;
      var timeTrigger := now - lastUpdate >= timePeriod && execsSinceUpdate >= minSamples;
      if execTrigger || timeTrigger {
        Learn(now, r);
      }
    }
  }
}
