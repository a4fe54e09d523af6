/** The stand-alone online operator learner: the same swarm without velocity limits, updated every so many
    executions. Its velocities stay bounded although nothing clamps them. */
module MoptOnline {
  import opened Circular
  import opened Reals
  import opened Sums
  import opened Swarm

  /** Positions are cut off at vMax first, then raised to vMin. */
  function Cut(p: Params, a: real): (r: real)
    ensures 0.0 <= p.vMin && 0.0 <= p.vMax ==> r >= 0.0
    ensures 0.0 < p.vMin && 0.0 < p.vMax ==> r > 0.0
    ensures p.vMin <= p.vMax ==> p.vMin <= r <= p.vMax
    ensures (a < r ==> r == p.vMin) && (r < a ==> r == p.vMax)
  {
    if a > p.vMax then p.vMax else if a < p.vMin then p.vMin else a
  }

  ghost function Positions(p: Params, x: seq<real>, v: seq<real>): (y: seq<real>)
    requires |x| == |v|
    ensures |y| == |x|
    ensures p.vMin <= p.vMax ==> Within(y, p.vMin, p.vMax)
  {
    seq(|x|, i requires 0 <= i < |x| => Cut(p, x[i] + v[i]))
  }

  /** The velocities of one update: nothing limits them. */
  ghost predicate Moved(w: real, r: seq<Pull>, v0: seq<real>, x0: seq<real>, l: seq<real>, g: seq<real>, v: seq<real>) {
    |r| == |v0| == |x0| == |l| == |g| == |v| &&
    forall i :: 0 <= i < |v| ==> v[i] == Velocity(w, 1.0, r[i], v0[i], x0[i], l[i], g[i])
  }

  /** Back onto the simplex; positions without any weight start the whole swarm afresh. */
  ghost predicate Placed(p: Params, y: seq<real>, l: seq<real>, g: seq<real>, generation: int, t: Particles) {
    if Sum(y) <= 0.0
    then t.x == t.prob == t.lBest == t.gBest == Uniform(|y|) && t.generation == 0
    else t.prob == Normalised(y) && t.x == t.prob && t.lBest == l && t.gBest == g && t.generation == generation
  }

  /** Everything an update of the probabilities does to the swarm. */
  ghost predicate Learned(p: Params, win: Window, r: seq<Pull>, s: Particles, t: Particles) {
    && Shaped(s, |win.finds|) && Shaped(t, |win.finds|)
    && |win.finds| == |win.cycles| == |win.findsPrev| == |win.cyclesPrev|
    &&
    var l := LocalBests(win, s.x, s.effBest, s.lBest);
    var g := GlobalBest(win.finds, s.gBest);
    var generation := NextGeneration(p, s.generation);
    && BestsRecorded(win, s.x, s.effBest, s.lBest, t.effBest, l)
    && Moved(Inertia(p, generation), r, s.v, s.x, l, g, t.v)
    && Placed(p, Positions(p, s.x, t.v), l, g, generation, t)
  }

  /** What an update does to the counts beside the swarm: it adds itself and takes stock of the window, unless
      positions without any weight cleared them. */
  ghost predicate Closed(p: Params, win: Window, x0: seq<real>, v: seq<real>,
                         updates0: nat, updates: nat, windowFinds: nat, windowCycles: nat)
  {
    |x0| == |v| &&
    if Sum(Positions(p, x0, v)) <= 0.0
    then updates == windowFinds == windowCycles == 0
    else updates == updates0 + 1
         && windowFinds == Total(win.finds) - Total(win.findsPrev)
         && windowCycles == Total(win.cycles) - Total(win.cyclesPrev)
  }

  predicate NonNegative(p: Params) {
    0.0 <= p.vMin && 0.0 <= p.vMax
  }

  /** Parameters under which old velocities fade. */
  predicate Fading(p: Params) {
    NonNegative(p) && 0.0 <= p.wEnd <= p.wInit < 1.0
  }

  function SpeedBound(p: Params): (b: real)
    requires Fading(p)
    ensures b * (1.0 - p.wInit) == 2.0 && b >= 2.0
  {
    DivMul(2.0, 1.0 - p.wInit);
    var b := 2.0 / (1.0 - p.wInit);
    BoundAtLeastTwo(b, p.wInit);
    b
  }

  lemma BoundAtLeastTwo(b: real, w: real)
    requires 0.0 <= w < 1.0 && b * (1.0 - w) == 2.0
    ensures b >= 2.0
  {
    CancelLe(0.0, b, 1.0 - w);
    MulLe(1.0 - w, 1.0, b);
    assert (1.0 - w) * b == 2.0 && (1.0 - w) * b <= 1.0 * b;
  }

  ghost predicate SwarmOk(p: Params, s: Particles, n: nat) {
    && Shaped(s, n)
    && OnSimplex(p, s.prob)
    && GenerationOk(p, s.generation)
    && Within(s.effBest, 0.0, 1.0)
    && (NonNegative(p) ==> Within(s.x, 0.0, 1.0) && Within(s.lBest, 0.0, 1.0) && Within(s.gBest, 0.0, 1.0))
    && (Fading(p) ==> Within(s.v, -SpeedBound(p), SpeedBound(p)))
  }

  /** The swarm a learner starts with. */
  lemma {:induction false} FreshSwarm(p: Params, s: Particles, n: nat)
    requires Shaped(s, n) && s.generation == 0
    requires s.v == seq(n, i => 0.1) && s.effBest == seq(n, i => 0.0)
    requires n > 0 ==> s.x == s.lBest == s.gBest == s.prob == Uniform(n)
    ensures SwarmOk(p, s, n)
  {
    UniformOnSimplex(p, n);
    if n > 0 {
      UniformIsDistribution(n);
    }
  }

  /** One update keeps every velocity within 2/(1-wInit). */
  lemma {:induction false} MovedStaysBounded(p: Params, generation: int, r: seq<Pull>, v0: seq<real>, x0: seq<real>,
                                             l: seq<real>, g: seq<real>, v: seq<real>)
    requires Fading(p) && GenerationOk(p, generation) && Moved(Inertia(p, generation), r, v0, x0, l, g, v)
    requires forall i :: 0 <= i < |r| ==> PullOk(r[i])
    requires Within(v0, -SpeedBound(p), SpeedBound(p))
    requires Within(x0, 0.0, 1.0) && Within(l, 0.0, 1.0) && Within(g, 0.0, 1.0)
    ensures Within(v, -SpeedBound(p), SpeedBound(p))
  {
    InertiaBetween(p, generation);
    SpeedsBounded(p, Inertia(p, generation), r, v0, x0, l, g, v);
  }

  lemma {:induction false} SpeedsBounded(p: Params, w: real, r: seq<Pull>, v0: seq<real>, x0: seq<real>,
                                         l: seq<real>, g: seq<real>, v: seq<real>)
    requires Fading(p) && 0.0 <= w <= p.wInit && Moved(w, r, v0, x0, l, g, v)
    requires forall i :: 0 <= i < |r| ==> PullOk(r[i])
    requires Within(v0, -SpeedBound(p), SpeedBound(p))
    requires Within(x0, 0.0, 1.0) && Within(l, 0.0, 1.0) && Within(g, 0.0, 1.0)
    ensures Within(v, -SpeedBound(p), SpeedBound(p))
  {
    var b := SpeedBound(p);
    forall i | 0 <= i < |v| ensures -b <= v[i] <= b {
      VelocityBounded(w, p.wInit, b, r[i], v0[i], x0[i], l[i], g[i]);
    }
  }

  lemma {:induction false} PlacedOnSimplex(p: Params, x: seq<real>, v: seq<real>, l: seq<real>, g: seq<real>,
                                           generation: int, t: Particles)
    requires |x| == |v| > 0 && Placed(p, Positions(p, x, v), l, g, generation, t)
    ensures OnSimplex(p, t.prob)
    ensures NonNegative(p) ==> Within(t.x, 0.0, 1.0)
  {
    var y := Positions(p, x, v);
    if Sum(y) <= 0.0 {
      UniformOnSimplex(p, |y|);
      UniformIsDistribution(|y|);
    } else {
      NormalisedSumsToOne(y);
      if NonNegative(p) {
        NormalisedIsFraction(y);
      }
      if 0.0 < p.vMin <= p.vMax {
        NormalisedAboveFloor(p, y);
      }
    }
  }

  /** Without a fresh start, the new probabilities stand in the ratio of the positions, cut to their range. */
  lemma {:induction false} ProbabilitiesFollowPositions(p: Params, win: Window, r: seq<Pull>,
                                                        s: Particles, t: Particles, i: nat, j: nat)
    requires Learned(p, win, r, s, t) && i < |win.finds| && j < |win.finds| && Sum(Positions(p, s.x, t.v)) > 0.0
    ensures InRatio(t.prob[i], t.prob[j], Cut(p, s.x[i] + t.v[i]), Cut(p, s.x[j] + t.v[j]))
  {
    var y := Positions(p, s.x, t.v);
    assert y[i] == Cut(p, s.x[i] + t.v[i]) && y[j] == Cut(p, s.x[j] + t.v[j]);
    hide Positions, Moved, BestsRecorded, Sum, Cut, InRatio, Normalised;
    NormalisedInRatio(y, i, j);
  }

  lemma CutRises(p: Params, a: real, b: real)
    requires p.vMin <= p.vMax && a <= b
    ensures Cut(p, a) <= Cut(p, b)
    ensures a < b && p.vMin < p.vMax && p.vMin < b && a < p.vMax ==> Cut(p, a) < Cut(p, b)
  {
  }

  /** The swarm learns: of two operators that stood alike and were pulled alike, the one with more finds is not less
      probable afterwards, and is more probable unless both were cut off at the same bound. */
  lemma {:induction false} MoreFindsMoreProbable(p: Params, win: Window, r: seq<Pull>, s: Particles, t: Particles,
                                                 i: nat, j: nat)
    requires Learned(p, win, r, s, t) && i < |win.finds| && j < |win.finds| && Sum(Positions(p, s.x, t.v)) > 0.0
    requires p.vMin <= p.vMax && |r| == |win.finds| && r[i] == r[j] && PullOk(r[i])
    requires s.x[i] == s.x[j] && s.v[i] == s.v[j] && win.finds[i] < win.finds[j]
    requires t.lBest[i] == t.lBest[j]
    ensures t.prob[i] <= t.prob[j]
    ensures r[i].shared > 0.0 && p.vMin < p.vMax && s.x[i] + t.v[i] < p.vMax && s.x[j] + t.v[j] > p.vMin
            ==> t.prob[i] < t.prob[j]
  {
    hide Positions, BestsRecorded, Sum, Cut, Velocity, Inertia, NextGeneration, Normalised;
    MoreFindsLargerShare(win.finds, i, j);
    VelocityRises(Inertia(p, NextGeneration(p, s.generation)), 1.0, r[i], s.v[i], s.x[i], t.lBest[i],
                  t.gBest[i], t.gBest[j]);
    CutRises(p, s.x[i] + t.v[i], s.x[j] + t.v[j]);
    ProbabilitiesFollowPositions(p, win, r, s, t, i, j);
  }

  /** With positive bounds the swarm never starts afresh. */
  lemma {:induction false} PositiveBoundsNeverRestart(p: Params, x: seq<real>, v: seq<real>)
    requires 0.0 < p.vMin && 0.0 < p.vMax && |x| == |v| > 0
    ensures Sum(Positions(p, x, v)) > 0.0
  {
    AtMostSum(Positions(p, x, v), 0);
  }

  lemma {:induction false} BestsAreFractions(p: Params, win: Window, s: Particles)
    requires Shaped(s, |win.finds|) && Counters(win) && NonNegative(p)
    requires Within(s.x, 0.0, 1.0) && Within(s.lBest, 0.0, 1.0) && Within(s.gBest, 0.0, 1.0)
    ensures Within(LocalBests(win, s.x, s.effBest, s.lBest), 0.0, 1.0)
    ensures Within(GlobalBest(win.finds, s.gBest), 0.0, 1.0)
  {
    if Total(win.finds) > 0 {
      SharesAreFractions(win.finds);
    }
  }

  /** The swarm invariant survives every update, whatever the two random pulls. */
  lemma {:induction false} LearnedKeepsSwarm(p: Params, win: Window, r: seq<Pull>, s: Particles, t: Particles, n: nat)
    requires n > 0 && |win.finds| == n && Counters(win) && SwarmOk(p, s, n) && Shaped(t, n)
    requires Learned(p, win, r, s, t) && forall i :: 0 <= i < |r| ==> PullOk(r[i])
    ensures SwarmOk(p, t, n)
  {
    var l, g := LocalBests(win, s.x, s.effBest, s.lBest), GlobalBest(win.finds, s.gBest);
    var generation := NextGeneration(p, s.generation);
    BestsStayFractions(win, s.x, s.effBest, s.lBest, t.effBest, l);
    PlacedOnSimplex(p, s.x, t.v, l, g, generation, t);
    UniformIsDistribution(n);
    if NonNegative(p) {
      BestsAreFractions(p, win, s);
      if Fading(p) {
        MovedStaysBounded(p, generation, r, s.v, s.x, l, g, t.v);
      }
    }
  }

  /** How much the first i counters grew since their snapshots. */
  ghost function InWindow(now: seq<nat>, before: seq<nat>, i: nat): int
    requires i <= |now| && i <= |before|
  {
    Total(now[..i]) as int - Total(before[..i]) as int
  }

  lemma {:induction false} WholeWindow(now: seq<nat>, before: seq<nat>)
    requires |now| == |before|
    ensures InWindow(now, before, 0) == 0
    ensures InWindow(now, before, |now|) == Total(now) as int - Total(before) as int
  {
    assert now[..|now|] == now && before[..|now|] == before;
  }

  lemma {:induction false} WindowStep(now: seq<nat>, before: seq<nat>, i: nat)
    requires i < |now| && i < |before|
    ensures InWindow(now, before, i + 1) == InWindow(now, before, i) + (now[i] as int - before[i] as int)
  {
    TotalStep(now, i);
    TotalStep(before, i);
  }

  class OnlineLearner {
    const n: nat
    const p: Params

    var x: seq<real>
    var v: seq<real>
    var lBest: seq<real>
    var gBest: seq<real>
    var effBest: seq<real>
    var finds: seq<nat>
    var cycles: seq<nat>
    var findsPrev: seq<nat>
    var cyclesPrev: seq<nat>
    var prob: seq<real>
    var executions: nat
    var generation: int
    var updates: nat
    var lastWindowFinds: nat
    var lastWindowCycles: nat

    ghost predicate Sized()
      reads this
    {
      && |x| == |v| == |lBest| == |gBest| == |effBest| == |prob| == n
      && |finds| == |cycles| == |findsPrev| == |cyclesPrev| == n
    }

    ghost function Swarm(): Particles
      reads this
    {
      Particles(x, v, lBest, gBest, effBest, prob, generation)
    }

    ghost function Counts(): Window
      reads this
    {
      Window(finds, cycles, findsPrev, cyclesPrev)
    }

    /** With positive bounds, an update happened at every full period. */
    ghost predicate PeriodsOk()
      reads this
    {
      n > 0 && 0.0 < p.vMin && 0.0 < p.vMax && p.updatePeriod > 0 ==> updates == executions / p.updatePeriod
    }

    ghost predicate Valid()
      reads this
    {
      Sized() && Counters(Counts()) && SwarmOk(p, Swarm(), n) && PeriodsOk()
    }

    constructor (n: nat, p: Params)
      ensures this.n == n && this.p == p
      ensures Valid()
      ensures n > 0 ==> x == lBest == gBest == prob == Uniform(n)
      ensures v == seq(n, i => 0.1) && effBest == seq(n, i => 0.0)
      ensures finds == cycles == findsPrev == cyclesPrev == seq(n, i => 0)
      ensures executions == generation == updates == lastWindowFinds == lastWindowCycles == 0
    {
      this.n, this.p := n, p;
      x, lBest, gBest, prob := seq(n, i => 0.0), seq(n, i => 0.0), seq(n, i => 0.0), seq(n, i => 0.0);
      v, effBest := seq(n, i => 0.1), seq(n, i => 0.0);
      finds, cycles := seq(n, i => 0), seq(n, i => 0);
      findsPrev, cyclesPrev := seq(n, i => 0), seq(n, i => 0);
      executions, generation, updates, lastWindowFinds, lastWindowCycles := 0, 0, 0, 0, 0;
      new;
      hide SwarmOk;
      InitializeState();
      FreshSwarm(p, Swarm(), n);
    }

    method InitializeState()
      modifies `x, `prob, `lBest, `gBest, `generation, `updates, `lastWindowFinds, `lastWindowCycles
      ensures n > 0 ==> x == prob == lBest == gBest == Uniform(n)
      ensures n > 0 ==> generation == updates == lastWindowFinds == lastWindowCycles == 0
      ensures n == 0 ==> x == old(x) && prob == old(prob) && lBest == old(lBest) && gBest == old(gBest)
      ensures n == 0 ==> generation == old(generation) && updates == old(updates)
      ensures n == 0 ==> lastWindowFinds == old(lastWindowFinds) && lastWindowCycles == old(lastWindowCycles)
    {
      if n == 0 {
        return;
      }
      var uniform := 1.0 / (n as real);
      x := seq(n, i => uniform);
      prob := seq(n, i => uniform);
      lBest := seq(n, i => uniform);
      gBest := seq(n, i => uniform);
      assert x == Uniform(n);
      generation, updates, lastWindowFinds, lastWindowCycles := 0, 0, 0, 0;
    }

    /** The length bounds a caller's bounds stand for: zeros count as one, and the order does not matter. */
    function Shortest(minLen: nat, maxLen: nat): nat {
      var a, b := if minLen == 0 then 1 else minLen, if maxLen == 0 then 1 else maxLen;
      if a > b then b else a
    }

    function Longest(minLen: nat, maxLen: nat): nat {
      var a, b := if minLen == 0 then 1 else minLen, if maxLen == 0 then 1 else maxLen;
      if a > b then a else b
    }

    /** Zero bounds count as one, and swapped bounds are put in order. */
    lemma BoundsInOrder(minLen: nat, maxLen: nat)
      ensures 1 <= Shortest(minLen, maxLen) <= Longest(minLen, maxLen)
      ensures 0 < minLen <= maxLen ==> Shortest(minLen, maxLen) == minLen && Longest(minLen, maxLen) == maxLen
      ensures Shortest(minLen, maxLen) == Shortest(maxLen, minLen) && Longest(minLen, maxLen) == Longest(maxLen, minLen)
      ensures Shortest(0, maxLen) == Shortest(1, maxLen) && Longest(0, maxLen) == Longest(1, maxLen)
    {
    }

    /** A sequence of operators; len and us stand for the random draws. */
    method GenerateSequence(minLen: nat, maxLen: nat, len: nat, us: seq<real>) returns (ops: seq<nat>)
      requires Valid() && Shortest(minLen, maxLen) <= len <= Longest(minLen, maxLen)
      requires |us| == len && forall k :: 0 <= k < len ==> 0.0 <= us[k] < 1.0
      ensures n == 0 ==> ops == []
      ensures n > 0 ==> |ops| == len && |ops| > 0
      ensures n > 0 ==> forall k :: 0 <= k < len ==> Selects(prob, us[k], ops[k]) && prob[ops[k]] > 0.0
    {
      hide Selects, Counters, PeriodsOk;
      ops := [];
      if n == 0 {
        return;
      }
      for i := 0 to len
        invariant |ops| == i
        invariant forall k :: 0 <= k < i ==> ops[k] < n && Selects(prob, us[k], ops[k]) && prob[ops[k]] > 0.0
      {
        var op := SelectOperator(prob, us[i]);
        ops := ops + [op];
      }
    }

    /** Step 1: efficiencies of the closing window, and how much happened in it. */
    method CloseWindow()
      requires Sized() && Counters(Counts())
      modifies `effBest, `lBest, `lastWindowFinds, `lastWindowCycles
      ensures |effBest| == |lBest| == n
      ensures BestsRecorded(Counts(), x, old(effBest), old(lBest), effBest, lBest)
      ensures lBest == LocalBests(Counts(), x, old(effBest), old(lBest))
      ensures lastWindowFinds == Total(finds) - Total(findsPrev)
      ensures lastWindowCycles == Total(cycles) - Total(cyclesPrev)
    {
      hide InWindow, Total;
      WholeWindow(finds, findsPrev);
      WholeWindow(cycles, cyclesPrev);
      var windowFinds: int := 0;
      var windowCycles: int := 0;
      for i := 0 to n
        invariant Sized()
        invariant forall k :: 0 <= k < i ==>
          BestAt(finds[k], cycles[k], findsPrev[k], cyclesPrev[k], x[k],
                 old(effBest)[k], old(lBest)[k], effBest[k], lBest[k])
        invariant forall k :: i <= k < n ==> effBest[k] == old(effBest)[k] && lBest[k] == old(lBest)[k]
        invariant 0 <= windowFinds == InWindow(finds, findsPrev, i)
        invariant 0 <= windowCycles == InWindow(cycles, cyclesPrev, i)
      {
        assert CountersOk(finds[i], cycles[i], findsPrev[i], cyclesPrev[i]);
        WindowStep(finds, findsPrev, i);
        WindowStep(cycles, cyclesPrev, i);
        var df := finds[i] - findsPrev[i];
        var dc := cycles[i] - cyclesPrev[i];
        windowFinds := windowFinds + df;
        windowCycles := windowCycles + dc;
        if dc > 0 {
          var eff := df as real / dc as real;
          if eff > effBest[i] {
            effBest := effBest[i := eff];
            lBest := lBest[i := x[i]];
          }
        }
      }
      lastWindowFinds := windowFinds;
      lastWindowCycles := windowCycles;
    }

    /** The next generation and its inertia. */
    method NextInertia() returns (w: real)
      modifies `generation
      ensures generation == NextGeneration(p, old(generation))
      ensures w == Inertia(p, generation)
    {
      generation := generation + 1;
      if p.gMax > 0 && generation > p.gMax {
        generation := 0;
      }
      w := p.wInit;
      if p.gMax > 0 {
        w := (p.wInit - p.wEnd) * ((p.gMax - generation) as real) / (p.gMax as real) + p.wEnd;
      }
    }

    /** Step 3: velocities, unlimited, and positions, cut to their range. */
    method MoveParticles(w: real, r: seq<Pull>) returns (xsum: real)
      requires Sized() && |r| == n
      modifies `v, `x
      ensures |x| == |v| == n
      ensures Moved(w, r, old(v), old(x), lBest, gBest, v)
      ensures x == Positions(p, old(x), v)
      ensures xsum == Sum(x)
    {
      xsum := 0.0;
      for i := 0 to n
        invariant Sized()
        invariant forall k :: 0 <= k < i ==>
          v[k] == Velocity(w, 1.0, r[k], old(v)[k], old(x)[k], lBest[k], gBest[k])
        invariant forall k :: 0 <= k < i ==> x[k] == Cut(p, old(x)[k] + v[k])
        invariant forall k :: i <= k < n ==> v[k] == old(v)[k] && x[k] == old(x)[k]
        invariant xsum == Sum(x[..i])
      {
        v := v[i := Velocity(w, 1.0, r[i], v[i], x[i], lBest[i], gBest[i])];
        ghost var x0 := x;
        x := x[i := Cut(p, x[i] + v[i])];
        assert x[..i] == x0[..i];
        SumStep(x, i);
        xsum := xsum + x[i];
      }
      assert x[..n] == x;
    }

    /** Step 4: back onto the simplex. */
    method Normalise(xsum: real)
      requires Sized() && xsum == Sum(x) && xsum > 0.0
      modifies `prob, `x
      ensures prob == Normalised(old(x)) && x == prob
    {
      for i := 0 to n
        invariant Sized()
        invariant forall k :: 0 <= k < i ==> x[k] == prob[k] == old(x)[k] / xsum
        invariant forall k :: i <= k < n ==> x[k] == old(x)[k]
      {
        prob := prob[i := x[i] / xsum];
        x := x[i := prob[i]];
      }
    }

    /** Step 5: positions without any weight start the swarm afresh; all others go onto the simplex. */
    method Settle(xsum: real)
      requires Sized() && n > 0 && xsum == Sum(x)
      modifies `x, `prob, `lBest, `gBest, `generation, `updates, `lastWindowFinds, `lastWindowCycles
      ensures Sized() && Placed(p, old(x), old(lBest), old(gBest), old(generation), Swarm())
      ensures updates == (if xsum <= 0.0 then 0 else old(updates))
      ensures lastWindowFinds == (if xsum <= 0.0 then 0 else old(lastWindowFinds))
      ensures lastWindowCycles == (if xsum <= 0.0 then 0 else old(lastWindowCycles))
    {
      if xsum <= 0.0 {
        InitializeState();
      } else {
        Normalise(xsum);
      }
    }

    /** All steps, and the snapshot that opens the next window. */
    method UpdateProbabilities(r: seq<Pull>)
      requires Sized() && Counters(Counts()) && |r| == n > 0
      modifies `effBest, `lBest, `gBest, `v, `x, `prob, `generation, `updates, `findsPrev, `cyclesPrev,
               `lastWindowFinds, `lastWindowCycles
      ensures Sized() && Learned(p, old(Counts()), r, old(Swarm()), Swarm())
      ensures findsPrev == finds && cyclesPrev == cycles
      ensures Closed(p, old(Counts()), old(x), v, old(updates), updates, lastWindowFinds, lastWindowCycles)
    {
      hide BestsRecorded, Moved, Inertia, Counters, Placed, LocalBests, GlobalBest, Sum, Total, Positions;
      CloseWindow();
      updates := updates + 1;
      var w := NextInertia();
      gBest := RecordGlobalBest(finds, gBest);
      var xsum := MoveParticles(w, r);
      Settle(xsum);
      findsPrev := finds;
      cyclesPrev := cycles;
    }

    /** Learning from the window keeps the swarm and the counters valid, and with positive bounds counts. */
    method Learn(r: seq<Pull>)
      requires Sized() && Counters(Counts()) && SwarmOk(p, Swarm(), n)
      requires |r| == n > 0 && forall i :: 0 <= i < n ==> PullOk(r[i])
      modifies `effBest, `lBest, `gBest, `v, `x, `prob, `generation, `updates, `findsPrev, `cyclesPrev,
               `lastWindowFinds, `lastWindowCycles
      ensures Sized() && Counters(Counts()) && SwarmOk(p, Swarm(), n)
      ensures Learned(p, old(Counts()), r, old(Swarm()), Swarm())
      ensures findsPrev == finds && cyclesPrev == cycles
      ensures Closed(p, old(Counts()), old(x), v, old(updates), updates, lastWindowFinds, lastWindowCycles)
      ensures 0.0 < p.vMin && 0.0 < p.vMax ==> updates == old(updates) + 1
    {
      hide Learned, SwarmOk, Counters, Sum, Positions, Total;
      UpdateProbabilities(r);
      SnapshotKeepsCounters(old(Counts()));
      LearnedKeepsSwarm(p, old(Counts()), r, old(Swarm()), Swarm(), n);
      if 0.0 < p.vMin && 0.0 < p.vMax {
        PositiveBoundsNeverRestart(p, old(x), v);
      }
    }

    /** Feedback for one execution. An empty sequence teaches nothing; every updatePeriod-th other one closes
        the window. */
    method Update(ops: seq<nat>, found: bool, r: seq<Pull>)
      requires Valid() && |r| == n && forall i :: 0 <= i < n ==> PullOk(r[i])
      modifies this
      ensures Valid()
      ensures ops == [] || n == 0 ==>
        Swarm() == old(Swarm()) && Counts() == old(Counts()) && updates == old(updates) && executions == old(executions)
      ensures ops != [] && n > 0 ==>
        && executions == old(executions) + 1
        && Counted(old(cycles), cycles, ops)
        && (if found then Counted(old(finds), finds, ops) else finds == old(finds))
        && if p.updatePeriod > 0 && executions % p.updatePeriod == 0
           then var win := old(Counts()).(finds := finds, cycles := cycles);
                && Learned(p, win, r, old(Swarm()), Swarm())
                && findsPrev == finds && cyclesPrev == cycles
                && Closed(p, win, old(x), v, old(updates), updates, lastWindowFinds, lastWindowCycles)
           else Swarm() == old(Swarm()) && findsPrev == old(findsPrev) && cyclesPrev == old(cyclesPrev)
                && updates == old(updates)
                && lastWindowFinds == old(lastWindowFinds) && lastWindowCycles == old(lastWindowCycles)
    {
      hide Learned, Closed, SwarmOk, Counters, Counted;
      if n == 0 || ops == [] {
        return;
      }
      executions := executions + 1;
      cycles, finds := CountExecution(cycles, finds, ops, found);
      CountedKeepsCounters(old(Counts()), finds, cycles, ops, found);
      assert Swarm() == old(Swarm()) && Counts() == old(Counts()).(finds := finds, cycles := cycles);
      if p.updatePeriod > 0 {
        NextPeriod(old(executions), p.updatePeriod);
        if executions % p.updatePeriod == 0 {
          Learn(r);
        }
      }
    }
  }

  /** Counting one more execution completes a period exactly when the remainder becomes zero. */
  lemma NextPeriod(e: nat, period: nat)
    requires period > 0
    ensures (e + 1) / period == e / period + (if (e + 1) % period == 0 then 1 else 0)
  {
    var q, m := e / period, e % period;
    assert e == q * period + m;
    if m + 1 < period {
      Unique(e + 1, q, m + 1, period);
    } else {
      assert e + 1 == (q + 1) * period;
      Unique(e + 1, q + 1, 0, period);
    }
  }
}
