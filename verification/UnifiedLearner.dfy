/** The coordinator of the three layers: it turns their choices into tasks and routes every result to the layers that
    the choice came from. */
module UnifiedLearner {
  import opened ConfigArms
  import opened Markov
  import opened MoptPso
  import opened Naturals
  import opened Sums
  import opened Swarm
  import opened ThompsonLayer

  datatype Config = Config(
    enableTs: bool, enableEcofuzz: bool, tsDecay: real, tsUpdatePeriod: nat,
    havocStackPow2: nat,
    enableMopt: bool, moptUpdatePeriod: nat,
    enableMarkov: bool, markovUpdatePeriod: nat,
    havocOpsNosplice: nat, havocOpsSplice: nat, moptOpsNosplice: nat, moptOpsSplice: nat,
    tsTimePeriod: int, moptTimePeriod: int, markovTimePeriod: int,
    tsMinSamples: nat, moptMinSamples: nat, markovMinSamples: nat)

  datatype Task = Task(arm: nat, schedule: Schedule, useMopt: bool, splice: bool, analysis: bool,
                       ops: seq<nat>, stackSize: nat, exploration: bool)

  const STAGNATION_WINDOW: int := 300
  const STAGNATION_THRESHOLD: real := 0.001
  const NUM_ANALYSIS_OPS: nat := 6
  const MAX_STACKING: nat := 1024

  /** All random draws of one task, and the age of the learner. */
  datatype Luck = Luck(roll: real, arm: nat, analysisRoll: real, samples: nat -> real, ucbs: nat -> real,
                       stackRoll: real, stack: nat, elapsedMs: nat, unit: nat -> real, any: nat -> nat)

  ghost predicate LuckOk(luck: Luck) {
    0.0 <= luck.stackRoll < 1.0 && forall k :: 0.0 <= luck.unit(k) < 1.0
  }

  function AtLeastOne(n: nat): (r: nat)
    ensures r >= 1 && (n >= 1 ==> r == n)
  {
    if n < 1 then 1 else n
  }

  function HavocOps(cfg: Config, splice: bool): (n: nat)
    ensures n >= 1
  {
    AtLeastOne(if splice then cfg.havocOpsSplice else cfg.havocOpsNosplice)
  }

  function MoptOps(cfg: Config, splice: bool): (n: nat)
    ensures n >= 1
  {
    AtLeastOne(if splice then cfg.moptOpsSplice else cfg.moptOpsNosplice)
  }

  /** The number of operators a task's indices refer to. */
  function OpSpace(cfg: Config, task: Task): (n: nat)
    ensures n >= 1
  {
    if task.analysis then NUM_ANALYSIS_OPS
    else if task.useMopt then MoptOps(cfg, task.splice) else HavocOps(cfg, task.splice)
  }

  ghost predicate FitsArm(task: Task, a: ConfigArm) {
    task.schedule == a.schedule && task.useMopt == a.useMopt && task.splice == a.splice && task.analysis == a.analysis
  }

  /** What every generated task guarantees to whoever executes it and to the layers its result goes to. */
  ghost predicate TaskOk(cfg: Config, task: Task) {
    && task.arm < |Table(cfg.enableEcofuzz)| && FitsArm(task, Table(cfg.enableEcofuzz)[task.arm])
    && |task.ops| == task.stackSize && 1 <= task.stackSize <= MAX_STACKING
    && (task.analysis ==> task.stackSize <= 2)
    && InRange(task.ops, OpSpace(cfg, task))
  }

  ghost predicate InRange(ops: seq<nat>, n: nat) {
    forall k :: 0 <= k < |ops| ==> ops[k] < n
  }

  /** The operators of a task stay within the range of the layer that chose them. */
  lemma OperatorsInRange(cfg: Config, task: Task, k: nat)
    requires TaskOk(cfg, task) && k < |task.ops|
    ensures task.analysis ==> task.ops[k] < 6
    ensures !task.analysis && task.useMopt && task.splice ==> task.ops[k] < cfg.moptOpsSplice || task.ops[k] == 0
    ensures !task.analysis && task.useMopt && !task.splice ==> task.ops[k] < cfg.moptOpsNosplice || task.ops[k] == 0
    ensures !task.analysis && !task.useMopt && task.splice ==> task.ops[k] < cfg.havocOpsSplice || task.ops[k] == 0
    ensures !task.analysis && !task.useMopt && !task.splice ==> task.ops[k] < cfg.havocOpsNosplice || task.ops[k] == 0
  {
    hide Table;
  }

  /** The uniform draw between 2 and 2^pow2, cut at 1024. */
  method SelectStackSize(pow2: nat, draw: nat) returns (size: nat)
    ensures 2 <= size <= MAX_STACKING && size == Min(MAX_STACKING, Pow2(1 + draw % AtLeastOne(pow2)))
  {
    var r := draw % AtLeastOne(pow2);
    var stacking := Pow2(1 + r);
    size := Min(MAX_STACKING, stacking);
  }

  method RandomSequence(len: nat, numOps: nat, any: nat -> nat) returns (ops: seq<nat>)
    ensures |ops| == len && InRange(ops, AtLeastOne(numOps))
    ensures forall k :: 0 <= k < len ==> ops[k] == any(k) % AtLeastOne(numOps)
  {
    ops := [];
    var n := AtLeastOne(numOps);
    for i := 0 to len
      invariant |ops| == i && forall k :: 0 <= k < i ==> ops[k] == any(k) % n && ops[k] < n
    {
      ops := ops + [any(i) % n];
    }
  }

  /** Analysis tasks carry one or two analysis operators. */
  method AnalysisSequence(stack: nat, any: nat -> nat) returns (ops: seq<nat>)
    ensures |ops| == 1 + stack % 2 && InRange(ops, NUM_ANALYSIS_OPS)
  {
    ops := RandomSequence(1 + stack % 2, NUM_ANALYSIS_OPS, any);
  }

  /** A draw from the arms that are, or are not, the analysis arm. */
  method DrawArm(arms: seq<ConfigArm>, analysis: bool, plain: bool, draw: nat) returns (arm: nat)
    requires Numbered(arms) && (analysis || plain)
    ensures arm < |arms| && if arms[arm].analysis then analysis else plain
  {
    var pool: seq<nat> := [];
    for i := 0 to |arms|
      invariant forall k :: 0 <= k < |pool| ==> pool[k] < |arms| && if arms[pool[k]].analysis then analysis else plain
      invariant plain && i > 0 ==> |pool| > 0
      invariant analysis && i == |arms| ==> |pool| > 0
    {
      if (if arms[i].analysis then analysis else plain) {
        pool := pool + [i];
      }
    }
    arm := pool[draw % |pool|];
  }

  /** The arm that Thompson sampling selects: one used no more than the average under a boost, and the first best
      score otherwise. */
  ghost predicate ChosenByTs(ts: ThompsonSampler, arm: nat, allow: bool, luck: Luck)
    requires ts.Valid() && arm < |ts.arms|
    reads ts
  {
    if ts.Boosted(luck.roll) then
      ts.uses[arm] <= AverageUses(ts.arms, ts.uses, allow)
    else
      forall i: nat :: i < |ts.arms| && Allowed(ts.arms[i], allow) ==>
        && ts.Score(i, luck.samples(i), luck.ucbs(i)) <= ts.Score(arm, luck.samples(arm), luck.ucbs(arm))
        && (i < arm ==> ts.Score(i, luck.samples(i), luck.ucbs(i)) < ts.Score(arm, luck.samples(arm), luck.ucbs(arm)))
  }

  /** Each layer runs with the parameters that the configuration has for it. */
  ghost predicate TsConfigured(ts: ThompsonSampler, cfg: Config) {
    && ts.arms == Table(cfg.enableEcofuzz) && ts.decay == cfg.tsDecay
    && ts.updatePeriod == AtLeastOne(cfg.tsUpdatePeriod) && ts.timePeriod == cfg.tsTimePeriod
    && ts.minSamples == cfg.tsMinSamples
    && ts.stagnationWindow == STAGNATION_WINDOW && ts.stagnationThreshold == STAGNATION_THRESHOLD
  }

  ghost predicate MoptConfigured(learner: PsoLearner, cfg: Config, splice: bool) {
    && learner.n == MoptOps(cfg, splice) && learner.p == DEFAULTS.(updatePeriod := cfg.moptUpdatePeriod)
    && learner.timePeriod == cfg.moptTimePeriod && learner.minSamples == cfg.moptMinSamples
  }

  ghost predicate MarkovConfigured(learner: MarkovLearner, cfg: Config, splice: bool) {
    && learner.n == HavocOps(cfg, splice) && learner.aliasInterval == cfg.markovUpdatePeriod
    && learner.timePeriod == cfg.markovTimePeriod && learner.minSamples == cfg.markovMinSamples
  }

  method NewTs(cfg: Config, now: int) returns (ts: ThompsonSampler?)
    ensures ts != null <==> cfg.enableTs
    ensures ts != null ==> fresh(ts) && ts.Valid() && TsConfigured(ts, cfg)
                           && Total(ts.uses) == 0 && Total(ts.finds) == 0
  {
    ts := null;
    if cfg.enableTs {
      ts := new ThompsonSampler(cfg.enableEcofuzz, cfg.tsDecay, AtLeastOne(cfg.tsUpdatePeriod), cfg.tsTimePeriod,
                                cfg.tsMinSamples, STAGNATION_WINDOW, STAGNATION_THRESHOLD, now);
      TotalZero(ts.uses);
      TotalZero(ts.finds);
    }
  }

  method NewMopt(cfg: Config, splice: bool, now: int) returns (learner: PsoLearner?)
    ensures learner != null <==> cfg.enableMopt
    ensures learner != null ==> fresh(learner) && learner.Valid() && MoptConfigured(learner, cfg, splice)
                                && learner.execs == 0 && Total(learner.cycles) == 0
  {
    learner := null;
    if cfg.enableMopt {
      var params := DEFAULTS.(updatePeriod := cfg.moptUpdatePeriod);
      learner := new PsoLearner(MoptOps(cfg, splice), params, cfg.moptTimePeriod, cfg.moptMinSamples, now);
      TotalZero(learner.cycles);
    }
  }

  method NewMarkov(cfg: Config, splice: bool, now: int) returns (learner: MarkovLearner?)
    ensures learner != null <==> cfg.enableMarkov
    ensures learner != null ==> fresh(learner) && learner.Valid() && MarkovConfigured(learner, cfg, splice)
                                && learner.totalExecs == 0
  {
    learner := null;
    if cfg.enableMarkov {
      learner := new MarkovLearner(HavocOps(cfg, splice), cfg.markovUpdatePeriod, cfg.markovTimePeriod,
                                   cfg.markovMinSamples, now);
    }
  }

  method MoptSequence(learner: PsoLearner, len: nat, luck: Luck) returns (ops: seq<nat>)
    requires learner.Valid() && learner.n > 0 && LuckOk(luck)
    ensures |ops| == len && InRange(ops, learner.n)
    ensures forall k :: 0 <= k < len ==> ops[k] < |learner.prob| && learner.prob[ops[k]] > 0.0
  {
    var us := seq(len, k requires 0 <= k < len => luck.unit(k));
    ops := learner.GenerateSequence(len, us);
  }

  method MarkovSequence(learner: MarkovLearner, luck: Luck) returns (ops: seq<nat>)
    requires learner.Valid() && LuckOk(luck)
    ensures MIN_STACK <= |ops| <= MAX_STACK && InRange(ops, learner.n)
  {
    var uniform := MIN_STACK + luck.stack % (MAX_STACK - MIN_STACK + 1);
    var size := learner.SelectStack(luck.stackRoll, uniform, luck.elapsedMs);
    var n := learner.n;
    var draws := seq(size, k requires 0 <= k < size =>
      Draw(luck.any(2 * k) % n, luck.any(2 * k + 1) % n, luck.unit(k)));
    ops := learner.GenerateSequence(size, draws);
  }

  /** Feedback to layer 1: one more use, and one more find when there was one, for an arm that exists. */
  method FeedTs(ts: ThompsonSampler, arm: nat, found: bool, now: int, root: real)
    requires ts.Valid()
    modifies ts
    ensures ts.Valid()
    ensures arm < |ts.arms| ==>
      && ts.uses == old(ts.uses)[arm := old(ts.uses[arm]) + 1]
      && ts.finds == old(ts.finds)[arm := old(ts.finds[arm]) + (if found then 1 else 0)]
    ensures arm >= |ts.arms| ==> ts.uses == old(ts.uses) && ts.finds == old(ts.finds)
    ensures Total(ts.uses) == Total(old(ts.uses)) + (if arm < |ts.arms| then 1 else 0)
    ensures Total(ts.finds) == Total(old(ts.finds)) + (if arm < |ts.arms| && found then 1 else 0)
  {
    hide Total, Numbered, BooksOk;
    ghost var uses, finds := ts.uses, ts.finds;
    ts.Update(arm, found, now, root);
    if arm < |ts.arms| {
      TotalUpdate(uses, arm, uses[arm] + 1);
      TotalUpdate(finds, arm, finds[arm] + (if found then 1 else 0));
    }
  }

  /** Feedback to a MOpt learner: its cycles grow by the operators of the sequence. */
  method FeedMopt(learner: PsoLearner, ops: seq<nat>, found: bool, now: int, pull: nat -> Pull)
    requires learner.Valid()
    modifies learner
    ensures learner.Valid() && learner.execs == old(learner.execs) + 1
    ensures Counted(old(learner.cycles), learner.cycles, ops)
    ensures if found then Counted(old(learner.finds), learner.finds, ops) else learner.finds == old(learner.finds)
    ensures Total(learner.cycles) == Total(old(learner.cycles)) + Known(ops, learner.n)
    ensures InRange(ops, learner.n) ==> Known(ops, learner.n) == |ops|
  {
    hide Total, Counted, Counters, SwarmOk, Learned;
    ghost var cycles := learner.cycles;
    var r := seq(learner.n, k requires 0 <= k < learner.n => pull(k));
    learner.Update(ops, found, now, r);
    CountedTotal(cycles, learner.cycles, ops);
    if InRange(ops, learner.n) {
      AllKnown(ops, learner.n);
    }
  }

  /** One counter of a vector grew. */
  ghost predicate Raised(before: seq<nat>, after: seq<nat>, k: nat, more: nat) {
    k < |before| && after == before[k := before[k] + more]
  }

  /** A transition table grew by the adjacent pairs of a sequence. */
  ghost predicate PairsCounted(before: seq<nat>, after: seq<nat>, n: nat, ops: seq<nat>) {
    |before| == n * n && after == CountPairs(before, n, ops)
  }

  lemma TablesSized(learner: MarkovLearner)
    requires learner.Valid()
    ensures |learner.uses| == |learner.finds| == learner.n * learner.n
  {
  }

  class Learner {
    const cfg: Config
    const ts: ThompsonSampler?
    const moptNosplice: PsoLearner?
    const moptSplice: PsoLearner?
    const markovNosplice: MarkovLearner?
    const markovSplice: MarkovLearner?

    var totalTasks: nat
    var totalResults: nat
    var totalFinds: nat

    /** Results whose arm does not exist, and the finds among them. */
    ghost var strayResults: nat
    ghost var strayFinds: nat
    /** Where the results went: to a MOpt learner, to a Markov learner, or to neither. */
    ghost var moptResults: nat
    ghost var markovResults: nat
    ghost var otherResults: nat
    /** How many operators the sequences processed by MOpt learners contained. */
    ghost var moptFed: nat

    function MoptLearner(splice: bool): PsoLearner? {
      if splice then moptSplice else moptNosplice
    }

    function MarkovOf(splice: bool): MarkovLearner? {
      if splice then markovSplice else markovNosplice
    }

    /** Each layer exists exactly when it is enabled, its splice and no-splice learners are two, and each has the
        operator count that tasks for it are generated with. */
    ghost predicate Wired() {
      && (ts != null <==> cfg.enableTs)
      && (moptNosplice != null <==> cfg.enableMopt) && (moptSplice != null <==> cfg.enableMopt)
      && (markovNosplice != null <==> cfg.enableMarkov) && (markovSplice != null <==> cfg.enableMarkov)
      && (ts != null ==> TsConfigured(ts, cfg))
      && (moptNosplice != null ==> MoptConfigured(moptNosplice, cfg, false))
      && (moptSplice != null ==> MoptConfigured(moptSplice, cfg, true) && moptSplice != moptNosplice)
      && (markovNosplice != null ==> MarkovConfigured(markovNosplice, cfg, false))
      && (markovSplice != null ==> MarkovConfigured(markovSplice, cfg, true) && markovSplice != markovNosplice)
    }

    ghost predicate LayersValid()
      reads ts, moptNosplice, moptSplice, markovNosplice, markovSplice
    {
      (ts != null ==> ts.Valid()) && MoptValid() && MarkovValid()
    }

    ghost function MoptExecs(): nat
      reads moptNosplice, moptSplice
    {
      (if moptNosplice == null then 0 else moptNosplice.execs) + (if moptSplice == null then 0 else moptSplice.execs)
    }

    ghost function MoptCycles(): nat
      reads moptNosplice, moptSplice
    {
      (if moptNosplice == null then 0 else Total(moptNosplice.cycles))
      + (if moptSplice == null then 0 else Total(moptSplice.cycles))
    }

    ghost function MarkovExecs(): nat
      reads markovNosplice, markovSplice
    {
      (if markovNosplice == null then 0 else markovNosplice.totalExecs)
      + (if markovSplice == null then 0 else markovSplice.totalExecs)
    }

    /** The books of layer 1, of the MOpt learners and of the Markov learners. */
    ghost predicate TsBalanced()
      reads this, ts
    {
      ts != null ==> Total(ts.uses) + strayResults == totalResults && Total(ts.finds) + strayFinds == totalFinds
    }

    ghost predicate MoptBalanced()
      reads this, moptNosplice, moptSplice
    {
      MoptExecs() == moptResults && MoptCycles() == moptFed
    }

    ghost predicate MarkovBalanced()
      reads this, markovNosplice, markovSplice
    {
      MarkovExecs() == markovResults
    }

    /** The books of the whole run. */
    ghost predicate Balanced()
      reads this, ts, moptNosplice, moptSplice, markovNosplice, markovSplice
    {
      TsBalanced() && MoptBalanced() && MarkovBalanced() && moptResults + markovResults + otherResults == totalResults
    }

    ghost predicate MoptValid()
      reads moptNosplice, moptSplice
    {
      (moptNosplice != null ==> moptNosplice.Valid()) && (moptSplice != null ==> moptSplice.Valid())
    }

    ghost predicate MarkovValid()
      reads markovNosplice, markovSplice
    {
      (markovNosplice != null ==> markovNosplice.Valid()) && (markovSplice != null ==> markovSplice.Valid())
    }

    ghost predicate Valid()
      reads this, ts, moptNosplice, moptSplice, markovNosplice, markovSplice
    {
      Wired() && LayersValid() && Balanced()
    }

    constructor (cfg: Config, now: int)
      ensures this.cfg == cfg && Valid()
      ensures totalTasks == totalResults == totalFinds == strayResults == strayFinds == 0
      ensures moptResults == markovResults == otherResults == moptFed == 0
      ensures ts != null ==> fresh(ts)
      ensures moptNosplice != null ==> fresh(moptNosplice)
      ensures moptSplice != null ==> fresh(moptSplice)
      ensures markovNosplice != null ==> fresh(markovNosplice)
      ensures markovSplice != null ==> fresh(markovSplice)
    {
      hide ThompsonSampler.Valid, PsoLearner.Valid, MarkovLearner.Valid, Table, Total;
      hide TsConfigured, MoptConfigured, MarkovConfigured;
      this.cfg := cfg;
      var layer1 := NewTs(cfg, now);
      var pso0 := NewMopt(cfg, false, now);
      var pso1 := NewMopt(cfg, true, now);
      var markov0 := NewMarkov(cfg, false, now);
      var markov1 := NewMarkov(cfg, true, now);
      ts, moptNosplice, moptSplice, markovNosplice, markovSplice := layer1, pso0, pso1, markov0, markov1;
      totalTasks, totalResults, totalFinds, strayResults, strayFinds := 0, 0, 0, 0, 0;
      moptResults, markovResults, otherResults, moptFed := 0, 0, 0, 0;
      new;
      assert MoptValid() && MarkovValid();
    }

    /** What the learners were built with. */
    lemma LearnersConfigured()
      requires Valid()
      ensures (ts != null <==> cfg.enableTs) && (moptSplice != null <==> cfg.enableMopt)
      ensures (moptNosplice != null <==> cfg.enableMopt) && (markovSplice != null <==> cfg.enableMarkov)
      ensures markovNosplice != null <==> cfg.enableMarkov
      ensures ts != null ==> ts.updatePeriod == (if cfg.tsUpdatePeriod < 1 then 1 else cfg.tsUpdatePeriod)
                             && ts.decay == cfg.tsDecay && ts.timePeriod == cfg.tsTimePeriod
                             && ts.minSamples == cfg.tsMinSamples
      ensures cfg.enableMopt ==>
        && moptSplice.n == (if cfg.moptOpsSplice < 1 then 1 else cfg.moptOpsSplice)
        && moptNosplice.n == (if cfg.moptOpsNosplice < 1 then 1 else cfg.moptOpsNosplice)
        && moptSplice.p == moptNosplice.p == Params(0.9, 0.3, 5000, 0.05, 1.0, cfg.moptUpdatePeriod)
        && moptSplice.timePeriod == moptNosplice.timePeriod == cfg.moptTimePeriod
        && moptSplice.minSamples == moptNosplice.minSamples == cfg.moptMinSamples
      ensures cfg.enableMarkov ==>
        && markovSplice.n == (if cfg.havocOpsSplice < 1 then 1 else cfg.havocOpsSplice)
        && markovNosplice.n == (if cfg.havocOpsNosplice < 1 then 1 else cfg.havocOpsNosplice)
        && markovSplice.aliasInterval == markovNosplice.aliasInterval == cfg.markovUpdatePeriod
        && markovSplice.timePeriod == markovNosplice.timePeriod == cfg.markovTimePeriod
        && markovSplice.minSamples == markovNosplice.minSamples == cfg.markovMinSamples
    {
      hide Table, ThompsonSampler.Valid, PsoLearner.Valid, MarkovLearner.Valid, Total;
    }

    /** Layer 1, or a uniform draw when it is disabled. */
    method SelectArm(allow: bool, luck: Luck) returns (arm: nat, config: ConfigArm)
      requires Wired() && LayersValid()
      ensures arm < |Table(cfg.enableEcofuzz)| && config == Table(cfg.enableEcofuzz)[arm] && Allowed(config, allow)
      ensures ts != null ==> ChosenByTs(ts, arm, allow, luck)
    {
      hide Table, PsoLearner.Valid, MarkovLearner.Valid, AverageUses, Underused, Numbered;
      if ts != null {
        var samples := seq(|ts.arms|, k requires 0 <= k < |ts.arms| => luck.samples(k));
        var ucbs := seq(|ts.arms|, k requires 0 <= k < |ts.arms| => luck.ucbs(k));
        arm := ts.SelectArm(allow, luck.roll, luck.arm, samples, ucbs);
        config := ts.arms[arm];
      } else {
        var arms := GetConfigArms(cfg.enableEcofuzz);
        arm := DrawArm(arms, allow, true, luck.arm);
        config := arms[arm];
      }
    }

    /** Layers 2 and 3: the operator sequence of a task that is no analysis task. */
    method SelectOperators(useMopt: bool, splice: bool, luck: Luck) returns (ops: seq<nat>)
      requires Wired() && LayersValid() && LuckOk(luck)
      ensures 1 <= |ops| <= MAX_STACKING
      ensures InRange(ops, if useMopt then MoptOps(cfg, splice) else HavocOps(cfg, splice))
      ensures useMopt && MoptLearner(splice) != null ==>
        forall k :: 0 <= k < |ops| ==> ops[k] < |MoptLearner(splice).prob| && MoptLearner(splice).prob[ops[k]] > 0.0
      ensures !useMopt && MarkovOf(splice) != null ==> MIN_STACK <= |ops| <= MAX_STACK
    {
      hide Table, ThompsonSampler.Valid;
      if useMopt {
        var stackSize := SelectStackSize(cfg.havocStackPow2, luck.stack);
        var learner := MoptLearner(splice);
        if learner != null {
          ops := MoptSequence(learner, stackSize, luck);
        } else {
          ops := RandomSequence(stackSize, MoptOps(cfg, splice), luck.any);
        }
      } else {
        var learner := MarkovOf(splice);
        if learner != null {
          ops := MarkovSequence(learner, luck);
        } else {
          var stackSize := SelectStackSize(cfg.havocStackPow2, luck.stack);
          ops := RandomSequence(stackSize, HavocOps(cfg, splice), luck.any);
        }
      }
    }

    /** A task for a worker, from all three layers. */
    method GenerateWorkerTask(allow: bool, luck: Luck) returns (task: Task)
      requires Valid() && LuckOk(luck)
      modifies `totalTasks
      ensures Valid() && totalTasks == old(totalTasks) + 1
      ensures TaskOk(cfg, task) && !task.exploration && (task.analysis ==> allow)
      ensures ts != null ==> ChosenByTs(ts, task.arm, allow, luck)
      ensures !task.analysis && task.useMopt && MoptLearner(task.splice) != null ==>
        forall k :: 0 <= k < |task.ops| ==>
          task.ops[k] < |MoptLearner(task.splice).prob| && MoptLearner(task.splice).prob[task.ops[k]] > 0.0
      ensures !task.analysis && !task.useMopt && MarkovOf(task.splice) != null ==>
        MIN_STACK <= task.stackSize <= MAX_STACK
    {
      hide Table, ThompsonSampler.Valid, PsoLearner.Valid, MarkovLearner.Valid, Total;
      hide TsConfigured, MoptConfigured, MarkovConfigured, MoptExecs, MoptCycles, MarkovExecs;
      totalTasks := totalTasks + 1;
      var arm, config := SelectArm(allow, luck);
      var ops;
      if config.analysis {
        ops := AnalysisSequence(luck.stack, luck.any);
      } else {
        ops := SelectOperators(config.useMopt, config.splice, luck);
      }
      task := Task(arm, config.schedule, config.useMopt, config.splice, config.analysis, ops, |ops|, false);
    }

    /** A random task for an explorer, biased towards the analysis arm. */
    method GenerateExplorerTask(analysisProb: real, luck: Luck) returns (task: Task)
      requires Valid()
      modifies `totalTasks
      ensures Valid() && totalTasks == old(totalTasks) + 1
      ensures TaskOk(cfg, task) && task.exploration
      ensures task.analysis <==> luck.analysisRoll < Clamp(analysisProb, 0.0, 1.0)
    {
      hide Table, ThompsonSampler.Valid, PsoLearner.Valid, MarkovLearner.Valid, Total;
      hide TsConfigured, MoptConfigured, MarkovConfigured, MoptValid, MarkovValid, MoptExecs, MoptCycles, MarkovExecs;
      totalTasks := totalTasks + 1;
      var arms := GetConfigArms(cfg.enableEcofuzz);
      var pickAnalysis := luck.analysisRoll < Clamp(analysisProb, 0.0, 1.0);
      var arm := DrawArm(arms, pickAnalysis, !pickAnalysis, luck.arm);
      var config := arms[arm];
      var ops;
      if config.analysis {
        ops := AnalysisSequence(luck.stack, luck.any);
      } else {
        var stackSize := SelectStackSize(cfg.havocStackPow2, luck.stack);
        var numOps := if config.useMopt then MoptOps(cfg, config.splice) else HavocOps(cfg, config.splice);
        ops := RandomSequence(stackSize, numOps, luck.any);
      }
      task := Task(arm, config.schedule, config.useMopt, config.splice, config.analysis, ops, |ops|, true);
    }

    predicate ToMopt(task: Task) {
      !task.analysis && task.useMopt && task.ops != [] && cfg.enableMopt
    }

    predicate ToMarkov(task: Task) {
      !task.analysis && !task.useMopt && task.ops != [] && cfg.enableMarkov
    }

    lemma TaskInRange(task: Task)
      requires TaskOk(cfg, task)
      ensures ToMopt(task) ==> InRange(task.ops, MoptOps(cfg, task.splice))
    {
    }

    /** Layer 1's part of a result. */
    method LearnTs(arm: nat, found: bool, now: int, root: real)
      requires Wired() && TsBalanced() && (ts != null ==> ts.Valid())
      modifies `totalResults, `totalFinds, `strayResults, `strayFinds, ts
      ensures TsBalanced() && (ts != null ==> ts.Valid())
      ensures totalResults == old(totalResults) + 1 && totalFinds == old(totalFinds) + (if found then 1 else 0)
      ensures ts != null && arm < |ts.arms| ==>
        && Raised(old(ts.uses), ts.uses, arm, 1) && Raised(old(ts.finds), ts.finds, arm, if found then 1 else 0)
      ensures strayResults == old(strayResults) + (if ts != null && arm >= |ts.arms| then 1 else 0)
      ensures strayFinds == old(strayFinds) + (if ts != null && arm >= |ts.arms| && found then 1 else 0)
    {
      hide Table, Total, Numbered, BooksOk;
      totalResults := totalResults + 1;
      if found {
        totalFinds := totalFinds + 1;
      }
      if ts != null {
        FeedTs(ts, arm, found, now, root);
        if arm >= |ts.arms| {
          strayResults := strayResults + 1;
          strayFinds := strayFinds + (if found then 1 else 0);
        }
      }
    }

    /** Layer 2's part of a result: only a non-empty sequence of a MOpt task counts. */
    method LearnMopt(task: Task, found: bool, now: int, pull: nat -> Pull)
      requires Wired() && MoptValid() && MoptBalanced() && !task.analysis
      modifies `moptResults, `moptFed, moptNosplice, moptSplice
      ensures MoptValid() && MoptBalanced()
      ensures moptResults == old(moptResults) + (if ToMopt(task) then 1 else 0)
      ensures moptSplice != null && !(ToMopt(task) && task.splice) ==> unchanged(moptSplice)
      ensures moptNosplice != null && !(ToMopt(task) && !task.splice) ==> unchanged(moptNosplice)
      ensures ToMopt(task) ==>
        var learner := MoptLearner(task.splice);
        && learner.execs == old(learner.execs) + 1 && Counted(old(learner.cycles), learner.cycles, task.ops)
        && if found then Counted(old(learner.finds), learner.finds, task.ops) else learner.finds == old(learner.finds)
      ensures !ToMopt(task) ==> moptFed == old(moptFed)
      ensures ToMopt(task) && InRange(task.ops, MoptOps(cfg, task.splice)) ==> moptFed == old(moptFed) + |task.ops|
    {
      hide Table, PsoLearner.Valid, Total, Counted, InRange, Known, HavocOps;
      if task.useMopt && task.ops != [] {
        var learner := MoptLearner(task.splice);
        if learner != null {
          FeedMopt(learner, task.ops, found, now, pull);
          moptResults := moptResults + 1;
          moptFed := moptFed + Known(task.ops, learner.n);
        }
      }
    }

    /** Layer 3's part of a result: only a non-empty sequence of a havoc task counts. */
    method LearnMarkov(task: Task, found: bool, now: int)
      requires Wired() && MarkovValid() && MarkovBalanced() && !task.analysis
      modifies `markovResults, markovNosplice, markovSplice
      ensures MarkovValid() && MarkovBalanced()
      ensures markovResults == old(markovResults) + (if ToMarkov(task) then 1 else 0)
      ensures markovSplice != null && !(ToMarkov(task) && task.splice) ==> unchanged(markovSplice)
      ensures markovNosplice != null && !(ToMarkov(task) && !task.splice) ==> unchanged(markovNosplice)
      ensures ToMarkov(task) ==>
        var learner := MarkovOf(task.splice);
        && learner.totalExecs == old(learner.totalExecs) + 1
        && PairsCounted(old(learner.uses), learner.uses, learner.n, task.ops)
        && if found then PairsCounted(old(learner.finds), learner.finds, learner.n, task.ops)
           else learner.finds == old(learner.finds)
    {
      hide Table, MarkovLearner.Valid, CountPairs;
      if !task.useMopt && task.ops != [] {
        var learner := MarkovOf(task.splice);
        if learner != null {
          TablesSized(learner);
          learner.Update(task.ops, found, now);
          markovResults := markovResults + 1;
        }
      }
    }

    /** Layers 2 and 3: an analysis result teaches them nothing. */
    method LearnOperators(task: Task, found: bool, now: int, pull: nat -> Pull)
      requires Wired() && MoptValid() && MoptBalanced() && MarkovValid() && MarkovBalanced()
      modifies `moptResults, `markovResults, `otherResults, `moptFed,
               moptNosplice, moptSplice, markovNosplice, markovSplice
      ensures MoptValid() && MoptBalanced() && MarkovValid() && MarkovBalanced()
      ensures moptResults == old(moptResults) + (if ToMopt(task) then 1 else 0)
      ensures markovResults == old(markovResults) + (if ToMarkov(task) then 1 else 0)
      ensures moptResults + markovResults + otherResults == old(moptResults + markovResults + otherResults) + 1
      ensures moptSplice != null && !(ToMopt(task) && task.splice) ==> unchanged(moptSplice)
      ensures moptNosplice != null && !(ToMopt(task) && !task.splice) ==> unchanged(moptNosplice)
      ensures markovSplice != null && !(ToMarkov(task) && task.splice) ==> unchanged(markovSplice)
      ensures markovNosplice != null && !(ToMarkov(task) && !task.splice) ==> unchanged(markovNosplice)
      ensures ToMopt(task) ==>
        var learner := MoptLearner(task.splice);
        && learner.execs == old(learner.execs) + 1 && Counted(old(learner.cycles), learner.cycles, task.ops)
        && if found then Counted(old(learner.finds), learner.finds, task.ops) else learner.finds == old(learner.finds)
      ensures ToMarkov(task) ==>
        var learner := MarkovOf(task.splice);
        && learner.totalExecs == old(learner.totalExecs) + 1
        && PairsCounted(old(learner.uses), learner.uses, learner.n, task.ops)
        && if found then PairsCounted(old(learner.finds), learner.finds, learner.n, task.ops)
           else learner.finds == old(learner.finds)
      ensures !ToMopt(task) ==> moptFed == old(moptFed)
      ensures ToMopt(task) && InRange(task.ops, MoptOps(cfg, task.splice)) ==> moptFed == old(moptFed) + |task.ops|
    {
      hide Counted, PairsCounted, InRange, MoptOps;
      hide MoptConfigured, MarkovConfigured, MoptValid, MarkovValid, MoptExecs, MoptCycles, MarkovExecs;
      if task.analysis {
        otherResults := otherResults + 1;
        return;
      }
      LearnMopt(task, found, now, pull);
      LearnMarkov(task, found, now);
      if !ToMopt(task) && !ToMarkov(task) {
        otherResults := otherResults + 1;
      }
    }

    /** Routes a result. Layer 1 always learns from it; a MOpt result goes to one MOpt learner, a havoc result to
        one Markov learner, and every other learner stays as it is. */
    method ProcessResult(task: Task, found: bool, now: int, root: real, pull: nat -> Pull)
      requires Valid()
      modifies `totalResults, `totalFinds, `strayResults, `strayFinds, `moptResults, `markovResults, `otherResults,
               `moptFed, ts, moptNosplice, moptSplice, markovNosplice, markovSplice
      ensures Valid()
      ensures totalResults == old(totalResults) + 1 && totalFinds == old(totalFinds) + (if found then 1 else 0)
      ensures ts != null && task.arm < |ts.arms| ==>
        && Raised(old(ts.uses), ts.uses, task.arm, 1)
        && Raised(old(ts.finds), ts.finds, task.arm, if found then 1 else 0)
      ensures strayResults == old(strayResults) + (if ts != null && task.arm >= |ts.arms| then 1 else 0)
      ensures strayFinds == old(strayFinds) + (if ts != null && task.arm >= |ts.arms| && found then 1 else 0)
      ensures var learns := !task.analysis && task.useMopt && task.ops != [] && cfg.enableMopt;
        var learner := if task.splice then moptSplice else moptNosplice;
        && moptResults == old(moptResults) + (if learns then 1 else 0)
        && (moptSplice != null && !(learns && task.splice) ==> unchanged(moptSplice))
        && (moptNosplice != null && !(learns && !task.splice) ==> unchanged(moptNosplice))
        && (learns ==> learner != null && learner.execs == old(learner.execs) + 1
                       && Counted(old(learner.cycles), learner.cycles, task.ops)
                       && if found then Counted(old(learner.finds), learner.finds, task.ops)
                          else learner.finds == old(learner.finds))
      ensures var learns := !task.analysis && !task.useMopt && task.ops != [] && cfg.enableMarkov;
        var learner := if task.splice then markovSplice else markovNosplice;
        && markovResults == old(markovResults) + (if learns then 1 else 0)
        && (markovSplice != null && !(learns && task.splice) ==> unchanged(markovSplice))
        && (markovNosplice != null && !(learns && !task.splice) ==> unchanged(markovNosplice))
        && (learns ==> learner != null && learner.totalExecs == old(learner.totalExecs) + 1
                       && PairsCounted(old(learner.uses), learner.uses, learner.n, task.ops)
                       && if found then PairsCounted(old(learner.finds), learner.finds, learner.n, task.ops)
                          else learner.finds == old(learner.finds))
      ensures TaskOk(cfg, task) ==> moptFed == old(moptFed) + (if ToMopt(task) then |task.ops| else 0)
    {
      hide Table, ThompsonSampler.Valid, PsoLearner.Valid, MarkovLearner.Valid, Total, Counted, InRange, TaskOk;
      hide TsConfigured, MoptConfigured, MarkovConfigured, MoptValid, MarkovValid, MoptExecs, MoptCycles, MarkovExecs;
      hide Raised, PairsCounted, MoptOps;
      LearnTs(task.arm, found, now, root);
      if TaskOk(cfg, task) {
        TaskInRange(task);
      }
      LearnOperators(task, found, now, pull);
    }

    /** The operators that the processed MOpt tasks contained. */
    ghost function FedBy(processed: seq<Task>): nat {
      if |processed| == 0 then 0
      else
        var last := processed[|processed| - 1];
        FedBy(processed[..|processed| - 1]) + (if ToMopt(last) then |last.ops| else 0)
    }

    /** How many of the processed tasks went to a MOpt learner, and how many to a Markov learner. */
    ghost function MoptTasks(processed: seq<Task>): nat {
      if |processed| == 0 then 0
      else MoptTasks(processed[..|processed| - 1]) + (if ToMopt(processed[|processed| - 1]) then 1 else 0)
    }

    ghost function MarkovTasks(processed: seq<Task>): nat {
      if |processed| == 0 then 0
      else MarkovTasks(processed[..|processed| - 1]) + (if ToMarkov(processed[|processed| - 1]) then 1 else 0)
    }

    /** The arms' uses after some more tasks were processed. */
    ghost predicate UsesGrown(before: seq<nat>, after: seq<nat>, processed: seq<Task>) {
      |after| == |before| && forall a :: 0 <= a < |after| ==> after[a] == before[a] + UsesOf(processed, a)
    }

    ghost function Books(): Ledger
      reads this, ts, moptNosplice, moptSplice, markovNosplice, markovSplice
    {
      Ledger(totalTasks, totalResults, totalFinds, if ts == null then [] else ts.uses,
             MoptCycles(), MoptExecs(), MarkovExecs())
    }

    /** One more processed task in the books. */
    ghost predicate Entered(before: Ledger, after: Ledger, task: Task, found: bool) {
      && after.issued == before.issued && after.results == before.results + 1
      && after.finds == before.finds + (if found then 1 else 0)
      && (if before.uses == [] then after.uses == []
          else Raised(before.uses, after.uses, task.arm, 1))
      && after.moptCycles == before.moptCycles + (if ToMopt(task) then |task.ops| else 0)
      && after.moptExecs == before.moptExecs + (if ToMopt(task) then 1 else 0)
      && after.markovExecs == before.markovExecs + (if ToMarkov(task) then 1 else 0)
    }

    /** The books after some more tasks were processed: every arm has one more use for each of its tasks, and the
        MOpt and Markov learners have seen exactly their tasks. */
    ghost predicate Served(before: Ledger, after: Ledger, processed: seq<Task>) {
      && after.results == before.results + |processed|
      && UsesGrown(before.uses, after.uses, processed)
      && after.moptCycles == before.moptCycles + FedBy(processed)
      && after.moptExecs == before.moptExecs + MoptTasks(processed)
      && after.markovExecs == before.markovExecs + MarkovTasks(processed)
    }

    lemma {:induction false} ServedStep(before: Ledger, mid: Ledger, after: Ledger, processed: seq<Task>, task: Task,
                                        found: bool)
      requires Served(before, mid, processed) && Entered(mid, after, task, found)
      ensures Served(before, after, processed + [task])
    {
      assert (processed + [task])[..|processed|] == processed;
    }

    /** How the results were routed, in terms of the arms: with a layer enabled, its learners have seen exactly the
        results of its arms. */
    ghost predicate Routed(before: Ledger, after: Ledger) {
      var arms := Table(cfg.enableEcofuzz);
      |before.uses| == |arms| == |after.uses| ==>
        && (cfg.enableMopt ==> after.moptExecs - before.moptExecs
                               == UsesOn(arms, after.uses, true, |arms|) - UsesOn(arms, before.uses, true, |arms|))
        && (cfg.enableMarkov ==> after.markovExecs - before.markovExecs
                                 == UsesOn(arms, after.uses, false, |arms|) - UsesOn(arms, before.uses, false, |arms|))
    }

    lemma {:induction false} RoutedStep(before: Ledger, mid: Ledger, after: Ledger, task: Task, found: bool)
      requires Routed(before, mid) && Entered(mid, after, task, found) && TaskOk(cfg, task)
      ensures Routed(before, after)
    {
      var arms := Table(cfg.enableEcofuzz);
      if |mid.uses| == |arms| {
        assert Raised(mid.uses, after.uses, task.arm, 1);
        UsesOnRaised(arms, mid.uses, task.arm, true, |arms|);
        UsesOnRaised(arms, mid.uses, task.arm, false, |arms|);
      }
      hide Table;
    }

    ghost predicate AllOk(tasks: seq<Task>) {
      forall t :: 0 <= t < |tasks| ==> TaskOk(cfg, tasks[t])
    }

    /** The tasks that the first n events ask for: one well-formed task of the requested kind for each request. */
    ghost predicate Answered(events: seq<Event>, n: nat, tasks: seq<Task>)
      requires n <= |events|
    {
      && |tasks| == Issued(events, n) && AllOk(tasks)
      && forall d :: 0 <= d < n && !events[d].Result? ==>
           Issued(events, d) < |tasks| && Answers(events[d], tasks[Issued(events, d)])
    }

    /** The books after the first n events: every result of a task issued before it is entered, and no other. */
    ghost predicate Accounted(events: seq<Event>, n: nat, tasks: seq<Task>, before: Ledger, after: Ledger)
      requires n <= |events| && |tasks| == Issued(events, n)
    {
      && Served(before, after, ProcessedBy(events, tasks, n))
      && after.issued == before.issued + |tasks| && after.finds == before.finds + FoundBy(events, n)
      && Routed(before, after)
    }

    lemma AnsweredOk(events: seq<Event>, n: nat, tasks: seq<Task>)
      requires n <= |events| && Answered(events, n, tasks)
      ensures |tasks| == Issued(events, n) && AllOk(tasks)
    {
    }

    lemma NothingHappened(events: seq<Event>, start: Ledger)
      ensures Issued(events, 0) == 0 && Answered(events, 0, []) && Accounted(events, 0, [], start, start)
    {
    }

    lemma {:induction false} RequestAnswered(events: seq<Event>, n: nat, tasks: seq<Task>, task: Task)
      requires n < |events| && Answered(events, n, tasks)
      requires !events[n].Result? && Answers(events[n], task) && TaskOk(cfg, task)
      ensures Answered(events, n + 1, tasks + [task])
    {
      assert Issued(events, n + 1) == |tasks| + 1;
      assert AllOk(tasks + [task]);
      hide TaskOk, AllOk, Answers, Issued;
      forall d: nat | d < n + 1 && !events[d].Result?
        ensures Issued(events, d) <= |tasks| && Answers(events[d], (tasks + [task])[Issued(events, d)])
      {
        AnswerAt(events, n, tasks, task, d);
      }
    }

    lemma {:induction false} AnswerAt(events: seq<Event>, n: nat, tasks: seq<Task>, task: Task, d: nat)
      requires d <= n < |events| && Answered(events, n, tasks) && !events[d].Result?
      requires d == n ==> Answers(events[n], task)
      ensures Issued(events, d) <= |tasks| && Answers(events[d], (tasks + [task])[Issued(events, d)])
    {
      hide TaskOk, AllOk, Answers, Issued;
      assert d < n ==> Issued(events, d) < |tasks|;
    }

    lemma {:induction false} ResultAnswered(events: seq<Event>, n: nat, tasks: seq<Task>)
      requires n < |events| && Answered(events, n, tasks) && events[n].Result?
      ensures Answered(events, n + 1, tasks)
    {
      hide TaskOk, Answers;
    }

    lemma {:induction false} RequestAccounted(events: seq<Event>, n: nat, tasks: seq<Task>, task: Task,
                                              before: Ledger, mid: Ledger)
      requires n < |events| && |tasks| == Issued(events, n) && Accounted(events, n, tasks, before, mid)
      requires !events[n].Result?
      ensures Accounted(events, n + 1, tasks + [task], before, mid.(issued := mid.issued + 1))
    {
      hide UsesGrown, FedBy, MoptTasks, MarkovTasks;
      ProcessedStays(events, tasks, task, n);
      assert ProcessedBy(events, tasks + [task], n + 1) == ProcessedBy(events, tasks, n);
    }

    lemma {:induction false} ResultAccounted(events: seq<Event>, n: nat, tasks: seq<Task>, before: Ledger, mid: Ledger,
                                             after: Ledger)
      requires n < |events| && |tasks| == Issued(events, n) && Accounted(events, n, tasks, before, mid)
      requires events[n].Result?
      requires AllOk(tasks)
      requires if events[n].task < |tasks| then Entered(mid, after, tasks[events[n].task], events[n].found)
               else after == mid
      ensures Accounted(events, n + 1, tasks, before, after)
    {
      assert events[n].task < |tasks| ==> after.issued == mid.issued;
      assert events[n].task < |tasks| ==> after.finds == mid.finds + (if events[n].found then 1 else 0);
      hide Served, Entered, Routed, TaskOk;
      var done := ProcessedBy(events, tasks, n);
      if events[n].task < |tasks| {
        ServedStep(before, mid, after, done, tasks[events[n].task], events[n].found);
        RoutedStep(before, mid, after, tasks[events[n].task], events[n].found);
      } else {
        assert done + [] == done;
      }
    }

    /** A result of an issued task. */
    method ProcessIssued(task: Task, found: bool, now: int, root: real, pull: nat -> Pull)
      requires Valid() && TaskOk(cfg, task)
      modifies `totalResults, `totalFinds, `strayResults, `strayFinds, `moptResults, `markovResults, `otherResults,
               `moptFed, ts, moptNosplice, moptSplice, markovNosplice, markovSplice
      ensures Valid() && Entered(old(Books()), Books(), task, found)
      ensures strayResults == old(strayResults) && strayFinds == old(strayFinds)
    {
      hide *;
      ArmExists(cfg, task);
      Balances();
      ghost var before := Books();
      ProcessResult(task, found, now, root, pull);
      Balances();
      EnteredOnce(before, Books(), task, found);
    }

    /** The books in terms of the run's own counters. */
    lemma Balances()
      requires Valid()
      ensures Books() == Ledger(totalTasks, totalResults, totalFinds, if ts == null then [] else ts.uses,
                                moptFed, moptResults, markovResults)
      ensures ts != null ==> |ts.uses| == |ts.arms| > 0 && ts.arms == Table(cfg.enableEcofuzz)
      ensures ts != null && strayResults == strayFinds == 0 ==>
        Total(ts.uses) == totalResults && Total(ts.finds) == totalFinds
    {
      hide Table, PsoLearner.Valid, MarkovLearner.Valid, Total;
    }

    lemma EnteredOnce(before: Ledger, after: Ledger, task: Task, found: bool)
      requires after.issued == before.issued && after.results == before.results + 1
      requires after.finds == before.finds + (if found then 1 else 0)
      requires before.uses == [] ==> after.uses == []
      requires before.uses != [] ==> Raised(before.uses, after.uses, task.arm, 1)
      requires after.moptCycles == before.moptCycles + (if ToMopt(task) then |task.ops| else 0)
      requires after.moptExecs == before.moptExecs
        + (if !task.analysis && task.useMopt && task.ops != [] && cfg.enableMopt then 1 else 0)
      requires after.markovExecs == before.markovExecs
        + (if !task.analysis && !task.useMopt && task.ops != [] && cfg.enableMarkov then 1 else 0)
      ensures Entered(before, after, task, found)
    {
    }

    /** One event: a request appends a task, the result of an issued task is processed. */
    method Handle(e: Event, tasks0: seq<Task>) returns (tasks: seq<Task>)
      requires Valid() && EventOk(e) && AllOk(tasks0)
      modifies this, ts, moptNosplice, moptSplice, markovNosplice, markovSplice
      ensures Valid() && strayResults == old(strayResults) && strayFinds == old(strayFinds)
      ensures !e.Result? ==>
        && |tasks| == |tasks0| + 1 && tasks == tasks0 + [tasks[|tasks0|]]
        && TaskOk(cfg, tasks[|tasks0|]) && Answers(e, tasks[|tasks0|])
        && Books() == old(Books()).(issued := old(Books()).issued + 1)
      ensures e.Result? ==>
        && tasks == tasks0
        && if e.task < |tasks0| then Entered(old(Books()), Books(), tasks0[e.task], e.found)
           else Books() == old(Books())
    {
      hide Table, ThompsonSampler.Valid, PsoLearner.Valid, MarkovLearner.Valid, Total, TaskOk, LuckOk;
      hide Entered, Balanced, Wired, MoptExecs, MoptCycles, MarkovExecs;
      tasks := tasks0;
      match e
      case Worker(allow, luck) =>
        var task := GenerateWorkerTask(allow, luck);
        tasks := tasks + [task];
      case Explorer(analysisProb, luck) =>
        var task := GenerateExplorerTask(analysisProb, luck);
        tasks := tasks + [task];
      case Result(k, found, now, root, pull) =>
        if k < |tasks| {
          ProcessIssued(tasks[k], found, now, root, pull);
        }
    }

    /** Headline: a whole run. Workers and explorers ask for tasks and report results in any order, any number of
        times. One well-formed task is issued for each request, of the kind requested; a result is processed exactly
        when its task was issued before, and at the end all books agree with the processed tasks and the finds. */
    method Serve(events: seq<Event>) returns (tasks: seq<Task>)
      requires Valid() && strayResults == strayFinds == 0
      requires forall e :: 0 <= e < |events| ==> EventOk(events[e])
      modifies this, ts, moptNosplice, moptSplice, markovNosplice, markovSplice
      ensures Valid() && strayResults == strayFinds == 0
      ensures Answered(events, |events|, tasks) && Accounted(events, |events|, tasks, old(Books()), Books())
      ensures ts != null ==> Total(ts.uses) == totalResults && Total(ts.finds) == totalFinds
    {
      hide *;
      tasks := [];
      ghost var start := Books();
      NothingHappened(events, start);
      for e := 0 to |events|
        invariant Valid() && strayResults == strayFinds == 0
        invariant |tasks| == Issued(events, e) && Answered(events, e, tasks)
        invariant Accounted(events, e, tasks, start, Books())
      {
        AnsweredOk(events, e, tasks);
        ghost var mid := Books();
        ghost var before := tasks;
        tasks := Handle(events[e], tasks);
        if events[e].Result? {
          ResultAnswered(events, e, tasks);
          AnsweredOk(events, e + 1, tasks);
          ResultAccounted(events, e, tasks, start, mid, Books());
        } else {
          RequestAnswered(events, e, before, tasks[|before|]);
          AnsweredOk(events, e + 1, tasks);
          RequestAccounted(events, e, before, tasks[|before|], start, mid);
        }
      }
      AnsweredOk(events, |events|, tasks);
      Balances();
    }
  }

  /** What a learner has booked: tasks, results, finds, uses per arm, cycles of the MOpt learners, and executions of
      the MOpt and of the Markov learners. */
  datatype Ledger = Ledger(issued: nat, results: nat, finds: nat, uses: seq<nat>,
                           moptCycles: nat, moptExecs: nat, markovExecs: nat)

  /** How many tasks the first n events ask for. */
  ghost function Issued(events: seq<Event>, n: nat): nat
    requires n <= |events|
  {
    if n == 0 then 0 else Issued(events, n - 1) + (if events[n - 1].Result? then 0 else 1)
  }

  /** Whether event n is the result of a task issued before it. */
  ghost predicate Arrives(events: seq<Event>, n: nat)
    requires n < |events|
  {
    events[n].Result? && events[n].task < Issued(events, n)
  }

  /** The tasks whose results are among the first n events, in the order of the results. */
  ghost function ProcessedBy(events: seq<Event>, tasks: seq<Task>, n: nat): seq<Task>
    requires n <= |events| && Issued(events, n) <= |tasks|
  {
    if n == 0 then []
    else
      ProcessedBy(events, tasks, n - 1) + (if Arrives(events, n - 1) then [tasks[events[n - 1].task]] else [])
  }

  /** How many of these results report a find. */
  ghost function FoundBy(events: seq<Event>, n: nat): nat
    requires n <= |events|
  {
    if n == 0 then 0
    else FoundBy(events, n - 1) + (if Arrives(events, n - 1) && events[n - 1].found then 1 else 0)
  }

  /** How many of the processed tasks have the arm. */
  ghost function UsesOf(processed: seq<Task>, arm: nat): nat {
    if |processed| == 0 then 0
    else UsesOf(processed[..|processed| - 1], arm) + (if processed[|processed| - 1].arm == arm then 1 else 0)
  }

  /** The uses of the first i arms that mutate, with MOpt or without. */
  ghost function UsesOn(arms: seq<ConfigArm>, uses: seq<nat>, mopt: bool, i: nat): nat
    requires i <= |arms| == |uses|
  {
    if i == 0 then 0
    else
      var arm := arms[i - 1];
      UsesOn(arms, uses, mopt, i - 1) + (if !arm.analysis && arm.useMopt == mopt then uses[i - 1] else 0)
  }

  lemma {:induction false} UsesOnRaised(arms: seq<ConfigArm>, uses: seq<nat>, a: nat, mopt: bool, i: nat)
    requires i <= |arms| == |uses| && a < |arms|
    ensures UsesOn(arms, uses[a := uses[a] + 1], mopt, i)
            == UsesOn(arms, uses, mopt, i) + (if a < i && !arms[a].analysis && arms[a].useMopt == mopt then 1 else 0)
  {
    if i == 0 {
    } else {
      UsesOnRaised(arms, uses, a, mopt, i - 1);
    }
  }

  /** A task is of the kind that the event asks for. */
  ghost predicate Answers(e: Event, task: Task) {
    match e
    case Worker(allow, _) => !task.exploration && (task.analysis ==> allow)
    case Explorer(analysisProb, luck) =>
      task.exploration && (task.analysis <==> luck.analysisRoll < Clamp(analysisProb, 0.0, 1.0))
    case Result(_, _, _, _, _) => false
  }

  /** Issuing one more task leaves the processed ones alone. */
  lemma {:induction false} ProcessedStays(events: seq<Event>, tasks: seq<Task>, task: Task, n: nat)
    requires n <= |events| && Issued(events, n) <= |tasks|
    ensures ProcessedBy(events, tasks + [task], n) == ProcessedBy(events, tasks, n)
  {
    if n == 0 {
    } else {
      ProcessedStays(events, tasks, task, n - 1);
    }
  }

  lemma ArmExists(cfg: Config, task: Task)
    requires TaskOk(cfg, task)
    ensures task.arm < |Table(cfg.enableEcofuzz)|
  {
  }

  /** What happens to a learner: a worker or an explorer asks for a task, or the result of an earlier task arrives. */
  datatype Event =
    | Worker(allow: bool, luck: Luck)
    | Explorer(analysisProb: real, luck: Luck)
    | Result(task: nat, found: bool, now: int, root: real, pull: nat -> Pull)

  ghost predicate EventOk(e: Event) {
    match e
    case Worker(_, luck) => LuckOk(luck)
    case Explorer(_, luck) => true
    case Result(_, _, _, _, _) => true
  }
}
