/** Layer 1 of the unified learner: Thompson sampling over configuration arms, with decayed windows per arm and
    recovery from stagnation. Random draws, the clock and the square root in the adaptive decay are inputs. */
module ThompsonLayer {
  import opened BetaPosterior
  import opened ConfigArms
  import opened Reals
  import opened Sums

  const EXPLORE_BOOST: real := 0.3

  /** More than half of all uses, in the integer division of the code. */
  ghost predicate Dominant(uses: seq<nat>, i: nat)
    requires i < |uses|
  {
    uses[i] > Total(uses) / 2
  }

  /** An arm dominates exactly when it has more uses than all others together. */
  lemma {:induction false} DominantIsMajority(uses: seq<nat>, i: nat)
    requires i < |uses|
    ensures var others: seq<nat> := uses[i := 0]; Dominant(uses, i) <==> uses[i] > Total(others)
  {
    TotalUpdate(uses, i, 0);
  }

  lemma {:induction false} PairWithinTotal(uses: seq<nat>, i: nat, j: nat)
    requires i < |uses| && j < |uses| && i != j
    ensures uses[i] + uses[j] <= Total(uses)
  {
    var others: seq<nat> := uses[i := 0];
    TotalUpdate(uses, i, 0);
    TotalAtLeast(others, j);
  }

  /** At most one arm dominates, and it is the arm with the most uses. */
  lemma {:induction false} OneDominant(uses: seq<nat>, top: nat)
    requires top < |uses| && forall k :: 0 <= k < |uses| ==> uses[k] <= uses[top]
    ensures forall k :: 0 <= k < |uses| ==> (Dominant(uses, k) <==> k == top && Dominant(uses, top))
  {
    forall k | 0 <= k < |uses| && k != top ensures !Dominant(uses, k) {
      PairWithinTotal(uses, k, top);
    }
  }

  /** Finds per execution since the start; the finds are those since the last check. */
  function FindRate(finds: int, execs: int): real {
    if execs > 0 then finds as real / execs as real else 0.0
  }

  /** Fewer finds than the threshold asks of that many executions. */
  ghost predicate FewFinds(finds: int, execs: int, threshold: real) {
    finds as real < threshold * execs as real
  }

  lemma RateBelow(finds: int, execs: int, threshold: real)
    requires execs > 0
    ensures FindRate(finds, execs) < threshold <==> FewFinds(finds, execs, threshold)
  {
    var rate, n := FindRate(finds, execs), execs as real;
    DivMul(finds as real, n);
    if threshold <= rate {
      MulLe(threshold, rate, n);
    } else {
      assert (threshold - rate) * n > 0.0;
    }
  }

  /** The boost halves, and drops to zero below one percent. */
  function Relaxed(boost: real): (r: real)
    ensures 0.0 <= boost ==> 0.0 <= r <= boost
  {
    if boost > 0.0 then (if boost * 0.5 < 0.01 then 0.0 else boost * 0.5) else boost
  }

  /** The full boost is gone after five checks without stagnation, and not before. */
  lemma BoostDiesOut(boost: real)
    requires 0.0 <= boost <= EXPLORE_BOOST
    ensures Relaxed(Relaxed(Relaxed(Relaxed(Relaxed(boost))))) == 0.0
    ensures Relaxed(Relaxed(Relaxed(Relaxed(EXPLORE_BOOST)))) == EXPLORE_BOOST / 16.0
    ensures Relaxed(boost) == (if boost < 0.02 then 0.0 else boost / 2.0)
  {
  }

  function Fails(execs: nat, finds: nat): nat {
    if execs >= finds then execs - finds else 0
  }

  function Allowed(arm: ConfigArm, allowAnalysis: bool): bool {
    allowAnalysis || !arm.analysis
  }

  /** The uses of the allowed arms among the first i. */
  ghost function AllowedUses(arms: seq<ConfigArm>, uses: seq<nat>, allow: bool, i: nat): nat
    requires i <= |arms| == |uses|
  {
    if i == 0 then 0
    else AllowedUses(arms, uses, allow, i - 1) + (if Allowed(arms[i - 1], allow) then uses[i - 1] else 0)
  }

  ghost function AllowedCount(arms: seq<ConfigArm>, allow: bool, i: nat): nat
    requires i <= |arms|
  {
    if i == 0 then 0 else AllowedCount(arms, allow, i - 1) + (if Allowed(arms[i - 1], allow) then 1 else 0)
  }

  ghost function AverageUses(arms: seq<ConfigArm>, uses: seq<nat>, allow: bool): nat
    requires |arms| == |uses|
  {
    var count := AllowedCount(arms, allow, |arms|);
    if count > 0 then AllowedUses(arms, uses, allow, |arms|) / count else 0
  }

  /** The allowed arms among the first i whose uses do not exceed the limit, in order. */
  ghost function Underused(arms: seq<ConfigArm>, uses: seq<nat>, allow: bool, limit: nat, i: nat): (c: seq<nat>)
    requires i <= |arms| == |uses|
    ensures forall k :: 0 <= k < |c| ==> c[k] < i && Allowed(arms[c[k]], allow) && uses[c[k]] <= limit
  {
    if i == 0 then []
    else
      Underused(arms, uses, allow, limit, i - 1)
      + (if Allowed(arms[i - 1], allow) && uses[i - 1] <= limit then [i - 1] else [])
  }

  /** No such arm is missing ... */
  lemma {:induction false} UnderusedHas(arms: seq<ConfigArm>, uses: seq<nat>, allow: bool, limit: nat, i: nat, a: nat)
    requires i <= |arms| == |uses|
    ensures a in Underused(arms, uses, allow, limit, i) <==> a < i && (allow || !arms[a].analysis) && uses[a] <= limit
  {
    if i == 0 {
    } else {
      UnderusedHas(arms, uses, allow, limit, i - 1, a);
      var before := Underused(arms, uses, allow, limit, i - 1);
      var added := if Allowed(arms[i - 1], allow) && uses[i - 1] <= limit then [i - 1] else [];
      assert a in before + added <==> a in before || a in added;
    }
  }

  ghost predicate Rising(s: seq<nat>) {
    forall k, l :: 0 <= k < l < |s| ==> s[k] < s[l]
  }

  /** ... and none is listed twice. */
  lemma {:induction false} UnderusedOrdered(arms: seq<ConfigArm>, uses: seq<nat>, allow: bool, limit: nat, i: nat)
    requires i <= |arms| == |uses|
    ensures Rising(Underused(arms, uses, allow, limit, i))
  {
    if i == 0 {
    } else {
      UnderusedOrdered(arms, uses, allow, limit, i - 1);
      assert Rising(Underused(arms, uses, allow, limit, i - 1) + [i - 1]);
    }
  }

  lemma {:induction false} AllAboveLimit(arms: seq<ConfigArm>, uses: seq<nat>, allow: bool, limit: nat, i: nat)
    requires i <= |arms| == |uses| && Underused(arms, uses, allow, limit, i) == []
    ensures AllowedUses(arms, uses, allow, i) >= AllowedCount(arms, allow, i) * (limit + 1)
  {
    if i == 0 {
    } else {
      AllAboveLimit(arms, uses, allow, limit, i - 1);
      OneMore(AllowedCount(arms, allow, i - 1), limit + 1);
    }
  }

  lemma OneMore(count: nat, each: nat)
    ensures (count + 1) * each == count * each + each
  {
  }

  lemma FloorBelow(sum: nat, count: nat)
    requires count > 0
    ensures sum / count * count <= sum < count * (sum / count + 1)
  {
    assert sum == count * (sum / count) + sum % count;
  }

  /** The first arms are ordinary ones, so all of them are allowed. */
  lemma {:induction false} AllowedPart(arms: seq<ConfigArm>, uses: seq<nat>, allow: bool, i: nat)
    requires i <= |arms| == |uses| && forall k :: 0 <= k < i ==> allow || !arms[k].analysis
    ensures AllowedCount(arms, allow, i) == i && AllowedUses(arms, uses, allow, i) == Total(uses[..i])
  {
    if i == 0 {
    } else {
      AllowedPart(arms, uses, allow, i - 1);
      TotalStep(uses, i - 1);
    }
  }

  /** The average is the rounded mean over all arms, or over all but the last, the analysis arm. */
  lemma {:induction false} AverageIsMean(arms: seq<ConfigArm>, uses: seq<nat>, allow: bool)
    requires Numbered(arms) && |uses| == |arms|
    ensures var average, last := AverageUses(arms, uses, allow), |arms| - 1;
      var sum, count := if allow then Total(uses) else Total(uses[..last]), if allow then |arms| else last;
      average * count <= sum < (average + 1) * count
  {
    var last := |arms| - 1;
    AllowedPart(arms, uses, allow, last);
    assert uses[..|arms|] == uses;
    TotalStep(uses, last);
    FloorBelow(AllowedUses(arms, uses, allow, |arms|), AllowedCount(arms, allow, |arms|));
  }

  lemma {:induction false} SomeAllowed(arms: seq<ConfigArm>, allow: bool, i: nat)
    requires Numbered(arms) && 0 < i <= |arms|
    ensures AllowedCount(arms, allow, i) > 0
  {
    if i <= 1 {
    } else {
      SomeAllowed(arms, allow, i - 1);
    }
  }

  /** Some allowed arm is never above the average, so the exploration list is never empty. */
  lemma {:induction false} SomeArmUnderused(arms: seq<ConfigArm>, uses: seq<nat>, allow: bool)
    requires Numbered(arms) && |uses| == |arms|
    ensures |Underused(arms, uses, allow, AverageUses(arms, uses, allow), |arms|)| > 0
  {
    hide AllowedUses, AllowedCount, Underused;
    var sum, count := AllowedUses(arms, uses, allow, |arms|), AllowedCount(arms, allow, |arms|);
    SomeAllowed(arms, allow, |arms|);
    var limit := AverageUses(arms, uses, allow);
    assert sum < count * (limit + 1) by {
      FloorBelow(sum, count);
    }
    if Underused(arms, uses, allow, limit, |arms|) == [] {
      AllAboveLimit(arms, uses, allow, limit, |arms|);
    }
  }

  /** One arm's books: what was flushed and what is still open make up its uses and finds. */
  predicate BooksOk(uses: nat, finds: nat, flushedExecs: nat, flushedFinds: nat, windowExecs: nat, windowFinds: nat) {
    && uses == flushedExecs + windowExecs && finds == flushedFinds + windowFinds
    && flushedFinds <= flushedExecs && windowFinds <= windowExecs
  }

  /** Handing the window over keeps the books of an arm. */
  lemma FlushedOk(uses: nat, finds: nat, flushedExecs: nat, flushedFinds: nat, windowExecs: nat, windowFinds: nat)
    requires BooksOk(uses, finds, flushedExecs, flushedFinds, windowExecs, windowFinds)
    ensures BooksOk(uses, finds, flushedExecs + windowExecs, flushedFinds + windowFinds, 0, 0)
  {
  }

  /** What a feedback makes of the posteriors, the boost and the reset counter: nothing between checks, a fading
      boost at a check, and under stagnation the full boost and a softened dominant arm. */
  ghost predicate Recovery(check: bool, stagnating: bool, uses: seq<nat>, next: seq<Posterior>,
                           boost0: real, resets0: nat, posterior: seq<Posterior>, boost: real, resets: nat)
  {
    |next| == |posterior| == |uses| &&
    if check && stagnating then
      boost == EXPLORE_BOOST && resets == resets0 + 1 && forall i :: 0 <= i < |uses| ==>
        posterior[i] == if Dominant(uses, i) then Softened(next[i]) else next[i]
    else
      posterior == next && resets == resets0 && boost == if check then Relaxed(boost0) else boost0
  }

  class ThompsonSampler {
    const arms: seq<ConfigArm>
    const decay: real
    const updatePeriod: nat
    const timePeriod: int
    const minSamples: nat
    const stagnationWindow: int
    const stagnationThreshold: real

    var posterior: seq<Posterior>
    var uses: seq<nat>
    var finds: seq<nat>
    var windowExecs: seq<nat>
    var windowFinds: seq<nat>
    var lastUpdate: seq<int>
    var totalExecs: nat
    var timeTriggered: nat
    var checkTime: int
    var checkFinds: nat
    var boost: real
    var resets: nat

    /** What the closed windows handed to each posterior. */
    ghost var flushedExecs: seq<nat>
    ghost var flushedFinds: seq<nat>

    function Period(): nat {
      if updatePeriod < 1 then 1 else updatePeriod
    }

    ghost predicate Sized()
      reads this
    {
      && Numbered(arms)
      && |posterior| == |uses| == |finds| == |windowExecs| == |windowFinds| == |lastUpdate| == |arms|
      && |flushedExecs| == |flushedFinds| == |arms|
    }

    ghost predicate AllProper()
      reads this
    {
      forall i :: 0 <= i < |posterior| ==> Proper(posterior[i])
    }

    ghost predicate Booked()
      requires Sized()
      reads this
    {
      && (forall i :: 0 <= i < |arms| ==>
            BooksOk(uses[i], finds[i], flushedExecs[i], flushedFinds[i], windowExecs[i], windowFinds[i]))
      && Total(uses) == totalExecs
      && checkFinds <= Total(finds)
    }

    ghost predicate WindowsOpen()
      requires Sized()
      reads this
    {
      forall i :: 0 <= i < |arms| ==> windowExecs[i] < Period()
    }

    ghost predicate Valid()
      reads this
    {
      Sized() && AllProper() && Booked() && WindowsOpen() && 0.0 <= boost <= EXPLORE_BOOST
    }

    constructor (enableEcofuzz: bool, decay: real, updatePeriod: nat, timePeriod: int, minSamples: nat,
                 stagnationWindow: int, stagnationThreshold: real, now: int)
      ensures this.decay == decay && this.updatePeriod == updatePeriod && this.timePeriod == timePeriod
      ensures this.minSamples == minSamples && this.stagnationWindow == stagnationWindow
      ensures this.stagnationThreshold == stagnationThreshold
      ensures Valid() && arms == Table(enableEcofuzz)
      ensures posterior == seq(|arms|, i => UNIFORM)
      ensures uses == finds == windowExecs == windowFinds == seq(|arms|, i => 0)
      ensures lastUpdate == seq(|arms|, i => now) && checkTime == now
      ensures totalExecs == timeTriggered == checkFinds == resets == 0 && boost == 0.0
    {
      this.decay, this.updatePeriod, this.timePeriod, this.minSamples := decay, updatePeriod, timePeriod, minSamples;
      this.stagnationWindow, this.stagnationThreshold := stagnationWindow, stagnationThreshold;
      var table := GetConfigArms(enableEcofuzz);
      arms := table;
      posterior := seq(|table|, i => UNIFORM);
      uses, finds := seq(|table|, i => 0), seq(|table|, i => 0);
      windowExecs, windowFinds := seq(|table|, i => 0), seq(|table|, i => 0);
      flushedExecs, flushedFinds := seq(|table|, i => 0), seq(|table|, i => 0);
      lastUpdate := seq(|table|, i => now);
      totalExecs, timeTriggered, checkFinds, resets := 0, 0, 0, 0;
      checkTime, boost := now, 0.0;
      new;
      TotalZero(uses);
    }

    /** The score of an arm: its posterior sample, plus a bonus that shrinks with its uses. The sample and the
        bonus sqrt(2 ln N / n) are inputs. */
    function Score(i: nat, sample: real, ucb: real): real
      requires i < |uses|
      reads this
    {
      var bonus := if totalExecs > 0 && uses[i] > 0 then ucb else if uses[i] == 0 then 10.0 else 0.0;
      sample + 0.1 * bonus
    }

    /** An unused arm has the bonus of ten already in its score; a used one has a tenth of its own bonus. Whether the
        unused arm is ahead is decided by the two samples and how far the other's bonus is from ten. */
    lemma UnusedArmsLead(i: nat, j: nat, samples: seq<real>, ucbs: seq<real>)
      requires Valid() && i < |arms| && j < |arms| && |samples| == |ucbs| == |arms|
      requires uses[i] == 0 && uses[j] > 0
      ensures Score(i, samples[i], ucbs[i]) - Score(j, samples[j], ucbs[j])
              == samples[i] - samples[j] + (10.0 - ucbs[j]) / 10.0
      ensures 0.0 < samples[i] && samples[j] < 1.0 && ucbs[j] <= 0.0 ==>
        Score(i, samples[i], ucbs[i]) > Score(j, samples[j], ucbs[j])
    {
      TotalAtLeast(uses, j);
    }

    /** Between two used arms a larger bonus counts a tenth of a larger sample. */
    lemma BonusCounts(i: nat, j: nat, samples: seq<real>, ucbs: seq<real>)
      requires Valid() && i < |arms| && j < |arms| && |samples| == |ucbs| == |arms|
      requires uses[i] > 0 && uses[j] > 0
      ensures Score(i, samples[i], ucbs[i]) - Score(j, samples[j], ucbs[j])
              == samples[i] - samples[j] + (ucbs[i] - ucbs[j]) / 10.0
    {
      TotalAtLeast(uses, i);
    }

    ghost predicate Boosted(roll: real)
      reads this
    {
      boost > 0.0 && roll < boost
    }

    /** Under a boost an arm used no more than the average is drawn; otherwise the first best score wins. Without
        permission the analysis arm is never selected. */
    method SelectArm(allow: bool, roll: real, draw: nat, samples: seq<real>, ucbs: seq<real>) returns (arm: nat)
      requires Valid() && |samples| == |ucbs| == |arms|
      ensures arm < |arms| && Allowed(arms[arm], allow)
      ensures Boosted(roll) ==>
        var c := Underused(arms, uses, allow, AverageUses(arms, uses, allow), |arms|);
        |c| > 0 && arm == c[draw % |c|] && uses[arm] <= AverageUses(arms, uses, allow)
      ensures !Boosted(roll) ==> forall i :: 0 <= i < |arms| && Allowed(arms[i], allow) ==>
        && Score(i, samples[i], ucbs[i]) <= Score(arm, samples[arm], ucbs[arm])
        && (i < arm ==> Score(i, samples[i], ucbs[i]) < Score(arm, samples[arm], ucbs[arm]))
    {
      if boost > 0.0 && roll < boost {
        arm := SelectUnderused(allow, draw);
      } else {
        arm := SelectBest(allow, samples, ucbs);
      }
    }

    method AverageAllowed(allow: bool) returns (average: nat)
      requires Sized()
      ensures average == AverageUses(arms, uses, allow)
    {
      hide Numbered;
      var sum: nat := 0;
      var count: nat := 0;
      for i := 0 to |arms|
        invariant sum == AllowedUses(arms, uses, allow, i) && count == AllowedCount(arms, allow, i)
      {
        if Allowed(arms[i], allow) {
          sum := sum + uses[i];
          count := count + 1;
        }
      }
      average := if count > 0 then sum / count else 0;
    }

    method SelectUnderused(allow: bool, draw: nat) returns (arm: nat)
      requires Sized()
      ensures var c := Underused(arms, uses, allow, AverageUses(arms, uses, allow), |arms|);
        |c| > 0 && arm == c[draw % |c|] && uses[arm] <= AverageUses(arms, uses, allow)
      ensures arm < |arms| && Allowed(arms[arm], allow)
    {
      hide Numbered, AverageUses;
      var average := AverageAllowed(allow);
      var candidates := [];
      for i := 0 to |arms|
        invariant candidates == Underused(arms, uses, allow, average, i)
      {
        if Allowed(arms[i], allow) && uses[i] <= average {
          candidates := candidates + [i];
        }
      }
      SomeArmUnderused(arms, uses, allow);
      arm := candidates[draw % |candidates|];
    }

    method SelectBest(allow: bool, samples: seq<real>, ucbs: seq<real>) returns (arm: nat)
      requires Sized() && |samples| == |ucbs| == |arms|
      ensures arm < |arms| && Allowed(arms[arm], allow)
      ensures forall i :: 0 <= i < |arms| && Allowed(arms[i], allow) ==>
        && Score(i, samples[i], ucbs[i]) <= Score(arm, samples[arm], ucbs[arm])
        && (i < arm ==> Score(i, samples[i], ucbs[i]) < Score(arm, samples[arm], ucbs[arm]))
    {
      var best := -1.0;
      arm := 0;
      var found := false;
      for i := 0 to |arms|
        invariant i > 0 ==> found
        invariant found ==> arm < i && Allowed(arms[arm], allow) && best == Score(arm, samples[arm], ucbs[arm])
        invariant forall k :: 0 <= k < i && Allowed(arms[k], allow) ==>
          found && Score(k, samples[k], ucbs[k]) <= best && (k < arm ==> Score(k, samples[k], ucbs[k]) < best)
      {
        if Allowed(arms[i], allow) {
          var combined := Score(i, samples[i], ucbs[i]);
          if !found || combined > best {
            best := combined;
            arm := i;
            found := true;
          }
        }
      }
    }

    /** The counters of one use. */
    method RecordUse(arm: nat, found: bool)
      requires Sized() && Booked() && arm < |arms|
      modifies `uses, `finds, `totalExecs, `windowExecs, `windowFinds
      ensures Sized() && Booked()
      ensures uses == old(uses)[arm := old(uses[arm]) + 1] && totalExecs == old(totalExecs) + 1
      ensures windowExecs == old(windowExecs)[arm := old(windowExecs[arm]) + 1]
      ensures finds == old(finds)[arm := old(finds[arm]) + (if found then 1 else 0)]
      ensures windowFinds == old(windowFinds)[arm := old(windowFinds[arm]) + (if found then 1 else 0)]
    {
      hide Numbered, Total;
      TotalUpdate(uses, arm, uses[arm] + 1);
      TotalUpdate(finds, arm, finds[arm] + (if found then 1 else 0));
      uses := uses[arm := uses[arm] + 1];
      if found {
        finds := finds[arm := finds[arm] + 1];
      }
      totalExecs := totalExecs + 1;
      windowExecs := windowExecs[arm := windowExecs[arm] + 1];
      if found {
        windowFinds := windowFinds[arm := windowFinds[arm] + 1];
      }
    }

    predicate ExecTrigger(arm: nat)
      requires arm < |windowExecs|
      reads this
    {
      windowExecs[arm] >= Period()
    }

    predicate TimeTrigger(arm: nat, now: int)
      requires arm < |windowExecs| && arm < |lastUpdate|
      reads this
    {
      now - lastUpdate[arm] >= timePeriod && windowExecs[arm] >= minSamples
    }

    /** A window that only the clock closes trusts its history less; root stands for the square root of the share
        of the period that was filled. */
    function EffectiveDecay(arm: nat, root: real): real
      requires arm < |windowExecs|
      reads this
    {
      if ExecTrigger(arm) then decay else decay * Min(1.0, root)
    }

    /** Hands a finished window to the arm's posterior and opens the next one. */
    method CloseWindow(arm: nat, now: int, root: real)
      requires Sized() && AllProper() && Booked() && arm < |arms|
      modifies `posterior, `windowExecs, `windowFinds, `lastUpdate, `timeTriggered, `flushedExecs, `flushedFinds
      ensures Sized() && AllProper() && Booked()
      ensures if old(ExecTrigger(arm) || TimeTrigger(arm, now))
        then posterior == old(posterior)[arm := Updated(old(posterior[arm]), old(windowFinds[arm]),
                            old(Fails(windowExecs[arm], windowFinds[arm])), old(EffectiveDecay(arm, root)))]
             && windowExecs == old(windowExecs)[arm := 0] && windowFinds == old(windowFinds)[arm := 0]
             && lastUpdate == old(lastUpdate)[arm := now]
             && flushedExecs == old(flushedExecs)[arm := old(flushedExecs[arm] + windowExecs[arm])]
             && flushedFinds == old(flushedFinds)[arm := old(flushedFinds[arm] + windowFinds[arm])]
             && timeTriggered == old(timeTriggered) + (if old(ExecTrigger(arm)) then 0 else 1)
        else posterior == old(posterior) && windowExecs == old(windowExecs) && windowFinds == old(windowFinds)
             && lastUpdate == old(lastUpdate) && flushedExecs == old(flushedExecs)
             && flushedFinds == old(flushedFinds) && timeTriggered == old(timeTriggered)
    {
      hide Numbered, Updated, Total, Proper, BooksOk;
      var execTrigger := windowExecs[arm] >= Period();
      var timeTrigger := now - lastUpdate[arm] >= timePeriod && windowExecs[arm] >= minSamples;
      if execTrigger || timeTrigger {
        var effectiveDecay := decay;
        if timeTrigger && !execTrigger {
          effectiveDecay := decay * Min(1.0, root);
          timeTriggered := timeTriggered + 1;
        }
        FlushWindow(arm, now, effectiveDecay);
      }
    }

    method FlushWindow(arm: nat, now: int, effectiveDecay: real)
      requires Sized() && AllProper() && Booked() && arm < |arms|
      modifies `posterior, `windowExecs, `windowFinds, `lastUpdate, `flushedExecs, `flushedFinds
      ensures Sized() && AllProper() && Booked()
      ensures posterior == old(posterior)[arm := Updated(old(posterior[arm]), old(windowFinds[arm]),
                old(Fails(windowExecs[arm], windowFinds[arm])), effectiveDecay)]
      ensures windowExecs == old(windowExecs)[arm := 0] && windowFinds == old(windowFinds)[arm := 0]
      ensures lastUpdate == old(lastUpdate)[arm := now]
      ensures flushedExecs == old(flushedExecs)[arm := old(flushedExecs[arm] + windowExecs[arm])]
      ensures flushedFinds == old(flushedFinds)[arm := old(flushedFinds[arm] + windowFinds[arm])]
    {
      hide Numbered, Updated, Total, Proper, BooksOk;
      var wf, we := windowFinds[arm], windowExecs[arm];
      var wfail := Fails(we, wf);
      UpdateWindow(arm, wf, wfail, effectiveDecay);
      FlushedOk(uses[arm], finds[arm], flushedExecs[arm], flushedFinds[arm], we, wf);
      flushedExecs := flushedExecs[arm := flushedExecs[arm] + we];
      flushedFinds := flushedFinds[arm := flushedFinds[arm] + wf];
      windowExecs := windowExecs[arm := 0];
      windowFinds := windowFinds[arm := 0];
      lastUpdate := lastUpdate[arm := now];
    }

    method UpdateWindow(arm: nat, wf: nat, wfail: nat, effectiveDecay: real)
      requires arm < |posterior|
      modifies `posterior
      ensures posterior == old(posterior)[arm := Updated(old(posterior[arm]), wf, wfail, effectiveDecay)]
      ensures Proper(posterior[arm])
    {
      hide Faded;
      var a := AtLeastMin(Faded(posterior[arm].alpha, wf, effectiveDecay));
      var b := AtLeastMin(Faded(posterior[arm].beta, wfail, effectiveDecay));
      var total := a + b;
      var q := Posterior(a, b);
      if total > MAX_SUM {
        var scale := MAX_SUM / total;
        q := Posterior(a * scale, b * scale);
      }
      assert q == Updated(posterior[arm], wf, wfail, effectiveDecay);
      UpdatedIsProper(posterior[arm], wf, wfail, effectiveDecay);
      posterior := posterior[arm := q];
    }

    /** Stagnation boosts exploration and softens the dominant arm, if there is one. */
    method TriggerStagnationRecovery()
      requires Sized() && AllProper()
      modifies `posterior, `boost, `resets
      ensures Sized() && AllProper()
      ensures boost == EXPLORE_BOOST && resets == old(resets) + 1
      ensures forall i :: 0 <= i < |arms| ==>
        posterior[i] == if Dominant(uses, i) then Softened(old(posterior)[i]) else old(posterior)[i]
    {
      resets := resets + 1;
      boost := EXPLORE_BOOST;
      var dominant: nat := 0;
      var maxUses: nat := 0;
      var totalUses: nat := 0;
      for i := 0 to |arms|
        invariant posterior == old(posterior) && boost == EXPLORE_BOOST && resets == old(resets) + 1
        invariant totalUses == Total(uses[..i])
        invariant dominant < |arms| && maxUses <= uses[dominant] && (maxUses > 0 ==> maxUses == uses[dominant])
        invariant forall k :: 0 <= k < i ==> uses[k] <= maxUses
      {
        TotalStep(uses, i);
        totalUses := totalUses + uses[i];
        if uses[i] > maxUses {
          maxUses := uses[i];
          dominant := i;
        }
      }
      assert uses[..|arms|] == uses;
      TotalAtLeast(uses, dominant);
      OneDominant(uses, dominant);
      if totalUses > 0 && maxUses > totalUses / 2 {
        SofteningMovesTowardsHalf(posterior[dominant]);
        posterior := posterior[dominant := Softened(posterior[dominant])];
      }
    }

    /** Few finds since the last check, measured against all executions so far. */
    ghost predicate Stagnating()
      reads this
    {
      FewFinds(Total(finds) - checkFinds, totalExecs, stagnationThreshold) && totalExecs > minSamples * 10
    }

    method CheckAndHandleStagnation(now: int)
      requires Sized() && AllProper() && checkFinds <= Total(finds) && 0.0 <= boost <= EXPLORE_BOOST
      modifies `posterior, `boost, `resets, `checkTime, `checkFinds
      ensures Sized() && AllProper() && 0.0 <= boost <= EXPLORE_BOOST
      ensures checkTime == now && checkFinds == Total(finds)
      ensures if old(Stagnating())
        then boost == EXPLORE_BOOST && resets == old(resets) + 1
             && forall i :: 0 <= i < |arms| ==>
                  posterior[i] == if Dominant(uses, i) then Softened(old(posterior)[i]) else old(posterior)[i]
        else boost == Relaxed(old(boost)) && resets == old(resets) && posterior == old(posterior)
    {
      hide FewFinds;
      var currentFinds: nat := 0;
      for i := 0 to |arms|
        invariant posterior == old(posterior) && boost == old(boost) && resets == old(resets)
        invariant checkFinds == old(checkFinds) && currentFinds == Total(finds[..i])
      {
        TotalStep(finds, i);
        currentFinds := currentFinds + finds[i];
      }
      assert finds[..|arms|] == finds;
      var findsDelta := currentFinds - checkFinds;
      var findRate := FindRate(findsDelta, totalExecs);
      if totalExecs > 0 {
        RateBelow(findsDelta, totalExecs, stagnationThreshold);
      }
      if findRate < stagnationThreshold && totalExecs > minSamples * 10 {
        TriggerStagnationRecovery();
      } else {
        var current := boost;
        if current > 0.0 {
          boost := current * 0.5;
          if current * 0.5 < 0.01 {
            boost := 0.0;
          }
        }
      }
      checkTime := now;
      checkFinds := currentFinds;
    }

    /** The periodic part of a feedback. */
    method MaybeRecover(now: int)
      requires Valid()
      modifies `posterior, `boost, `resets, `checkTime, `checkFinds
      ensures Valid()
      ensures checkTime == if now - old(checkTime) >= stagnationWindow then now else old(checkTime)
      ensures checkFinds == if now - old(checkTime) >= stagnationWindow then Total(finds) else old(checkFinds)
      ensures Recovery(now - old(checkTime) >= stagnationWindow, old(Stagnating()), uses, old(posterior), old(boost),
                       old(resets), posterior, boost, resets)
    {
      if now - checkTime >= stagnationWindow {
        CheckAndHandleStagnation(now);
      }
    }

    /** The counting half of a feedback: the use is booked, and a full window goes to the posterior. */
    method CountUse(arm: nat, found: bool, now: int, root: real)
      requires Valid() && arm < |arms|
      modifies `posterior, `uses, `finds, `totalExecs, `windowExecs, `windowFinds, `lastUpdate, `timeTriggered,
               `flushedExecs, `flushedFinds
      ensures Valid()
      ensures uses == old(uses)[arm := old(uses[arm]) + 1] && totalExecs == old(totalExecs) + 1
      ensures finds == old(finds)[arm := old(finds[arm]) + (if found then 1 else 0)]
      ensures var we, wf := old(windowExecs[arm]) + 1, old(windowFinds[arm]) + (if found then 1 else 0);
        var full, due := we >= updatePeriod, now - old(lastUpdate[arm]) >= timePeriod && we >= minSamples;
        var fade := if full then decay else decay * Min(1.0, root);
        wf <= we &&
        if full || due
        then windowExecs == old(windowExecs)[arm := 0] && windowFinds == old(windowFinds)[arm := 0]
             && lastUpdate == old(lastUpdate)[arm := now]
             && timeTriggered == old(timeTriggered) + (if full then 0 else 1)
             && flushedExecs == old(flushedExecs)[arm := old(flushedExecs[arm]) + we]
             && flushedFinds == old(flushedFinds)[arm := old(flushedFinds[arm]) + wf]
             && posterior == old(posterior)[arm := Updated(old(posterior[arm]), wf, we - wf, fade)]
        else windowExecs == old(windowExecs)[arm := we] && windowFinds == old(windowFinds)[arm := wf]
             && lastUpdate == old(lastUpdate) && timeTriggered == old(timeTriggered)
             && flushedExecs == old(flushedExecs) && flushedFinds == old(flushedFinds)
             && posterior == old(posterior)
    {
      hide Numbered, Updated, Total, Proper, Min;
      RecordUse(arm, found);
      CloseWindow(arm, now, root);
    }

    /** Feedback for one execution. An unknown arm changes nothing. */
    method Update(arm: nat, found: bool, now: int, root: real)
      requires Valid()
      modifies this
      ensures Valid()
      ensures arm >= |arms| ==>
        posterior == old(posterior) && uses == old(uses) && finds == old(finds) && totalExecs == old(totalExecs)
        && windowExecs == old(windowExecs) && windowFinds == old(windowFinds) && boost == old(boost)
        && resets == old(resets) && lastUpdate == old(lastUpdate) && checkTime == old(checkTime)
        && checkFinds == old(checkFinds) && timeTriggered == old(timeTriggered)
      ensures arm < |arms| ==>
        && uses == old(uses)[arm := old(uses[arm]) + 1] && totalExecs == old(totalExecs) + 1
        && finds == old(finds)[arm := old(finds[arm]) + (if found then 1 else 0)]
        && var we, wf := old(windowExecs[arm]) + 1, old(windowFinds[arm]) + (if found then 1 else 0);
           var full, due := we >= updatePeriod, now - old(lastUpdate[arm]) >= timePeriod && we >= minSamples;
           if full || due
           then windowExecs == old(windowExecs)[arm := 0] && windowFinds == old(windowFinds)[arm := 0]
                && lastUpdate == old(lastUpdate)[arm := now]
                && timeTriggered == old(timeTriggered) + (if full then 0 else 1)
                && flushedExecs == old(flushedExecs)[arm := old(flushedExecs[arm]) + we]
                && flushedFinds == old(flushedFinds)[arm := old(flushedFinds[arm]) + wf]
           else windowExecs == old(windowExecs)[arm := we] && windowFinds == old(windowFinds)[arm := wf]
                && lastUpdate == old(lastUpdate) && timeTriggered == old(timeTriggered)
                && flushedExecs == old(flushedExecs) && flushedFinds == old(flushedFinds)
      ensures arm < |arms| ==>
        var we, wf := old(windowExecs[arm]) + 1, old(windowFinds[arm]) + (if found then 1 else 0);
        var full, due := we >= updatePeriod, now - old(lastUpdate[arm]) >= timePeriod && we >= minSamples;
        var fade := if full then decay else decay * Min(1.0, root);
        var next := if full || due then old(posterior)[arm := Updated(old(posterior[arm]), wf, we - wf, fade)]
                    else old(posterior);
        var check := now - old(checkTime) >= stagnationWindow;
        var stagnating := totalExecs > minSamples * 10
          && FewFinds(Total(finds) - old(checkFinds), totalExecs, stagnationThreshold);
        && Recovery(check, stagnating, uses, next, old(boost), old(resets), posterior, boost, resets)
        && checkTime == (if check then now else old(checkTime))
        && checkFinds == if check then Total(finds) else old(checkFinds)
    {
      hide Valid, Total, Recovery, Updated, FewFinds, Min;
      if arm >= |arms| {
        return;
      }
      CountUse(arm, found, now, root);
      MaybeRecover(now);
    }
  }
}
