/** Accumulation into shared atomics by fetch-and-add and by compare-exchange retry loops: the Beta
    parameters (capped) and the combination statistics (uncapped), under any interleaving. */
module CasAccumulators {
  import opened Options
  import opened Reals
  import opened Sums

  const BETA_CAP: real := 50.0

  /** One accumulation of a call: add delta to a cell, in one fetch-and-add or by a retry loop. */
  datatype Add = Add(cell: nat, delta: real, fetch: bool)

  /** A thread inside update: the accumulations still to do, and the value its retry loop last loaded. */
  datatype Thread = Thread(todo: seq<Add>, loaded: Option<real>)

  /** A cell starts at init; a capped cell stores min(cap, sum). */
  datatype Cell = Cell(init: real, cap: Option<real>)

  /** The shared values, the threads, and the history: every call's accumulations, and the deltas applied
      to each cell in the order the exchanges succeeded. */
  datatype State = State(values: seq<real>, threads: seq<Thread>, begun: seq<Add>, applied: seq<seq<real>>)

  /** Begin a call; take its next step.  A compare-exchange may fail spuriously. */
  datatype Event = Begin(thread: nat, adds: seq<Add>) | Advance(thread: nat, spurious: bool)

  function Bump(cap: Option<real>, value: real, delta: real): real {
    if cap.Some? && cap.value < value + delta then cap.value else value + delta
  }

  /** Applying deltas one after the other. */
  function Fold(cell: Cell, deltas: seq<real>): real {
    if |deltas| == 0 then cell.init else Bump(cell.cap, Fold(cell, deltas[..|deltas| - 1]), deltas[|deltas| - 1])
  }

  /** BetaParams: alpha and beta start at 1 and are capped at 50. */
  const BETA_CELLS: seq<Cell> := [Cell(1.0, Some(BETA_CAP)), Cell(1.0, Some(BETA_CAP))]

  /** One call of BetaParams::update, and one of CombinationStats::update. */
  datatype BetaCall = BetaCall(successRate: real, executions: real, decay: real)

  datatype StatsCall = StatsCall(executions: nat, avgReward: real)

  /** What a call adds to alpha, and to beta. */
  function Success(call: BetaCall): real {
    call.successRate * call.executions * call.decay
  }

  function Failure(call: BetaCall): real {
    (1.0 - call.successRate) * call.executions * call.decay
  }

  function BetaUpdate(call: BetaCall): seq<Add> {
    [Add(0, Success(call), false), Add(1, Failure(call), false)]
  }

  /** CombinationStats: the use counter and the reward total start at 0. */
  const STATS_CELLS: seq<Cell> := [Cell(0.0, None), Cell(0.0, None)]

  function Reward(call: StatsCall): real {
    call.avgReward * call.executions as real
  }

  function StatsUpdate(call: StatsCall): seq<Add> {
    [Add(0, call.executions as real, true), Add(1, Reward(call), false)]
  }

  function Initial(cells: seq<Cell>, threads: nat): State {
    State(seq(|cells|, i requires 0 <= i < |cells| => cells[i].init), seq(threads, _ => Thread([], None)), [],
          seq(|cells|, _ => []))
  }

  predicate InRange(adds: seq<Add>, n: nat) {
    forall k :: 0 <= k < |adds| ==> adds[k].cell < n
  }

  predicate Shape(cells: seq<Cell>, s: State) {
    && |s.values| == |s.applied| == |cells|
    && forall t :: 0 <= t < |s.threads| ==> InRange(s.threads[t].todo, |cells|)
  }

  function Step(cells: seq<Cell>, s: State, e: Event): State
    requires Shape(cells, s)
  {
    if e.thread >= |s.threads| then s
    else match e
      case Begin(t, adds) =>
        if s.threads[t].todo == [] && InRange(adds, |cells|) then
          s.(threads := s.threads[t := Thread(adds, None)], begun := s.begun + adds)
        else s
      case Advance(t, spurious) => if s.threads[t].todo == [] then s else Work(cells, s, t, spurious)
  }

  /** The next atomic step of a busy thread: fetch-and-add; or load; or try to exchange, reloading on failure. */
  function Work(cells: seq<Cell>, s: State, t: nat, spurious: bool): State
    requires Shape(cells, s) && t < |s.threads| && s.threads[t].todo != []
  {
    var th := s.threads[t];
    var add := th.todo[0];
    if add.fetch then Apply(cells, s, t)
    else if th.loaded.None? then s.(threads := s.threads[t := th.(loaded := Some(s.values[add.cell]))])
    else if !spurious && s.values[add.cell] == th.loaded.value then Apply(cells, s, t)
    else s.(threads := s.threads[t := th.(loaded := Some(s.values[add.cell]))])
  }

  /** The successful step: the new value is computed from the value the thread knows, which is the current one. */
  function Apply(cells: seq<Cell>, s: State, t: nat): State
    requires Shape(cells, s) && t < |s.threads| && s.threads[t].todo != []
  {
    var th := s.threads[t];
    var add := th.todo[0];
    var c := add.cell;
    var known := if add.fetch || th.loaded.None? then s.values[c] else th.loaded.value;
    State(s.values[c := Bump(cells[c].cap, known, add.delta)], s.threads[t := Thread(th.todo[1..], None)], s.begun,
          s.applied[c := s.applied[c] + [add.delta]])
  }

  /** The deltas meant for cell c, in order. */
  ghost function DeltasFor(adds: seq<Add>, c: nat): seq<real> {
    if |adds| == 0 then []
    else (if adds[0].cell == c then [adds[0].delta] else []) + DeltasFor(adds[1..], c)
  }

  /** How many of the accumulations add d to cell c. */
  ghost function Times(adds: seq<Add>, c: nat, d: real): nat {
    if |adds| == 0 then 0
    else (if adds[0].cell == c && adds[0].delta == d then 1 else 0) + Times(adds[1..], c, d)
  }

  ghost function PendingTimes(threads: seq<Thread>, c: nat, d: real): nat {
    if |threads| == 0 then 0
    else PendingTimes(threads[..|threads| - 1], c, d) + Times(threads[|threads| - 1].todo, c, d)
  }

  /** Every cell holds the applied deltas, in exchange order; and every accumulation of every call so far is
      either applied once or still pending. */
  ghost predicate Inv(cells: seq<Cell>, s: State) {
    && Shape(cells, s)
    && (forall c: nat :: c < |cells| ==> s.values[c] == Fold(cells[c], s.applied[c]))
    && (forall c: nat, d: real :: c < |cells| ==> Conserved(s, c, d))
  }

  ghost predicate Conserved(s: State, c: nat, d: real)
    requires c < |s.applied|
  {
    Times(s.begun, c, d) == Count(s.applied[c], d) + PendingTimes(s.threads, c, d)
  }

  lemma {:induction false} PendingUpdate(threads: seq<Thread>, t: nat, th: Thread, c: nat, d: real)
    requires t < |threads|
    ensures PendingTimes(threads[t := th], c, d) + Times(threads[t].todo, c, d)
            == PendingTimes(threads, c, d) + Times(th.todo, c, d)
  {
    var last := |threads| - 1;
    if t == last {
      assert threads[t := th][..last] == threads[..last];
    } else {
      assert threads[t := th][..last] == threads[..last][t := th];
      PendingUpdate(threads[..last], t, th, c, d);
    }
  }

  lemma {:induction false} TimesConcat(a: seq<Add>, b: seq<Add>, c: nat, d: real)
    ensures Times(a + b, c, d) == Times(a, c, d) + Times(b, c, d)
  {
    if |a| == 0 {
      assert a + b == b;
    } else {
      assert (a + b)[1..] == a[1..] + b;
      TimesConcat(a[1..], b, c, d);
    }
  }

  lemma {:induction false} TimesIsMultiplicity(adds: seq<Add>, c: nat, d: real)
    ensures Times(adds, c, d) == multiset(DeltasFor(adds, c))[d]
  {
    if |adds| == 0 {
    } else {
      TimesIsMultiplicity(adds[1..], c, d);
    }
  }

  lemma {:induction false} CountIsMultiplicity(s: seq<real>, d: real)
    ensures Count(s, d) == multiset(s)[d]
  {
    if |s| == 0 {
    } else {
      CountIsMultiplicity(s[..|s| - 1], d);
      assert s == s[..|s| - 1] + [s[|s| - 1]];
    }
  }

  lemma {:induction false} NothingPending(threads: seq<Thread>, c: nat, d: real)
    requires forall t :: 0 <= t < |threads| ==> threads[t].todo == []
    ensures PendingTimes(threads, c, d) == 0
  {
    if |threads| == 0 {
    } else {
      NothingPending(threads[..|threads| - 1], c, d);
    }
  }

  lemma {:induction false} InitialInv(cells: seq<Cell>, threads: nat)
    ensures Inv(cells, Initial(cells, threads))
  {
    var s := Initial(cells, threads);
    forall c: nat, d: real | c < |cells| ensures Conserved(s, c, d) {
      NothingPending(s.threads, c, d);
    }
  }

  lemma {:induction false} StepKeepsInv(cells: seq<Cell>, s: State, e: Event)
    requires Inv(cells, s)
    ensures Inv(cells, Step(cells, s, e))
  {
    var t := e.thread;
    if t < |s.threads| {
      match e
      case Begin(_, adds) =>
        if s.threads[t].todo == [] && InRange(adds, |cells|) {
          BeginKeepsInv(cells, s, t, adds);
        }
      case Advance(_, spurious) =>
        if s.threads[t].todo != [] {
          WorkKeepsInv(cells, s, t, spurious);
        }
    }
  }

  lemma {:induction false} BeginKeepsInv(cells: seq<Cell>, s: State, t: nat, adds: seq<Add>)
    requires Inv(cells, s) && t < |s.threads| && s.threads[t].todo == [] && InRange(adds, |cells|)
    ensures Inv(cells, s.(threads := s.threads[t := Thread(adds, None)], begun := s.begun + adds))
  {
    var s' := s.(threads := s.threads[t := Thread(adds, None)], begun := s.begun + adds);
    forall c: nat, d: real | c < |cells| ensures Conserved(s', c, d) {
      assert Conserved(s, c, d);
      TimesConcat(s.begun, adds, c, d);
      PendingUpdate(s.threads, t, Thread(adds, None), c, d);
    }
  }

  lemma {:induction false} WorkKeepsInv(cells: seq<Cell>, s: State, t: nat, spurious: bool)
    requires Inv(cells, s) && t < |s.threads| && s.threads[t].todo != []
    ensures Inv(cells, Work(cells, s, t, spurious))
  {
    var th, s' := s.threads[t], Work(cells, s, t, spurious);
    if th.todo[0].fetch || (!spurious && th.loaded == Some(s.values[th.todo[0].cell])) {
      ApplyKeepsInv(cells, s, t);
    } else {
      forall c: nat, d: real | c < |cells| ensures Conserved(s', c, d) {
        assert Conserved(s, c, d);
        PendingUpdate(s.threads, t, s'.threads[t], c, d);
      }
    }
  }

  lemma {:induction false} ApplyKeepsInv(cells: seq<Cell>, s: State, t: nat)
    requires Inv(cells, s) && t < |s.threads| && s.threads[t].todo != []
    requires s.threads[t].todo[0].fetch || s.threads[t].loaded == Some(s.values[s.threads[t].todo[0].cell])
    ensures Inv(cells, Apply(cells, s, t))
  {
    var s', add := Apply(cells, s, t), s.threads[t].todo[0];
    assert s'.applied[add.cell][..|s.applied[add.cell]|] == s.applied[add.cell];
    forall c: nat, d: real | c < |cells| ensures Conserved(s', c, d) {
      assert Conserved(s, c, d);
      CountAppend(s.applied[add.cell], add.delta, d);
      PendingUpdate(s.threads, t, s'.threads[t], c, d);
    }
  }

  ghost function Run(cells: seq<Cell>, threads: nat, schedule: seq<Event>): (s: State)
    ensures Inv(cells, s)
  {
    if |schedule| == 0 then
      InitialInv(cells, threads);
      Initial(cells, threads)
    else
      var before := Run(cells, threads, schedule[..|schedule| - 1]);
      StepKeepsInv(cells, before, schedule[|schedule| - 1]);
      Step(cells, before, schedule[|schedule| - 1])
  }

  ghost predicate Quiescent(s: State) {
    forall t :: 0 <= t < |s.threads| ==> s.threads[t].todo == []
  }

  /** Headline: once all calls have finished, however they interleaved and however often an exchange failed,
      each cell holds the fold of exactly the deltas of all calls, each applied once. */
  lemma {:induction false} NoUpdateIsLost(cells: seq<Cell>, threads: nat, schedule: seq<Event>, c: nat)
    requires c < |cells| && Quiescent(Run(cells, threads, schedule))
    ensures var s := Run(cells, threads, schedule);
            && |s.values| == |s.applied| == |cells|
            && multiset(s.applied[c]) == multiset(DeltasFor(s.begun, c))
            && s.values[c] == Fold(cells[c], s.applied[c])
  {
    var s := Run(cells, threads, schedule);
    forall d: real ensures multiset(s.applied[c])[d] == multiset(DeltasFor(s.begun, c))[d] {
      assert Conserved(s, c, d);
      NothingPending(s.threads, c, d);
      TimesIsMultiplicity(s.begun, c, d);
      CountIsMultiplicity(s.applied[c], d);
    }
  }

  /** The sum of a multiset of deltas does not depend on their order. */
  lemma {:induction false} SumOfPermutation(a: seq<real>, b: seq<real>)
    requires multiset(a) == multiset(b)
    ensures Sum(a) == Sum(b)
  {
    if |a| == 0 {
      assert |multiset(b)| == 0;
    } else {
      var last := a[|a| - 1];
      assert last in multiset(b);
      var k :| 0 <= k < |b| && b[k] == last;
      var rest := b[..k] + b[k + 1..];
      assert b == b[..k] + [last] + b[k + 1..];
      assert a == a[..|a| - 1] + [last];
      assert multiset(rest) == multiset(b) - multiset{last};
      assert multiset(a[..|a| - 1]) == multiset(a) - multiset{last};
      SumOfPermutation(a[..|a| - 1], rest);
      SumConcat(b[..k] + [last], b[k + 1..]);
      SumConcat(b[..k], [last]);
      SumConcat(b[..k], b[k + 1..]);
      assert [last][..0] == [];
    }
  }

  lemma {:induction false} SumConcat(a: seq<real>, b: seq<real>)
    ensures Sum(a + b) == Sum(a) + Sum(b)
  {
    if |b| == 0 {
      assert a + b == a;
    } else {
      assert (a + b)[..|a + b| - 1] == a + b[..|b| - 1];
      SumConcat(a, b[..|b| - 1]);
    }
  }

  function Capped(cell: Cell, sum: real): real {
    if cell.cap.Some? && cell.cap.value < cell.init + sum then cell.cap.value else cell.init + sum
  }

  /** An uncapped cell adds up, whatever the signs. */
  lemma {:induction false} UncappedFold(cell: Cell, deltas: seq<real>)
    requires cell.cap.None?
    ensures Fold(cell, deltas) == cell.init + Sum(deltas)
  {
    if |deltas| == 0 {
    } else {
      UncappedFold(cell, deltas[..|deltas| - 1]);
    }
  }

  /** A capped cell with non-negative deltas holds the capped sum. */
  lemma {:induction false} NonNegativeFold(cell: Cell, deltas: seq<real>)
    requires cell.cap.Some? ==> cell.init <= cell.cap.value
    requires forall i :: 0 <= i < |deltas| ==> deltas[i] >= 0.0
    ensures Fold(cell, deltas) == Capped(cell, Sum(deltas))
    ensures Sum(deltas) >= 0.0
  {
    if |deltas| == 0 {
    } else {
      NonNegativeFold(cell, deltas[..|deltas| - 1]);
    }
  }

  /** The positive part of a sequence of deltas. */
  ghost function Gains(deltas: seq<real>): seq<real> {
    if |deltas| == 0 then []
    else
      var before, last := Gains(deltas[..|deltas| - 1]), deltas[|deltas| - 1];
      if last >= 0.0 then before + [last] else before
  }

  ghost function Losses(deltas: seq<real>): seq<real> {
    if |deltas| == 0 then []
    else
      var before, last := Losses(deltas[..|deltas| - 1]), deltas[|deltas| - 1];
      if last < 0.0 then before + [last] else before
  }

  lemma {:induction false} GainsAndLosses(deltas: seq<real>)
    ensures multiset(Gains(deltas)) + multiset(Losses(deltas)) == multiset(deltas)
    ensures forall i :: 0 <= i < |Gains(deltas)| ==> Gains(deltas)[i] >= 0.0
    ensures forall i :: 0 <= i < |Losses(deltas)| ==> Losses(deltas)[i] < 0.0
  {
    forall d: real
      ensures (multiset(Gains(deltas)) + multiset(Losses(deltas)))[d] == multiset(deltas)[d]
    {
      GainsMultiplicity(deltas, d);
    }
    Signs(deltas);
  }

  lemma {:induction false} Signs(deltas: seq<real>)
    ensures forall i :: 0 <= i < |Gains(deltas)| ==> Gains(deltas)[i] >= 0.0
    ensures forall i :: 0 <= i < |Losses(deltas)| ==> Losses(deltas)[i] < 0.0
  {
    if |deltas| == 0 {
    } else {
      Signs(deltas[..|deltas| - 1]);
    }
  }

  lemma MultiplicityAppend(s: seq<real>, x: real, d: real)
    ensures multiset(s + [x])[d] == multiset(s)[d] + (if x == d then 1 else 0)
  {
  }

  lemma {:induction false} GainsMultiplicity(deltas: seq<real>, d: real)
    ensures multiset(Gains(deltas))[d] == if d >= 0.0 then multiset(deltas)[d] else 0
    ensures multiset(Losses(deltas))[d] == if d >= 0.0 then 0 else multiset(deltas)[d]
  {
    if |deltas| == 0 {
    } else {
      var m := |deltas| - 1;
      GainsMultiplicity(deltas[..m], d);
      assert deltas == deltas[..m] + [deltas[m]];
      MultiplicityAppend(deltas[..m], deltas[m], d);
      if deltas[m] >= 0.0 {
        MultiplicityAppend(Gains(deltas[..m]), deltas[m], d);
      } else {
        MultiplicityAppend(Losses(deltas[..m]), deltas[m], d);
      }
    }
  }

  /** The last delta is applied last. */
  lemma {:induction false} FoldConcat(cell: Cell, a: seq<real>, b: seq<real>)
    requires |b| > 0
    ensures Fold(cell, a + b) == Bump(cell.cap, Fold(cell, a + b[..|b| - 1]), b[|b| - 1])
  {
    assert (a + b)[..|a| + |b| - 1] == a + b[..|b| - 1];
  }

  /** A loss is applied in full below the cap. */
  lemma {:induction false} FoldLosses(cell: Cell, gains: seq<real>, losses: seq<real>)
    requires cell.cap.Some? && Fold(cell, gains) <= cell.cap.value
    requires forall i :: 0 <= i < |losses| ==> losses[i] < 0.0
    ensures Fold(cell, gains + losses) == Fold(cell, gains) + Sum(losses)
    ensures Sum(losses) <= 0.0 && (losses != [] ==> Sum(losses) < 0.0)
  {
    hide Fold;
    if |losses| == 0 {
      assert gains + losses == gains;
    } else {
      var m := |losses| - 1;
      FoldLosses(cell, gains, losses[..m]);
      FoldConcat(cell, gains, losses);
    }
  }

  /** Below the cap throughout, nothing is cut off. */
  lemma {:induction false} FoldBelowCap(cell: Cell, deltas: seq<real>)
    requires cell.cap.Some? && cell.init + Sum(Gains(deltas)) <= cell.cap.value
    ensures Fold(cell, deltas) == cell.init + Sum(deltas)
    ensures Sum(deltas) <= Sum(Gains(deltas))
  {
    if |deltas| == 0 {
    } else {
      var m := |deltas| - 1;
      SumOfGains(deltas);
      FoldBelowCap(cell, deltas[..m]);
    }
  }

  lemma {:induction false} GainsNonNegative(deltas: seq<real>)
    ensures Sum(Gains(deltas)) >= 0.0
  {
    if |deltas| == 0 {
    } else {
      GainsNonNegative(deltas[..|deltas| - 1]);
      SumOfGains(deltas);
    }
  }

  lemma {:induction false} SumOfGains(deltas: seq<real>)
    requires |deltas| > 0
    ensures var last := deltas[|deltas| - 1];
            Sum(Gains(deltas)) == Sum(Gains(deltas[..|deltas| - 1])) + (if last >= 0.0 then last else 0.0)
  {
    var gains, last := Gains(deltas[..|deltas| - 1]), deltas[|deltas| - 1];
    if last >= 0.0 {
      assert (gains + [last])[..|gains|] == gains;
    } else {
      assert Gains(deltas) == gains;
    }
  }

  ghost predicate Permutation(a: seq<real>, b: seq<real>) {
    multiset(a) == multiset(b)
  }

  /** Exactly when the order of the exchanges does not matter to a capped cell, and it ends at the capped sum of its
      deltas whatever the order: when no delta is negative, or when the gains alone do not reach past the cap. */
  lemma {:induction false} OrderIndependentIff(cell: Cell, deltas: seq<real>)
    requires cell.cap.Some? && cell.init <= cell.cap.value
    ensures (forall a, b :: Permutation(a, deltas) && Permutation(b, deltas) ==> Fold(cell, a) == Fold(cell, b))
            <==> (forall i :: 0 <= i < |deltas| ==> deltas[i] >= 0.0)
                 || cell.init + Sum(Gains(deltas)) <= cell.cap.value
    ensures (forall order :: Permutation(order, deltas) ==> Fold(cell, order) == Capped(cell, Sum(deltas)))
            <==> (forall i :: 0 <= i < |deltas| ==> deltas[i] >= 0.0)
                 || cell.init + Sum(Gains(deltas)) <= cell.cap.value
  {
    hide Fold, Gains, Losses, Sum;
    if forall i :: 0 <= i < |deltas| ==> deltas[i] >= 0.0 {
      forall order | Permutation(order, deltas) ensures Fold(cell, order) == Capped(cell, Sum(deltas)) {
        NonNegativeOrder(cell, order, deltas);
      }
    } else if cell.init + Sum(Gains(deltas)) <= cell.cap.value {
      forall order | Permutation(order, deltas) ensures Fold(cell, order) == Capped(cell, Sum(deltas)) {
        BelowCapOrder(cell, order, deltas);
      }
    } else {
      var i :| 0 <= i < |deltas| && deltas[i] < 0.0;
      GainsFirst(cell, deltas, i);
      LossesFirst(cell, deltas);
      assert Fold(cell, Gains(deltas) + Losses(deltas)) < Fold(cell, Losses(deltas) + Gains(deltas));
    }
  }

  /** Gains are cut at the cap only. */
  lemma {:induction false} FoldGains(cell: Cell, prefix: seq<real>, gains: seq<real>)
    requires cell.cap.Some? && Fold(cell, prefix) <= cell.cap.value
    requires forall i :: 0 <= i < |gains| ==> gains[i] >= 0.0
    ensures Fold(cell, prefix + gains) == Capped(Cell(Fold(cell, prefix), cell.cap), Sum(gains))
    ensures Sum(gains) >= 0.0
  {
    if |gains| == 0 {
      assert prefix + gains == prefix;
    } else {
      var m := |gains| - 1;
      FoldGains(cell, prefix, gains[..m]);
      FoldConcat(cell, prefix, gains);
    }
  }

  lemma {:induction false} LossesAndGains(deltas: seq<real>)
    ensures Permutation(Losses(deltas) + Gains(deltas), deltas)
    ensures Sum(Losses(deltas) + Gains(deltas)) == Sum(deltas)
  {
    GainsAndLosses(deltas);
    SumOfPermutation(Losses(deltas) + Gains(deltas), deltas);
  }

  /** The order that takes all losses first never loses anything at the cap. */
  lemma {:induction false} LossesFirst(cell: Cell, deltas: seq<real>)
    requires cell.cap.Some? && cell.init <= cell.cap.value
    ensures Permutation(Losses(deltas) + Gains(deltas), deltas)
    ensures Fold(cell, Losses(deltas) + Gains(deltas)) == Capped(cell, Sum(deltas))
  {
    hide *;
    var gains, losses := Gains(deltas), Losses(deltas);
    LossesAndGains(deltas);
    Signs(deltas);
    FoldOnlyLosses(cell, losses);
    FoldGains(cell, losses, gains);
    SumConcat(losses, gains);
    CappedTwice(cell, Sum(losses), Sum(gains));
  }

  lemma {:induction false} FoldOnlyLosses(cell: Cell, losses: seq<real>)
    requires cell.cap.Some? && cell.init <= cell.cap.value && forall i :: 0 <= i < |losses| ==> losses[i] < 0.0
    ensures Fold(cell, losses) == cell.init + Sum(losses) <= cell.cap.value
  {
    assert [] + losses == losses;
    FoldLosses(cell, [], losses);
  }

  lemma CappedTwice(cell: Cell, x: real, y: real)
    ensures Capped(Cell(cell.init + x, cell.cap), y) == Capped(cell, x + y)
  {
  }

  /** The order that takes all gains first hits the cap, and then loses the losses in full. */
  lemma {:induction false} GainsFirst(cell: Cell, deltas: seq<real>, i: nat)
    requires cell.cap.Some? && cell.init <= cell.cap.value
    requires i < |deltas| && deltas[i] < 0.0 && cell.init + Sum(Gains(deltas)) > cell.cap.value
    ensures Permutation(Gains(deltas) + Losses(deltas), deltas)
    ensures Fold(cell, Gains(deltas) + Losses(deltas)) < Capped(cell, Sum(deltas))
  {
    var gains, losses := Gains(deltas), Losses(deltas);
    GainsAndLosses(deltas);
    GainsMultiplicity(deltas, deltas[i]);
    assert deltas[i] in multiset(deltas);
    NonNegativeFold(cell, gains);
    FoldLosses(cell, gains, losses);
    SumConcat(gains, losses);
    SumOfPermutation(gains + losses, deltas);
  }

  lemma {:induction false} NonNegativeOrder(cell: Cell, order: seq<real>, deltas: seq<real>)
    requires cell.cap.Some? && cell.init <= cell.cap.value && Permutation(order, deltas)
    requires forall i :: 0 <= i < |deltas| ==> deltas[i] >= 0.0
    ensures Fold(cell, order) == Capped(cell, Sum(deltas))
  {
    forall i | 0 <= i < |order| ensures order[i] >= 0.0 {
      assert order[i] in multiset(deltas);
    }
    NonNegativeFold(cell, order);
    SumOfPermutation(order, deltas);
  }

  lemma {:induction false} BelowCapOrder(cell: Cell, order: seq<real>, deltas: seq<real>)
    requires cell.cap.Some? && Permutation(order, deltas)
    requires cell.init + Sum(Gains(deltas)) <= cell.cap.value
    ensures Fold(cell, order) == Capped(cell, Sum(deltas))
  {
    GainsOfPermutation(order, deltas);
    FoldBelowCap(cell, order);
    SumOfPermutation(order, deltas);
  }

  lemma {:induction false} GainsOfPermutation(a: seq<real>, b: seq<real>)
    requires Permutation(a, b)
    ensures Sum(Gains(a)) == Sum(Gains(b))
  {
    forall d: real ensures multiset(Gains(a))[d] == multiset(Gains(b))[d] {
      GainsMultiplicity(a, d);
      GainsMultiplicity(b, d);
    }
    SumOfPermutation(Gains(a), Gains(b));
  }

  predicate BetaCallOk(call: BetaCall) {
    0.0 <= call.successRate <= 1.0 && call.executions >= 0.0 && call.decay >= 0.0
  }

  /** Success rates in [0,1], with non-negative executions and decay, only ever add. */
  lemma BetaDeltasNonNegative(call: BetaCall)
    requires BetaCallOk(call)
    ensures forall k :: 0 <= k < 2 ==> BetaUpdate(call)[k].delta >= 0.0
  {
    Product(call.successRate, call.executions);
    Product(call.successRate * call.executions, call.decay);
    Product(1.0 - call.successRate, call.executions);
    Product((1.0 - call.successRate) * call.executions, call.decay);
  }

  lemma {:induction false} DeltasAreBegun(adds: seq<Add>, c: nat)
    requires forall k :: 0 <= k < |adds| ==> adds[k].delta >= 0.0
    ensures forall i :: 0 <= i < |DeltasFor(adds, c)| ==> DeltasFor(adds, c)[i] >= 0.0
  {
    if |adds| == 0 {
    } else {
      DeltasAreBegun(adds[1..], c);
    }
  }

  /** Whether an event starts a call: its thread exists and is idle. */
  predicate Begins(cells: seq<Cell>, s: State, e: Event) {
    e.Begin? && e.thread < |s.threads| && s.threads[e.thread].todo == [] && InRange(e.adds, |cells|)
  }

  /** The calls of a run, in the order they began. */
  ghost function CallsOf(cells: seq<Cell>, threads: nat, schedule: seq<Event>): seq<seq<Add>> {
    if |schedule| == 0 then []
    else
      var before, e := schedule[..|schedule| - 1], schedule[|schedule| - 1];
      CallsOf(cells, threads, before) + (if Begins(cells, Run(cells, threads, before), e) then [e.adds] else [])
  }

  ghost function Flatten(calls: seq<seq<Add>>): seq<Add> {
    if |calls| == 0 then [] else Flatten(calls[..|calls| - 1]) + calls[|calls| - 1]
  }

  lemma {:induction false} BegunAreCalls(cells: seq<Cell>, threads: nat, schedule: seq<Event>)
    ensures Run(cells, threads, schedule).begun == Flatten(CallsOf(cells, threads, schedule))
  {
    if |schedule| == 0 {
    } else {
      var prefix, e := schedule[..|schedule| - 1], schedule[|schedule| - 1];
      BegunAreCalls(cells, threads, prefix);
      var before := CallsOf(cells, threads, prefix);
      StepBegins(cells, Run(cells, threads, prefix), e);
      if Begins(cells, Run(cells, threads, prefix), e) {
        assert (before + [e.adds])[..|before|] == before;
      } else {
        assert before + [] == before;
      }
    }
  }

  lemma {:induction false} StepBegins(cells: seq<Cell>, s: State, e: Event)
    requires Shape(cells, s)
    ensures Step(cells, s, e).begun == if Begins(cells, s, e) then s.begun + e.adds else s.begun
  {
  }

  lemma {:induction false} DeltasConcat(a: seq<Add>, b: seq<Add>, c: nat)
    ensures DeltasFor(a + b, c) == DeltasFor(a, c) + DeltasFor(b, c)
  {
    if |a| == 0 {
      assert a + b == b;
    } else {
      assert (a + b)[1..] == a[1..] + b;
      DeltasConcat(a[1..], b, c);
      Associative(if a[0].cell == c then [a[0].delta] else [], DeltasFor(a[1..], c), DeltasFor(b, c));
    }
  }

  lemma Associative(x: seq<real>, y: seq<real>, z: seq<real>)
    ensures x + (y + z) == (x + y) + z
  {
  }

  ghost function BetaCalls(calls: seq<BetaCall>): seq<seq<Add>> {
    seq(|calls|, i requires 0 <= i < |calls| => BetaUpdate(calls[i]))
  }

  ghost function StatsCalls(calls: seq<StatsCall>): seq<seq<Add>> {
    seq(|calls|, i requires 0 <= i < |calls| => StatsUpdate(calls[i]))
  }

  /** All successes, and all failures, that the calls report, each scaled by its decay factor. */
  ghost function Successes(calls: seq<BetaCall>): real {
    if |calls| == 0 then 0.0
    else
      var last := calls[|calls| - 1];
      Successes(calls[..|calls| - 1]) + last.successRate * last.executions * last.decay
  }

  ghost function Failures(calls: seq<BetaCall>): real {
    if |calls| == 0 then 0.0
    else
      var last := calls[|calls| - 1];
      Failures(calls[..|calls| - 1]) + (1.0 - last.successRate) * last.executions * last.decay
  }

  /** All uses, and all rewards, that the calls report. */
  ghost function Uses(calls: seq<StatsCall>): nat {
    if |calls| == 0 then 0 else Uses(calls[..|calls| - 1]) + calls[|calls| - 1].executions
  }

  ghost function Rewards(calls: seq<StatsCall>): real {
    if |calls| == 0 then 0.0
    else
      var last := calls[|calls| - 1];
      Rewards(calls[..|calls| - 1]) + last.avgReward * last.executions as real
  }

  /** The weight of all calls, whatever their success rates. */
  ghost function Evidence(calls: seq<BetaCall>): real {
    if |calls| == 0 then 0.0
    else
      var last := calls[|calls| - 1];
      Evidence(calls[..|calls| - 1]) + last.executions * last.decay
  }

  /** No evidence is lost: successes and failures share out the weight of the calls. */
  lemma {:induction false} EvidenceIsShared(calls: seq<BetaCall>)
    ensures Successes(calls) + Failures(calls) == Evidence(calls)
    ensures (forall i :: 0 <= i < |calls| ==> calls[i].successRate == 1.0) ==> Failures(calls) == 0.0
  {
    if |calls| == 0 {
    } else {
      var rest, last := calls[..|calls| - 1], calls[|calls| - 1];
      EvidenceIsShared(rest);
      SharedOut(last.successRate, last.executions, last.decay);
    }
  }

  lemma SharedOut(rate: real, executions: real, decay: real)
    ensures rate * executions * decay + (1.0 - rate) * executions * decay == executions * decay
    ensures rate == 1.0 ==> (1.0 - rate) * executions * decay == 0.0
  {
    var x := rate * executions;
    assert (1.0 - rate) * executions == executions - x;
    assert x * decay + (executions - x) * decay == executions * decay;
  }

  lemma {:induction false} TwoCells(adds: seq<Add>)
    requires |adds| == 2 && adds[0].cell == 0 && adds[1].cell == 1
    ensures DeltasFor(adds, 0) == [adds[0].delta] && DeltasFor(adds, 1) == [adds[1].delta]
    ensures forall x: real :: Sum([x]) == x
  {
    var rest := adds[1..];
    assert rest[0] == adds[1] && rest[1..] == [];
    assert DeltasFor(rest[1..], 0) == [] && DeltasFor(rest[1..], 1) == [];
    assert DeltasFor(rest, 0) == [] + [] && DeltasFor(rest, 1) == [adds[1].delta] + [];
    assert DeltasFor(adds, 0) == [adds[0].delta] + [] && DeltasFor(adds, 1) == [] + [adds[1].delta];
    forall x: real ensures Sum([x]) == x {
      assert [x][..0] == [];
    }
  }

  lemma {:induction false} BetaCallsAddUp(calls: seq<BetaCall>)
    ensures Sum(DeltasFor(Flatten(BetaCalls(calls)), 0)) == Successes(calls)
    ensures Sum(DeltasFor(Flatten(BetaCalls(calls)), 1)) == Failures(calls)
  {
    if |calls| == 0 {
    } else {
      hide Sum, DeltasFor, Success, Failure;
      var before, last := calls[..|calls| - 1], calls[|calls| - 1];
      BetaCallsAddUp(before);
      assert BetaCalls(calls)[..|calls| - 1] == BetaCalls(before);
      LastCall(Flatten(BetaCalls(before)), BetaUpdate(last));
    }
  }

  lemma {:induction false} LastCall(all: seq<Add>, adds: seq<Add>)
    requires |adds| == 2 && adds[0].cell == 0 && adds[1].cell == 1
    ensures Sum(DeltasFor(all + adds, 0)) == Sum(DeltasFor(all, 0)) + adds[0].delta
    ensures Sum(DeltasFor(all + adds, 1)) == Sum(DeltasFor(all, 1)) + adds[1].delta
  {
    TwoCells(adds);
    DeltasConcat(all, adds, 0);
    DeltasConcat(all, adds, 1);
    SumConcat(DeltasFor(all, 0), DeltasFor(adds, 0));
    SumConcat(DeltasFor(all, 1), DeltasFor(adds, 1));
  }

  lemma {:induction false} BetaCallsNonNegative(calls: seq<BetaCall>)
    requires forall i :: 0 <= i < |calls| ==> BetaCallOk(calls[i])
    ensures forall k :: 0 <= k < |Flatten(BetaCalls(calls))| ==> Flatten(BetaCalls(calls))[k].delta >= 0.0
  {
    if |calls| == 0 {
    } else {
      var before, last := calls[..|calls| - 1], calls[|calls| - 1];
      BetaCallsNonNegative(before);
      assert BetaCalls(calls)[..|calls| - 1] == BetaCalls(before);
      assert BetaCallOk(last);
      BetaDeltasNonNegative(last);
    }
  }

  lemma {:induction false} StatsCallsAddUp(calls: seq<StatsCall>)
    ensures Sum(DeltasFor(Flatten(StatsCalls(calls)), 0)) == Uses(calls) as real
    ensures Sum(DeltasFor(Flatten(StatsCalls(calls)), 1)) == Rewards(calls)
  {
    if |calls| == 0 {
    } else {
      hide Sum, DeltasFor, Reward;
      var before, last := calls[..|calls| - 1], calls[|calls| - 1];
      StatsCallsAddUp(before);
      assert StatsCalls(calls)[..|calls| - 1] == StatsCalls(before);
      LastCall(Flatten(StatsCalls(before)), StatsUpdate(last));
    }
  }

  /** Once all calls are done, a cell with non-negative deltas holds the capped sum of what they add. */
  lemma {:induction false} BetaCellExact(threads: nat, schedule: seq<Event>, c: nat)
    requires c < 2 && Quiescent(Run(BETA_CELLS, threads, schedule))
    requires var s := Run(BETA_CELLS, threads, schedule);
             forall k :: 0 <= k < |s.begun| ==> s.begun[k].delta >= 0.0
    ensures var s := Run(BETA_CELLS, threads, schedule);
            && |s.values| == 2
            && s.values[c] == Capped(Cell(1.0, Some(BETA_CAP)), Sum(DeltasFor(s.begun, c)))
  {
    var s := Run(BETA_CELLS, threads, schedule);
    NoUpdateIsLost(BETA_CELLS, threads, schedule, c);
    DeltasAreBegun(s.begun, c);
    NonNegativeOrder(BETA_CELLS[c], s.applied[c], DeltasFor(s.begun, c));
  }

  /** Headline for BetaParams: once all update calls are done, alpha is min(50, 1 + the decayed successes of all
      calls) and beta is min(50, 1 + their decayed failures), whatever the interleaving. */
  lemma {:induction false} BetaParamsExact(threads: nat, schedule: seq<Event>, calls: seq<BetaCall>)
    requires Quiescent(Run(BETA_CELLS, threads, schedule))
    requires CallsOf(BETA_CELLS, threads, schedule) == BetaCalls(calls)
    requires forall i :: 0 <= i < |calls| ==> BetaCallOk(calls[i])
    ensures var s := Run(BETA_CELLS, threads, schedule);
            && |s.values| == 2
            && s.values[0] == Min(50.0, 1.0 + Successes(calls)) && s.values[1] == Min(50.0, 1.0 + Failures(calls))
  {
    hide Run, CallsOf, Flatten, BetaCalls, DeltasFor, Sum, Successes, Failures, BetaCallOk, Quiescent;
    BegunAreCalls(BETA_CELLS, threads, schedule);
    BetaCallsNonNegative(calls);
    BetaCallsAddUp(calls);
    BetaCellExact(threads, schedule, 0);
    BetaCellExact(threads, schedule, 1);
  }

  lemma {:induction false} StatsCellExact(threads: nat, schedule: seq<Event>, c: nat)
    requires c < 2 && Quiescent(Run(STATS_CELLS, threads, schedule))
    ensures var s := Run(STATS_CELLS, threads, schedule);
            |s.values| == 2 && s.values[c] == Sum(DeltasFor(s.begun, c))
  {
    var s := Run(STATS_CELLS, threads, schedule);
    NoUpdateIsLost(STATS_CELLS, threads, schedule, c);
    UncappedFold(STATS_CELLS[c], s.applied[c]);
    SumOfPermutation(s.applied[c], DeltasFor(s.begun, c));
  }

  /** Headline for CombinationStats: once all update calls are done, the uses are all executions and the total reward
      is the sum of average reward times executions, whatever the signs and the interleaving. */
  lemma {:induction false} CombinationStatsExact(threads: nat, schedule: seq<Event>, calls: seq<StatsCall>)
    requires Quiescent(Run(STATS_CELLS, threads, schedule))
    requires CallsOf(STATS_CELLS, threads, schedule) == StatsCalls(calls)
    ensures var s := Run(STATS_CELLS, threads, schedule);
            |s.values| == 2 && s.values[0] == Uses(calls) as real && s.values[1] == Rewards(calls)
  {
    hide Run, CallsOf, Flatten, StatsCalls, DeltasFor, Sum, Uses, Rewards, Quiescent;
    BegunAreCalls(STATS_CELLS, threads, schedule);
    StatsCallsAddUp(calls);
    StatsCellExact(threads, schedule, 0);
    StatsCellExact(threads, schedule, 1);
  }

  class SharedCells {
    const cells: seq<Cell>
    var values: seq<real>
    var threads: seq<Thread>
    ghost var begun: seq<Add>
    ghost var applied: seq<seq<real>>

    ghost function Snapshot(): State
      reads this
    {
      State(values, threads, begun, applied)
    }

    ghost predicate Valid()
      reads this
    {
      Inv(cells, Snapshot())
    }

    constructor (cells: seq<Cell>, threads: nat)
      ensures Valid() && this.cells == cells && Snapshot() == Initial(cells, threads)
    {
      this.cells := cells;
      values := seq(|cells|, i requires 0 <= i < |cells| => cells[i].init);
      this.threads := seq(threads, _ => Thread([], None));
      begun, applied := [], seq(|cells|, _ => []);
      InitialInv(cells, threads);
    }

    /** One event, in place. */
    method Take(e: Event)
      requires Valid()
      modifies this
      ensures Valid() && Snapshot() == Step(cells, old(Snapshot()), e)
    {
      StepKeepsInv(cells, Snapshot(), e);
      if e.thread >= |threads| {
        return;
      }
      match e
      case Begin(t, adds) =>
        if threads[t].todo == [] && InRange(adds, |cells|) {
          threads := threads[t := Thread(adds, None)];
          begun := begun + adds;
        }
      case Advance(t, spurious) =>
        if threads[t].todo != [] {
          TryNext(t, spurious);
        }
    }

    /** A retry loop's next load or exchange, or a fetch-and-add. */
    method TryNext(t: nat, spurious: bool)
      requires Shape(cells, Snapshot()) && t < |threads| && threads[t].todo != []
      modifies this
      ensures Snapshot() == Work(cells, old(Snapshot()), t, spurious)
    {
      var add, loaded := threads[t].todo[0], threads[t].loaded;
      var current := values[add.cell];
      if add.fetch || (loaded.Some? && !spurious && current == loaded.value) {
        var known := if add.fetch || loaded.None? then current else loaded.value;
        values := values[add.cell := Bump(cells[add.cell].cap, known, add.delta)];
        applied := applied[add.cell := applied[add.cell] + [add.delta]];
        threads := threads[t := Thread(threads[t].todo[1..], None)];
      } else {
        threads := threads[t := threads[t].(loaded := Some(current))];
      }
    }

    /** Any interleaving, executed in place, reaches the state the step relation predicts. */
    method Execute(schedule: seq<Event>)
      requires Valid() && Snapshot() == Initial(cells, |threads|)
      modifies this
      ensures Valid() && Snapshot() == Run(cells, |old(threads)|, schedule)
    {
      ghost var n := |threads|;
      for i := 0 to |schedule|
        invariant Valid() && Snapshot() == Run(cells, n, schedule[..i])
      {
        assert schedule[..i + 1][..i] == schedule[..i];
        Take(schedule[i]);
      }
      assert schedule[..|schedule|] == schedule;
    }
  }
}
