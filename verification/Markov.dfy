/** Layer 3 of the unified learner: operator-to-operator transition counts, the probabilities derived
    from them, and the alias tables that sample from those probabilities in constant time. */
module Markov {
  import opened AliasTable
  import opened Reals
  import opened RowMajor
  import opened Sums

  const MIN_STACK: nat := 2
  const MAX_STACK: nat := 16
  const EPSILON_DECAY_MS: nat := 7_200_000

  /** C++ conversion of an unsigned size to a 32-bit int (two's complement). */
  function ToInt(x: nat): (r: int)
    ensures r <= x
    ensures x < 0x8000_0000 ==> r == x
  {
    var low := x % 0x1_0000_0000;
    if low < 0x8000_0000 then low else low - 0x1_0000_0000
  }

  /** The conversion keeps the low 32 bits. */
  lemma ToIntWraps(x: nat)
    ensures -0x8000_0000 <= ToInt(x) < 0x8000_0000 && (x - ToInt(x)) % 0x1_0000_0000 == 0
  {
    var q := x / 0x1_0000_0000;
    assert x - ToInt(x) == if x % 0x1_0000_0000 < 0x8000_0000 then q * 0x1_0000_0000 else (q + 1) * 0x1_0000_0000;
  }

  /** The transition pairs that Update counts: in-range predecessor (after its cast to int) and successor. */
  predicate CountsPair(n: nat, prev: nat, curr: nat) {
    0 <= ToInt(prev) < ToInt(n) && curr < n
  }

  /** The flat index of the transition prev -> curr. */
  function Cell(n: nat, prev: nat, curr: nat): (k: nat)
    requires CountsPair(n, prev, curr)
    ensures k < n * n
  {
    Bounds(n, ToInt(prev));
    ToInt(prev) * n + curr
  }

  lemma CellAt(n: nat, prev: nat, curr: nat)
    requires CountsPair(n, prev, curr)
    ensures Cell(n, prev, curr) == ToInt(prev) * n + curr
  {
  }

  /** The table after counting every adjacent pair of ops. */
  function CountPairs(table: seq<nat>, n: nat, ops: seq<nat>): (r: seq<nat>)
    requires |table| == n * n
    ensures |r| == n * n
  {
    if |ops| < 2 then table
    else
      var before := CountPairs(table, n, ops[..|ops| - 1]);
      var prev, curr := ops[|ops| - 2], ops[|ops| - 1];
      if CountsPair(n, prev, curr) then
        var k := Cell(n, prev, curr);
        before[k := before[k] + 1]
      else before
  }

  lemma CountPairsStep(table: seq<nat>, n: nat, ops: seq<nat>, i: nat)
    requires |table| == n * n && i < |ops|
    ensures i == 0 ==> CountPairs(table, n, ops[..i + 1]) == table
    ensures var before := CountPairs(table, n, ops[..i]);
      i > 0 ==> CountPairs(table, n, ops[..i + 1])
                == if CountsPair(n, ops[i - 1], ops[i])
                   then before[Cell(n, ops[i - 1], ops[i]) := before[Cell(n, ops[i - 1], ops[i])] + 1] else before
  {
    assert ops[..i + 1][..i] == ops[..i];
  }

  /** How many adjacent pairs of ops are counted at all. */
  ghost function CountedPairs(n: nat, ops: seq<nat>): nat {
    if |ops| < 2 then 0
    else CountedPairs(n, ops[..|ops| - 1]) + (if CountsPair(n, ops[|ops| - 2], ops[|ops| - 1]) then 1 else 0)
  }

  /** How many adjacent pairs of ops are transitions from p to q. */
  ghost function Transitions(ops: seq<nat>, p: nat, q: nat): nat {
    if |ops| < 2 then 0
    else Transitions(ops[..|ops| - 1], p, q)
         + (if ops[|ops| - 2] == p && ops[|ops| - 1] == q then 1 else 0)
  }

  lemma {:induction false} CountPairsTotal(table: seq<nat>, n: nat, ops: seq<nat>)
    requires |table| == n * n
    ensures Total(CountPairs(table, n, ops)) == Total(table) + CountedPairs(n, ops)
  {
    if |ops| < 2 {
    } else {
      CountPairsTotal(table, n, ops[..|ops| - 1]);
      if CountsPair(n, ops[|ops| - 2], ops[|ops| - 1]) {
        var before, k := CountPairs(table, n, ops[..|ops| - 1]), Cell(n, ops[|ops| - 2], ops[|ops| - 1]);
        TotalUpdate(before, k, before[k] + 1);
      }
    }
  }

  lemma {:induction false} CountPairsMonotone(a: seq<nat>, b: seq<nat>, n: nat, ops: seq<nat>)
    requires |a| == |b| == n * n
    requires forall k :: 0 <= k < n * n ==> a[k] <= b[k]
    ensures forall k :: 0 <= k < n * n ==> CountPairs(a, n, ops)[k] <= CountPairs(b, n, ops)[k]
    ensures forall k :: 0 <= k < n * n ==> a[k] <= CountPairs(a, n, ops)[k]
  {
    if |ops| < 2 {
    } else {
      CountPairsMonotone(a, b, n, ops[..|ops| - 1]);
    }
  }

  lemma {:induction false} CountsStayOk(finds: seq<nat>, uses: seq<nat>, n: nat, ops: seq<nat>, found: bool)
    requires |finds| == |uses| == n * n && forall k :: 0 <= k < n * n ==> 1 <= finds[k] <= uses[k]
    ensures var f := if found then CountPairs(finds, n, ops) else finds;
      forall k :: 0 <= k < n * n ==> 1 <= f[k] <= CountPairs(uses, n, ops)[k]
  {
    CountPairsMonotone(finds, uses, n, ops);
    CountPairsMonotone(uses, uses, n, ops);
  }

  /** CountPairs adds to each cell exactly the number of its transitions; entries of a sequence that are no operators
      take part in none. */
  lemma {:induction false} CountPairsCell(table: seq<nat>, n: nat, ops: seq<nat>, p: nat, q: nat)
    requires |table| == n * n && p < n && q < n && n < 0x8000_0000
    requires forall i :: 0 <= i < |ops| ==> ops[i] < 0x1_0000_0000
    ensures Row(CountPairs(table, n, ops), n, p)[q] == Row(table, n, p)[q] + Transitions(ops, p, q)
  {
    if |ops| < 2 {
    } else {
      CountPairsCell(table, n, ops[..|ops| - 1], p, q);
      var prev, curr := ops[|ops| - 2], ops[|ops| - 1];
      var before := CountPairs(table, n, ops[..|ops| - 1]);
      if CountsPair(n, prev, curr) {
        var k := Cell(n, prev, curr);
        assert ToInt(prev) == prev;
        CellsDiffer(n, prev, curr, p, q);
        SameRow(before, n, p, q);
        SameRow(before[k := before[k] + 1], n, p, q);
      }
    }
  }

  lemma CellsDiffer(n: nat, prev: nat, curr: nat, p: nat, q: nat)
    requires prev < n && curr < n && p < n && q < n
    ensures prev * n + curr == p * n + q <==> prev == p && curr == q
  {
    if prev < p {
      Before(n, prev, p);
    } else if p < prev {
      Before(n, p, prev);
    }
  }

  /** One feedback: the operators of an execution, and whether it found something. */
  datatype Execution = Execution(ops: seq<nat>, found: bool)

  /** The find counts after some more feedback. */
  ghost function FindsAfter(table: seq<nat>, n: nat, runs: seq<Execution>): (r: seq<nat>)
    requires |table| == n * n
    ensures |r| == n * n
  {
    if |runs| == 0 then table
    else
      var before, last := FindsAfter(table, n, runs[..|runs| - 1]), runs[|runs| - 1];
      if last.found then CountPairs(before, n, last.ops) else before
  }

  /** The transitions that the executions with a find count. */
  ghost function FoundPairs(n: nat, runs: seq<Execution>): nat {
    if |runs| == 0 then 0
    else
      var last := runs[|runs| - 1];
      FoundPairs(n, runs[..|runs| - 1]) + (if last.found then CountedPairs(n, last.ops) else 0)
  }

  lemma {:induction false} FindsGrow(table: seq<nat>, n: nat, runs: seq<Execution>)
    requires |table| == n * n
    ensures Total(FindsAfter(table, n, runs)) == Total(table) + FoundPairs(n, runs)
    ensures forall k :: 0 <= k < n * n ==> table[k] <= FindsAfter(table, n, runs)[k]
  {
    if |runs| == 0 {
    } else {
      var before, last := FindsAfter(table, n, runs[..|runs| - 1]), runs[|runs| - 1];
      FindsGrow(table, n, runs[..|runs| - 1]);
      if last.found {
        CountPairsTotal(before, n, last.ops);
        CountPairsMonotone(before, before, n, last.ops);
      }
    }
  }

  lemma {:induction false} OneMoreRun(table: seq<nat>, n: nat, runs: seq<Execution>, run: Execution)
    requires |table| == n * n
    ensures FindsAfter(table, n, runs + [run])
            == if run.found then CountPairs(FindsAfter(table, n, runs), n, run.ops) else FindsAfter(table, n, runs)
  {
    assert (runs + [run])[..|runs|] == runs;
  }

  /** The first stack size with the most finds. */
  ghost predicate FirstBest(finds: seq<nat>, best: nat)
    requires |finds| == MAX_STACK + 1
  {
    && MIN_STACK <= best <= MAX_STACK
    && (forall i :: MIN_STACK <= i <= MAX_STACK ==> finds[i] <= finds[best])
    && (forall i :: MIN_STACK <= i < best ==> finds[i] < finds[best])
  }

  /** The stack-statistics slot a sequence of this length is booked under. */
  function StackSlot(length: nat): (st: nat)
    ensures MIN_STACK <= st <= MAX_STACK
    ensures st < length ==> st == MAX_STACK
    ensures length < st ==> st == MIN_STACK
  {
    if length < MIN_STACK then MIN_STACK else if length > MAX_STACK then MAX_STACK else length
  }

  /** p is the distribution of the counts. */
  ghost predicate FollowsCounts(counts: seq<nat>, p: seq<real>) {
    && |counts| == |p| && Total(counts) > 0
    && forall j :: 0 <= j < |p| ==> p[j] == counts[j] as real / Total(counts) as real
  }

  lemma {:induction false} FollowingIsDistribution(counts: seq<nat>, p: seq<real>)
    requires FollowsCounts(counts, p)
    ensures Distribution(p)
    ensures forall j :: 0 <= j < |p| && counts[j] > 0 ==> p[j] > 0.0
  {
    var total := Total(counts) as real;
    var reals := seq(|counts|, i requires 0 <= i < |counts| => counts[i] as real);
    SumOfTotals(counts, reals);
    hide Total, Sum;
    assert Sum(p) == 1.0 by {
      SumDivided(reals, p, total);
      ByInverse(total, total);
    }
    forall i | 0 <= i < |p| ensures 0.0 <= p[i] && (counts[i] > 0 ==> p[i] > 0.0) {
      ByInverse(counts[i] as real, total);
    }
  }

  lemma {:induction false} SumDivided(a: seq<real>, c: seq<real>, t: real)
    requires |a| == |c| && t > 0.0 && forall i :: 0 <= i < |a| ==> c[i] == a[i] / t
    ensures Sum(c) == Sum(a) / t
  {
    if |a| == 0 {
    } else {
      var m := |a| - 1;
      SumDivided(a[..m], c[..m], t);
      DividedSum(Sum(a[..m]), a[m], t);
    }
  }

  lemma DividedSum(x: real, y: real, t: real)
    requires t > 0.0
    ensures x / t + y / t == (x + y) / t
  {
  }

  lemma ByInverse(x: real, t: real)
    requires t > 0.0 && x >= 0.0
    ensures x / t == (1.0 / t) * x && x / t >= 0.0 && (x > 0.0 ==> x / t > 0.0) && t / t == 1.0
  {
  }

  lemma {:induction false} SumScaled(p: seq<real>)
    requires Distribution(p)
    ensures Sum(Scaled(p)) == |p| as real
    ensures forall i :: 0 <= i < |p| ==> 0.0 <= Scaled(p)[i]
  {
    SumScale(p, Scaled(p), |p| as real);
    forall i | 0 <= i < |p| ensures 0.0 <= Scaled(p)[i] {
      Product(p[i], |p| as real);
    }
  }

  lemma {:induction false} ScaledCell(prob: seq<real>, base: nat, n: nat, i: nat)
    requires base + n <= |prob| && i < n
    ensures prob[base + i] * n as real == Scaled(prob[base..base + n])[i]
  {
    assert prob[base..base + n][i] == prob[base + i];
  }

  /** A row is a distribution in which no operator is impossible, and its alias table represents it exactly. */
  ghost predicate RowOk(p: seq<real>, keep: seq<real>, alias: seq<nat>) {
    && Distribution(p)
    && (forall j :: 0 <= j < |p| ==> p[j] > 0.0)
    && Exact(keep, alias, p)
  }

  lemma {:induction false} UniformRowOk(p: seq<real>, keep: seq<real>, alias: seq<nat>)
    requires |p| == |keep| == |alias| > 0
    requires forall j :: 0 <= j < |p| ==> p[j] == 1.0 / |p| as real && keep[j] == 1.0 && alias[j] == j
    ensures RowOk(p, keep, alias)
  {
    var n := |p| as real;
    ByInverse(1.0, n);
    Inverse(n);
    assert Distribution(p) by {
      SumConstant(p, 1.0 / n);
    }
    forall j: nat | j < |p| ensures keep[j] + Received(Complement(keep), alias, j) == Scaled(p)[j] {
      NothingGiven(keep, alias, j);
      assert Scaled(p)[j] == (1.0 / n) * n;
    }
  }

  lemma {:induction false} NothingGiven(keep: seq<real>, alias: seq<nat>, j: nat)
    requires |keep| == |alias| && forall i :: 0 <= i < |keep| ==> keep[i] == 1.0
    ensures Received(Complement(keep), alias, j) == 0.0
  {
    SumConstant(Credits(Complement(keep), alias, j), 0.0);
  }

  /** One row of the initial tables. */
  lemma {:induction false} UniformTables(counts: seq<nat>, prob: seq<real>, aliasProb: seq<real>, aliasIdx: seq<nat>,
                                         n: nat, r: nat)
    requires |counts| == |prob| == |aliasProb| == |aliasIdx| == n * n && r < n
    requires forall k :: 0 <= k < n * n ==> counts[k] == 1 && prob[k] == 1.0 / n as real
    requires forall k :: 0 <= k < n * n ==> aliasProb[k] == 1.0 && aliasIdx[k] == k % n
    ensures forall j: nat :: j < n ==> Row(prob, n, r)[j] == 1.0 / n as real
    ensures FollowsCounts(Row(counts, n, r), Row(prob, n, r))
    ensures RowOk(Row(prob, n, r), Row(aliasProb, n, r), Row(aliasIdx, n, r))
  {
    hide FollowsCounts, RowOk;
    forall j: nat | j < n
      ensures Row(counts, n, r)[j] == 1 && Row(prob, n, r)[j] == 1.0 / n as real
      ensures Row(aliasProb, n, r)[j] == 1.0 && Row(aliasIdx, n, r)[j] == j
    {
      UniformCell(aliasIdx, n, r, j);
      SameRow(counts, n, r, j);
      SameRow(prob, n, r, j);
      SameRow(aliasProb, n, r, j);
    }
    EqualCounts(Row(counts, n, r), Row(prob, n, r));
    UniformRowOk(Row(prob, n, r), Row(aliasProb, n, r), Row(aliasIdx, n, r));
  }

  lemma {:induction false} UniformCell(aliasIdx: seq<nat>, n: nat, r: nat, j: nat)
    requires |aliasIdx| == n * n && r < n && j < n
    requires forall k :: 0 <= k < n * n ==> aliasIdx[k] == k % n
    ensures Row(aliasIdx, n, r)[j] == j
  {
    SameRow(aliasIdx, n, r, j);
    Column(n, r, j);
  }

  /** The uniform distribution follows a row of ones. */
  lemma {:induction false} EqualCounts(counts: seq<nat>, p: seq<real>)
    requires |counts| == |p| > 0
    requires forall j :: 0 <= j < |p| ==> counts[j] == 1 && p[j] == 1.0 / |p| as real
    ensures FollowsCounts(counts, p)
  {
    TotalOfOnes(counts);
  }

  lemma Inverse(n: real)
    requires n > 0.0
    ensures n * (1.0 / n) == 1.0 && (1.0 / n) * n == 1.0
  {
  }

  /** Finished columns are written to the table; the others have given nothing away yet. */
  ghost predicate Placed(base: nat, scaled: seq<real>, give: seq<real>, to: seq<nat>, slot: seq<int>,
                         keep: seq<real>, alias: seq<nat>)
  {
    && |scaled| == |give| == |to| == |slot| && base + |scaled| <= |keep| == |alias|
    && (forall i: nat :: i < |scaled| ==>
          if slot[i] == -1 then scaled[i] + give[i] == 1.0 && keep[base + i] == scaled[i] && alias[base + i] == to[i]
          else give[i] == 0.0 && to[i] == i)
  }

  /** Recording column l after a pairing step keeps the table in step with the bookkeeping. */
  lemma {:induction false} PlacedStep(base: nat, scaled: seq<real>, give: seq<real>, to: seq<nat>, slot: seq<int>,
                                      keep: seq<real>, alias: seq<nat>, l: nat, g: nat, rest: real, pos: nat)
    requires Placed(base, scaled, give, to, slot, keep, alias)
    requires l < |scaled| && g < |scaled| && l != g && slot[l] != -1 && slot[g] != -1
    ensures Placed(base, scaled[g := rest], give[l := 1.0 - scaled[l]], to[l := g],
                   slot[l := -1][g := pos], keep[base + l := scaled[l]], alias[base + l := g])
  {
  }

  /** Everything the pairing loop keeps. */
  ghost predicate Paired(base: nat, start: seq<real>, scaled: seq<real>, give: seq<real>, to: seq<nat>,
                         slot: seq<int>, small: seq<nat>, large: seq<nat>, keep: seq<real>, alias: seq<nat>)
  {
    && InProgress(scaled, give, to, start) && WorkLists(small, large, scaled, slot)
    && Placed(base, scaled, give, to, slot, keep, alias)
  }

  lemma PairedIs(base: nat, start: seq<real>, scaled: seq<real>, give: seq<real>, to: seq<nat>,
                 slot: seq<int>, small: seq<nat>, large: seq<nat>, keep: seq<real>, alias: seq<nat>)
    requires Paired(base, start, scaled, give, to, slot, small, large, keep, alias)
    ensures InProgress(scaled, give, to, start) && WorkLists(small, large, scaled, slot)
    ensures Placed(base, scaled, give, to, slot, keep, alias)
    ensures small != [] ==> small[|small| - 1] < |scaled|
    ensures large != [] ==> large[|large| - 1] < |scaled|
  {
  }

  /** One round of the pairing loop. */
  lemma {:induction false} PairedStep(base: nat, start: seq<real>, scaled: seq<real>, give: seq<real>, to: seq<nat>,
                                      slot: seq<int>, small: seq<nat>, large: seq<nat>,
                                      keep: seq<real>, alias: seq<nat>, rest: real, pos: nat)
    requires Paired(base, start, scaled, give, to, slot, small, large, keep, alias)
    requires small != [] && large != [] && |scaled| == |give| == |to| == |slot| && base + |scaled| <= |keep| == |alias|
    requires small[|small| - 1] < |scaled| && large[|large| - 1] < |scaled|
    requires rest == scaled[large[|large| - 1]] + scaled[small[|small| - 1]] - 1.0
    requires pos == if rest < 1.0 then |small| - 1 else |large| - 1
    ensures
      var l, g := small[|small| - 1], large[|large| - 1];
      var small', large' := small[..|small| - 1], large[..|large| - 1];
      l != g &&
      if rest < 1.0
      then Paired(base, start, scaled[g := rest], give[l := 1.0 - scaled[l]], to[l := g], slot[l := -1][g := pos],
                  small' + [g], large', keep[base + l := scaled[l]], alias[base + l := g])
      else Paired(base, start, scaled[g := rest], give[l := 1.0 - scaled[l]], to[l := g], slot[l := -1][g := pos],
                  small', large' + [g], keep[base + l := scaled[l]], alias[base + l := g])
  {
    var l, g := small[|small| - 1], large[|large| - 1];
    WorkListStep(small, large, scaled, slot, l, g, rest);
    PairingStep(scaled, give, to, start, l, g);
    PlacedStep(base, scaled, give, to, slot, keep, alias, l, g, rest, pos);
  }

  /** When one work list is empty, so is the list of small columns, and every share is one. */
  lemma {:induction false} SmallRunsOut(scaled: seq<real>, give: seq<real>, slot: seq<int>,
                                        small: seq<nat>, large: seq<nat>)
    requires |scaled| == |give| && Sum(Shares(scaled, give)) == |scaled| as real
    requires WorkLists(small, large, scaled, slot)
    requires forall i :: 0 <= i < |scaled| ==> if slot[i] == -1 then scaled[i] + give[i] == 1.0 else give[i] == 0.0
    requires small == [] || large == []
    ensures small == []
    ensures forall i :: 0 <= i < |scaled| ==> scaled[i] + give[i] == 1.0
  {
    if small != [] {
      assert scaled[small[0]] + give[small[0]] < 1.0;
    }
    assert small != [] ==> exists i :: 0 <= i < |scaled| && scaled[i] + give[i] < 1.0;
    Leftovers(scaled, give);
  }

  /** Once every share is one, finished and leftover columns together form an exact row. */
  lemma {:induction false} PlacedSplits(base: nat, scaled: seq<real>, give: seq<real>, to: seq<nat>,
                                        slot: seq<int>, large: seq<nat>, mass: seq<real>,
                                        keep0: seq<real>, alias0: seq<nat>, keep: seq<real>, alias: seq<nat>)
    requires InProgress(scaled, give, to, mass) && WorkLists([], large, scaled, slot)
    requires forall i :: 0 <= i < |scaled| ==> scaled[i] + give[i] == 1.0
    requires Placed(base, scaled, give, to, slot, keep0, alias0)
    requires |keep| == |keep0| == |alias| == |alias0|
    requires Kept(base, |scaled|, large, keep0, alias0, keep, alias)
    ensures Splits(keep[base..base + |scaled|], alias[base..base + |scaled|], mass)
  {
    var k, a := keep[base..base + |scaled|], alias[base..base + |scaled|];
    forall i: nat | i < |scaled| ensures k[i] == scaled[i] && a[i] == to[i] {
      KeptColumn(base, scaled, give, to, slot, large, keep0, alias0, keep, alias, i);
    }
    FinishedSplits(scaled, give, to, mass, k, a);
  }

  lemma {:induction false} KeptColumn(base: nat, scaled: seq<real>, give: seq<real>, to: seq<nat>,
                                      slot: seq<int>, large: seq<nat>,
                                      keep0: seq<real>, alias0: seq<nat>, keep: seq<real>, alias: seq<nat>, i: nat)
    requires WorkLists([], large, scaled, slot) && i < |scaled|
    requires Placed(base, scaled, give, to, slot, keep0, alias0) && scaled[i] + give[i] == 1.0
    requires |keep| == |keep0| == |alias| == |alias0|
    requires Kept(base, |scaled|, large, keep0, alias0, keep, alias)
    ensures keep[base + i] == scaled[i] && alias[base + i] == to[i]
    ensures keep[base..base + |scaled|][i] == scaled[i] && alias[base..base + |scaled|][i] == to[i]
  {
    assert i in large ==> slot[i] != -1;
  }

  /** A leftover column keeps everything; every other column keeps its entry. */
  ghost predicate Kept(base: nat, n: nat, left: seq<nat>, keep0: seq<real>, alias0: seq<nat>,
                       keep: seq<real>, alias: seq<nat>)
    requires base + n <= |keep0| == |alias0| == |keep| == |alias|
  {
    forall i: nat :: i < n ==>
      && keep[base + i] == (if i in left then 1.0 else keep0[base + i])
      && alias[base + i] == (if i in left then i else alias0[base + i])
  }

  ghost predicate SameOutside<T>(base: nat, n: nat, s: seq<T>, t: seq<T>) {
    |s| == |t| && forall k :: 0 <= k < |s| && !(base <= k < base + n) ==> s[k] == t[k]
  }

  lemma SameOutsideTwice<T>(base: nat, n: nat, s: seq<T>, t: seq<T>, u: seq<T>)
    requires SameOutside(base, n, s, t) && SameOutside(base, n, t, u)
    ensures SameOutside(base, n, s, u)
  {
  }

  /** Every row of probabilities is the distribution of its row of counts. */
  ghost predicate AllFollow(counts: seq<nat>, prob: seq<real>, n: nat)
    requires |counts| == |prob| == n * n
  {
    forall r: nat :: r < n ==> FollowsCounts(Row(counts, n, r), Row(prob, n, r))
  }

  ghost predicate AllRowsOk(prob: seq<real>, aliasProb: seq<real>, aliasIdx: seq<nat>, n: nat)
    requires |prob| == |aliasProb| == |aliasIdx| == n * n
  {
    forall r: nat :: r < n ==> RowOk(Row(prob, n, r), Row(aliasProb, n, r), Row(aliasIdx, n, r))
  }

  class MarkovLearner {
    const n: nat
    const aliasInterval: nat
    const timePeriod: int
    const minSamples: nat

    var finds: seq<nat>
    var uses: seq<nat>
    var prob: seq<real>
    var aliasProb: seq<real>
    var aliasIdx: seq<nat>
    var stackFinds: seq<nat>
    var stackUses: seq<nat>
    var bestStack: nat
    var sinceUpdate: nat
    var totalExecs: nat
    var totalFinds: nat
    var lastUpdate: int
    var timeTriggered: nat

    /** The find counts the tables were last built from; at the start, the ones every cell begins with. */
    ghost var rebuilt: seq<nat>
    /** The feedback since then. */
    ghost var pending: seq<Execution>

    ghost predicate Shape()
      reads `finds, `uses, `prob, `aliasProb, `aliasIdx, `rebuilt, `stackFinds, `stackUses
    {
      && n > 0
      && |finds| == |uses| == |prob| == |aliasProb| == |aliasIdx| == |rebuilt| == n * n
      && |stackFinds| == |stackUses| == MAX_STACK + 1
    }

    /** What holds between any two calls: beside sound tables, the feedback that the tables do not know is shorter
        than the interval. */
    ghost predicate Valid()
      reads this
    {
      && Sound()
      && finds == FindsAfter(rebuilt, n, pending)
      && |pending| == sinceUpdate && (sinceUpdate == 0 || sinceUpdate < aliasInterval)
    }

    ghost predicate Sound()
      reads `finds, `uses, `prob, `aliasProb, `aliasIdx, `rebuilt, `stackFinds, `stackUses,
            `bestStack, `totalExecs, `totalFinds
    {
      && Shape()
      && CountsOk()
      && AllFollow(rebuilt, prob, n)
      && AllRowsOk(prob, aliasProb, aliasIdx, n)
      && FirstBest(stackFinds, bestStack)
      && totalFinds <= totalExecs
    }

    ghost predicate CountsOk()
      requires Shape()
      reads `finds, `uses, `prob, `aliasProb, `aliasIdx, `rebuilt, `stackFinds, `stackUses
    {
      forall k :: 0 <= k < n * n ==> 1 <= finds[k] <= uses[k]
    }

    constructor (numMutators: nat, aliasInterval: nat, timePeriod: int, minSamples: nat, now: int)
      ensures Valid()
      ensures n == (if numMutators < 1 then 1 else numMutators)
      ensures this.aliasInterval == aliasInterval && this.timePeriod == timePeriod && this.minSamples == minSamples
      ensures finds == uses == rebuilt == seq(n * n, _ => 1) && pending == []
      ensures forall r: nat, j: nat :: r < n && j < n ==> Row(prob, n, r)[j] == 1.0 / n as real
      ensures totalExecs == totalFinds == sinceUpdate == timeTriggered == 0 && lastUpdate == now
      ensures bestStack == MIN_STACK
      ensures stackFinds == stackUses == seq(MAX_STACK + 1, i => if MIN_STACK <= i then 1 else 0)
    {
      n := if numMutators < 1 then 1 else numMutators;
      this.aliasInterval := aliasInterval;
      this.timePeriod := timePeriod;
      this.minSamples := minSamples;
      stackFinds := seq(MAX_STACK + 1, i => 0);
      stackUses := seq(MAX_STACK + 1, i => 0);
      bestStack, sinceUpdate, totalExecs, totalFinds, timeTriggered := MIN_STACK, 0, 0, 0, 0;
      lastUpdate, pending := now, [];
      new;
      InitTables();
      InitStacks();
    }

    method InitTables()
      requires n > 0
      modifies this`finds, this`uses, this`prob, this`aliasProb, this`aliasIdx, this`rebuilt
      ensures |finds| == |uses| == |prob| == |aliasProb| == |aliasIdx| == |rebuilt| == n * n
      ensures finds == uses == rebuilt == seq(n * n, _ => 1)
      ensures AllFollow(rebuilt, prob, n) && AllRowsOk(prob, aliasProb, aliasIdx, n)
      ensures forall r: nat, j: nat :: r < n && j < n ==> Row(prob, n, r)[j] == 1.0 / n as real
    {
      var u := 1.0 / n as real;
      finds, uses := seq(n * n, _ => 1), seq(n * n, _ => 1);
      rebuilt := finds;
      prob, aliasProb := seq(n * n, _ => u), seq(n * n, _ => 1.0);
      aliasIdx := seq(n * n, k requires 0 <= k < n * n => k % n);
      forall r: nat | r < n
        ensures FollowsCounts(Row(rebuilt, n, r), Row(prob, n, r))
        ensures RowOk(Row(prob, n, r), Row(aliasProb, n, r), Row(aliasIdx, n, r))
        ensures forall j: nat :: j < n ==> Row(prob, n, r)[j] == u
      {
        hide FollowsCounts, RowOk;
        UniformTables(rebuilt, prob, aliasProb, aliasIdx, n, r);
      }
    }

    method InitStacks()
      requires |stackFinds| == |stackUses| == MAX_STACK + 1
      requires forall i :: 0 <= i <= MAX_STACK ==> stackFinds[i] == stackUses[i] == 0
      modifies this`stackFinds, this`stackUses
      ensures stackFinds == stackUses == seq(MAX_STACK + 1, i => if MIN_STACK <= i then 1 else 0)
    {
      for i := MIN_STACK to MAX_STACK + 1
        invariant |stackFinds| == |stackUses| == MAX_STACK + 1
        invariant forall k :: 0 <= k <= MAX_STACK ==>
          stackFinds[k] == stackUses[k] == (if MIN_STACK <= k < i then 1 else 0)
      {
        stackFinds, stackUses := stackFinds[i := 1], stackUses[i := 1];
      }
    }

    /** Vose's construction for one row. */
    method BuildAlias(prev: nat)
      requires Shape() && prev < n && Distribution(Row(prob, n, prev))
      modifies this`aliasProb, this`aliasIdx
      ensures Shape()
      ensures Exact(Row(aliasProb, n, prev), Row(aliasIdx, n, prev), Row(prob, n, prev))
      ensures forall r: nat :: r < n && r != prev ==>
        Row(aliasProb, n, r) == old(Row(aliasProb, n, r)) && Row(aliasIdx, n, r) == old(Row(aliasIdx, n, r))
    {
      Bounds(n, prev);
      ghost var slot;
      var scaled, small, large;
      scaled, small, large, slot := Classify(prev * n);
      SumScaled(Row(prob, n, prev));
      ghost var startProb, startIdx := aliasProb, aliasIdx;
      Pair(prev * n, scaled, small, large, slot);
      forall r: nat | r < n && r != prev
        ensures Row(aliasProb, n, r) == Row(startProb, n, r) && Row(aliasIdx, n, r) == Row(startIdx, n, r)
      {
        OtherRow(startProb, aliasProb, n, prev, r);
        OtherRow(startIdx, aliasIdx, n, prev, r);
      }
    }

    /** The first loop of BuildAlias: scale the row by n and sort its columns into small and large. */
    method Classify(base: nat)
      returns (scaled: seq<real>, small: seq<nat>, large: seq<nat>, ghost slot: seq<int>)
      requires n > 0 && base + n <= |prob|
      ensures scaled == Scaled(prob[base..base + n])
      ensures WorkLists(small, large, scaled, slot) && forall i :: 0 <= i < n ==> slot[i] != -1
    {
      scaled, small, large, slot := [], [], [], [];
      ghost var mass := Scaled(prob[base..base + n]);
      assert WorkLists(small, large, scaled, slot);
      hide WorkLists, Scaled;
      for i := 0 to n
        invariant |scaled| == |slot| == i && scaled == mass[..i]
        invariant WorkLists(small, large, scaled, slot) && forall k :: 0 <= k < i ==> slot[k] != -1
      {
        var share := prob[base + i] * n as real;
        assert share == mass[i] by { ScaledCell(prob, base, n, i); }
        WorkListAdd(small, large, scaled, slot, share);
        assert mass[..i + 1] == mass[..i] + [share];
        scaled := scaled + [share];
        assert scaled == mass[..i + 1];
        assert |scaled| == i + 1;
        if share < 1.0 {
          small, slot := small + [i], slot + [|small|];
        } else {
          large, slot := large + [i], slot + [|large|];
        }
      }
      assert mass[..n] == mass;
    }

    /** The second half of BuildAlias: pair small columns with large ones, then place what is left. */
    method Pair(base: nat, start: seq<real>, small0: seq<nat>, large0: seq<nat>, ghost slot0: seq<int>)
      requires |start| == n && base + n <= |aliasProb| == |aliasIdx|
      requires Sum(start) == n as real && forall i :: 0 <= i < n ==> 0.0 <= start[i]
      requires WorkLists(small0, large0, start, slot0) && forall i :: 0 <= i < n ==> slot0[i] != -1
      modifies this`aliasProb, this`aliasIdx
      ensures SameOutside(base, n, old(aliasProb), aliasProb) && SameOutside(base, n, old(aliasIdx), aliasIdx)
      ensures Splits(aliasProb[base..base + n], aliasIdx[base..base + n], start)
    {
      ghost var scaled, give, to, slot;
      var small, large;
      small, large, scaled, give, to, slot := PairLoop(base, start, small0, large0, slot0);
      ghost var keep0, alias0 := aliasProb, aliasIdx;
      SmallRunsOut(scaled, give, slot, small, large);
      PlaceLeftovers(base, large);
      PlaceLeftovers(base, small);
      forall i: nat | i < n
        ensures aliasProb[base + i] == (if i in large then 1.0 else keep0[base + i])
        ensures aliasIdx[base + i] == (if i in large then i else alias0[base + i])
      {
        assert i !in small;
        assert i in large || i !in large;
      }
      PlacedSplits(base, scaled, give, to, slot, large, start, keep0, alias0, aliasProb, aliasIdx);
    }

    /** One round: a small column is finished, and the large one it takes from goes back to its list. */
    method PairOnce(base: nat, ghost start: seq<real>, scaled: seq<real>, small: seq<nat>, large: seq<nat>,
                    ghost give: seq<real>, ghost to: seq<nat>, ghost slot: seq<int>)
      returns (small': seq<nat>, large': seq<nat>, scaled': seq<real>,
               ghost give': seq<real>, ghost to': seq<nat>, ghost slot': seq<int>)
      requires small != [] && large != []
      requires Paired(base, start, scaled, give, to, slot, small, large, aliasProb, aliasIdx)
      requires |scaled| == |give| == |to| == |slot| == n && base + n <= |aliasProb| == |aliasIdx|
      modifies this`aliasProb, this`aliasIdx
      ensures Paired(base, start, scaled', give', to', slot', small', large', aliasProb, aliasIdx)
      ensures |scaled'| == |give'| == |to'| == |slot'| == n && |aliasProb| == |aliasIdx| == old(|aliasProb|)
      ensures SameOutside(base, n, old(aliasProb), aliasProb) && SameOutside(base, n, old(aliasIdx), aliasIdx)
      ensures |small'| + |large'| == |small| + |large| - 1
    {
      PairedIs(base, start, scaled, give, to, slot, small, large, aliasProb, aliasIdx);
      hide Paired, InProgress, WorkLists, Placed;
      var l, g := small[|small| - 1], large[|large| - 1];
      var rest := scaled[g] + scaled[l] - 1.0;
      ghost var pos := if rest < 1.0 then |small| - 1 else |large| - 1;
      PairedStep(base, start, scaled, give, to, slot, small, large, aliasProb, aliasIdx, rest, pos);
      small', large' := small[..|small| - 1], large[..|large| - 1];
      aliasProb := aliasProb[base + l := scaled[l]];
      aliasIdx := aliasIdx[base + l := g];
      give', to', slot' := give[l := 1.0 - scaled[l]], to[l := g], slot[l := -1][g := pos];
      scaled' := scaled[g := rest];
      if scaled'[g] < 1.0 {
        small' := small' + [g];
      } else {
        large' := large' + [g];
      }
    }

    /** The pairing loop; the ghost results say how the remaining shares and the table split the row. */
    method PairLoop(base: nat, start: seq<real>, small0: seq<nat>, large0: seq<nat>, ghost slot0: seq<int>)
      returns (small: seq<nat>, large: seq<nat>,
               ghost scaled': seq<real>, ghost give: seq<real>, ghost to: seq<nat>, ghost slot: seq<int>)
      requires |start| == n && base + n <= |aliasProb| == |aliasIdx|
      requires Sum(start) == n as real && forall i :: 0 <= i < n ==> 0.0 <= start[i]
      requires WorkLists(small0, large0, start, slot0) && forall i :: 0 <= i < n ==> slot0[i] != -1
      modifies this`aliasProb, this`aliasIdx
      ensures SameOutside(base, n, old(aliasProb), aliasProb) && SameOutside(base, n, old(aliasIdx), aliasIdx)
      ensures small == [] || large == []
      ensures InProgress(scaled', give, to, start) && WorkLists(small, large, scaled', slot)
      ensures Placed(base, scaled', give, to, slot, aliasProb, aliasIdx)
    {
      var scaled := start;
      small, large, slot := small0, large0, slot0;
      give, to := seq(n, _ => 0.0), seq(n, i requires 0 <= i < n => i);
      StartInProgress(scaled, give, to);
      assert Paired(base, start, scaled, give, to, slot, small, large, aliasProb, aliasIdx);
      hide Paired, InProgress, WorkLists, Placed, SameOutside, Sum;
      while small != [] && large != []
        invariant Paired(base, start, scaled, give, to, slot, small, large, aliasProb, aliasIdx)
        invariant |scaled| == |give| == |to| == |slot| == n && base + n <= |aliasProb| == |aliasIdx|
        invariant SameOutside(base, n, old(aliasProb), aliasProb) && SameOutside(base, n, old(aliasIdx), aliasIdx)
        decreases |small| + |large|
      {
        ghost var keep, alias := aliasProb, aliasIdx;
        small, large, scaled, give, to, slot := PairOnce(base, start, scaled, small, large, give, to, slot);
        SameOutsideTwice(base, n, old(aliasProb), keep, aliasProb);
        SameOutsideTwice(base, n, old(aliasIdx), alias, aliasIdx);
      }
      PairedIs(base, start, scaled, give, to, slot, small, large, aliasProb, aliasIdx);
      scaled' := scaled;
    }

    /** The two leftover loops: a leftover column keeps everything. */
    method PlaceLeftovers(base: nat, left: seq<nat>)
      requires base + n <= |aliasProb| == |aliasIdx|
      requires forall i :: i in left ==> i < n
      modifies this`aliasProb, this`aliasIdx
      ensures SameOutside(base, n, old(aliasProb), aliasProb) && SameOutside(base, n, old(aliasIdx), aliasIdx)
      ensures Kept(base, n, left, old(aliasProb), old(aliasIdx), aliasProb, aliasIdx)
    {
      for k := 0 to |left|
        invariant SameOutside(base, n, old(aliasProb), aliasProb) && SameOutside(base, n, old(aliasIdx), aliasIdx)
        invariant base + n <= |aliasProb| == |aliasIdx|
        invariant Kept(base, n, left[..k], old(aliasProb), old(aliasIdx), aliasProb, aliasIdx)
      {
        var g := left[k];
        assert g in left;
        aliasProb := aliasProb[base + g := 1.0];
        aliasIdx := aliasIdx[base + g := g];
        assert left[..k + 1] == left[..k] + [g];
      }
      assert left[..|left|] == left;
    }

    /** One row of rebuildAlias: probabilities from the counts, then the alias table from the probabilities. */
    method RebuildRow(prev: nat)
      requires Shape() && CountsOk() && prev < n
      modifies this`prob, this`aliasProb, this`aliasIdx
      ensures Shape() && CountsOk()
      ensures FollowsCounts(Row(finds, n, prev), Row(prob, n, prev))
      ensures RowOk(Row(prob, n, prev), Row(aliasProb, n, prev), Row(aliasIdx, n, prev))
      ensures forall r: nat :: r < n && r != prev ==>
        && Row(prob, n, r) == old(Row(prob, n, r))
        && Row(aliasProb, n, r) == old(Row(aliasProb, n, r)) && Row(aliasIdx, n, r) == old(Row(aliasIdx, n, r))
    {
      Bounds(n, prev);
      ghost var counts := Row(finds, n, prev);
      ghost var prob0 := prob;
      var total := RowTotal(prev * n);
      assert total > 0 by {
        PositiveTotal(finds, n, prev);
      }
      if total > 0 {
        FillRow(prev * n, total);
      }
      FollowingIsDistribution(counts, Row(prob, n, prev));
      assert forall j :: 0 <= j < n ==> Row(prob, n, prev)[j] > 0.0 by {
        CountsPositive(finds, n, prev);
      }
      BuildAlias(prev);
      forall r: nat | r < n && r != prev ensures Row(prob, n, r) == Row(prob0, n, r) {
        OtherRow(prob0, prob, n, prev, r);
      }
    }

    method RowTotal(base: nat) returns (total: nat)
      requires base + n <= |finds|
      ensures total == Total(finds[base..base + n])
    {
      total := 0;
      ghost var row := finds[base..base + n];
      for j := 0 to n
        invariant total == Total(row[..j])
      {
        TotalStep(row, j);
        total := total + finds[base + j];
      }
      assert row[..n] == row;
    }

    method FillRow(base: nat, total: nat)
      requires base + n <= |finds| == |prob| && total > 0
      requires total == Total(finds[base..base + n])
      modifies this`prob
      ensures SameOutside(base, n, old(prob), prob)
      ensures FollowsCounts(finds[base..base + n], prob[base..base + n])
    {
      for j := 0 to n
        invariant SameOutside(base, n, old(prob), prob)
        invariant forall k :: base <= k < base + j ==> prob[k] == finds[k] as real / total as real
      {
        prob := prob[base + j := finds[base + j] as real / total as real];
      }
    }

    method RebuildAlias()
      requires Sound()
      modifies this`prob, this`aliasProb, this`aliasIdx, this`rebuilt
      ensures Sound() && rebuilt == finds
    {
      for prev := 0 to n
        invariant Shape() && CountsOk()
        invariant forall r: nat :: r < prev ==> FollowsCounts(Row(finds, n, r), Row(prob, n, r))
        invariant forall r: nat :: r < prev ==> RowOk(Row(prob, n, r), Row(aliasProb, n, r), Row(aliasIdx, n, r))
      {
        RebuildRow(prev);
      }
      rebuilt := finds;
    }

    method UpdateBestStack()
      requires |stackFinds| == MAX_STACK + 1
      requires exists i :: MIN_STACK <= i <= MAX_STACK && stackFinds[i] > 0
      modifies this`bestStack
      ensures FirstBest(stackFinds, bestStack)
    {
      var maxf, best := 0, MIN_STACK;
      for i := MIN_STACK to MAX_STACK + 1
        invariant MIN_STACK <= best <= MAX_STACK
        invariant forall k :: MIN_STACK <= k < i ==> stackFinds[k] <= maxf
        invariant maxf > 0 ==> best < i && stackFinds[best] == maxf
        invariant maxf > 0 ==> forall k :: MIN_STACK <= k < best ==> stackFinds[k] < maxf
      {
        if stackFinds[i] > maxf {
          maxf, best := stackFinds[i], i;
        }
      }
      bestStack := best;
    }

    /** Count one execution's operator sequence, and rebuild the tables when the trigger fires. */
    method Update(ops: seq<nat>, found: bool, now: int)
      requires Valid()
      modifies this
      ensures Valid()
      ensures totalExecs == old(totalExecs) + 1 && totalFinds == old(totalFinds) + (if found then 1 else 0)
      ensures uses == CountPairs(old(uses), n, ops)
      ensures finds == if found then CountPairs(old(finds), n, ops) else old(finds)
      ensures stackUses == old(stackUses)[StackSlot(|ops|) := old(stackUses)[StackSlot(|ops|)] + 1]
      ensures stackFinds == if found then old(stackFinds)[StackSlot(|ops|) := old(stackFinds)[StackSlot(|ops|)] + 1]
                            else old(stackFinds)
      ensures !found ==> bestStack == old(bestStack)
      ensures var since := old(sinceUpdate) + 1;
        var full, due := since >= aliasInterval, now - old(lastUpdate) >= timePeriod && since >= minSamples;
        if full || due then
          && sinceUpdate == 0 && pending == [] && rebuilt == finds && lastUpdate == now
          && timeTriggered == old(timeTriggered) + (if full then 0 else 1)
        else
          && sinceUpdate == since && pending == old(pending) + [Execution(ops, found)] && rebuilt == old(rebuilt)
          && lastUpdate == old(lastUpdate) && timeTriggered == old(timeTriggered)
          && prob == old(prob) && aliasProb == old(aliasProb) && aliasIdx == old(aliasIdx)
    {
      OneMoreRun(rebuilt, n, pending, Execution(ops, found));
      hide Sound, CountPairs, FindsAfter;
      Record(ops, found);
      pending := pending + [Execution(ops, found)];
      MaybeRebuild(now);
    }

    /** The bookkeeping half of Update. */
    method Record(ops: seq<nat>, found: bool)
      requires Sound()
      modifies this`totalExecs, this`totalFinds, this`uses, this`finds, this`stackUses, this`stackFinds, this`bestStack
      ensures Sound()
      ensures totalExecs == old(totalExecs) + 1 && totalFinds == old(totalFinds) + (if found then 1 else 0)
      ensures uses == CountPairs(old(uses), n, ops)
      ensures finds == if found then CountPairs(old(finds), n, ops) else old(finds)
      ensures stackUses == old(stackUses)[StackSlot(|ops|) := old(stackUses)[StackSlot(|ops|)] + 1]
      ensures stackFinds == if found then old(stackFinds)[StackSlot(|ops|) := old(stackFinds)[StackSlot(|ops|)] + 1]
                            else old(stackFinds)
      ensures !found ==> bestStack == old(bestStack)
    {
      hide AllFollow, AllRowsOk, CountPairs, FirstBest;
      totalExecs := totalExecs + 1;
      if found {
        totalFinds := totalFinds + 1;
      }
      CountTransitions(ops, found);
      var st := StackSlot(|ops|);
      stackUses := stackUses[st := stackUses[st] + 1];
      if found {
        stackFinds := stackFinds[st := stackFinds[st] + 1];
        assert stackFinds[st] > 0;
        UpdateBestStack();
      }
    }

    /** The trigger half of Update: whichever of the execution count and the time limit comes first. */
    method MaybeRebuild(now: int)
      requires Sound() && finds == FindsAfter(rebuilt, n, pending) && |pending| == sinceUpdate + 1
      modifies this`sinceUpdate, this`timeTriggered, this`lastUpdate, this`prob, this`aliasProb, this`aliasIdx,
               this`rebuilt, this`pending
      ensures Valid()
      ensures var since := old(sinceUpdate) + 1;
        var full, due := since >= aliasInterval, now - old(lastUpdate) >= timePeriod && since >= minSamples;
        if full || due then
          && sinceUpdate == 0 && pending == [] && rebuilt == finds && lastUpdate == now
          && timeTriggered == old(timeTriggered) + (if full then 0 else 1)
        else
          && sinceUpdate == since && pending == old(pending) && rebuilt == old(rebuilt)
          && lastUpdate == old(lastUpdate) && timeTriggered == old(timeTriggered)
          && prob == old(prob) && aliasProb == old(aliasProb) && aliasIdx == old(aliasIdx)
    {
      hide Sound;
      sinceUpdate := sinceUpdate + 1;
      var execTrigger := sinceUpdate >= aliasInterval;
      var timeTrigger := now - lastUpdate >= timePeriod && sinceUpdate >= minSamples;
      if execTrigger || timeTrigger {
        sinceUpdate := 0;
        if timeTrigger && !execTrigger {
          timeTriggered := timeTriggered + 1;
        }
        RebuildAlias();
        pending := [];
        lastUpdate := now;
      }
    }

    /** The transition counts of Update. */
    method CountTransitions(ops: seq<nat>, found: bool)
      requires Shape() && CountsOk()
      modifies this`uses, this`finds
      ensures Shape() && CountsOk()
      ensures uses == CountPairs(old(uses), n, ops)
      ensures finds == if found then CountPairs(old(finds), n, ops) else old(finds)
    {
      CountsStayOk(finds, uses, n, ops, found);
      CountLoop(ops, found);
    }

    method CountLoop(ops: seq<nat>, found: bool)
      requires |uses| == |finds| == n * n
      modifies this`uses, this`finds
      ensures uses == CountPairs(old(uses), n, ops)
      ensures finds == if found then CountPairs(old(finds), n, ops) else old(finds)
    {
      assert CountPairs(uses, n, ops[..0]) == uses && CountPairs(finds, n, ops[..0]) == finds;
      hide ToInt, Cell, CountPairs;
      var prev := -1;
      for i := 0 to |ops|
        invariant prev == if i == 0 then -1 else ToInt(ops[i - 1])
        invariant uses == CountPairs(old(uses), n, ops[..i])
        invariant finds == if found then CountPairs(old(finds), n, ops[..i]) else old(finds)
      {
        var curr := ops[i];
        CountPairsStep(old(uses), n, ops, i);
        CountPairsStep(old(finds), n, ops, i);
        if 0 <= prev < ToInt(n) && curr < n {
          CellAt(n, ops[i - 1], curr);
          var idx := prev * n + curr;
          uses := uses[idx := uses[idx] + 1];
          if found {
            finds := finds[idx := finds[idx] + 1];
          }
        }
        prev := ToInt(curr);
      }
      assert ops[..|ops|] == ops;
    }

    /** An alias draw for the successor of prev; column and u are the two random draws. */
    method SampleAlias(prev: nat, column: nat, u: real) returns (next: nat)
      requires Valid() && prev < n && column < n && 0.0 <= u < 1.0
      ensures next < n
      ensures next == Pick(Row(aliasProb, n, prev), Row(aliasIdx, n, prev), column, u)
    {
      SameRow(aliasProb, n, prev, column);
      SameRow(aliasIdx, n, prev, column);
      assert RowOk(Row(prob, n, prev), Row(aliasProb, n, prev), Row(aliasIdx, n, prev));
      var idx := prev * n + column;
      if u < aliasProb[idx] {
        return column;
      }
      return aliasIdx[idx];
    }

    /** The operator after prev: uniform when there is no in-range predecessor, an alias draw otherwise. */
    method SelectNext(prev: int, draw: Draw) returns (next: nat)
      requires Valid() && DrawOk(draw)
      ensures next < n
      ensures next == if prev < 0 || prev >= ToInt(n) then draw.uniform
                      else Pick(Row(aliasProb, n, prev), Row(aliasIdx, n, prev), draw.column, draw.u)
    {
      if prev < 0 || prev >= ToInt(n) {
        return draw.uniform;
      }
      next := SampleAlias(prev, draw.column, draw.u);
    }

    /** What the alias tables select after prev. */
    ghost function Follower(prev: nat, draw: Draw): nat
      requires Valid() && prev < n && DrawOk(draw)
      reads this
    {
      Pick(Row(aliasProb, n, prev), Row(aliasIdx, n, prev), draw.column, draw.u)
    }

    predicate DrawOk(draw: Draw) {
      draw.uniform < n && draw.column < n && 0.0 <= draw.u < 1.0
    }

    /** Epsilon-greedy stack size: a uniform size while exploring, the best one otherwise. */
    method SelectStack(u: real, uniform: nat, elapsedMs: nat) returns (size: nat)
      requires Valid() && 0.0 <= u < 1.0 && MIN_STACK <= uniform <= MAX_STACK
      ensures MIN_STACK <= size <= MAX_STACK
      ensures size == if elapsedMs < EPSILON_DECAY_MS || u < 0.5 then uniform else bestStack
    {
      var epsilon := if elapsedMs >= EPSILON_DECAY_MS then 0.5 else 1.0;
      if u < epsilon {
        return uniform;
      }
      return bestStack;
    }

    /** A whole mutation sequence: every operator is in range, and the length is a legal stack size. */
    method GenerateSequence(size: nat, draws: seq<Draw>) returns (ops: seq<nat>)
      requires Valid() && MIN_STACK <= size <= MAX_STACK && |draws| == size
      requires forall i :: 0 <= i < size ==> DrawOk(draws[i])
      ensures |ops| == size && forall i :: 0 <= i < size ==> ops[i] < n
      ensures ops[0] == draws[0].uniform
      ensures n < 0x8000_0000 ==> forall i: nat :: 0 < i < size ==>
        ops[i] == Follower(ops[i - 1], draws[i])
    {
      ops := [];
      var prev := -1;
      for i := 0 to size
        invariant |ops| == i && forall k :: 0 <= k < i ==> ops[k] < n
        invariant prev == if i == 0 then -1 else ToInt(ops[i - 1])
        invariant i > 0 ==> ops[0] == draws[0].uniform
        invariant n < 0x8000_0000 ==> forall k: nat :: 0 < k < i ==>
          ops[k] == Follower(ops[k - 1], draws[k])
      {
        var next := SelectNext(prev, draws[i]);
        ops := ops + [next];
        prev := ToInt(next);
      }
    }
  }

  /** The random inputs of one operator choice. */
  datatype Draw = Draw(uniform: nat, column: nat, u: real)

  /** Headline for the learner: in every reachable state the constant-time sampler draws successor j of prev
      with exactly the probability the learner holds, and no successor is impossible. */
  lemma {:induction false} SamplerDrawsProbabilities(m: MarkovLearner, prev: nat, j: nat)
    requires m.Valid() && prev < m.n && j < m.n
    ensures DrawProbability(Row(m.aliasProb, m.n, prev), Row(m.aliasIdx, m.n, prev), j) == Row(m.prob, m.n, prev)[j]
    ensures Row(m.prob, m.n, prev)[j] > 0.0
  {
    assert RowOk(Row(m.prob, m.n, prev), Row(m.aliasProb, m.n, prev), Row(m.aliasIdx, m.n, prev));
    DrawsExactly(Row(m.aliasProb, m.n, prev), Row(m.aliasIdx, m.n, prev), Row(m.prob, m.n, prev), j);
  }

  /** In counts: in every reachable state the sampler draws j after prev with probability finds / total of the row,
      as the counts stood at the last rebuild. */
  lemma {:induction false} SamplerDrawsCounts(m: MarkovLearner, prev: nat, j: nat)
    requires m.Valid() && prev < m.n && j < m.n
    ensures Total(Row(m.rebuilt, m.n, prev)) > 0
    ensures DrawProbability(Row(m.aliasProb, m.n, prev), Row(m.aliasIdx, m.n, prev), j)
            == Row(m.rebuilt, m.n, prev)[j] as real / Total(Row(m.rebuilt, m.n, prev)) as real
  {
    SamplerDrawsProbabilities(m, prev, j);
    assert FollowsCounts(Row(m.rebuilt, m.n, prev), Row(m.prob, m.n, prev));
  }

  /** How far the tables lag behind: in every reachable state the counts they follow are the present ones without
      the feedback of fewer than aliasInterval executions. */
  lemma {:induction false} TablesLag(m: MarkovLearner)
    requires m.Valid()
    ensures |m.pending| == 0 || |m.pending| < m.aliasInterval
    ensures m.finds == FindsAfter(m.rebuilt, m.n, m.pending)
    ensures Total(m.finds) == Total(m.rebuilt) + FoundPairs(m.n, m.pending)
    ensures forall k :: 0 <= k < m.n * m.n ==> m.rebuilt[k] <= m.finds[k]
  {
    FindsGrow(m.rebuilt, m.n, m.pending);
  }

  /** A sequence of in-range operators books every one of its transitions. */
  lemma {:induction false} AllPairsCounted(n: nat, ops: seq<nat>)
    requires n < 0x8000_0000 && forall i :: 0 <= i < |ops| ==> ops[i] < n
    ensures CountedPairs(n, ops) == if |ops| < 2 then 0 else |ops| - 1
  {
    if |ops| < 2 {
    } else {
      AllPairsCounted(n, ops[..|ops| - 1]);
    }
  }

  lemma CountsPositive(finds: seq<nat>, n: nat, r: nat)
    requires |finds| == n * n && r < n
    requires forall k :: 0 <= k < n * n ==> 1 <= finds[k]
    ensures forall j :: 0 <= j < n ==> Row(finds, n, r)[j] > 0
  {
    forall j: nat | j < n ensures Row(finds, n, r)[j] > 0 {
      SameRow(finds, n, r, j);
    }
  }

  lemma PositiveTotal(finds: seq<nat>, n: nat, r: nat)
    requires |finds| == n * n && r < n
    requires forall k :: 0 <= k < n * n ==> 1 <= finds[k]
    ensures Total(Row(finds, n, r)) > 0
  {
    CountsPositive(finds, n, r);
    TotalAtLeast(Row(finds, n, r), 0);
  }
}
