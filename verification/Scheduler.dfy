/** The trial scheduler of a local experiment with a CPU budget: expired trials free their core sets, pending trials
    are started on free ones. Starting a trial may fail; the shuffle and the clock are inputs. */
module Scheduler {
  import opened Naturals
  import opened Options
  import opened Sets

  const GRACE_TIME_SECONDS: int := 300

  datatype Trial = Trial(started: Option<int>, ended: Option<int>) {
    predicate Pending() {
      started.None?
    }

    predicate Running() {
      started.Some? && ended.None?
    }

    predicate Expired(now: int, maxTotalTime: int) {
      Running() && started.value <= now - (maxTotalTime + GRACE_TIME_SECONDS)
    }
  }

  /** The cores from first to last. */
  datatype CpuSet = CpuSet(first: nat, last: nat)

  type CoreTable = map<CpuSet, Option<nat>>

  predicate DisjointSets(a: CpuSet, b: CpuSet) {
    a.last < b.first || b.last < a.first
  }

  /** Equal, disjoint ranges of cores inside the budget, as many as fit. */
  ghost predicate Partition(order: seq<CpuSet>, runnersCpus: nat, cores: nat)
    requires cores > 0
  {
    && |order| == runnersCpus / cores
    && (forall i :: 0 <= i < |order| ==> order[i].last == order[i].first + cores - 1 && order[i].last < runnersCpus)
    && (forall i, j :: 0 <= i < j < |order| ==> DisjointSets(order[i], order[j]) && order[i] != order[j])
  }

  lemma Scale(a: nat, b: nat, c: nat)
    requires a <= b
    ensures a * c <= b * c
  {
    assert (b - a) * c >= 0;
  }

  lemma Fits(n: nat, cores: nat, runnersCpus: nat)
    requires cores > 0 && n == runnersCpus / cores
    ensures n * cores <= runnersCpus
  {
  }

  /** Block i of n ends where the next one can start, and inside the budget. */
  lemma BlockEnd(i: nat, j: nat, cores: nat)
    requires i < j
    ensures i * cores + cores <= j * cores
  {
    Scale(i + 1, j, cores);
    assert (i + 1) * cores == i * cores + cores;
  }

  method BuildCoreTable(runnersCpus: nat, cores: nat) returns (order: seq<CpuSet>, core: CoreTable)
    requires cores > 0
    ensures Partition(order, runnersCpus, cores)
    ensures forall c :: c in core <==> c in order
    ensures forall c :: c in core ==> core[c] == None
  {
    var processes := runnersCpus / cores;
    order, core := [], map[];
    var cpu := 0;
    while cpu < cores * processes
      invariant |order| <= processes && cpu == |order| * cores
      invariant forall i :: 0 <= i < |order| ==> order[i] == CpuSet(i * cores, i * cores + cores - 1)
      invariant forall c :: c in core <==> c in order
      invariant forall c :: c in core ==> core[c] == None
    {
      FewerBlocks(|order|, processes, cores);
      var c := CpuSet(cpu, cpu + cores - 1);
      order := order + [c];
      core := core[c := None];
      cpu := cpu + cores;
    }
    assert |order| < processes ==> (processes - |order|) * cores > 0;
    TableIsPartition(order, runnersCpus, cores);
  }

  lemma FewerBlocks(k: nat, n: nat, cores: nat)
    requires k * cores < cores * n
    ensures k < n
  {
    assert k >= n ==> (k - n) * cores >= 0;
  }

  lemma {:induction false} TableIsPartition(order: seq<CpuSet>, runnersCpus: nat, cores: nat)
    requires cores > 0 && |order| == runnersCpus / cores
    requires forall i :: 0 <= i < |order| ==> order[i] == CpuSet(i * cores, i * cores + cores - 1)
    ensures Partition(order, runnersCpus, cores)
  {
    forall i, j | 0 <= i < j < |order| ensures DisjointSets(order[i], order[j]) && order[i] != order[j] {
      BlockEnd(i, j, cores);
    }
    forall i | 0 <= i < |order| ensures order[i].last < runnersCpus {
      BlockEnd(i, |order|, cores);
      Fits(|order|, cores, runnersCpus);
    }
  }

  /** The trials and the core table. */
  datatype Books = Books(trials: seq<Trial>, core: CoreTable)

  ghost predicate Owns(b: Books, t: nat, c: CpuSet) {
    c in b.core && b.core[c] == Some(t)
  }

  /** Every allocated core set belongs to one running trial, and every running trial owns exactly one core set. */
  ghost predicate BooksOk(b: Books, order: seq<CpuSet>) {
    && (forall c :: c in b.core <==> c in order)
    && (forall c, t: nat :: Owns(b, t, c) ==> t < |b.trials| && b.trials[t].Running())
    && (forall c, d, t: nat :: Owns(b, t, c) && Owns(b, t, d) ==> c == d)
    && (forall t: nat :: t < |b.trials| && b.trials[t].Running() ==> exists c :: Owns(b, t, c))
  }

  /** Two running trials never share a core. */
  lemma NoSharedCores(b: Books, order: seq<CpuSet>, runnersCpus: nat, cores: nat, t: nat, u: nat, c: CpuSet, d: CpuSet)
    requires cores > 0 && Partition(order, runnersCpus, cores) && BooksOk(b, order)
    requires Owns(b, t, c) && Owns(b, u, d) && t != u
    ensures DisjointSets(c, d)
  {
    var i :| 0 <= i < |order| && order[i] == c;
    var j :| 0 <= j < |order| && order[j] == d;
    assert i != j;
    if i < j {
      assert DisjointSets(order[i], order[j]);
    } else {
      assert DisjointSets(order[j], order[i]);
    }
  }

  ghost function RunningTrials(b: Books): set<nat> {
    set t: nat | t < |b.trials| && b.trials[t].Running()
  }

  /** The owners of the first k core sets. */
  ghost function OwnersOf(b: Books, order: seq<CpuSet>, k: nat): (s: set<nat>)
    requires k <= |order|
    ensures |s| <= k
    ensures forall t :: t in s <==> exists i :: 0 <= i < k && Owns(b, t, order[i])
  {
    if k == 0 then {}
    else
      var before := OwnersOf(b, order, k - 1);
      var c := order[k - 1];
      if c in b.core && b.core[c].Some? then before + {b.core[c].value} else before
  }

  /** Never more running trials than core sets. */
  lemma {:induction false} RunningFitBudget(b: Books, order: seq<CpuSet>, runnersCpus: nat, cores: nat)
    requires cores > 0 && Partition(order, runnersCpus, cores) && BooksOk(b, order)
    ensures |RunningTrials(b)| <= runnersCpus / cores
  {
    var owners := OwnersOf(b, order, |order|);
    forall t | t in RunningTrials(b) ensures t in owners {
      var c :| Owns(b, t, c);
      var i :| 0 <= i < |order| && order[i] == c;
      assert Owns(b, t, order[i]);
    }
    SubsetSize(RunningTrials(b), owners);
  }

  /** Expired trials end and their core sets become free. */
  ghost function Ended(b: Books, now: int, maxTotalTime: int): Books {
    Books(
      seq(|b.trials|, t requires 0 <= t < |b.trials| =>
        if b.trials[t].Expired(now, maxTotalTime) then b.trials[t].(ended := Some(now)) else b.trials[t]),
      map c | c in b.core :: if Released(b, c, now, maxTotalTime) then None else b.core[c])
  }

  predicate Released(b: Books, c: CpuSet, now: int, maxTotalTime: int)
    requires c in b.core
  {
    b.core[c].Some? && b.core[c].value < |b.trials| && b.trials[b.core[c].value].Expired(now, maxTotalTime)
  }

  lemma {:induction false} EndingKeepsBooks(b: Books, order: seq<CpuSet>, now: int, maxTotalTime: int)
    requires BooksOk(b, order)
    ensures BooksOk(Ended(b, now, maxTotalTime), order)
  {
    var e := Ended(b, now, maxTotalTime);
    forall c, t: nat | Owns(e, t, c) ensures t < |e.trials| && e.trials[t].Running() {
      assert Owns(b, t, c);
    }
    forall c, d, t: nat | Owns(e, t, c) && Owns(e, t, d) ensures c == d {
      assert Owns(b, t, c) && Owns(b, t, d);
    }
    forall t: nat | t < |e.trials| && e.trials[t].Running() ensures exists c :: Owns(e, t, c) {
      var c :| Owns(b, t, c);
      assert Owns(e, t, c);
    }
  }

  /** One start: when it succeeds, the trial is marked started and gets the core set. */
  ghost function StartOne(b: Books, t: nat, c: CpuSet, at: Option<int>): Books
    requires t < |b.trials|
  {
    if at.None? then b else Books(b.trials[t := b.trials[t].(started := at)], b.core[c := Some(t)])
  }

  lemma {:induction false} StartKeepsBooks(b: Books, order: seq<CpuSet>, t: nat, c: CpuSet, at: Option<int>)
    requires BooksOk(b, order) && t < |b.trials| && b.trials[t].Pending() && b.trials[t].ended.None?
    requires c in b.core && b.core[c] == None
    ensures BooksOk(StartOne(b, t, c, at), order)
  {
    if at.Some? {
      var n := StartOne(b, t, c, at);
      forall d, u: nat | Owns(n, u, d) ensures u < |n.trials| && n.trials[u].Running() {
        assert d != c ==> Owns(b, u, d);
      }
      forall d, e, u: nat | Owns(n, u, d) && Owns(n, u, e) ensures d == e {
        assert d != c ==> Owns(b, u, d);
        assert e != c ==> Owns(b, u, e);
      }
      forall u: nat | u < |n.trials| && n.trials[u].Running() ensures exists d :: Owns(n, u, d) {
        if u == t {
          assert Owns(n, t, c);
        } else {
          var d :| Owns(b, u, d);
          assert Owns(n, u, d);
        }
      }
    }
  }

  /** The first n trials of the list start on the first n free core sets, as far as their starts succeed. */
  ghost function Placed(b: Books, ids: seq<nat>, free: seq<CpuSet>, n: nat, outcome: nat -> Option<int>): (r: Books)
    requires n <= |ids| && n <= |free| && forall k :: 0 <= k < n ==> ids[k] < |b.trials|
    ensures |r.trials| == |b.trials|
  {
    if n == 0 then b
    else StartOne(Placed(b, ids, free, n - 1, outcome), ids[n - 1], free[n - 1], outcome(ids[n - 1]))
  }

  ghost predicate Distinct<T>(s: seq<T>) {
    forall i, j :: 0 <= i < j < |s| ==> s[i] != s[j]
  }

  /** The list holds pending trials, the free list holds free core sets, none twice. */
  ghost predicate Startable(b: Books, ids: seq<nat>, free: seq<CpuSet>) {
    && Distinct(ids) && Distinct(free)
    && (forall k :: 0 <= k < |ids| ==> ids[k] < |b.trials| && b.trials[ids[k]] == Trial(None, None))
    && (forall k :: 0 <= k < |free| ==> free[k] in b.core && b.core[free[k]] == None)
  }

  ghost predicate Among<T(!new)>(s: seq<T>, n: nat, x: T)
    requires n <= |s|
  {
    exists k :: 0 <= k < n && s[k] == x
  }

  /** What n starts leave alone, and what they do. */
  lemma {:induction false} PlacedEffect(b: Books, ids: seq<nat>, free: seq<CpuSet>, n: nat, outcome: nat -> Option<int>)
    requires Startable(b, ids, free) && n <= |ids| && n <= |free|
    ensures var r := Placed(b, ids, free, n, outcome);
      && (forall t: nat :: t < |b.trials| && !Among(ids, n, t) ==> r.trials[t] == b.trials[t])
      && (forall k :: 0 <= k < n ==> r.trials[ids[k]] == Trial(outcome(ids[k]), None))
  {
    if n == 0 {
    } else {
      PlacedEffect(b, ids, free, n - 1, outcome);
    }
  }

  lemma {:induction false} PlacedCores(b: Books, ids: seq<nat>, free: seq<CpuSet>, n: nat, outcome: nat -> Option<int>)
    requires Startable(b, ids, free) && n <= |ids| && n <= |free|
    ensures var r := Placed(b, ids, free, n, outcome);
      && r.core.Keys == b.core.Keys
      && (forall c :: c in b.core && !Among(free, n, c) ==> r.core[c] == b.core[c])
      && (forall k :: 0 <= k < n ==> r.core[free[k]] == if outcome(ids[k]).Some? then Some(ids[k]) else None)
  {
    hide Placed;
    PlacedKeys(b, ids, free, n, outcome);
    forall c | c in b.core && !Among(free, n, c) ensures Placed(b, ids, free, n, outcome).core[c] == b.core[c] {
      CoreLeftAlone(b, ids, free, n, outcome, c);
    }
    forall k | 0 <= k < n
      ensures Placed(b, ids, free, n, outcome).core[free[k]] == if outcome(ids[k]).Some? then Some(ids[k]) else None
    {
      CoreTaken(b, ids, free, n, outcome, k);
    }
  }

  lemma {:induction false} PlacedKeys(b: Books, ids: seq<nat>, free: seq<CpuSet>, n: nat, outcome: nat -> Option<int>)
    requires Startable(b, ids, free) && n <= |ids| && n <= |free|
    ensures Placed(b, ids, free, n, outcome).core.Keys == b.core.Keys
  {
    if n == 0 {
    } else {
      PlacedKeys(b, ids, free, n - 1, outcome);
      assert free[n - 1] in b.core;
    }
  }

  lemma {:induction false} CoreLeftAlone(b: Books, ids: seq<nat>, free: seq<CpuSet>, n: nat,
                                         outcome: nat -> Option<int>, c: CpuSet)
    requires Startable(b, ids, free) && n <= |ids| && n <= |free| && c in b.core && !Among(free, n, c)
    ensures c in Placed(b, ids, free, n, outcome).core && Placed(b, ids, free, n, outcome).core[c] == b.core[c]
  {
    if n == 0 {
    } else {
      assert c != free[n - 1] && !Among(free, n - 1, c);
      CoreLeftAlone(b, ids, free, n - 1, outcome, c);
    }
  }

  lemma {:induction false} CoreTaken(b: Books, ids: seq<nat>, free: seq<CpuSet>, n: nat,
                                     outcome: nat -> Option<int>, k: nat)
    requires Startable(b, ids, free) && n <= |ids| && n <= |free| && k < n
    ensures free[k] in Placed(b, ids, free, n, outcome).core
    ensures Placed(b, ids, free, n, outcome).core[free[k]] == if outcome(ids[k]).Some? then Some(ids[k]) else None
  {
    if k == n - 1 {
      assert !Among(free, n - 1, free[k]);
      CoreLeftAlone(b, ids, free, n - 1, outcome, free[k]);
    } else {
      assert free[k] != free[n - 1];
      CoreTaken(b, ids, free, n - 1, outcome, k);
    }
  }

  /** Starting trials keeps the books, whatever fails. */
  lemma {:induction false} PlacingKeepsBooks(b: Books, order: seq<CpuSet>, ids: seq<nat>, free: seq<CpuSet>, n: nat,
                                             outcome: nat -> Option<int>)
    requires BooksOk(b, order) && Startable(b, ids, free) && n <= |ids| && n <= |free|
    ensures BooksOk(Placed(b, ids, free, n, outcome), order)
  {
    if n == 0 {
    } else {
      var before := Placed(b, ids, free, n - 1, outcome);
      var t, c := ids[n - 1], free[n - 1];
      PlacingKeepsBooks(b, order, ids, free, n - 1, outcome);
      assert t < |before.trials| && before.trials[t] == Trial(None, None) by {
        PlacedEffect(b, ids, free, n - 1, outcome);
        assert !Among(ids, n - 1, t);
      }
      assert c in before.core && before.core[c] == None by {
        assert !Among(free, n - 1, c);
        CoreLeftAlone(b, ids, free, n - 1, outcome, c);
      }
      hide BooksOk, Startable;
      StartKeepsBooks(before, order, t, c, outcome(t));
    }
  }

  /** A swap keeps what a list holds. */
  ghost predicate SameElements<T(!new)>(s: seq<T>, r: seq<T>) {
    |s| == |r| && forall x :: x in s <==> x in r
  }

  lemma {:induction false} SwapKeepsElements<T(!new)>(s: seq<T>, i: nat, j: nat)
    requires i < |s| && j < |s| && Distinct(s)
    ensures SameElements(s, s[i := s[j]][j := s[i]]) && Distinct(s[i := s[j]][j := s[i]])
  {
    var r := s[i := s[j]][j := s[i]];
    forall x | x in s ensures x in r {
      var k :| 0 <= k < |s| && s[k] == x;
      assert r[if k == i then j else if k == j then i else k] == x;
    }
    forall x | x in r ensures x in s {
      var k :| 0 <= k < |r| && r[k] == x;
    }
  }

  /** The shuffle's swaps from position i down: every element changes places with a drawn one at or before it. */
  ghost function Swapped(s: seq<nat>, i: int, draws: nat -> nat): (r: seq<nat>)
    requires i < |s|
    ensures |r| == |s|
    decreases i
  {
    if i <= 0 then s
    else
      var j := draws(i) % (i + 1);
      Swapped(s[i := s[j]][j := s[i]], i - 1, draws)
  }

  /** Draws that a shuffle of the first i + 1 elements does not look at do not matter. */
  lemma {:induction false} SameDraws(s: seq<nat>, i: int, draws: nat -> nat, draws': nat -> nat)
    requires i < |s| && forall k: nat :: k <= i ==> draws(k) == draws'(k)
    ensures Swapped(s, i, draws) == Swapped(s, i, draws')
    decreases i
  {
    if i <= 0 {
    } else {
      var j := draws(i) % (i + 1);
      SameDraws(s[i := s[j]][j := s[i]], i - 1, draws, draws');
    }
  }

  /** A shuffle can end in every order: for each there are draws that lead to it. */
  lemma {:induction false} EveryOrderPossible(s: seq<nat>, r: seq<nat>, i: int) returns (draws: nat -> nat)
    requires -1 <= i < |s| == |r| && s[i + 1..] == r[i + 1..] && multiset(s[..i + 1]) == multiset(r[..i + 1])
    ensures Swapped(s, i, draws) == r
    decreases i + 1
  {
    hide Swapped;
    if i <= 0 {
      draws := k => 0;
      NothingToSwap(s, i, draws);
      SingleSame(s, r, i);
    } else {
      var j := PlaceOf(s, r, i);
      var s' := s[i := s[j]][j := s[i]];
      SwapPrefix(s, r, i, j);
      var rest := EveryOrderPossible(s', r, i - 1);
      draws := DrawFirst(s, i, j, rest);
    }
  }

  lemma NothingToSwap(s: seq<nat>, i: int, draws: nat -> nat)
    requires i <= 0 && i < |s|
    ensures Swapped(s, i, draws) == s
  {
  }

  lemma DrawFirst(s: seq<nat>, i: nat, j: nat, rest: nat -> nat) returns (draws: nat -> nat)
    requires j <= i < |s| && i > 0
    ensures Swapped(s, i, draws) == Swapped(s[i := s[j]][j := s[i]], i - 1, rest)
  {
    draws := k => if k == i then j else rest(k);
    SameDraws(s[i := s[j]][j := s[i]], i - 1, draws, rest);
    SmallRest(j, i + 1);
  }

  lemma SmallRest(j: nat, n: nat)
    requires j < n
    ensures j % n == j
  {
  }

  lemma SingleSame(s: seq<nat>, r: seq<nat>, i: int)
    requires -1 <= i <= 0 && i < |s| == |r| && s[i + 1..] == r[i + 1..]
    requires multiset(s[..i + 1]) == multiset(r[..i + 1])
    ensures s == r
  {
    assert s == s[..i + 1] + s[i + 1..] && r == r[..i + 1] + r[i + 1..];
    if i == 0 {
      assert s[..1] == [s[0]] && r[..1] == [r[0]];
      assert s[0] in multiset(r[..1]);
    }
  }

  lemma PlaceOf(s: seq<nat>, r: seq<nat>, i: nat) returns (j: nat)
    requires i < |s| == |r| && multiset(s[..i + 1]) == multiset(r[..i + 1])
    ensures j <= i && s[j] == r[i]
  {
    assert r[..i + 1][i] in multiset(s[..i + 1]);
    j :| 0 <= j < |s[..i + 1]| && s[..i + 1][j] == r[i];
  }

  lemma SwapPrefix(s: seq<nat>, r: seq<nat>, i: nat, j: nat)
    requires j <= i < |s| == |r| && s[j] == r[i] && s[i + 1..] == r[i + 1..]
    requires multiset(s[..i + 1]) == multiset(r[..i + 1])
    ensures var s' := s[i := s[j]][j := s[i]];
      s'[i..] == r[i..] && multiset(s'[..i]) == multiset(r[..i])
  {
    SwapTail(s, r, i, j);
    PrefixStep(s[..i + 1], r[..i + 1], j);
    assert s[..i + 1][i := s[j]][j := s[i]][..i] == s[i := s[j]][j := s[i]][..i];
    assert r[..i + 1][..i] == r[..i];
  }

  lemma SwapTail(s: seq<nat>, r: seq<nat>, i: nat, j: nat)
    requires j <= i < |s| == |r| && s[j] == r[i] && s[i + 1..] == r[i + 1..]
    ensures s[i := s[j]][j := s[i]][i..] == r[i..]
  {
    assert r[i..] == [r[i]] + r[i + 1..];
  }

  lemma PrefixStep(a: seq<nat>, b: seq<nat>, j: nat)
    requires j < |a| == |b| && a[j] == b[|b| - 1] && multiset(a) == multiset(b)
    ensures multiset(a[|a| - 1 := a[j]][j := a[|a| - 1]][..|a| - 1]) == multiset(b[..|b| - 1])
  {
    var last := |a| - 1;
    var a' := a[last := a[j]][j := a[last]];
    SwappedMultiset(a, j);
    assert a' == a'[..last] + [b[last]] && b == b[..last] + [b[last]];
    CancelLast(a'[..last], b[..last], b[last]);
  }

  lemma CancelLast(a: seq<nat>, b: seq<nat>, x: nat)
    requires multiset(a + [x]) == multiset(b + [x])
    ensures multiset(a) == multiset(b)
  {
    assert multiset(a) + multiset{x} == multiset(b) + multiset{x};
    assert multiset(a) == multiset(a) + multiset{x} - multiset{x};
  }

  lemma SwappedMultiset(s: seq<nat>, j: nat)
    requires j < |s|
    ensures multiset(s[|s| - 1 := s[j]][j := s[|s| - 1]]) == multiset(s)
  {
  }

  ghost function Shuffled(s: seq<nat>, draws: nat -> nat): seq<nat> {
    Swapped(s, |s| - 1, draws)
  }

  /** No order is out of the shuffle's reach. */
  lemma ShuffleReachesEveryOrder(s: seq<nat>, r: seq<nat>) returns (draws: nat -> nat)
    requires multiset(s) == multiset(r)
    ensures Shuffled(s, draws) == r
  {
    assert |multiset(s)| == |s| && |multiset(r)| == |r|;
    assert s[..|s|] == s && r[..|r|] == r;
    draws := EveryOrderPossible(s, r, |s| - 1);
  }

  /** A shuffle is a permutation of distinct elements. */
  lemma {:induction false} SwappedKeepsElements(s: seq<nat>, i: int, draws: nat -> nat)
    requires Distinct(s) && i < |s|
    ensures SameElements(s, Swapped(s, i, draws)) && Distinct(Swapped(s, i, draws))
    decreases i
  {
    if i <= 0 {
    } else {
      var j := draws(i) % (i + 1);
      SwapKeepsElements(s, i, j);
      SwappedKeepsElements(s[i := s[j]][j := s[i]], i - 1, draws);
    }
  }

  method Shuffle(s: seq<nat>, draws: nat -> nat) returns (r: seq<nat>)
    ensures r == Shuffled(s, draws)
  {
    r := s;
    var i := |s| - 1;
    while i > 0
      invariant |r| == |s| && -1 <= i < |s|
      invariant Swapped(r, i, draws) == Shuffled(s, draws)
    {
      var j := draws(i) % (i + 1);
      r := r[i := r[j]][j := r[i]];
      i := i - 1;
    }
  }

  /** The ids of the pending trials among the first n, in order. */
  ghost function PendingIds(trials: seq<Trial>, n: nat): (ids: seq<nat>)
    requires n <= |trials|
    ensures Distinct(ids) && forall t: nat :: t in ids <==> t < n && trials[t].Pending()
  {
    if n == 0 then [] else PendingIds(trials, n - 1) + (if trials[n - 1].Pending() then [n - 1] else [])
  }

  /** The free core sets among the first n, in table order. */
  ghost function FreeSets(core: CoreTable, order: seq<CpuSet>, n: nat): (free: seq<CpuSet>)
    requires n <= |order| && Distinct(order) && forall i :: 0 <= i < |order| ==> order[i] in core
    ensures Distinct(free)
    ensures forall k :: 0 <= k < |free| ==> free[k] in core && core[free[k]] == None && Among(order, n, free[k])
    ensures forall i :: 0 <= i < n && core[order[i]] == None ==> order[i] in free
  {
    if n == 0 then [] else FreeSets(core, order, n - 1) + (if core[order[n - 1]] == None then [order[n - 1]] else [])
  }

  ghost predicate PendingNeverEnded(trials: seq<Trial>) {
    forall t :: 0 <= t < |trials| && trials[t].Pending() ==> trials[t].ended.None?
  }

  /** Shuffled pending trials and listed free core sets can be paired. */
  lemma {:induction false} ListsAreStartable(b: Books, order: seq<CpuSet>, ids: seq<nat>)
    requires Distinct(order) && forall i :: 0 <= i < |order| ==> order[i] in b.core
    requires PendingNeverEnded(b.trials)
    requires SameElements(PendingIds(b.trials, |b.trials|), ids) && Distinct(ids)
    ensures Startable(b, ids, FreeSets(b.core, order, |order|))
  {
    forall k | 0 <= k < |ids| ensures ids[k] < |b.trials| && b.trials[ids[k]] == Trial(None, None) {
      assert ids[k] in ids;
      assert ids[k] in PendingIds(b.trials, |b.trials|);
    }
  }

  lemma {:induction false} PlacingKeepsPending(b: Books, ids: seq<nat>, free: seq<CpuSet>, n: nat,
                                               outcome: nat -> Option<int>)
    requires Startable(b, ids, free) && n <= |ids| && n <= |free| && PendingNeverEnded(b.trials)
    ensures PendingNeverEnded(Placed(b, ids, free, n, outcome).trials)
  {
    if n == 0 {
    } else {
      PlacingKeepsPending(b, ids, free, n - 1, outcome);
    }
  }

  ghost predicate AllSucceed(outcome: nat -> Option<int>) {
    forall t: nat :: outcome(t).Some?
  }

  /** No pending trial, or no free core set, is left. */
  ghost predicate Busy(b: Books) {
    (forall t :: 0 <= t < |b.trials| ==> !b.trials[t].Pending()) || (forall c :: c in b.core ==> b.core[c].Some?)
  }

  /** When every start succeeds, starting goes on until trials or core sets run out. */
  lemma {:induction false} StartsUntilBusy(b: Books, order: seq<CpuSet>, ids: seq<nat>, outcome: nat -> Option<int>)
    requires Distinct(order) && BooksOk(b, order) && PendingNeverEnded(b.trials)
    requires SameElements(PendingIds(b.trials, |b.trials|), ids) && Distinct(ids)
    requires AllSucceed(outcome)
    ensures var free := FreeSets(b.core, order, |order|);
            Startable(b, ids, free) && Busy(Placed(b, ids, free, Min(|ids|, |free|), outcome))
  {
    var free := FreeSets(b.core, order, |order|);
    ListsAreStartable(b, order, ids);
    hide Placed, Startable, BooksOk, Distinct, Busy, FreeSets;
    if |ids| <= |free| {
      NonePendingLeft(b, ids, free, outcome);
    } else {
      NoneFreeLeft(b, order, ids, outcome);
    }
  }

  lemma {:induction false} NonePendingLeft(b: Books, ids: seq<nat>, free: seq<CpuSet>, outcome: nat -> Option<int>)
    requires Startable(b, ids, free) && |ids| <= |free| && AllSucceed(outcome)
    requires SameElements(PendingIds(b.trials, |b.trials|), ids)
    ensures Busy(Placed(b, ids, free, |ids|, outcome))
  {
    var r := Placed(b, ids, free, |ids|, outcome);
    PlacedEffect(b, ids, free, |ids|, outcome);
    hide Placed, Startable;
    forall t: nat | t < |r.trials| ensures !r.trials[t].Pending() {
      if b.trials[t].Pending() {
        assert t in PendingIds(b.trials, |b.trials|) && t in ids;
        assert Among(ids, |ids|, t);
      }
    }
  }

  lemma {:induction false} NoneFreeLeft(b: Books, order: seq<CpuSet>, ids: seq<nat>, outcome: nat -> Option<int>)
    requires Distinct(order) && BooksOk(b, order) && AllSucceed(outcome)
    requires var free := FreeSets(b.core, order, |order|); Startable(b, ids, free) && |free| <= |ids|
    ensures var free := FreeSets(b.core, order, |order|); Busy(Placed(b, ids, free, |free|, outcome))
  {
    var free := FreeSets(b.core, order, |order|);
    var r := Placed(b, ids, free, |free|, outcome);
    PlacedCores(b, ids, free, |free|, outcome);
    hide Placed, Startable;
    forall c | c in r.core ensures r.core[c].Some? {
      var i :| 0 <= i < |order| && order[i] == c;
      if b.core[c] == None {
        assert order[i] in free && Among(free, |free|, c);
      }
    }
  }

  /** What holds between rounds. */
  ghost predicate StateOk(b: Books, order: seq<CpuSet>) {
    Distinct(order) && BooksOk(b, order) && PendingNeverEnded(b.trials)
  }

  /** The order in which a round tries to start the pending trials. */
  ghost function StartOrder(b: Books, draws: nat -> nat): seq<nat> {
    Shuffled(PendingIds(b.trials, |b.trials|), draws)
  }

  lemma {:induction false} StartOrderIsStartable(b: Books, order: seq<CpuSet>, draws: nat -> nat)
    requires StateOk(b, order)
    ensures var ids := StartOrder(b, draws);
      SameElements(PendingIds(b.trials, |b.trials|), ids) && Distinct(ids)
      && Startable(b, ids, FreeSets(b.core, order, |order|))
  {
    var pending := PendingIds(b.trials, |b.trials|);
    SwappedKeepsElements(pending, |pending| - 1, draws);
    ListsAreStartable(b, order, StartOrder(b, draws));
  }

  /** The starting half of a round: the pending trials go, in their shuffled order, to the free core sets in table
      order, as long as there are both. */
  ghost function Started(b: Books, order: seq<CpuSet>, outcome: nat -> Option<int>, draws: nat -> nat): (r: Books)
    requires StateOk(b, order)
    ensures StateOk(r, order)
  {
    var ids, free := StartOrder(b, draws), FreeSets(b.core, order, |order|);
    var n := Min(|ids|, |free|);
    StartOrderIsStartable(b, order, draws);
    PlacingKeepsBooks(b, order, ids, free, n, outcome);
    PlacingKeepsPending(b, ids, free, n, outcome);
    Placed(b, ids, free, n, outcome)
  }

  /** Which trials a round starts. */
  ghost function StartedIn(b: Books, order: seq<CpuSet>, outcome: nat -> Option<int>, draws: nat -> nat): seq<nat>
    requires StateOk(b, order)
  {
    var ids := StartOrder(b, draws);
    Succeeded(ids, Min(|ids|, |FreeSets(b.core, order, |order|)|), outcome)
  }

  /** What starting needs, and what it comes to. */
  lemma {:induction false} StartedIs(b: Books, order: seq<CpuSet>, outcome: nat -> Option<int>, draws: nat -> nat)
    requires StateOk(b, order)
    ensures Distinct(order) && forall i :: 0 <= i < |order| ==> order[i] in b.core
    ensures var ids, free := Shuffled(PendingIds(b.trials, |b.trials|), draws), FreeSets(b.core, order, |order|);
      Startable(b, ids, free)
      && Started(b, order, outcome, draws) == Placed(b, ids, free, Min(|ids|, |free|), outcome)
      && StartedIn(b, order, outcome, draws) == Succeeded(ids, Min(|ids|, |free|), outcome)
  {
    StartOrderIsStartable(b, order, draws);
    hide Placed, Startable, Succeeded, FreeSets;
  }

  /** A whole round: expired trials end, then pending ones start. */
  ghost function AfterRound(b: Books, order: seq<CpuSet>, maxTotalTime: int, round: Round): (r: Books)
    requires StateOk(b, order)
    ensures StateOk(r, order)
  {
    EndingKeepsBooks(b, order, round.now, maxTotalTime);
    EndingGoesOnward(b, round.now, maxTotalTime);
    Started(Ended(b, round.now, maxTotalTime), order, round.outcome, round.draws)
  }

  /** Which trials a whole round starts. */
  ghost function StartedInRound(b: Books, order: seq<CpuSet>, maxTotalTime: int, round: Round): seq<nat>
    requires StateOk(b, order)
  {
    EndingKeepsBooks(b, order, round.now, maxTotalTime);
    EndingGoesOnward(b, round.now, maxTotalTime);
    StartedIn(Ended(b, round.now, maxTotalTime), order, round.outcome, round.draws)
  }

  ghost function AfterRounds(b: Books, order: seq<CpuSet>, maxTotalTime: int, rounds: seq<Round>): (r: Books)
    requires StateOk(b, order)
    ensures StateOk(r, order)
  {
    if |rounds| == 0 then b
    else
      var before := AfterRounds(b, order, maxTotalTime, rounds[..|rounds| - 1]);
      AfterRound(before, order, maxTotalTime, rounds[|rounds| - 1])
  }

  /** A started trial is never started again, and an ended one stays ended. */
  ghost predicate Onward(before: seq<Trial>, after: seq<Trial>) {
    |before| == |after| && forall t :: 0 <= t < |before| ==>
      && (before[t].started.Some? ==> after[t].started == before[t].started)
      && (before[t].ended.Some? ==> after[t].ended == before[t].ended)
  }

  ghost predicate SamePending(before: seq<Trial>, after: seq<Trial>) {
    |before| == |after| && forall t :: 0 <= t < |before| ==> (before[t].Pending() <==> after[t].Pending())
  }

  lemma {:induction false} EndingGoesOnward(b: Books, now: int, maxTotalTime: int)
    ensures Onward(b.trials, Ended(b, now, maxTotalTime).trials)
    ensures SamePending(b.trials, Ended(b, now, maxTotalTime).trials)
  {
  }

  lemma {:induction false} OnwardTransitive(a: seq<Trial>, b: seq<Trial>, c: seq<Trial>)
    requires Onward(a, b) && Onward(b, c)
    ensures Onward(a, c)
  {
    forall t | 0 <= t < |a|
      ensures a[t].started.Some? ==> c[t].started == a[t].started
      ensures a[t].ended.Some? ==> c[t].ended == a[t].ended
    {
      assert b[t].started.Some? || b[t].started.None?;
    }
  }

  lemma {:induction false} PlacingGoesOnward(b: Books, ids: seq<nat>, free: seq<CpuSet>, n: nat,
                                             outcome: nat -> Option<int>)
    requires Startable(b, ids, free) && n <= |ids| && n <= |free|
    ensures Onward(b.trials, Placed(b, ids, free, n, outcome).trials)
  {
    PlacedEffect(b, ids, free, n, outcome);
    var r := Placed(b, ids, free, n, outcome);
    forall t: nat | t < |b.trials|
      ensures b.trials[t].started.Some? ==> r.trials[t].started == b.trials[t].started
      ensures b.trials[t].ended.Some? ==> r.trials[t].ended == b.trials[t].ended
    {
      if Among(ids, n, t) {
        var k :| 0 <= k < n && ids[k] == t;
        assert b.trials[ids[k]] == Trial(None, None);
      }
    }
  }

  lemma {:induction false} StartedWerePending(b: Books, ids: seq<nat>, free: seq<CpuSet>, n: nat,
                                              outcome: nat -> Option<int>)
    requires Startable(b, ids, free) && n <= |ids| && n <= |free|
    ensures forall t: nat :: t in Succeeded(ids, n, outcome) ==>
      t < |b.trials| && b.trials[t].Pending() && Placed(b, ids, free, n, outcome).trials[t] == Trial(outcome(t), None)
      && outcome(t).Some?
  {
    if n == 0 {
    } else {
      StartedWerePending(b, ids, free, n - 1, outcome);
      PlacedEffect(b, ids, free, n, outcome);
      SucceededAmong(ids, n, outcome);
    }
  }

  lemma {:induction false} SucceededAmong(ids: seq<nat>, n: nat, outcome: nat -> Option<int>)
    requires n <= |ids|
    ensures forall t: nat :: t in Succeeded(ids, n, outcome) ==> Among(ids, n, t) && outcome(t).Some?
  {
    if n == 0 {
    } else {
      SucceededAmong(ids, n - 1, outcome);
    }
  }

  /** Which of the first n ids really started, in order. */
  ghost function Succeeded(ids: seq<nat>, n: nat, outcome: nat -> Option<int>): seq<nat>
    requires n <= |ids|
  {
    if n == 0 then []
    else Succeeded(ids, n - 1, outcome) + (if outcome(ids[n - 1]).Some? then [ids[n - 1]] else [])
  }

  /** The inputs of one scheduling round: the clock, the outcome of every start attempt, and the shuffle's draws. */
  datatype Round = Round(now: int, outcome: nat -> Option<int>, draws: nat -> nat)

  /** Starting touches pending trials only, and when every start succeeds it goes on until trials or core sets run
      out. */
  lemma {:induction false} StartedFacts(b: Books, order: seq<CpuSet>, outcome: nat -> Option<int>, draws: nat -> nat)
    requires StateOk(b, order)
    ensures var r := Started(b, order, outcome, draws);
      && Onward(b.trials, r.trials) && (AllSucceed(outcome) ==> Busy(r))
      && forall t: nat :: t in StartedIn(b, order, outcome, draws) ==>
           t < |r.trials| == |b.trials| && b.trials[t].Pending() && r.trials[t].Running()
  {
    var ids, free := StartOrder(b, draws), FreeSets(b.core, order, |order|);
    StartOrderIsStartable(b, order, draws);
    hide Placed, Onward, Busy, FreeSets, Startable, Succeeded, StartOrder;
    PlacingGoesOnward(b, ids, free, Min(|ids|, |free|), outcome);
    StartedWerePending(b, ids, free, Min(|ids|, |free|), outcome);
    if AllSucceed(outcome) {
      StartsUntilBusy(b, order, ids, outcome);
    }
  }

  /** One round: started trials are not started again, ended ones stay ended, and if no start fails there is nothing
      left to start or nowhere to start it. */
  lemma {:induction false} RoundFacts(b: Books, order: seq<CpuSet>, maxTotalTime: int, round: Round)
    requires StateOk(b, order)
    ensures var r := AfterRound(b, order, maxTotalTime, round);
      Onward(b.trials, r.trials) && (AllSucceed(round.outcome) ==> Busy(r))
    ensures StateOk(Ended(b, round.now, maxTotalTime), order)
    ensures AfterRound(b, order, maxTotalTime, round)
            == Started(Ended(b, round.now, maxTotalTime), order, round.outcome, round.draws)
    ensures StartedInRound(b, order, maxTotalTime, round)
            == StartedIn(Ended(b, round.now, maxTotalTime), order, round.outcome, round.draws)
    ensures var r := AfterRound(b, order, maxTotalTime, round);
      forall t: nat :: t in StartedInRound(b, order, maxTotalTime, round) ==>
        t < |r.trials| == |b.trials| && b.trials[t].Pending() && r.trials[t].Running()
  {
    var e := Ended(b, round.now, maxTotalTime);
    EndingKeepsBooks(b, order, round.now, maxTotalTime);
    EndingGoesOnward(b, round.now, maxTotalTime);
    StartedFacts(e, order, round.outcome, round.draws);
    hide Started, Onward, Busy;
    OnwardTransitive(b.trials, e.trials, AfterRound(b, order, maxTotalTime, round).trials);
  }

  lemma NoRounds(b: Books, order: seq<CpuSet>, maxTotalTime: int)
    requires StateOk(b, order)
    ensures AfterRounds(b, order, maxTotalTime, []) == b
  {
  }

  lemma {:induction false} OneMoreRound(b: Books, order: seq<CpuSet>, maxTotalTime: int, rounds: seq<Round>, i: nat)
    requires StateOk(b, order) && i < |rounds|
    ensures AfterRounds(b, order, maxTotalTime, rounds[..i + 1])
            == AfterRound(AfterRounds(b, order, maxTotalTime, rounds[..i]), order, maxTotalTime, rounds[i])
  {
    assert rounds[..i + 1][..i] == rounds[..i];
  }

  /** No two owners share a core. */
  ghost predicate NothingShared(b: Books) {
    forall c, d, t: nat, u: nat :: Owns(b, t, c) && Owns(b, u, d) && t != u ==> DisjointSets(c, d)
  }

  lemma {:induction false} SucceededHas(ids: seq<nat>, n: nat, outcome: nat -> Option<int>, k: nat)
    requires k < n <= |ids|
    ensures ids[k] in Succeeded(ids, n, outcome) <==> outcome(ids[k]).Some?
  {
    SucceededAmong(ids, n, outcome);
    if outcome(ids[k]).Some? {
      SuccessListed(ids, n, outcome, k);
    }
  }

  lemma {:induction false} SuccessListed(ids: seq<nat>, n: nat, outcome: nat -> Option<int>, k: nat)
    requires k < n <= |ids| && outcome(ids[k]).Some?
    ensures ids[k] in Succeeded(ids, n, outcome)
  {
    if k == n - 1 {
    } else {
      SuccessListed(ids, n - 1, outcome, k);
    }
  }

  /** A round reports exactly the pending trials that it leaves running. */
  lemma {:induction false} RoundReportsItsStarts(b: Books, order: seq<CpuSet>, maxTotalTime: int, round: Round, t: nat)
    requires StateOk(b, order) && t < |b.trials| && b.trials[t].Pending()
    ensures |AfterRound(b, order, maxTotalTime, round).trials| == |b.trials|
    ensures t in StartedInRound(b, order, maxTotalTime, round)
            <==> AfterRound(b, order, maxTotalTime, round).trials[t].Running()
  {
    EndingKeepsBooks(b, order, round.now, maxTotalTime);
    EndingGoesOnward(b, round.now, maxTotalTime);
    var e := Ended(b, round.now, maxTotalTime);
    var ids, free := StartOrder(e, round.draws), FreeSets(e.core, order, |order|);
    var n := Min(|ids|, |free|);
    StartOrderIsStartable(e, order, round.draws);
    PlacedEffect(e, ids, free, n, round.outcome);
    SucceededAmong(ids, n, round.outcome);
    hide StartOrder, FreeSets, Placed, Succeeded, Startable;
    if Among(ids, n, t) {
      var k :| 0 <= k < n && ids[k] == t;
      SucceededHas(ids, n, round.outcome, k);
    }
  }

  /** A round ends exactly the running trials that have run for the total time and the grace period. */
  lemma {:induction false} RoundEndsByAge(b: Books, order: seq<CpuSet>, maxTotalTime: int, round: Round, t: nat)
    requires StateOk(b, order) && t < |b.trials| && b.trials[t].Running()
    ensures |AfterRound(b, order, maxTotalTime, round).trials| == |b.trials|
    ensures AfterRound(b, order, maxTotalTime, round).trials[t]
            == if round.now - b.trials[t].started.value >= maxTotalTime + GRACE_TIME_SECONDS
               then b.trials[t].(ended := Some(round.now)) else b.trials[t]
  {
    EndingKeepsBooks(b, order, round.now, maxTotalTime);
    EndingGoesOnward(b, round.now, maxTotalTime);
    var e := Ended(b, round.now, maxTotalTime);
    var ids, free := StartOrder(e, round.draws), FreeSets(e.core, order, |order|);
    StartOrderIsStartable(e, order, round.draws);
    PlacedEffect(e, ids, free, Min(|ids|, |free|), round.outcome);
    assert forall k :: 0 <= k < |ids| ==> e.trials[ids[k]] == Trial(None, None);
    assert !Among(ids, Min(|ids|, |free|), t);
  }

  /** Headline: after any rounds, whatever expires, fails or is drawn, core sets are owned exclusively, no more trials
      run than fit the budget, and no trial was started twice. */
  lemma {:induction false} EveryRunIsSafe(b: Books, order: seq<CpuSet>, runnersCpus: nat, cores: nat, maxTotalTime: int,
                                          rounds: seq<Round>)
    requires cores > 0 && Partition(order, runnersCpus, cores) && StateOk(b, order)
    ensures var r := AfterRounds(b, order, maxTotalTime, rounds);
      && BooksOk(r, order) && Onward(b.trials, r.trials)
      && |RunningTrials(r)| <= runnersCpus / cores && NothingShared(r)
  {
    var r := AfterRounds(b, order, maxTotalTime, rounds);
    RoundsGoOnward(b, order, maxTotalTime, rounds);
    hide AfterRounds, Onward;
    RunningFitBudget(r, order, runnersCpus, cores);
    forall c, d, t: nat, u: nat | Owns(r, t, c) && Owns(r, u, d) && t != u ensures DisjointSets(c, d) {
      NoSharedCores(r, order, runnersCpus, cores, t, u, c, d);
    }
  }

  lemma {:induction false} RoundsGoOnward(b: Books, order: seq<CpuSet>, maxTotalTime: int, rounds: seq<Round>)
    requires StateOk(b, order)
    ensures Onward(b.trials, AfterRounds(b, order, maxTotalTime, rounds).trials)
  {
    if |rounds| == 0 {
    } else {
      hide StateOk, AfterRound, Onward;
      var before := AfterRounds(b, order, maxTotalTime, rounds[..|rounds| - 1]);
      RoundsGoOnward(b, order, maxTotalTime, rounds[..|rounds| - 1]);
      RoundFacts(before, order, maxTotalTime, rounds[|rounds| - 1]);
      OnwardTransitive(b.trials, before.trials, AfterRounds(b, order, maxTotalTime, rounds).trials);
    }
  }

  class LocalScheduler {
    const runnersCpus: nat
    const cores: nat
    const maxTotalTime: int
    const order: seq<CpuSet>

    var trials: seq<Trial>
    var core: CoreTable

    ghost function State(): Books
      reads this
    {
      Books(trials, core)
    }

    ghost predicate Valid()
      reads this
    {
      cores > 0 && Partition(order, runnersCpus, cores) && StateOk(State(), order)
    }

    constructor (runnersCpus: nat, cores: nat, maxTotalTime: int, numTrials: nat)
      requires cores > 0
      ensures this.runnersCpus == runnersCpus && this.cores == cores && this.maxTotalTime == maxTotalTime
      ensures Valid() && trials == seq(numTrials, t => Trial(None, None))
    {
      this.runnersCpus, this.cores, this.maxTotalTime := runnersCpus, cores, maxTotalTime;
      var o, c := BuildCoreTable(runnersCpus, cores);
      order, core := o, c;
      trials := seq(numTrials, t => Trial(None, None));
    }

    /** Ends the trials that ran out of time, and frees their core sets. */
    method EndExpiredTrials(now: int)
      requires Valid()
      modifies this
      ensures Valid() && State() == Ended(old(State()), now, maxTotalTime)
      ensures Onward(old(trials), trials) && SamePending(old(trials), trials)
    {
      ghost var b := State();
      EndingKeepsBooks(b, order, now, maxTotalTime);
      EndingGoesOnward(b, now, maxTotalTime);
      hide BooksOk, Onward, SamePending;
      var expired: seq<nat> := MarkExpired(now);
      if expired == [] {
        assert forall t :: 0 <= t < |b.trials| ==> !b.trials[t].Expired(now, maxTotalTime);
        assert core == Ended(b, now, maxTotalTime).core;
        return;
      }
      FreeCores(b, now, expired);
    }

    method MarkExpired(now: int) returns (expired: seq<nat>)
      modifies `trials
      ensures trials == Ended(old(State()), now, maxTotalTime).trials
      ensures forall t: nat :: t in expired <==> t < |old(trials)| && old(trials)[t].Expired(now, maxTotalTime)
    {
      expired := [];
      for t := 0 to |trials|
        invariant |trials| == |old(trials)|
        invariant forall u :: 0 <= u < t ==> trials[u] == Ended(old(State()), now, maxTotalTime).trials[u]
        invariant forall u :: t <= u < |trials| ==> trials[u] == old(trials)[u]
        invariant forall u: nat :: u in expired <==> u < t && old(trials)[u].Expired(now, maxTotalTime)
      {
        if trials[t].Expired(now, maxTotalTime) {
          expired := expired + [t];
          trials := trials[t := trials[t].(ended := Some(now))];
        }
      }
    }

    method FreeCores(ghost b: Books, now: int, expired: seq<nat>)
      requires core == b.core && forall c :: c in core <==> c in order
      requires forall t: nat :: t in expired <==> t < |b.trials| && b.trials[t].Expired(now, maxTotalTime)
      modifies `core
      ensures core == Ended(b, now, maxTotalTime).core
    {
      for i := 0 to |order|
        invariant core.Keys == b.core.Keys
        invariant forall c :: c in core ==>
          core[c] == if Among(order, i, c) && Released(b, c, now, maxTotalTime) then None else b.core[c]
      {
        var c := order[i];
        assert forall d :: Among(order, i + 1, d) <==> Among(order, i, d) || d == c;
        if core[c].Some? && core[c].value in expired {
          core := core[c := None];
        }
      }
      assert forall c :: c in core ==> Among(order, |order|, c);
    }

    method PendingTrials() returns (ids: seq<nat>)
      ensures ids == PendingIds(trials, |trials|)
    {
      ids := [];
      for t := 0 to |trials|
        invariant ids == PendingIds(trials, t)
      {
        if trials[t].Pending() {
          ids := ids + [t];
        }
      }
    }

    method FreeCpusets() returns (free: seq<CpuSet>)
      requires Distinct(order) && forall i :: 0 <= i < |order| ==> order[i] in core
      ensures free == FreeSets(core, order, |order|)
    {
      free := [];
      for i := 0 to |order|
        invariant free == FreeSets(core, order, i)
      {
        if core[order[i]] == None {
          free := free + [order[i]];
        }
      }
    }

    /** Starts the pending trials, in a random order, on the free core sets, as long as there are any. */
    method StartTrials(outcome: nat -> Option<int>, draws: nat -> nat) returns (started: seq<nat>)
      requires Valid()
      modifies this
      ensures Valid() && State() == Started(old(State()), order, outcome, draws)
      ensures started == StartedIn(old(State()), order, outcome, draws)
    {
      ghost var b := State();
      assert b == Books(trials, core);
      hide *;
      StateIsOk();
      StartedIs(b, order, outcome, draws);
      var pending := PendingTrials();
      var shuffled := Shuffle(pending, draws);
      var free := FreeCpusets();
      started := UpdateStartedTrials(b, shuffled, free, Min(|shuffled|, |free|), outcome);
      ValidAgain();
    }

    lemma StateIsOk()
      requires Valid()
      ensures cores > 0 && Partition(order, runnersCpus, cores) && StateOk(State(), order) && BooksOk(State(), order)
      ensures State() == Books(trials, core)
    {
    }

    lemma ValidAgain()
      requires cores > 0 && Partition(order, runnersCpus, cores) && StateOk(State(), order)
      ensures Valid()
    {
    }

    /** Records every start that succeeded. */
    method UpdateStartedTrials(ghost b: Books, ids: seq<nat>, free: seq<CpuSet>, n: nat, outcome: nat -> Option<int>)
        returns (started: seq<nat>)
      requires b == State() && Startable(b, ids, free) && n <= |ids| && n <= |free|
      modifies `trials, `core
      ensures State() == Placed(b, ids, free, n, outcome) && started == Succeeded(ids, n, outcome)
    {
      started := [];
      for k := 0 to n
        invariant State() == Placed(b, ids, free, k, outcome) && started == Succeeded(ids, k, outcome)
      {
        var time := outcome(ids[k]);
        if time.Some? {
          trials := trials[ids[k] := trials[ids[k]].(started := time)];
          core := core[free[k] := Some(ids[k])];
          started := started + [ids[k]];
        }
      }
    }

    /** One scheduling round: exactly the expired trials end, and exactly the trials whose start succeeds are started,
        on the core sets that are then free. */
    method Schedule(round: Round) returns (started: seq<nat>)
      requires Valid()
      modifies this
      ensures Valid() && State() == AfterRound(old(State()), order, maxTotalTime, round)
      ensures started == StartedInRound(old(State()), order, maxTotalTime, round)
      ensures Onward(old(trials), trials) && (AllSucceed(round.outcome) ==> Busy(State()))
      ensures forall t: nat :: t in started ==> t < |trials| && old(trials)[t].Pending() && trials[t].Running()
      ensures |RunningTrials(State())| <= runnersCpus / cores
    {
      hide *;
      StateIsOk();
      ghost var before := State();
      RoundFacts(before, order, maxTotalTime, round);
      EndExpiredTrials(round.now);
      started := StartTrials(round.outcome, round.draws);
      StateIsOk();
      RunningFitBudget(State(), order, runnersCpus, cores);
    }

    /** Any rounds, executed in place, reach the state that the round function predicts. */
    method Run(rounds: seq<Round>)
      requires Valid()
      modifies this
      ensures Valid() && State() == AfterRounds(old(State()), order, maxTotalTime, rounds)
      ensures Onward(old(trials), trials) && |RunningTrials(State())| <= runnersCpus / cores
      ensures NothingShared(State())
    {
      hide *;
      StateIsOk();
      ghost var start := State();
      EveryRunIsSafe(start, order, runnersCpus, cores, maxTotalTime, rounds);
      assert rounds[..0] == [];
      NoRounds(start, order, maxTotalTime);
      for i := 0 to |rounds|
        invariant Valid() && State() == AfterRounds(start, order, maxTotalTime, rounds[..i])
      {
        OneMoreRound(start, order, maxTotalTime, rounds, i);
        var started := Schedule(rounds[i]);
      }
      assert rounds[..|rounds|] == rounds;
      StateIsOk();
    }
  }
}
