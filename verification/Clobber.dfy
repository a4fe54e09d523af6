/** Clobbering of experiment data: of several experiments that measured the same benchmark and fuzzer, only the data
    of the one listed last is kept. A data frame is a sequence of rows. */
module Clobber {
  import opened Sums

  datatype Row = Row(benchmark: string, fuzzer: string, experiment: string, snapshot: nat)

  datatype Pair = Pair(benchmark: string, fuzzer: string)

  datatype Result = Frame(rows: seq<Row>) | IndexError

  function PairOf(r: Row): Pair {
    Pair(r.benchmark, r.fuzzer)
  }

  /** The rows of one experiment, in order. */
  function RowsOf(df: seq<Row>, experiment: string): (rows: seq<Row>)
    ensures forall k :: 0 <= k < |rows| ==> rows[k].experiment == experiment
  {
    if |df| == 0 then []
    else
      RowsOf(df[..|df| - 1], experiment) + (if df[|df| - 1].experiment == experiment then [df[|df| - 1]] else [])
  }

  function CoveredPairs(rows: seq<Row>): (pairs: set<Pair>)
    ensures forall p :: p in pairs <==> exists k :: 0 <= k < |rows| && PairOf(rows[k]) == p
  {
    set k | 0 <= k < |rows| :: PairOf(rows[k])
  }

  /** The rows whose pair is not covered yet, in order. */
  function NotCovered(rows: seq<Row>, covered: set<Pair>): seq<Row> {
    if |rows| == 0 then []
    else
      NotCovered(rows[..|rows| - 1], covered)
      + (if PairOf(rows[|rows| - 1]) in covered then [] else [rows[|rows| - 1]])
  }

  function Reversed<T>(s: seq<T>): (r: seq<T>)
    ensures |r| == |s| && forall k :: 0 <= k < |s| ==> r[k] == s[|s| - 1 - k]
  {
    seq(|s|, k requires 0 <= k < |s| => s[|s| - 1 - k])
  }

  /** Some row of the experiment has the pair. */
  ghost predicate HasPair(df: seq<Row>, experiment: string, p: Pair) {
    exists k :: 0 <= k < |df| && df[k].experiment == experiment && PairOf(df[k]) == p
  }

  /** Some of the first n experiments has the pair. */
  ghost predicate Taken(df: seq<Row>, ranked: seq<string>, n: nat, p: Pair)
    requires n <= |ranked|
  {
    exists j :: 0 <= j < n && HasPair(df, ranked[j], p)
  }

  /** The rows of an experiment that no better ranked experiment has data for, in order. */
  ghost function Group(df: seq<Row>, ranked: seq<string>, i: nat, n: nat): seq<Row>
    requires i < |ranked| && n <= |df|
  {
    if n == 0 then []
    else
      var r := df[n - 1];
      Group(df, ranked, i, n - 1)
      + (if r.experiment == ranked[i] && !Taken(df, ranked, i, PairOf(r)) then [r] else [])
  }

  /** The groups of the first n experiments, best ranked first. */
  ghost function Groups(df: seq<Row>, ranked: seq<string>, n: nat): seq<Row>
    requires n <= |ranked|
  {
    if n == 0 then [] else Groups(df, ranked, n - 1) + Group(df, ranked, n - 1, |df|)
  }

  /** A row survives when its experiment is listed, and no experiment listed behind it has data for its pair. */
  ghost predicate Survives(df: seq<Row>, experiments: seq<string>, r: Row) {
    exists k :: 0 <= k < |experiments| && experiments[k] == r.experiment && NoneBehind(df, experiments, k, PairOf(r))
  }

  ghost predicate NoneBehind(df: seq<Row>, experiments: seq<string>, k: nat, p: Pair) {
    forall j :: k < j < |experiments| ==> !HasPair(df, experiments[j], p)
  }

  /** Leaving out covered pairs is leaving out the pairs that better ranked experiments have. */
  lemma {:induction false} FilterIsGroup(df: seq<Row>, ranked: seq<string>, i: nat, n: nat, covered: set<Pair>)
    requires i < |ranked| && n <= |df|
    requires forall p :: p in covered <==> Taken(df, ranked, i, p)
    ensures NotCovered(RowsOf(df[..n], ranked[i]), covered) == Group(df, ranked, i, n)
  {
    if n == 0 {
    } else {
      FilterIsGroup(df, ranked, i, n - 1, covered);
      hide Taken;
      var before, last := RowsOf(df[..n - 1], ranked[i]), df[n - 1];
      assert df[..n][..n - 1] == df[..n - 1] && df[..n][n - 1] == last;
      assert RowsOf(df[..n], ranked[i]) == before + (if last.experiment == ranked[i] then [last] else []);
      if last.experiment == ranked[i] {
        NotCoveredAppend(before, last, covered);
      } else {
        assert before + [] == before;
      }
      assert PairOf(last) in covered <==> Taken(df, ranked, i, PairOf(last));
    }
  }

  lemma NotCoveredAppend(rows: seq<Row>, r: Row, covered: set<Pair>)
    ensures NotCovered(rows + [r], covered) == NotCovered(rows, covered) + (if PairOf(r) in covered then [] else [r])
  {
    assert (rows + [r])[..|rows|] == rows;
  }

  lemma {:induction false} GroupMember(df: seq<Row>, ranked: seq<string>, i: nat, n: nat, k: nat)
    requires i < |ranked| && k < n <= |df|
    requires df[k].experiment == ranked[i] && !Taken(df, ranked, i, PairOf(df[k]))
    ensures df[k] in Group(df, ranked, i, n)
  {
    if k == n - 1 {
    } else {
      GroupMember(df, ranked, i, n - 1, k);
    }
  }

  lemma {:induction false} GroupOnly(df: seq<Row>, ranked: seq<string>, i: nat, n: nat, r: Row)
    requires i < |ranked| && n <= |df| && r in Group(df, ranked, i, n)
    ensures r.experiment == ranked[i] && !Taken(df, ranked, i, PairOf(r))
    ensures exists k :: 0 <= k < n && df[k] == r
  {
    if r !in Group(df, ranked, i, n - 1) {
    } else {
      GroupOnly(df, ranked, i, n - 1, r);
    }
  }

  /** The pairs of the groups so far are exactly the pairs the experiments so far have data for. */
  lemma {:induction false} GroupsCover(df: seq<Row>, ranked: seq<string>, n: nat, p: Pair)
    requires n <= |ranked|
    ensures p in CoveredPairs(Groups(df, ranked, n)) <==> Taken(df, ranked, n, p)
  {
    if n == 0 {
    } else {
      hide *;
      GroupsCover(df, ranked, n - 1, p);
      GroupsStep(df, ranked, n);
      PairsOfConcat(Groups(df, ranked, n - 1), Group(df, ranked, n - 1, |df|), p);
      GroupCovers(df, ranked, n - 1, p);
      TakenStep(df, ranked, n, p);
    }
  }

  lemma {:induction false} GroupsStep(df: seq<Row>, ranked: seq<string>, n: nat)
    requires 0 < n <= |ranked|
    ensures Groups(df, ranked, n) == Groups(df, ranked, n - 1) + Group(df, ranked, n - 1, |df|)
  {
  }

  /** A group brings the pairs of its experiment that no better experiment has data for. */
  lemma {:induction false} GroupCovers(df: seq<Row>, ranked: seq<string>, i: nat, p: Pair)
    requires i < |ranked|
    ensures p in CoveredPairs(Group(df, ranked, i, |df|)) <==> HasPair(df, ranked[i], p) && !Taken(df, ranked, i, p)
  {
    hide Group, Taken;
    var group := Group(df, ranked, i, |df|);
    if p in CoveredPairs(group) {
      var k :| 0 <= k < |group| && PairOf(group[k]) == p;
      GroupOnly(df, ranked, i, |df|, group[k]);
      assert HasPair(df, ranked[i], p);
    }
    if HasPair(df, ranked[i], p) && !Taken(df, ranked, i, p) {
      var k :| 0 <= k < |df| && df[k].experiment == ranked[i] && PairOf(df[k]) == p;
      GroupMember(df, ranked, i, |df|, k);
      var m :| 0 <= m < |group| && group[m] == df[k];
      assert PairOf(group[m]) == p;
    }
  }

  lemma {:induction false} TakenStep(df: seq<Row>, ranked: seq<string>, n: nat, p: Pair)
    requires 0 < n <= |ranked|
    ensures Taken(df, ranked, n, p) <==> Taken(df, ranked, n - 1, p) || HasPair(df, ranked[n - 1], p)
  {
  }

  lemma {:induction false} PairsOfConcat(a: seq<Row>, b: seq<Row>, p: Pair)
    ensures p in CoveredPairs(a + b) <==> p in CoveredPairs(a) || p in CoveredPairs(b)
  {
    if p in CoveredPairs(a) {
      var k :| 0 <= k < |a| && PairOf(a[k]) == p;
      assert (a + b)[k] == a[k];
    }
    if p in CoveredPairs(b) {
      var k :| 0 <= k < |b| && PairOf(b[k]) == p;
      assert (a + b)[|a| + k] == b[k];
    }
  }

  /** The fold over the experiments, best ranked first. Without experiments there is none to start from. */
  method ClobberExperimentsData(df: seq<Row>, experiments: seq<string>) returns (o: Result)
    ensures experiments == [] ==> o == IndexError
    ensures experiments != [] ==> o == Frame(Groups(df, Reversed(experiments), |experiments|))
  {
    var ranked := Reversed(experiments);
    if ranked == [] {
      return IndexError;
    }
    var result := RowsOf(df, ranked[0]);
    FilterNothing(result);
    FilterIsGroup(df, ranked, 0, |df|, {});
    assert df[..|df|] == df;
    assert Groups(df, ranked, 1) == Groups(df, ranked, 0) + Group(df, ranked, 0, |df|);
    for i := 1 to |ranked|
      invariant result == Groups(df, ranked, i)
    {
      var covered := CoveredPairs(result);
      var data := RowsOf(df, ranked[i]);
      forall p ensures p in covered <==> Taken(df, ranked, i, p) {
        GroupsCover(df, ranked, i, p);
      }
      FilterIsGroup(df, ranked, i, |df|, covered);
      result := result + NotCovered(data, covered);
    }
    return Frame(result);
  }

  lemma {:induction false} FilterNothing(rows: seq<Row>)
    ensures NotCovered(rows, {}) == rows
  {
    if |rows| == 0 {
    } else {
      var before, last := rows[..|rows| - 1], rows[|rows| - 1];
      assert rows == before + [last];
      FilterNothing(before);
      NotCoveredAppend(before, last, {});
    }
  }

  lemma {:induction false} CountConcat<T>(a: seq<T>, b: seq<T>, x: T)
    ensures Count(a + b, x) == Count(a, x) + Count(b, x)
  {
    if |b| == 0 {
      assert a + b == a;
    } else {
      assert (a + b)[..|a + b| - 1] == a + b[..|b| - 1];
      CountConcat(a, b[..|b| - 1], x);
    }
  }

  lemma {:induction false} GroupCount(df: seq<Row>, ranked: seq<string>, i: nat, n: nat, r: Row)
    requires i < |ranked| && n <= |df|
    ensures Count(Group(df, ranked, i, n), r)
            == if r.experiment == ranked[i] && !Taken(df, ranked, i, PairOf(r)) then Count(df[..n], r) else 0
  {
    if n == 0 {
    } else {
      hide Taken, HasPair, Count;
      GroupCount(df, ranked, i, n - 1, r);
      CountStep(df, n - 1, r);
      var last := df[n - 1];
      var kept := last.experiment == ranked[i] && !Taken(df, ranked, i, PairOf(last));
      CountFiltered(Group(df, ranked, i, n - 1), Group(df, ranked, i, n), kept, last, r);
    }
  }

  lemma CountFiltered<T>(before: seq<T>, after: seq<T>, kept: bool, last: T, x: T)
    requires after == before + (if kept then [last] else [])
    ensures Count(after, x) == Count(before, x) + (if kept && last == x then 1 else 0)
  {
    if kept {
      CountAppend(before, last, x);
    } else {
      assert after == before;
    }
  }

  /** A row is in the groups of the first n experiments as often as in the data, if one of them is its experiment
      and none ranked better has its pair, and not at all otherwise. */
  lemma {:induction false} GroupsCount(df: seq<Row>, ranked: seq<string>, n: nat, r: Row)
    requires n <= |ranked| && r in df
    ensures Count(Groups(df, ranked, n), r) == if RankedFor(df, ranked, n, r) then Count(df, r) else 0
  {
    if n == 0 {
    } else {
      hide Taken, HasPair, RankedFor;
      GroupsCount(df, ranked, n - 1, r);
      GroupCount(df, ranked, n - 1, |df|, r);
      assert df[..|df|] == df;
      CountConcat(Groups(df, ranked, n - 1), Group(df, ranked, n - 1, |df|), r);
      RankedForStep(df, ranked, n, r);
    }
  }

  /** A row is ranked for at most one position. */
  lemma {:induction false} RankedForStep(df: seq<Row>, ranked: seq<string>, n: nat, r: Row)
    requires 0 < n <= |ranked| && r in df
    ensures var here := ranked[n - 1] == r.experiment && !Taken(df, ranked, n - 1, PairOf(r));
      && (RankedFor(df, ranked, n, r) <==> RankedFor(df, ranked, n - 1, r) || here)
      && !(RankedFor(df, ranked, n - 1, r) && here)
  {
    if RankedFor(df, ranked, n - 1, r) {
      var j :| 0 <= j < n - 1 && ranked[j] == r.experiment && !Taken(df, ranked, j, PairOf(r));
      assert HasPair(df, ranked[j], PairOf(r));
      assert Taken(df, ranked, n - 1, PairOf(r));
    }
  }

  ghost predicate RankedFor(df: seq<Row>, ranked: seq<string>, n: nat, r: Row)
    requires n <= |ranked|
  {
    exists i :: 0 <= i < n && ranked[i] == r.experiment && !Taken(df, ranked, i, PairOf(r))
  }

  lemma {:induction false} RankedForSurvives(df: seq<Row>, experiments: seq<string>, r: Row)
    ensures RankedFor(df, Reversed(experiments), |experiments|, r) <==> Survives(df, experiments, r)
  {
    var ranked, n := Reversed(experiments), |experiments|;
    if RankedFor(df, ranked, n, r) {
      var i :| 0 <= i < n && ranked[i] == r.experiment && !Taken(df, ranked, i, PairOf(r));
      forall j | n - 1 - i < j < n ensures !HasPair(df, experiments[j], PairOf(r)) {
        assert ranked[n - 1 - j] == experiments[j];
      }
      assert NoneBehind(df, experiments, n - 1 - i, PairOf(r));
      assert experiments[n - 1 - i] == r.experiment;
    }
    if Survives(df, experiments, r) {
      var k :| 0 <= k < n && experiments[k] == r.experiment && NoneBehind(df, experiments, k, PairOf(r));
      assert !Taken(df, ranked, n - 1 - k, PairOf(r));
      assert ranked[n - 1 - k] == r.experiment;
    }
  }

  /** Headline: every row of the data is in the result exactly as often as in the data when it survives, and not at
      all when it does not; and the result holds nothing else. */
  lemma {:induction false} ClobberKeepsSurvivors(df: seq<Row>, experiments: seq<string>, r: Row)
    ensures Count(Groups(df, Reversed(experiments), |experiments|), r)
            == if r in df && Survives(df, experiments, r) then Count(df, r) else 0
  {
    var ranked := Reversed(experiments);
    if r in df {
      GroupsCount(df, ranked, |experiments|, r);
      RankedForSurvives(df, experiments, r);
    } else {
      NothingNew(df, ranked, |experiments|, r);
    }
  }

  lemma {:induction false} NothingNew(df: seq<Row>, ranked: seq<string>, n: nat, r: Row)
    requires n <= |ranked| && r !in df
    ensures Count(Groups(df, ranked, n), r) == 0
  {
    if n == 0 {
    } else {
      NothingNew(df, ranked, n - 1, r);
      GroupCount(df, ranked, n - 1, |df|, r);
      assert df[..|df|] == df;
      CountAbsent(df, r);
      CountConcat(Groups(df, ranked, n - 1), Group(df, ranked, n - 1, |df|), r);
    }
  }

  lemma {:induction false} CountAbsent<T>(s: seq<T>, x: T)
    requires x !in s
    ensures Count(s, x) == 0
  {
    if |s| == 0 {
    } else {
      CountAbsent(s[..|s| - 1], x);
    }
  }

  /** No benchmark and fuzzer pair of a listed experiment is lost. */
  lemma {:induction false} NoPairLost(df: seq<Row>, experiments: seq<string>, e: nat, p: Pair)
    requires e < |experiments| && HasPair(df, experiments[e], p)
    ensures p in CoveredPairs(Groups(df, Reversed(experiments), |experiments|))
  {
    var ranked := Reversed(experiments);
    assert ranked[|experiments| - 1 - e] == experiments[e];
    assert Taken(df, ranked, |experiments|, p);
    GroupsCover(df, ranked, |experiments|, p);
  }

  /** All rows of one pair come from one experiment. */
  lemma {:induction false} OneExperimentPerPair(df: seq<Row>, experiments: seq<string>, r: Row, q: Row)
    requires r in df && q in df && PairOf(r) == PairOf(q)
    requires Survives(df, experiments, r) && Survives(df, experiments, q)
    ensures r.experiment == q.experiment
  {
    var p := PairOf(r);
    var k :| 0 <= k < |experiments| && experiments[k] == r.experiment && NoneBehind(df, experiments, k, p);
    var m :| 0 <= m < |experiments| && experiments[m] == q.experiment && NoneBehind(df, experiments, m, p);
    assert HasPair(df, experiments[k], p) && HasPair(df, experiments[m], p);
    assert !(k < m) && !(m < k);
  }

  /** The rows of a group are rows of its experiment, in the order of the data. */
  ghost predicate InOrder(df: seq<Row>, rows: seq<Row>, experiment: string, places: seq<nat>) {
    && |places| == |rows|
    && (forall k :: 0 <= k < |rows| ==>
          places[k] < |df| && rows[k] == df[places[k]] && rows[k].experiment == experiment)
    && (forall a, b :: 0 <= a < b < |places| ==> places[a] < places[b])
  }

  lemma {:induction false} GroupPlaces(df: seq<Row>, ranked: seq<string>, i: nat, n: nat) returns (places: seq<nat>)
    requires i < |ranked| && n <= |df|
    ensures InOrder(df, Group(df, ranked, i, n), ranked[i], places)
    ensures forall k :: 0 <= k < |places| ==> places[k] < n
  {
    if n == 0 {
      places := [];
    } else {
      places := GroupPlaces(df, ranked, i, n - 1);
      if df[n - 1].experiment == ranked[i] && !Taken(df, ranked, i, PairOf(df[n - 1])) {
        NextPlace(df, Group(df, ranked, i, n - 1), ranked[i], places, n - 1);
        places := places + [n - 1];
      } else {
        assert Group(df, ranked, i, n) == Group(df, ranked, i, n - 1);
      }
      hide Group, Taken, InOrder;
    }
  }

  lemma NextPlace(df: seq<Row>, rows: seq<Row>, experiment: string, places: seq<nat>, n: nat)
    requires n < |df| && InOrder(df, rows, experiment, places) && df[n].experiment == experiment
    requires forall k :: 0 <= k < |places| ==> places[k] < n
    ensures InOrder(df, rows + [df[n]], experiment, places + [n])
  {
  }

  /** The result is sorted: rows of better ranked experiments come first, rows of the same one in the order of the
      data; rank and place say where each row comes from. */
  ghost predicate Sorted(df: seq<Row>, ranked: seq<string>, n: nat, rows: seq<Row>, rank: seq<nat>, place: seq<nat>) {
    && |rank| == |place| == |rows|
    && (forall k :: 0 <= k < |rows| ==>
          rank[k] < n <= |ranked| && place[k] < |df|
          && rows[k] == df[place[k]] && rows[k].experiment == ranked[rank[k]])
    && (forall a, b :: 0 <= a < b < |rows| ==> rank[a] < rank[b] || (rank[a] == rank[b] && place[a] < place[b]))
  }

  lemma {:induction false} ClobberKeepsOrder(df: seq<Row>, ranked: seq<string>, n: nat)
    returns (rank: seq<nat>, place: seq<nat>)
    requires n <= |ranked|
    ensures Sorted(df, ranked, n, Groups(df, ranked, n), rank, place)
  {
    if n == 0 {
      rank, place := [], [];
    } else {
      var rank0, place0 := ClobberKeepsOrder(df, ranked, n - 1);
      var places := GroupPlaces(df, ranked, n - 1, |df|);
      rank, place := rank0 + seq(|places|, _ => n - 1), place0 + places;
      hide Group;
      NextGroup(df, ranked, n, Groups(df, ranked, n - 1), rank0, place0, Group(df, ranked, n - 1, |df|), places);
    }
  }

  lemma {:induction false} NextGroup(df: seq<Row>, ranked: seq<string>, n: nat, rows: seq<Row>, rank: seq<nat>,
                                     place: seq<nat>, group: seq<Row>, places: seq<nat>)
    requires 0 < n <= |ranked| && Sorted(df, ranked, n - 1, rows, rank, place)
    requires InOrder(df, group, ranked[n - 1], places)
    ensures Sorted(df, ranked, n, rows + group, rank + seq(|places|, _ => n - 1), place + places)
  {
  }
}
