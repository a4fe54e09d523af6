/** What a Vose alias table means: which operator a (column, uniform draw) pair selects, and with what
    probability each operator is selected.  The tables themselves are built in module Markov. */
module AliasTable {
  import opened Sums

  ghost predicate Distribution(p: seq<real>) {
    && (forall i :: 0 <= i < |p| ==> 0.0 <= p[i])
    && Sum(p) == 1.0
  }

  /** One alias-table draw: column i is uniform over the row, u is uniform over [0,1). */
  function Pick(keep: seq<real>, alias: seq<nat>, i: nat, u: real): nat
    requires i < |keep| == |alias|
  {
    if u < keep[i] then i else alias[i]
  }

  /** The draws u in [0,1) for which column i selects j, as a half-open interval. */
  function HitInterval(keep: seq<real>, alias: seq<nat>, i: nat, j: nat): (real, real)
    requires i < |keep| == |alias|
  {
    if i == j && alias[i] == j then (0.0, 1.0)
    else if i == j then (0.0, keep[i])
    else if alias[i] == j then (keep[i], 1.0)
    else (0.0, 0.0)
  }

  ghost function HitLengths(keep: seq<real>, alias: seq<nat>, j: nat): seq<real>
    requires |keep| == |alias|
  {
    seq(|keep|, i requires 0 <= i < |keep| =>
      HitInterval(keep, alias, i, j).1 - HitInterval(keep, alias, i, j).0)
  }

  /** The probability that a draw selects j: the columns are equally likely, and in column i the
      probability is the length of the hit interval. */
  ghost function DrawProbability(keep: seq<real>, alias: seq<nat>, j: nat): real
    requires |keep| == |alias| > 0
  {
    Sum(HitLengths(keep, alias, j)) / (|keep| as real)
  }

  /** What the columns give away to outcome j. */
  ghost function Credits(give: seq<real>, to: seq<nat>, j: nat): seq<real>
    requires |give| == |to|
  {
    seq(|give|, i requires 0 <= i < |give| => if to[i] == j then give[i] else 0.0)
  }

  ghost function Received(give: seq<real>, to: seq<nat>, j: nat): real
    requires |give| == |to|
  {
    Sum(Credits(give, to, j))
  }

  ghost function Complement(keep: seq<real>): seq<real> {
    seq(|keep|, i requires 0 <= i < |keep| => 1.0 - keep[i])
  }

  /** A table row is well formed and outcome j gets exactly the mass of mass[j] columns. */
  ghost predicate Splits(keep: seq<real>, alias: seq<nat>, mass: seq<real>) {
    && |keep| == |alias| == |mass|
    && (forall i :: 0 <= i < |mass| ==> 0.0 <= keep[i] <= 1.0)
    && (forall i :: 0 <= i < |mass| ==> alias[i] < |mass|)
    && (forall j: nat {:trigger Received(Complement(keep), alias, j)} :: j < |mass| ==>
          keep[j] + Received(Complement(keep), alias, j) == mass[j])
  }

  ghost function Scaled(p: seq<real>): seq<real> {
    seq(|p|, i requires 0 <= i < |p| => p[i] * |p| as real)
  }

  /** A table row that represents the distribution p: outcome j gets the mass |p| * p[j]. */
  ghost predicate Exact(keep: seq<real>, alias: seq<nat>, p: seq<real>) {
    Splits(keep, alias, Scaled(p))
  }

  /** The hit interval is exactly the set of draws that select j. */
  lemma PickHits(keep: seq<real>, alias: seq<nat>, i: nat, j: nat, u: real)
    requires i < |keep| == |alias|
    requires 0.0 <= keep[i] <= 1.0 && 0.0 <= u < 1.0
    ensures 0.0 <= HitInterval(keep, alias, i, j).0 <= HitInterval(keep, alias, i, j).1 <= 1.0
    ensures Pick(keep, alias, i, u) == j <==>
            HitInterval(keep, alias, i, j).0 <= u < HitInterval(keep, alias, i, j).1
  {
  }

  /** A row of zeros except for v at position k sums to v. */
  lemma {:induction false} SumSingle(s: seq<real>, k: nat)
    requires k < |s|
    requires forall i :: 0 <= i < |s| && i != k ==> s[i] == 0.0
    ensures Sum(s) == s[k]
  {
    var z := s[k := 0.0];
    SumConstant(z, 0.0);
    assert z[k := s[k]] == s;
    SumUpdate(z, k, s[k]);
  }

  /** Headline: drawing from an exact table row draws outcome j with probability p[j]. */
  lemma {:induction false} DrawsExactly(keep: seq<real>, alias: seq<nat>, p: seq<real>, j: nat)
    requires Exact(keep, alias, p) && j < |p|
    ensures DrawProbability(keep, alias, j) == p[j]
  {
    hide Sum, HitLengths, Received;
    HitMass(keep, alias, Scaled(p), j);
    assert Sum(HitLengths(keep, alias, j)) == p[j] * |p| as real;
    Cancel(p[j], |p| as real);
  }

  lemma {:induction false} HitMass(keep: seq<real>, alias: seq<nat>, mass: seq<real>, j: nat)
    requires Splits(keep, alias, mass) && j < |mass|
    ensures Sum(HitLengths(keep, alias, j)) == mass[j]
  {
    var own := Own(keep, j);
    SumSingle(own, j);
    HitsAreShares(keep, alias, j);
    assert Sum(HitLengths(keep, alias, j)) == Sum(own) + Received(Complement(keep), alias, j);
  }

  /** What column j keeps for itself, as a row. */
  ghost function Own(keep: seq<real>, j: nat): seq<real> {
    seq(|keep|, i requires 0 <= i < |keep| => if i == j then keep[i] else 0.0)
  }

  lemma {:induction false} HitsAreShares(keep: seq<real>, alias: seq<nat>, j: nat)
    requires |keep| == |alias|
    ensures Sum(HitLengths(keep, alias, j)) == Sum(Own(keep, j)) + Received(Complement(keep), alias, j)
  {
    var own, credits, hits := Own(keep, j), Credits(Complement(keep), alias, j), HitLengths(keep, alias, j);
    forall i | 0 <= i < |keep| ensures hits[i] == own[i] + 1.0 * credits[i] {
    }
    SumLinear(own, credits, hits, 1.0);
  }

  lemma Cancel(x: real, n: real)
    requires n != 0.0
    ensures (x * n) / n == x
  {
  }

  /** Redirecting the so far unused share of column l to outcome g changes the credits of g only. */
  lemma CreditsUpdate(give: seq<real>, to: seq<nat>, l: nat, g: nat, d: real, j: nat)
    requires l < |give| == |to| && give[l] == 0.0
    ensures Received(give[l := d], to[l := g], j) == Received(give, to, j) + (if g == j then d else 0.0)
  {
    var c := Credits(give, to, j);
    var v := if g == j then d else 0.0;
    assert c[l] == 0.0;
    assert Credits(give[l := d], to[l := g], j) == c[l := v];
    SumUpdate(c, l, v);
  }

  /** The invariant of Vose's construction: the shares still to be placed, and what has been given away. */
  ghost predicate InProgress(scaled: seq<real>, give: seq<real>, to: seq<nat>, mass: seq<real>) {
    && |scaled| == |give| == |to| == |mass|
    && (forall i :: 0 <= i < |mass| ==> 0.0 <= scaled[i] && 0.0 <= give[i] && to[i] < |mass|)
    && (forall j: nat {:trigger Received(give, to, j)} :: j < |mass| ==>
          scaled[j] + Received(give, to, j) == mass[j])
    && Sum(Shares(scaled, give)) == |mass| as real
  }

  ghost function Shares(scaled: seq<real>, give: seq<real>): seq<real>
    requires |scaled| == |give|
  {
    seq(|scaled|, i requires 0 <= i < |scaled| => scaled[i] + give[i])
  }

  lemma {:induction false} StartInProgress(scaled: seq<real>, give: seq<real>, to: seq<nat>)
    requires |scaled| == |give| == |to| && Sum(scaled) == |scaled| as real
    requires forall i :: 0 <= i < |scaled| ==> 0.0 <= scaled[i] && give[i] == 0.0 && to[i] == i
    ensures InProgress(scaled, give, to, scaled)
  {
    forall j: nat | j < |scaled| ensures Received(give, to, j) == 0.0 {
      SumConstant(Credits(give, to, j), 0.0);
    }
    assert Shares(scaled, give) == scaled;
  }

  /** One pairing of a small column l with a large column g keeps the invariant. */
  lemma {:induction false} PairingStep(scaled: seq<real>, give: seq<real>, to: seq<nat>, mass: seq<real>,
                                       l: nat, g: nat)
    requires InProgress(scaled, give, to, mass) && l < |mass| && g < |mass|
    requires scaled[l] < 1.0 <= scaled[g] && give[l] == 0.0
    ensures InProgress(scaled[g := scaled[g] + scaled[l] - 1.0], give[l := 1.0 - scaled[l]], to[l := g], mass)
  {
    var d := 1.0 - scaled[l];
    var scaled', give', to' := scaled[g := scaled[g] + scaled[l] - 1.0], give[l := d], to[l := g];
    assert Sum(Shares(scaled', give')) == |mass| as real by {
      SharesStep(scaled, give, l, g);
    }
    forall j: nat | j < |mass| ensures scaled'[j] + Received(give', to', j) == mass[j] {
      MassStep(scaled, give, to, l, g, j);
    }
  }

  lemma {:induction false} MassStep(scaled: seq<real>, give: seq<real>, to: seq<nat>, l: nat, g: nat, j: nat)
    requires |scaled| == |give| == |to| && l < |scaled| && g < |scaled| && j < |scaled|
    requires l != g && give[l] == 0.0
    ensures scaled[g := scaled[g] + scaled[l] - 1.0][j] + Received(give[l := 1.0 - scaled[l]], to[l := g], j)
            == scaled[j] + Received(give, to, j)
  {
    CreditsUpdate(give, to, l, g, 1.0 - scaled[l], j);
  }

  lemma {:induction false} SharesStep(scaled: seq<real>, give: seq<real>, l: nat, g: nat)
    requires |scaled| == |give| && l < |scaled| && g < |scaled| && l != g && give[l] == 0.0
    ensures Sum(Shares(scaled[g := scaled[g] + scaled[l] - 1.0], give[l := 1.0 - scaled[l]]))
            == Sum(Shares(scaled, give))
  {
    var d := 1.0 - scaled[l];
    var before := Shares(scaled, give);
    var mid := before[l := 1.0];
    var after := mid[g := before[g] - d];
    SumUpdate(before, l, 1.0);
    SumUpdate(mid, g, before[g] - d);
    assert Shares(scaled[g := scaled[g] + scaled[l] - 1.0], give[l := d]) == after;
  }

  /** When no small column is left every share is exactly one; when no large column is left, no small
      one is either: over the reals the second leftover loop has nothing to do. */
  lemma {:induction false} Leftovers(scaled: seq<real>, give: seq<real>)
    requires |scaled| == |give| && Sum(Shares(scaled, give)) == |scaled| as real
    requires (forall i :: 0 <= i < |scaled| ==> scaled[i] + give[i] >= 1.0)
          || (forall i :: 0 <= i < |scaled| ==> scaled[i] + give[i] <= 1.0)
    ensures forall i :: 0 <= i < |scaled| ==> scaled[i] + give[i] == 1.0
  {
    var shares := Shares(scaled, give);
    var ones := seq(|scaled|, i => 1.0);
    SumConstant(ones, 1.0);
    if forall i :: 0 <= i < |scaled| ==> scaled[i] + give[i] >= 1.0 {
      SumMonotone(ones, shares);
    } else {
      SumMonotone(shares, ones);
    }
    forall i | 0 <= i < |scaled| ensures scaled[i] + give[i] == 1.0 {
      assert shares[i] == ones[i];
    }
  }

  lemma {:induction false} FinishedSplits(scaled: seq<real>, give: seq<real>, to: seq<nat>, mass: seq<real>,
                                          keep: seq<real>, alias: seq<nat>)
    requires InProgress(scaled, give, to, mass)
    requires |keep| == |alias| == |mass|
    requires forall i :: 0 <= i < |mass| ==> scaled[i] + give[i] == 1.0 && keep[i] == scaled[i] && alias[i] == to[i]
    ensures Splits(keep, alias, mass)
  {
    assert keep == scaled && alias == to;
    assert Complement(keep) == give;
  }

  /** The work lists: slot[i] is -1 once column i is finished, and otherwise its position in the list of
      small or of large columns. */
  ghost predicate WorkLists(small: seq<nat>, large: seq<nat>, scaled: seq<real>, slot: seq<int>) {
    && |slot| == |scaled|
    && (forall a :: 0 <= a < |small| ==>
          small[a] < |scaled| && scaled[small[a]] < 1.0 && slot[small[a]] == a)
    && (forall a :: 0 <= a < |large| ==>
          large[a] < |scaled| && scaled[large[a]] >= 1.0 && slot[large[a]] == a)
    && (forall i :: 0 <= i < |scaled| && slot[i] != -1 ==>
          if scaled[i] < 1.0 then 0 <= slot[i] < |small| && small[slot[i]] == i
          else 0 <= slot[i] < |large| && large[slot[i]] == i)
  }

  lemma {:induction false} WorkListAdd(small: seq<nat>, large: seq<nat>, scaled: seq<real>, slot: seq<int>, share: real)
    requires WorkLists(small, large, scaled, slot)
    ensures if share < 1.0 then WorkLists(small + [|scaled|], large, scaled + [share], slot + [|small|])
            else WorkLists(small, large + [|scaled|], scaled + [share], slot + [|large|])
  {
  }

  /** What one pairing does to the work lists: l is finished, g goes back to the list its rest belongs to. */
  lemma {:induction false} WorkListStep(small: seq<nat>, large: seq<nat>, scaled: seq<real>, slot: seq<int>,
                                        l: nat, g: nat, rest: real)
    requires WorkLists(small, large, scaled, slot) && small != [] && large != []
    requires l == small[|small| - 1] && g == large[|large| - 1]
    ensures l < |scaled| && g < |scaled| && l != g && slot[l] != -1 && slot[g] != -1
    ensures scaled[l] < 1.0 <= scaled[g]
    ensures if rest < 1.0 then
              WorkLists(small[..|small| - 1] + [g], large[..|large| - 1], scaled[g := rest],
                        slot[l := -1][g := |small| - 1])
            else
              WorkLists(small[..|small| - 1], large[..|large| - 1] + [g], scaled[g := rest],
                        slot[l := -1][g := |large| - 1])
  {
  }
}
