/** The Beta posterior of one configuration arm: decayed window updates, the joint rescale that bounds its weight,
    and the softening used against stagnation. */
module BetaPosterior {
  import opened Reals

  datatype Posterior = Posterior(alpha: real, beta: real)

  const MIN_SHAPE: real := 0.000001
  const MAX_SUM: real := 50.0
  const UNIFORM: Posterior := Posterior(1.0, 1.0)

  /** Both shapes positive, their sum bounded. */
  predicate Proper(q: Posterior) {
    q.alpha > 0.0 && q.beta > 0.0 && q.alpha + q.beta <= MAX_SUM
  }

  function Mean(q: Posterior): real
    requires q.alpha > 0.0 && q.beta > 0.0
  {
    q.alpha / (q.alpha + q.beta)
  }

  /** The weight of the prior beyond the uniform one fades by the decay, and the window counts are added. */
  function Faded(prior: real, count: nat, decay: real): real {
    1.0 + (prior - 1.0) * decay + count as real
  }

  function AtLeastMin(a: real): (r: real)
    ensures r >= MIN_SHAPE && r >= a
    ensures a >= MIN_SHAPE ==> r == a
  {
    if a < MIN_SHAPE then MIN_SHAPE else a
  }

  /** Scales both shapes by the same factor when their sum is too large. */
  function Rescaled(q: Posterior): Posterior
    requires q.alpha > 0.0 && q.beta > 0.0
  {
    var total := q.alpha + q.beta;
    if total > MAX_SUM then Posterior(q.alpha * (MAX_SUM / total), q.beta * (MAX_SUM / total)) else q
  }

  /** The posterior after a window with the given finds and failures. */
  function Updated(q: Posterior, finds: nat, fails: nat, decay: real): Posterior {
    Rescaled(Posterior(AtLeastMin(Faded(q.alpha, finds, decay)), AtLeastMin(Faded(q.beta, fails, decay))))
  }

  /** 70 percent of the posterior and 30 percent of the uniform prior. */
  function Softened(q: Posterior): Posterior {
    Posterior(0.7 * q.alpha + 0.3 * 1.0, 0.7 * q.beta + 0.3 * 1.0)
  }

  lemma ScaleFactor(total: real)
    requires total > MAX_SUM
    ensures 0.0 < MAX_SUM / total < 1.0 && (MAX_SUM / total) * total == MAX_SUM
  {
    DivMul(MAX_SUM, total);
    DivBetween(MAX_SUM, total, 0.0, 1.0);
  }

  lemma ScaledShapes(a: real, b: real, scale: real) returns (x: real, y: real)
    requires a > 0.0 && b > 0.0 && scale > 0.0 && scale * (a + b) == MAX_SUM
    ensures x == a * scale && y == b * scale && x > 0.0 && y > 0.0 && x + y == MAX_SUM
  {
    x, y := a * scale, b * scale;
    assert x + y == scale * (a + b);
  }

  /** The rescale yields a proper posterior with the same mean. */
  lemma RescaleKeepsMean(q: Posterior)
    requires q.alpha > 0.0 && q.beta > 0.0
    ensures Proper(Rescaled(q)) && Mean(Rescaled(q)) == Mean(q)
    ensures Rescaled(q).alpha + Rescaled(q).beta == Min(MAX_SUM, q.alpha + q.beta)
  {
    var total := q.alpha + q.beta;
    if total > MAX_SUM {
      ScaleFactor(total);
      var x, y := ScaledShapes(q.alpha, q.beta, MAX_SUM / total);
      SameQuotient(q.alpha, total, MAX_SUM / total);
    }
  }

  lemma SameQuotient(a: real, total: real, scale: real)
    requires total > 0.0 && scale > 0.0
    ensures total * scale > 0.0 && (a * scale) / (total * scale) == a / total
  {
    var q := a / total;
    DivMul(a, total);
    assert total * scale > 0.0;
    assert q * (total * scale) == a * scale by {
      assert q * (total * scale) == (q * total) * scale;
    }
    Quotient(a * scale, total * scale, q);
  }

  /** Whatever the prior, the window and the decay factor, an update yields a proper posterior. */
  lemma UpdatedIsProper(q: Posterior, finds: nat, fails: nat, decay: real)
    ensures Proper(Updated(q, finds, fails, decay))
  {
    RescaleKeepsMean(Posterior(AtLeastMin(Faded(q.alpha, finds, decay)), AtLeastMin(Faded(q.beta, fails, decay))));
  }

  /** Decay zero forgets the prior: the window alone decides, as it does from the uniform prior under any decay. */
  lemma ZeroDecayForgets(q: Posterior, finds: nat, fails: nat, decay: real)
    ensures Updated(q, finds, fails, 0.0) == Updated(UNIFORM, finds, fails, decay)
  {
    assert Faded(q.alpha, finds, 0.0) == Faded(1.0, finds, decay);
    assert Faded(q.beta, fails, 0.0) == Faded(1.0, fails, decay);
  }

  /** Decay one forgets nothing: below the cap the counts are added. */
  lemma FullDecayAdds(q: Posterior, finds: nat, fails: nat)
    requires q.alpha >= MIN_SHAPE && q.beta >= MIN_SHAPE
    requires q.alpha + q.beta + finds as real + fails as real <= MAX_SUM
    ensures Updated(q, finds, fails, 1.0) == Posterior(q.alpha + finds as real, q.beta + fails as real)
  {
  }

  /** A shape after two windows: what was there before has faded twice, the first count once. */
  function TwiceFaded(prior: real, first: nat, c: real, second: nat, d: real): real {
    1.0 + (prior - 1.0) * c * d + first as real * d + second as real
  }

  /** Over two windows the decays multiply: of everything a posterior has seen, each later window leaves the share
      that its decay says. */
  lemma DecaysMultiply(q: Posterior, finds: nat, fails: nat, c: real, finds': nat, fails': nat, d: real)
    requires q.alpha >= 1.0 && q.beta >= 1.0 && 0.0 <= c && 0.0 <= d
    requires Faded(q.alpha, finds, c) + Faded(q.beta, fails, c) <= MAX_SUM
    requires TwiceFaded(q.alpha, finds, c, finds', d) + TwiceFaded(q.beta, fails, c, fails', d) <= MAX_SUM
    ensures Updated(Updated(q, finds, fails, c), finds', fails', d)
            == Posterior(TwiceFaded(q.alpha, finds, c, finds', d), TwiceFaded(q.beta, fails, c, fails', d))
  {
    FadedTwice(q.alpha, finds, c, finds', d);
    FadedTwice(q.beta, fails, c, fails', d);
  }

  lemma FadedTwice(prior: real, first: nat, c: real, second: nat, d: real)
    requires prior >= 1.0 && 0.0 <= c && 0.0 <= d
    ensures Faded(prior, first, c) >= 1.0
    ensures Faded(Faded(prior, first, c), second, d) == TwiceFaded(prior, first, c, second, d) >= 1.0
  {
    var rest, seen := (prior - 1.0) * c, first as real;
    Product(prior - 1.0, c);
    Product(rest + seen, d);
    assert (rest + seen) * d == rest * d + seen * d;
  }

  /** Two empty windows fade like one whose decay is the product. */
  lemma EmptyWindowsCompose(q: Posterior, c: real, d: real)
    requires Proper(q) && q.alpha >= 1.0 && q.beta >= 1.0 && 0.0 <= c <= 1.0 && 0.0 <= d <= 1.0
    ensures Updated(Updated(q, 0, 0, c), 0, 0, d) == Updated(q, 0, 0, c * d)
  {
    FadingShrinks(q.alpha, c);
    FadingShrinks(q.beta, c);
    FadingShrinks(Faded(q.alpha, 0, c), d);
    FadingShrinks(Faded(q.beta, 0, c), d);
    FadedTwice(q.alpha, 0, c, 0, d);
    FadedTwice(q.beta, 0, c, 0, d);
    DecaysMultiply(q, 0, 0, c, 0, 0, d);
    assert (q.alpha - 1.0) * c * d == (q.alpha - 1.0) * (c * d) && (q.beta - 1.0) * c * d == (q.beta - 1.0) * (c * d);
  }

  lemma FadingShrinks(prior: real, decay: real)
    requires prior >= 1.0 && 0.0 <= decay <= 1.0
    ensures 1.0 <= Faded(prior, 0, decay) <= prior
  {
    MulLe(0.0, decay, prior - 1.0);
    MulLe(decay, 1.0, prior - 1.0);
  }

  /** Softening is what an empty window with decay 0.7 would do. */
  lemma SofteningIsFading(q: Posterior)
    requires Proper(q)
    ensures Softened(q) == Updated(q, 0, 0, 0.7)
  {
  }

  /** A larger numerator and a smaller rest mean a larger share. */
  lemma ShareGrows(a: real, b: real, c: real, d: real)
    requires 0.0 < a < c && 0.0 < d <= b
    ensures a / (a + b) < c / (c + d)
  {
    var q, r := a / (a + b), c / (c + d);
    DivMul(a, a + b);
    DivMul(c, c + d);
    Shares(q, r, a, b, c, d);
  }

  lemma Shares(q: real, r: real, a: real, b: real, c: real, d: real)
    requires 0.0 < a < c && 0.0 < d <= b
    requires q * (a + b) == a && r * (c + d) == c
    ensures q < r
  {
    var k := (a + b) * (c + d);
    assert k > 0.0;
    assert q * k == a * (c + d) by {
      assert q * k == (q * (a + b)) * (c + d);
    }
    assert r * k == c * (a + b) by {
      assert r * k == (r * (c + d)) * (a + b);
    }
    assert a * d < c * b by {
      MulLe(d, b, a);
      assert (c - a) * b > 0.0;
    }
    assert a * (c + d) == a * c + a * d && c * (a + b) == a * c + c * b;
    assert (r - q) * k > 0.0;
    assert r <= q ==> (r - q) * k <= 0.0;
  }

  lemma FadedNonNegative(prior: real, decay: real)
    requires prior > 0.0 && 0.0 <= decay <= 1.0
    ensures 1.0 + (prior - 1.0) * decay >= 0.0
  {
    MulLe(0.0, prior, decay);
    assert (prior - 1.0) * decay == prior * decay - decay;
  }

  lemma ShapeGrows(prior: real, fewer: nat, more: nat, decay: real)
    requires prior > 0.0 && 0.0 <= decay <= 1.0 && fewer < more
    ensures 0.0 < AtLeastMin(Faded(prior, fewer, decay)) < AtLeastMin(Faded(prior, more, decay))
  {
    FadedNonNegative(prior, decay);
    assert fewer as real + 1.0 <= more as real;
    assert Faded(prior, more, decay) >= Faded(prior, fewer, decay) + 1.0;
  }

  /** With the same prior and window size, more finds give a strictly larger mean. */
  lemma MoreFindsLargerMean(q: Posterior, size: nat, fewer: nat, more: nat, decay: real)
    requires Proper(q) && 0.0 <= decay <= 1.0 && fewer < more <= size
    ensures Proper(Updated(q, fewer, size - fewer, decay)) && Proper(Updated(q, more, size - more, decay))
    ensures Mean(Updated(q, fewer, size - fewer, decay)) < Mean(Updated(q, more, size - more, decay))
  {
    ShapeGrows(q.alpha, fewer, more, decay);
    ShapeGrows(q.beta, size - more, size - fewer, decay);
    var a, b := AtLeastMin(Faded(q.alpha, fewer, decay)), AtLeastMin(Faded(q.beta, size - fewer, decay));
    var c, d := AtLeastMin(Faded(q.alpha, more, decay)), AtLeastMin(Faded(q.beta, size - more, decay));
    RescaleKeepsMean(Posterior(a, b));
    RescaleKeepsMean(Posterior(c, d));
    ShareGrows(a, b, c, d);
  }

  /** Softening keeps a posterior proper and moves its mean towards one half without passing it. */
  lemma SofteningMovesTowardsHalf(q: Posterior)
    requires Proper(q)
    ensures Proper(Softened(q))
    ensures Mean(q) >= 0.5 ==> 0.5 <= Mean(Softened(q)) <= Mean(q)
    ensures Mean(q) <= 0.5 ==> Mean(q) <= Mean(Softened(q)) <= 0.5
  {
    var a, b := q.alpha, q.beta;
    var c, d := Softened(q).alpha, Softened(q).beta;
    assert c * (a + b) - a * (c + d) == 0.3 * (b - a);
    HalfIff(a, b);
    HalfIff(c, d);
    if a >= b {
      CrossLe(c, c + d, a, a + b);
    }
    if a <= b {
      CrossLe(a, a + b, c, c + d);
    }
  }

  /** A share is at least one half exactly when it is at least the rest. */
  lemma HalfIff(a: real, b: real)
    requires a > 0.0 && b > 0.0
    ensures a / (a + b) >= 0.5 <==> a >= b
    ensures a / (a + b) <= 0.5 <==> a <= b
  {
    var q := a / (a + b);
    DivMul(a, a + b);
    if a >= b {
      CancelLe(0.5, q, a + b);
    }
    if a <= b {
      CancelLe(q, 0.5, a + b);
    }
    if a != b {
      assert q != 0.5;
    }
  }
}
