/** The per-thread trace bitmap: XOR edge hashing into saturating 8-bit counters. */
module TraceBitmap {
  import opened Buckets
  import opened Circular
  import opened Naturals
  import opened Sums

  /** Bitwise exclusive or of two unsigned integers. */
  function Xor(a: nat, b: nat): nat {
    if a == 0 && b == 0 then 0
    else 2 * Xor(a / 2, b / 2) + (if a % 2 != b % 2 then 1 else 0)
  }

  /** The map entry an edge id is booked under: the id masked to the map size. */
  function Index(edgeId: nat): (e: nat)
    ensures e < MAP_SIZE && edgeId == edgeId / MAP_SIZE * MAP_SIZE + e
  {
    edgeId % MAP_SIZE
  }

  /** The id of the edge from location prev to location cur; prev is shifted to tell the directions apart. */
  function EdgeId(prev: nat, cur: nat): nat {
    Xor(cur, prev / 2)
  }

  /** Bit i of x. */
  function BitOf(x: nat, i: nat): bool {
    if i == 0 then x % 2 == 1 else BitOf(x / 2, i - 1)
  }

  lemma {:induction false} XorIsBitwise(a: nat, b: nat, i: nat)
    ensures BitOf(Xor(a, b), i) <==> BitOf(a, i) != BitOf(b, i)
    decreases i
  {
    if i == 0 {
    } else {
      XorIsBitwise(a / 2, b / 2, i - 1);
    }
  }

  lemma {:induction false} XorBound(a: nat, b: nat, k: nat)
    requires a < Pow2(k) && b < Pow2(k)
    ensures Xor(a, b) < Pow2(k)
  {
    if k == 0 || (a == 0 && b == 0) {
    } else {
      XorBound(a / 2, b / 2, k - 1);
    }
  }

  /** The map entries a run visits, in order: edge k joins guard k - 1 (location 0 for the first) to guard k. */
  function EdgesOf(guards: seq<nat>): (edges: seq<nat>)
    ensures |edges| == |guards|
  {
    seq(|guards|, k requires 0 <= k < |guards| =>
      Index(EdgeId(if k == 0 then 0 else guards[k - 1], guards[k])))
  }

  function Saturate(count: nat): (r: nat)
    ensures count <= 255 ==> r == count
    ensures count >= 255 ==> r == 255
  {
    if count < 255 then count else 255
  }

  ghost predicate Zeros(bits: seq<nat>) {
    |bits| == MAP_SIZE && forall e :: 0 <= e < MAP_SIZE ==> bits[e] == 0
  }

  class Trace {
    const bits: array<nat>
    var prevLoc: nat

    ghost predicate Valid()
      reads this, bits
    {
      bits.Length == MAP_SIZE && forall e :: 0 <= e < MAP_SIZE ==> bits[e] <= 255
    }

    constructor ()
      ensures Valid() && fresh(bits)
    {
      bits := new nat[MAP_SIZE](_ => 0);
      prevLoc := 0;
    }

    method Reset()
      requires Valid()
      modifies this, bits
      ensures Valid() && prevLoc == 0 && Zeros(bits[..])
    {
      forall e | 0 <= e < MAP_SIZE {
        bits[e] := 0;
      }
      prevLoc := 0;
    }

    method RecordEdge(edgeId: nat)
      requires Valid()
      modifies bits
      ensures Valid()
      ensures bits[Index(edgeId)] == Saturate(old(bits[Index(edgeId)]) + 1)
      ensures forall e :: 0 <= e < MAP_SIZE && e != Index(edgeId) ==> bits[e] == old(bits[e])
    {
      var e := Index(edgeId);
      if bits[e] < 255 {
        bits[e] := bits[e] + 1;
      }
    }

    method ComputeEdgeId(cur: nat) returns (edgeId: nat)
      modifies this
      ensures edgeId == Xor(cur, old(prevLoc)) && prevLoc == cur / 2
    {
      edgeId := Xor(cur, prevLoc);
      prevLoc := cur / 2;
    }

    /** One input: reset, then one guard callback per visited location.  The bitmap is the saturated edge
        histogram of this input, whatever ran before. */
    method RunInput(guards: seq<nat>)
      requires Valid()
      modifies this, bits
      ensures Valid()
      ensures Histogram(bits[..], EdgesOf(guards))
    {
      hide Xor, Histogram, Valid;
      Reset();
      ghost var edges := EdgesOf(guards);
      EmptyHistogram(bits[..], edges);
      for k := 0 to |guards|
        invariant Valid()
        invariant prevLoc == (if k == 0 then 0 else guards[k - 1]) / 2
        invariant Histogram(bits[..], edges[..k])
      {
        HistogramStep(bits[..], edges, k);
        EdgeAt(guards, k);
        Visit(guards[k], edges[k]);
      }
      assert edges[..|guards|] == edges;
    }

    /** A guard callback: hash the edge, then record it. */
    method Visit(cur: nat, ghost e: nat)
      requires Valid() && e == Index(Xor(cur, prevLoc))
      modifies this, bits
      ensures Valid() && prevLoc == cur / 2
      ensures bits[..] == old(bits[..])[e := Saturate(old(bits[e]) + 1)]
    {
      var edgeId := ComputeEdgeId(cur);
      RecordEdge(edgeId);
    }
  }

  ghost predicate Histogram(bits: seq<nat>, edges: seq<nat>) {
    |bits| == MAP_SIZE && forall e: nat :: e < MAP_SIZE ==> bits[e] == Saturate(Count(edges, e))
  }

  lemma {:induction false} EmptyHistogram(bits: seq<nat>, edges: seq<nat>)
    requires Zeros(bits)
    ensures Histogram(bits, edges[..0])
  {
  }

  lemma {:induction false} HistogramStep(bits: seq<nat>, edges: seq<nat>, k: nat)
    requires k < |edges| && edges[k] < MAP_SIZE && Histogram(bits, edges[..k])
    ensures Histogram(bits[edges[k] := Saturate(bits[edges[k]] + 1)], edges[..k + 1])
  {
    forall e: nat | e < MAP_SIZE
      ensures Count(edges[..k + 1], e) == Count(edges[..k], e) + (if edges[k] == e then 1 else 0)
    {
      CountStep(edges, k, e);
    }
  }

  lemma {:induction false} EdgeAt(guards: seq<nat>, k: nat)
    requires k < |guards|
    ensures EdgesOf(guards)[k] == Index(Xor(guards[k], (if k == 0 then 0 else guards[k - 1]) / 2)) < MAP_SIZE
  {
  }

  lemma MapSizeIsPower()
    ensures MAP_SIZE == Pow2(16)
  {
    assert Pow2(4) == 16 && Pow2(8) == 256 && Pow2(12) == 4096;
  }

  /** Swapping the direction of an edge always changes its map entry, for distinct guards inside the map. */
  lemma {:induction false} DirectionsDiffer(a: nat, b: nat)
    requires a != b && a < MAP_SIZE && b < MAP_SIZE
    ensures Index(EdgeId(a, b)) != Index(EdgeId(b, a))
  {
    MapSizeIsPower();
    XorBound(b, a / 2, 16);
    XorBound(a, b / 2, 16);
    if EdgeId(a, b) == EdgeId(b, a) {
      EdgeIdSymmetryMeansLoop(a, b);
    }
  }

  /** Over all locations, the two directions share an id only for an edge from a location to itself. */
  lemma {:induction false} EdgeIdSymmetryMeansLoop(a: nat, b: nat)
    requires EdgeId(a, b) == EdgeId(b, a)
    ensures a == b
    decreases a + b
  {
    if a == 0 && b == 0 {
    } else {
      XorHalves(b, a / 2);
      XorHalves(a, b / 2);
      EdgeIdSymmetryMeansLoop(a / 2, b / 2);
    }
  }

  lemma XorHalves(a: nat, b: nat)
    ensures Xor(a, b) / 2 == Xor(a / 2, b / 2)
    ensures Xor(a, b) % 2 == 1 <==> a % 2 != b % 2
  {
  }

  /** The low k bits of x and y agree. */
  predicate Agree(x: nat, y: nat, k: nat) {
    k == 0 || (x % 2 == y % 2 && Agree(x / 2, y / 2, k - 1))
  }

  /** The low k bits of d are all zero or all one. */
  predicate Uniform(d: nat, k: nat) {
    k <= 1 || (d % 2 == (d / 2) % 2 && Uniform(d / 2, k - 1))
  }

  /** Exactly when the mask merges the two directions, for arbitrary guards: when the guards differ in none
      or in all of their low 17 bits. */
  lemma {:induction false} DirectionsMeetIff(a: nat, b: nat)
    ensures Index(EdgeId(a, b)) == Index(EdgeId(b, a)) <==> Uniform(Xor(a, b), 17)
  {
    MapSizeIsPower();
    MaskKeepsLowBits(EdgeId(a, b), EdgeId(b, a), 16);
    AgreementIsUniform(a, b, 16);
  }

  lemma {:induction false} AgreementIsUniform(a: nat, b: nat, k: nat)
    ensures Agree(Xor(b, a / 2), Xor(a, b / 2), k) <==> Uniform(Xor(a, b), k + 1)
    decreases k
  {
    if k == 0 {
    } else {
      XorHalves(b, a / 2);
      XorHalves(a, b / 2);
      XorHalves(a, b);
      XorHalves(a / 2, b / 2);
      AgreementIsUniform(a / 2, b / 2, k - 1);
    }
  }

  lemma {:induction false} MaskKeepsLowBits(x: nat, y: nat, k: nat)
    requires Pow2(k) > 0
    ensures x % Pow2(k) == y % Pow2(k) <==> Agree(x, y, k)
  {
    if k == 0 {
    } else {
      MaskKeepsLowBits(x / 2, y / 2, k - 1);
      MaskHalf(x, Pow2(k - 1));
      MaskHalf(y, Pow2(k - 1));
    }
  }

  lemma MaskHalf(x: nat, p: nat)
    requires p > 0
    ensures x % (2 * p) == 2 * ((x / 2) % p) + x % 2
  {
    var q, r := (x / 2) / p, (x / 2) % p;
    assert x / 2 == q * p + r;
    assert q * (2 * p) == 2 * (q * p);
    Unique(x, q, 2 * r + x % 2, 2 * p);
  }
}
