/** Inline 8-bit counters: the chunked scan for new coverage, against one plain left-to-right pass. */
module InlineCounters {

  const MAX_COUNTERS: nat := 1_048_576
  const CHUNK: nat := 64
  const VIRGIN: nat := 255

  /** What a scan reads and writes: the virgin table, the last counters seen, the edge total, the verdict. */
  datatype Tables = Tables(virgin: seq<nat>, prev: seq<nat>, edges: nat, found: bool)

  /** The plain pass over the first k counters. */
  ghost function Pass(cur: seq<nat>, t: Tables, k: nat): (r: Tables)
    requires k <= |cur| && |cur| <= |t.virgin| == |t.prev|
    ensures |r.virgin| == |r.prev| == |t.virgin|
  {
    if k == 0 then t else Visit(Pass(cur, t, k - 1), k - 1, cur[k - 1])
  }

  /** One counter: zero is skipped; the first hit of a virgin entry is a new edge. */
  function Visit(t: Tables, i: nat, count: nat): (r: Tables)
    requires i < |t.virgin| == |t.prev|
    ensures |r.virgin| == |r.prev| == |t.virgin|
  {
    if count == 0 then t
    else if t.virgin[i] == VIRGIN then Tables(t.virgin[i := 0], t.prev[i := count], t.edges + 1, true)
    else t.(prev := t.prev[i := count])
  }

  /** A stretch of zero counters does nothing. */
  lemma {:induction false} PassSkips(cur: seq<nat>, t: Tables, i: nat, k: nat)
    requires i <= k <= |cur| && |cur| <= |t.virgin| == |t.prev|
    requires forall j :: i <= j < k ==> cur[j] == 0
    ensures Pass(cur, t, k) == Pass(cur, t, i)
  {
    if i == k {
    } else {
      PassSkips(cur, t, i, k - 1);
    }
  }

  /** An entry counts as new when its counter is hit and it was virgin before the scan. */
  predicate IsNew(cur: seq<nat>, virgin: seq<nat>, j: nat)
    requires j < |cur| <= |virgin|
  {
    cur[j] != 0 && virgin[j] == VIRGIN
  }

  /** How many of the first k entries are zero. */
  ghost function Zeros(virgin: seq<nat>, k: nat): nat
    requires k <= |virgin|
  {
    if k == 0 then 0 else Zeros(virgin, k - 1) + (if virgin[k - 1] == 0 then 1 else 0)
  }

  /** How many of the first k entries count as new. */
  ghost function NewEntries(cur: seq<nat>, virgin: seq<nat>, k: nat): nat
    requires k <= |cur| <= |virgin|
  {
    if k == 0 then 0 else NewEntries(cur, virgin, k - 1) + (if IsNew(cur, virgin, k - 1) then 1 else 0)
  }

  /** What a pass does, entry by entry: the verdict is whether any entry is new, the total grows by the number
      of new entries, new entries stop being virgin, and every hit counter is remembered. */
  lemma {:induction false} PassMeans(cur: seq<nat>, t: Tables, k: nat)
    requires k <= |cur| && |cur| <= |t.virgin| == |t.prev| && !t.found
    ensures var r := Pass(cur, t, k);
            && (forall j: nat :: j < |t.virgin| ==>
                  r.virgin[j] == if j < k && cur[j] != 0 && t.virgin[j] == VIRGIN then 0 else t.virgin[j])
            && (forall j: nat :: j < |t.virgin| ==>
                  r.prev[j] == if j < k && cur[j] != 0 then cur[j] else t.prev[j])
            && r.edges == t.edges + NewEntries(cur, t.virgin, k)
            && (r.found <==> exists j: nat :: j < k && cur[j] != 0 && t.virgin[j] == VIRGIN)
  {
    if k == 0 {
    } else {
      PassMeans(cur, t, k - 1);
      assert IsNew(cur, t.virgin, k - 1) ==> cur[k - 1] != 0 && t.virgin[k - 1] == VIRGIN;
    }
  }

  /** Clearing one virgin entry makes one more zero. */
  lemma {:induction false} ZerosAfterClear(virgin: seq<nat>, i: nat, k: nat)
    requires i < |virgin| && k <= |virgin| && virgin[i] != 0
    ensures Zeros(virgin[i := 0], k) == Zeros(virgin, k) + (if i < k then 1 else 0)
  {
    if k == 0 {
    } else {
      ZerosAfterClear(virgin, i, k - 1);
    }
  }

  lemma {:induction false} NoZeros(virgin: seq<nat>, k: nat)
    requires k <= |virgin| && forall j :: 0 <= j < |virgin| ==> virgin[j] != 0
    ensures Zeros(virgin, k) == 0
  {
    if k == 0 {
    } else {
      NoZeros(virgin, k - 1);
    }
  }

  /** Every pass keeps the edge total equal to the number of cleared entries. */
  lemma {:induction false} PassKeepsTotal(cur: seq<nat>, t: Tables, k: nat)
    requires k <= |cur| && |cur| <= |t.virgin| == |t.prev|
    requires t.edges == Zeros(t.virgin, |t.virgin|)
    ensures Pass(cur, t, k).edges == Zeros(Pass(cur, t, k).virgin, |t.virgin|)
  {
    if k == 0 {
    } else {
      PassKeepsTotal(cur, t, k - 1);
      var before := Pass(cur, t, k - 1);
      if cur[k - 1] != 0 && before.virgin[k - 1] == VIRGIN {
        ZerosAfterClear(before.virgin, k - 1, |before.virgin|);
      }
    }
  }

  /** Scan after scan, from fresh tables of size m on; the regions scanned may differ in length. */
  ghost function Scans(inputs: seq<seq<nat>>, m: nat): (t: Tables)
    requires forall k :: 0 <= k < |inputs| ==> |inputs[k]| <= m
    ensures |t.virgin| == |t.prev| == m
  {
    if |inputs| == 0 then Tables(seq(m, _ => VIRGIN), seq(m, _ => 0), 0, false)
    else
      var before, last := Scans(inputs[..|inputs| - 1], m), inputs[|inputs| - 1];
      Pass(last, before.(found := false), |last|)
  }

  /** Some of the scans found the counter hit. */
  ghost predicate EverHit(inputs: seq<seq<nat>>, j: nat) {
    exists k :: 0 <= k < |inputs| && j < |inputs[k]| && inputs[k][j] != 0
  }

  lemma {:induction false} VirginUntilHit(inputs: seq<seq<nat>>, m: nat, j: nat)
    requires (forall k :: 0 <= k < |inputs| ==> |inputs[k]| <= m) && j < m
    ensures Scans(inputs, m).virgin[j] == if EverHit(inputs, j) then 0 else VIRGIN
  {
    if |inputs| == 0 {
    } else {
      var rest, last := inputs[..|inputs| - 1], inputs[|inputs| - 1];
      VirginUntilHit(rest, m, j);
      PassMeans(last, Scans(rest, m).(found := false), |last|);
      assert EverHit(inputs, j) <==> EverHit(rest, j) || (j < |last| && last[j] != 0) by {
        if EverHit(rest, j) {
          var k :| 0 <= k < |rest| && j < |rest[k]| && rest[k][j] != 0;
          assert inputs[k] == rest[k];
        }
      }
    }
  }

  /** What new coverage means: a scan finds some exactly when it finds a counter hit that no earlier scan did. */
  lemma {:induction false} NewIffNeverHit(inputs: seq<seq<nat>>, m: nat, cur: seq<nat>)
    requires (forall k :: 0 <= k < |inputs| ==> |inputs[k]| <= m) && |cur| <= m
    ensures Scans(inputs + [cur], m).found <==> exists j: nat :: j < |cur| && cur[j] != 0 && !EverHit(inputs, j)
  {
    var t := Scans(inputs, m).(found := false);
    assert (inputs + [cur])[..|inputs|] == inputs;
    PassMeans(cur, t, |cur|);
    forall j: nat | j < |cur| ensures t.virgin[j] == VIRGIN <==> !EverHit(inputs, j) {
      VirginUntilHit(inputs, m, j);
    }
    hide EverHit, Pass;
  }

  class Inline8BitCoverage {
    var counters: array?<nat>
    var numCounters: nat
    var prevCounters: array?<nat>
    var virginBits: array?<nat>
    var initialized: bool
    var totalEdges: nat
    var newCoverageCount: nat
    ghost var repr: set<object>

    ghost predicate Valid()
      reads this, repr
    {
      && this in repr
      && (prevCounters != null ==> prevCounters in repr && prevCounters.Length == MAX_COUNTERS)
      && (virginBits != null ==> virginBits in repr && virginBits.Length == MAX_COUNTERS)
      && (prevCounters != null && virginBits != null ==> prevCounters != virginBits)
      && (initialized ==>
            && counters != null && prevCounters != null && virginBits != null
            && counters !in repr && counters.Length == numCounters <= MAX_COUNTERS)
      && totalEdges == (if virginBits == null then 0 else Zeros(virginBits[..], MAX_COUNTERS))
    }

    ghost function Snapshot(found: bool): Tables
      requires Valid() && initialized
      reads this, repr
    {
      Tables(virginBits[..], prevCounters[..], totalEdges, found)
    }

    constructor ()
      ensures Valid() && !initialized && totalEdges == newCoverageCount == 0 && fresh(repr)
      ensures virginBits == null && prevCounters == null
    {
      counters, numCounters, prevCounters, virginBits := null, 0, null, null;
      initialized, totalEdges, newCoverageCount := false, 0, 0;
      repr := {this};
    }

    /** Called by the instrumentation, possibly several times: the newest region is scanned from then on,
        and what has been seen so far is kept. */
    method RegisterCounters(region: array<nat>)
      requires Valid() && region !in repr
      modifies repr
      ensures Valid() && fresh(repr - old(repr)) && totalEdges == old(totalEdges)
      ensures if region.Length == 0 || region.Length > MAX_COUNTERS then
                initialized == old(initialized) && counters == old(counters)
                && virginBits == old(virginBits) && prevCounters == old(prevCounters)
              else
                initialized && counters == region && numCounters == region.Length
      ensures old(virginBits) != null ==> virginBits == old(virginBits) && virginBits[..] == old(virginBits[..])
      ensures old(prevCounters) != null ==>
                prevCounters == old(prevCounters) && prevCounters[..] == old(prevCounters[..])
      ensures old(virginBits) == null && virginBits != null ==>
                forall j :: 0 <= j < MAX_COUNTERS ==> virginBits[j] == VIRGIN
      ensures old(prevCounters) == null && prevCounters != null ==>
                forall j :: 0 <= j < MAX_COUNTERS ==> prevCounters[j] == 0
    {
      var n := region.Length;
      if n == 0 || n > MAX_COUNTERS {
        return;
      }
      counters, numCounters := region, n;
      if prevCounters == null {
        prevCounters := new nat[MAX_COUNTERS](_ => 0);
        repr := repr + {prevCounters};
      }
      if virginBits == null {
        virginBits := new nat[MAX_COUNTERS](_ => VIRGIN);
        repr := repr + {virginBits};
        NoZeros(virginBits[..], MAX_COUNTERS);
      }
      initialized := true;
    }

    /** Headline: the chunked scan has exactly the effect and the verdict of the plain pass. */
    method HasNewCoverage() returns (found: bool)
      requires Valid()
      modifies repr
      ensures Valid() && repr == old(repr) && initialized == old(initialized) && counters == old(counters)
      ensures !initialized ==> !found && totalEdges == old(totalEdges) && newCoverageCount == old(newCoverageCount)
      ensures initialized ==>
                && virginBits == old(virginBits) && prevCounters == old(prevCounters)
                && Snapshot(found) == Pass(counters[..], old(Snapshot(false)), numCounters)
                && newCoverageCount == old(newCoverageCount) + (if found then 1 else 0)
    {
      found := false;
      if !initialized {
        return;
      }
      ghost var start, cur := Snapshot(false), counters[..];
      PassKeepsTotal(cur, start, numCounters);
      var i := 0;
      while i + CHUNK <= numCounters
        invariant 0 <= i <= numCounters
        invariant Scanning(start, cur, i, found) && newCoverageCount == old(newCoverageCount)
        invariant Unmoved(old(counters), old(virginBits), old(prevCounters), old(repr), old(numCounters))
        decreases numCounters - i
      {
        var hasData := ChunkHasData(i);
        if !hasData {
          PassSkips(cur, start, i, i + CHUNK);
        } else {
          found := ScanRange(start, cur, i, i + CHUNK, found);
        }
        i := i + CHUNK;
      }
      found := ScanRange(start, cur, i, numCounters, found);
      if found {
        newCoverageCount := newCoverageCount + 1;
      }
    }

    /** The fields that a scan never changes. */
    ghost predicate Unmoved(c: array?<nat>, v: array?<nat>, p: array?<nat>, r: set<object>, n: nat)
      reads this
    {
      initialized && counters == c && virginBits == v && prevCounters == p && repr == r && numCounters == n
    }

    /** The first i counters have been passed. */
    ghost predicate Scanning(start: Tables, cur: seq<nat>, i: nat, found: bool)
      reads this, repr, counters
    {
      && this in repr && counters != null && virginBits != null && prevCounters != null
      && virginBits in repr && prevCounters in repr && counters !in repr && virginBits != prevCounters
      && virginBits.Length == prevCounters.Length == MAX_COUNTERS
      && counters.Length == numCounters == |cur| <= MAX_COUNTERS && i <= numCounters
      && |start.virgin| == |start.prev| == MAX_COUNTERS
      && counters[..] == cur
      && Tables(virginBits[..], prevCounters[..], totalEdges, found) == Pass(cur, start, i)
    }

    /** The quick check: does any counter of the chunk at i differ from zero? */
    method ChunkHasData(i: nat) returns (hasData: bool)
      requires counters != null && i + CHUNK <= counters.Length
      ensures hasData <==> exists j :: i <= j < i + CHUNK && counters[j] != 0
    {
      hasData := false;
      for j := 0 to CHUNK
        invariant !hasData && forall k :: i <= k < i + j ==> counters[k] == 0
      {
        if counters[i + j] != 0 {
          hasData := true;
          break;
        }
      }
    }

    /** The detailed check of counters lo..hi. */
    method ScanRange(ghost start: Tables, ghost cur: seq<nat>, lo: nat, hi: nat, found0: bool) returns (found: bool)
      requires initialized && Scanning(start, cur, lo, found0) && lo <= hi <= numCounters
      modifies this`totalEdges, virginBits, prevCounters
      ensures Scanning(start, cur, hi, found)
    {
      found := found0;
      for i := lo to hi
        invariant Scanning(start, cur, i, found)
      {
        var count := counters[i];
        if count != 0 {
          ghost var before := Pass(cur, start, i);
          if virginBits[i] == VIRGIN {
            virginBits[i] := 0;
            found := true;
            totalEdges := totalEdges + 1;
          }
          prevCounters[i] := count;
        }
      }
    }

    /** Zero the counters before the next input; the tables are untouched. */
    method ResetCoverage()
      requires Valid()
      modifies counters
      ensures Valid() && (initialized ==> forall j :: 0 <= j < numCounters ==> counters[j] == 0)
      ensures initialized ==> Snapshot(false) == old(Snapshot(false))
    {
      if initialized {
        forall j | 0 <= j < counters.Length {
          counters[j] := 0;
        }
      }
    }
  }
}
