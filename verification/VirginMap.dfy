/** New-coverage detection by many threads on one shared virgin map, as interleaved atomic steps. */
module VirginMap {
  import opened Buckets
  import opened Sets

  /** One (edge, count-class) bit of the map. */
  datatype Bit = Bit(edge: nat, cls: bv8)

  /** Where a call of hasNewCoverage is: scanning the trace, counting the find, marking the global bitmap
      (under its mutex), or about to return. */
  datatype Phase = Scan | Count | Mark | Return

  /** A thread and its local variables; trace is the thread's own hit counts. */
  datatype Thread = Idle | InCall(call: nat, trace: seq<nat>, next: nat, found: bool, phase: Phase)

  /** The shared map and counters, the threads, and the history: the trace each call so far was made with,
      which call cleared which bit first, which calls have been counted in totalEdges, and what finished
      calls returned. */
  datatype State = State(
    virgin: seq<bv8>, totalEdges: nat, totalExecs: nat, global: set<nat>, threads: seq<Thread>,
    inputs: seq<seq<nat>>, claims: map<Bit, nat>, counted: set<nat>, results: map<nat, bool>)

  /** A thread either enters hasNewCoverage with its trace, or takes its next atomic step. */
  datatype Event = Enter(thread: nat, trace: seq<nat>) | Advance(thread: nat)

  predicate IsTrace(m: nat, trace: seq<nat>) {
    |trace| == m && forall i :: 0 <= i < m ==> trace[i] < 256
  }

  predicate Shape(m: nat, s: State) {
    && |s.virgin| == m
    && forall t :: 0 <= t < |s.threads| && s.threads[t].InCall? ==>
         IsTrace(m, s.threads[t].trace) && s.threads[t].next <= m
  }

  function Initial(m: nat, threads: nat): State {
    State(seq(m, _ => 0xFF), 0, 0, {}, seq(threads, _ => Idle), [], map[], {}, map[])
  }

  function Step(m: nat, s: State, e: Event): State
    requires Shape(m, s)
  {
    if e.thread >= |s.threads| then s
    else
      var t, th := e.thread, s.threads[e.thread];
      match e
      case Enter(_, trace) => if th.Idle? && IsTrace(m, trace) then EnterStep(s, t, trace) else s
      case Advance(_) =>
        if th.Idle? then s
        else match th.phase
          case Scan => if th.next < m then ScanStep(m, s, t) else EndScan(m, s, t)
          case Count => CountStep(s, t)
          case Mark => MarkStep(m, s, t)
          case Return => ReturnStep(s, t)
  }

  function EnterStep(s: State, t: nat, trace: seq<nat>): State
    requires t < |s.threads|
  {
    s.(threads := s.threads[t := InCall(|s.inputs|, trace, 0, false, Scan)], inputs := s.inputs + [trace])
  }

  function CountStep(s: State, t: nat): State
    requires t < |s.threads| && s.threads[t].InCall?
  {
    var th := s.threads[t];
    s.(totalEdges := s.totalEdges + 1, counted := s.counted + {th.call},
       threads := s.threads[t := th.(phase := Mark)])
  }

  function MarkStep(m: nat, s: State, t: nat): State
    requires t < |s.threads| && s.threads[t].InCall? && |s.threads[t].trace| == m
  {
    var th := s.threads[t];
    s.(global := s.global + HitEdges(m, th.trace), threads := s.threads[t := th.(phase := Return)])
  }

  function ReturnStep(s: State, t: nat): State
    requires t < |s.threads| && s.threads[t].InCall?
  {
    var th := s.threads[t];
    s.(totalExecs := s.totalExecs + 1, results := s.results[th.call := th.found],
       threads := s.threads[t := Idle])
  }

  /** Look at one map entry; a hit clears its class bit with one fetch-and. */
  function ScanStep(m: nat, s: State, t: nat): State
    requires Shape(m, s) && t < |s.threads| && s.threads[t].InCall? && s.threads[t].next < m
  {
    var th := s.threads[t];
    var i, c := th.next, CountClass(th.trace[th.next]);
    if c == 0 then s.(threads := s.threads[t := th.(next := i + 1)])
    else
      var hit := HasBit(s.virgin[i], c);
      s.(virgin := s.virgin[i := Clear(s.virgin[i], c)],
         claims := if hit then s.claims[Bit(i, c) := th.call] else s.claims,
         threads := s.threads[t := th.(next := i + 1, found := th.found || hit)])
  }

  function EndScan(m: nat, s: State, t: nat): State
    requires Shape(m, s) && t < |s.threads| && s.threads[t].InCall?
  {
    var th := s.threads[t];
    s.(threads := s.threads[t := th.(phase := if th.found then Count else Return)])
  }

  function HitEdges(m: nat, trace: seq<nat>): set<nat>
    requires |trace| == m
  {
    set i | 0 <= i < m && trace[i] > 0
  }

  ghost predicate Inv(m: nat, s: State) {
    && Shape(m, s) && ClaimsOk(m, s) && ThreadsOk(m, s) && HistoryOk(m, s) && GlobalOk(m, s)
  }

  /** A class bit is cleared exactly when some call has claimed it. */
  ghost predicate ClaimsOk(m: nat, s: State)
    requires |s.virgin| == m
  {
    && (forall c :: 0 <= c < |s.inputs| ==> IsTrace(m, s.inputs[c]))
    && (forall b :: b in s.claims ==> b.edge < m && IsBit(b.cls) && Earned(m, s, b))
    && (forall b: Bit {:trigger b in s.claims} :: b.edge < m && IsBit(b.cls) ==>
          (b in s.claims <==> !HasBit(s.virgin[b.edge], b.cls)))
  }

  /** The claimant's input really has the claimed count class on the claimed edge. */
  ghost predicate Earned(m: nat, s: State, b: Bit)
    requires b in s.claims && b.edge < m
  {
    && s.claims[b] < |s.inputs| && IsTrace(m, s.inputs[s.claims[b]])
    && CountClass(s.inputs[s.claims[b]][b.edge]) == b.cls
  }

  ghost predicate ThreadsOk(m: nat, s: State)
    requires Shape(m, s)
  {
    && (forall t :: 0 <= t < |s.threads| && s.threads[t].InCall? ==> ThreadOk(m, s, s.threads[t]))
    && (forall t, u :: 0 <= t < u < |s.threads| && s.threads[t].InCall? && s.threads[u].InCall? ==>
          s.threads[t].call != s.threads[u].call)
  }

  /** A call has found something exactly when it owns a claim, and every entry it has passed is cleared. */
  ghost predicate ThreadOk(m: nat, s: State, th: Thread)
    requires |s.virgin| == m && th.InCall? && IsTrace(m, th.trace) && th.next <= m
  {
    && th.call < |s.inputs| && th.trace == s.inputs[th.call] && th.call !in s.results
    && (th.found <==> th.call in s.claims.Values)
    && (th.phase.Count? || th.phase.Mark? ==> th.found)
    && (!th.phase.Scan? ==> th.next == m)
    && (th.call in s.counted <==> th.phase.Mark? || (th.phase.Return? && th.found))
    && (forall j :: 0 <= j < th.next ==> Cleared(s.virgin[j], th.trace[j]))
  }

  predicate Cleared(v: bv8, count: nat) {
    0 < count < 256 ==> !HasBit(v, CountClass(count))
  }

  /** Finished calls returned whether they own a claim, and exactly the calls that found something have
      been counted. */
  ghost predicate HistoryOk(m: nat, s: State)
    requires |s.virgin| == m
  {
    && (forall c :: c in s.results ==>
          c < |s.inputs| && (s.results[c] <==> c in s.claims.Values) && Absorbed(m, s.virgin, s.inputs[c]))
    && (forall c :: c in s.results ==> (s.results[c] <==> c in s.counted))
    && s.counted <= s.claims.Values && |s.counted| == s.totalEdges && |s.results| == s.totalExecs
    && (forall c: nat :: c < |s.inputs| ==> c in s.results || InFlight(s, c))
  }

  /** The map has no bit left for any class of this input. */
  ghost predicate Absorbed(m: nat, virgin: seq<bv8>, trace: seq<nat>)
    requires |virgin| == m
  {
    |trace| == m && forall j :: 0 <= j < m ==> Cleared(virgin[j], trace[j])
  }

  ghost predicate InFlight(s: State, c: nat) {
    exists t :: 0 <= t < |s.threads| && s.threads[t].InCall? && s.threads[t].call == c
  }

  /** Marked edges have lost a bit; an edge that has lost a bit is marked, or its claimant still will. */
  ghost predicate GlobalOk(m: nat, s: State)
    requires |s.virgin| == m
  {
    && (forall i :: i in s.global ==> i < m && s.virgin[i] != 0xFF)
    && (forall b :: b in s.claims ==> b.edge in s.global || WillMark(s, s.claims[b], b.edge))
  }

  ghost predicate WillMark(s: State, c: nat, edge: nat) {
    exists t :: 0 <= t < |s.threads| && s.threads[t].InCall? && s.threads[t].call == c && Marks(s.threads[t], edge)
  }

  predicate Marks(th: Thread, edge: nat)
    requires th.InCall?
  {
    !th.phase.Return? && edge < |th.trace| && th.trace[edge] > 0
  }

  lemma {:induction false} InitialInv(m: nat, threads: nat)
    ensures Inv(m, Initial(m, threads))
  {
    forall b: Bit | b.edge < m && IsBit(b.cls) ensures HasBit(Initial(m, threads).virgin[b.edge], b.cls) {
      AllBitsSet(b.cls);
    }
  }

  /** Thread t moved on inside its call; nobody else moved. */
  ghost predicate Moved(s: State, s': State, t: nat) {
    && |s'.threads| == |s.threads| && t < |s.threads|
    && s.threads[t].InCall? && s'.threads[t].InCall? && s'.threads[t].call == s.threads[t].call
    && s'.threads[t].trace == s.threads[t].trace
    && (forall u :: 0 <= u < |s.threads| && u != t ==> s'.threads[u] == s.threads[u])
  }

  lemma {:induction false} MovedKeepsFlight(s: State, s': State, t: nat)
    requires Moved(s, s', t)
    ensures forall c: nat :: InFlight(s, c) ==> InFlight(s', c)
  {
    forall c: nat | InFlight(s, c) ensures InFlight(s', c) {
      var u :| 0 <= u < |s.threads| && s.threads[u].InCall? && s.threads[u].call == c;
      assert s'.threads[u].InCall? && s'.threads[u].call == c;
    }
  }

  lemma {:induction false} MovedKeepsMark(s: State, s': State, t: nat, c: nat, edge: nat)
    requires Moved(s, s', t) && WillMark(s, c, edge) && !s'.threads[t].phase.Return?
    ensures WillMark(s', c, edge)
  {
    var u :| 0 <= u < |s.threads| && s.threads[u].InCall? && s.threads[u].call == c && Marks(s.threads[u], edge);
    assert s'.threads[u].InCall? && s'.threads[u].call == c && Marks(s'.threads[u], edge);
  }

  lemma {:induction false} EnterKeepsInv(m: nat, s: State, t: nat, trace: seq<nat>)
    requires Inv(m, s) && t < |s.threads| && s.threads[t].Idle? && IsTrace(m, trace)
    ensures Inv(m, EnterStep(s, t, trace))
  {
    EnterKeepsThreads(m, s, t, trace);
    EnterKeepsHistory(m, s, t, trace);
    EnterKeepsGlobal(m, s, t, trace);
  }

  lemma {:induction false} EnterKeepsThreads(m: nat, s: State, t: nat, trace: seq<nat>)
    requires Inv(m, s) && t < |s.threads| && s.threads[t].Idle? && IsTrace(m, trace)
    ensures Shape(m, EnterStep(s, t, trace)) && ThreadsOk(m, EnterStep(s, t, trace))
  {
    var s' := EnterStep(s, t, trace);
    forall u | 0 <= u < |s'.threads| && s'.threads[u].InCall? ensures ThreadOk(m, s', s'.threads[u]) {
      assert u != t ==> ThreadOk(m, s, s.threads[u]);
    }
  }

  lemma {:induction false} EnterKeepsHistory(m: nat, s: State, t: nat, trace: seq<nat>)
    requires Inv(m, s) && t < |s.threads| && s.threads[t].Idle? && IsTrace(m, trace)
    ensures HistoryOk(m, EnterStep(s, t, trace))
  {
    var s' := EnterStep(s, t, trace);
    forall c: nat | c < |s'.inputs| ensures c in s'.results || InFlight(s', c) {
      if c == |s.inputs| {
        assert s'.threads[t].call == c;
      } else if c !in s.results {
        var u :| 0 <= u < |s.threads| && s.threads[u].InCall? && s.threads[u].call == c;
        assert s'.threads[u].call == c;
      }
    }
  }

  lemma {:induction false} EnterKeepsGlobal(m: nat, s: State, t: nat, trace: seq<nat>)
    requires Inv(m, s) && t < |s.threads| && s.threads[t].Idle? && IsTrace(m, trace)
    ensures GlobalOk(m, EnterStep(s, t, trace))
  {
    var s' := EnterStep(s, t, trace);
    forall b | b in s'.claims ensures b.edge in s'.global || WillMark(s', s'.claims[b], b.edge) {
      if b.edge !in s.global {
        var u :| 0 <= u < |s.threads| && s.threads[u].InCall? && s.threads[u].call == s.claims[b]
                 && Marks(s.threads[u], b.edge);
        assert s'.threads[u] == s.threads[u];
      }
    }
  }

  /** Steps that change no bit and no claim: skipping an unhit entry, ending the scan, counting. */
  lemma {:induction false} QuietKeepsGlobal(m: nat, s: State, s': State, t: nat)
    requires Inv(m, s) && Moved(s, s', t) && Shape(m, s')
    requires s'.virgin == s.virgin && s'.claims == s.claims && s'.global == s.global
    requires s'.threads[t].phase.Return? ==> !s.threads[t].found
    ensures GlobalOk(m, s')
  {
    forall b | b in s'.claims ensures b.edge in s'.global || WillMark(s', s'.claims[b], b.edge) {
      if b.edge !in s.global {
        var c := s.claims[b];
        assert c in s.claims.Values;
        var u :| 0 <= u < |s.threads| && s.threads[u].InCall? && s.threads[u].call == c && Marks(s.threads[u], b.edge);
        assert ThreadOk(m, s, s.threads[u]);
        assert s'.threads[u].call == c && Marks(s'.threads[u], b.edge);
      }
    }
  }

  lemma QuietKeepsClaims(m: nat, s: State, s': State)
    requires |s.virgin| == m && ClaimsOk(m, s)
    requires s'.virgin == s.virgin && s'.claims == s.claims && s'.inputs == s.inputs
    ensures ClaimsOk(m, s')
  {
    assert forall b :: b in s.claims && b.edge < m && Earned(m, s, b) ==> Earned(m, s', b);
  }

  /** A thread's move that touches neither bits, claims nor results leaves the other threads in order. */
  lemma {:induction false} QuietKeepsThreads(m: nat, s: State, s': State, t: nat)
    requires Inv(m, s) && Moved(s, s', t) && Shape(m, s')
    requires s'.virgin == s.virgin && s'.claims == s.claims && s'.inputs == s.inputs && s'.results == s.results
    requires ThreadOk(m, s', s'.threads[t])
    requires forall c :: c != s.threads[t].call ==> (c in s'.counted <==> c in s.counted)
    ensures ThreadsOk(m, s')
  {
    forall u | 0 <= u < |s'.threads| && s'.threads[u].InCall? ensures ThreadOk(m, s', s'.threads[u]) {
      if u != t {
        assert ThreadOk(m, s, s.threads[u]);
      }
    }
  }

  lemma {:induction false} SkipKeepsInv(m: nat, s: State, t: nat)
    requires Inv(m, s) && t < |s.threads| && s.threads[t].InCall? && s.threads[t].phase.Scan?
    requires s.threads[t].next < m && s.threads[t].trace[s.threads[t].next] == 0
    ensures Inv(m, ScanStep(m, s, t))
  {
    hide GlobalOk, ClaimsOk;
    var s' := ScanStep(m, s, t);
    assert ThreadOk(m, s, s.threads[t]);
    QuietKeepsClaims(m, s, s');
    QuietKeepsThreads(m, s, s', t);
    MovedKeepsFlight(s, s', t);
    QuietKeepsGlobal(m, s, s', t);
  }

  lemma {:induction false} EndScanKeepsInv(m: nat, s: State, t: nat)
    requires Inv(m, s) && t < |s.threads| && s.threads[t].InCall? && s.threads[t].phase.Scan?
    requires s.threads[t].next == m
    ensures Inv(m, EndScan(m, s, t))
  {
    var s' := EndScan(m, s, t);
    assert ThreadOk(m, s, s.threads[t]);
    QuietKeepsThreads(m, s, s', t);
    MovedKeepsFlight(s, s', t);
    QuietKeepsGlobal(m, s, s', t);
  }

  lemma {:induction false} CountKeepsInv(m: nat, s: State, t: nat)
    requires Inv(m, s) && t < |s.threads| && s.threads[t].InCall? && s.threads[t].phase.Count?
    ensures Inv(m, CountStep(s, t))
  {
    hide HistoryOk, GlobalOk, ClaimsOk;
    var s' := CountStep(s, t);
    assert ThreadOk(m, s, s.threads[t]);
    QuietKeepsClaims(m, s, s');
    QuietKeepsThreads(m, s, s', t);
    CountKeepsHistory(m, s, t);
    QuietKeepsGlobal(m, s, s', t);
  }

  lemma {:induction false} CountKeepsHistory(m: nat, s: State, t: nat)
    requires Inv(m, s) && t < |s.threads| && s.threads[t].InCall? && s.threads[t].phase.Count?
    ensures HistoryOk(m, CountStep(s, t))
  {
    var s', call := CountStep(s, t), s.threads[t].call;
    assert call in s.claims.Values && call !in s.results && call !in s.counted && call < |s.inputs| by {
      assert ThreadOk(m, s, s.threads[t]);
    }
    MovedKeepsFlight(s, s', t);
    hide ThreadsOk, GlobalOk, ClaimsOk, HistoryOk;
    CountedHistory(m, s, s', call);
  }

  /** Counting a call that owns a claim and has not returned. */
  lemma {:induction false} CountedHistory(m: nat, s: State, s': State, call: nat)
    requires |s.virgin| == m && HistoryOk(m, s)
    requires call in s.claims.Values && call !in s.results && call !in s.counted
    requires s' == s.(totalEdges := s.totalEdges + 1, counted := s.counted + {call}, threads := s'.threads)
    requires forall c: nat :: InFlight(s, c) ==> InFlight(s', c)
    ensures HistoryOk(m, s')
  {
    hide InFlight, Absorbed;
  }

  lemma {:induction false} MarkKeepsInv(m: nat, s: State, t: nat)
    requires Inv(m, s) && t < |s.threads| && s.threads[t].InCall? && s.threads[t].phase.Mark?
    ensures Inv(m, MarkStep(m, s, t))
  {
    hide HistoryOk, GlobalOk;
    var s' := MarkStep(m, s, t);
    assert ThreadOk(m, s, s.threads[t]);
    QuietKeepsThreads(m, s, s', t);
    MarkKeepsHistory(m, s, t);
    MarkKeepsGlobal(m, s, t);
  }

  lemma {:induction false} MarkKeepsHistory(m: nat, s: State, t: nat)
    requires Inv(m, s) && t < |s.threads| && s.threads[t].InCall? && s.threads[t].phase.Mark?
    ensures HistoryOk(m, MarkStep(m, s, t))
  {
    hide ThreadsOk, GlobalOk, ClaimsOk;
    MovedKeepsFlight(s, MarkStep(m, s, t), t);
  }

  lemma {:induction false} MarkKeepsGlobal(m: nat, s: State, t: nat)
    requires Inv(m, s) && t < |s.threads| && s.threads[t].InCall? && s.threads[t].phase.Mark?
    ensures GlobalOk(m, MarkStep(m, s, t))
  {
    var s', th := MarkStep(m, s, t), s.threads[t];
    assert ThreadOk(m, s, th);
    forall i | i in s'.global ensures i < m && s'.virgin[i] != 0xFF {
      if i !in s.global {
        assert Cleared(s.virgin[i], th.trace[i]);
        AllBitsSet(CountClass(th.trace[i]));
      }
    }
    forall b | b in s'.claims ensures b.edge in s'.global || WillMark(s', s'.claims[b], b.edge) {
      if b.edge !in s'.global {
        var c := s.claims[b];
        var u :| 0 <= u < |s.threads| && s.threads[u].InCall? && s.threads[u].call == c && Marks(s.threads[u], b.edge);
        assert u != t;
        assert s'.threads[u] == s.threads[u];
      }
    }
  }

  lemma {:induction false} ReturnKeepsInv(m: nat, s: State, t: nat)
    requires Inv(m, s) && t < |s.threads| && s.threads[t].InCall? && s.threads[t].phase.Return?
    ensures Inv(m, ReturnStep(s, t))
  {
    hide HistoryOk, GlobalOk;
    ReturnKeepsHistory(m, s, t);
    ReturnKeepsGlobal(m, s, t);
  }

  lemma {:induction false} ReturnKeepsHistory(m: nat, s: State, t: nat)
    requires Inv(m, s) && t < |s.threads| && s.threads[t].InCall? && s.threads[t].phase.Return?
    ensures HistoryOk(m, ReturnStep(s, t))
  {
    hide GlobalOk, ClaimsOk;
    var s', th := ReturnStep(s, t), s.threads[t];
    assert ThreadOk(m, s, th);
    forall c: nat | c < |s'.inputs| ensures c in s'.results || InFlight(s', c) {
      if c != th.call && c !in s.results {
        var u :| 0 <= u < |s.threads| && s.threads[u].InCall? && s.threads[u].call == c;
        assert s'.threads[u] == s.threads[u];
      }
    }
  }

  lemma {:induction false} ReturnKeepsGlobal(m: nat, s: State, t: nat)
    requires Inv(m, s) && t < |s.threads| && s.threads[t].InCall? && s.threads[t].phase.Return?
    ensures GlobalOk(m, ReturnStep(s, t))
  {
    var s' := ReturnStep(s, t);
    forall b | b in s'.claims ensures b.edge in s'.global || WillMark(s', s'.claims[b], b.edge) {
      if b.edge !in s.global {
        var c := s.claims[b];
        var u :| 0 <= u < |s.threads| && s.threads[u].InCall? && s.threads[u].call == c && Marks(s.threads[u], b.edge);
        assert u != t && s'.threads[u] == s.threads[u];
      }
    }
  }

  lemma ValuesOfUpdate<K, V>(a: map<K, V>, k: K, v: V)
    requires k !in a
    ensures a[k := v].Values == a.Values + {v}
  {
    var b := a[k := v];
    forall x | x in a.Values + {v} ensures x in b.Values {
      if x in a.Values {
        var j :| j in a && a[j] == x;
        assert b[j] == x;
      } else {
        assert b[k] == x;
      }
    }
  }

  /** The fetch-and of a scanned entry, whether or not it clears anything new. */
  lemma {:induction false} ScanHitKeepsInv(m: nat, s: State, t: nat)
    requires Inv(m, s) && t < |s.threads| && s.threads[t].InCall? && s.threads[t].phase.Scan?
    requires s.threads[t].next < m && s.threads[t].trace[s.threads[t].next] > 0
    ensures Inv(m, ScanStep(m, s, t))
  {
    var s', th := ScanStep(m, s, t), s.threads[t];
    var i := th.next;
    var c := CountClass(th.trace[i]);
    if HasBit(s.virgin[i], c) {
      assert Bit(i, c) !in s.claims;
      ValuesOfUpdate(s.claims, Bit(i, c), th.call);
    }
    HitKeepsClaims(m, s, t);
    HitKeepsThreads(m, s, t);
    HitKeepsHistory(m, s, t);
    HitKeepsGlobal(m, s, t);
  }

  lemma {:induction false} HitKeepsClaims(m: nat, s: State, t: nat)
    requires Inv(m, s) && t < |s.threads| && s.threads[t].InCall? && s.threads[t].phase.Scan?
    requires s.threads[t].next < m && s.threads[t].trace[s.threads[t].next] > 0
    ensures ClaimsOk(m, ScanStep(m, s, t))
  {
    HitKeepsBits(m, s, t);
    HitKeepsEarned(m, s, t);
  }

  lemma {:induction false} HitKeepsEarned(m: nat, s: State, t: nat)
    requires Inv(m, s) && t < |s.threads| && s.threads[t].InCall? && s.threads[t].phase.Scan?
    requires s.threads[t].next < m && s.threads[t].trace[s.threads[t].next] > 0
    ensures var s' := ScanStep(m, s, t);
            forall b :: b in s'.claims ==> b.edge < m && IsBit(b.cls) && Earned(m, s', b)
  {
    hide HasBit, HistoryOk, GlobalOk;
    var s', th := ScanStep(m, s, t), s.threads[t];
    forall b | b in s'.claims ensures b.edge < m && IsBit(b.cls) && Earned(m, s', b) {
      assert b in s.claims ==> Earned(m, s, b);
      assert ThreadOk(m, s, th);
    }
  }

  lemma {:induction false} HitKeepsBits(m: nat, s: State, t: nat)
    requires Inv(m, s) && t < |s.threads| && s.threads[t].InCall? && s.threads[t].phase.Scan?
    requires s.threads[t].next < m && s.threads[t].trace[s.threads[t].next] > 0
    ensures var s' := ScanStep(m, s, t);
            forall b: Bit {:trigger b in s'.claims} :: b.edge < m && IsBit(b.cls) ==>
              (b in s'.claims <==> !HasBit(s'.virgin[b.edge], b.cls))
  {
    var s', th := ScanStep(m, s, t), s.threads[t];
    var i := th.next;
    var c := CountClass(th.trace[i]);
    forall b: Bit | b.edge < m && IsBit(b.cls)
      ensures b in s'.claims <==> !HasBit(s'.virgin[b.edge], b.cls)
    {
      assert b in s.claims <==> !HasBit(s.virgin[b.edge], b.cls);
      if b.edge == i {
        ClearOneBit(s.virgin[i], c, b.cls);
      }
    }
  }

  lemma {:induction false} HitKeepsThreads(m: nat, s: State, t: nat)
    requires Shape(m, s) && t < |s.threads| && s.threads[t].InCall? && s.threads[t].phase.Scan?
    requires s.threads[t].next < m && s.threads[t].trace[s.threads[t].next] > 0
    requires var th := s.threads[t];
             var c := CountClass(th.trace[th.next]);
             HasBit(s.virgin[th.next], c) ==>
               s.claims[Bit(th.next, c) := th.call].Values == s.claims.Values + {th.call}
    requires Inv(m, s)
    ensures ThreadsOk(m, ScanStep(m, s, t))
  {
    var s', th := ScanStep(m, s, t), s.threads[t];
    var i := th.next;
    var c := CountClass(th.trace[i]);
    forall u | 0 <= u < |s'.threads| && s'.threads[u].InCall? ensures ThreadOk(m, s', s'.threads[u]) {
      var tu := s.threads[u];
      assert ThreadOk(m, s, tu);
      forall j | 0 <= j < s'.threads[u].next ensures Cleared(s'.virgin[j], tu.trace[j]) {
        if j == i && tu.trace[j] > 0 {
          ClearOneBit(s.virgin[i], c, CountClass(tu.trace[j]));
        }
      }
    }
  }

  lemma {:induction false} HitKeepsGlobal(m: nat, s: State, t: nat)
    requires Inv(m, s) && t < |s.threads| && s.threads[t].InCall? && s.threads[t].phase.Scan?
    requires s.threads[t].next < m && s.threads[t].trace[s.threads[t].next] > 0
    ensures GlobalOk(m, ScanStep(m, s, t))
  {
    var s', th := ScanStep(m, s, t), s.threads[t];
    var i := th.next;
    var c := CountClass(th.trace[i]);
    forall k | k in s'.global ensures k < m && s'.virgin[k] != 0xFF {
      ClearOneBit(s.virgin[i], c, c);
      AllBitsSet(c);
    }
    forall b | b in s'.claims ensures b.edge in s'.global || WillMark(s', s'.claims[b], b.edge) {
      if b !in s.claims || s'.claims[b] != s.claims[b] {
        assert Marks(s'.threads[t], b.edge) && s'.threads[t].call == s'.claims[b];
      } else if b.edge !in s.global {
        MovedKeepsMark(s, s', t, s.claims[b], b.edge);
      }
    }
  }

  lemma {:induction false} HitKeepsAbsorbed(m: nat, virgin: seq<bv8>, i: nat, c: bv8, trace: seq<nat>)
    requires |virgin| == m && i < m && IsBit(c) && Absorbed(m, virgin, trace)
    ensures Absorbed(m, virgin[i := Clear(virgin[i], c)], trace)
  {
    forall j | 0 <= j < m ensures Cleared(virgin[i := Clear(virgin[i], c)][j], trace[j]) {
      if j == i && 0 < trace[j] < 256 {
        ClearOneBit(virgin[i], c, CountClass(trace[j]));
      }
    }
  }

  lemma {:induction false} HitKeepsHistory(m: nat, s: State, t: nat)
    requires Inv(m, s) && t < |s.threads| && s.threads[t].InCall? && s.threads[t].phase.Scan?
    requires s.threads[t].next < m && s.threads[t].trace[s.threads[t].next] > 0
    requires ScanStep(m, s, t).claims.Values <= s.claims.Values + {s.threads[t].call}
    requires s.claims.Values <= ScanStep(m, s, t).claims.Values
    ensures HistoryOk(m, ScanStep(m, s, t))
  {
    var s', th := ScanStep(m, s, t), s.threads[t];
    var i := th.next;
    var c := CountClass(th.trace[i]);
    assert ThreadOk(m, s, th);
    MovedKeepsFlight(s, s', t);
    forall d | d in s'.results ensures Absorbed(m, s'.virgin, s'.inputs[d]) {
      HitKeepsAbsorbed(m, s.virgin, i, c, s.inputs[d]);
    }
  }

  lemma {:induction false} StepKeepsInv(m: nat, s: State, e: Event)
    requires Inv(m, s)
    ensures Inv(m, Step(m, s, e))
  {
    var t := e.thread;
    if t < |s.threads| {
      var th := s.threads[t];
      match e
      case Enter(_, trace) =>
        if th.Idle? && IsTrace(m, trace) {
          EnterKeepsInv(m, s, t, trace);
        }
      case Advance(_) =>
        if th.InCall? {
          match th.phase
          case Scan =>
            if th.next == m {
              EndScanKeepsInv(m, s, t);
            } else if th.trace[th.next] > 0 {
              ScanHitKeepsInv(m, s, t);
            } else {
              SkipKeepsInv(m, s, t);
            }
          case Count => CountKeepsInv(m, s, t);
          case Mark => MarkKeepsInv(m, s, t);
          case Return => ReturnKeepsInv(m, s, t);
        }
    }
  }

  /** Every bit that is set was set before, and every claim keeps its owner. */
  ghost predicate OnlyClears(s: State, s': State) {
    && |s'.virgin| == |s.virgin|
    && (forall i, c: bv8 :: 0 <= i < |s.virgin| && HasBit(s'.virgin[i], c) ==> HasBit(s.virgin[i], c))
    && (forall b :: b in s.claims ==> b in s'.claims && s'.claims[b] == s.claims[b])
  }

  /** Bits are only ever cleared, and a claim, once made, keeps its owner. */
  lemma {:induction false} StepOnlyClears(m: nat, s: State, e: Event)
    requires Shape(m, s) && Inv(m, s)
    ensures OnlyClears(s, Step(m, s, e))
  {
    hide ScanStep, HasBit, ClaimsOk, ThreadsOk, HistoryOk, GlobalOk;
    var t := e.thread;
    if t < |s.threads| && e.Advance? && s.threads[t].InCall? && s.threads[t].phase.Scan? && s.threads[t].next < m {
      ScanOnlyClears(m, s, t);
      assert Step(m, s, e) == ScanStep(m, s, t);
    } else {
      assert Step(m, s, e).virgin == s.virgin && Step(m, s, e).claims == s.claims;
    }
  }

  lemma {:induction false} ScanOnlyClears(m: nat, s: State, t: nat)
    requires Shape(m, s) && t < |s.threads| && s.threads[t].InCall? && s.threads[t].next < m && Inv(m, s)
    ensures OnlyClears(s, ScanStep(m, s, t))
  {
    var s', th := ScanStep(m, s, t), s.threads[t];
    var k := th.next;
    var d := CountClass(th.trace[k]);
    forall i, c: bv8 | 0 <= i < m && HasBit(s'.virgin[i], c) ensures HasBit(s.virgin[i], c) {
      if i == k && d != 0 {
        ClearOnlyClears(s.virgin[i], d, c);
      }
    }
    assert d != 0 && HasBit(s.virgin[k], d) ==> Bit(k, d) !in s.claims;
  }

  /** The state after an arbitrary interleaving of any number of threads. */
  ghost function Run(m: nat, threads: nat, schedule: seq<Event>): (s: State)
    ensures Inv(m, s)
  {
    if |schedule| == 0 then
      InitialInv(m, threads);
      Initial(m, threads)
    else
      var before := Run(m, threads, schedule[..|schedule| - 1]);
      StepKeepsInv(m, before, schedule[|schedule| - 1]);
      Step(m, before, schedule[|schedule| - 1])
  }

  /** All class bits of the first m edges. */
  ghost function AllBits(m: nat): set<Bit> {
    if m == 0 then {} else AllBits(m - 1) + BitsOf(m - 1)
  }

  ghost function BitsOf(edge: nat): set<Bit> {
    {Bit(edge, 1), Bit(edge, 2), Bit(edge, 4), Bit(edge, 8),
     Bit(edge, 16), Bit(edge, 32), Bit(edge, 64), Bit(edge, 128)}
  }

  lemma {:induction false} AllBitsBound(m: nat)
    ensures |AllBits(m)| <= 8 * m
  {
    hide BitsOf;
    if m == 0 {
    } else {
      AllBitsBound(m - 1);
      BitsOfBound(m - 1);
      UnionSize(AllBits(m - 1), BitsOf(m - 1));
    }
  }

  lemma {:induction false} AllBitsHas(m: nat, b: Bit)
    requires b.edge < m && IsBit(b.cls)
    ensures b in AllBits(m)
  {
    if b.edge < m - 1 {
      AllBitsHas(m - 1, b);
    } else {
      assert b in BitsOf(m - 1);
    }
  }

  lemma BitsOfBound(edge: nat)
    ensures |BitsOf(edge)| <= 8
  {
    var low := {Bit(edge, 1), Bit(edge, 2), Bit(edge, 4), Bit(edge, 8)};
    var high := {Bit(edge, 16), Bit(edge, 32), Bit(edge, 64), Bit(edge, 128)};
    assert |low| <= 4 && |high| <= 4;
    assert BitsOf(edge) == low + high;
  }

  lemma {:induction false} ValuesBound<K, V>(a: map<K, V>)
    ensures |a.Values| <= |a|
  {
    if |a| == 0 {
      assert a.Values == {};
    } else {
      var k :| k in a;
      var rest := map j | j in a && j != k :: a[j];
      assert rest.Keys == a.Keys - {k};
      ValuesBound(rest);
      assert a == rest[k := a[k]];
      ValuesOfUpdate(rest, k, a[k]);
    }
  }

  /** Headline, whole runs: whatever the interleaving, the cleared bits are exactly the claimed ones, every
      finished call returned whether it claimed a bit, and the edge counter is at most the number of cleared
      bits, which is at most 8 per entry. */
  lemma {:induction false} EveryRunCountsClaims(m: nat, threads: nat, schedule: seq<Event>)
    ensures var s := Run(m, threads, schedule);
            && |s.virgin| == m
            && (forall b: Bit :: b in s.claims <==>
                  b.edge < m && IsBit(b.cls) && !HasBit(s.virgin[b.edge], b.cls))
            && (forall c :: c in s.results ==> (s.results[c] <==> exists b :: b in s.claims && s.claims[b] == c))
            && s.totalEdges <= |s.claims| <= 8 * m
  {
    var s := Run(m, threads, schedule);
    AllBitsBound(m);
    forall b | b in s.claims ensures b in AllBits(m) {
      AllBitsHas(m, b);
    }
    SubsetSize(s.claims.Keys, AllBits(m));
    ValuesBound(s.claims);
    SubsetSize(s.counted, s.claims.Values);
  }

  /** A run that goes on keeps the inputs and the owners of all claims. */
  lemma {:induction false} RunGoesOn(m: nat, threads: nat, before: seq<Event>, after: seq<Event>)
    ensures var s, s' := Run(m, threads, before), Run(m, threads, before + after);
      && s.inputs <= s'.inputs
      && forall b :: b in s.claims ==> b in s'.claims && s'.claims[b] == s.claims[b]
  {
    if |after| == 0 {
      assert before + after == before;
    } else {
      hide *;
      var last := |after| - 1;
      RunGoesOn(m, threads, before, after[..last]);
      RunStep(m, threads, before, after);
      StepGoesOn(m, Run(m, threads, before + after[..last]), after[last]);
    }
  }

  lemma {:induction false} RunStep(m: nat, threads: nat, before: seq<Event>, after: seq<Event>)
    requires |after| > 0
    ensures var s := Run(m, threads, before + after[..|after| - 1]);
      Shape(m, s) && Run(m, threads, before + after) == Step(m, s, after[|after| - 1])
  {
    hide *;
    var last := |after| - 1;
    var all := before + after;
    assert all[..|all| - 1] == before + after[..last] && all[|all| - 1] == after[last];
    RunLast(m, threads, all);
  }

  lemma {:induction false} RunLast(m: nat, threads: nat, schedule: seq<Event>)
    requires |schedule| > 0
    ensures var s := Run(m, threads, schedule[..|schedule| - 1]);
      Inv(m, s) && Shape(m, s) && Run(m, threads, schedule) == Step(m, s, schedule[|schedule| - 1])
  {
    hide Step, Initial, ClaimsOk, ThreadsOk, HistoryOk, GlobalOk;
  }

  lemma {:induction false} StepGoesOn(m: nat, s: State, e: Event)
    requires Inv(m, s) && Shape(m, s)
    ensures s.inputs <= Step(m, s, e).inputs
    ensures forall b :: b in s.claims ==> b in Step(m, s, e).claims && Step(m, s, e).claims[b] == s.claims[b]
  {
    hide HasBit, ClaimsOk, ThreadsOk, HistoryOk, GlobalOk;
    StepOnlyClears(m, s, e);
  }

  ghost predicate Quiescent(s: State) {
    forall t :: 0 <= t < |s.threads| ==> s.threads[t].Idle?
  }

  /** Headline, between calls: the global bitmap is exactly the set of map entries that have lost a bit, the
      edge counter is the number of calls that returned true, and which bits are cleared depends on the
      inputs alone, not on how the calls were interleaved. */
  lemma {:induction false} QuiescentRunIsDeterministic(m: nat, threads: nat, schedule: seq<Event>)
    requires Quiescent(Run(m, threads, schedule))
    ensures var s := Run(m, threads, schedule);
            && |s.virgin| == m
            && s.global == (set i | 0 <= i < m && s.virgin[i] != 0xFF)
            && (forall c :: c in s.results <==> 0 <= c < |s.inputs|)
            && s.totalEdges == |set c | c in s.results && s.results[c]| && s.totalExecs == |s.inputs|
    ensures var s := Run(m, threads, schedule);
            forall i, c :: 0 <= i < m && IsBit(c) ==>
              (!HasBit(s.virgin[i], c) <==>
               exists k :: 0 <= k < |s.inputs| && IsTrace(m, s.inputs[k]) && CountClass(s.inputs[k][i]) == c)
  {
    var s := Run(m, threads, schedule);
    forall i | 0 <= i < m && s.virgin[i] != 0xFF ensures i in s.global {
      var d := LostBit(s.virgin[i]);
      assert Bit(i, d) in s.claims;
      assert Bit(i, d).edge in s.global;
    }
    forall c: nat | c < |s.inputs| ensures c in s.results {
      assert !InFlight(s, c);
    }
    CountedCalls(m, s);
    assert s.results.Keys == Numbers(|s.inputs|);
    forall i, c | 0 <= i < m && IsBit(c)
      ensures !HasBit(s.virgin[i], c) <==>
              exists k :: 0 <= k < |s.inputs| && IsTrace(m, s.inputs[k]) && CountClass(s.inputs[k][i]) == c
    {
      QuiescentBit(m, s, i, c);
    }
  }

  lemma {:induction false} CountedCalls(m: nat, s: State)
    requires Inv(m, s) && forall c: nat :: c < |s.inputs| ==> c in s.results
    ensures s.totalEdges == |set c | c in s.results && s.results[c]|
  {
    forall c | c in s.counted ensures c in s.results {
      assert c in s.claims.Values;
    }
    assert (set c | c in s.results && s.results[c]) == s.counted;
  }

  lemma {:induction false} QuiescentBit(m: nat, s: State, i: nat, c: bv8)
    requires Inv(m, s) && Quiescent(s) && i < m && IsBit(c)
    ensures !HasBit(s.virgin[i], c) <==>
            exists k :: 0 <= k < |s.inputs| && IsTrace(m, s.inputs[k]) && CountClass(s.inputs[k][i]) == c
  {
    if !HasBit(s.virgin[i], c) {
      assert Bit(i, c) in s.claims;
      var k := s.claims[Bit(i, c)];
      assert IsTrace(m, s.inputs[k]) && CountClass(s.inputs[k][i]) == c;
    }
    if k: nat :| k < |s.inputs| && IsTrace(m, s.inputs[k]) && CountClass(s.inputs[k][i]) == c {
      assert !InFlight(s, k);
      assert k in s.results;
      assert Cleared(s.virgin[i], s.inputs[k][i]);
    }
  }

  /** An input's hit count on the edge lies in a range that none of the first n inputs reached there. */
  ghost predicate NewRange(inputs: seq<seq<nat>>, n: nat, trace: seq<nat>, edge: nat)
    requires n <= |inputs| && edge < |trace| && forall k :: 0 <= k < n ==> |inputs[k]| == |trace|
  {
    trace[edge] > 0 && forall k :: 0 <= k < n ==> !SameRange(trace[edge], inputs[k][edge])
  }

  /** Some call from the n-th on has returned true. */
  ghost predicate SomeFound(s: State, n: nat) {
    exists c :: n <= c < |s.inputs| && c in s.results && s.results[c]
  }

  /** Some input from the n-th on brings an edge into a range that none of the first n did. */
  ghost predicate SomeNew(m: nat, inputs: seq<seq<nat>>, n: nat)
    requires n <= |inputs| && forall k :: 0 <= k < |inputs| ==> |inputs[k]| == m
  {
    exists c, edge: nat :: n <= c < |inputs| && edge < m && NewRange(inputs, n, inputs[c], edge)
  }

  /** Headline, what new coverage means: of the calls that begin and end between two moments without running calls,
      however interleaved, some returns true exactly when the input of one of them brings an edge into a hit-count
      range that no input before the first moment did. */
  lemma {:induction false} NewCoverageIff(m: nat, threads: nat, before: seq<Event>, after: seq<Event>)
    requires Quiescent(Run(m, threads, before)) && Quiescent(Run(m, threads, before + after))
    ensures var s, s' := Run(m, threads, before), Run(m, threads, before + after);
      && s.inputs <= s'.inputs && (forall k :: 0 <= k < |s'.inputs| ==> |s'.inputs[k]| == m)
      && (forall c: nat :: c in s'.results <==> c < |s'.inputs|)
      && (SomeFound(s', |s.inputs|) <==> SomeNew(m, s'.inputs, |s.inputs|))
  {
    RunGoesOn(m, threads, before, after);
    var s, s' := Run(m, threads, before), Run(m, threads, before + after);
    hide Run, Inv, Quiescent, NewRange;
    var n := |s.inputs|;
    AllReturned(m, s');
    if SomeFound(s', n) {
      var c :| n <= c < |s'.inputs| && c in s'.results && s'.results[c];
      var edge := ClaimIsNew(m, s, s', c);
    }
    if SomeNew(m, s'.inputs, n) {
      var c, edge: nat :| n <= c < |s'.inputs| && edge < m && NewRange(s'.inputs, n, s'.inputs[c], edge);
      var o := NewIsClaimed(m, s', n, c, edge);
    }
  }

  /** In particular a call that runs alone returns true exactly when it brings an edge into a new range. */
  lemma {:induction false} LoneCallFindsNewRange(m: nat, threads: nat, before: seq<Event>, after: seq<Event>)
    requires Quiescent(Run(m, threads, before)) && Quiescent(Run(m, threads, before + after))
    requires |Run(m, threads, before + after).inputs| == |Run(m, threads, before).inputs| + 1
    ensures var inputs, n := Run(m, threads, before + after).inputs, |Run(m, threads, before).inputs|;
      && (forall k :: 0 <= k <= n ==> |inputs[k]| == m) && n in Run(m, threads, before + after).results
      && (Run(m, threads, before + after).results[n]
          <==> exists edge: nat :: edge < m && NewRange(inputs, n, inputs[n], edge))
  {
    hide *;
    NewCoverageIff(m, threads, before, after);
    LoneCall(m, Run(m, threads, before + after), |Run(m, threads, before).inputs|);
  }

  lemma {:induction false} LoneCall(m: nat, s: State, n: nat)
    requires |s.inputs| == n + 1 && (forall k :: 0 <= k < |s.inputs| ==> |s.inputs[k]| == m)
    requires forall c: nat :: c in s.results <==> c < |s.inputs|
    requires SomeFound(s, n) <==> SomeNew(m, s.inputs, n)
    ensures n in s.results
    ensures s.results[n] <==> exists edge: nat :: edge < m && NewRange(s.inputs, n, s.inputs[n], edge)
  {
    hide NewRange;
  }

  lemma {:induction false} AllReturned(m: nat, s: State)
    requires Inv(m, s) && Quiescent(s)
    ensures forall c: nat :: c in s.results <==> c < |s.inputs|
    ensures forall k :: 0 <= k < |s.inputs| ==> IsTrace(m, s.inputs[k])
  {
    forall c: nat | c < |s.inputs| ensures c in s.results {
      assert !InFlight(s, c);
    }
  }

  lemma {:induction false} ClaimIsNew(m: nat, s: State, s': State, c: nat) returns (edge: nat)
    requires Inv(m, s) && Quiescent(s) && Inv(m, s') && s.inputs <= s'.inputs
    requires forall b :: b in s.claims ==> b in s'.claims && s'.claims[b] == s.claims[b]
    requires |s.inputs| <= c < |s'.inputs| && c in s'.results && s'.results[c]
    requires forall k :: 0 <= k < |s'.inputs| ==> IsTrace(m, s'.inputs[k])
    ensures edge < m && NewRange(s'.inputs, |s.inputs|, s'.inputs[c], edge)
  {
    assert c in s'.claims.Values;
    var b :| b in s'.claims && s'.claims[b] == c;
    edge := b.edge;
    assert Earned(m, s', b);
    AllReturned(m, s);
    assert b !in s.claims by {
      assert b in s.claims ==> Earned(m, s, b);
    }
    QuiescentBit(m, s, edge, b.cls);
    forall k | 0 <= k < |s.inputs| ensures !SameRange(s'.inputs[c][edge], s'.inputs[k][edge]) {
      assert s.inputs[k] == s'.inputs[k];
      ClassesSplit(s'.inputs[c][edge], s'.inputs[k][edge]);
    }
  }

  lemma {:induction false} NewIsClaimed(m: nat, s: State, n: nat, c: nat, edge: nat) returns (o: nat)
    requires Inv(m, s) && Quiescent(s) && n <= c < |s.inputs| && edge < m
    requires forall k :: 0 <= k < |s.inputs| ==> IsTrace(m, s.inputs[k])
    requires NewRange(s.inputs, n, s.inputs[c], edge)
    ensures n <= o < |s.inputs| && o in s.results && s.results[o]
  {
    AllReturned(m, s);
    var b := Bit(edge, CountClass(s.inputs[c][edge]));
    QuiescentBit(m, s, edge, b.cls);
    assert b in s.claims && Earned(m, s, b);
    o := s.claims[b];
    assert o in s.claims.Values;
    ClassesSplit(s.inputs[c][edge], s.inputs[o][edge]);
  }

  class CoverageMap {
    const size: nat
    const virgin: array<bv8>
    var totalEdges: nat
    var totalExecs: nat
    var global: set<nat>
    var threads: seq<Thread>
    var inputs: seq<seq<nat>>
    ghost var claims: map<Bit, nat>
    ghost var counted: set<nat>
    ghost var results: map<nat, bool>

    ghost function Snapshot(): State
      reads this, virgin
    {
      State(virgin[..], totalEdges, totalExecs, global, threads, inputs, claims, counted, results)
    }

    ghost predicate Valid()
      reads this, virgin
    {
      virgin.Length == size && Inv(size, Snapshot())
    }

    constructor (threads: nat)
      ensures Valid() && size == MAP_SIZE && Snapshot() == Initial(MAP_SIZE, threads) && fresh(virgin)
    {
      size := MAP_SIZE;
      virgin := new bv8[MAP_SIZE](_ => 0xFF);
      totalEdges, totalExecs, global := 0, 0, {};
      this.threads := seq(threads, _ => Idle);
      inputs, claims, counted, results := [], map[], {}, map[];
      new;
      assert virgin[..] == seq(MAP_SIZE, _ => 0xFF);
      InitialInv(MAP_SIZE, threads);
    }

    /** One atomic step of one thread, in place. */
    method Take(e: Event)
      requires Valid()
      modifies this, virgin
      ensures Valid() && Snapshot() == Step(size, old(Snapshot()), e)
    {
      StepKeepsInv(size, Snapshot(), e);
      var t := e.thread;
      if t >= |threads| {
        return;
      }
      match e
      case Enter(_, trace) =>
        if threads[t].Idle? && IsTrace(size, trace) {
          threads := threads[t := InCall(|inputs|, trace, 0, false, Scan)];
          inputs := inputs + [trace];
        }
      case Advance(_) =>
        if threads[t].InCall? {
          AdvanceThread(t, threads[t]);
        }
    }

    method AdvanceThread(t: nat, th: Thread)
      requires virgin.Length == size && Shape(size, Snapshot())
      requires t < |threads| && threads[t] == th && th.InCall?
      modifies this, virgin
      ensures Snapshot() == Step(size, old(Snapshot()), Advance(t))
    {
      match th.phase
      case Scan => ScanEntry(t, th);
      case Count =>
        totalEdges := totalEdges + 1;
        counted := counted + {th.call};
        threads := threads[t := th.(phase := Mark)];
      case Mark =>
        global := global + HitEdges(size, th.trace);
        threads := threads[t := th.(phase := Return)];
      case Return =>
        totalExecs := totalExecs + 1;
        results := results[th.call := th.found];
        threads := threads[t := Idle];
    }

    method ScanEntry(t: nat, th: Thread)
      requires virgin.Length == size && Shape(size, Snapshot()) && t < |threads| && threads[t] == th
      requires th.InCall? && th.phase.Scan?
      modifies this, virgin
      ensures Snapshot() == if th.next < size then ScanStep(size, old(Snapshot()), t)
                            else EndScan(size, old(Snapshot()), t)
    {
      if th.next == size {
        threads := threads[t := th.(phase := if th.found then Count else Return)];
        return;
      }
      var i := th.next;
      var c := CountClass(th.trace[i]);
      if c == 0 {
        threads := threads[t := th.(next := i + 1)];
        return;
      }
      var prev := virgin[i];
      virgin[i] := Clear(prev, c);
      var hit := HasBit(prev, c);
      claims := if hit then claims[Bit(i, c) := th.call] else claims;
      threads := threads[t := th.(next := i + 1, found := th.found || hit)];
    }

    /** Any interleaving, executed in place, reaches the state the step relation predicts. */
    method Execute(schedule: seq<Event>)
      requires Valid() && Snapshot() == Initial(size, |threads|)
      modifies this, virgin
      ensures Valid() && Snapshot() == Run(size, |old(threads)|, schedule)
    {
      hide Step, ClaimsOk, ThreadsOk, HistoryOk, GlobalOk;
      ghost var n := |threads|;
      for i := 0 to |schedule|
        invariant Valid() && Snapshot() == Run(size, n, schedule[..i])
      {
        assert schedule[..i + 1][..i] == schedule[..i];
        Take(schedule[i]);
      }
      assert schedule[..|schedule|] == schedule;
    }
  }
}
