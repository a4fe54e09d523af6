/** The retry decorator: a wrapper for functions and a resuming wrapper for generators. What each attempt of the
    wrapped function does is an input. */
module Retry {
  import opened Reals

  /** One attempt of a function: a value, true or false in a condition, or an exception of a retried type or not. */
  datatype Attempt<T> =
    | Returned(value: T, truthy: bool)
    | Raised(retryable: bool)

  /** One attempt of a generator: it completes, or raises after a number of elements. */
  datatype Replay =
    | Completes
    | FailsAfter(count: nat, retryable: bool)

  datatype Outcome<T> =
    | Value(value: T)
    | Error

  datatype Ending = Exhausted | Failed

  function Power(base: real, exponent: nat): real {
    if exponent == 0 then 1.0 else base * Power(base, exponent - 1)
  }

  /** The sum of the first n powers. */
  ghost function Powers(base: real, n: nat): real {
    if n == 0 then 0.0 else Powers(base, n - 1) + Power(base, n - 1)
  }

  lemma {:induction false} PowerAtLeastOne(base: real, n: nat)
    requires base >= 1.0
    ensures Power(base, n) >= 1.0
  {
    if n == 0 {
    } else {
      PowerAtLeastOne(base, n - 1);
      MulLe(1.0, base, Power(base, n - 1));
    }
  }

  /** More tries sleep longer, strictly. */
  lemma {:induction false} PowersGrow(base: real, n: nat, m: nat)
    requires base >= 1.0 && n <= m
    ensures Powers(base, n) <= Powers(base, m)
    ensures n < m ==> Powers(base, n) < Powers(base, m)
    decreases m
  {
    if n == m {
    } else {
      PowersGrow(base, n, m - 1);
      PowerAtLeastOne(base, m - 1);
    }
  }

  /** The sum in closed form. */
  lemma {:induction false} PowersClosedForm(base: real, n: nat)
    ensures (base - 1.0) * Powers(base, n) == Power(base, n) - 1.0
  {
    if n == 0 {
    } else {
      PowersClosedForm(base, n - 1);
      var s, p := Powers(base, n - 1), Power(base, n - 1);
      assert (base - 1.0) * (s + p) == (base - 1.0) * s + (base * p - p);
    }
  }

  function RetryDelay(numTry: nat, delay: real, backoff: real): real
    requires numTry >= 1
  {
    delay * Power(backoff, numTry - 1)
  }

  /** The first wait is the delay itself, and every other one is the backoff factor longer than the one before. */
  lemma DelaysMultiply(numTry: nat, delay: real, backoff: real)
    requires numTry >= 1
    ensures RetryDelay(1, delay, backoff) == delay
    ensures RetryDelay(numTry + 1, delay, backoff) == backoff * RetryDelay(numTry, delay, backoff)
  {
    var p := Power(backoff, numTry - 1);
    assert delay * (backoff * p) == backoff * (delay * p);
  }

  /** The sleep after the first k attempts. */
  ghost function Slept(k: nat, delay: real, backoff: real): real {
    delay * Powers(backoff, k)
  }

  lemma SleepStep(k: nat, delay: real, backoff: real)
    ensures Slept(k + 1, delay, backoff) == Slept(k, delay, backoff) + RetryDelay(k + 1, delay, backoff)
  {
    assert delay * (Powers(backoff, k) + Power(backoff, k)) == delay * Powers(backoff, k) + delay * Power(backoff, k);
  }

  /** The total sleep is bounded by that of a run in which every attempt fails, and reached only there. */
  lemma {:induction false} SleepBounded(made: nat, tries: nat, delay: real, backoff: real)
    requires 1 <= made <= tries && delay > 0.0 && backoff >= 1.0
    ensures Slept(made - 1, delay, backoff) <= Slept(tries - 1, delay, backoff)
    ensures Slept(made - 1, delay, backoff) == Slept(tries - 1, delay, backoff) <==> made == tries
  {
    PowersGrow(backoff, made - 1, tries - 1);
    var a, b := Powers(backoff, made - 1), Powers(backoff, tries - 1);
    MulLe(a, b, delay);
    assert a < b ==> delay * (b - a) > 0.0;
  }

  /** Whether a failed try is followed by another, after the sleep for it; None stands for a false result. */
  method HandleRetry(numTry: nat, retryable: bool, tries: nat, delay: real, backoff: real, slept0: real)
      returns (again: bool, slept: real)
    requires 1 <= numTry <= tries && slept0 == Slept(numTry - 1, delay, backoff)
    ensures again <==> retryable && numTry < tries
    ensures slept == if again then Slept(numTry, delay, backoff) else slept0
  {
    if retryable && numTry < tries {
      SleepStep(numTry - 1, delay, backoff);
      return true, slept0 + RetryDelay(numTry, delay, backoff);
    }
    return false, slept0;
  }

  /** An attempt that the function wrapper does not repeat when it still could. */
  predicate Decisive<T>(a: Attempt<T>, retryOnFalse: bool) {
    match a
    case Returned(_, truthy) => truthy || !retryOnFalse
    case Raised(retryable) => !retryable
  }

  /** The index of the attempt whose result counts: the first decisive one, or the last. */
  ghost predicate Final<T>(attempts: seq<Attempt<T>>, retryOnFalse: bool, k: nat) {
    && k < |attempts|
    && (forall j :: 0 <= j < k ==> !Decisive(attempts[j], retryOnFalse))
    && (Decisive(attempts[k], retryOnFalse) || k == |attempts| - 1)
  }

  /** The wrapper of a function: it makes the attempts up to the first decisive one, passes on what that one did,
      and sleeps between them. The value after the loop is never returned. */
  method WrapFunction<T>(retries: nat, delay: real, backoff: real, retryOnFalse: bool, attempts: seq<Attempt<T>>)
      returns (o: Outcome<T>, made: nat, slept: real)
    requires delay > 0.0 && backoff >= 1.0 && |attempts| == retries + 1
    ensures 1 <= made <= retries + 1 && Final(attempts, retryOnFalse, made - 1)
    ensures forall j :: 0 <= j < made - 1 ==>
      attempts[j] == Raised(true) || (retryOnFalse && attempts[j].Returned? && !attempts[j].truthy)
    ensures made <= retries ==>
      var last := attempts[made - 1];
      last == Raised(false) || (last.Returned? && (retryOnFalse ==> last.truthy))
    ensures o == match attempts[made - 1] case Returned(value, _) => Value(value) case Raised(_) => Error
    ensures slept == Slept(made - 1, delay, backoff) <= Slept(retries, delay, backoff)
    ensures slept == Slept(retries, delay, backoff) <==> made == retries + 1
  {
    var tries := retries + 1;
    slept := 0.0;
    for numTry := 1 to tries + 1
      invariant forall j :: 0 <= j < numTry - 1 ==> !Decisive(attempts[j], retryOnFalse)
      invariant slept == Slept(numTry - 1, delay, backoff)
      invariant numTry <= tries
    {
      made := numTry;
      SleepBounded(made, tries, delay, backoff);
      var again: bool;
      match attempts[numTry - 1]
      case Returned(value, truthy) =>
        if retryOnFalse && !truthy {
          again, slept := HandleRetry(numTry, true, tries, delay, backoff, slept);
          if !again {
            return Value(value), made, slept;
          }
        } else {
          return Value(value), made, slept;
        }
      case Raised(retryable) =>
        again, slept := HandleRetry(numTry, retryable, tries, delay, backoff, slept);
        if !again {
          return Error, made, slept;
        }
    }
    assert false; // the code's return None behind the loop
  }

  /** A replay that fails gets at most through the whole sequence. */
  predicate ReplayOk(r: Replay, n: nat) {
    r.FailsAfter? ==> r.count <= n
  }

  /** How many elements of a sequence of n an attempt gets to. */
  function Reached(r: Replay, n: nat): nat {
    match r
    case Completes => n
    case FailsAfter(count, _) => count
  }

  /** A replay that the generator wrapper does not repeat when it still could. */
  predicate Conclusive(r: Replay) {
    r.Completes? || !r.retryable
  }

  /** The furthest of the first k attempts. */
  ghost function Furthest(replays: seq<Replay>, n: nat, k: nat): (m: nat)
    requires k <= |replays|
    ensures forall j :: 0 <= j < k ==> Reached(replays[j], n) <= m
    ensures m > 0 ==> exists j :: 0 <= j < k && Reached(replays[j], n) == m
  {
    if k == 0 then 0
    else
      var before, last := Furthest(replays, n, k - 1), Reached(replays[k - 1], n);
      if before < last then last else before
  }

  /** One attempt: the replayed elements that were already handed out are skipped, the others are handed out. */
  method ReplayOnce<T>(s: seq<T>, r: Replay, yielded0: seq<T>, already0: nat) returns (yielded: seq<T>, already: nat)
    requires ReplayOk(r, |s|) && already0 <= |s| && yielded0 == s[..already0]
    ensures already == if already0 < Reached(r, |s|) then Reached(r, |s|) else already0
    ensures yielded == s[..already]
  {
    yielded, already := yielded0, already0;
    for index := 0 to Reached(r, |s|)
      invariant already == if already0 < index then index else already0
      invariant yielded == s[..already]
    {
      if index >= already {
        yielded := yielded + [s[index]];
        already := already + 1;
      }
    }
  }

  /** The wrapper of a generator that produces s in every attempt. Whatever the attempts do, the elements handed
      out are a gapless prefix of s without duplicates, as long as the furthest attempt got; they are all of s when
      an attempt completed. */
  method WrapGenerator<T>(s: seq<T>, retries: nat, delay: real, backoff: real, replays: seq<Replay>)
      returns (yielded: seq<T>, ending: Ending, made: nat, slept: real)
    requires delay > 0.0 && backoff >= 1.0 && |replays| == retries + 1
    requires forall k :: 0 <= k < |replays| ==> ReplayOk(replays[k], |s|)
    ensures 1 <= made <= retries + 1
    ensures forall j :: 0 <= j < made - 1 ==> replays[j].FailsAfter? && replays[j].retryable
    ensures made <= retries ==> replays[made - 1].Completes? || !replays[made - 1].retryable
    ensures yielded <= s && |yielded| == Furthest(replays, |s|, made)
    ensures forall j :: 0 <= j < made ==> (if replays[j].Completes? then |s| else replays[j].count) <= |yielded|
    ensures ending == Exhausted <==> replays[made - 1] == Completes
    ensures ending == Exhausted ==> yielded == s
    ensures slept == Slept(made - 1, delay, backoff) <= Slept(retries, delay, backoff)
    ensures slept == Slept(retries, delay, backoff) <==> made == retries + 1
  {
    var tries := retries + 1;
    slept, yielded := 0.0, [];
    var already := 0;
    for numTry := 1 to tries + 1
      invariant forall j :: 0 <= j < numTry - 1 ==> !Conclusive(replays[j])
      invariant slept == Slept(numTry - 1, delay, backoff) && numTry <= tries
      invariant already == Furthest(replays, |s|, numTry - 1) <= |s| && yielded == s[..already]
    {
      made := numTry;
      SleepBounded(made, tries, delay, backoff);
      var r := replays[numTry - 1];
      yielded, already := ReplayOnce(s, r, yielded, already);
      if r.Completes? {
        return yielded, Exhausted, made, slept;
      }
      var again: bool;
      again, slept := HandleRetry(numTry, r.retryable, tries, delay, backoff, slept);
      if !again {
        return yielded, Failed, made, slept;
      }
    }
    assert false;
  }
}
