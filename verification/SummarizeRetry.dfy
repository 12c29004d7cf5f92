/** Retrying a summarization: how often the provider is called, what the hook is told,
    and how long each wait is. */
module SummarizeRetry {
  import opened Numbers

  // ----- backoff ------------------------------------------------------------

  const INT64_LIMIT: int := 0x8000_0000_0000_0000
  const TOP_HALF: int := 0x4000_0000_0000_0000

  /** A duration in nanoseconds. */
  newtype int64 = x: int | -INT64_LIMIT <= x < INT64_LIMIT

  const SECOND: int64 := 1_000_000_000

  datatype Policy = Policy(maxRetries: int, baseDelay: int64, maxDelay: int64)

  function Normalized(p: Policy): (n: Policy)
    ensures n.baseDelay > 0 && n.maxDelay > 0 && n.maxRetries == p.maxRetries
    ensures (p.baseDelay > 0 ==> n.baseDelay == p.baseDelay) && (p.maxDelay > 0 ==> n.maxDelay == p.maxDelay)
    ensures (p.baseDelay <= 0 ==> n.baseDelay == SECOND) && (p.maxDelay <= 0 ==> n.maxDelay == 60 * SECOND)
  {
    Policy(p.maxRetries, if p.baseDelay <= 0 then SECOND else p.baseDelay, if p.maxDelay <= 0 then 60 * SECOND
           else p.maxDelay)
  }

  /** Doubling wraps around. */
  function Double(d: int64): int64 {
    var x := d as int * 2;
    if x >= INT64_LIMIT then (x - 2 * INT64_LIMIT) as int64
    else if x < -INT64_LIMIT then (x + 2 * INT64_LIMIT) as int64
    else x as int64
  }

  function Pow2(n: nat): (r: nat)
    ensures r >= 1
  {
    if n == 0 then 1 else 2 * Pow2(n - 1)
  }

  /** The delay that the documentation gives for attempt n. */
  function Law(p: Policy, n: nat): int
    requires n >= 1
  {
    Min(p.baseDelay as int * Pow2(n - 1), p.maxDelay as int)
  }

  /** The delay after n doublings at most, stopping once it reaches the limit. */
  function DoubledTo(d: int64, maxDelay: int64, n: nat): int64 {
    if n == 0 then d
    else
      var e := DoubledTo(d, maxDelay, n - 1);
      if e < maxDelay then Double(e) else e
  }

  function Delay(p: Policy, attempt: nat): int64
    requires attempt >= 1
  {
    var d := DoubledTo(p.baseDelay, p.maxDelay, attempt - 1);
    if d > p.maxDelay then p.maxDelay else d
  }

  method Backoff(p: Policy, attempt: nat) returns (d: int64)
    requires attempt >= 1
    ensures d == Delay(p, attempt)
  {
    d := p.baseDelay;
    var i := 1;
    while i < attempt && d < p.maxDelay
      invariant 1 <= i <= attempt && d == DoubledTo(p.baseDelay, p.maxDelay, i - 1)
    {
      d := Double(d);
      i := i + 1;
    }
    Settled(p.baseDelay, p.maxDelay, i - 1, attempt - 1);
    if d > p.maxDelay {
      d := p.maxDelay;
    }
  }

  lemma {:induction false} Settled(d: int64, maxDelay: int64, i: nat, n: nat)
    requires i <= n && (i < n ==> DoubledTo(d, maxDelay, i) >= maxDelay)
    ensures DoubledTo(d, maxDelay, n) == DoubledTo(d, maxDelay, i)
  {
    if i < n {
      Settled(d, maxDelay, i, n - 1);
    }
  }

  /** The one value in the upper half of the range that doubling d comes to. */
  function Top(d: int64): (t: int64)
    requires d > 0
    ensures t >= d && t as int >= TOP_HALF
    decreases INT64_LIMIT - d as int
  {
    if d as int >= TOP_HALF then d else Top(Double(d))
  }

  /** Until the limit, the delay is the exact multiple. */
  lemma {:induction false} Exact(d: int64, maxDelay: int64, n: nat)
    requires d > 0 && maxDelay > 0 && Top(d) >= maxDelay
    ensures var e := DoubledTo(d, maxDelay, n);
            e > 0 && Top(e) >= maxDelay
            && if d as int * Pow2(n) < maxDelay as int then e as int == d as int * Pow2(n) else e >= maxDelay
  {
    if n > 0 {
      Exact(d, maxDelay, n - 1);
      var e := DoubledTo(d, maxDelay, n - 1);
      Twice(d as int, Pow2(n - 1));
      if e < maxDelay {
        assert e as int < TOP_HALF;
      }
    }
  }

  lemma Twice(d: int, p: nat)
    requires d > 0
    ensures d * (2 * p) == 2 * (d * p) && d * p >= 0
  {
  }

  lemma DoubledTimes(d: int, p: nat, e: int, q: nat)
    requires e == 2 * d && q == 2 * p
    ensures e * p == d * q
  {
  }

  lemma TopReached(d: int64) returns (k: nat)
    requires d > 0
    ensures Top(d) as int == d as int * Pow2(k)
    decreases INT64_LIMIT - d as int
  {
    if d as int >= TOP_HALF {
      k := 0;
    } else {
      var n := TopReached(Double(d));
      DoubledTimes(d as int, Pow2(n), Double(d) as int, Pow2(n + 1));
      k := n + 1;
    }
  }

  /** Below the limit, doubling is exact up to the top half. */
  lemma {:induction false} ExactBelow(d: int64, maxDelay: int64, n: nat)
    requires d > 0 && d as int * Pow2(n) < INT64_LIMIT && (n > 0 ==> d as int * Pow2(n - 1) < maxDelay as int)
    ensures DoubledTo(d, maxDelay, n) as int == d as int * Pow2(n)
  {
    if n > 0 {
      Twice(d as int, Pow2(n - 1));
      if n > 1 {
        Twice(d as int, Pow2(n - 2));
      }
      ExactBelow(d, maxDelay, n - 1);
    }
  }

  /** The delays follow the law for all attempts exactly if no doubled delay below the
      limit reaches the upper half of the range. */
  lemma BackoffLaw(p: Policy)
    requires p.baseDelay > 0 && p.maxDelay > 0
    ensures (forall n: nat :: n >= 1 ==> Delay(p, n) as int == Law(p, n)) <==> Top(p.baseDelay) >= p.maxDelay
  {
    if Top(p.baseDelay) >= p.maxDelay {
      forall n: nat | n >= 1 ensures Delay(p, n) as int == Law(p, n) {
        Exact(p.baseDelay, p.maxDelay, n - 1);
        assert p.baseDelay as int * Pow2(n - 1) >= p.maxDelay as int
          || DoubledTo(p.baseDelay, p.maxDelay, n - 1) < p.maxDelay;
      }
    } else {
      LawFails(p);
    }
  }

  lemma LawFails(p: Policy)
    requires p.baseDelay > 0 && 0 < Top(p.baseDelay) < p.maxDelay
    ensures exists n: nat :: n >= 1 && Delay(p, n) as int != Law(p, n)
  {
    var k := TopReached(p.baseDelay);
    var d := p.baseDelay as int;
    if k > 0 {
      Twice(d, Pow2(k - 1));
    }
    ExactBelow(p.baseDelay, p.maxDelay, k);
    Twice(d, Pow2(k));
    assert Pow2(k + 1) == 2 * Pow2(k);
    assert DoubledTo(p.baseDelay, p.maxDelay, k + 1) == Double(Top(p.baseDelay));
    assert Delay(p, k + 2) < 0 && Law(p, k + 2) > 0;
  }

  /** A limit of at most half the range is always safe; the largest one is not. */
  lemma SafeLimit(p: Policy)
    requires p.baseDelay > 0 && 0 < p.maxDelay && p.maxDelay as int <= TOP_HALF
    ensures Top(p.baseDelay) >= p.maxDelay
  {
  }

  lemma WrapsAround()
    ensures Delay(Policy(1, 0x4000_0000_0000_0000, 0x7FFF_FFFF_FFFF_FFFF), 2) as int == -INT64_LIMIT
  {
    var d: int64 := 0x4000_0000_0000_0000;
    assert DoubledTo(d, 0x7FFF_FFFF_FFFF_FFFF, 0) == d;
    assert DoubledTo(d, 0x7FFF_FFFF_FFFF_FFFF, 1) == Double(d);
  }

  /** Under the law, no delay is shorter than the one before. */
  lemma DelaysGrow(p: Policy, n: nat)
    requires p.baseDelay > 0 && p.maxDelay > 0 && Top(p.baseDelay) >= p.maxDelay && n >= 1
    ensures 0 < Delay(p, n) <= Delay(p, n + 1) <= p.maxDelay
  {
    BackoffLaw(p);
    Twice(p.baseDelay as int, Pow2(n - 1));
  }

  // ----- retrying -----------------------------------------------------------

  datatype CallError = Fatal | ContextOverflow | SummaryTruncated | Canceled | Other(text: string)

  datatype CallResult = Summary(text: string) | Failed(error: CallError)

  datatype RetryResult = Succeeded(text: string) | GaveUp(error: CallError) | WaitCancelled

  datatype Hook = Scheduled(attempt: nat, delay: int64) | AttemptStart(attempt: nat)
    | Finished(attempt: nat, success: bool)

  predicate IsTransient(e: CallError): (retried: bool)
    ensures retried <==> e != Fatal && e != ContextOverflow && e != SummaryTruncated && e != Canceled
  {
    e.Other?
  }

  /** What the hook is told of the first n retries as long as they go on. */
  ghost function Rounds(p: Policy, n: nat): seq<Hook> {
    if n == 0 then [] else Rounds(p, n - 1) + [Scheduled(n, Delay(p, n)), AttemptStart(n)]
  }

  /** Retry k is announced with its delay, and then started. */
  lemma {:induction false} RoundsAt(p: Policy, n: nat, k: nat)
    requires 1 <= k <= n
    ensures |Rounds(p, n)| == 2 * n
    ensures Rounds(p, n)[2 * k - 2] == Scheduled(k, Delay(p, k)) && Rounds(p, n)[2 * k - 1] == AttemptStart(k)
  {
    if k < n {
      RoundsAt(p, n - 1, k);
    } else if n > 1 {
      RoundsAt(p, n - 1, 1);
    }
  }

  /** All calls but the last failed in a way worth retrying. */
  ghost predicate Retried(call: nat -> CallResult, calls: nat) {
    forall k: nat :: k < calls - 1 ==> call(k).Failed? && IsTransient(call(k).error)
  }

  /** The number of retries the policy allows; a negative one allows one. */
  function Allowed(p: Policy): (n: nat)
    ensures p.maxRetries >= 0 ==> n as int == p.maxRetries as int
    ensures p.maxRetries < 0 ==> n == 1
  {
    if p.maxRetries < 0 then 1 else p.maxRetries
  }

  /** Nothing is told if there is no retry; otherwise every retry is announced and
      started in turn, and one end is told, with how it went. */
  ghost predicate Told(p: Policy, trace: seq<Hook>, calls: nat, r: RetryResult) {
    if trace == [] then calls == 1 && !r.WaitCancelled?
    else if r.WaitCancelled? then
      calls >= 1 && trace == Rounds(p, calls - 1) + [Scheduled(calls, Delay(p, calls)), Finished(calls, false)]
    else
      calls >= 2 && trace == Rounds(p, calls - 1) + [Finished(calls - 1, r.Succeeded?)]
  }

  /** call(k) is what the provider answers the k-th time; wakes(n) says whether the
      wait before retry n comes to its end. */
  method SummarizeWithLLM(policy: Policy, call: nat -> CallResult, wakes: nat -> bool)
    returns (r: RetryResult, calls: nat, trace: seq<Hook>)
    ensures 1 <= calls <= 1 + Allowed(policy)
    ensures Told(Normalized(policy), trace, calls, r) && Retried(call, calls)
    ensures r.Succeeded? ==> call(calls - 1) == Summary(r.text)
    ensures r.GaveUp? ==> call(calls - 1) == Failed(r.error) && (!IsTransient(r.error) || calls == 1 + Allowed(policy))
    ensures r.WaitCancelled? ==> call(calls - 1).Failed? && IsTransient(call(calls - 1).error) && !wakes(calls)
  {
    var p := Normalized(policy);
    calls, trace := 1, [];
    var result := call(0);
    if result.Summary? {
      return Succeeded(result.text), calls, trace;
    }
    if p.maxRetries == 0 || !IsTransient(result.error) {
      return GaveUp(result.error), calls, trace;
    }
    var attempt := 1;
    while true
      invariant 1 <= attempt == calls <= Allowed(policy) && trace == Rounds(p, attempt - 1) && Retried(call, calls)
      invariant result == call(calls - 1) && result.Failed? && IsTransient(result.error)
      decreases Allowed(policy) - attempt
    {
      var delay := Backoff(p, attempt);
      if !wakes(attempt) {
        trace := trace + [Scheduled(attempt, delay), Finished(attempt, false)];
        return WaitCancelled, calls, trace;
      }
      trace := trace + [Scheduled(attempt, delay), AttemptStart(attempt)];
      result := call(calls);
      calls := calls + 1;
      if result.Summary? {
        trace := trace + [Finished(attempt, true)];
        return Succeeded(result.text), calls, trace;
      }
      if attempt >= p.maxRetries || !IsTransient(result.error) {
        trace := trace + [Finished(attempt, false)];
        return GaveUp(result.error), calls, trace;
      }
      attempt := attempt + 1;
    }
  }
}
