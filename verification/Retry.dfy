/** Retry arithmetic: saturating exponential backoff, full jitter, and the decision after an attempt. */
module Retry {
  import opened Domain

  /** Durations are nanoseconds held in a signed 64-bit integer. */
  const SECOND := 1_000_000_000
  const MILLISECOND := 1_000_000
  const MIN_INT64 := -0x8000_0000_0000_0000
  const MAX_INT64 := 0x7fff_ffff_ffff_ffff

  function Pow2(n: nat): nat {
    if n == 0 then 1 else 2 * Pow2(n - 1)
  }

  /** `1 << n` on int64: the sign bit at 63, zero beyond. */
  function ShiftOne(n: nat): int {
    if n <= 62 then Pow2(n) else if n == 63 then MIN_INT64 else 0
  }

  /** Quotient truncated toward zero, as the source's integer division. */
  function TruncDiv(a: int, b: int): int
    requires b != 0
  {
    var q := (if a < 0 then -a else a) / (if b < 0 then -b else b);
    if (a < 0) == (b < 0) then q else -q
  }

  /** retryBackoff; None is the division by zero that a shift past 63 bits leads to. */
  function RetryBackoff(p: RetryPolicy, failedAttempt: int): Option<int> {
    var base := p.backoffSeconds * SECOND;
    var maximum := p.maxBackoffSeconds * SECOND;
    if base >= maximum then Some(maximum)
    else
      var multiplier := ShiftOne(Max(failedAttempt - 1, 0));
      if multiplier == 0 then None
      else if base > TruncDiv(maximum, multiplier) then Some(maximum)
      else Some(Min(base * multiplier, maximum))
  }

  lemma {:induction false} Pow2Monotone(a: nat, b: nat)
    requires a <= b
    ensures Pow2(a) <= Pow2(b)
  {
    if a < b {
      Pow2Monotone(a, b - 1);
    }
  }

  lemma Pow2Values()
    ensures Pow2(9) == 512 && Pow2(62) == 0x4000_0000_0000_0000 && Pow2(63) == 0x8000_0000_0000_0000
  {
    assert Pow2(9) == 512;
    assert Pow2(18) == 262144;
    assert Pow2(27) == 134217728;
    assert Pow2(36) == 68719476736;
    assert Pow2(45) == 35184372088832;
    assert Pow2(54) == 18014398509481984;
    assert Pow2(62) == 0x4000_0000_0000_0000;
  }

  /**
   * Whenever it returns, retryBackoff is min(base * 2^(attempt-1), maximum) in unbounded integers;
   * it returns exactly when the cap already holds or the shift stays below 64 bits.
   */
  lemma BackoffIsCappedPower(p: RetryPolicy, attempt: int)
    requires ValidRetry(p)
    ensures RetryBackoff(p, attempt).Some? <==> p.backoffSeconds == p.maxBackoffSeconds || attempt <= 64
    ensures RetryBackoff(p, attempt).Some? ==>
              RetryBackoff(p, attempt).value
                == Min(p.backoffSeconds * SECOND * Pow2(Max(attempt - 1, 0)), p.maxBackoffSeconds * SECOND)
  {
    var n := Max(attempt - 1, 0);
    var base, maximum, power := p.backoffSeconds * SECOND, p.maxBackoffSeconds * SECOND, Pow2(n);
    Pow2Monotone(0, n);
    assert base * power >= base by { MulAtLeast(base, power); }
    if base < maximum && n <= 62 {
      QuotientBound(base, maximum, power);
    } else if base < maximum {
      Pow2Values();
      Pow2Monotone(63, n);
      MulAtLeast(power, base);
    }
  }

  lemma MulAtLeast(a: int, b: int)
    requires a >= 0 && b >= 1
    ensures a * b >= a
  {
    assert a * b == a + a * (b - 1);
    assert a * (b - 1) >= 0;
  }

  lemma QuotientBound(a: int, b: int, k: int)
    requires a >= 0 && b >= 0 && k >= 1
    ensures a > b / k <==> a * k > b
  {
    var q := b / k;
    assert q * k <= b < q * k + k;
    if a > q {
      assert a * k >= (q + 1) * k by { MulMonotone(q + 1, a, k); }
      assert (q + 1) * k == q * k + k;
    } else {
      assert a * k <= q * k by { MulMonotone(a, q, k); }
    }
  }

  lemma MulMonotone(a: int, b: int, k: int)
    requires a <= b && k >= 0
    ensures a * k <= b * k
  {
    assert (b - a) * k >= 0;
    assert (b - a) * k == b * k - a * k;
  }

  /** On every attempt count a stored row can hold, no intermediate value leaves the int64 range. */
  lemma BackoffFitsInt64(p: RetryPolicy, attempt: int)
    requires ValidRetry(p) && 0 <= attempt <= MAX_RETRY_ATTEMPTS
    ensures var n := Max(attempt - 1, 0);
            && 0 < ShiftOne(n) <= 512
            && RetryBackoff(p, attempt).Some?
            && 0 < RetryBackoff(p, attempt).value <= p.maxBackoffSeconds * SECOND
            && p.backoffSeconds * SECOND * ShiftOne(n) <= MAX_INT64
  {
    var n := Max(attempt - 1, 0);
    Pow2Values();
    Pow2Monotone(0, n);
    Pow2Monotone(n, 9);
    BackoffIsCappedPower(p, attempt);
    MulAtLeast(p.backoffSeconds * SECOND, Pow2(n));
    MulMonotone(Pow2(n), 512, p.backoffSeconds * SECOND);
    assert Pow2(n) * (p.backoffSeconds * SECOND) == p.backoffSeconds * SECOND * ShiftOne(n);
  }

  lemma BackoffIsMonotone(p: RetryPolicy, a: int, b: int)
    requires ValidRetry(p) && a <= b <= 64
    ensures RetryBackoff(p, a).Some? && RetryBackoff(p, b).Some?
    ensures RetryBackoff(p, a).value <= RetryBackoff(p, b).value
  {
    BackoffIsCappedPower(p, a);
    BackoffIsCappedPower(p, b);
    var m, n := Max(a - 1, 0), Max(b - 1, 0);
    Pow2Monotone(m, n);
    MulMonotone(Pow2(m), Pow2(n), p.backoffSeconds * SECOND);
    assert Pow2(m) * (p.backoffSeconds * SECOND) == p.backoffSeconds * SECOND * Pow2(m);
    assert Pow2(n) * (p.backoffSeconds * SECOND) == p.backoffSeconds * SECOND * Pow2(n);
  }

  // ---- The decision after an attempt -----------------------------------------------------------

  /** The random source either fails or yields some integer, not trusted to be in range. */
  datatype Draw = DrawFailed(why: string) | Drawn(value: int)

  function FullJitter(ceiling: int, draw: Draw): Option<int> {
    if ceiling <= 0 then Some(0)
    else if draw.DrawFailed? || draw.value < 0 || draw.value > ceiling then None
    else Some(draw.value)
  }

  /** The result recorded when no usable draw could be had. */
  function WithoutJitter(result: DispatchResult, draw: Draw): DispatchResult {
    var why := if draw.DrawFailed? then draw.why else "random source returned a value outside the requested range";
    result.(err := Some("scheduler retry jitter failed: " + why), code := RetryJitterUnavailable)
  }

  datatype Decision = Complete | Fail(result: DispatchResult) | RetryAt(at: int)

  /**
   * persistResult: `at` is in nanoseconds, the other instants in milliseconds.
   * A stored attempt count is at most 10, so the backoff is always defined where this is called.
   */
  function Decide(p: RetryPolicy, attempts: int, firstAttemptAt: Option<Instant>,
                  result: DispatchResult, now: Instant, draw: Draw): Decision {
    if Succeeded(result) then Complete
    else if !Retryable(result) || attempts >= p.maxAttempts then Fail(result)
    else
      var first := if firstAttemptAt.Some? then firstAttemptAt.value else now;
      var deadline := Deadline(p, first);
      var remaining := deadline - now * MILLISECOND;
      if remaining <= 0 then Fail(result)
      else
        var backoff := RetryBackoff(p, attempts);
        var ceiling := if backoff.None? then 0 else Min(backoff.value, remaining);
        var delay := FullJitter(ceiling, draw);
        if delay.None? then Fail(WithoutJitter(result, draw))
        else
          var at := now * MILLISECOND + delay.value;
          if at >= deadline then Fail(result) else RetryAt(at)
  }

  function Deadline(p: RetryPolicy, first: Instant): int {
    first * MILLISECOND + p.windowSeconds * SECOND
  }

  /**
   * A retry is scheduled exactly when the failure is retryable, attempts and window remain and the
   * draw is usable; its instant is then now plus the draw, which lies in [now, first attempt + window)
   * and within the backoff.  Any other failure is final, and a useless draw is what it reports.
   */
  lemma RetryIsBounded(
    p: RetryPolicy, attempts: int, first: Option<Instant>, result: DispatchResult, now: Instant, draw: Draw)
    requires ValidRetry(p) && 1 <= attempts <= MAX_RETRY_ATTEMPTS
    ensures var decision := Decide(p, attempts, first, result, now, draw);
            var deadline := Deadline(p, if first.Some? then first.value else now);
            var ceiling := Min(Min(p.backoffSeconds * SECOND * Pow2(attempts - 1), p.maxBackoffSeconds * SECOND),
                               deadline - now * MILLISECOND);
            && (decision.RetryAt? <==>
                  && !Succeeded(result) && Retryable(result) && attempts < p.maxAttempts
                  && now * MILLISECOND < deadline
                  && draw.Drawn? && 0 <= draw.value <= ceiling
                  && now * MILLISECOND + draw.value < deadline)
            && (decision.RetryAt? ==>
                  && decision.at == now * MILLISECOND + draw.value
                  && now * MILLISECOND <= decision.at < deadline
                  && decision.at <= now * MILLISECOND + ceiling)
            && (decision.Fail? ==>
                  decision.result ==
                    if Retryable(result) && attempts < p.maxAttempts && now * MILLISECOND < deadline
                       && !(draw.Drawn? && 0 <= draw.value <= ceiling)
                    then WithoutJitter(result, draw) else result)
            && (decision.Complete? <==> Succeeded(result))
  {
    BackoffIsCappedPower(p, attempts);
    BackoffFitsInt64(p, attempts);
  }

  /** 2000-01-01T00:00:00Z in microseconds, the origin of the database's timestamps. */
  const TIMESTAMP_ORIGIN := 946_684_800_000_000

  /** next_attempt_at as the TIMESTAMPTZ(3) column keeps it: microseconds, rounded to milliseconds away from 2000. */
  function Stored(at: int): Instant {
    var micros := at / 1000 - TIMESTAMP_ORIGIN;
    TIMESTAMP_ORIGIN / 1000 + if micros >= 0 then (micros + 500) / 1000 else -((-micros + 500) / 1000)
  }

  /** How close to the deadline an instant is rounded onto it: half a millisecond, from 2000 on included. */
  function RoundingMargin(at: int): int {
    if at / 1000 >= TIMESTAMP_ORIGIN then 500_000 else 499_000
  }

  /**
   * The stored retry instant is not before now and not after the deadline.  It is strictly before the
   * deadline exactly when the chosen instant is far enough from it not to be rounded onto it.
   */
  lemma StoredRetryIsBounded(
    p: RetryPolicy, attempts: int, first: Instant, result: DispatchResult, now: Instant, draw: Draw)
    requires ValidRetry(p) && 1 <= attempts <= MAX_RETRY_ATTEMPTS
    requires Decide(p, attempts, Some(first), result, now, draw).RetryAt?
    ensures var at := Decide(p, attempts, Some(first), result, now, draw).at;
            && now <= Stored(at) <= first + p.windowSeconds * 1000
            && (Stored(at) < first + p.windowSeconds * 1000 <==> at < Deadline(p, first) - RoundingMargin(at))
  {
    RetryIsBounded(p, attempts, Some(first), result, now, draw);
    StoredIsBetween(now, Decide(p, attempts, Some(first), result, now, draw).at, first + p.windowSeconds * 1000);
  }

  lemma StoredIsBetween(now: Instant, at: int, deadline: Instant)
    requires now * MILLISECOND <= at < deadline * MILLISECOND
    ensures now <= Stored(at) <= deadline
    ensures Stored(at) < deadline <==> at < deadline * MILLISECOND - RoundingMargin(at)
  {
    assert now * 1000 <= at / 1000 < deadline * 1000;
  }

  /** A draw just below the deadline is rounded up onto it. */
  lemma StoredRetryCanReachDeadline()
    ensures var p := RetryPolicy(2, 1, 3600, 1);
            var failure := DispatchResult(503, None, NoCode);
            && ValidRetry(p)
            && Decide(p, 1, Some(0), failure, 0, Drawn(999_999_999)) == RetryAt(999_999_999)
            && 999_999_999 < Deadline(p, 0)
            && Stored(999_999_999) * MILLISECOND == Deadline(p, 0)
  {
    assert Pow2(0) == 1;
  }

  // ---- What an interrupted attempt means -------------------------------------------------------

  datatype Interruption = NotInterrupted | Canceled(why: string) | DeadlineExceeded(why: string)

  function NormalizeAttempt(r: DispatchResult, i: Interruption): DispatchResult {
    if i.NotInterrupted? then r
    else
      var withErr := if r.err.None? then r.(err := Some(i.why)) else r;
      if i.Canceled? then withErr.(code := Cancelled) else withErr.(code := TargetTimeout)
  }

  /** A cancelled attempt is never a success and never retried, a timed-out one never a success and always retryable. */
  lemma InterruptionIsClassified(r: DispatchResult, i: Interruption)
    requires !i.NotInterrupted?
    ensures !Succeeded(NormalizeAttempt(r, i))
    ensures Retryable(NormalizeAttempt(r, i)) <==> i.DeadlineExceeded?
    ensures NormalizeAttempt(r, i).status == r.status
    ensures r.err.Some? ==> NormalizeAttempt(r, i).err == r.err
  {
  }
}
