/** What each dispatch step writes to the outbox row and its occurrence, column by column. */
module Outcomes {
  import opened Domain
  import opened Tables
  import opened Protocol
  import opened Coupling
  import opened Invariant
  import opened Liveness
  import Retry

  /** The occurrence of outbox row x. */
  function OccurrenceOf(db: Db, x: Id): Id
    requires x in db.outbox
  {
    db.outbox[x].job.occurrenceId
  }

  ghost predicate HasPair(db: Db, x: Id) {
    x in db.outbox && OccurrenceOf(db, x) in db.occurrences
  }

  /** Everything but row x and its occurrence is as before; the row keeps its job, the occurrence its identity. */
  ghost predicate OnlyPairChanged(a: Db, b: Db, x: Id)
    requires HasPair(a, x)
  {
    && HasPair(b, x) && b.outbox[x].job == a.outbox[x].job
    && b.schedules == a.schedules && b.receipts == a.receipts
    && b.outbox == a.outbox[x := b.outbox[x]]
    && b.occurrences == a.occurrences[OccurrenceOf(a, x) := b.occurrences[OccurrenceOf(a, x)]]
    && var o, p := a.occurrences[OccurrenceOf(a, x)], b.occurrences[OccurrenceOf(a, x)];
    p.key == o.key && p.scheduleName == o.scheduleName && p.observedAt == o.observedAt && p.missedCount == o.missedCount
  }

  /** The first 1024 characters of an error text; none if there is no error or it says nothing. */
  function Message(err: Option<string>): Option<string> {
    if err.None? || |err.value| == 0 then None
    else if |err.value| <= 1024 then err
    else Some(err.value[..1024])
  }

  /** Both rows carry this report, and the claim is gone. */
  ghost predicate Reported(db: Db, x: Id, status: int, err: Option<string>, code: Code)
    requires HasPair(db, x)
  {
    var r, o := db.outbox[x], db.occurrences[OccurrenceOf(db, x)];
    && r.claimOwner.None? && r.claimExpires.None?
    && r.report == o.report && o.outcome == code
    && r.report.httpStatus == (if status == 0 then None else Some(status))
    && r.report.code == code && r.report.message == Message(err)
  }

  // ---- Results ---------------------------------------------------------------------------------

  predicate IsSuccess(result: DispatchResult) {
    result.err.None? && 200 <= result.status < 300
  }

  /** What may be tried again: 408, 425, 429, 5xx, or no answer, unless the target or the caller called it off. */
  predicate IsRetryable(result: DispatchResult) {
    && result.code != TargetRejected && result.code != TargetPermanent && result.code != Cancelled
    && (|| result.status in {408, 425, 429} || result.status >= 500
        || (result.err.Some? && result.code in {TargetUnavailable, TargetTimeout})
        || (result.err.Some? && result.status == 0 && result.code == NoCode))
  }

  lemma RetryableIsExact(result: DispatchResult)
    ensures Retryable(result) <==> IsRetryable(result)
  {
  }

  /** Attempts and window remain. */
  predicate MayTryAgain(work: OutboxRow, result: DispatchResult, now: Instant) {
    && !IsSuccess(result) && IsRetryable(result) && work.attempts < work.job.retry.maxAttempts
    && work.firstAttemptAt.Some? && now < work.firstAttemptAt.value + work.job.retry.windowSeconds * 1000
  }

  /** The longest delay, in nanoseconds: the capped exponential backoff and what is left of the window. */
  function Ceiling(work: OutboxRow, now: Instant): int
    requires work.firstAttemptAt.Some? && work.attempts >= 1
  {
    var p := work.job.retry;
    Min(Min(p.backoffSeconds * Retry.Pow2(work.attempts - 1), p.maxBackoffSeconds) * 1_000_000_000,
        (work.firstAttemptAt.value + p.windowSeconds * 1000 - now) * 1_000_000)
  }

  /** The draw is one the code accepts. */
  predicate UsableDraw(work: OutboxRow, now: Instant, draw: Retry.Draw)
    requires work.firstAttemptAt.Some? && work.attempts >= 1
  {
    draw.Drawn? && 0 <= draw.value <= Ceiling(work, now)
  }

  /** Such a draw, and not exactly the end of the window. */
  predicate Retries(work: OutboxRow, result: DispatchResult, now: Instant, draw: Retry.Draw)
    requires work.firstAttemptAt.Some? && work.attempts >= 1
  {
    && MayTryAgain(work, result, now) && UsableDraw(work, now, draw)
    && now * 1_000_000 + draw.value < (work.firstAttemptAt.value + work.job.retry.windowSeconds * 1000) * 1_000_000
  }

  /** The result a final failure reports: the target's, or that no usable draw could be had. */
  function Final(work: OutboxRow, result: DispatchResult, now: Instant, draw: Retry.Draw): DispatchResult
    requires work.firstAttemptAt.Some? && work.attempts >= 1
  {
    if !MayTryAgain(work, result, now) || UsableDraw(work, now, draw) then result
    else
      var why := if draw.DrawFailed? then draw.why else "random source returned a value outside the requested range";
      DispatchResult(result.status, Some("scheduler retry jitter failed: " + why), RetryJitterUnavailable)
  }

  lemma CeilingIsExact(work: OutboxRow, now: Instant)
    requires work.firstAttemptAt.Some? && work.attempts >= 1
    ensures var p := work.job.retry;
            Ceiling(work, now) ==
              Min(Min(p.backoffSeconds * Retry.SECOND * Retry.Pow2(work.attempts - 1),
                      p.maxBackoffSeconds * Retry.SECOND),
                  Retry.Deadline(p, work.firstAttemptAt.value) - now * Retry.MILLISECOND)
  {
    var p := work.job.retry;
    var b, w := p.backoffSeconds, Retry.Pow2(work.attempts - 1);
    assert b * Retry.SECOND * w == b * w * Retry.SECOND;
  }

  /** The decision, in terms of the result, the clock and the draw alone. */
  lemma DecisionIsExact(work: OutboxRow, result: DispatchResult, now: Instant, draw: Retry.Draw)
    requires ValidRetry(work.job.retry) && 1 <= work.attempts <= MAX_RETRY_ATTEMPTS && work.firstAttemptAt.Some?
    ensures var d := Retry.Decide(work.job.retry, work.attempts, work.firstAttemptAt, result, now, draw);
            && (d.Complete? <==> IsSuccess(result))
            && (d.RetryAt? <==> Retries(work, result, now, draw))
            && (d.RetryAt? ==> d.at == now * 1_000_000 + draw.value)
            && (d.Fail? ==> d.result == Final(work, result, now, draw))
  {
    Retry.RetryIsBounded(work.job.retry, work.attempts, work.firstAttemptAt, result, now, draw);
    RetryableIsExact(result);
    CeilingIsExact(work, now);
  }

  /** The pair of rows after a result was written. */
  ghost predicate ResultWritten(
    a: Db, b: Db, x: Id, work: OutboxRow, result: DispatchResult, now: Instant, draw: Retry.Draw)
    requires HasPair(a, x) && HasPair(b, x) && work.firstAttemptAt.Some? && work.attempts >= 1
  {
    var q, r, o := a.outbox[x], b.outbox[x], b.occurrences[OccurrenceOf(b, x)];
    var again := Retries(work, result, now, draw);
    var final := Final(work, result, now, draw);
    && r.attempts == q.attempts && r.firstAttemptAt == q.firstAttemptAt && o.attempts == work.attempts
    && r.status == (if IsSuccess(result) then BoxSucceeded else if again then BoxRetrying else BoxFailed)
    && o.status == (if IsSuccess(result) then OccSucceeded else if again then OccRetrying else OccFailed)
    && r.completedAt == (if again then None else Some(now)) && o.completedAt == r.completedAt
    && r.nextAttemptAt == (if again then Retry.Stored(now * 1_000_000 + draw.value) else now)
    && Reported(b, x, final.status, final.err, final.code)
  }

  /** What the verdict of a result says. */
  lemma VerdictIsExact(d: DispatchTask, result: DispatchResult, now: Instant, draw: Retry.Draw)
    requires ValidRetry(d.work.job.retry) && 1 <= d.work.attempts <= MAX_RETRY_ATTEMPTS && d.work.firstAttemptAt.Some?
    ensures var v := ResultVerdict(d, result, now, draw);
            var again := Retries(d.work, result, now, draw);
            var final := Final(d.work, result, now, draw);
            && v.box == (if IsSuccess(result) then BoxSucceeded else if again then BoxRetrying else BoxFailed)
            && v.occ == (if IsSuccess(result) then OccSucceeded else if again then OccRetrying else OccFailed)
            && v.completedAt == (if again then None else Some(now))
            && v.nextAttemptAt == (if again then Retry.Stored(now * 1_000_000 + draw.value) else now)
            && v.report.httpStatus == (if final.status == 0 then None else Some(final.status))
            && v.report.code == final.code && v.report.message == Message(final.err)
  {
    DecisionIsExact(d.work, result, now, draw);
  }

  /** A verdict that the guard lets through is written to both rows; one that it stops changes nothing. */
  lemma VerdictIsWritten(s: State, task: nat, v: Verdict)
    requires Inv(s) && task in s.dispatchers
    ensures var d := s.dispatchers[task];
            var t := DoTransition(s, task, v);
            && HasPair(s.db, d.row)
            && if s.db.outbox[d.row].status.BoxDispatching? && s.db.outbox[d.row].claimOwner == Some(d.worker) then
                 && OnlyPairChanged(s.db, t.db, d.row)
                 && var q, r, o := s.db.outbox[d.row], t.db.outbox[d.row], t.db.occurrences[OccurrenceOf(s.db, d.row)];
                 && r.attempts == q.attempts && r.firstAttemptAt == q.firstAttemptAt && o.attempts == d.work.attempts
                 && r.status == v.box && o.status == v.occ && r.nextAttemptAt == v.nextAttemptAt
                 && r.completedAt == v.completedAt && o.completedAt == v.completedAt
                 && r.report == v.report && o.report == v.report && o.outcome == v.report.code
                 && r.claimOwner.None? && r.claimExpires.None?
               else t.db == s.db
  {
    assert DispatcherOk(s, task);
    PairFacts(s.db, s.dispatchers[task].row);
    TransitionIsPairUpdate(s, task, v);
  }

  /**
   * Whatever the target reported: a success is recorded as succeeded, a retry as retrying at now plus
   * the draw, and everything else as failed, in both tables alike.  A write that the owner and status
   * guard stops changes nothing.
   */
  lemma ResultIsRecorded(s: State, task: nat, result: DispatchResult, now: Instant, draw: Retry.Draw)
    requires Inv(s) && InPhase(s, task, Sent)
    ensures var d := s.dispatchers[task];
            var t := DoTransition(s, task, ResultVerdict(d, result, now, draw));
            && HasPair(s.db, d.row) && d.work.firstAttemptAt.Some? && d.work.attempts >= 1
            && if s.db.outbox[d.row].status.BoxDispatching? && s.db.outbox[d.row].claimOwner == Some(d.worker)
               then OnlyPairChanged(s.db, t.db, d.row) && ResultWritten(s.db, t.db, d.row, d.work, result, now, draw)
               else t.db == s.db
  {
    var d := s.dispatchers[task];
    assert DispatcherOk(s, task);
    VerdictIsExact(d, result, now, draw);
    VerdictIsWritten(s, task, ResultVerdict(d, result, now, draw));
  }

  /** A deferral sends the row back for one second, counts nothing and completes nothing. */
  lemma DeferralIsRecorded(s: State, task: nat, now: Instant, code: Code, message: string)
    requires Inv(s) && InPhase(s, task, Claimed)
    ensures var d := s.dispatchers[task];
            var t := DoTransition(s, task, DeferVerdict(now, code, message));
            && HasPair(s.db, d.row)
            && if s.db.outbox[d.row].status.BoxDispatching? && s.db.outbox[d.row].claimOwner == Some(d.worker) then
                 && OnlyPairChanged(s.db, t.db, d.row)
                 && var q, r, o := s.db.outbox[d.row], t.db.outbox[d.row], t.db.occurrences[OccurrenceOf(s.db, d.row)];
                 && r.status.BoxRetrying? && o.status.OccRetrying? && r.completedAt.None? && o.completedAt.None?
                 && r.nextAttemptAt == now + 1000
                 && r.attempts == q.attempts && r.firstAttemptAt == q.firstAttemptAt && o.attempts == d.work.attempts
                 && Reported(t.db, d.row, 0, Some(message), code)
               else t.db == s.db
  {
    VerdictIsWritten(s, task, DeferVerdict(now, code, message));
  }

  // ---- Claim, begin, recovery ------------------------------------------------------------------

  /** A claim marks the row, for the claimant and until its expiry, and the claimant's copy is the marked row. */
  lemma ClaimIsRecorded(s: State, task: nat, worker: string, x: Id, now: Instant, expires: Instant)
    requires CanClaimDispatch(s, task, x, now)
    ensures var t := DoClaimDispatch(s, task, worker, x, now, expires);
            && t.db == s.db.(outbox := t.db.outbox) && t.db.outbox == s.db.outbox[x := t.db.outbox[x]]
            && var q, r := s.db.outbox[x], t.db.outbox[x];
            && r.status.BoxDispatching? && r.claimOwner == Some(worker) && r.claimExpires == Some(expires)
            && r.job == q.job && r.attempts == q.attempts && r.nextAttemptAt == q.nextAttemptAt
            && r.firstAttemptAt == q.firstAttemptAt && r.report == q.report && r.completedAt == q.completedAt
            && t.dispatchers == s.dispatchers[task := DispatchTask(worker, x, r, Claimed)]
  {
  }

  /**
   * Begin counts one attempt in both tables and fixes the first attempt, if and only if the claim is
   * the worker's own, has not run out and an attempt is left.  The claim is not prolonged.
   */
  lemma BeginIsRecorded(s: State, task: nat, now: Instant, acknowledged: bool)
    requires Inv(s) && InPhase(s, task, Claimed)
    ensures var d := s.dispatchers[task];
            var t := DoBegin(s, task, now, acknowledged);
            && HasPair(s.db, d.row)
            && var q := s.db.outbox[d.row];
            if q.status.BoxDispatching? && q.claimOwner == Some(d.worker) && q.claimExpires.Some?
               && now < q.claimExpires.value && q.attempts < q.job.retry.maxAttempts
            then
              && OnlyPairChanged(s.db, t.db, d.row)
              && var r, o := t.db.outbox[d.row], t.db.occurrences[OccurrenceOf(s.db, d.row)];
              && r.attempts == q.attempts + 1 && o.attempts == r.attempts
              && r.firstAttemptAt == Some(if q.firstAttemptAt.Some? then q.firstAttemptAt.value else now)
              && r.status.BoxDispatching? && o.status.OccDispatching?
              && r.claimOwner == q.claimOwner && r.claimExpires == q.claimExpires
              && r.nextAttemptAt == q.nextAttemptAt && r.report == q.report && r.completedAt == q.completedAt
              && o == s.db.occurrences[OccurrenceOf(s.db, d.row)].(status := o.status, attempts := o.attempts)
              && (if acknowledged then t.dispatchers == s.dispatchers[task := DispatchTask(d.worker, d.row, r, Begun)]
                  else t.dispatchers == s.dispatchers - {task})
            else t.db == s.db && t.dispatchers == s.dispatchers - {task}
  {
    var d := s.dispatchers[task];
    assert DispatcherOk(s, task);
    PairFacts(s.db, d.row);
  }

  /** Recovery fails the row and its occurrence; the HTTP status of the last answer stays. */
  lemma RecoveryIsRecorded(s: State, x: Id, now: Instant)
    requires Inv(s) && CanRecover(s, x, now)
    ensures HasPair(s.db, x)
    ensures var t := RecoverRow(s.db, x, now);
            && OnlyPairChanged(s.db, t, x)
            && var q, r, o := s.db.outbox[x], t.outbox[x], t.occurrences[OccurrenceOf(s.db, x)];
            && r.status.BoxFailed? && o.status.OccFailed? && r.completedAt == Some(now) && o.completedAt == Some(now)
            && r.claimOwner.None? && r.claimExpires.None? && r.nextAttemptAt == now
            && r.attempts == q.attempts && o.attempts == q.attempts && r.firstAttemptAt == q.firstAttemptAt
            && r.report.code == DispatchRecoveryExhausted && o.report.code == DispatchRecoveryExhausted
            && o.outcome == DispatchRecoveryExhausted && r.report.httpStatus == q.report.httpStatus
            && r.report.message == Some("worker claim expired after final dispatch attempt") == o.report.message
  {
    RecoverIsSafe(s.db, x, now);
    PairFacts(s.db, x);
  }
}
