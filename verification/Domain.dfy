/** Values shared by every part of the scheduler: policies, statuses and dispatch results. */
module Domain {

  datatype Option<+T> = None | Some(value: T)

  /** A database identifier, kept as its text. */
  type Id = string

  /** Milliseconds since 1970-01-01T00:00:00Z; "no instant" is None. */
  type Instant = int

  function Min(a: int, b: int): int {
    if a < b then a else b
  }

  function Max(a: int, b: int): int {
    if a < b then b else a
  }

  datatype Method = Post | Put
  datatype Misfire = Skip | FireOnce | CatchUpBounded
  datatype Overlap = Allow | Forbid
  datatype ScheduleStatus = Active | Paused | Exhausted

  datatype OccurrenceStatus =
    OccPending | OccDispatching | OccRetrying | OccSucceeded | OccFailed | OccSkipped

  datatype OutboxStatus =
    BoxPending | BoxDispatching | BoxRetrying | BoxSucceeded | BoxFailed

  predicate OccOpen(s: OccurrenceStatus) {
    s == OccPending || s == OccDispatching || s == OccRetrying
  }

  predicate BoxOpen(s: OutboxStatus) {
    s == BoxPending || s == BoxDispatching || s == BoxRetrying
  }

  /** Outcome codes. NoCode is the empty string, OtherCode any text outside the table. */
  datatype Code =
    | NoCode
    | TargetUnavailable
    | TargetTimeout
    | TargetRejected
    | TargetPermanent
    | Cancelled
    | CoordinationUnavailable
    | CoordinationContended
    | DispatchRecoveryExhausted
    | MisfireSkipped
    | MisfireBoundExceeded
    | OverlapBlocked
    | RetryJitterUnavailable
    | OtherCode(text: string)

  const MAX_RETRY_ATTEMPTS := 10
  const MAX_RETRY_BACKOFF_SECONDS := 3600
  const MAX_RETRY_WINDOW_SECONDS := 86400
  const MAX_CATCH_UP := 100

  datatype RetryPolicy = RetryPolicy(
    maxAttempts: int, backoffSeconds: int, maxBackoffSeconds: int, windowSeconds: int)

  predicate ValidRetry(p: RetryPolicy) {
    && 1 <= p.maxAttempts <= MAX_RETRY_ATTEMPTS
    && 1 <= p.backoffSeconds <= MAX_RETRY_BACKOFF_SECONDS
    && p.backoffSeconds <= p.maxBackoffSeconds <= MAX_RETRY_BACKOFF_SECONDS
    && 1 <= p.windowSeconds <= MAX_RETRY_WINDOW_SECONDS
  }

  /** Everything of a schedule that an edit may replace. */
  datatype Definition = Definition(
    rule: Option<string>, runAt: Option<Instant>, timezone: string,
    url: string, verb: Method, payload: string,
    retry: RetryPolicy, misfire: Misfire, catchUpLimit: int, overlap: Overlap)

  /** The CHECKs of scheduler_schedule that concern the definition alone. */
  predicate ValidDefinition(d: Definition) {
    && (d.rule.Some? <==> d.runAt.None?)
    && (d.rule.Some? ==> 0 < |d.rule.value| <= 256) && d.timezone != ""
    && (if d.misfire.CatchUpBounded? then 1 <= d.catchUpLimit <= MAX_CATCH_UP else d.catchUpLimit == 1)
    && ValidRetry(d.retry)
  }

  predicate Visible(s: string) {
    forall i | 0 <= i < |s| :: s[i] >= ' ' && s[i] != 0x7f as char
  }

  predicate ValidTenant(s: string) {
    0 < |s| <= 128 && Visible(s)
  }

  predicate NameChar(c: char) {
    'a' <= c <= 'z' || '0' <= c <= '9' || c == '.' || c == '_' || c == '-'
  }

  predicate ValidName(s: string) {
    && 0 < |s| <= 64
    && ('a' <= s[0] <= 'z' || '0' <= s[0] <= '9')
    && forall i | 0 <= i < |s| :: NameChar(s[i])
  }

  /** What one HTTP attempt reported; status 0 means that no response arrived. */
  datatype DispatchResult = DispatchResult(status: int, err: Option<string>, code: Code)

  predicate Succeeded(r: DispatchResult) {
    r.err.None? && 200 <= r.status < 300
  }

  predicate Retryable(r: DispatchResult) {
    if r.code.TargetRejected? || r.code.TargetPermanent? || r.code.Cancelled? then false
    else if r.status == 408 || r.status == 425 || r.status == 429 || r.status >= 500 then true
    else if r.err.Some? && (r.code.TargetUnavailable? || r.code.TargetTimeout?) then true
    else r.status == 0 && r.err.Some? && r.code.NoCode?
  }
}
