/** From a raw request to a prepared command: defaults, validation, normalization. */
module Preparation {
  import opened Domain
  import opened Text
  import opened Protocol

  /** A schedule as decoded: absent texts are empty or None, absent numbers zero, run_at in nanoseconds. */
  datatype RawSchedule = RawSchedule(
    rule: string, runAt: Option<int>, timezone: string, url: string, verb: Option<Method>, payload: string,
    retry: RetryPolicy, misfire: Option<Misfire>, catchUpLimit: int, overlap: Option<Overlap>,
      status: Option<ScheduleStatus>)

  function OrDefault(v: int, default: int): int {
    if v == 0 then default else v
  }

  function WithDefaults(p: RetryPolicy): RetryPolicy {
    RetryPolicy(OrDefault(p.maxAttempts, 1), OrDefault(p.backoffSeconds, 1),
                OrDefault(p.maxBackoffSeconds, 3600), OrDefault(p.windowSeconds, 3600))
  }

  function Or<T>(v: Option<T>, default: T): T {
    if v.Some? then v.value else default
  }

  datatype Normal = Normal(def: Definition, status: ScheduleStatus)

  /**
   * Schedule.Normalized followed by prepare's refusal of `exhausted`.  `accepts` stands for the checks
   * on time zone, URL, payload and rule text that other components decide.
   */
  function Normalized(r: RawSchedule, accepts: Definition -> bool): Option<Normal> {
    var rule, timezone := Trim(r.rule), Trim(r.timezone);
    var d := Definition(
      if rule == "" then None else Some(rule),
      if r.runAt.None? then None else Some(r.runAt.value / 1_000_000),
      if timezone == "" then "UTC" else timezone,
      Trim(r.url), Or(r.verb, Post), if r.payload == "" then "{}" else r.payload,
      WithDefaults(r.retry), Or(r.misfire, FireOnce), OrDefault(r.catchUpLimit, 1), Or(r.overlap, Forbid));
    var status := Or(r.status, Active);
    if (rule == "") == r.runAt.None? || |rule| > 256 then None
    else if !ValidRetry(d.retry) then None
    else if d.misfire.CatchUpBounded? && !(1 <= d.catchUpLimit <= MAX_CATCH_UP) then None
    else if !d.misfire.CatchUpBounded? && d.catchUpLimit != 1 then None
    else if status.Exhausted? || !accepts(d) then None
    else Some(Normal(d, status))
  }

  /** A normalized schedule written back as a request. */
  function Raw(n: Normal): RawSchedule {
    RawSchedule(if n.def.rule.None? then "" else n.def.rule.value,
                if n.def.runAt.None? then None else Some(n.def.runAt.value * 1_000_000),
                n.def.timezone, n.def.url, Some(n.def.verb), n.def.payload, n.def.retry,
                Some(n.def.misfire), n.def.catchUpLimit, Some(n.def.overlap), Some(n.status))
  }

  /** The texts of a definition carry no blanks at their ends. */
  predicate TrimmedTexts(d: Definition) {
    (d.rule.Some? ==> Trimmed(d.rule.value)) && Trimmed(d.timezone) && Trimmed(d.url)
  }

  lemma TrimmedIsKept(s: string)
    ensures Trimmed(Trim(s)) && (Trimmed(s) ==> Trim(s) == s)
  {
    var a, b := TrimIsExact(s);
  }

  /** What prepare accepts is exactly what StartCommand demands, and normalizing again changes nothing. */
  lemma NormalizedIsPrepared(r: RawSchedule, accepts: Definition -> bool)
    requires Normalized(r, accepts).Some?
    ensures var n := Normalized(r, accepts).value;
            && ValidDefinition(n.def) && TrimmedTexts(n.def) && !n.status.Exhausted?
            && Normalized(Raw(n), accepts) == Some(n)
            && forall op, tenant, name, scope, key, digest, requestId | ValidTenant(tenant) && ValidName(name) ::
                 Prepared(Command(op, tenant, name, scope, key, digest, requestId, n.def, n.status))
  {
    var n := Normalized(r, accepts).value;
    TrimmedIsKept(r.rule);
    TrimmedIsKept(r.timezone);
    TrimmedIsKept(r.url);
    ValidDefinitionsAreAccepted(n.def, n.status, accepts);
  }

  /** Every valid definition with trimmed texts and a payload can be requested, and comes out unchanged. */
  lemma ValidDefinitionsAreAccepted(d: Definition, status: ScheduleStatus, accepts: Definition -> bool)
    requires ValidDefinition(d) && TrimmedTexts(d) && d.payload != "" && !status.Exhausted? && accepts(d)
    ensures Normalized(Raw(Normal(d, status)), accepts) == Some(Normal(d, status))
  {
    if d.runAt.Some? {
      assert (d.runAt.value * 1_000_000) / 1_000_000 == d.runAt.value;
    } else {
      TrimmedIsKept(d.rule.value);
    }
    TrimmedIsKept("");
    TrimmedIsKept(d.timezone);
    TrimmedIsKept(d.url);
  }

  /** Each field is what was asked for, or its default where nothing was asked. */
  lemma DefaultsAreFilledIn(r: RawSchedule, accepts: Definition -> bool)
    requires Normalized(r, accepts).Some?
    ensures var n := Normalized(r, accepts).value;
            && n.def.verb == (if r.verb.Some? then r.verb.value else Post)
            && n.def.misfire == (if r.misfire.Some? then r.misfire.value else FireOnce)
            && n.def.overlap == (if r.overlap.Some? then r.overlap.value else Forbid)
            && n.status == (if r.status.Some? then r.status.value else Active)
            && n.def.timezone == (if Trim(r.timezone) == "" then "UTC" else Trim(r.timezone))
            && n.def.payload == (if r.payload == "" then "{}" else r.payload)
            && n.def.catchUpLimit == (if r.catchUpLimit == 0 then 1 else r.catchUpLimit)
            && (r.retry.maxAttempts == 0 ==> n.def.retry.maxAttempts == 1)
            && (r.retry.backoffSeconds == 0 ==> n.def.retry.backoffSeconds == 1)
            && (r.retry.maxBackoffSeconds == 0 ==> n.def.retry.maxBackoffSeconds == 3600)
            && (r.retry.windowSeconds == 0 ==> n.def.retry.windowSeconds == 3600)
            && (r.runAt.Some? ==> n.def.runAt.Some? && 0 <= r.runAt.value - n.def.runAt.value * 1_000_000 < 1_000_000)
  {
  }

  /** And what was asked for in the retry policy stays. */
  lemma RetryIsKept(r: RawSchedule, accepts: Definition -> bool)
    requires Normalized(r, accepts).Some?
    ensures var p, q := r.retry, Normalized(r, accepts).value.def.retry;
            && (p.maxAttempts != 0 ==> q.maxAttempts == p.maxAttempts)
            && (p.backoffSeconds != 0 ==> q.backoffSeconds == p.backoffSeconds)
            && (p.maxBackoffSeconds != 0 ==> q.maxBackoffSeconds == p.maxBackoffSeconds)
            && (p.windowSeconds != 0 ==> q.windowSeconds == p.windowSeconds)
  {
  }

  predicate OrZero(v: int, lo: int, hi: int) {
    v == 0 || lo <= v <= hi
  }

  /**
   * Exactly what is accepted: one trigger, a rule of at most 256 characters, a retry policy within its
   * bounds, a catch-up limit that goes with the policy, a status other than exhausted, and what the other
   * components accept.
   */
  lemma AcceptanceIsExact(r: RawSchedule, accepts: Definition -> bool)
    requires forall d :: accepts(d)
    ensures Normalized(r, accepts).Some? <==>
              && (Trim(r.rule) != "" <==> r.runAt.None?) && |Trim(r.rule)| <= 256
              && OrZero(r.retry.maxAttempts, 1, 10) && OrZero(r.retry.backoffSeconds, 1, 3600)
              && (if r.retry.maxBackoffSeconds == 0 then true
                  else (if r.retry.backoffSeconds == 0 then 1 else r.retry.backoffSeconds)
                         <= r.retry.maxBackoffSeconds <= 3600)
              && OrZero(r.retry.windowSeconds, 1, 86400)
              && OrZero(r.catchUpLimit, 1, if r.misfire == Some(CatchUpBounded) then 100 else 1)
              && r.status != Some(Exhausted)
  {
  }
}
