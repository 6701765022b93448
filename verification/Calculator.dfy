/** The recurrence calculator: @every intervals and the minute-by-minute cron search, under any time zone. */
module Calculator {
  import opened Domain
  import opened Planner
  import opened Cron
  import Retry

  /** A parsed rule; intervals are whole milliseconds. */
  datatype Rule = Every(interval: int) | CronRule(e: Expression)

  const MINIMUM_INTERVAL := 1000
  const MAXIMUM_INTERVAL := 366 * 24 * 3600 * 1000

  predicate ValidRule(r: Rule) {
    r.Every? ==> MINIMUM_INTERVAL <= r.interval <= MAXIMUM_INTERVAL
  }

  /** The zone: which local fields each UTC minute has. Nothing else is known of it. */
  type Zone = int -> Local

  // ---- Cron search -----------------------------------------------------------------------------

  /** The least matching minute in [from, limit]. */
  function FirstMatch(e: Expression, zone: Zone, from: int, limit: int): Option<int>
    decreases limit + 1 - from
  {
    if from > limit then None
    else if Matches(e, zone(from)) then Some(from)
    else FirstMatch(e, zone, from + 1, limit)
  }

  lemma {:induction false} FirstMatchIsLeast(e: Expression, zone: Zone, from: int, limit: int)
    ensures var r := FirstMatch(e, zone, from, limit);
            && (r.Some? ==> from <= r.value <= limit && Matches(e, zone(r.value))
                            && forall u | from <= u < r.value :: !Matches(e, zone(u)))
            && (r.None? ==> forall u | from <= u <= limit :: !Matches(e, zone(u)))
    decreases limit + 1 - from
  {
    if from <= limit && !Matches(e, zone(from)) {
      FirstMatchIsLeast(e, zone, from + 1, limit);
    }
  }

  /** The minute the search starts at: the first whole one strictly after `after`. */
  function FirstCandidate(after: Instant): int {
    after / 60000 + 1
  }

  /** Last minute searched, given the first; the source looks ten calendar years ahead. */
  type Horizon = int -> int

  function CronNext(e: Expression, zone: Zone, horizon: Horizon, after: Instant): Option<Instant> {
    var c := FirstCandidate(after);
    var m := FirstMatch(e, zone, c, horizon(c));
    if m.None? then None else Some(m.value * 60000)
  }

  /** Calculator.Next on a cron rule, as the source runs it. */
  method SearchNext(e: Expression, zone: Zone, after: Instant) returns (r: Option<Instant>)
    ensures r == CronNext(e, zone, TenYearsLater, after)
  {
    var candidate := after / 60000 + 1;
    var limit := TenYearsLater(candidate);
    while candidate <= limit
      invariant FirstMatch(e, zone, candidate, limit) == FirstMatch(e, zone, FirstCandidate(after), limit)
      decreases limit + 1 - candidate
    {
      if Matches(e, zone(candidate)) {
        return Some(candidate * 60000);
      }
      candidate := candidate + 1;
    }
    return None;
  }

  /** Instant t is a whole UTC minute whose local fields match. */
  predicate Fires(e: Expression, zone: Zone, t: Instant) {
    t % 60000 == 0 && Matches(e, zone(t / 60000))
  }

  lemma WholeMinutes(after: Instant, t: Instant)
    requires t % 60000 == 0
    ensures t > after <==> t / 60000 >= FirstCandidate(after)
  {
  }

  lemma MinuteStarts(m: int)
    ensures (m * 60000) % 60000 == 0 && (m * 60000) / 60000 == m
  {
  }

  /**
   * Whatever the zone, a returned instant is the least whole UTC minute strictly after the input whose
   * local fields match, and an error means that no minute up to the horizon matches.
   */
  lemma CronNextIsLeast(e: Expression, zone: Zone, horizon: Horizon, after: Instant)
    ensures var r := CronNext(e, zone, horizon, after);
            && (r.Some? ==> r.value > after && Fires(e, zone, r.value) && forall t | after < t < r.value ::
                  !Fires(e, zone, t))
            && (r.None? ==> forall t | after < t <= horizon(FirstCandidate(after)) * 60000 :: !Fires(e, zone, t))
  {
    var c := FirstCandidate(after);
    FirstMatchIsLeast(e, zone, c, horizon(c));
    var m := FirstMatch(e, zone, c, horizon(c));
    if m.Some? {
      MinuteStarts(m.value);
      WholeMinutes(after, m.value * 60000);
    }
    forall t | after < t && t % 60000 == 0
      ensures t / 60000 >= c
      ensures m.Some? && t < m.value * 60000 ==> t / 60000 < m.value
      ensures t <= horizon(c) * 60000 ==> t / 60000 <= horizon(c)
    {
      WholeMinutes(after, t);
    }
  }

  /** Every accepted rule has a next instant in UTC, from any start: the search never fails on it. */
  lemma AcceptedUtcRuleAlwaysFires(e: Expression, after: Instant)
    requires WellFormed(e) && Feasible(e)
    ensures CronNext(e, UtcLocal, TenYearsLater, after).Some?
  {
    var c := FirstCandidate(after);
    var t := AcceptedRuleMatches(e, c);
    FirstMatchIsLeast(e, UtcLocal, c, TenYearsLater(c));
  }

  // ---- The interval formula on 64-bit durations ------------------------------------------------

  lemma QuotientSteps(a: int, k: int)
    requires a >= 0 && k > 0
    ensures (a / k) * k <= a < (a / k + 1) * k
  {
    assert (a / k + 1) * k == (a / k) * k + k;
  }

  /** Wrap-around of a signed 64-bit product. */
  function Wrap(v: int): int {
    (v + 0x8000_0000_0000_0000) % 0x1_0000_0000_0000_0000 - 0x8000_0000_0000_0000
  }

  /** threshold.Sub(anchor) saturates; steps * interval wraps. All in nanoseconds. */
  function MachineEveryNextAfter(interval: int, anchor: Instant, threshold: Instant): int
    requires interval > 0
  {
    if anchor > threshold then anchor * Retry.MILLISECOND
    else
      var elapsed := Min((threshold - anchor) * Retry.MILLISECOND, Retry.MAX_INT64);
      var steps := elapsed / (interval * Retry.MILLISECOND) + 1;
      anchor * Retry.MILLISECOND + Wrap(steps * (interval * Retry.MILLISECOND))
  }

  /** Nanosecond and millisecond quotients agree. */
  lemma ScaledQuotient(a: int, k: int)
    requires a >= 0 && k > 0
    ensures (a * Retry.MILLISECOND) / (k * Retry.MILLISECOND) == a / k
  {
    var q := a / k;
    QuotientSteps(a, k);
    var A, K := a * Retry.MILLISECOND, k * Retry.MILLISECOND;
    assert q * K == (q * k) * Retry.MILLISECOND;
    assert (q + 1) * K == ((q + 1) * k) * Retry.MILLISECOND;
    QuotientSteps(A, K);
    QuotientIsUnique(A, K, q, A / K);
  }

  lemma QuotientIsUnique(a: int, k: int, p: int, q: int)
    requires k > 0 && p * k <= a < (p + 1) * k && q * k <= a < (q + 1) * k
    ensures p == q
  {
    if p < q {
      Retry.MulMonotone(p + 1, q, k);
    } else if q < p {
      Retry.MulMonotone(q + 1, p, k);
    }
  }

  /** The distance the closed form has to add, in nanoseconds: the downtime rounded up past the threshold. */
  function Distance(interval: int, anchor: Instant, threshold: Instant): int
    requires interval > 0
  {
    ((threshold - anchor) / interval + 1) * interval * Retry.MILLISECOND
  }

  /** What the 64-bit computation adds: the distance if it fits, and otherwise something negative. */
  lemma MachineDistance(interval: int, anchor: Instant, threshold: Instant)
    requires ValidRule(Every(interval)) && anchor <= threshold
    ensures var added := MachineEveryNextAfter(interval, anchor, threshold) - anchor * Retry.MILLISECOND;
            var distance := Distance(interval, anchor, threshold);
            if distance <= Retry.MAX_INT64 then added == distance else added < 0
    ensures Distance(interval, anchor, threshold) > (threshold - anchor) * Retry.MILLISECOND
  {
    var a := threshold - anchor;
    var K := interval * Retry.MILLISECOND;
    var exact := Distance(interval, anchor, threshold);
    assert exact == (a / interval + 1) * K;
    QuotientSteps(a, interval);
    ScaledQuotient(a, interval);
    var elapsed := Min(a * Retry.MILLISECOND, Retry.MAX_INT64);
    var product := (elapsed / K + 1) * K;
    QuotientSteps(elapsed, K);
    assert product <= elapsed + K by { assert (elapsed / K + 1) * K == (elapsed / K) * K + K; }
    assert exact > a * Retry.MILLISECOND;
    if a * Retry.MILLISECOND <= Retry.MAX_INT64 {
      assert product == exact;
    }
    assert K <= 366 * 24 * 3600 * 1000 * Retry.MILLISECOND;
    assert 0 < product < Retry.MAX_INT64 + K + 1 < 0x1_0000_0000_0000_0000;
    if product <= Retry.MAX_INT64 {
      assert Wrap(product) == product;
    } else {
      assert Wrap(product) == product - 0x1_0000_0000_0000_0000 < 0;
    }
  }

  /**
   * The 64-bit computation gives the exact result, and one after the threshold, precisely when the
   * distance it has to add is at most 2^63 - 1 nanoseconds (about 292 years).  Otherwise the result
   * lies before the anchor.
   */
  lemma MachineIntervalIsExact(interval: int, anchor: Instant, threshold: Instant)
    requires ValidRule(Every(interval)) && anchor <= threshold
    ensures var r := MachineEveryNextAfter(interval, anchor, threshold);
            var fits := Distance(interval, anchor, threshold) <= Retry.MAX_INT64;
            && (r == (anchor + ((threshold - anchor) / interval + 1) * interval) * Retry.MILLISECOND <==> fits)
            && (r > threshold * Retry.MILLISECOND <==> fits)
            && (r < anchor * Retry.MILLISECOND <==> !fits)
  {
    MachineDistance(interval, anchor, threshold);
    var k := (threshold - anchor) / interval + 1;
    assert (anchor + k * interval) * Retry.MILLISECOND == anchor * Retry.MILLISECOND + k * interval * Retry.MILLISECOND;
  }

  /** An anchor 2^63 nanoseconds back: the next instant of @every 1s lies before the threshold, and before 1970. */
  lemma MachineIntervalCanGoBack()
    ensures var r := MachineEveryNextAfter(1000, 0, 9_223_372_036_854);
            r < 0 < 9_223_372_036_854 * Retry.MILLISECOND
  {
    assert Wrap(9_223_372_037_000_000_000) < 0;
  }

  // ---- Next and NextAfter ----------------------------------------------------------------------

  function Next(r: Rule, zone: Zone, horizon: Horizon, after: Instant): Option<Instant> {
    if r.Every? then Some(after + r.interval) else CronNext(r.e, zone, horizon, after)
  }

  /** The 64-bit closed form, truncated to milliseconds, or the cron search from the threshold. */
  function NextAfter(r: Rule, zone: Zone, horizon: Horizon, anchor: Instant, threshold: Instant): Option<Instant>
    requires ValidRule(r)
  {
    if r.Every? then Some(MachineEveryNextAfter(r.interval, anchor, threshold) / Retry.MILLISECOND)
    else CronNext(r.e, zone, horizon, threshold)
  }

  /** The jump from anchor past threshold stays within 64 bits; a cron search does no such arithmetic. */
  predicate JumpFits(r: Rule, anchor: Instant, threshold: Instant)
    requires ValidRule(r)
  {
    r.Every? ==> Distance(r.interval, anchor, threshold) <= Retry.MAX_INT64
  }

  ghost predicate ProperParser(parse: string -> Option<Rule>) {
    forall rule :: parse(rule).Some? ==> ValidRule(parse(rule).value)
  }

  /** The port the planner uses, for any parser of rules and any zone database. */
  ghost function RecurrenceOf(parse: string -> Option<Rule>, zones: string -> Zone, horizon: Horizon): Recurrence
    requires ProperParser(parse)
  {
    Recurrence((rule: string, tz: string, after: Instant) =>
                 if parse(rule).None? then None else Next(parse(rule).value, zones(tz), horizon, after),
               (rule: string, tz: string, anchor: Instant, threshold: Instant) =>
                 if parse(rule).None? || !ValidRule(parse(rule).value) then None
                 else NextAfter(parse(rule).value, zones(tz), horizon, anchor, threshold))
  }

  lemma NextMovesForward(r: Rule, zone: Zone, horizon: Horizon, after: Instant)
    requires ValidRule(r)
    ensures Next(r, zone, horizon, after).Some? ==> Next(r, zone, horizon, after).value > after
  {
    if r.CronRule? {
      CronNextIsLeast(r.e, zone, horizon, after);
    }
  }

  /** Next is always after its input. */
  lemma CalculatorStepsForward(parse: string -> Option<Rule>, zones: string -> Zone, horizon: Horizon)
    requires ProperParser(parse)
    ensures StepsForward(RecurrenceOf(parse, zones, horizon))
  {
    var rec := RecurrenceOf(parse, zones, horizon);
    forall rule, tz, a ensures rec.next(rule, tz, a).Some? ==> rec.next(rule, tz, a).value > a {
      if parse(rule).Some? {
        NextMovesForward(parse(rule).value, zones(tz), horizon, a);
      }
    }
  }

  lemma EveryJump(interval: int, anchor: Instant, threshold: Instant)
    requires ValidRule(Every(interval)) && anchor <= threshold
    ensures var v := MachineEveryNextAfter(interval, anchor, threshold) / Retry.MILLISECOND;
            var exact := anchor + ((threshold - anchor) / interval + 1) * interval;
            && exact > threshold
            && (if Distance(interval, anchor, threshold) <= Retry.MAX_INT64 then v == exact else v < anchor)
  {
    MachineIntervalIsExact(interval, anchor, threshold);
    QuotientSteps(threshold - anchor, interval);
  }

  /** NextAfter is past its threshold if and only if its jump fits 64 bits. */
  lemma NextAfterIsForward(r: Rule, zone: Zone, horizon: Horizon, anchor: Instant, threshold: Instant)
    requires ValidRule(r) && anchor <= threshold && NextAfter(r, zone, horizon, anchor, threshold).Some?
    ensures NextAfter(r, zone, horizon, anchor, threshold).value > threshold <==> JumpFits(r, anchor, threshold)
  {
    if r.CronRule? {
      CronNextIsLeast(r.e, zone, horizon, threshold);
    } else {
      EveryJump(r.interval, anchor, threshold);
    }
  }

  // ---- NextAfter refines repeated Next ---------------------------------------------------------

  lemma {:induction false} EveryOrbit(rec: Recurrence, rule: string, tz: string, interval: int, from: Instant, k: nat)
    requires forall a :: rec.next(rule, tz, a) == Some(a + interval)
    ensures Orbit(rec, rule, tz, from, k) == Some(from + k * interval)
  {
    if k > 0 {
      EveryOrbit(rec, rule, tz, interval, from, k - 1);
      assert from + (k - 1) * interval + interval == from + k * interval;
    }
  }

  /** The closed form for intervals is the first orbit element past the threshold, in the anchor's phase. */
  lemma EveryNextAfterIsOrbit(
    rec: Recurrence, rule: string, tz: string, interval: int, anchor: Instant, threshold: Instant)
    requires interval > 0 && anchor <= threshold
    requires forall a :: rec.next(rule, tz, a) == Some(a + interval)
    ensures var k := (threshold - anchor) / interval + 1;
            && IsFirstPast(rec, rule, tz, anchor, threshold, k)
            && Orbit(rec, rule, tz, anchor, k) == Some(anchor + k * interval)
  {
    var k := (threshold - anchor) / interval + 1;
    QuotientSteps(threshold - anchor, interval);
    EveryOrbit(rec, rule, tz, interval, anchor, k);
    forall j: nat | j < k
      ensures Orbit(rec, rule, tz, anchor, j).Some? && Orbit(rec, rule, tz, anchor, j).value <= threshold
    {
      EveryOrbit(rec, rule, tz, interval, anchor, j);
      Retry.MulMonotone(j, k - 1, interval);
    }
  }

  /** Orbit elements of a cron rule fire, and nothing fires between neighbours. */
  lemma CronOrbitStep(
    rec: Recurrence, rule: string, tz: string, e: Expression, zone: Zone, horizon: Horizon, from: Instant, k: nat)
    requires forall a :: rec.next(rule, tz, a) == CronNext(e, zone, horizon, a)
    requires k > 0 && Orbit(rec, rule, tz, from, k).Some?
    ensures Orbit(rec, rule, tz, from, k - 1).Some?
    ensures var a, b := Orbit(rec, rule, tz, from, k - 1).value, Orbit(rec, rule, tz, from, k).value;
            a < b && Fires(e, zone, b) && forall t | a < t < b :: !Fires(e, zone, t)
  {
    CronNextIsLeast(e, zone, horizon, Orbit(rec, rule, tz, from, k - 1).value);
  }

  /**
   * The orbit of a cron rule misses no firing: walking from `from` reaches each later instant t that
   * fires, unless some search on the way gives up because t lies beyond its horizon.
   */
  lemma {:induction false} CronOrbitReaches(
    rec: Recurrence, rule: string, tz: string, e: Expression, zone: Zone, horizon: Horizon, from: Instant, t: Instant)
    returns (k: nat)
    requires forall a :: rec.next(rule, tz, a) == CronNext(e, zone, horizon, a)
    requires from < t && Fires(e, zone, t)
    ensures Orbit(rec, rule, tz, from, k).Some? && from <= Orbit(rec, rule, tz, from, k).value
    ensures Orbit(rec, rule, tz, from, k) == Some(t)
              || GivesUpBefore(e, zone, horizon, Orbit(rec, rule, tz, from, k).value, t)
    decreases t - from
  {
    CronNextIsLeast(e, zone, horizon, from);
    var next := CronNext(e, zone, horizon, from);
    assert Orbit(rec, rule, tz, from, 0) == Some(from);
    if next.None? {
      k := 0;
    } else if next.value == t {
      assert Orbit(rec, rule, tz, from, 1) == next;
      k := 1;
    } else {
      var j := CronOrbitReaches(rec, rule, tz, e, zone, horizon, next.value, t);
      assert Orbit(rec, rule, tz, from, 1) == next;
      OrbitCompose(rec, rule, tz, from, 1, j);
      k := 1 + j;
    }
  }

  /** The search from a finds nothing, and t was too far away for it. */
  ghost predicate GivesUpBefore(e: Expression, zone: Zone, horizon: Horizon, a: Instant, t: Instant) {
    a < t && CronNext(e, zone, horizon, a).None? && horizon(FirstCandidate(a)) * 60000 < t
  }

  /**
   * Daylight saving, for every rule: a local time that two UTC minutes show fires at both, as two
   * distinct elements of the orbit, whatever else the rule matches before, between or after them.
   */
  lemma RepeatedLocalTimeFiresTwice(
    rec: Recurrence, rule: string, tz: string, e: Expression, zone: Zone, horizon: Horizon, from: Instant,
    first: int, second: int) returns (j: nat, k: nat)
    requires forall a :: rec.next(rule, tz, a) == CronNext(e, zone, horizon, a)
    requires from < first * 60000 && first < second
    requires zone(first) == zone(second) && Matches(e, zone(first))
    ensures Orbit(rec, rule, tz, from, j).Some? && Orbit(rec, rule, tz, from, k).Some?
    ensures || (j < k && Orbit(rec, rule, tz, from, j) == Some(first * 60000)
              && Orbit(rec, rule, tz, from, k) == Some(second * 60000))
            || GivesUpBefore(e, zone, horizon, Orbit(rec, rule, tz, from, k).value, second * 60000)
  {
    MinuteStarts(first);
    MinuteStarts(second);
    j := CronOrbitReaches(rec, rule, tz, e, zone, horizon, from, first * 60000);
    if Orbit(rec, rule, tz, from, j) == Some(first * 60000) {
      var l := CronOrbitReaches(rec, rule, tz, e, zone, horizon, first * 60000, second * 60000);
      OrbitCompose(rec, rule, tz, from, j, l);
      k := j + l;
    } else {
      k := j;
    }
  }

  /**
   * The orbit past its start is exactly the set of firings, as far as no search gives up: a local time
   * that no minute shows is never returned, and no minute that matches is passed over.
   */
  lemma CronOrbitIsExact(
    rec: Recurrence, rule: string, tz: string, e: Expression, zone: Zone, horizon: Horizon, from: Instant, t: Instant)
    requires forall a :: rec.next(rule, tz, a) == CronNext(e, zone, horizon, a)
    requires from < t && forall a | from <= a < t :: !GivesUpBefore(e, zone, horizon, a, t)
    ensures Fires(e, zone, t) <==> exists k: nat :: Orbit(rec, rule, tz, from, k) == Some(t)
  {
    if Fires(e, zone, t) {
      var k := CronOrbitReaches(rec, rule, tz, e, zone, horizon, from, t);
    }
    if k: nat :| Orbit(rec, rule, tz, from, k) == Some(t) {
      CronOrbitStep(rec, rule, tz, e, zone, horizon, from, k);
    }
  }

  /** For an accepted rule in UTC no search gives up, so the orbit past its start is exactly the set of firings. */
  lemma UtcOrbitIsExact(rec: Recurrence, rule: string, tz: string, e: Expression, from: Instant, t: Instant)
    requires WellFormed(e) && Feasible(e) && from < t
    requires forall a :: rec.next(rule, tz, a) == CronNext(e, UtcLocal, TenYearsLater, a)
    ensures Fires(e, UtcLocal, t) <==> exists k: nat :: Orbit(rec, rule, tz, from, k) == Some(t)
  {
    forall a | from <= a < t ensures !GivesUpBefore(e, UtcLocal, TenYearsLater, a, t) {
      AcceptedUtcRuleAlwaysFires(e, a);
    }
    CronOrbitIsExact(rec, rule, tz, e, UtcLocal, TenYearsLater, from, t);
  }

  /** For cron, searching from the threshold finds what walking from the anchor finds. */
  lemma CronNextAfterIsOrbit(
    rec: Recurrence, rule: string, tz: string, e: Expression, zone: Zone, horizon: Horizon, anchor: Instant,
    threshold: Instant, k: nat)
    requires forall a :: rec.next(rule, tz, a) == CronNext(e, zone, horizon, a)
    requires anchor <= threshold && IsFirstPast(rec, rule, tz, anchor, threshold, k)
               && CronNext(e, zone, horizon, threshold).Some?
    ensures CronNext(e, zone, horizon, threshold) == Orbit(rec, rule, tz, anchor, k)
  {
    assert k > 0;
    CronOrbitStep(rec, rule, tz, e, zone, horizon, anchor, k);
    CronNextIsLeast(e, zone, horizon, threshold);
    assert Orbit(rec, rule, tz, anchor, k - 1).value <= threshold;
  }

  /**
   * What the source computes for an interval is the first instant past the threshold that iterating
   * Next from the anchor reaches, if and only if the distance to it fits 64 bits.
   */
  lemma MachineNextAfterIsOrbit(
    rec: Recurrence, rule: string, tz: string, interval: int, anchor: Instant, threshold: Instant) returns (k: nat)
    requires ValidRule(Every(interval)) && anchor <= threshold
    requires forall a :: rec.next(rule, tz, a) == Some(a + interval)
    ensures IsFirstPast(rec, rule, tz, anchor, threshold, k)
    ensures MachineEveryNextAfter(interval, anchor, threshold)
              == Orbit(rec, rule, tz, anchor, k).value * Retry.MILLISECOND
            <==> Distance(interval, anchor, threshold) <= Retry.MAX_INT64
  {
    k := (threshold - anchor) / interval + 1;
    EveryNextAfterIsOrbit(rec, rule, tz, interval, anchor, threshold);
    MachineIntervalIsExact(interval, anchor, threshold);
  }

  /** A jump of an interval rule to v is exact if it is k intervals long, and not if it lies before the anchor. */
  lemma SkipsAheadIfRight(
    rec: Recurrence, rule: string, tz: string, interval: int, a: Instant, t: Instant, v: Instant, right: bool)
    requires interval > 0 && a <= t && forall x :: rec.next(rule, tz, x) == Some(x + interval)
    requires rec.nextAfter(rule, tz, a, t) == Some(v)
    requires if right then v == a + ((t - a) / interval + 1) * interval else v < a
    ensures SkipsAheadAt(rec, rule, tz, a, t) <==> right
  {
    var k := (t - a) / interval + 1;
    EveryNextAfterIsOrbit(rec, rule, tz, interval, a, t);
    JumpOverRest(rec, rule, tz, a, t, 0, k);
    assert Orbit(rec, rule, tz, a, k).value > t;
  }

  lemma EverySkipsAhead(rec: Recurrence, rule: string, tz: string, interval: int, a: Instant, t: Instant)
    requires ValidRule(Every(interval)) && a <= t && forall x :: rec.next(rule, tz, x) == Some(x + interval)
    requires rec.nextAfter(rule, tz, a, t) == Some(MachineEveryNextAfter(interval, a, t) / Retry.MILLISECOND)
    ensures SkipsAheadAt(rec, rule, tz, a, t) <==> Distance(interval, a, t) <= Retry.MAX_INT64
  {
    EveryJump(interval, a, t);
    SkipsAheadIfRight(rec, rule, tz, interval, a, t, MachineEveryNextAfter(interval, a, t) / Retry.MILLISECOND,
                      Distance(interval, a, t) <= Retry.MAX_INT64);
  }

  lemma CronSkipsAhead(
    rec: Recurrence, rule: string, tz: string, e: Expression, zone: Zone, horizon: Horizon, a: Instant, t: Instant)
    requires a <= t && forall x :: rec.next(rule, tz, x) == CronNext(e, zone, horizon, x)
    requires rec.nextAfter(rule, tz, a, t) == CronNext(e, zone, horizon, t)
    ensures SkipsAheadAt(rec, rule, tz, a, t)
  {
    if CronNext(e, zone, horizon, t).Some? {
      forall j: nat | IsFirstPast(rec, rule, tz, a, t, j)
        ensures rec.nextAfter(rule, tz, a, t) == Orbit(rec, rule, tz, a, j)
      {
        CronNextAfterIsOrbit(rec, rule, tz, e, zone, horizon, a, t, j);
      }
    }
  }

  /**
   * NextAfter agrees with iterating Next, for every rule, zone, anchor and threshold, if and only if
   * its jump fits 64 bits.
   */
  lemma CalculatorSkipsAhead(
    parse: string -> Option<Rule>, zones: string -> Zone, horizon: Horizon, rule: string, tz: string,
    a: Instant, t: Instant)
    requires ProperParser(parse) && parse(rule).Some? && a <= t
    ensures SkipsAheadAt(RecurrenceOf(parse, zones, horizon), rule, tz, a, t) <==> JumpFits(parse(rule).value, a, t)
  {
    var rec := RecurrenceOf(parse, zones, horizon);
    var r := parse(rule).value;
    if r.Every? {
      EverySkipsAhead(rec, rule, tz, r.interval, a, t);
    } else {
      CronSkipsAhead(rec, rule, tz, r.e, zones(tz), horizon, a, t);
    }
  }
}
