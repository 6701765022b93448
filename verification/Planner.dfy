/** Planning: from a due schedule to the occurrences to record and the next due instant. */
module Planner {
  import opened Domain

  /** The recurrence port: successor of an instant, and first instant past a threshold. None is an error. */
  datatype Recurrence = Recurrence(
    next: (string, string, Instant) -> Option<Instant>,
    nextAfter: (string, string, Instant, Instant) -> Option<Instant>)

  datatype Plan = Plan(
    scheduledAt: Instant, observedAt: Instant, status: OccurrenceStatus,
    outcome: Code, missedCount: int, dispatch: bool)

  datatype PlanResult = PlanError | Planned(plans: seq<Plan>, next: Option<Instant>)

  function DispatchPlan(at: Instant, now: Instant): Plan {
    Plan(at, now, OccPending, NoCode, 1, true)
  }

  function SkipPlan(at: Instant, now: Instant, code: Code): Plan {
    Plan(at, now, OccSkipped, code, 1, false)
  }

  /** The plan a forbidden overlap turns into. */
  function Blocked(p: Plan): Plan {
    p.(dispatch := false, status := OccSkipped, outcome := OverlapBlocked)
  }

  function WithNext(plans: seq<Plan>, next: Option<Instant>): PlanResult {
    if next.None? then PlanError else Planned(plans, next)
  }

  function RuleOf(d: Definition): (rule: string)
    ensures d.rule.Some? ==> rule == d.rule.value
  {
    if d.rule.Some? then d.rule.value else ""
  }

  function PlanSchedule(rec: Recurrence, d: Definition, nextDue: Option<Instant>, now: Instant): PlanResult {
    if nextDue.None? || nextDue.value > now then Planned([], nextDue)
    else
      var due := nextDue.value;
      if d.runAt.Some? then
        var missed := due < now && d.misfire.Skip?;
        Planned([if missed then SkipPlan(due, now, MisfireSkipped) else DispatchPlan(due, now)], None)
      else if due == now then
        WithNext([DispatchPlan(due, now)], rec.next(RuleOf(d), d.timezone, due))
      else
        match d.misfire
        case Skip => WithNext([SkipPlan(due, now, MisfireSkipped)], rec.nextAfter(RuleOf(d), d.timezone, due, now))
        case FireOnce => WithNext([DispatchPlan(due, now)], rec.nextAfter(RuleOf(d), d.timezone, due, now))
        case CatchUpBounded => CatchUp(rec, d, due, now, [])
  }

  /** The catch-up loop from `candidate` on, with `plans` already collected. */
  function CatchUp(rec: Recurrence, d: Definition, candidate: Instant, now: Instant, plans: seq<Plan>): PlanResult
    decreases d.catchUpLimit - |plans|
  {
    if |plans| < d.catchUpLimit && candidate <= now then
      var next := rec.next(RuleOf(d), d.timezone, candidate);
      if next.None? then PlanError
      else CatchUp(rec, d, next.value, now, plans + [DispatchPlan(candidate, now)])
    else if candidate <= now then
      WithNext(plans + [SkipPlan(candidate, now, MisfireBoundExceeded)],
               rec.nextAfter(RuleOf(d), d.timezone, candidate, now))
    else Planned(plans, Some(candidate))
  }

  /** boundedCatchUp as the source runs it: a loop that grows `plans` and moves `candidate`. */
  method BoundedCatchUp(rec: Recurrence, d: Definition, due: Instant, now: Instant) returns (r: PlanResult)
    ensures r == CatchUp(rec, d, due, now, [])
  {
    var plans: seq<Plan> := [];
    var candidate := due;
    while |plans| < d.catchUpLimit && candidate <= now
      invariant CatchUp(rec, d, candidate, now, plans) == CatchUp(rec, d, due, now, [])
      decreases d.catchUpLimit - |plans|
    {
      plans := plans + [DispatchPlan(candidate, now)];
      var next := rec.next(RuleOf(d), d.timezone, candidate);
      if next.None? {
        return PlanError;
      }
      candidate := next.value;
    }
    if candidate <= now {
      plans := plans + [SkipPlan(candidate, now, MisfireBoundExceeded)];
      var next := rec.nextAfter(RuleOf(d), d.timezone, candidate, now);
      return WithNext(plans, next);
    }
    return Planned(plans, Some(candidate));
  }

  // ---- The recurrence as an orbit --------------------------------------------------------------

  /** The k-th instant of the recurrence that starts at `from`; None once the calculator fails. */
  function Orbit(rec: Recurrence, rule: string, tz: string, from: Instant, k: nat): Option<Instant>
    decreases k
  {
    if k == 0 then Some(from)
    else
      var prev := Orbit(rec, rule, tz, from, k - 1);
      if prev.None? then None else rec.next(rule, tz, prev.value)
  }

  /** Successors move strictly forward. */
  ghost predicate StepsForward(rec: Recurrence) {
    forall rule, tz, a :: rec.next(rule, tz, a).Some? ==> rec.next(rule, tz, a).value > a
  }

  /** Orbit element k is the first one after `threshold`. */
  ghost predicate IsFirstPast(rec: Recurrence, rule: string, tz: string, from: Instant, threshold: Instant, k: nat) {
    && Orbit(rec, rule, tz, from, k).Some?
    && Orbit(rec, rule, tz, from, k).value > threshold
    && forall j: nat | j < k :: Orbit(rec, rule, tz, from, j).Some? && Orbit(rec, rule, tz, from, j).value <= threshold
  }

  /** At this anchor and threshold nextAfter agrees with walking the orbit until it passes the threshold. */
  ghost predicate SkipsAheadAt(rec: Recurrence, rule: string, tz: string, a: Instant, t: Instant) {
    rec.nextAfter(rule, tz, a, t).Some? ==>
      forall k: nat | IsFirstPast(rec, rule, tz, a, t, k) :: rec.nextAfter(rule, tz, a, t) == Orbit(rec, rule, tz, a, k)
  }

  lemma FirstPastIsUnique(
    rec: Recurrence, rule: string, tz: string, from: Instant, threshold: Instant, j: nat, k: nat)
    requires IsFirstPast(rec, rule, tz, from, threshold, j) && IsFirstPast(rec, rule, tz, from, threshold, k)
    ensures j == k
  {
  }

  lemma {:induction false} OrbitCompose(rec: Recurrence, rule: string, tz: string, from: Instant, j: nat, k: nat)
    requires Orbit(rec, rule, tz, from, j).Some?
    ensures Orbit(rec, rule, tz, from, j + k) == Orbit(rec, rule, tz, Orbit(rec, rule, tz, from, j).value, k)
  {
    if k > 0 {
      OrbitCompose(rec, rule, tz, from, j, k - 1);
    }
  }

  lemma {:induction false} OrbitDefined(rec: Recurrence, rule: string, tz: string, from: Instant, j: nat, k: nat)
    requires j <= k && Orbit(rec, rule, tz, from, k).Some?
    ensures Orbit(rec, rule, tz, from, j).Some?
  {
    if j < k {
      OrbitDefined(rec, rule, tz, from, j, k - 1);
    }
  }

  lemma {:induction false} OrbitIncreases(rec: Recurrence, rule: string, tz: string, from: Instant, j: nat, k: nat)
    requires StepsForward(rec) && j < k && Orbit(rec, rule, tz, from, k).Some?
    ensures Orbit(rec, rule, tz, from, j).Some?
    ensures Orbit(rec, rule, tz, from, j).value < Orbit(rec, rule, tz, from, k).value
  {
    OrbitDefined(rec, rule, tz, from, k - 1, k);
    if j < k - 1 {
      OrbitIncreases(rec, rule, tz, from, j, k - 1);
    }
  }

  // ---- Bounded catch-up is a prefix of the recurrence ------------------------------------------

  /** Orbit element i as the plan the catch-up makes of it. */
  function ExpectedPlan(rec: Recurrence, d: Definition, due: Instant, now: Instant, i: nat): Plan
    requires Orbit(rec, RuleOf(d), d.timezone, due, i).Some?
  {
    var at := Orbit(rec, RuleOf(d), d.timezone, due, i).value;
    if i < d.catchUpLimit then DispatchPlan(at, now) else SkipPlan(at, now, MisfireBoundExceeded)
  }

  /**
   * With n recurrence instants in [due, now], the plans are the first min(n, limit + 1) of them in
   * order, all dispatching but a last bound-exceeded skip when n > limit.  The next due instant is the
   * first one after now if and only if nothing was left out or the jump over the unlisted rest is exact.
   * Only that jump can fail.
   */
  lemma CatchUpIsPrefix(rec: Recurrence, d: Definition, due: Instant, now: Instant, n: nat)
    requires d.catchUpLimit >= 1 && IsFirstPast(rec, RuleOf(d), d.timezone, due, now, n)
    ensures n > d.catchUpLimit ==> Orbit(rec, RuleOf(d), d.timezone, due, d.catchUpLimit).Some?
    ensures CatchUp(rec, d, due, now, []).PlanError? ==> n > d.catchUpLimit
    ensures var r := CatchUp(rec, d, due, now, []);
            r.Planned? ==>
              && |r.plans| == Min(n, d.catchUpLimit + 1)
              && (forall i: nat | i < |r.plans| ::
                    Orbit(rec, RuleOf(d), d.timezone, due, i).Some? && r.plans[i] == ExpectedPlan(rec, d, due, now, i))
              && (r.next == Orbit(rec, RuleOf(d), d.timezone, due, n) <==>
                    || n <= d.catchUpLimit
                    || SkipsAheadAt(rec, RuleOf(d), d.timezone,
                                    Orbit(rec, RuleOf(d), d.timezone, due, d.catchUpLimit).value, now))
  {
    CatchUpFrom(rec, d, due, now, n, 0, []);
    if n > d.catchUpLimit {
      var rule, tz, l := RuleOf(d), d.timezone, d.catchUpLimit;
      OrbitDefined(rec, rule, tz, due, l, n);
      JumpOverRest(rec, rule, tz, due, now, l, n);
    }
  }

  /** From element j the first instant past the threshold is n - j elements away, and nothing else is. */
  lemma JumpOverRest(rec: Recurrence, rule: string, tz: string, from: Instant, threshold: Instant, j: nat, n: nat)
    requires j <= n && IsFirstPast(rec, rule, tz, from, threshold, n) && Orbit(rec, rule, tz, from, j).Some?
    ensures var x := Orbit(rec, rule, tz, from, j).value;
            rec.nextAfter(rule, tz, x, threshold).Some? ==>
              (SkipsAheadAt(rec, rule, tz, x, threshold) <==>
                 rec.nextAfter(rule, tz, x, threshold) == Orbit(rec, rule, tz, from, n))
  {
    var x := Orbit(rec, rule, tz, from, j).value;
    RestIsFirstPast(rec, rule, tz, from, threshold, j, n);
    OrbitCompose(rec, rule, tz, from, j, n - j);
    forall k: nat | IsFirstPast(rec, rule, tz, x, threshold, k) ensures k == n - j {
      FirstPastIsUnique(rec, rule, tz, x, threshold, k, n - j);
    }
  }

  lemma {:induction false} CatchUpFrom(
    rec: Recurrence, d: Definition, due: Instant, now: Instant, n: nat, k: nat, plans: seq<Plan>)
    requires d.catchUpLimit >= 1 && IsFirstPast(rec, RuleOf(d), d.timezone, due, now, n)
    requires k <= n && k <= d.catchUpLimit && |plans| == k
    requires Orbit(rec, RuleOf(d), d.timezone, due, k).Some?
    requires forall i: nat | i < k ::
               Orbit(rec, RuleOf(d), d.timezone, due, i).Some? && plans[i] == ExpectedPlan(rec, d, due, now, i)
    ensures n > d.catchUpLimit ==> Orbit(rec, RuleOf(d), d.timezone, due, d.catchUpLimit).Some?
    ensures var rule, tz, l := RuleOf(d), d.timezone, d.catchUpLimit;
            var r := CatchUp(rec, d, Orbit(rec, rule, tz, due, k).value, now, plans);
            && (r.PlanError? ==> n > l)
            && (r.Planned? ==>
                  && |r.plans| == Min(n, l + 1) && r.next.Some?
                  && r.next == (if n <= l then Orbit(rec, rule, tz, due, n)
                                else rec.nextAfter(rule, tz, Orbit(rec, rule, tz, due, l).value, now))
                  && forall i: nat | i < |r.plans| ::
                       Orbit(rec, rule, tz, due, i).Some? && r.plans[i] == ExpectedPlan(rec, d, due, now, i))
    decreases d.catchUpLimit - k
  {
    var rule, tz := RuleOf(d), d.timezone;
    var x := Orbit(rec, rule, tz, due, k).value;
    if n > d.catchUpLimit {
      OrbitDefined(rec, rule, tz, due, d.catchUpLimit, n);
    }
    if k < d.catchUpLimit && x <= now {
      assert k < n;
      OrbitDefined(rec, rule, tz, due, k + 1, n);
      CatchUpFrom(rec, d, due, now, n, k + 1, plans + [DispatchPlan(x, now)]);
    } else if x <= now {
      assert k == d.catchUpLimit < n;
    } else {
      assert k == n;
    }
  }

  lemma RestIsFirstPast(rec: Recurrence, rule: string, tz: string, from: Instant, threshold: Instant, j: nat, n: nat)
    requires j <= n && IsFirstPast(rec, rule, tz, from, threshold, n)
    requires Orbit(rec, rule, tz, from, j).Some?
    ensures IsFirstPast(rec, rule, tz, Orbit(rec, rule, tz, from, j).value, threshold, n - j)
  {
    var x := Orbit(rec, rule, tz, from, j).value;
    OrbitCompose(rec, rule, tz, from, j, n - j);
    forall i: nat | i < n - j
      ensures Orbit(rec, rule, tz, x, i).Some? && Orbit(rec, rule, tz, x, i).value <= threshold
    {
      OrbitCompose(rec, rule, tz, from, j, i);
    }
  }

  // ---- What holds of any plan of a due schedule -------------------------------------------------

  predicate GoodPlan(p: Plan) {
    && p.missedCount >= 1
    && (p.dispatch ==> p.status == OccPending && p.outcome == NoCode)
    && (!p.dispatch ==> p.status == OccSkipped)
  }

  ghost predicate GoodPlans(plans: seq<Plan>, due: Instant) {
    && 0 < |plans| && plans[0].scheduledAt == due
    && forall i | 0 <= i < |plans| :: GoodPlan(plans[i])
  }

  /** Whatever the recurrence does: the plans start at due, a once trigger is used up, a recurring one goes on. */
  lemma PlanIsProper(rec: Recurrence, d: Definition, due: Instant, now: Instant)
    requires ValidDefinition(d) && due <= now && PlanSchedule(rec, d, Some(due), now).Planned?
    ensures var r := PlanSchedule(rec, d, Some(due), now);
            && GoodPlans(r.plans, due)
            && (d.runAt.Some? ==> r.next == None && |r.plans| == 1)
            && (d.runAt.None? ==> r.next.Some?)
  {
    if d.runAt.None? && due != now && d.misfire.CatchUpBounded? {
      CatchUpIsProper(rec, d, due, due, now, []);
    }
  }

  lemma {:induction false} CatchUpIsProper(
    rec: Recurrence, d: Definition, due: Instant, candidate: Instant, now: Instant, plans: seq<Plan>)
    requires d.catchUpLimit >= 1 && CatchUp(rec, d, candidate, now, plans).Planned?
    requires if |plans| == 0 then candidate == due <= now else GoodPlans(plans, due)
    ensures var r := CatchUp(rec, d, candidate, now, plans);
            GoodPlans(r.plans, due) && r.next.Some?
    decreases d.catchUpLimit - |plans|
  {
    if |plans| < d.catchUpLimit && candidate <= now {
      var next := rec.next(RuleOf(d), d.timezone, candidate);
      CatchUpIsProper(rec, d, due, next.value, now, plans + [DispatchPlan(candidate, now)]);
    }
  }

  /**
   * What the misfire policy decides.  Outside bounded catch-up there is exactly one plan, for the due
   * instant.  It dispatches if it is on time or the policy is not `skip`, a late once trigger included;
   * otherwise it is recorded as skipped by the policy.
   */
  lemma MisfirePolicy(rec: Recurrence, d: Definition, due: Instant, now: Instant)
    requires due <= now && PlanSchedule(rec, d, Some(due), now).Planned?
    requires d.runAt.Some? || due == now || !d.misfire.CatchUpBounded?
    ensures |PlanSchedule(rec, d, Some(due), now).plans| == 1
    ensures var p := PlanSchedule(rec, d, Some(due), now).plans[0];
            && p.scheduledAt == due && p.observedAt == now && p.missedCount == 1
            && (p.dispatch <==> due == now || !d.misfire.Skip?)
            && p.status == (if due == now || !d.misfire.Skip? then OccPending else OccSkipped)
            && p.outcome == (if due == now || !d.misfire.Skip? then NoCode else MisfireSkipped)
  {
  }

  /** And it resumes at the first recurrence instant after now, if and only if it is on time or its jump is exact. */
  lemma PolicyResumes(rec: Recurrence, d: Definition, due: Instant, now: Instant, n: nat)
    requires StepsForward(rec) && due <= now && d.runAt.None? && PlanSchedule(rec, d, Some(due), now).Planned?
    requires due == now || !d.misfire.CatchUpBounded?
    requires IsFirstPast(rec, RuleOf(d), d.timezone, due, now, n)
    ensures PlanSchedule(rec, d, Some(due), now).next == Orbit(rec, RuleOf(d), d.timezone, due, n) <==>
              due == now || SkipsAheadAt(rec, RuleOf(d), d.timezone, due, now)
  {
    var rule, tz := RuleOf(d), d.timezone;
    assert Orbit(rec, rule, tz, due, 0) == Some(due);
    JumpOverRest(rec, rule, tz, due, now, 0, n);
    if due == now {
      assert Orbit(rec, rule, tz, due, 1) == rec.next(rule, tz, due);
      OrbitDefined(rec, rule, tz, due, 1, n);
      FirstPastIsUnique(rec, rule, tz, due, now, 1, n);
    }
  }

  ghost predicate Increasing(plans: seq<Plan>) {
    forall i, j | 0 <= i < j < |plans| :: plans[i].scheduledAt < plans[j].scheduledAt
  }

  /** The plans of one materialization are for different instants, in order. */
  lemma PlansIncrease(rec: Recurrence, d: Definition, due: Instant, now: Instant)
    requires StepsForward(rec) && due <= now && PlanSchedule(rec, d, Some(due), now).Planned?
    ensures Increasing(PlanSchedule(rec, d, Some(due), now).plans)
  {
    if d.runAt.None? && due != now && d.misfire.CatchUpBounded? {
      CatchUpIncreases(rec, d, due, now, []);
    }
  }

  lemma {:induction false} CatchUpIncreases(
    rec: Recurrence, d: Definition, candidate: Instant, now: Instant, plans: seq<Plan>)
    requires StepsForward(rec) && Increasing(plans) && CatchUp(rec, d, candidate, now, plans).Planned?
    requires forall i | 0 <= i < |plans| :: plans[i].scheduledAt < candidate
    ensures Increasing(CatchUp(rec, d, candidate, now, plans).plans)
    decreases d.catchUpLimit - |plans|
  {
    if |plans| < d.catchUpLimit && candidate <= now {
      var next := rec.next(RuleOf(d), d.timezone, candidate);
      CatchUpIncreases(rec, d, next.value, now, plans + [DispatchPlan(candidate, now)]);
    }
  }

  /** The anchor of the one nextAfter call that planning makes, if it makes one. */
  function JumpAnchor(rec: Recurrence, d: Definition, due: Instant, now: Instant): Option<Instant> {
    if due >= now || d.runAt.Some? then None
    else if !d.misfire.CatchUpBounded? then Some(due)
    else
      var last := Orbit(rec, RuleOf(d), d.timezone, due, Max(d.catchUpLimit, 0));
      if last.Some? && last.value <= now then last else None
  }

  /** That call, if it is made and succeeds, returns an instant past now. */
  predicate JumpsForward(rec: Recurrence, d: Definition, due: Instant, now: Instant) {
    var a := JumpAnchor(rec, d, due, now);
    a.Some? && rec.nextAfter(RuleOf(d), d.timezone, a.value, now).Some? ==>
      rec.nextAfter(RuleOf(d), d.timezone, a.value, now).value > now
  }

  /**
   * Every plan lies in [due, now], and a recurring schedule moves past now if and only if its jump,
   * where there is one, does.
   */
  lemma PlanOfDue(rec: Recurrence, d: Definition, due: Instant, now: Instant)
    requires StepsForward(rec) && ValidDefinition(d) && due <= now && PlanSchedule(rec, d, Some(due), now).Planned?
    ensures var r := PlanSchedule(rec, d, Some(due), now);
            && (forall i | 0 <= i < |r.plans| :: due <= r.plans[i].scheduledAt <= now)
            && (d.runAt.None? ==> r.next.Some? && (r.next.value > now <==> JumpsForward(rec, d, due, now)))
  {
    PlanIsProper(rec, d, due, now);
    if d.runAt.None? && due != now && d.misfire.CatchUpBounded? {
      CatchUpOfDue(rec, d, due, 0, now, []);
    }
  }

  lemma {:induction false} CatchUpOfDue(
    rec: Recurrence, d: Definition, due: Instant, k: nat, now: Instant, plans: seq<Plan>)
    requires StepsForward(rec) && due < now && d.runAt.None? && d.misfire.CatchUpBounded?
    requires |plans| == k <= d.catchUpLimit && Orbit(rec, RuleOf(d), d.timezone, due, k).Some?
    requires forall i | 0 <= i < |plans| :: due <= plans[i].scheduledAt <= now
    requires CatchUp(rec, d, Orbit(rec, RuleOf(d), d.timezone, due, k).value, now, plans).Planned?
    ensures var r := CatchUp(rec, d, Orbit(rec, RuleOf(d), d.timezone, due, k).value, now, plans);
            && (forall i | 0 <= i < |r.plans| :: due <= r.plans[i].scheduledAt <= now)
            && r.next.Some? && (r.next.value > now <==> JumpsForward(rec, d, due, now))
    decreases d.catchUpLimit - k
  {
    var rule, tz := RuleOf(d), d.timezone;
    var x := Orbit(rec, rule, tz, due, k).value;
    if k > 0 {
      OrbitIncreases(rec, rule, tz, due, 0, k);
    }
    if k < d.catchUpLimit && x <= now {
      assert Orbit(rec, rule, tz, due, k + 1) == rec.next(rule, tz, x);
      CatchUpOfDue(rec, d, due, k + 1, now, plans + [DispatchPlan(x, now)]);
    } else if x > now && k < d.catchUpLimit && Orbit(rec, rule, tz, due, d.catchUpLimit).Some? {
      OrbitIncreases(rec, rule, tz, due, k, d.catchUpLimit);
    }
  }
}
