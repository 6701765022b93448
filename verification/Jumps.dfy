/**
 * Planning with the calculator's own port.  Everything the planner does holds as it stands, up to one
 * call: the jump of NextAfter over missed instants, which is right if and only if it fits 64 bits.
 */
module Jumps {
  import opened Domain
  import opened Planner
  import opened Protocol
  import opened Progress
  import opened Calculator

  /** The rule of the definition parses, and the jump planning makes with it, if any, fits 64 bits. */
  ghost predicate PlanFits(
    parse: string -> Option<Rule>, zones: string -> Zone, horizon: Horizon, d: Definition, due: Instant, now: Instant)
    requires ProperParser(parse)
  {
    var a := JumpAnchor(RecurrenceOf(parse, zones, horizon), d, due, now);
    a.Some? && parse(RuleOf(d)).Some? ==> JumpFits(parse(RuleOf(d)).value, a.value, now)
  }

  lemma AnchorIsReached(rec: Recurrence, d: Definition, due: Instant, now: Instant)
    ensures JumpAnchor(rec, d, due, now).Some? ==> JumpAnchor(rec, d, due, now).value <= now
  {
  }

  /** The jump of a plan is forward if and only if it fits 64 bits. */
  lemma JumpIsForwardIffItFits(
    parse: string -> Option<Rule>, zones: string -> Zone, horizon: Horizon, d: Definition, due: Instant, now: Instant)
    requires ProperParser(parse)
    ensures JumpsForward(RecurrenceOf(parse, zones, horizon), d, due, now) <==>
              PlanFits(parse, zones, horizon, d, due, now)
  {
    var rec := RecurrenceOf(parse, zones, horizon);
    var rule := parse(RuleOf(d));
    var a := JumpAnchor(rec, d, due, now);
    AnchorIsReached(rec, d, due, now);
    if a.Some? && rule.Some? && NextAfter(rule.value, zones(d.timezone), horizon, a.value, now).Some? {
      NextAfterIsForward(rule.value, zones(d.timezone), horizon, a.value, now);
    }
  }

  /**
   * A plan of a due recurring schedule leaves the next due instant past now if and only if its jump
   * over missed instants fits 64 bits.
   */
  lemma PlanMovesPastIffItFits(
    parse: string -> Option<Rule>, zones: string -> Zone, horizon: Horizon, d: Definition, due: Instant, now: Instant)
    requires ProperParser(parse) && ValidDefinition(d) && d.runAt.None? && due <= now
    requires PlanSchedule(RecurrenceOf(parse, zones, horizon), d, Some(due), now).Planned?
    ensures var next := PlanSchedule(RecurrenceOf(parse, zones, horizon), d, Some(due), now).next;
            next.Some? && (next.value > now <==> PlanFits(parse, zones, horizon, d, due, now))
  {
    CalculatorStepsForward(parse, zones, horizon);
    PlanOfDue(RecurrenceOf(parse, zones, horizon), d, due, now);
    JumpIsForwardIffItFits(parse, zones, horizon, d, due, now);
  }

  /** So a materialization of a recurring schedule leaves it due past now if and only if its jump fits. */
  lemma MaterializationMovesPastIffItFits(
    parse: string -> Option<Rule>, zones: string -> Zone, horizon: Horizon, s: State, t: State, id: Id, now: Instant)
    requires ProperParser(parse) && PlannedStep(RecurrenceOf(parse, zones, horizon), s, t, id, now)
    requires s.db.schedules[id].def.runAt.None?
    ensures var r := s.db.schedules[id];
            && t.db.schedules[id].nextDue.Some?
            && (t.db.schedules[id].nextDue.value > now <==>
                  PlanFits(parse, zones, horizon, r.def, r.nextDue.value, now))
  {
    var r := s.db.schedules[id];
    PlanMovesPastIffItFits(parse, zones, horizon, r.def, r.nextDue.value, now);
  }

  /**
   * Bounded catch-up ends at the first instant after now if and only if nothing was left out or the
   * jump over the unlisted rest fits 64 bits.
   */
  lemma CatchUpEndsRightIffItFits(
    parse: string -> Option<Rule>, zones: string -> Zone, horizon: Horizon, d: Definition, due: Instant, now: Instant,
    n: nat)
    requires ProperParser(parse) && parse(RuleOf(d)).Some? && d.catchUpLimit >= 1
    requires IsFirstPast(RecurrenceOf(parse, zones, horizon), RuleOf(d), d.timezone, due, now, n)
    requires CatchUp(RecurrenceOf(parse, zones, horizon), d, due, now, []).Planned?
    ensures var rec := RecurrenceOf(parse, zones, horizon);
            var last := Orbit(rec, RuleOf(d), d.timezone, due, d.catchUpLimit);
            CatchUp(rec, d, due, now, []).next == Orbit(rec, RuleOf(d), d.timezone, due, n) <==>
              n <= d.catchUpLimit || (last.Some? && JumpFits(parse(RuleOf(d)).value, last.value, now))
  {
    var rec := RecurrenceOf(parse, zones, horizon);
    CatchUpIsPrefix(rec, d, due, now, n);
    if n > d.catchUpLimit {
      var last := Orbit(rec, RuleOf(d), d.timezone, due, d.catchUpLimit).value;
      CalculatorSkipsAhead(parse, zones, horizon, RuleOf(d), d.timezone, last, now);
    }
  }

  /** If step k materializes `id`, its jump fits 64 bits. */
  ghost predicate FitsAt(
    parse: string -> Option<Rule>, zones: string -> Zone, horizon: Horizon, run: Run, k: nat, id: Id)
    requires ProperParser(parse) && k < |run.steps| && k < |run.states|
  {
    var s, step := run.states[k], run.steps[k];
    && id in s.db.schedules && s.db.schedules[id].nextDue.Some?
    && Wins(RecurrenceOf(parse, zones, horizon), s, step, id) ==>
      PlanFits(parse, zones, horizon, s.db.schedules[id].def, s.db.schedules[id].nextDue.value,
               s.planners[step.task].now)
  }

  /** DueMovesForward for the calculator: all it takes is that the jumps made for the schedule fit 64 bits. */
  lemma CalculatorDueMovesForward(
    parse: string -> Option<Rule>, zones: string -> Zone, horizon: Horizon, run: Run, i: nat, j: nat, id: Id,
    from: Instant)
    requires ProperParser(parse) && ValidRun(RecurrenceOf(parse, zones, horizon), run)
    requires i <= j < |run.states| && NotEdited(run, i, j, id)
    requires DueAt(run.states[i], id, from) && run.states[i].db.schedules[id].def.runAt.None?
    requires forall k: nat {:trigger FitsAt(parse, zones, horizon, run, k, id)} | i <= k < j ::
               FitsAt(parse, zones, horizon, run, k, id)
    ensures id in run.states[j].db.schedules && SameDefinition(run.states[i], run.states[j], id)
    ensures run.states[j].db.schedules[id].nextDue.Some?
    ensures var upto := run.states[j].db.schedules[id].nextDue.value;
            && from <= upto && AddedWithin(run.states[i], run.states[j], id, from, upto)
            && (run.states[j].db.schedules[id].version > run.states[i].db.schedules[id].version ==> from < upto)
  {
    var rec := RecurrenceOf(parse, zones, horizon);
    CalculatorStepsForward(parse, zones, horizon);
    forall k: nat | i <= k < j ensures JumpIsForwardAt(rec, run, k, id) {
      assert FitsAt(parse, zones, horizon, run, k, id);
      var s := run.states[k];
      if id in s.db.schedules && s.db.schedules[id].nextDue.Some? && Wins(rec, s, run.steps[k], id) {
        JumpIsForwardIffItFits(parse, zones, horizon, s.db.schedules[id].def, s.db.schedules[id].nextDue.value,
                               s.planners[run.steps[k].task].now);
      }
    }
    DueMovesForward(rec, run, i, j, id, from);
  }

  /** The failing case: 2^63 nanoseconds late, an `@every 1s` schedule is put before its own due instant. */
  lemma LatePlanGoesBack(parse: string -> Option<Rule>, zones: string -> Zone, horizon: Horizon, d: Definition)
    requires ProperParser(parse) && ValidDefinition(d) && d.runAt.None? && d.misfire.FireOnce?
    requires parse(RuleOf(d)) == Some(Every(1000))
    ensures var r := PlanSchedule(RecurrenceOf(parse, zones, horizon), d, Some(0), 9_223_372_036_854);
            r.Planned? && r.next.Some? && r.next.value < 0
  {
    MachineIntervalCanGoBack();
  }
}
