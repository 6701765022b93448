/** Between edits a recurring schedule moves forward without gaps. */
module Progress {
  import opened Domain
  import opened Planner
  import opened Tables
  import opened Protocol
  import opened Coupling
  import opened Invariant
  import opened Preservation
  import opened Runs

  // ---- What one committed materialization does to the occurrences ------------------------------

  /** Some occurrence records instant `at` of schedule `id`. */
  ghost predicate Recorded(db: Db, tenant: string, id: Id, at: Instant) {
    Taken(db, OccurrenceKey(tenant, id, at))
  }

  lemma RecordedStays(a: Db, b: Db, tenant: string, id: Id, at: Instant)
    requires Evolves(a, b) && Recorded(a, tenant, id, at)
    ensures Recorded(b, tenant, id, at)
  {
    var o :| o in a.occurrences && a.occurrences[o].key == OccurrenceKey(tenant, id, at);
    assert b.occurrences[o].key == OccurrenceKey(tenant, id, at);
  }

  lemma InsertRecords(db: Db, id: Id, r: ScheduleRow, plan: Plan, open: bool, ids: (Id, Id))
    ensures Recorded(InsertPlan(db, id, r, plan, open, ids).0, r.tenant, id, plan.scheduledAt)
  {
    var db' := InsertPlan(db, id, r, plan, open, ids).0;
    var p := Effective(plan, open);
    if !Taken(db, KeyOf(id, r, p)) {
      assert db'.occurrences[ids.0].key == OccurrenceKey(r.tenant, id, plan.scheduledAt);
    }
  }

  /** One round adds at most one occurrence, for the planned instant. */
  lemma InsertAddsPlanned(db: Db, id: Id, r: ScheduleRow, plan: Plan, open: bool, ids: (Id, Id))
    ensures var db1 := InsertPlan(db, id, r, plan, open, ids).0;
            || db1.occurrences == db.occurrences
            || db1.occurrences == db.occurrences[ids.0 := NewOccurrence(id, r, Effective(plan, open))]
    ensures KeyOf(id, r, Effective(plan, open)) == KeyOf(id, r, plan)
  {
  }

  /** Every added occurrence records a planned instant of this schedule; the others are untouched. */
  lemma {:induction false} InsertedArePlanned(
    db: Db, id: Id, r: ScheduleRow, plans: seq<Plan>, open: bool, ids: seq<(Id, Id)>, o: Id)
    requires |plans| == |ids|
    requires forall k | 0 <= k < |ids| :: ids[k].0 !in db.occurrences
    requires forall j, k | 0 <= j < k < |ids| :: ids[j].0 != ids[k].0
    ensures var after := InsertPlans(db, id, r, plans, open, ids).occurrences;
            && (o in db.occurrences ==> o in after && after[o] == db.occurrences[o])
            && (o in after && o !in db.occurrences ==>
                  exists i | 0 <= i < |plans| :: after[o].key == KeyOf(id, r, plans[i]))
    decreases |plans|
  {
    if |plans| > 0 {
      var (db1, open1) := InsertPlan(db, id, r, plans[0], open, ids[0]);
      InsertAddsPlanned(db, id, r, plans[0], open, ids[0]);
      InsertedArePlanned(db1, id, r, plans[1..], open1, ids[1..], o);
      var after := InsertPlans(db, id, r, plans, open, ids).occurrences;
      if o in after && o !in db1.occurrences {
        var i :| 0 <= i < |plans[1..]| && after[o].key == KeyOf(id, r, plans[1..][i]);
        assert plans[i + 1] == plans[1..][i];
      } else if o in after && o !in db.occurrences {
        assert after[o].key == KeyOf(id, r, plans[0]);
      }
    }
  }

  /** Every planned instant is recorded, be it dispatched, skipped, blocked or already there. */
  lemma {:induction false} InsertPlansRecord(
    db: Db, id: Id, r: ScheduleRow, plans: seq<Plan>, open: bool, ids: seq<(Id, Id)>, i: nat)
    requires |plans| == |ids| && i < |plans|
    requires forall k | 0 <= k < |ids| :: ids[k].0 !in db.occurrences
    requires forall j, k | 0 <= j < k < |ids| :: ids[j].0 != ids[k].0
    ensures Recorded(InsertPlans(db, id, r, plans, open, ids), r.tenant, id, plans[i].scheduledAt)
    decreases |plans|
  {
    var (db1, open1) := InsertPlan(db, id, r, plans[0], open, ids[0]);
    InsertAddsPlanned(db, id, r, plans[0], open, ids[0]);
    var rest, more := plans[1..], ids[1..];
    if i == 0 {
      InsertRecords(db, id, r, plans[0], open, ids[0]);
      var o :| o in db1.occurrences && db1.occurrences[o].key == OccurrenceKey(r.tenant, id, plans[0].scheduledAt);
      InsertedArePlanned(db1, id, r, rest, open1, more, o);
    } else {
      InsertPlansRecord(db1, id, r, rest, open1, more, i - 1);
      assert rest[i - 1] == plans[i];
    }
  }

  // ---- A stretch of a run without edits --------------------------------------------------------

  /** Step i leaves schedule `id` to the planners: a command commit does not change its row. */
  ghost predicate NotEditedAt(run: Run, i: nat, id: Id)
    requires i < |run.steps| && i + 1 < |run.states|
  {
    && id in run.states[i].db.schedules && id in run.states[i + 1].db.schedules
    && (run.steps[i].CommitCommand? ==> run.states[i + 1].db.schedules[id] == run.states[i].db.schedules[id])
  }

  ghost predicate NotEdited(run: Run, i: nat, j: nat, id: Id)
    requires i <= j < |run.states| && |run.states| == |run.steps| + 1
  {
    id in run.states[i].db.schedules && forall k: nat {:trigger NotEditedAt(run, k, id)} | i <= k < j ::
      NotEditedAt(run, k, id)
  }

  /** The row before the step, its plan, and what the step leaves. */
  ghost predicate PlannedStep(rec: Recurrence, s: State, t: State, id: Id, now: Instant) {
    && id in s.db.schedules && id in t.db.schedules
    && var r := s.db.schedules[id];
    && ScheduleCheck(r) && r.nextDue.Some? && r.nextDue.value <= now
    && var plan := PlanSchedule(rec, r.def, r.nextDue, now);
    && plan.Planned?
    && t.db.schedules[id] == Advanced(r, plan.next)
    && (forall i | 0 <= i < |plan.plans| :: Recorded(t.db, r.tenant, id, plan.plans[i].scheduledAt))
    && (forall o | o in t.db.occurrences && o !in s.db.occurrences ::
          exists i | 0 <= i < |plan.plans| :: t.db.occurrences[o].key == KeyOf(id, r, plan.plans[i]))
  }

  lemma CommitIsPlannedStep(rec: Recurrence, s: State, task: nat, ids: seq<(Id, Id)>)
    requires Inv(s) && CanCommitPlan(rec, s, task, ids) && PlanCommit(rec, s, task, ids).Some?
    ensures PlannedStep(rec, s, DoCommitPlan(rec, s, task, ids), s.planners[task].id, s.planners[task].now)
  {
    var t := DoCommitPlan(rec, s, task, ids);
    var p := s.planners[task];
    var db1 := Inserted(rec, s, task, ids);
    var plans := PlanOf(rec, p).plans;
    assert PlannerOk(s, task);
    InsertedIsSafe(rec, s, task, ids);
    assert RowOk(s, p.id);
    PlanIsProper(rec, p.snapshot.def, p.snapshot.nextDue.value, p.now);
    forall i | 0 <= i < |plans| ensures Recorded(t.db, p.snapshot.tenant, p.id, plans[i].scheduledAt) {
      InsertPlansRecord(s.db, p.id, p.snapshot, plans, SawOpen(p), ids, i);
      RecordedStays(db1, t.db, p.snapshot.tenant, p.id, plans[i].scheduledAt);
    }
    forall o | o in t.db.occurrences && o !in s.db.occurrences
      ensures exists i | 0 <= i < |plans| :: t.db.occurrences[o].key == KeyOf(p.id, p.snapshot, plans[i])
    {
      InsertedArePlanned(s.db, p.id, p.snapshot, plans, SawOpen(p), ids, o);
    }
  }

  /** The step is a materialization of `id` that finds its version and claim in place. */
  ghost predicate Wins(rec: Recurrence, s: State, step: Step, id: Id) {
    && step.CommitPlan? && CanCommitPlan(rec, s, step.task, step.ids) && s.planners[step.task].id == id
    && PlanCommit(rec, s, step.task, step.ids).Some?
  }

  /** Either the step materializes `id`, or it leaves the row's definition and due instant and adds nothing to it. */
  ghost predicate StepShape(rec: Recurrence, s: State, step: Step, t: State, id: Id)
    requires id in s.db.schedules && id in t.db.schedules
  {
    || (Wins(rec, s, step, id) && PlannedStep(rec, s, t, id, s.planners[step.task].now))
    || (&& SameButClaim(s.db.schedules[id], t.db.schedules[id])
      && forall o | o in t.db.occurrences && t.db.occurrences[o].key.scheduleId == id :: o in s.db.occurrences)
  }

  lemma PlanShape(rec: Recurrence, s: State, task: nat, ids: seq<(Id, Id)>, id: Id)
    requires Inv(s) && CanCommitPlan(rec, s, task, ids) && id in s.db.schedules
    ensures id in DoCommitPlan(rec, s, task, ids).db.schedules
    ensures StepShape(rec, s, CommitPlan(task, ids), DoCommitPlan(rec, s, task, ids), id)
  {
    var p := s.planners[task];
    var t := DoCommitPlan(rec, s, task, ids);
    InsertedIsSafe(rec, s, task, ids);
    if PlanCommit(rec, s, task, ids).Some? && p.id == id {
      CommitIsPlannedStep(rec, s, task, ids);
    } else {
      forall o | o in t.db.occurrences && t.db.occurrences[o].key.scheduleId == id ensures o in s.db.occurrences {
        InsertedBelong(s.db, p.id, p.snapshot, PlanOf(rec, p).plans, SawOpen(p), ids, o);
      }
    }
  }

  lemma ShapeAt(rec: Recurrence, run: Run, i: nat, id: Id)
    requires ValidRun(rec, run) && i < |run.steps| && NotEditedAt(run, i, id)
    ensures StepShape(rec, run.states[i], run.steps[i], run.states[i + 1], id)
    ensures Kept(run.states[i], run.states[i + 1])
  {
    var s, step, t := run.states[i], run.steps[i], run.states[i + 1];
    InvHolds(rec, run, i);
    assert StepAt(rec, run, i);
    StepKeeps(rec, s, step, t);
    if step.CommitPlan? {
      PlanShape(rec, s, step.task, step.ids, id);
    }
  }

  // ---- Strict progress -------------------------------------------------------------------------

  /** Due instant of an existing, armed schedule. */
  ghost predicate DueAt(s: State, id: Id, at: Instant) {
    id in s.db.schedules && s.db.schedules[id].nextDue == Some(at)
  }

  ghost predicate SameDefinition(s: State, t: State, id: Id)
    requires id in s.db.schedules && id in t.db.schedules
  {
    s.db.schedules[id].def == t.db.schedules[id].def && s.db.schedules[id].tenant == t.db.schedules[id].tenant
  }

  /** Occurrences of `id` that t has and s has not lie in [from, upto). */
  ghost predicate AddedWithin(s: State, t: State, id: Id, from: Instant, upto: Instant) {
    forall o | o in t.db.occurrences && t.db.occurrences[o].key.scheduleId == id && o !in s.db.occurrences ::
      from <= t.db.occurrences[o].key.scheduledAt < upto
  }

  /** After a materialization a recurring schedule is due past now exactly if the jump made was forward. */
  lemma MaterializationMovesPast(rec: Recurrence, s: State, t: State, id: Id, now: Instant)
    requires StepsForward(rec) && PlannedStep(rec, s, t, id, now) && s.db.schedules[id].def.runAt.None?
    ensures var r := s.db.schedules[id];
            && t.db.schedules[id].nextDue.Some?
            && (t.db.schedules[id].nextDue.value > now <==> JumpsForward(rec, r.def, r.nextDue.value, now))
  {
    var r := s.db.schedules[id];
    PlanOfDue(rec, r.def, r.nextDue.value, now);
  }

  /** If the step materializes `id`, the jump it makes, if any, is forward. */
  ghost predicate JumpIsForward(rec: Recurrence, s: State, step: Step, id: Id) {
    id in s.db.schedules && s.db.schedules[id].nextDue.Some? && Wins(rec, s, step, id) ==>
      JumpsForward(rec, s.db.schedules[id].def, s.db.schedules[id].nextDue.value, s.planners[step.task].now)
  }

  ghost predicate JumpIsForwardAt(rec: Recurrence, run: Run, k: nat, id: Id)
    requires k < |run.steps| && k < |run.states|
  {
    JumpIsForward(rec, run.states[k], run.steps[k], id)
  }

  ghost predicate JumpsWereForward(rec: Recurrence, run: Run, i: nat, j: nat, id: Id)
    requires i <= j < |run.states| && |run.states| == |run.steps| + 1
  {
    forall k: nat {:trigger JumpIsForwardAt(rec, run, k, id)} | i <= k < j :: JumpIsForwardAt(rec, run, k, id)
  }

  lemma StepProgress(rec: Recurrence, s: State, step: Step, t: State, id: Id, from: Instant)
    requires id in t.db.schedules && DueAt(s, id, from) && StepShape(rec, s, step, t, id)
    requires StepsForward(rec) && JumpIsForward(rec, s, step, id)
    requires s.db.schedules[id].def.runAt.None? && ValidDefinition(s.db.schedules[id].def)
    ensures SameDefinition(s, t, id) && t.db.schedules[id].nextDue.Some?
    ensures var upto := t.db.schedules[id].nextDue.value;
            && from <= upto && AddedWithin(s, t, id, from, upto)
            && (t.db.schedules[id].version > s.db.schedules[id].version ==> from < upto)
  {
    var r := s.db.schedules[id];
    if !SameButClaim(r, t.db.schedules[id]) {
      var now := s.planners[step.task].now;
      PlanOfDue(rec, r.def, from, now);
      MaterializationMovesPast(rec, s, t, id, now);
    }
  }

  /**
   * With no command touching a recurring schedule, and every jump made on its behalf forward,
   * next_due_at never goes back, stays above every instant recorded since, and strictly increases with
   * every committed materialization.
   */
  lemma {:induction false} DueMovesForward(rec: Recurrence, run: Run, i: nat, j: nat, id: Id, from: Instant)
    requires ValidRun(rec, run) && i <= j < |run.states| && NotEdited(run, i, j, id)
    requires StepsForward(rec) && JumpsWereForward(rec, run, i, j, id)
    requires DueAt(run.states[i], id, from) && run.states[i].db.schedules[id].def.runAt.None?
    ensures id in run.states[j].db.schedules && SameDefinition(run.states[i], run.states[j], id)
    ensures run.states[j].db.schedules[id].nextDue.Some?
    ensures var upto := run.states[j].db.schedules[id].nextDue.value;
            && from <= upto && AddedWithin(run.states[i], run.states[j], id, from, upto)
            && (run.states[j].db.schedules[id].version > run.states[i].db.schedules[id].version ==> from < upto)
  {
    if i < j {
      assert NotEditedAt(run, j - 1, id) && JumpIsForwardAt(rec, run, j - 1, id);
      DueMovesForward(rec, run, i, j - 1, id, from);
      ScheduleChecksHold(rec, run, j - 1, id);
      ShapeAt(rec, run, j - 1, id);
      var mid := run.states[j - 1].db.schedules[id].nextDue.value;
      StepProgress(rec, run.states[j - 1], run.steps[j - 1], run.states[j], id, mid);
    }
  }

  lemma {:induction false} DefinitionStays(rec: Recurrence, run: Run, i: nat, j: nat, id: Id)
    requires ValidRun(rec, run) && i <= j < |run.states| && NotEdited(run, i, j, id)
    ensures id in run.states[j].db.schedules && SameDefinition(run.states[i], run.states[j], id)
  {
    if i < j {
      assert NotEditedAt(run, j - 1, id);
      DefinitionStays(rec, run, i, j - 1, id);
      ShapeAt(rec, run, j - 1, id);
    }
  }

  // ---- No gaps under bounded catch-up ----------------------------------------------------------

  /** The backlog at `now` fits the catch-up limit: at most `limit` recurrence instants lie in [due, now]. */
  ghost predicate BacklogFits(rec: Recurrence, d: Definition, due: Instant, now: Instant) {
    exists n: nat :: n <= d.catchUpLimit && IsFirstPast(rec, RuleOf(d), d.timezone, due, now, n)
  }

  /** Element k of the recurrence from `from` is recorded. */
  ghost predicate ElementRecorded(
    rec: Recurrence, db: Db, tenant: string, d: Definition, id: Id, from: Instant, k: nat) {
    && Orbit(rec, RuleOf(d), d.timezone, from, k).Some?
    && Recorded(db, tenant, id, Orbit(rec, RuleOf(d), d.timezone, from, k).value)
  }

  /** The elements lo, ..., hi - 1 are recorded. */
  ghost predicate ElementsRecorded(
    rec: Recurrence, db: Db, tenant: string, d: Definition, id: Id, from: Instant, lo: nat, hi: nat) {
    forall k: nat {:trigger ElementRecorded(rec, db, tenant, d, id, from, k)} | lo <= k < hi ::
      ElementRecorded(rec, db, tenant, d, id, from, k)
  }

  /** The due instant is element n of the recurrence from `from`, and everything before it is recorded. */
  ghost predicate GapFree(rec: Recurrence, s: State, id: Id, from: Instant, n: nat)
    requires id in s.db.schedules
  {
    var r := s.db.schedules[id];
    && r.nextDue.Some? && r.nextDue == Orbit(rec, RuleOf(r.def), r.def.timezone, from, n)
    && ElementsRecorded(rec, s.db, r.tenant, r.def, id, from, 0, n)
  }

  /** A plan whose backlog fits lists the recurrence instants from due on, and ends at the first one past now. */
  lemma PlanIsOrbit(rec: Recurrence, d: Definition, due: Instant, now: Instant) returns (n: nat)
    requires ValidDefinition(d) && d.runAt.None? && d.misfire.CatchUpBounded?
    requires due <= now && BacklogFits(rec, d, due, now) && PlanSchedule(rec, d, Some(due), now).Planned?
    ensures var r := PlanSchedule(rec, d, Some(due), now);
            && r.next == Orbit(rec, RuleOf(d), d.timezone, due, n) && r.next.Some? && |r.plans| == n
            && forall k: nat | k < n ::
                 Orbit(rec, RuleOf(d), d.timezone, due, k) == Some(r.plans[k].scheduledAt)
  {
    n :| n <= d.catchUpLimit && IsFirstPast(rec, RuleOf(d), d.timezone, due, now, n);
    if due == now {
      n := 1;
      assert Orbit(rec, RuleOf(d), d.timezone, due, 0) == Some(due);
      assert Orbit(rec, RuleOf(d), d.timezone, due, 1) == rec.next(RuleOf(d), d.timezone, due);
    } else {
      CatchUpIsPrefix(rec, d, due, now, n);
    }
  }

  lemma ElementsStay(
    rec: Recurrence, a: Db, b: Db, tenant: string, d: Definition, id: Id, from: Instant, lo: nat, hi: nat)
    requires ElementsRecorded(rec, a, tenant, d, id, from, lo, hi) && Evolves(a, b)
    ensures ElementsRecorded(rec, b, tenant, d, id, from, lo, hi)
  {
    forall k: nat | lo <= k < hi ensures ElementRecorded(rec, b, tenant, d, id, from, k) {
      assert ElementRecorded(rec, a, tenant, d, id, from, k);
      RecordedStays(a, b, tenant, id, Orbit(rec, RuleOf(d), d.timezone, from, k).value);
    }
  }

  /** Element k of the recurrence from `due` is element n + k of the one from `from`. */
  lemma ElementsAppend(
    rec: Recurrence, db: Db, tenant: string, d: Definition, id: Id, from: Instant, n: nat, due: Instant, l: nat)
    requires ElementsRecorded(rec, db, tenant, d, id, from, 0, n) && ElementsRecorded(rec, db, tenant, d, id, due, 0, l)
    requires Orbit(rec, RuleOf(d), d.timezone, from, n) == Some(due)
    ensures ElementsRecorded(rec, db, tenant, d, id, from, 0, n + l)
  {
    forall k: nat | k < n + l ensures ElementRecorded(rec, db, tenant, d, id, from, k) {
      if k >= n {
        OrbitCompose(rec, RuleOf(d), d.timezone, from, n, k - n);
        assert ElementRecorded(rec, db, tenant, d, id, due, k - n);
      }
    }
  }

  lemma PlannedStepRecords(rec: Recurrence, s: State, t: State, id: Id, now: Instant) returns (l: nat)
    requires PlannedStep(rec, s, t, id, now)
    requires s.db.schedules[id].def.runAt.None? && s.db.schedules[id].def.misfire.CatchUpBounded?
    requires BacklogFits(rec, s.db.schedules[id].def, s.db.schedules[id].nextDue.value, now)
    ensures GapFree(rec, t, id, s.db.schedules[id].nextDue.value, l)
  {
    var r := s.db.schedules[id];
    var due := r.nextDue.value;
    l := PlanIsOrbit(rec, r.def, due, now);
    var plans := PlanSchedule(rec, r.def, r.nextDue, now).plans;
    forall k: nat | k < l ensures ElementRecorded(rec, t.db, r.tenant, r.def, id, due, k) {
      assert Recorded(t.db, r.tenant, id, plans[k].scheduledAt);
    }
  }

  lemma StepIsGapFree(rec: Recurrence, s: State, step: Step, t: State, id: Id, from: Instant, n: nat) returns (m: nat)
    requires Evolves(s.db, t.db)
    requires id in s.db.schedules && id in t.db.schedules && StepShape(rec, s, step, t, id)
               && GapFree(rec, s, id, from, n)
    requires s.db.schedules[id].def.runAt.None? && s.db.schedules[id].def.misfire.CatchUpBounded?
    requires Wins(rec, s, step, id) ==>
               BacklogFits(rec, s.db.schedules[id].def, s.db.schedules[id].nextDue.value, s.planners[step.task].now)
    ensures GapFree(rec, t, id, from, m)
  {
    var r := s.db.schedules[id];
    m := n;
    ElementsStay(rec, s.db, t.db, r.tenant, r.def, id, from, 0, n);
    if !SameButClaim(r, t.db.schedules[id]) {
      var l := PlannedStepRecords(rec, s, t, id, s.planners[step.task].now);
      ElementsAppend(rec, t.db, r.tenant, r.def, id, from, n, r.nextDue.value, l);
      OrbitCompose(rec, RuleOf(r.def), r.def.timezone, from, n, l);
      m := n + l;
    }
  }

  /** If step k materializes `id`, the backlog fits at its clock reading. */
  ghost predicate BacklogFitsAt(rec: Recurrence, run: Run, k: nat, id: Id)
    requires k < |run.steps| && k < |run.states|
  {
    var s, step := run.states[k], run.steps[k];
    id in s.db.schedules && s.db.schedules[id].nextDue.Some? && Wins(rec, s, step, id) ==>
      BacklogFits(rec, s.db.schedules[id].def, s.db.schedules[id].nextDue.value, s.planners[step.task].now)
  }

  ghost predicate BacklogFitted(rec: Recurrence, run: Run, i: nat, j: nat, id: Id)
    requires i <= j < |run.states| && |run.states| == |run.steps| + 1
  {
    forall k: nat {:trigger BacklogFitsAt(rec, run, k, id)} | i <= k < j :: BacklogFitsAt(rec, run, k, id)
  }

  /**
   * Under catch_up_bounded, with the backlog never above the limit and no edit in between, every
   * recurrence instant from the first due instant up to next_due_at is recorded, and next_due_at is
   * itself the next instant of that recurrence; no key is recorded twice.
   */
  lemma {:induction false} CatchUpIsGapFree(
    rec: Recurrence, run: Run, i: nat, j: nat, id: Id, from: Instant)
    returns (n: nat)
    requires ValidRun(rec, run) && i <= j < |run.states|
    requires NotEdited(run, i, j, id) && BacklogFitted(rec, run, i, j, id)
    requires DueAt(run.states[i], id, from) && run.states[i].db.schedules[id].def.runAt.None?
    requires run.states[i].db.schedules[id].def.misfire.CatchUpBounded?
    ensures id in run.states[j].db.schedules && SameDefinition(run.states[i], run.states[j], id)
    ensures GapFree(rec, run.states[j], id, from, n) && KeysUnique(run.states[j].db)
  {
    InvHolds(rec, run, j);
    if i == j {
      n := 0;
    } else {
      n := CatchUpIsGapFree(rec, run, i, j - 1, id, from);
      assert NotEditedAt(run, j - 1, id) && BacklogFitsAt(rec, run, j - 1, id);
      DefinitionStays(rec, run, i, j, id);
      ScheduleChecksHold(rec, run, j - 1, id);
      ShapeAt(rec, run, j - 1, id);
      n := StepIsGapFree(rec, run.states[j - 1], run.steps[j - 1], run.states[j], id, from, n);
    }
  }
}
