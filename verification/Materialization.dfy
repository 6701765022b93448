/** What a committed materialization writes, row by row, told without the functions that write it. */
module Materialization {
  import opened Domain
  import opened Planner
  import opened Tables
  import opened Protocol
  import opened Coupling
  import opened Invariant
  import opened Preservation
  import opened OverlapSafety
  import opened Attempts
  import Progress
  import Liveness

  /** The open check is exact: it says yes if and only if overlap is forbidden and an occurrence is open right then. */
  lemma ReadIsExact(s: State, task: nat)
    requires Inv(s) && task in s.planners
    ensures var p := s.planners[task];
            var q := DoReadOpen(s, task).planners[task];
            && q == p.(open := q.open) && q.open.Some?
            && (SawOpen(q) <==> p.snapshot.def.overlap.Forbid? && exists o :: IsOpen(s.db, p.id, o))
  {
    var p := s.planners[task];
    assert PlannerOk(s, task);
    forall o | IsOpen(s.db, p.id, o) ensures s.db.occurrences[o].key.tenant == p.snapshot.tenant {
      assert OccurrenceOwned(s, o);
    }
    if o :| IsOpen(s.db, p.id, o) {
      assert s.db.occurrences[o].key.tenant == p.snapshot.tenant;
    }
    if HasOpen(s.db, p.snapshot.tenant, p.id) {
      var o :| o in s.db.occurrences && s.db.occurrences[o].key.tenant == p.snapshot.tenant
        && s.db.occurrences[o].key.scheduleId == p.id && OccOpen(s.db.occurrences[o].status);
      assert IsOpen(s.db, p.id, o);
    }
  }

  // ---- The inserted rows -----------------------------------------------------------------------

  ghost predicate Free(db: Db, id: Id, r: ScheduleRow, p: Plan) {
    forall o | o in db.occurrences :: db.occurrences[o].key != OccurrenceKey(r.tenant, id, p.scheduledAt)
  }

  ghost predicate DistinctInstants(plans: seq<Plan>) {
    forall i, j | 0 <= i < j < |plans| :: plans[i].scheduledAt != plans[j].scheduledAt
  }

  /** An earlier plan of the same batch that dispatches and whose instant is free. */
  ghost predicate DispatchedEarlier(db: Db, id: Id, r: ScheduleRow, plans: seq<Plan>, i: nat)
    requires i <= |plans|
  {
    exists j | 0 <= j < i :: plans[j].dispatch && Free(db, id, r, plans[j])
  }

  /** Plan i is sent: it dispatches, and under `forbid` nothing was open and nothing earlier in the batch is sent. */
  ghost predicate Goes(db: Db, id: Id, r: ScheduleRow, plans: seq<Plan>, open: bool, i: nat)
    requires i < |plans|
  {
    plans[i].dispatch && !open && !(r.def.overlap.Forbid? && DispatchedEarlier(db, id, r, plans, i))
  }

  /** The occurrence recorded for a plan that is sent or not. */
  ghost predicate RecordedAs(o: OccurrenceRow, id: Id, r: ScheduleRow, p: Plan, goes: bool) {
    && o.key == OccurrenceKey(r.tenant, id, p.scheduledAt) && o.scheduleName == r.name
    && o.observedAt == p.observedAt && o.missedCount == p.missedCount && o.attempts == 0 && o.report == NO_REPORT
    && (if goes then o.status.OccPending? && o.outcome == p.outcome && o.completedAt.None?
        else && o.status.OccSkipped? && o.completedAt == Some(p.observedAt)
             && o.outcome == if p.dispatch then OverlapBlocked else p.outcome)
  }

  /** The outbox row of a plan that is sent: unclaimed, due at once, no attempt made. */
  ghost predicate QueuedAs(x: OutboxRow, o: Id, p: Plan) {
    && x.job.occurrenceId == o && x.status.BoxPending? && x.attempts == 0 && x.nextAttemptAt == p.observedAt
    && x.firstAttemptAt.None? && x.claimOwner.None? && x.claimExpires.None? && x.completedAt.None?
    && x.report == NO_REPORT
  }

  ghost predicate NotQueued(db: Db, o: Id) {
    forall x | x in db.outbox :: db.outbox[x].job.occurrenceId != o
  }

  /** The rows of one plan: the occurrence, and an outbox row exactly if it goes. */
  ghost predicate WrittenFor(db: Db, id: Id, r: ScheduleRow, p: Plan, goes: bool, ids: (Id, Id)) {
    && ids.0 in db.occurrences && RecordedAs(db.occurrences[ids.0], id, r, p, goes)
    && (goes ==> ids.1 in db.outbox && QueuedAs(db.outbox[ids.1], ids.0, p))
    && (!goes ==> NotQueued(db, ids.0))
  }

  lemma InsertOneAsPlanned(db: Db, id: Id, r: ScheduleRow, plan: Plan, open: bool, ids: (Id, Id))
    requires GoodPlan(plan) && NotQueued(db, ids.0) && ids.1 !in db.outbox
    ensures var (db1, open1) := InsertPlan(db, id, r, plan, open, ids);
            && (Free(db, id, r, plan) ==> WrittenFor(db1, id, r, plan, plan.dispatch && !open, ids))
            && (open1 <==> open || (r.def.overlap.Forbid? && plan.dispatch && Free(db, id, r, plan)))
  {
    assert Taken(db, KeyOf(id, r, Effective(plan, open))) <==> !Free(db, id, r, plan);
  }

  /** Later rounds leave the rows of an earlier plan alone. */
  lemma {:induction false} InsertsLeave(
    db: Db, id: Id, r: ScheduleRow, plans: seq<Plan>, open: bool, ids: seq<(Id, Id)>, o: Id)
    requires |plans| == |ids| && FreshIds(db, ids) && o in db.occurrences && NotQueued(db, o)
    ensures NotQueued(InsertPlans(db, id, r, plans, open, ids), o)
    decreases |plans|
  {
    if |plans| > 0 {
      var (db1, open1) := InsertPlan(db, id, r, plans[0], open, ids[0]);
      Liveness.FreshIdsStayFresh(db, id, r, plans[0], open, ids);
      InsertsLeave(db1, id, r, plans[1..], open1, ids[1..], o);
    }
  }

  lemma FirstStaysWritten(
    db: Db, id: Id, r: ScheduleRow, plans: seq<Plan>, open: bool, ids: seq<(Id, Id)>,
    p: Plan, goes: bool, first: (Id, Id))
    requires |plans| == |ids| && FreshIds(db, ids) && WrittenFor(db, id, r, p, goes, first)
    requires forall i | 0 <= i < |ids| :: ids[i].1 != first.1
    ensures WrittenFor(InsertPlans(db, id, r, plans, open, ids), id, r, p, goes, first)
  {
    Progress.InsertedArePlanned(db, id, r, plans, open, ids, first.0);
    if goes {
      InsertPlansKeepRow(db, id, r, plans, open, ids, first.1);
    } else {
      InsertsLeave(db, id, r, plans, open, ids, first.0);
    }
  }

  /** After one round the rest of the batch is as free, and as likely to go, as the whole batch said before it. */
  lemma RestGoesTheSame(
    db: Db, id: Id, r: ScheduleRow, plans: seq<Plan>, open: bool, ids: (Id, Id), i: nat)
    requires 0 < i < |plans| && DistinctInstants(plans) && ids.0 !in db.occurrences
    requires NotQueued(db, ids.0) && ids.1 !in db.outbox && GoodPlan(plans[0])
    ensures var (db1, open1) := InsertPlan(db, id, r, plans[0], open, ids);
            && (Free(db1, id, r, plans[i]) <==> Free(db, id, r, plans[i]))
            && (Goes(db1, id, r, plans[1..], open1, i - 1) <==> Goes(db, id, r, plans, open, i))
  {
    var (db1, open1) := InsertPlan(db, id, r, plans[0], open, ids);
    var rest := plans[1..];
    InsertOneAsPlanned(db, id, r, plans[0], open, ids);
    Progress.InsertAddsPlanned(db, id, r, plans[0], open, ids);
    forall j | 0 < j < |plans| ensures Free(db1, id, r, plans[j]) <==> Free(db, id, r, plans[j]) {
      FreeStays(db, db1, id, r, plans[0], plans[j], ids.0);
    }
    if DispatchedEarlier(db1, id, r, rest, i - 1) {
      var j :| 0 <= j < i - 1 && rest[j].dispatch && Free(db1, id, r, rest[j]);
      assert rest[j] == plans[j + 1];
    }
    if DispatchedEarlier(db, id, r, plans, i) {
      var j :| 0 <= j < i && plans[j].dispatch && Free(db, id, r, plans[j]);
      if j > 0 {
        assert rest[j - 1] == plans[j];
      }
    }
  }

  lemma FreeStays(db: Db, db1: Db, id: Id, r: ScheduleRow, first: Plan, p: Plan, o: Id)
    requires first.scheduledAt != p.scheduledAt && o !in db.occurrences
    requires db1.occurrences == db.occurrences || exists q: OccurrenceRow ::
               q.key == KeyOf(id, r, first) && db1.occurrences == db.occurrences[o := q]
    ensures Free(db1, id, r, p) <==> Free(db, id, r, p)
  {
    assert forall x | x in db.occurrences :: x in db1.occurrences && db1.occurrences[x] == db.occurrences[x];
    assert forall x | x in db1.occurrences && x !in db.occurrences :: db1.occurrences[x].key == KeyOf(id, r, first);
  }

  /** Every plan whose instant is free is written exactly as it goes or does not go. */
  lemma {:induction false} InsertedAsPlanned(
    db: Db, id: Id, r: ScheduleRow, plans: seq<Plan>, open: bool, ids: seq<(Id, Id)>, i: nat)
    requires |plans| == |ids| && FreshIds(db, ids) && i < |plans|
    requires DistinctInstants(plans) && (forall k | 0 <= k < |plans| :: GoodPlan(plans[k]))
    requires forall k | 0 <= k < |ids| :: NotQueued(db, ids[k].0)
    requires Free(db, id, r, plans[i])
    ensures WrittenFor(InsertPlans(db, id, r, plans, open, ids), id, r, plans[i],
                       Goes(db, id, r, plans, open, i), ids[i])
    decreases |plans|
  {
    var (db1, open1) := InsertPlan(db, id, r, plans[0], open, ids[0]);
    var rest, more := plans[1..], ids[1..];
    Liveness.FreshIdsStayFresh(db, id, r, plans[0], open, ids);
    InsertOneAsPlanned(db, id, r, plans[0], open, ids[0]);
    if i == 0 {
      assert !DispatchedEarlier(db, id, r, plans, 0);
      FirstStaysWritten(db1, id, r, rest, open1, more, plans[0], plans[0].dispatch && !open, ids[0]);
    } else {
      RestGoesTheSame(db, id, r, plans, open, ids[0], i);
      assert rest[i - 1] == plans[i] && more[i - 1] == ids[i];
      StillNotQueued(db, id, r, plans[0], open, ids);
      InsertedAsPlanned(db1, id, r, rest, open1, more, i - 1);
    }
  }

  lemma StillNotQueued(db: Db, id: Id, r: ScheduleRow, plan: Plan, open: bool, ids: seq<(Id, Id)>)
    requires |ids| > 0 && FreshIds(db, ids) && forall k | 0 <= k < |ids| :: NotQueued(db, ids[k].0)
    ensures forall k | 0 <= k < |ids[1..]| :: NotQueued(InsertPlan(db, id, r, plan, open, ids[0]).0, ids[1..][k].0)
  {
  }

  // ---- The commit ------------------------------------------------------------------------------

  /** The advanced schedule: due as planned, used up exactly if it has a once trigger, unclaimed, one version on. */
  lemma MaterializedRow(rec: Recurrence, s: State, task: nat, ids: seq<(Id, Id)>)
    requires Inv(s) && CanCommitPlan(rec, s, task, ids) && PlanCommit(rec, s, task, ids).Some?
    ensures var id := s.planners[task].id;
            var t := DoCommitPlan(rec, s, task, ids);
            && id in s.db.schedules && id in t.db.schedules
            && var r, q := s.db.schedules[id], t.db.schedules[id];
            && q.tenant == r.tenant && q.name == r.name && q.def == r.def && q.version == r.version + 1
            && var plan := PlanSchedule(rec, r.def, r.nextDue, s.planners[task].now);
            && plan.Planned? && q.nextDue == plan.next
            && q.status == (if r.def.runAt.Some? then Exhausted else Active)
            && q.claimOwner.None? && q.claimExpires.None?
            && t.db.schedules == s.db.schedules[id := q]
            && task !in t.planners
  {
    var p := s.planners[task];
    assert PlannerOk(s, task);
    InsertedIsSafe(rec, s, task, ids);
    PlanIsProper(rec, p.snapshot.def, p.snapshot.nextDue.value, p.now);
  }

  /**
   * A committed materialization writes, for each planned instant that was free, its occurrence, and an
   * outbox row if and only if the plan dispatches and overlap does not forbid it.
   */
  lemma MaterializedAsPlanned(rec: Recurrence, s: State, task: nat, ids: seq<(Id, Id)>, i: nat)
    requires Inv(s) && CanCommitPlan(rec, s, task, ids) && PlanCommit(rec, s, task, ids).Some? && StepsForward(rec)
    requires i < |PlanOf(rec, s.planners[task]).plans|
    requires Free(s.db, s.planners[task].id, s.planners[task].snapshot, PlanOf(rec, s.planners[task]).plans[i])
    ensures var p := s.planners[task];
            var plans := PlanOf(rec, p).plans;
            WrittenFor(DoCommitPlan(rec, s, task, ids).db, p.id, p.snapshot, plans[i],
                       Goes(s.db, p.id, p.snapshot, plans, SawOpen(p), i), ids[i])
  {
    var p := s.planners[task];
    var plans := PlanOf(rec, p).plans;
    assert PlannerOk(s, task);
    PlanIsProper(rec, p.snapshot.def, p.snapshot.nextDue.value, p.now);
    PlansIncrease(rec, p.snapshot.def, p.snapshot.nextDue.value, p.now);
    forall k | 0 <= k < |ids| ensures NotQueued(s.db, ids[k].0) {
      NoRowForFreshId(s.db, ids[k].0);
    }
    InsertedAsPlanned(s.db, p.id, p.snapshot, plans, SawOpen(p), ids, i);
  }

  /**
   * The misfire policy over a commit: with nothing open and its instant free, a due instant outside
   * bounded catch-up gets a pending outbox row if and only if it is on time or the policy is not `skip`;
   * otherwise it is recorded as skipped by the policy.
   */
  lemma DueInstantIsSentUnlessSkipped(rec: Recurrence, s: State, task: nat, ids: seq<(Id, Id)>)
    requires Inv(s) && CanCommitPlan(rec, s, task, ids) && PlanCommit(rec, s, task, ids).Some? && StepsForward(rec)
    requires var p := s.planners[task];
             var d := p.snapshot.def;
             && p.snapshot.nextDue.Some? && !SawOpen(p)
             && (d.runAt.Some? || p.snapshot.nextDue == Some(p.now) || !d.misfire.CatchUpBounded?)
             && Free(s.db, p.id, p.snapshot, DispatchPlan(p.snapshot.nextDue.value, p.now))
    ensures var p := s.planners[task];
            var due := p.snapshot.nextDue.value;
            var sent := due == p.now || !p.snapshot.def.misfire.Skip?;
            var t := DoCommitPlan(rec, s, task, ids);
            && |ids| == 1
            && ids[0].0 in t.db.occurrences
            && t.db.occurrences[ids[0].0].key == OccurrenceKey(p.snapshot.tenant, p.id, due)
            && t.db.occurrences[ids[0].0].status == (if sent then OccPending else OccSkipped)
            && t.db.occurrences[ids[0].0].outcome == (if sent then NoCode else MisfireSkipped)
            && (sent <==> exists x :: x in t.db.outbox && t.db.outbox[x].job.occurrenceId == ids[0].0)
            && (sent ==> ids[0].1 in t.db.outbox && t.db.outbox[ids[0].1].status.BoxPending?
                         && t.db.outbox[ids[0].1].nextAttemptAt == p.now)
  {
    var p := s.planners[task];
    assert PlannerOk(s, task);
    MisfirePolicy(rec, p.snapshot.def, p.snapshot.nextDue.value, p.now);
    var plans := PlanOf(rec, p).plans;
    assert !DispatchedEarlier(s.db, p.id, p.snapshot, plans, 0);
    MaterializedAsPlanned(rec, s, task, ids, 0);
    var t := DoCommitPlan(rec, s, task, ids);
    if Goes(s.db, p.id, p.snapshot, plans, SawOpen(p), 0) {
      assert t.db.outbox[ids[0].1].job.occurrenceId == ids[0].0;
    }
  }
}
