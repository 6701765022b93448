/** What holds between two moments of any run: finality of rows and fencing by version. */
module Runs {
  import opened Domain
  import opened Planner
  import opened Tables
  import opened Protocol
  import opened Coupling
  import opened Invariant
  import opened Preservation

  lemma RunStep(rec: Recurrence, run: Run, i: nat)
    requires ValidRun(rec, run) && i < |run.steps|
    ensures Inv(run.states[i])
    ensures Kept(run.states[i], run.states[i + 1])
    ensures !run.steps[i].CommitPlan? ==> KeptQuietly(run.states[i], run.states[i + 1])
  {
    InvHolds(rec, run, i);
    assert StepAt(rec, run, i);
    StepKeeps(rec, run.states[i], run.steps[i], run.states[i + 1]);
  }

  lemma SchedulesEvolveTransitive(a: State, b: State, c: State)
    requires SchedulesOk(a) && SchedulesEvolve(a, b) && SchedulesEvolve(b, c)
    ensures SchedulesEvolve(a, c)
  {
    forall id | id in c.db.schedules ensures RowEvolves(a, c, id) {
      assert id in a.db.schedules ==> RowOk(a, id);
      assert RowEvolves(b, c, id);
      if id in b.db.schedules {
        assert RowEvolves(a, b, id);
      }
    }
  }

  lemma {:induction false} RunEvolves(rec: Recurrence, run: Run, i: nat, j: nat)
    requires ValidRun(rec, run) && i <= j < |run.states|
    ensures Evolves(run.states[i].db, run.states[j].db) && SchedulesEvolve(run.states[i], run.states[j])
    decreases j - i
  {
    InvHolds(rec, run, i);
    if i < j {
      RunStep(rec, run, i);
      RunEvolves(rec, run, i + 1, j);
      EvolvesTransitive(run.states[i].db, run.states[i + 1].db, run.states[j].db);
      SchedulesEvolveTransitive(run.states[i], run.states[i + 1], run.states[j]);
    } else {
      SchedulesUntouched(run.states[i], run.states[i]);
    }
  }

  // ---- Coupling and finality -------------------------------------------------------------------

  /**
   * In every reachable state a skipped occurrence has no outbox row; any other has exactly one, with
   * the same tenant, schedule and instant, and the two statuses form an allowed pair.
   */
  lemma TablesStayCoupled(rec: Recurrence, run: Run, i: nat, o: Id)
    requires ValidRun(rec, run) && i < |run.states| && o in run.states[i].db.occurrences
    ensures var db := run.states[i].db;
            && OccurrenceCheck(db.occurrences[o])
            && (db.occurrences[o].status.OccSkipped? ==>
                  forall x | x in db.outbox :: db.outbox[x].job.occurrenceId != o)
            && (!db.occurrences[o].status.OccSkipped? ==>
                  exists x | x in db.outbox ::
                    && db.outbox[x].job.occurrenceId == o && db.outbox[x].job.key == db.occurrences[o].key
                    && AllowedPair(db.outbox[x].status, db.occurrences[o].status) && OutboxCheck(db.outbox[x])
                    && forall y | y in db.outbox && db.outbox[y].job.occurrenceId == o :: y == x)
  {
    InvHolds(rec, run, i);
    var db := run.states[i].db;
    assert Covered(db, o);
    if !db.occurrences[o].status.OccSkipped? {
      var x :| x in db.outbox && db.outbox[x].job.occurrenceId == o;
      assert RowCoupled(db, x);
    }
  }

  /** A terminal occurrence never changes again, although no occurrence update tests its status. */
  lemma TerminalOccurrenceIsFinal(rec: Recurrence, run: Run, i: nat, j: nat, o: Id)
    requires ValidRun(rec, run) && i <= j < |run.states|
    requires o in run.states[i].db.occurrences && !OccOpen(run.states[i].db.occurrences[o].status)
    ensures o in run.states[j].db.occurrences && run.states[j].db.occurrences[o] == run.states[i].db.occurrences[o]
  {
    RunEvolves(rec, run, i, j);
  }

  /** A terminal outbox row never changes again; any row keeps its job, its first attempt and all its attempts. */
  lemma OutboxRowIsMonotone(rec: Recurrence, run: Run, i: nat, j: nat, x: Id)
    requires ValidRun(rec, run) && i <= j < |run.states| && x in run.states[i].db.outbox
    ensures x in run.states[j].db.outbox
    ensures var a, b := run.states[i].db.outbox[x], run.states[j].db.outbox[x];
            && (!BoxOpen(a.status) ==> b == a)
            && b.job == a.job && a.attempts <= b.attempts
            && (a.firstAttemptAt.Some? ==> b.firstAttemptAt == a.firstAttemptAt)
  {
    RunEvolves(rec, run, i, j);
  }

  /** Schedule rows satisfy every CHECK in every reachable state, and names stay unique. */
  lemma ScheduleChecksHold(rec: Recurrence, run: Run, i: nat, id: Id)
    requires ValidRun(rec, run) && i < |run.states| && id in run.states[i].db.schedules
    ensures ScheduleCheck(run.states[i].db.schedules[id])
    ensures forall k | k in run.states[i].db.schedules ::
              var r, q := run.states[i].db.schedules[id], run.states[i].db.schedules[k];
              q.tenant == r.tenant && q.name == r.name ==> k == id
  {
    InvHolds(rec, run, i);
    assert RowOk(run.states[i], id);
  }

  // ---- Version fencing -------------------------------------------------------------------------

  datatype Consumption = Nothing | Consumption(id: Id, version: int)

  /** The schedule version a committed advance, replace, pause or resume was based on. */
  ghost function Consumes(rec: Recurrence, s: State, step: Step): Consumption
    requires Enabled(rec, s, step)
  {
    if step.CommitPlan? && PlanCommit(rec, s, step.task, step.ids).Some? then
      Consumption(s.planners[step.task].id, s.planners[step.task].snapshot.version)
    else if step.CommitCommand? then
      var c := s.commands[step.task];
      var o := ApplyCommand(rec, s.db, c, step.newId);
      if o.Applied? && (o.code.Updated? || o.code.PausedResult? || o.code.ResumedResult?) then
        Consumption(c.current.id, c.current.row.version)
      else Nothing
    else Nothing
  }

  /** From s to t the version moved from v to v + 1, and only in row id. */
  ghost predicate VersionMoved(s: State, t: State, id: Id, v: int) {
    && id in s.db.schedules && s.db.schedules[id].version == v
    && id in t.db.schedules && t.db.schedules[id].version == v + 1
    && t.db.schedules == s.db.schedules[id := t.db.schedules[id]]
  }

  lemma PlanMovesVersion(rec: Recurrence, s: State, task: nat, ids: seq<(Id, Id)>)
    requires Inv(s) && CanCommitPlan(rec, s, task, ids) && PlanCommit(rec, s, task, ids).Some?
    ensures VersionMoved(s, DoCommitPlan(rec, s, task, ids), s.planners[task].id, s.planners[task].snapshot.version)
  {
    InsertedIsSafe(rec, s, task, ids);
  }

  lemma CommandMovesVersion(rec: Recurrence, s: State, task: nat, newId: Id, createdAt: Instant)
    requires CanCommitCommand(s, task, newId)
    requires var o := ApplyCommand(rec, s.db, s.commands[task], newId);
             o.Applied? && (o.code.Updated? || o.code.PausedResult? || o.code.ResumedResult?)
    ensures var c := s.commands[task].current;
            VersionMoved(s, DoCommitCommand(rec, s, task, newId, createdAt), c.id, c.row.version)
  {
  }

  /** A consuming step finds exactly its version in the table and replaces it by the next one. */
  lemma ConsumptionMovesVersion(rec: Recurrence, s: State, step: Step, t: State)
    requires Inv(s) && Next(rec, s, step, t) && Consumes(rec, s, step).Consumption?
    ensures VersionMoved(s, t, Consumes(rec, s, step).id, Consumes(rec, s, step).version)
  {
    if step.CommitPlan? {
      PlanMovesVersion(rec, s, step.task, step.ids);
    } else {
      CommandMovesVersion(rec, s, step.task, step.newId, step.createdAt);
    }
  }

  /**
   * Each version of a schedule is consumed by at most one committed advance, replace, pause or
   * resume of a run.  Identifiers are not reused, so this also fences delete-and-recreate by name.
   */
  lemma VersionConsumedOnce(rec: Recurrence, run: Run, i: nat, j: nat)
    requires ValidRun(rec, run) && i < j < |run.steps|
    requires ConsumedAt(rec, run, i).Consumption? && ConsumedAt(rec, run, j).Consumption?
    requires ConsumedAt(rec, run, i).id == ConsumedAt(rec, run, j).id
    ensures ConsumedAt(rec, run, i).version < ConsumedAt(rec, run, j).version
  {
    var id := ConsumedAt(rec, run, i).id;
    ConsumedMoves(rec, run, i);
    ConsumedMoves(rec, run, j);
    RunEvolves(rec, run, i + 1, j);
    assert RowEvolves(run.states[i + 1], run.states[j], id);
  }

  ghost function ConsumedAt(rec: Recurrence, run: Run, i: nat): Consumption
    requires ValidRun(rec, run) && i < |run.steps|
  {
    assert StepAt(rec, run, i);
    Consumes(rec, run.states[i], run.steps[i])
  }

  lemma ConsumedMoves(rec: Recurrence, run: Run, i: nat)
    requires ValidRun(rec, run) && i < |run.steps| && ConsumedAt(rec, run, i).Consumption?
    ensures VersionMoved(run.states[i], run.states[i + 1], ConsumedAt(rec, run, i).id, ConsumedAt(rec, run, i).version)
  {
    InvHolds(rec, run, i);
    assert StepAt(rec, run, i);
    ConsumptionMovesVersion(rec, run.states[i], run.steps[i], run.states[i + 1]);
  }

  /** A planner leaves no trace in any table unless its version and its claim are still in place. */
  lemma LosingPlannerLeavesNothing(rec: Recurrence, s: State, task: nat, ids: seq<(Id, Id)>)
    requires Inv(s) && CanCommitPlan(rec, s, task, ids)
    ensures var p := s.planners[task];
            DoCommitPlan(rec, s, task, ids).db != s.db <==>
              && p.id in s.db.schedules && s.db.schedules[p.id].version == p.snapshot.version
              && s.db.schedules[p.id].claimOwner == Some(p.worker)
  {
    assert PlannerOk(s, task);
    if s.planners[task].id in s.db.schedules {
      assert RowOk(s, s.planners[task].id);
    }
    InsertedIsSafe(rec, s, task, ids);
    if PlanCommit(rec, s, task, ids).Some? {
      PlanMovesVersion(rec, s, task, ids);
    }
  }

  // ---- Outbox rows capture the definition in force ---------------------------------------------

  predicate Captures(job: Job, id: Id, r: ScheduleRow) {
    && job.key.tenant == r.tenant && job.key.scheduleId == id && job.scheduleName == r.name
    && job.url == r.def.url && job.verb == r.def.verb && job.payload == r.def.payload && job.retry == r.def.retry
  }

  lemma {:induction false} InsertedCapture(
    db: Db, id: Id, r: ScheduleRow, plans: seq<Plan>, open: bool, ids: seq<(Id, Id)>, x: Id)
    requires |plans| == |ids|
    ensures var db' := InsertPlans(db, id, r, plans, open, ids);
            x in db'.outbox && x !in db.outbox ==> Captures(db'.outbox[x].job, id, r)
    ensures var db' := InsertPlans(db, id, r, plans, open, ids);
            x in db'.outbox && x in db.outbox && db'.outbox[x] != db.outbox[x] ==> Captures(db'.outbox[x].job, id, r)
    decreases |plans|
  {
    if |plans| > 0 {
      var (db1, open1) := InsertPlan(db, id, r, plans[0], open, ids[0]);
      InsertedCapture(db1, id, r, plans[1..], open1, ids[1..], x);
    }
  }

  lemma PlannedRowCaptures(rec: Recurrence, s: State, task: nat, ids: seq<(Id, Id)>, x: Id)
    requires Inv(s) && CanCommitPlan(rec, s, task, ids)
    requires x !in s.db.outbox && x in DoCommitPlan(rec, s, task, ids).db.outbox
    ensures var job := DoCommitPlan(rec, s, task, ids).db.outbox[x].job;
            && job.key.scheduleId in s.db.schedules
            && Captures(job, job.key.scheduleId, s.db.schedules[job.key.scheduleId])
  {
    var p := s.planners[task];
    assert PlannerOk(s, task);
    InsertedIsSafe(rec, s, task, ids);
    InsertedCapture(s.db, p.id, p.snapshot, PlanOf(rec, p).plans, SawOpen(p), ids, x);
  }

  lemma NewRowCaptures(rec: Recurrence, s: State, step: Step, t: State, x: Id)
    requires Inv(s) && Next(rec, s, step, t)
    requires x !in s.db.outbox && x in t.db.outbox
    ensures var job := t.db.outbox[x].job;
            && job.key.scheduleId in s.db.schedules
            && Captures(job, job.key.scheduleId, s.db.schedules[job.key.scheduleId])
  {
    StepKeeps(rec, s, step, t);
    if step.CommitPlan? {
      PlannedRowCaptures(rec, s, step.task, step.ids, x);
    }
  }

  lemma NewRowCapturesAt(rec: Recurrence, run: Run, i: nat, x: Id)
    requires ValidRun(rec, run) && i < |run.steps|
    requires x !in run.states[i].db.outbox && x in run.states[i + 1].db.outbox
    ensures var job := run.states[i + 1].db.outbox[x].job;
            && job.key.scheduleId in run.states[i].db.schedules
            && Captures(job, job.key.scheduleId, run.states[i].db.schedules[job.key.scheduleId])
  {
    InvHolds(rec, run, i);
    assert StepAt(rec, run, i);
    NewRowCaptures(rec, run.states[i], run.steps[i], run.states[i + 1], x);
  }

  /** Every outbox row was committed at some step, and holds the definition the schedule had right then. */
  lemma {:induction false} OutboxCapturesDefinition(rec: Recurrence, run: Run, j: nat, x: Id) returns (i: nat)
    requires ValidRun(rec, run) && j < |run.states| && x in run.states[j].db.outbox
    ensures i < j && x !in run.states[i].db.outbox && x in run.states[i + 1].db.outbox
    ensures var job := run.states[j].db.outbox[x].job;
            && run.states[i + 1].db.outbox[x].job == job
            && job.key.scheduleId in run.states[i].db.schedules
            && Captures(job, job.key.scheduleId, run.states[i].db.schedules[job.key.scheduleId])
  {
    assert j > 0;
    if x in run.states[j - 1].db.outbox {
      RunStep(rec, run, j - 1);
      i := OutboxCapturesDefinition(rec, run, j - 1, x);
    } else {
      i := j - 1;
      NewRowCapturesAt(rec, run, i, x);
    }
  }
}
