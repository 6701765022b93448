/** A once trigger fires at most once and is never revived. */
module OnceTriggers {
  import opened Domain
  import opened Planner
  import opened Tables
  import opened Protocol
  import opened Invariant
  import opened Preservation
  import opened Runs

  /** One schedule id and one instant have at most one occurrence in any reachable state, whatever the clocks do. */
  lemma InstantFiresAtMostOnce(rec: Recurrence, run: Run, i: nat, id: Id, at: Instant, o: Id, p: Id)
    requires ValidRun(rec, run) && i < |run.states|
    requires o in run.states[i].db.occurrences && p in run.states[i].db.occurrences
    requires run.states[i].db.occurrences[o].key.scheduleId == id == run.states[i].db.occurrences[p].key.scheduleId
    requires run.states[i].db.occurrences[o].key.scheduledAt == at == run.states[i].db.occurrences[p].key.scheduledAt
    ensures o == p
  {
    InvHolds(rec, run, i);
    assert OccurrenceOwned(run.states[i], o);
    assert OccurrenceOwned(run.states[i], p);
  }

  /** The schedule is gone, or used up for run_at `at`. */
  ghost predicate UsedUp(s: State, id: Id, at: Instant) {
    id in s.issued
    && (id in s.db.schedules ==> s.db.schedules[id].status.Exhausted? && s.db.schedules[id].def.runAt == Some(at))
  }

  /** The schedule, where it exists, has the once trigger `at`. */
  ghost predicate TriggersAt(s: State, id: Id, at: Instant) {
    id in s.db.schedules ==> s.db.schedules[id].def.runAt == Some(at)
  }

  /** No planner can commit for an exhausted or deleted schedule. */
  lemma UsedUpPlansNothing(rec: Recurrence, s: State, task: nat, ids: seq<(Id, Id)>, id: Id, at: Instant)
    requires Inv(s) && CanCommitPlan(rec, s, task, ids) && UsedUp(s, id, at)
    ensures UsedUp(DoCommitPlan(rec, s, task, ids), id, at)
    ensures s.planners[task].id == id ==> PlanCommit(rec, s, task, ids).None?
  {
    InsertedIsSafe(rec, s, task, ids);
    if id in s.db.schedules {
      assert RowOk(s, id);
    }
  }

  /** A pause, resume or same-run_at replace of an exhausted row leaves it exhausted. */
  lemma OutcomeNeverRevives(rec: Recurrence, db: Db, c: CommandTask, newId: Id, id: Id, at: Instant)
    requires id in db.schedules && newId !in db.schedules && ScheduleCheck(db.schedules[id])
    requires db.schedules[id].status.Exhausted? && db.schedules[id].def.runAt == Some(at)
    requires c.current.Found? && c.current.id == id && db.schedules[id].version == c.current.row.version ==>
               SameButClaim(c.current.row, db.schedules[id])
    requires ApplyCommand(rec, db, c, newId).Applied?
    ensures var after := ApplyCommand(rec, db, c, newId).db.schedules;
            id in after && after[id].def.runAt == Some(at) ==> after[id].status.Exhausted?
  {
  }

  lemma CommandNeverRevives(rec: Recurrence, s: State, task: nat, newId: Id, createdAt: Instant, id: Id, at: Instant)
    requires Inv(s) && CanCommitCommand(s, task, newId) && UsedUp(s, id, at)
    requires TriggersAt(DoCommitCommand(rec, s, task, newId, createdAt), id, at)
    ensures UsedUp(DoCommitCommand(rec, s, task, newId, createdAt), id, at)
  {
    assert CommandOk(s, task);
    CommitCommandKeeps(rec, s, task, newId, createdAt);
    if id in DoCommitCommand(rec, s, task, newId, createdAt).db.schedules {
      assert RowEvolves(s, DoCommitCommand(rec, s, task, newId, createdAt), id);
      assert RowOk(s, id);
      assert newId in s.db.schedules ==> RowOk(s, newId);
      if ApplyCommand(rec, s.db, s.commands[task], newId).Applied? {
        OutcomeNeverRevives(rec, s.db, s.commands[task], newId, id, at);
      }
    }
  }

  lemma StepNeverRevives(rec: Recurrence, s: State, step: Step, t: State, id: Id, at: Instant)
    requires Inv(s) && Next(rec, s, step, t) && UsedUp(s, id, at) && TriggersAt(t, id, at)
    ensures UsedUp(t, id, at)
  {
    if step.CommitPlan? {
      UsedUpPlansNothing(rec, s, step.task, step.ids, id, at);
    } else if step.CommitCommand? {
      CommandNeverRevives(rec, s, step.task, step.newId, step.createdAt, id, at);
    } else {
      StepKeeps(rec, s, step, t);
    }
  }

  /** Occurrences of `id` in t were already there in s. */
  ghost predicate NothingAdded(s: State, t: State, id: Id) {
    forall o | o in t.db.occurrences && t.db.occurrences[o].key.scheduleId == id :: o in s.db.occurrences
  }

  lemma StepAddsNothing(rec: Recurrence, s: State, step: Step, t: State, id: Id, at: Instant)
    requires Inv(s) && Next(rec, s, step, t) && UsedUp(s, id, at)
    ensures NothingAdded(s, t, id)
  {
    if step.CommitPlan? {
      UsedUpPlansNothing(rec, s, step.task, step.ids, id, at);
      var p := s.planners[step.task];
      forall o | o in t.db.occurrences && t.db.occurrences[o].key.scheduleId == id ensures o in s.db.occurrences {
        InsertedBelong(s.db, p.id, p.snapshot, PlanOf(rec, p).plans, SawOpen(p), step.ids, o);
      }
    } else {
      StepKeeps(rec, s, step, t);
    }
  }

  /**
   * Once exhausted, always exhausted: whatever pauses, resumes and replaces with the same run_at are
   * tried, the row stays exhausted without a next due instant and gets no further occurrence.  Only a
   * replace with a different trigger, excluded here by TriggersAt, arms it again.
   */
  lemma {:induction false} ExhaustedIsNeverRevived(rec: Recurrence, run: Run, i: nat, j: nat, id: Id, at: Instant)
    requires ValidRun(rec, run) && i <= j < |run.states|
    requires id in run.states[i].db.schedules && run.states[i].db.schedules[id].status.Exhausted?
    requires forall k | i <= k <= j :: TriggersAt(run.states[k], id, at)
    ensures UsedUp(run.states[j], id, at)
    ensures id in run.states[j].db.schedules ==>
              run.states[j].db.schedules[id].status.Exhausted? && run.states[j].db.schedules[id].nextDue == None
    ensures NothingAdded(run.states[i], run.states[j], id)
  {
    if i < j {
      ExhaustedIsNeverRevived(rec, run, i, j - 1, id, at);
      NeverRevivedAt(rec, run, j - 1, id, at);
      RunEvolves(rec, run, j - 1, j);
    } else {
      ScheduleChecksHold(rec, run, i, id);
      IssuedCovers(rec, run, i, id);
    }
    if id in run.states[j].db.schedules {
      ScheduleChecksHold(rec, run, j, id);
    }
  }

  lemma IssuedCovers(rec: Recurrence, run: Run, i: nat, id: Id)
    requires ValidRun(rec, run) && i < |run.states| && id in run.states[i].db.schedules
    ensures id in run.states[i].issued
  {
    InvHolds(rec, run, i);
    assert RowOk(run.states[i], id);
  }

  lemma NeverRevivedAt(rec: Recurrence, run: Run, i: nat, id: Id, at: Instant)
    requires ValidRun(rec, run) && i < |run.steps|
    requires UsedUp(run.states[i], id, at) && TriggersAt(run.states[i + 1], id, at)
    ensures UsedUp(run.states[i + 1], id, at) && NothingAdded(run.states[i], run.states[i + 1], id)
  {
    InvHolds(rec, run, i);
    assert StepAt(rec, run, i);
    StepNeverRevives(rec, run.states[i], run.steps[i], run.states[i + 1], id, at);
    StepAddsNothing(rec, run.states[i], run.steps[i], run.states[i + 1], id, at);
  }

  /** Where a replace with a different trigger puts the schedule: a future run_at, or the rule's next instant. */
  function RearmedAt(rec: Recurrence, d: Definition, now: Instant): Option<Instant> {
    if d.runAt.None? then rec.next(RuleOf(d), d.timezone, now)
    else if d.runAt.value > now then d.runAt
    else None
  }

  /**
   * A replace with a different trigger, another run_at or a recurring rule, arms the row again at
   * exactly the instant the trigger names; if it names none, the row stays as it was.
   */
  lemma DifferentTriggerRearms(rec: Recurrence, s: State, task: nat, newId: Id, createdAt: Instant)
    requires Inv(s) && CanCommitCommand(s, task, newId)
    requires var t := s.commands[task];
             && t.cmd.op.Update? && t.current.Found? && SameVersion(s.db, t.current.id, t.current.row)
             && (t.cmd.def.runAt.None? || t.cmd.def.runAt != t.current.row.def.runAt)
    ensures var t := s.commands[task];
            var at := RearmedAt(rec, t.cmd.def, t.now);
            var after := DoCommitCommand(rec, s, task, newId, createdAt).db.schedules;
            && t.current.id in after
            && (after[t.current.id] == s.db.schedules[t.current.id] <==> at.None?)
            && (at.Some? ==> after[t.current.id].status == t.cmd.status && after[t.current.id].nextDue == at)
  {
  }
}
