/** `forbid` is safe over whole runs, although the open check is an earlier, unlocked read. */
module OverlapSafety {
  import opened Domain
  import opened Planner
  import opened Tables
  import opened Protocol
  import opened Invariant
  import opened Preservation
  import opened Runs

  ghost predicate IsOpen(db: Db, id: Id, o: Id) {
    o in db.occurrences && db.occurrences[o].key.scheduleId == id && OccOpen(db.occurrences[o].status)
  }

  ghost predicate NoneOpen(db: Db, id: Id) {
    forall o :: !IsOpen(db, id, o)
  }

  ghost predicate AtMostOneOpen(db: Db, id: Id) {
    forall o, p | IsOpen(db, id, o) && IsOpen(db, id, p) :: o == p
  }

  /** The schedule, where it exists, forbids overlap. */
  ghost predicate Forbids(s: State, id: Id) {
    id in s.db.schedules ==> s.db.schedules[id].def.overlap.Forbid?
  }

  /** A planner that saw nothing open, and whose version is still current, is right to this moment. */
  ghost predicate SawTruth(s: State, id: Id, k: nat)
    requires k in s.planners
  {
    var p := s.planners[k];
    p.id == id ==>
      && p.snapshot.def.overlap.Forbid?
      && (p.open.Some? && !p.open.value && id in s.db.schedules && s.db.schedules[id].version == p.snapshot.version ==>
            NoneOpen(s.db, id))
  }

  ghost predicate OverlapInv(s: State, id: Id) {
    && AtMostOneOpen(s.db, id)
    && forall k {:trigger SawTruth(s, id, k)} | k in s.planners :: SawTruth(s, id, k)
  }

  /** Only a planner's commit opens an occurrence. */
  lemma NothingOpens(s: State, t: State, id: Id)
    requires KeptQuietly(s, t)
    ensures forall o :: IsOpen(t.db, id, o) ==> IsOpen(s.db, id, o)
  {
  }

  /** Planners a step does not touch still see the truth if nothing opened. */
  lemma TruthIsStable(s: State, t: State, id: Id, k: nat)
    requires Inv(s) && SchedulesEvolve(s, t)
    requires forall o :: IsOpen(t.db, id, o) ==> IsOpen(s.db, id, o)
    requires k in s.planners && k in t.planners && t.planners[k] == s.planners[k] && SawTruth(s, id, k)
    ensures SawTruth(t, id, k)
  {
    assert PlannerOk(s, k);
    if id in t.db.schedules {
      assert RowEvolves(s, t, id);
    }
  }

  lemma ReadSeesTruth(s: State, task: nat, id: Id)
    requires Inv(s) && task in s.planners && SawTruth(s, id, task)
    ensures SawTruth(DoReadOpen(s, task), id, task)
  {
    var p := s.planners[task];
    assert PlannerOk(s, task);
    if p.id == id && !HasOpen(s.db, p.snapshot.tenant, p.id) {
      forall o ensures !IsOpen(s.db, id, o) {
        if o in s.db.occurrences {
          assert OccurrenceOwned(s, o);
        }
      }
    }
  }

  lemma {:induction false} InsertKeepsOne(
    db: Db, id: Id, r: ScheduleRow, plans: seq<Plan>, open: bool, ids: seq<(Id, Id)>)
    requires |plans| == |ids| && FreshIds(db, ids) && r.def.overlap.Forbid?
    requires forall i | 0 <= i < |plans| :: GoodPlan(plans[i])
    requires AtMostOneOpen(db, id) && (!open ==> NoneOpen(db, id))
    ensures AtMostOneOpen(InsertPlans(db, id, r, plans, open, ids), id)
    decreases |plans|
  {
    if |plans| > 0 {
      var (db1, open1) := InsertPlan(db, id, r, plans[0], open, ids[0]);
      InsertOneKeepsOne(db, id, r, plans[0], open, ids[0]);
      InsertKeepsOne(db1, id, r, plans[1..], open1, ids[1..]);
    }
  }

  lemma InsertOneKeepsOne(db: Db, id: Id, r: ScheduleRow, plan: Plan, open: bool, ids: (Id, Id))
    requires ids.0 !in db.occurrences && ids.1 !in db.outbox && r.def.overlap.Forbid? && GoodPlan(plan)
    requires AtMostOneOpen(db, id) && (!open ==> NoneOpen(db, id))
    ensures var (db1, open1) := InsertPlan(db, id, r, plan, open, ids);
            && AtMostOneOpen(db1, id) && (!open1 ==> NoneOpen(db1, id))
            && db1.occurrences.Keys <= db.occurrences.Keys + {ids.0} && db1.outbox.Keys <= db.outbox.Keys + {ids.1}
  {
    var (db1, open1) := InsertPlan(db, id, r, plan, open, ids);
    assert forall o :: IsOpen(db1, id, o) ==> o == ids.0 || IsOpen(db, id, o);
    assert open || !plan.dispatch ==> !IsOpen(db1, id, ids.0);
  }

  lemma CommitKeepsOverlap(rec: Recurrence, s: State, task: nat, ids: seq<(Id, Id)>, id: Id)
    requires Inv(s) && CanCommitPlan(rec, s, task, ids) && OverlapInv(s, id)
    requires s.planners[task].id == id && PlanCommit(rec, s, task, ids).Some?
    ensures OverlapInv(DoCommitPlan(rec, s, task, ids), id)
  {
    var t := DoCommitPlan(rec, s, task, ids);
    CommitOpensOne(rec, s, task, ids, id);
    PlanMovesVersion(rec, s, task, ids);
    forall k | k in t.planners ensures SawTruth(t, id, k) {
      assert SawTruth(s, id, k);
      assert PlannerOk(s, k);
    }
  }

  lemma CommitOpensOne(rec: Recurrence, s: State, task: nat, ids: seq<(Id, Id)>, id: Id)
    requires Inv(s) && CanCommitPlan(rec, s, task, ids) && OverlapInv(s, id)
    requires s.planners[task].id == id && PlanCommit(rec, s, task, ids).Some?
    ensures AtMostOneOpen(DoCommitPlan(rec, s, task, ids).db, id)
  {
    var p := s.planners[task];
    var db1 := Inserted(rec, s, task, ids);
    assert SawTruth(s, id, task);
    assert PlannerOk(s, task);
    PlanMovesVersion(rec, s, task, ids);
    PlanIsProper(rec, p.snapshot.def, p.snapshot.nextDue.value, p.now);
    InsertKeepsOne(s.db, id, p.snapshot, PlanOf(rec, p).plans, SawOpen(p), ids);
    assert forall o :: IsOpen(DoCommitPlan(rec, s, task, ids).db, id, o) <==> IsOpen(db1, id, o);
  }

  lemma OtherCommitOpensNothing(rec: Recurrence, s: State, task: nat, ids: seq<(Id, Id)>, id: Id)
    requires Inv(s) && CanCommitPlan(rec, s, task, ids)
    requires s.planners[task].id != id || PlanCommit(rec, s, task, ids).None?
    ensures forall o :: IsOpen(DoCommitPlan(rec, s, task, ids).db, id, o) ==> IsOpen(s.db, id, o)
  {
    var p := s.planners[task];
    forall o | IsOpen(DoCommitPlan(rec, s, task, ids).db, id, o) ensures IsOpen(s.db, id, o) {
      InsertedBelong(s.db, p.id, p.snapshot, PlanOf(rec, p).plans, SawOpen(p), ids, o);
    }
  }

  lemma OverlapIsStable(s: State, t: State, id: Id)
    requires Inv(s) && SchedulesEvolve(s, t) && OverlapInv(s, id)
    requires forall o :: IsOpen(t.db, id, o) ==> IsOpen(s.db, id, o)
    requires forall k {:trigger SawTruth(t, id, k)} | k in t.planners ::
               (k in s.planners && t.planners[k] == s.planners[k]) || SawTruth(t, id, k)
    ensures OverlapInv(t, id)
  {
    forall k | k in t.planners ensures SawTruth(t, id, k) {
      if k in s.planners && t.planners[k] == s.planners[k] {
        assert SawTruth(s, id, k);
        TruthIsStable(s, t, id, k);
      }
    }
  }

  lemma PlanKeepsOverlap(rec: Recurrence, s: State, task: nat, ids: seq<(Id, Id)>, id: Id)
    requires Inv(s) && CanCommitPlan(rec, s, task, ids) && OverlapInv(s, id)
    ensures OverlapInv(DoCommitPlan(rec, s, task, ids), id)
  {
    if s.planners[task].id == id && PlanCommit(rec, s, task, ids).Some? {
      CommitKeepsOverlap(rec, s, task, ids, id);
    } else {
      CommitPlanKeeps(rec, s, task, ids);
      OtherCommitOpensNothing(rec, s, task, ids, id);
      OverlapIsStable(s, DoCommitPlan(rec, s, task, ids), id);
    }
  }

  lemma ReadKeepsOverlap(s: State, task: nat, id: Id)
    requires Inv(s) && task in s.planners && OverlapInv(s, id)
    ensures OverlapInv(DoReadOpen(s, task), id)
  {
    var t := DoReadOpen(s, task);
    ReadOpenKeeps(s, task);
    assert SawTruth(s, id, task);
    ReadSeesTruth(s, task, id);
    OverlapIsStable(s, t, id);
  }

  lemma ClaimKeepsOverlap(s: State, task: nat, worker: string, due: Id, now: Instant, expires: Instant, id: Id)
    requires Inv(s) && CanClaimDue(s, task, due, now) && OverlapInv(s, id) && Forbids(s, id)
    ensures OverlapInv(DoClaimDue(s, task, worker, due, now, expires), id)
  {
    var t := DoClaimDue(s, task, worker, due, now, expires);
    ClaimDueKeeps(s, task, worker, due, now, expires);
    assert SawTruth(t, id, task);
    OverlapIsStable(s, t, id);
  }

  /** Steps other than claims and reads leave planner tasks alone or end them. */
  lemma PlannersOnlyEnd(rec: Recurrence, s: State, step: Step, t: State)
    requires Next(rec, s, step, t) && !step.ClaimDue? && !step.ReadOpen?
    ensures forall k | k in t.planners :: k in s.planners && t.planners[k] == s.planners[k]
  {
  }

  lemma StepKeepsOverlap(rec: Recurrence, s: State, step: Step, t: State, id: Id)
    requires Inv(s) && Next(rec, s, step, t) && OverlapInv(s, id) && Forbids(s, id)
    ensures OverlapInv(t, id)
  {
    if step.CommitPlan? {
      PlanKeepsOverlap(rec, s, step.task, step.ids, id);
    } else if step.ReadOpen? {
      ReadKeepsOverlap(s, step.task, id);
    } else if step.ClaimDue? {
      ClaimKeepsOverlap(s, step.task, step.worker, step.id, step.now, step.expires, id);
    } else {
      StepKeeps(rec, s, step, t);
      NothingOpens(s, t, id);
      PlannersOnlyEnd(rec, s, step, t);
      OverlapIsStable(s, t, id);
    }
  }

  lemma OverlapKeptAt(rec: Recurrence, run: Run, i: nat, id: Id)
    requires ValidRun(rec, run) && i < |run.steps|
    requires OverlapInv(run.states[i], id) && Forbids(run.states[i], id)
    ensures OverlapInv(run.states[i + 1], id)
  {
    InvHolds(rec, run, i);
    assert StepAt(rec, run, i);
    StepKeepsOverlap(rec, run.states[i], run.steps[i], run.states[i + 1], id);
  }

  /**
   * If a schedule is created with `forbid` and every edit keeps it, at most one of its occurrences is
   * open in every reachable state, however planners, expired claims and catch-up loops race.
   */
  lemma {:induction false} ForbidMeansAtMostOneOpen(rec: Recurrence, run: Run, i: nat, id: Id)
    requires ValidRun(rec, run) && i < |run.states|
    requires forall j | 0 <= j < |run.states| :: Forbids(run.states[j], id)
    ensures OverlapInv(run.states[i], id) && AtMostOneOpen(run.states[i].db, id)
  {
    if i > 0 {
      ForbidMeansAtMostOneOpen(rec, run, i - 1, id);
      OverlapKeptAt(rec, run, i - 1, id);
    }
  }
}
