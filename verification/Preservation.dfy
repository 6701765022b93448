/** Every step of every worker keeps the invariant and lets the tables only evolve. */
module Preservation {
  import opened Domain
  import opened Planner
  import opened Tables
  import opened Protocol
  import opened Coupling
  import opened Invariant

  /** What one step does to the past, together with the invariant it re-establishes. */
  ghost predicate Kept(s: State, t: State) {
    Inv(t) && Evolves(s.db, t.db) && SchedulesEvolve(s, t)
  }

  /** Such a step that adds no occurrence and no outbox row. */
  ghost predicate KeptQuietly(s: State, t: State) {
    && Kept(s, t)
    && t.db.occurrences.Keys == s.db.occurrences.Keys && t.db.outbox.Keys == s.db.outbox.Keys
  }

  /** Such a step that moreover edits no schedule beyond its claim and writes no receipt. */
  ghost predicate KeptIdly(s: State, t: State) {
    && KeptQuietly(s, t)
    && t.db.receipts == s.db.receipts && t.issued == s.issued
    && forall id | id in t.db.schedules :: id in s.db.schedules && SameButClaim(s.db.schedules[id], t.db.schedules[id])
  }

  /** Local bookkeeping of a step: every task either stayed as it was or is right again. */
  ghost predicate TasksCarried(s: State, t: State) {
    && (forall k {:trigger PlannerOk(t, k)} | k in t.planners :: (k in s.planners && t.planners[k] == s.planners[k])
          || PlannerOk(t, k))
    && (forall k {:trigger DispatcherOk(t, k)} | k in t.dispatchers ::
          (k in s.dispatchers && t.dispatchers[k] == s.dispatchers[k]) || DispatcherOk(t, k))
    && (forall i: nat {:trigger SendOk(t, i)} | i < |t.sends| :: (i < |s.sends| && t.sends[i] == s.sends[i])
          || SendOk(t, i))
  }

  ghost predicate CommandsCarried(s: State, t: State) {
    && (forall k {:trigger CommandOk(t, k)} | k in t.commands ::
          || (k in s.commands && t.commands[k] == s.commands[k] && IdentityOf(s.commands[k].cmd) !in t.db.receipts)
          || CommandOk(t, k))
    && IdentitiesLocked(t)
  }

  lemma Assemble(s: State, t: State)
    requires Inv(s) && Coupled(t.db) && Evolves(s.db, t.db)
    requires SchedulesOk(t) && SchedulesEvolve(s, t) && OccurrencesOwned(t)
    requires TasksCarried(s, t) && CommandsCarried(s, t)
    ensures Kept(s, t)
  {
    CopiesStayOk(s, t);
    CommandsStayOk(s, t);
  }

  lemma CommandsUntouched(s: State, t: State)
    requires TasksOk(s) && t.commands.Keys <= s.commands.Keys && t.db.receipts == s.db.receipts
    requires forall k | k in t.commands :: t.commands[k] == s.commands[k]
    ensures CommandsCarried(s, t)
  {
    forall k | k in t.commands ensures IdentityOf(s.commands[k].cmd) !in s.db.receipts {
      assert CommandOk(s, k);
    }
  }

  // ---- Schedule rows ---------------------------------------------------------------------------

  /** A row rewritten in place: same owner, valid, and a new version unless only the claim moved. */
  lemma RowRewritten(s: State, t: State, id: Id, row: ScheduleRow)
    requires SchedulesOk(s) && id in s.db.schedules && t.issued == s.issued
    requires t.db.schedules == s.db.schedules[id := row]
    requires ScheduleCheck(row) && row.tenant == s.db.schedules[id].tenant && row.name == s.db.schedules[id].name
    requires s.db.schedules[id].version < row.version || SameButClaim(s.db.schedules[id], row)
    ensures SchedulesOk(t) && SchedulesEvolve(s, t)
  {
    assert RowOk(s, id);
    forall k | k in t.db.schedules ensures RowOk(t, k) && RowEvolves(s, t, k) {
      assert RowOk(s, k);
    }
    forall k | k in t.issued ensures OwnerOk(t, k) {
      assert OwnerOk(s, k);
    }
  }

  lemma SchedulesUntouched(s: State, t: State)
    requires SchedulesOk(s) && t.issued == s.issued && t.db.schedules == s.db.schedules
    ensures SchedulesOk(t) && SchedulesEvolve(s, t)
  {
    forall k | k in t.db.schedules ensures RowOk(t, k) && RowEvolves(s, t, k) {
      assert RowOk(s, k);
    }
    forall k | k in t.issued ensures OwnerOk(t, k) {
      assert OwnerOk(s, k);
    }
  }

  /** Tables that agree on occurrences and outbox are coupled together. */
  lemma CoupledIgnoresSchedules(a: Db, b: Db)
    requires Coupled(a) && a.occurrences == b.occurrences && a.outbox == b.outbox
    ensures Coupled(b)
  {
    forall x | x in b.outbox ensures RowCoupled(b, x) {
      assert RowCoupled(a, x);
    }
    forall o | o in b.occurrences ensures Covered(b, o) {
      assert Covered(a, o);
      assert HasRow(a, o) <==> HasRow(b, o);
    }
  }

  /** A step that leaves occurrences and outbox alone. */
  lemma ScheduleStepKept(s: State, t: State)
    requires Inv(s) && t.db.occurrences == s.db.occurrences && t.db.outbox == s.db.outbox
    requires SchedulesOk(t) && SchedulesEvolve(s, t)
    requires TasksCarried(s, t) && CommandsCarried(s, t)
    ensures KeptQuietly(s, t)
  {
    CoupledIgnoresSchedules(s.db, t.db);
    OwnershipIsStable(s, t);
    Assemble(s, t);
  }

  lemma ClaimDueKeeps(s: State, task: nat, worker: string, id: Id, now: Instant, expires: Instant)
    requires Inv(s) && CanClaimDue(s, task, id, now)
    ensures KeptIdly(s, DoClaimDue(s, task, worker, id, now, expires))
  {
    var t := DoClaimDue(s, task, worker, id, now, expires);
    assert RowOk(s, id);
    RowRewritten(s, t, id, t.db.schedules[id]);
    CommandsUntouched(s, t);
    assert RowOk(t, id);
    assert PlannerOk(t, task);
    ScheduleStepKept(s, t);
  }

  lemma ReleaseKeeps(s: State, task: nat)
    requires Inv(s) && task in s.planners
    ensures KeptIdly(s, DoRelease(s, task))
  {
    var t := DoRelease(s, task);
    var p := s.planners[task];
    if MayRelease(s.db, p.id, p.snapshot.tenant, p.worker) {
      assert RowOk(s, p.id);
      RowRewritten(s, t, p.id, t.db.schedules[p.id]);
    } else {
      SchedulesUntouched(s, t);
    }
    CommandsUntouched(s, t);
    ScheduleStepKept(s, t);
  }

  /** Forgetting tasks, as a crash does. */
  lemma ForgetKeeps(s: State, t: State)
    requires Inv(s) && t.db == s.db && t.issued == s.issued && t.sends == s.sends
    requires t.planners.Keys <= s.planners.Keys && forall k | k in t.planners :: t.planners[k] == s.planners[k]
    requires t.dispatchers.Keys <= s.dispatchers.Keys && forall k | k in t.dispatchers ::
               t.dispatchers[k] == s.dispatchers[k]
    requires t.commands.Keys <= s.commands.Keys && forall k | k in t.commands :: t.commands[k] == s.commands[k]
    ensures KeptIdly(s, t)
  {
    SchedulesUntouched(s, t);
    CommandsUntouched(s, t);
    ScheduleStepKept(s, t);
  }

  lemma ReadOpenKeeps(s: State, task: nat)
    requires Inv(s) && task in s.planners
    ensures KeptIdly(s, DoReadOpen(s, task))
  {
    var t := DoReadOpen(s, task);
    SchedulesUntouched(s, t);
    CommandsUntouched(s, t);
    assert PlannerOk(s, task);
    assert PlannerOk(t, task);
    ScheduleStepKept(s, t);
  }

  lemma SendKeeps(s: State, task: nat)
    requires Inv(s) && InPhase(s, task, Begun)
    ensures KeptIdly(s, DoSend(s, task))
  {
    var t := DoSend(s, task);
    SchedulesUntouched(s, t);
    CommandsUntouched(s, t);
    assert DispatcherOk(s, task);
    assert DispatcherOk(t, task);
    assert SendOk(t, |s.sends|);
    ScheduleStepKept(s, t);
  }

  lemma IdentitiesUnused(s: State)
    requires TasksOk(s)
    ensures forall k | k in s.commands :: IdentityOf(s.commands[k].cmd) !in s.db.receipts
  {
    forall k | k in s.commands ensures IdentityOf(s.commands[k].cmd) !in s.db.receipts {
      assert CommandOk(s, k);
    }
  }

  lemma StartCommandKeeps(s: State, task: nat, cmd: Command, now: Instant)
    requires Inv(s) && CanStartCommand(s, task, cmd)
    ensures KeptIdly(s, s.(commands := s.commands[task := CommandTask(cmd, now, NotRead)]))
  {
    var t := s.(commands := s.commands[task := CommandTask(cmd, now, NotRead)]);
    SchedulesUntouched(s, t);
    IdentitiesUnused(s);
    assert CommandOk(t, task);
    ScheduleStepKept(s, t);
  }

  lemma ReadScheduleKeeps(s: State, task: nat, found: Option<Id>)
    requires Inv(s) && CanReadSchedule(s, task, found)
    ensures KeptIdly(s, DoReadSchedule(s, task, found))
  {
    var t := DoReadSchedule(s, task, found);
    SchedulesUntouched(s, t);
    IdentitiesUnused(s);
    assert CommandOk(s, task);
    if found.Some? {
      assert RowOk(s, found.value);
    }
    assert CommandOk(t, task);
    ScheduleStepKept(s, t);
  }

  // ---- Dispatch --------------------------------------------------------------------------------

  lemma DispatchKept(s: State, t: State)
    requires Inv(s) && Coupled(t.db) && Evolves(s.db, t.db) && DispatchOnly(s.db, t.db) && t.issued == s.issued
    requires t.planners == s.planners && t.commands == s.commands && t.sends == s.sends
    requires forall k {:trigger DispatcherOk(t, k)} | k in t.dispatchers ::
               (k in s.dispatchers && t.dispatchers[k] == s.dispatchers[k]) || DispatcherOk(t, k)
    ensures KeptIdly(s, t)
  {
    SchedulesUntouched(s, t);
    OwnershipIsStable(s, t);
    CommandsUntouched(s, t);
    Assemble(s, t);
  }

  lemma ClaimDispatchKeeps(s: State, task: nat, worker: string, row: Id, now: Instant, expires: Instant)
    requires Inv(s) && CanClaimDispatch(s, task, row, now)
    ensures KeptIdly(s, DoClaimDispatch(s, task, worker, row, now, expires))
  {
    var t := DoClaimDispatch(s, task, worker, row, now, expires);
    ClaimIsSafe(s.db, row, worker, now, expires);
    PairFacts(s.db, row);
    assert DispatcherOk(t, task);
    DispatchKept(s, t);
  }

  lemma RecoverKeeps(s: State, row: Id, now: Instant)
    requires Inv(s) && CanRecover(s, row, now)
    ensures KeptIdly(s, s.(db := RecoverRow(s.db, row, now)))
  {
    RecoverIsSafe(s.db, row, now);
    DispatchKept(s, s.(db := RecoverRow(s.db, row, now)));
  }

  lemma BeginKeeps(s: State, task: nat, now: Instant, acknowledged: bool)
    requires Inv(s) && InPhase(s, task, Claimed)
    ensures KeptIdly(s, DoBegin(s, task, now, acknowledged))
  {
    var t := DoBegin(s, task, now, acknowledged);
    var d := s.dispatchers[task];
    assert DispatcherOk(s, task);
    if Begin(s.db, d.row, d.work, d.worker, now).Some? {
      BeginIsSafe(s.db, d.row, d.work, d.worker, now);
      PairFacts(s.db, d.row);
      if acknowledged {
        BegunCopyOk(s, task, now);
      }
      DispatchKept(s, t);
    } else {
      ForgetKeeps(s, t);
    }
  }

  lemma BegunCopyOk(s: State, task: nat, now: Instant)
    requires InPhase(s, task, Claimed)
    requires var d := s.dispatchers[task]; Begin(s.db, d.row, d.work, d.worker, now).Some?
    requires Coupled(DoBegin(s, task, now, true).db)
    requires RowCoupled(s.db, s.dispatchers[task].row)
    ensures DispatcherOk(DoBegin(s, task, now, true), task)
  {
    PairFacts(DoBegin(s, task, now, true).db, s.dispatchers[task].row);
  }

  lemma TransitionKeeps(s: State, task: nat, v: Verdict)
    requires Inv(s) && task in s.dispatchers && ProperVerdict(v)
    ensures KeptIdly(s, DoTransition(s, task, v))
  {
    var d := s.dispatchers[task];
    assert DispatcherOk(s, task);
    if Transition(s.db, d.row, d.work, d.worker, v).Some? {
      TransitionIsSafe(s.db, d.row, d.work, d.worker, v);
      DispatchKept(s, DoTransition(s, task, v));
    } else {
      ForgetKeeps(s, DoTransition(s, task, v));
    }
  }

  // ---- Materialization -------------------------------------------------------------------------

  /** Every occurrence a plan adds belongs to the planned schedule. */
  lemma {:induction false} InsertedBelong(
    db: Db, id: Id, r: ScheduleRow, plans: seq<Plan>, open: bool, ids: seq<(Id, Id)>, o: Id)
    requires |plans| == |ids|
    ensures var db' := InsertPlans(db, id, r, plans, open, ids);
            o in db'.occurrences && (o !in db.occurrences || db'.occurrences[o] != db.occurrences[o]) ==>
              db'.occurrences[o].key.tenant == r.tenant && db'.occurrences[o].key.scheduleId == id
              && db'.occurrences[o].scheduleName == r.name
    decreases |plans|
  {
    if |plans| > 0 {
      var (db1, open1) := InsertPlan(db, id, r, plans[0], open, ids[0]);
      InsertedBelong(db1, id, r, plans[1..], open1, ids[1..], o);
    }
  }

  lemma AdvancedRowOk(rec: Recurrence, p: PlannerTask, row: ScheduleRow)
    requires ScheduleCheck(p.snapshot) && PlanOf(rec, p).Planned?
    requires p.snapshot.status.Active? && p.snapshot.nextDue.Some? && p.snapshot.nextDue.value <= p.now
    requires SameButClaim(p.snapshot, row)
    ensures ScheduleCheck(Advanced(row, PlanOf(rec, p).next))
  {
    PlanIsProper(rec, p.snapshot.def, p.snapshot.nextDue.value, p.now);
  }

  /** The tables after the inserts, before the guarded advance. */
  ghost function Inserted(rec: Recurrence, s: State, task: nat, ids: seq<(Id, Id)>): Db
    requires CanCommitPlan(rec, s, task, ids)
  {
    var p := s.planners[task];
    InsertPlans(s.db, p.id, p.snapshot, PlanOf(rec, p).plans, SawOpen(p), ids)
  }

  lemma InsertedIsSafe(rec: Recurrence, s: State, task: nat, ids: seq<(Id, Id)>)
    requires Inv(s) && CanCommitPlan(rec, s, task, ids)
    ensures var db1 := Inserted(rec, s, task, ids);
            Coupled(db1) && Evolves(s.db, db1) && db1.schedules == s.db.schedules && db1.receipts == s.db.receipts
  {
    var p := s.planners[task];
    assert PlannerOk(s, task);
    PlanIsProper(rec, p.snapshot.def, p.snapshot.nextDue.value, p.now);
    InsertPlansIsSafe(s.db, p.id, p.snapshot, PlanOf(rec, p).plans, SawOpen(p), ids);
  }

  lemma CommitPlanKeeps(rec: Recurrence, s: State, task: nat, ids: seq<(Id, Id)>)
    requires Inv(s) && CanCommitPlan(rec, s, task, ids)
    ensures Kept(s, DoCommitPlan(rec, s, task, ids))
  {
    var t := DoCommitPlan(rec, s, task, ids);
    if PlanCommit(rec, s, task, ids).Some? {
      InsertedIsSafe(rec, s, task, ids);
      CoupledIgnoresSchedules(Inserted(rec, s, task, ids), t.db);
      CommitPlanRows(rec, s, task, ids);
      CommitPlanOwned(rec, s, task, ids);
      CommandsUntouched(s, t);
      Assemble(s, t);
    } else {
      ForgetKeeps(s, t);
    }
  }

  lemma CommitPlanRows(rec: Recurrence, s: State, task: nat, ids: seq<(Id, Id)>)
    requires Inv(s) && CanCommitPlan(rec, s, task, ids) && PlanCommit(rec, s, task, ids).Some?
    ensures SchedulesOk(DoCommitPlan(rec, s, task, ids)) && SchedulesEvolve(s, DoCommitPlan(rec, s, task, ids))
  {
    var p := s.planners[task];
    assert PlannerOk(s, task);
    InsertedIsSafe(rec, s, task, ids);
    AdvancedRowOk(rec, p, s.db.schedules[p.id]);
    RowRewritten(s, DoCommitPlan(rec, s, task, ids), p.id, Advanced(s.db.schedules[p.id], PlanOf(rec, p).next));
  }

  lemma CommitPlanOwned(rec: Recurrence, s: State, task: nat, ids: seq<(Id, Id)>)
    requires Inv(s) && CanCommitPlan(rec, s, task, ids) && PlanCommit(rec, s, task, ids).Some?
    ensures OccurrencesOwned(DoCommitPlan(rec, s, task, ids))
  {
    var t := DoCommitPlan(rec, s, task, ids);
    var p := s.planners[task];
    assert PlannerOk(s, task);
    forall o | o in t.db.occurrences ensures OccurrenceOwned(t, o) {
      InsertedBelong(s.db, p.id, p.snapshot, PlanOf(rec, p).plans, SawOpen(p), ids, o);
      if o in s.db.occurrences {
        assert OccurrenceOwned(s, o);
      }
    }
  }

  // ---- Commands --------------------------------------------------------------------------------

  /** The row a create or replace writes satisfies the CHECKs. */
  lemma PositionIsValid(rec: Recurrence, c: Command, now: Instant, current: Option<ScheduleRow>)
    requires Prepared(c) && (c.op.Create? || c.op.Update?) && (current.Some? ==> ScheduleCheck(current.value))
    requires PositionOf(rec, c, now, current).Position?
    ensures ScheduleCheck(NewSchedule(c.tenant, c.name, c.def, PositionOf(rec, c, now, current).status,
              PositionOf(rec, c, now, current).next))
  {
  }

  lemma CreatedRows(rec: Recurrence, s: State, task: nat, newId: Id, createdAt: Instant)
    requires Inv(s) && task in s.commands && CommandOk(s, task) && newId !in s.issued && IsUuid(newId)
    requires s.commands[task].cmd.op.Create? && ApplyCommand(rec, s.db, s.commands[task], newId).Applied?
    requires ApplyCommand(rec, s.db, s.commands[task], newId).row.Some?
    ensures var t := CommandCommit(rec, s, task, newId, createdAt);
            SchedulesOk(t) && SchedulesEvolve(s, t)
  {
    var c := s.commands[task];
    PositionIsValid(rec, c.cmd, c.now, None);
    RowCreated(s, CommandCommit(rec, s, task, newId, createdAt), newId, ApplyCommand(rec, s.db, c, newId).row.value);
  }

  lemma EditedRows(rec: Recurrence, s: State, task: nat, newId: Id, createdAt: Instant)
    requires Inv(s) && task in s.commands && CommandOk(s, task)
    requires !s.commands[task].cmd.op.Create? && ApplyCommand(rec, s.db, s.commands[task], newId).Applied?
    requires ApplyCommand(rec, s.db, s.commands[task], newId).row.Some?
    ensures var t := CommandCommit(rec, s, task, newId, createdAt);
            SchedulesOk(t) && SchedulesEvolve(s, t)
  {
    var c := s.commands[task];
    if c.cmd.op.Update? {
      PositionIsValid(rec, c.cmd, c.now, Some(c.current.row));
    }
    assert RowOk(s, c.current.id);
    RowRewritten(s, CommandCommit(rec, s, task, newId, createdAt), c.current.id,
                 ApplyCommand(rec, s.db, c, newId).row.value);
  }

  /** Only the command's own row, if any, changes. */
  lemma CommandRows(rec: Recurrence, s: State, task: nat, newId: Id, createdAt: Instant)
    requires Inv(s) && task in s.commands && CommandOk(s, task) && newId !in s.issued && IsUuid(newId)
    ensures var t := CommandCommit(rec, s, task, newId, createdAt);
            SchedulesOk(t) && SchedulesEvolve(s, t)
  {
    var t := CommandCommit(rec, s, task, newId, createdAt);
    var o := ApplyCommand(rec, s.db, s.commands[task], newId);
    if o.Rejected? || (o.row.None? && !o.code.Deleted?) {
      SchedulesUntouched(s, t);
    } else if o.row.None? {
      RowsDeleted(s, t);
    } else if s.commands[task].cmd.op.Create? {
      CreatedRows(rec, s, task, newId, createdAt);
    } else {
      EditedRows(rec, s, task, newId, createdAt);
    }
  }

  lemma RowCreated(s: State, t: State, id: Id, row: ScheduleRow)
    requires SchedulesOk(s) && id !in s.issued && IsUuid(id) && ScheduleCheck(row)
    requires t.db.schedules == s.db.schedules[id := row] && t.issued == s.issued[id := Owner(row.tenant, row.name)]
    requires !NameInUse(s.db, row.tenant, row.name)
    ensures SchedulesOk(t) && SchedulesEvolve(s, t)
  {
    forall k | k in t.db.schedules ensures RowOk(t, k) && RowEvolves(s, t, k) {
      assert k in s.db.schedules ==> RowOk(s, k);
    }
    forall k | k in t.issued ensures OwnerOk(t, k) {
      assert k in s.issued ==> OwnerOk(s, k);
    }
    forall a | a in s.db.schedules ensures !Named(s.db.schedules[a], row.tenant, row.name) {
    }
  }

  lemma RowsDeleted(s: State, t: State)
    requires SchedulesOk(s) && t.issued == s.issued && t.db.schedules.Keys <= s.db.schedules.Keys
    requires forall k | k in t.db.schedules :: t.db.schedules[k] == s.db.schedules[k]
    ensures SchedulesOk(t) && SchedulesEvolve(s, t)
  {
    forall k | k in t.db.schedules ensures RowOk(t, k) && RowEvolves(s, t, k) {
      assert RowOk(s, k);
    }
    forall k | k in t.issued ensures OwnerOk(t, k) {
      assert OwnerOk(s, k);
    }
  }

  lemma OutcomeLeavesDispatch(rec: Recurrence, db: Db, c: CommandTask, newId: Id)
    requires ApplyCommand(rec, db, c, newId).Applied?
    ensures ApplyCommand(rec, db, c, newId).db == db.(schedules := ApplyCommand(rec, db, c, newId).db.schedules)
  {
  }

  lemma CommandLeavesDispatch(rec: Recurrence, s: State, task: nat, newId: Id, createdAt: Instant)
    requires task in s.commands
    ensures var t := CommandCommit(rec, s, task, newId, createdAt);
            && t.db.occurrences == s.db.occurrences && t.db.outbox == s.db.outbox
            && t.planners == s.planners && t.dispatchers == s.dispatchers && t.sends == s.sends
                 && t.commands == s.commands
            && t.db.receipts.Keys <= s.db.receipts.Keys + {IdentityOf(s.commands[task].cmd)}
            && forall k | k in s.db.receipts && k != IdentityOf(s.commands[task].cmd) ::
                 k in t.db.receipts && t.db.receipts[k] == s.db.receipts[k]
  {
    if ApplyCommand(rec, s.db, s.commands[task], newId).Applied? {
      OutcomeLeavesDispatch(rec, s.db, s.commands[task], newId);
    }
  }

  lemma CommitCommandKeeps(rec: Recurrence, s: State, task: nat, newId: Id, createdAt: Instant)
    requires Inv(s) && CanCommitCommand(s, task, newId)
    ensures KeptQuietly(s, DoCommitCommand(rec, s, task, newId, createdAt))
  {
    var t := DoCommitCommand(rec, s, task, newId, createdAt);
    var c := CommandCommit(rec, s, task, newId, createdAt);
    assert CommandOk(s, task);
    CommandRows(rec, s, task, newId, createdAt);
    CommandLeavesDispatch(rec, s, task, newId, createdAt);
    SchedulesUntouched(c, t);
    forall id | id in t.db.schedules ensures RowEvolves(s, t, id) {
      assert RowEvolves(s, c, id);
    }
    IdentitiesUnused(s);
    ScheduleStepKept(s, t);
  }

  // ---- All steps, all runs ---------------------------------------------------------------------

  predicate DispatcherStep(step: Step) {
    || step.RecoverDispatch? || step.ClaimDispatch? || step.BeginAttempt?
    || step.Send? || step.DeferAttempt? || step.Persist?
  }

  lemma DispatcherStepKeeps(rec: Recurrence, s: State, step: Step, t: State)
    requires Inv(s) && Next(rec, s, step, t) && DispatcherStep(step)
    ensures KeptIdly(s, t)
  {
    if step.RecoverDispatch? {
      RecoverKeeps(s, step.row, step.now);
    } else if step.ClaimDispatch? {
      ClaimDispatchKeeps(s, step.task, step.worker, step.row, step.now, step.expires);
    } else if step.BeginAttempt? {
      BeginKeeps(s, step.task, step.now, step.acknowledged);
    } else if step.Send? {
      SendKeeps(s, step.task);
    } else if step.DeferAttempt? {
      TransitionKeeps(s, step.task, DeferVerdict(step.now, step.code, step.message));
    } else {
      TransitionKeeps(s, step.task, ResultVerdict(s.dispatchers[step.task], step.result, step.now, step.draw));
    }
  }

  lemma StepKeeps(rec: Recurrence, s: State, step: Step, t: State)
    requires Inv(s) && Next(rec, s, step, t)
    ensures Kept(s, t)
    ensures !step.CommitPlan? ==> KeptQuietly(s, t)
    ensures !step.CommitPlan? && !step.CommitCommand? ==> KeptIdly(s, t)
  {
    if DispatcherStep(step) {
      DispatcherStepKeeps(rec, s, step, t);
    } else if step.CommitPlan? {
      CommitPlanKeeps(rec, s, step.task, step.ids);
    } else if step.CommitCommand? {
      CommitCommandKeeps(rec, s, step.task, step.newId, step.createdAt);
    } else if step.ClaimDue? {
      ClaimDueKeeps(s, step.task, step.worker, step.id, step.now, step.expires);
    } else if step.ReadOpen? {
      ReadOpenKeeps(s, step.task);
    } else if step.ReleaseClaim? {
      ReleaseKeeps(s, step.task);
    } else if step.StartCommand? {
      StartCommandKeeps(s, step.task, step.cmd, step.now);
    } else if step.ReadSchedule? {
      ReadScheduleKeeps(s, step.task, step.found);
    } else {
      ForgetKeeps(s, t);
    }
  }

  /** The invariant holds in every reachable state. */
  lemma {:induction false} InvHolds(rec: Recurrence, run: Run, i: nat)
    requires ValidRun(rec, run) && i < |run.states|
    ensures Inv(run.states[i])
  {
    if i > 0 {
      InvHolds(rec, run, i - 1);
      assert StepAt(rec, run, i - 1);
      StepKeeps(rec, run.states[i - 1], run.steps[i - 1], run.states[i]);
    }
  }
}
