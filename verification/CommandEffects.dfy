/** What each command writes to the schedules and answers, told by the rows before and after it. */
module CommandEffects {
  import opened Domain
  import opened Planner
  import opened Tables
  import opened Protocol
  import opened Invariant
  import opened Preservation
  import opened Runs
  import opened OnceTriggers

  /** The schedule the command read is still there, at the version it read. */
  ghost predicate StillCurrent(s: State, c: Current) {
    c.Found? && c.id in s.db.schedules && s.db.schedules[c.id].version == c.row.version
  }

  lemma StillCurrentIsSameVersion(s: State, task: nat)
    requires Inv(s) && task in s.commands && s.commands[task].current.Found?
    ensures var c := s.commands[task].current;
            && (StillCurrent(s, c) <==> SameVersion(s.db, c.id, c.row))
            && (StillCurrent(s, c) ==> SameButClaim(c.row, s.db.schedules[c.id]))
  {
    assert CommandOk(s, task);
    var c := s.commands[task].current;
    if c.id in s.db.schedules {
      assert RowOk(s, c.id);
    }
  }

  /** The command answered with `code` and `row`, under its own key, and touched no occurrence or outbox row. */
  ghost predicate Answered(
    s: State, t: State, task: nat, code: ResultCode, row: Option<ScheduleRow>, createdAt: Instant)
    requires task in s.commands
  {
    var c := s.commands[task].cmd;
    && t.db.receipts == s.db.receipts[ReceiptKey(c.tenant, c.scope, c.key) :=
                                        Receipt(c.digest, c.requestId, code, c.name, row, createdAt)]
    && t.db.occurrences == s.db.occurrences && t.db.outbox == s.db.outbox
  }

  /** Only the row `id` changed, and it keeps its owner and loses its claim, one version on. */
  ghost predicate Rewritten(s: State, t: State, id: Id) {
    && id in s.db.schedules && id in t.db.schedules
    && t.db.schedules == s.db.schedules[id := t.db.schedules[id]]
    && var r, q := s.db.schedules[id], t.db.schedules[id];
    && q.tenant == r.tenant && q.name == r.name && q.version == r.version + 1
    && q.claimOwner.None? && q.claimExpires.None?
  }

  /** Schedule `id` is the one the command names, by tenant and name. */
  predicate IsNamed(db: Db, c: Command, id: Id) {
    id in db.schedules && db.schedules[id].tenant == c.tenant && db.schedules[id].name == c.name
  }

  predicate Exists(db: Db, c: Command) {
    exists id | id in db.schedules :: IsNamed(db, c, id)
  }

  predicate ExistsUsedUp(db: Db, c: Command) {
    exists id | id in db.schedules :: IsNamed(db, c, id) && db.schedules[id].status.Exhausted?
  }

  lemma NamesMean(db: Db, c: Command)
    ensures NameInUse(db, c.tenant, c.name) <==> Exists(db, c)
    ensures NameExhausted(db, c.tenant, c.name) <==> ExistsUsedUp(db, c)
    ensures forall id | id in db.schedules :: Named(db.schedules[id], c.tenant, c.name) <==> IsNamed(db, c, id)
  {
    assert forall id | id in db.schedules :: Named(db.schedules[id], c.tenant, c.name) <==> IsNamed(db, c, id);
  }

  /** What a command answers that found its schedule at another version, or gone. */
  function OvertakenCode(db: Db, c: Command): ResultCode {
    if !Exists(db, c) then NotFound else Changed
  }

  /** A command reads the schedule it names, as it stands, or finds that there is none; it reads once. */
  lemma ReadIsExact(rec: Recurrence, s: State, step: Step, t: State)
    requires Next(rec, s, step, t) && step.ReadSchedule?
    ensures step.task in s.commands && s.commands[step.task].current.NotRead?
    ensures var c := s.commands[step.task];
            && t == s.(commands := t.commands) && step.task in t.commands
            && var q := t.commands[step.task];
            && t.commands == s.commands[step.task := q] && q.cmd == c.cmd && q.now == c.now
            && (if Exists(s.db, c.cmd)
                then && q.current.Found? && IsNamed(s.db, c.cmd, q.current.id)
                     && q.current.row == s.db.schedules[q.current.id]
                else q.current == Missing)
  {
    NamesMean(s.db, s.commands[step.task].cmd);
  }

  // ---- Pause and resume ------------------------------------------------------------------------

  /**
   * A pause leaves its schedule paused and unclaimed, with its definition and due instant as they
   * were; on a schedule that is used up, gone or changed meanwhile it writes nothing and says so.
   */
  lemma PauseEffect(rec: Recurrence, s: State, task: nat, newId: Id, createdAt: Instant)
    requires Inv(s) && CanCommitCommand(s, task, newId) && s.commands[task].cmd.op.Pause?
    ensures var c := s.commands[task];
            var t := DoCommitCommand(rec, s, task, newId, createdAt);
            if StillCurrent(s, c.current) && !s.db.schedules[c.current.id].status.Exhausted? then
              && Rewritten(s, t, c.current.id)
              && var r, q := s.db.schedules[c.current.id], t.db.schedules[c.current.id];
              && q.status.Paused? && q.nextDue == r.nextDue && q.def == r.def
              && Answered(s, t, task, PausedResult, Some(q), createdAt)
            else
              && t.db.schedules == s.db.schedules
              && Answered(s, t, task, RefusedCode(s.db, c), None, createdAt)
  {
    NamesMean(s.db, s.commands[task].cmd);
    if s.commands[task].current.Found? {
      StillCurrentIsSameVersion(s, task);
    }
  }

  /** The answer of a pause or resume that could not be applied. */
  function RefusedCode(db: Db, c: CommandTask): ResultCode {
    if !c.current.Found? then NotFound
    else if c.current.row.status.Exhausted? then ExhaustedResult
    else if ExistsUsedUp(db, c.cmd) then ExhaustedResult
    else OvertakenCode(db, c.cmd)
  }

  /** Where a resume puts a schedule: a once trigger back at its run_at, a recurring one at its next instant. */
  function ResumedAt(rec: Recurrence, r: ScheduleRow, now: Instant): Option<Instant> {
    if r.def.runAt.Some? then r.def.runAt else rec.next(RuleOf(r.def), r.def.timezone, now)
  }

  /** A resume leaves its schedule active at that instant, its definition as it was; without one it fails. */
  lemma ResumeEffect(rec: Recurrence, s: State, task: nat, newId: Id, createdAt: Instant)
    requires Inv(s) && CanCommitCommand(s, task, newId) && s.commands[task].cmd.op.Resume?
    ensures var c := s.commands[task];
            var t := DoCommitCommand(rec, s, task, newId, createdAt);
            if c.current.Found? && !c.current.row.status.Exhausted? && ResumedAt(rec, c.current.row, c.now).None? then
              t.db == s.db
            else if StillCurrent(s, c.current) && !s.db.schedules[c.current.id].status.Exhausted? then
              && Rewritten(s, t, c.current.id)
              && var r, q := s.db.schedules[c.current.id], t.db.schedules[c.current.id];
              && q.status.Active? && q.nextDue == ResumedAt(rec, r, c.now) && q.nextDue.Some? && q.def == r.def
              && Answered(s, t, task, ResumedResult, Some(q), createdAt)
            else
              && t.db.schedules == s.db.schedules
              && Answered(s, t, task, RefusedCode(s.db, c), None, createdAt)
  {
    NamesMean(s.db, s.commands[task].cmd);
    if s.commands[task].current.Found? {
      StillCurrentIsSameVersion(s, task);
    }
  }

  // ---- Create, replace, delete -----------------------------------------------------------------

  /** A create adds one schedule, as requested, at the instant its trigger names, or nothing if the name is taken. */
  lemma CreateEffect(rec: Recurrence, s: State, task: nat, newId: Id, createdAt: Instant)
    requires Inv(s) && CanCommitCommand(s, task, newId) && s.commands[task].cmd.op.Create?
    ensures var c := s.commands[task];
            var t := DoCommitCommand(rec, s, task, newId, createdAt);
            var at := RearmedAt(rec, c.cmd.def, c.now);
            if at.None? then t.db == s.db
            else if Exists(s.db, c.cmd) then
              t.db.schedules == s.db.schedules && Answered(s, t, task, AlreadyExists, None, createdAt)
            else
              && newId !in s.db.schedules && newId in t.db.schedules
              && t.db.schedules == s.db.schedules[newId := t.db.schedules[newId]]
              && var q := t.db.schedules[newId];
              && q.tenant == c.cmd.tenant && q.name == c.cmd.name && q.def == c.cmd.def && q.status == c.cmd.status
              && q.nextDue == at && q.claimOwner.None? && q.claimExpires.None? && q.version == 1
              && Answered(s, t, task, Registered, Some(q), createdAt)
  {
    NamesMean(s.db, s.commands[task].cmd);
    assert newId in s.db.schedules ==> RowOk(s, newId);
  }

  /** Whether a replace keeps the once trigger, and with it what was consumed of it. */
  predicate SameTrigger(d: Definition, r: ScheduleRow) {
    d.runAt.Some? && d.runAt == r.def.runAt
  }

  /**
   * A replace writes the new definition.  With the same run_at the due instant stays, and a used up
   * schedule stays used up; otherwise it is armed anew, or refused if its trigger names no instant.
   */
  lemma ReplaceEffect(rec: Recurrence, s: State, task: nat, newId: Id, createdAt: Instant)
    requires Inv(s) && CanCommitCommand(s, task, newId) && s.commands[task].cmd.op.Update?
    ensures var c := s.commands[task];
            var t := DoCommitCommand(rec, s, task, newId, createdAt);
            if !c.current.Found? then
              t.db.schedules == s.db.schedules && Answered(s, t, task, NotFound, None, createdAt)
            else if !SameTrigger(c.cmd.def, c.current.row) && RearmedAt(rec, c.cmd.def, c.now).None? then
              t.db == s.db
            else if StillCurrent(s, c.current) then
              && Rewritten(s, t, c.current.id)
              && var r, q := s.db.schedules[c.current.id], t.db.schedules[c.current.id];
              && q.def == c.cmd.def
              && (if SameTrigger(c.cmd.def, r)
                  then q.nextDue == r.nextDue && q.status == (if r.status.Exhausted? then Exhausted else c.cmd.status)
                  else q.nextDue == RearmedAt(rec, c.cmd.def, c.now) && q.status == c.cmd.status)
              && Answered(s, t, task, Updated, Some(q), createdAt)
            else
              && t.db.schedules == s.db.schedules
              && Answered(s, t, task, OvertakenCode(s.db, c.cmd), None, createdAt)
  {
    NamesMean(s.db, s.commands[task].cmd);
    if s.commands[task].current.Found? {
      StillCurrentIsSameVersion(s, task);
    }
  }

  /** A delete removes the schedule of that name, whatever its version, and no other. */
  lemma DeleteEffect(rec: Recurrence, s: State, task: nat, newId: Id, createdAt: Instant)
    requires Inv(s) && CanCommitCommand(s, task, newId) && s.commands[task].cmd.op.Delete?
    ensures var c := s.commands[task].cmd;
            var t := DoCommitCommand(rec, s, task, newId, createdAt);
            && !Exists(t.db, c)
            && (forall id | id in s.db.schedules && !IsNamed(s.db, c, id) ::
                  id in t.db.schedules && t.db.schedules[id] == s.db.schedules[id])
            && t.db.schedules.Keys <= s.db.schedules.Keys
            && Answered(s, t, task, if Exists(s.db, c) then Deleted else NotFound, None, createdAt)
  {
    NamesMean(s.db, s.commands[task].cmd);
    NamesMean(DoCommitCommand(rec, s, task, newId, createdAt).db, s.commands[task].cmd);
  }

  // ---- A paused schedule stays quiet -----------------------------------------------------------

  /** The schedule is gone, or paused; its identifier is not free. */
  ghost predicate Quiet(s: State, id: Id) {
    id in s.issued && (id in s.db.schedules ==> s.db.schedules[id].status.Paused?)
  }

  /** The step commits a resume or a replace of schedule `id`. */
  ghost predicate Wakes(rec: Recurrence, s: State, step: Step, id: Id) {
    && step.CommitCommand? && CanCommitCommand(s, step.task, step.newId)
    && var c := s.commands[step.task];
    && (c.cmd.op.Resume? || c.cmd.op.Update?) && StillCurrent(s, c.current) && c.current.id == id
    && ApplyCommand(rec, s.db, c, step.newId).Applied?
  }

  lemma CommandKeepsQuiet(rec: Recurrence, s: State, task: nat, newId: Id, createdAt: Instant, id: Id)
    requires Inv(s) && CanCommitCommand(s, task, newId) && Quiet(s, id)
    requires !Wakes(rec, s, CommitCommand(task, newId, createdAt), id)
    ensures Quiet(DoCommitCommand(rec, s, task, newId, createdAt), id)
  {
    var op := s.commands[task].cmd.op;
    if op.Pause? {
      PauseEffect(rec, s, task, newId, createdAt);
    } else if op.Resume? {
      ResumeEffect(rec, s, task, newId, createdAt);
    } else if op.Create? {
      CreateEffect(rec, s, task, newId, createdAt);
    } else if op.Update? {
      ReplaceEffect(rec, s, task, newId, createdAt);
    } else {
      DeleteEffect(rec, s, task, newId, createdAt);
    }
  }

  /** A planner whose claim the pause has cleared loses. */
  lemma QuietPlansNothing(rec: Recurrence, s: State, task: nat, ids: seq<(Id, Id)>, id: Id)
    requires Inv(s) && CanCommitPlan(rec, s, task, ids) && Quiet(s, id)
    ensures s.planners[task].id == id ==> DoCommitPlan(rec, s, task, ids).db == s.db
    ensures Quiet(DoCommitPlan(rec, s, task, ids), id)
  {
    InsertedIsSafe(rec, s, task, ids);
    if id in s.db.schedules {
      assert RowOk(s, id);
    }
  }

  lemma PlanAddsNothing(rec: Recurrence, s: State, task: nat, ids: seq<(Id, Id)>, id: Id)
    requires Inv(s) && CanCommitPlan(rec, s, task, ids) && Quiet(s, id)
    ensures NothingAdded(s, DoCommitPlan(rec, s, task, ids), id)
  {
    QuietPlansNothing(rec, s, task, ids, id);
    var p := s.planners[task];
    var t := DoCommitPlan(rec, s, task, ids);
    forall o | o in t.db.occurrences && t.db.occurrences[o].key.scheduleId == id ensures o in s.db.occurrences {
      InsertedBelong(s.db, p.id, p.snapshot, PlanOf(rec, p).plans, SawOpen(p), ids, o);
    }
  }

  lemma StepKeepsQuiet(rec: Recurrence, s: State, step: Step, t: State, id: Id)
    requires Inv(s) && Next(rec, s, step, t) && Quiet(s, id) && !Wakes(rec, s, step, id)
    ensures Quiet(t, id) && NothingAdded(s, t, id) && !(step.ClaimDue? && step.id == id)
  {
    if step.CommitPlan? {
      QuietPlansNothing(rec, s, step.task, step.ids, id);
      PlanAddsNothing(rec, s, step.task, step.ids, id);
    } else {
      StepKeeps(rec, s, step, t);
      if step.CommitCommand? {
        CommandKeepsQuiet(rec, s, step.task, step.newId, step.createdAt, id);
      }
    }
  }

  ghost predicate WakesAt(rec: Recurrence, run: Run, k: nat, id: Id)
    requires k < |run.steps| && k < |run.states|
  {
    Wakes(rec, run.states[k], run.steps[k], id)
  }

  ghost predicate ClaimsScheduleAt(run: Run, k: nat, id: Id)
    requires k < |run.steps|
  {
    run.steps[k].ClaimDue? && run.steps[k].id == id
  }

  lemma QuietAt(rec: Recurrence, run: Run, i: nat, id: Id)
    requires ValidRun(rec, run) && i < |run.steps| && Quiet(run.states[i], id) && !WakesAt(rec, run, i, id)
    ensures Quiet(run.states[i + 1], id) && NothingAdded(run.states[i], run.states[i + 1], id)
    ensures !ClaimsScheduleAt(run, i, id)
  {
    InvHolds(rec, run, i);
    assert StepAt(rec, run, i);
    StepKeepsQuiet(rec, run.states[i], run.steps[i], run.states[i + 1], id);
  }

  /**
   * From a pause on, until a resume or replace of the schedule commits, it stays paused or is deleted,
   * no planner claims it, and it gets no new occurrence, whatever claims were under way.
   */
  lemma {:induction false} PausedStaysQuiet(rec: Recurrence, run: Run, i: nat, j: nat, id: Id)
    requires ValidRun(rec, run) && i <= j < |run.states| && Quiet(run.states[i], id)
    requires forall k: nat {:trigger WakesAt(rec, run, k, id)} | i <= k < j :: !WakesAt(rec, run, k, id)
    ensures Quiet(run.states[j], id) && NothingAdded(run.states[i], run.states[j], id)
    ensures forall k: nat {:trigger ClaimsScheduleAt(run, k, id)} | i <= k < j :: !ClaimsScheduleAt(run, k, id)
  {
    if i < j {
      PausedStaysQuiet(rec, run, i, j - 1, id);
      assert !WakesAt(rec, run, j - 1, id);
      QuietAt(rec, run, j - 1, id);
      RunEvolves(rec, run, j - 1, j);
    }
  }
}
