/**
 * The scheduler as a step system.  Any number of planners, dispatchers and command handlers run at
 * once; each keeps local copies of rows, and its unlocked reads and guarded commits are separate
 * steps.  Every clock reading is a step parameter of its own, so clocks may disagree and go back.
 *
 * A statement over many rows is a sequence of single-row steps.  A transaction's inserts take effect
 * with its guarded commit: rows of the occurrence and outbox tables are never deleted, so a key free
 * at the insert can only be taken by a transaction that would have to wait for this one.
 */
module Protocol {
  import opened Domain
  import opened Planner
  import opened Tables
  import Retry

  datatype Operation = Create | Update | Delete | Pause | Resume

  datatype Command = Command(
    op: Operation, tenant: string, name: string, scope: string, key: string, digest: string, requestId: string,
    def: Definition, status: ScheduleStatus)

  function IdentityOf(c: Command): ReceiptKey {
    ReceiptKey(c.tenant, c.scope, c.key)
  }

  /** What Service.prepare leaves of a command. */
  predicate Prepared(c: Command) {
    && ValidTenant(c.tenant) && ValidName(c.name)
    && (c.op.Create? || c.op.Update? ==> ValidDefinition(c.def) && !c.status.Exhausted?)
  }

  /** A claimed schedule row inside a planner cycle; `open` is what HasOpenOccurrence returned. */
  datatype PlannerTask = PlannerTask(worker: string, id: Id, snapshot: ScheduleRow, now: Instant, open: Option<bool>)

  predicate SawOpen(p: PlannerTask) {
    p.open.Some? && p.open.value
  }

  datatype Phase = Claimed | Begun | Sent

  /** A claimed outbox row inside a dispatcher cycle; `work` is the local copy. */
  datatype DispatchTask = DispatchTask(worker: string, row: Id, work: OutboxRow, phase: Phase)

  datatype Current = NotRead | Missing | Found(id: Id, row: ScheduleRow)

  /** A command transaction that holds its identity lock and found no receipt. */
  datatype CommandTask = CommandTask(cmd: Command, now: Instant, current: Current)

  /** One request that left for the target. */
  datatype SendRecord = SendRecord(row: Id, work: OutboxRow)

  /** Who an identifier was given to; kept after the schedule is deleted. */
  datatype Owner = Owner(tenant: string, name: string)

  datatype State = State(
    db: Db, issued: map<Id, Owner>,
    planners: map<nat, PlannerTask>, dispatchers: map<nat, DispatchTask>, commands: map<nat, CommandTask>,
    sends: seq<SendRecord>)

  datatype Step =
    | ClaimDue(task: nat, worker: string, id: Id, now: Instant, expires: Instant)
    | ReadOpen(task: nat)
    | CommitPlan(task: nat, ids: seq<(Id, Id)>)
    | ReleaseClaim(task: nat)
    | DropPlanner(task: nat)
    | RecoverDispatch(row: Id, now: Instant)
    | ClaimDispatch(task: nat, worker: string, row: Id, now: Instant, expires: Instant)
    | BeginAttempt(task: nat, now: Instant, acknowledged: bool)
    | Send(task: nat)
    | DeferAttempt(task: nat, now: Instant, code: Code, message: string)
    | Persist(task: nat, result: DispatchResult, now: Instant, draw: Retry.Draw)
    | DropDispatcher(task: nat)
    | StartCommand(task: nat, cmd: Command, now: Instant)
    | ReadSchedule(task: nat, found: Option<Id>)
    | CommitCommand(task: nat, newId: Id, createdAt: Instant)
    | DropCommand(task: nat)

  // ---- Planner steps ---------------------------------------------------------------------------

  function PlanOf(rec: Recurrence, p: PlannerTask): PlanResult {
    PlanSchedule(rec, p.snapshot.def, p.snapshot.nextDue, p.now)
  }

  function PlanCommit(rec: Recurrence, s: State, task: nat, ids: seq<(Id, Id)>): Option<Db>
    requires task in s.planners && PlanOf(rec, s.planners[task]).Planned?
    requires |ids| == |PlanOf(rec, s.planners[task]).plans|
  {
    var p := s.planners[task];
    var plan := PlanOf(rec, p);
    Materialize(s.db, p.id, p.snapshot, p.worker, plan.plans, plan.next, SawOpen(p), ids)
  }

  function WithDb(s: State, db: Option<Db>): State {
    if db.None? then s else s.(db := db.value)
  }

  // ---- Dispatcher steps ------------------------------------------------------------------------

  const COORDINATION_RETRY_DELAY := 1000

  function DeferVerdict(now: Instant, code: Code, message: string): Verdict {
    Verdict(BoxRetrying, OccRetrying, ReportOf(DispatchResult(0, if message == "" then None else Some(message), code)),
            now + COORDINATION_RETRY_DELAY, None)
  }

  function DecisionOf(t: DispatchTask, result: DispatchResult, now: Instant, draw: Retry.Draw): Retry.Decision {
    Retry.Decide(t.work.job.retry, t.work.attempts, t.work.firstAttemptAt, result, now, draw)
  }

  function PersistVerdict(d: Retry.Decision, result: DispatchResult, now: Instant): Verdict {
    match d
    case Complete => Verdict(BoxSucceeded, OccSucceeded, ReportOf(result), now, Some(now))
    case Fail(r) => Verdict(BoxFailed, OccFailed, ReportOf(r), now, Some(now))
    case RetryAt(at) => Verdict(BoxRetrying, OccRetrying, ReportOf(result), Retry.Stored(at), None)
  }

  function ResultVerdict(t: DispatchTask, result: DispatchResult, now: Instant, draw: Retry.Draw): Verdict {
    PersistVerdict(DecisionOf(t, result, now, draw), result, now)
  }

  // ---- Command steps ---------------------------------------------------------------------------

  datatype CommandOutcome = Rejected | Applied(db: Db, code: ResultCode, row: Option<ScheduleRow>)

  datatype Position = NoPosition | Position(next: Option<Instant>, status: ScheduleStatus)

  /** Where a created or replaced schedule stands: a replace with the same run_at keeps what was consumed. */
  function PositionOf(rec: Recurrence, c: Command, now: Instant, current: Option<ScheduleRow>): Position {
    if current.Some? && c.def.runAt.Some? && c.def.runAt == current.value.def.runAt then
      Position(current.value.nextDue, if current.value.status.Exhausted? then Exhausted else c.status)
    else if c.def.runAt.Some? then
      if c.def.runAt.value <= now then NoPosition else Position(c.def.runAt, c.status)
    else
      var next := rec.next(RuleOf(c.def), c.def.timezone, now);
      if next.None? then NoPosition else Position(next, c.status)
  }

  function ApplyCreate(rec: Recurrence, db: Db, c: Command, now: Instant, newId: Id): CommandOutcome {
    var pos := PositionOf(rec, c, now, None);
    if pos.NoPosition? then Rejected
    else if NameInUse(db, c.tenant, c.name) then Applied(db, AlreadyExists, None)
    else
      var row := NewSchedule(c.tenant, c.name, c.def, pos.status, pos.next);
      Applied(WithSchedule(db, newId, row), Registered, Some(row))
  }

  function ApplyUpdate(rec: Recurrence, db: Db, c: Command, now: Instant, current: Current): CommandOutcome {
    if !current.Found? then Applied(db, NotFound, None)
    else
      var pos := PositionOf(rec, c, now, Some(current.row));
      if pos.NoPosition? then Rejected
      else if SameVersion(db, current.id, current.row) then
        var row := Replaced(db.schedules[current.id], c.def, pos.status, pos.next);
        Applied(WithSchedule(db, current.id, row), Updated, Some(row))
      else if NameInUse(db, c.tenant, c.name) then Applied(db, Changed, None)
      else Applied(db, NotFound, None)
  }

  function ApplyDelete(db: Db, c: Command): CommandOutcome {
    if NameInUse(db, c.tenant, c.name) then Applied(WithoutName(db, c.tenant, c.name), Deleted, None)
    else Applied(db, NotFound, None)
  }

  /** The next due instant a resume writes; a pause writes none. */
  function ResumeAt(rec: Recurrence, c: Command, now: Instant, row: ScheduleRow): Option<Instant> {
    if !c.op.Resume? then None
    else if row.def.runAt.Some? then row.def.runAt
    else rec.next(RuleOf(row.def), row.def.timezone, now)
  }

  function ApplyStatus(rec: Recurrence, db: Db, c: Command, now: Instant, current: Current): CommandOutcome {
    if !current.Found? then Applied(db, NotFound, None)
    else if current.row.status.Exhausted? then Applied(db, ExhaustedResult, None)
    else
      var next := ResumeAt(rec, c, now, current.row);
      if c.op.Resume? && next.None? then Rejected
      else if SameVersion(db, current.id, current.row) && !db.schedules[current.id].status.Exhausted? then
        var row := Restated(db.schedules[current.id], if c.op.Resume? then Active else Paused, next);
        Applied(WithSchedule(db, current.id, row), if c.op.Resume? then ResumedResult else PausedResult, Some(row))
      else if !NameInUse(db, c.tenant, c.name) then Applied(db, NotFound, None)
      else if NameExhausted(db, c.tenant, c.name) then Applied(db, ExhaustedResult, None)
      else Applied(db, Changed, None)
  }

  function ApplyCommand(rec: Recurrence, db: Db, t: CommandTask, newId: Id): CommandOutcome {
    match t.cmd.op
    case Create => ApplyCreate(rec, db, t.cmd, t.now, newId)
    case Update => ApplyUpdate(rec, db, t.cmd, t.now, t.current)
    case Delete => ApplyDelete(db, t.cmd)
    case _ => ApplyStatus(rec, db, t.cmd, t.now, t.current)
  }

  function ReceiptOf(c: Command, o: CommandOutcome, createdAt: Instant): Receipt
    requires o.Applied?
  {
    Receipt(c.digest, c.requestId, o.code, c.name, o.row, createdAt)
  }

  /** An error rolls the transaction back; anything else is committed together with its receipt. */
  function CommandCommit(rec: Recurrence, s: State, task: nat, newId: Id, createdAt: Instant): State
    requires task in s.commands
  {
    var t := s.commands[task];
    var o := ApplyCommand(rec, s.db, t, newId);
    if o.Rejected? then s
    else
      s.(db := o.db.(receipts := o.db.receipts[IdentityOf(t.cmd) := ReceiptOf(t.cmd, o, createdAt)]),
         issued := if o.code.Registered? then s.issued[newId := Owner(t.cmd.tenant, t.cmd.name)] else s.issued)
  }

  predicate IsUuid(id: Id) {
    && 0 < |id|
    && forall i | 0 <= i < |id| :: '0' <= id[i] <= '9' || 'a' <= id[i] <= 'f' || id[i] == '-'
  }

  // ---- The steps -------------------------------------------------------------------------------

  predicate CanClaimDue(s: State, task: nat, id: Id, now: Instant) {
    task !in s.planners && id in s.db.schedules && Due(s.db.schedules[id], now)
  }

  function DoClaimDue(s: State, task: nat, worker: string, id: Id, now: Instant, expires: Instant): State
    requires CanClaimDue(s, task, id, now)
  {
    var row := ClaimSchedule(s.db.schedules[id], worker, expires);
    s.(db := WithSchedule(s.db, id, row), planners := s.planners[task := PlannerTask(worker, id, row, now, None)])
  }

  predicate CanReadOpen(rec: Recurrence, s: State, task: nat) {
    task in s.planners && s.planners[task].open.None? && PlanOf(rec, s.planners[task]).Planned?
  }

  function DoReadOpen(s: State, task: nat): State
    requires task in s.planners
  {
    var p := s.planners[task];
    var open := p.snapshot.def.overlap.Forbid? && HasOpen(s.db, p.snapshot.tenant, p.id);
    s.(planners := s.planners[task := p.(open := Some(open))])
  }

  predicate CanCommitPlan(rec: Recurrence, s: State, task: nat, ids: seq<(Id, Id)>) {
    && task in s.planners && s.planners[task].open.Some? && PlanOf(rec, s.planners[task]).Planned?
    && |ids| == |PlanOf(rec, s.planners[task]).plans| && FreshIds(s.db, ids)
  }

  function DoCommitPlan(rec: Recurrence, s: State, task: nat, ids: seq<(Id, Id)>): State
    requires CanCommitPlan(rec, s, task, ids)
  {
    WithDb(s, PlanCommit(rec, s, task, ids)).(planners := s.planners - {task})
  }

  predicate CanRelease(rec: Recurrence, s: State, task: nat) {
    task in s.planners && PlanOf(rec, s.planners[task]).PlanError?
  }

  function DoRelease(s: State, task: nat): State
    requires task in s.planners
  {
    var p := s.planners[task];
    var db := if MayRelease(s.db, p.id, p.snapshot.tenant, p.worker) then Release(s.db, p.id) else s.db;
    s.(db := db, planners := s.planners - {task})
  }

  predicate CanRecover(s: State, row: Id, now: Instant) {
    row in s.db.outbox && Recoverable(s.db.outbox[row], now)
  }

  predicate CanClaimDispatch(s: State, task: nat, row: Id, now: Instant) {
    task !in s.dispatchers && row in s.db.outbox && Claimable(s.db.outbox[row], now)
  }

  function DoClaimDispatch(s: State, task: nat, worker: string, row: Id, now: Instant, expires: Instant): State
    requires CanClaimDispatch(s, task, row, now)
  {
    var r := ClaimedRow(s.db.outbox[row], worker, expires);
    s.(db := s.db.(outbox := s.db.outbox[row := r]),
       dispatchers := s.dispatchers[task := DispatchTask(worker, row, r, Claimed)])
  }

  predicate InPhase(s: State, task: nat, phase: Phase) {
    task in s.dispatchers && s.dispatchers[task].phase == phase
  }

  /** Without the acknowledgement the attempt is counted but its worker gives up, as after a crash. */
  function DoBegin(s: State, task: nat, now: Instant, acknowledged: bool): State
    requires InPhase(s, task, Claimed)
  {
    var t := s.dispatchers[task];
    var db := Begin(s.db, t.row, t.work, t.worker, now);
    if db.Some? && acknowledged then
      s.(db := db.value, dispatchers := s.dispatchers[task := t.(work := db.value.outbox[t.row], phase := Begun)])
    else WithDb(s, db).(dispatchers := s.dispatchers - {task})
  }

  function DoSend(s: State, task: nat): State
    requires InPhase(s, task, Begun)
  {
    var t := s.dispatchers[task];
    s.(dispatchers := s.dispatchers[task := t.(phase := Sent)], sends := s.sends + [SendRecord(t.row, t.work)])
  }

  /** A guarded result write, after which the worker is done with the row either way. */
  function DoTransition(s: State, task: nat, v: Verdict): State
    requires task in s.dispatchers
  {
    var t := s.dispatchers[task];
    WithDb(s, Transition(s.db, t.row, t.work, t.worker, v)).(dispatchers := s.dispatchers - {task})
  }

  predicate CanStartCommand(s: State, task: nat, cmd: Command) {
    && task !in s.commands && Prepared(cmd) && IdentityOf(cmd) !in s.db.receipts
    && forall k | k in s.commands :: IdentityOf(s.commands[k].cmd) != IdentityOf(cmd)
  }

  predicate CanReadSchedule(s: State, task: nat, found: Option<Id>) {
    && task in s.commands && s.commands[task].current.NotRead?
    && var c := s.commands[task].cmd;
    && (c.op.Update? || c.op.Pause? || c.op.Resume?)
    && if found.Some? then found.value in s.db.schedules && Named(s.db.schedules[found.value], c.tenant, c.name)
       else !NameInUse(s.db, c.tenant, c.name)
  }

  function DoReadSchedule(s: State, task: nat, found: Option<Id>): State
    requires CanReadSchedule(s, task, found)
  {
    var current := if found.Some? then Found(found.value, s.db.schedules[found.value]) else Missing;
    s.(commands := s.commands[task := s.commands[task].(current := current)])
  }

  predicate CanCommitCommand(s: State, task: nat, newId: Id) {
    && task in s.commands && newId !in s.issued && IsUuid(newId)
    && (s.commands[task].current.NotRead? ==> s.commands[task].cmd.op.Create? || s.commands[task].cmd.op.Delete?)
  }

  function DoCommitCommand(rec: Recurrence, s: State, task: nat, newId: Id, createdAt: Instant): State
    requires CanCommitCommand(s, task, newId)
  {
    CommandCommit(rec, s, task, newId, createdAt).(commands := s.commands - {task})
  }

  predicate Enabled(rec: Recurrence, s: State, step: Step) {
    match step
    case ClaimDue(task, worker, id, now, expires) => CanClaimDue(s, task, id, now)
    case ReadOpen(task) => CanReadOpen(rec, s, task)
    case CommitPlan(task, ids) => CanCommitPlan(rec, s, task, ids)
    case ReleaseClaim(task) => CanRelease(rec, s, task)
    case DropPlanner(task) => task in s.planners
    case RecoverDispatch(row, now) => CanRecover(s, row, now)
    case ClaimDispatch(task, worker, row, now, expires) => CanClaimDispatch(s, task, row, now)
    case BeginAttempt(task, now, acknowledged) => InPhase(s, task, Claimed)
    case Send(task) => InPhase(s, task, Begun)
    case DeferAttempt(task, now, code, message) => InPhase(s, task, Claimed)
    case Persist(task, result, now, draw) => InPhase(s, task, Sent)
    case DropDispatcher(task) => task in s.dispatchers
    case StartCommand(task, cmd, now) => CanStartCommand(s, task, cmd)
    case ReadSchedule(task, found) => CanReadSchedule(s, task, found)
    case CommitCommand(task, newId, createdAt) => CanCommitCommand(s, task, newId)
    case DropCommand(task) => task in s.commands
  }

  function Apply(rec: Recurrence, s: State, step: Step): State
    requires Enabled(rec, s, step)
  {
    match step
    case ClaimDue(task, worker, id, now, expires) => DoClaimDue(s, task, worker, id, now, expires)
    case ReadOpen(task) => DoReadOpen(s, task)
    case CommitPlan(task, ids) => DoCommitPlan(rec, s, task, ids)
    case ReleaseClaim(task) => DoRelease(s, task)
    case DropPlanner(task) => s.(planners := s.planners - {task})
    case RecoverDispatch(row, now) => s.(db := RecoverRow(s.db, row, now))
    case ClaimDispatch(task, worker, row, now, expires) => DoClaimDispatch(s, task, worker, row, now, expires)
    case BeginAttempt(task, now, acknowledged) => DoBegin(s, task, now, acknowledged)
    case Send(task) => DoSend(s, task)
    case DeferAttempt(task, now, code, message) => DoTransition(s, task, DeferVerdict(now, code, message))
    case Persist(task, result, now, draw) =>
      DoTransition(s, task, ResultVerdict(s.dispatchers[task], result, now, draw))
    case DropDispatcher(task) => s.(dispatchers := s.dispatchers - {task})
    case StartCommand(task, cmd, now) => s.(commands := s.commands[task := CommandTask(cmd, now, NotRead)])
    case ReadSchedule(task, found) => DoReadSchedule(s, task, found)
    case CommitCommand(task, newId, createdAt) => DoCommitCommand(rec, s, task, newId, createdAt)
    case DropCommand(task) => s.(commands := s.commands - {task})
  }

  predicate Initial(s: State) {
    s == State(Db(map[], map[], map[], map[]), map[], map[], map[], map[], [])
  }

  datatype Run = Run(states: seq<State>, steps: seq<Step>)

  ghost predicate Next(rec: Recurrence, s: State, step: Step, t: State) {
    Enabled(rec, s, step) && t == Apply(rec, s, step)
  }

  ghost predicate StepAt(rec: Recurrence, run: Run, i: nat)
    requires i < |run.steps| && i + 1 < |run.states|
  {
    Next(rec, run.states[i], run.steps[i], run.states[i + 1])
  }

  ghost predicate ValidRun(rec: Recurrence, run: Run) {
    && |run.states| == |run.steps| + 1
    && Initial(run.states[0])
    && forall i: nat {:trigger StepAt(rec, run, i)} | i < |run.steps| :: StepAt(rec, run, i)
  }

  ghost function Then(rec: Recurrence, s: Option<State>, step: Step): Option<State> {
    if s.None? || !Enabled(rec, s.value, step) then None else Some(Apply(rec, s.value, step))
  }

  /** Steps taken one after the other; None if one of them is not enabled. */
  ghost function Follow(rec: Recurrence, s: State, steps: seq<Step>): Option<State> {
    if |steps| == 0 then Some(s)
    else Then(rec, Follow(rec, s, steps[..|steps| - 1]), steps[|steps| - 1])
  }

  lemma FollowLast(rec: Recurrence, s: State, steps: seq<Step>, step: Step)
    ensures Follow(rec, s, steps + [step]) == Then(rec, Follow(rec, s, steps), step)
  {
    var all := steps + [step];
    assert all[..|all| - 1] == steps;
  }

  lemma FollowOneMore(rec: Recurrence, s: State, steps: seq<Step>, t: State, step: Step, u: State)
    requires Follow(rec, s, steps) == Some(t) && Next(rec, t, step, u)
    ensures Follow(rec, s, steps + [step]) == Some(u)
  {
    FollowLast(rec, s, steps, step);
  }

  lemma LastStep(first: seq<Step>, second: seq<Step>, n: nat)
    requires |second| == n + 1
    ensures second == second[..n] + [second[n]] && first + second == first + second[..n] + [second[n]]
  {
  }

  lemma {:induction false} FollowAppends(rec: Recurrence, s: State, first: seq<Step>, mid: State, second: seq<Step>)
    requires Follow(rec, s, first) == Some(mid)
    ensures Follow(rec, s, first + second) == Follow(rec, mid, second)
    decreases |second|
  {
    if |second| == 0 {
      assert first + second == first;
    } else {
      var n := |second| - 1;
      LastStep(first, second, n);
      FollowAppends(rec, s, first, mid, second[..n]);
      FollowLast(rec, s, first + second[..n], second[n]);
      FollowLast(rec, mid, second[..n], second[n]);
    }
  }
}
