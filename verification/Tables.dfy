/**
 * The four tables and the SQL statements that change them, one function per statement.
 * created_at and updated_at are not kept: nothing reads them back.
 */
module Tables {
  import opened Domain
  import opened Planner

  datatype ScheduleRow = ScheduleRow(
    tenant: string, name: string, def: Definition, status: ScheduleStatus, nextDue: Option<Instant>,
    claimOwner: Option<string>, claimExpires: Option<Instant>, version: int)

  datatype OccurrenceKey = OccurrenceKey(tenant: string, scheduleId: Id, scheduledAt: Instant)

  /** What the last attempt reported. */
  datatype Report = Report(httpStatus: Option<int>, code: Code, message: Option<string>)

  const NO_REPORT := Report(None, NoCode, None)

  datatype OccurrenceRow = OccurrenceRow(
    key: OccurrenceKey, scheduleName: string, observedAt: Instant, missedCount: int,
    status: OccurrenceStatus, outcome: Code, attempts: int, report: Report, completedAt: Option<Instant>)

  /** The part of an outbox row captured at materialization. */
  datatype Job = Job(
    key: OccurrenceKey, occurrenceId: Id, scheduleName: string,
    url: string, verb: Method, payload: string, retry: RetryPolicy)

  datatype OutboxRow = OutboxRow(
    job: Job, status: OutboxStatus, attempts: int, nextAttemptAt: Instant, firstAttemptAt: Option<Instant>,
    claimOwner: Option<string>, claimExpires: Option<Instant>, report: Report, completedAt: Option<Instant>)

  datatype ReceiptKey = ReceiptKey(tenant: string, scope: string, key: string)

  datatype ResultCode =
    | Registered | Updated | Deleted | PausedResult | ResumedResult
    | AlreadyExists | NotFound | ExhaustedResult | Changed

  datatype Receipt = Receipt(
    digest: string, requestId: string, code: ResultCode, name: string, row: Option<ScheduleRow>, createdAt: Instant)

  datatype Db = Db(
    schedules: map<Id, ScheduleRow>, occurrences: map<Id, OccurrenceRow>,
    outbox: map<Id, OutboxRow>, receipts: map<ReceiptKey, Receipt>)

  // ---- CHECK constraints -----------------------------------------------------------------------

  predicate ScheduleCheck(r: ScheduleRow) {
    && ValidTenant(r.tenant) && ValidName(r.name)
    && ValidDefinition(r.def)
    && (if r.status.Exhausted? then
          r.def.runAt.Some? && r.nextDue.None? && r.claimOwner.None? && r.claimExpires.None?
        else
          r.nextDue.Some? && (r.def.runAt.Some? ==> r.nextDue == r.def.runAt))
    && (r.status.Paused? ==> r.claimOwner.None? && r.claimExpires.None?)
    && (r.claimOwner.Some? <==> r.claimExpires.Some?)
    && r.version >= 1
  }

  predicate OccurrenceCheck(o: OccurrenceRow) {
    && o.missedCount >= 1
    && 0 <= o.attempts <= MAX_RETRY_ATTEMPTS
    && (OccOpen(o.status) <==> o.completedAt.None?)
  }

  predicate OutboxCheck(r: OutboxRow) {
    && ValidRetry(r.job.retry)
    && 0 <= r.attempts <= r.job.retry.maxAttempts
    && (r.status.BoxDispatching? <==> r.claimOwner.Some?)
    && (r.status.BoxDispatching? <==> r.claimExpires.Some?)
    && (BoxOpen(r.status) <==> r.completedAt.None?)
  }

  // ---- Planner statements ----------------------------------------------------------------------

  predicate Due(r: ScheduleRow, now: Instant) {
    && r.status.Active?
    && r.nextDue.Some? && r.nextDue.value <= now
    && (r.claimExpires.None? || r.claimExpires.value <= now)
  }

  function ClaimSchedule(r: ScheduleRow, worker: string, expires: Instant): ScheduleRow {
    r.(claimOwner := Some(worker), claimExpires := Some(expires))
  }

  predicate HasOpen(db: Db, tenant: string, id: Id) {
    exists o | o in db.occurrences ::
      && db.occurrences[o].key.tenant == tenant && db.occurrences[o].key.scheduleId == id
      && OccOpen(db.occurrences[o].status)
  }

  predicate Taken(db: Db, key: OccurrenceKey) {
    exists o | o in db.occurrences :: db.occurrences[o].key == key
  }

  predicate Queued(db: Db, tenant: string, occurrence: Id) {
    exists x | x in db.outbox :: db.outbox[x].job.occurrenceId == occurrence && db.outbox[x].job.key.tenant == tenant
  }

  function KeyOf(id: Id, r: ScheduleRow, p: Plan): OccurrenceKey {
    OccurrenceKey(r.tenant, id, p.scheduledAt)
  }

  function NewOccurrence(id: Id, r: ScheduleRow, p: Plan): OccurrenceRow {
    OccurrenceRow(KeyOf(id, r, p), r.name, p.observedAt, p.missedCount, p.status, p.outcome, 0, NO_REPORT,
                  if OccOpen(p.status) then None else Some(p.observedAt))
  }

  /** INSERT INTO scheduler_occurrence ... ON CONFLICT DO NOTHING; the flag says whether a row was added. */
  function InsertOccurrence(db: Db, id: Id, r: ScheduleRow, p: Plan, newId: Id): (Db, bool) {
    if Taken(db, KeyOf(id, r, p)) then (db, false)
    else (db.(occurrences := db.occurrences[newId := NewOccurrence(id, r, p)]), true)
  }

  function NewJob(id: Id, r: ScheduleRow, p: Plan, occurrence: Id): Job {
    Job(KeyOf(id, r, p), occurrence, r.name, r.def.url, r.def.verb, r.def.payload, r.def.retry)
  }

  /** INSERT INTO scheduler_dispatch_outbox ... ON CONFLICT DO NOTHING. */
  function InsertDispatch(db: Db, id: Id, r: ScheduleRow, occurrence: Id, p: Plan, newId: Id): Db {
    if Queued(db, r.tenant, occurrence) then db
    else db.(outbox := db.outbox[newId :=
      OutboxRow(NewJob(id, r, p, occurrence), BoxPending, 0, p.observedAt, None, None, None, NO_REPORT, None)])
  }

  function Effective(p: Plan, open: bool): Plan {
    if p.dispatch && open then Blocked(p) else p
  }

  /** One round of materialize's loop: the new tables and the new value of openOccurrence. */
  function InsertPlan(db: Db, id: Id, r: ScheduleRow, plan: Plan, open: bool, ids: (Id, Id)): (Db, bool) {
    var p := Effective(plan, open);
    var (db1, inserted) := InsertOccurrence(db, id, r, p, ids.0);
    if !inserted || !p.dispatch then (db1, open)
    else (InsertDispatch(db1, id, r, ids.0, p, ids.1), open || r.def.overlap.Forbid?)
  }

  /** Identifiers for new occurrences and outbox rows: not in use and different from each other. */
  predicate FreshIds(db: Db, ids: seq<(Id, Id)>) {
    && (forall i | 0 <= i < |ids| :: ids[i].0 !in db.occurrences && ids[i].1 !in db.outbox)
    && (forall i, j | 0 <= i < j < |ids| :: ids[i].0 != ids[j].0 && ids[i].1 != ids[j].1)
  }

  function InsertPlans(db: Db, id: Id, r: ScheduleRow, plans: seq<Plan>, open: bool, ids: seq<(Id, Id)>): Db
    requires |plans| == |ids|
    decreases |plans|
  {
    if |plans| == 0 then db
    else
      var (db1, open1) := InsertPlan(db, id, r, plans[0], open, ids[0]);
      InsertPlans(db1, id, r, plans[1..], open1, ids[1..])
  }

  /** The version and claim guard of AdvanceSchedule. */
  predicate MayAdvance(db: Db, id: Id, snapshot: ScheduleRow, worker: string) {
    && id in db.schedules && db.schedules[id].tenant == snapshot.tenant
    && db.schedules[id].version == snapshot.version && db.schedules[id].claimOwner == Some(worker)
  }

  function Advanced(r: ScheduleRow, next: Option<Instant>): ScheduleRow {
    r.(nextDue := next, status := if next.None? then Exhausted else r.status,
       claimOwner := None, claimExpires := None, version := r.version + 1)
  }

  /** The whole materialize transaction: None is ErrClaimLost, whose rollback undoes the inserts. */
  function Materialize(db: Db, id: Id, snapshot: ScheduleRow, worker: string,
                       plans: seq<Plan>, next: Option<Instant>, open: bool, ids: seq<(Id, Id)>): Option<Db>
    requires |plans| == |ids|
  {
    var db1 := InsertPlans(db, id, snapshot, plans, open, ids);
    if MayAdvance(db1, id, snapshot, worker) then
      Some(db1.(schedules := db1.schedules[id := Advanced(db1.schedules[id], next)]))
    else None
  }

  /** ReleaseScheduleClaim is guarded by the worker id alone. */
  predicate MayRelease(db: Db, id: Id, tenant: string, worker: string) {
    id in db.schedules && db.schedules[id].tenant == tenant && db.schedules[id].claimOwner == Some(worker)
  }

  function Release(db: Db, id: Id): Db
    requires id in db.schedules
  {
    db.(schedules := db.schedules[id := db.schedules[id].(claimOwner := None, claimExpires := None)])
  }

  // ---- Dispatch statements ---------------------------------------------------------------------

  predicate Claimable(r: OutboxRow, now: Instant) {
    && r.attempts < r.job.retry.maxAttempts
    && (|| ((r.status.BoxPending? || r.status.BoxRetrying?) && r.nextAttemptAt <= now)
      || (r.status.BoxDispatching? && r.claimExpires.Some? && r.claimExpires.value <= now))
  }

  function ClaimedRow(r: OutboxRow, worker: string, expires: Instant): OutboxRow {
    r.(status := BoxDispatching, claimOwner := Some(worker), claimExpires := Some(expires))
  }

  /** Claimed for its last attempt, and the claim has run out. */
  predicate Recoverable(r: OutboxRow, now: Instant) {
    && r.status.BoxDispatching? && r.claimExpires.Some? && r.claimExpires.value <= now
    && r.attempts >= r.job.retry.maxAttempts
  }

  const RECOVERED := Report(None, DispatchRecoveryExhausted, Some("worker claim expired after final dispatch attempt"))

  function RecoveredRow(r: OutboxRow, now: Instant): OutboxRow {
    r.(status := BoxFailed, nextAttemptAt := now, claimOwner := None, claimExpires := None,
       report := RECOVERED.(httpStatus := r.report.httpStatus), completedAt := Some(now))
  }

  function RecoveredOccurrence(o: OccurrenceRow, attempts: int, now: Instant): OccurrenceRow {
    o.(status := OccFailed, outcome := DispatchRecoveryExhausted, attempts := attempts,
       report := RECOVERED.(httpStatus := o.report.httpStatus), completedAt := Some(now))
  }

  /** The tables after RecoverExhaustedDispatches treated row x. */
  function RecoverRow(db: Db, x: Id, now: Instant): Db
    requires x in db.outbox
  {
    var r := db.outbox[x];
    var db1 := db.(outbox := db.outbox[x := RecoveredRow(r, now)]);
    if OwnsOccurrence(db, r.job) then
      db1.(occurrences := db1.occurrences[r.job.occurrenceId :=
        RecoveredOccurrence(db1.occurrences[r.job.occurrenceId], r.attempts, now)])
    else db1
  }

  /** The WHERE clause of every occurrence update: tenant and id, no status. */
  predicate OwnsOccurrence(db: Db, job: Job) {
    job.occurrenceId in db.occurrences && db.occurrences[job.occurrenceId].key.tenant == job.key.tenant
  }

  predicate MayBegin(db: Db, x: Id, work: OutboxRow, worker: string, now: Instant) {
    && x in db.outbox
    && var r := db.outbox[x];
    && r.job.key.tenant == work.job.key.tenant && r.claimOwner == Some(worker)
    && r.status.BoxDispatching? && r.claimExpires.Some? && r.claimExpires.value > now
    && r.attempts < r.job.retry.maxAttempts
  }

  function BegunRow(r: OutboxRow, now: Instant): OutboxRow {
    r.(attempts := r.attempts + 1, firstAttemptAt := if r.firstAttemptAt.Some? then r.firstAttemptAt else Some(now))
  }

  /** BeginDispatch; None is ErrClaimLost. The started row is db'.outbox[x]. */
  function Begin(db: Db, x: Id, work: OutboxRow, worker: string, now: Instant): Option<Db> {
    if !MayBegin(db, x, work, worker, now) then None
    else
      var r := BegunRow(db.outbox[x], now);
      if !OwnsOccurrence(db, r.job) then None
      else
        var o := db.occurrences[r.job.occurrenceId];
        var started := o.(status := OccDispatching, attempts := r.attempts);
        Some(db.(outbox := db.outbox[x := r], occurrences := db.occurrences[r.job.occurrenceId := started]))
  }

  /** transitionDispatch's guard: the worker id and the status, not the claim's age or the attempt. */
  predicate MayTransition(db: Db, x: Id, work: OutboxRow, worker: string) {
    && x in db.outbox
    && db.outbox[x].job.key.tenant == work.job.key.tenant
    && db.outbox[x].claimOwner == Some(worker) && db.outbox[x].status.BoxDispatching?
  }

  /** The statuses and times one outcome writes. */
  datatype Verdict = Verdict(
    box: OutboxStatus, occ: OccurrenceStatus, report: Report, nextAttemptAt: Instant, completedAt: Option<Instant>)

  function TransitionedRow(r: OutboxRow, v: Verdict): OutboxRow {
    r.(status := v.box, nextAttemptAt := v.nextAttemptAt, claimOwner := None, claimExpires := None,
       report := v.report, completedAt := v.completedAt)
  }

  function TransitionedOccurrence(o: OccurrenceRow, attempts: int, v: Verdict): OccurrenceRow {
    o.(status := v.occ, outcome := v.report.code, attempts := attempts,
       report := v.report, completedAt := v.completedAt)
  }

  /** transitionDispatch; the occurrence receives the caller's attempt count, not the row's. */
  function Transition(db: Db, x: Id, work: OutboxRow, worker: string, v: Verdict): Option<Db> {
    if !MayTransition(db, x, work, worker) || !OwnsOccurrence(db, work.job) then None
    else
      var o := db.occurrences[work.job.occurrenceId];
      Some(db.(outbox := db.outbox[x := TransitionedRow(db.outbox[x], v)],
               occurrences := db.occurrences[work.job.occurrenceId := TransitionedOccurrence(o, work.attempts, v)]))
  }

  /** 1024 characters of an error message are kept, and an empty one becomes NULL. */
  function ReportOf(r: DispatchResult): Report {
    Report(if r.status == 0 then None else Some(r.status), r.code,
           if r.err.None? || r.err.value == "" then None
           else Some(if |r.err.value| > 1024 then r.err.value[..1024] else r.err.value))
  }

  // ---- Command statements ----------------------------------------------------------------------

  predicate Named(r: ScheduleRow, tenant: string, name: string) {
    r.tenant == tenant && r.name == name
  }

  predicate NameInUse(db: Db, tenant: string, name: string) {
    exists id | id in db.schedules :: Named(db.schedules[id], tenant, name)
  }

  predicate NameExhausted(db: Db, tenant: string, name: string) {
    exists id | id in db.schedules :: Named(db.schedules[id], tenant, name) && db.schedules[id].status.Exhausted?
  }

  /** The id and version fence of UpdateSchedule and SetScheduleStatus. */
  predicate SameVersion(db: Db, id: Id, current: ScheduleRow) {
    && id in db.schedules && Named(db.schedules[id], current.tenant, current.name)
    && db.schedules[id].version == current.version
  }

  function NewSchedule(
    tenant: string, name: string, def: Definition, status: ScheduleStatus, next: Option<Instant>): ScheduleRow {
    ScheduleRow(tenant, name, def, status, next, None, None, 1)
  }

  function Replaced(r: ScheduleRow, def: Definition, status: ScheduleStatus, next: Option<Instant>): ScheduleRow {
    r.(def := def, status := status, nextDue := next,
       claimOwner := None, claimExpires := None, version := r.version + 1)
  }

  /** SetScheduleStatus keeps next_due_at when it is given none. */
  function Restated(r: ScheduleRow, status: ScheduleStatus, next: Option<Instant>): ScheduleRow {
    r.(status := status, nextDue := if next.Some? then next else r.nextDue,
       claimOwner := None, claimExpires := None, version := r.version + 1)
  }

  function WithSchedule(db: Db, id: Id, r: ScheduleRow): Db {
    db.(schedules := db.schedules[id := r])
  }

  function WithoutName(db: Db, tenant: string, name: string): Db {
    db.(schedules := map id | id in db.schedules && !Named(db.schedules[id], tenant, name) :: db.schedules[id])
  }
}
