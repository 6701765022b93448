/**
 * When dispatch work gets stuck, exactly.  Result writes are fenced by the worker id alone, so a worker
 * can reschedule a row whose attempts another copy of it has used up.  That write, and nothing else,
 * strands a row; every other open row can always be finished.
 */
module Liveness {
  import opened Domain
  import opened Planner
  import opened Tables
  import opened Protocol
  import opened Coupling
  import opened Invariant
  import opened Preservation
  import opened Attempts
  import Progress

  predicate Waiting(r: OutboxRow) {
    r.status.BoxPending? || r.status.BoxRetrying?
  }

  /** The row waits for an attempt it no longer has. */
  ghost predicate Stuck(s: State, x: Id) {
    x in s.db.outbox && Waiting(s.db.outbox[x]) && s.db.outbox[x].attempts >= s.db.outbox[x].job.retry.maxAttempts
  }

  // ---- A stuck row never moves again -----------------------------------------------------------

  lemma StuckInBegin(s: State, task: nat, now: Instant, acknowledged: bool, x: Id)
    requires InPhase(s, task, Claimed) && Stuck(s, x)
    ensures x in DoBegin(s, task, now, acknowledged).db.outbox
    ensures DoBegin(s, task, now, acknowledged).db.outbox[x] == s.db.outbox[x]
  {
  }

  lemma StuckInTransition(s: State, task: nat, v: Verdict, x: Id)
    requires task in s.dispatchers && Stuck(s, x)
    ensures x in DoTransition(s, task, v).db.outbox && DoTransition(s, task, v).db.outbox[x] == s.db.outbox[x]
  {
  }

  lemma StuckInStep(rec: Recurrence, s: State, step: Step, t: State, x: Id)
    requires Next(rec, s, step, t) && Stuck(s, x)
    ensures Stuck(t, x) && t.db.outbox[x] == s.db.outbox[x]
  {
    if step.CommitPlan? {
      PlanKeepsRow(rec, s, step.task, step.ids, x);
    } else if step.BeginAttempt? {
      StuckInBegin(s, step.task, step.now, step.acknowledged, x);
    } else if ResultStep(step) {
      StuckInTransition(s, step.task, VerdictOf(s, step), x);
    } else if !step.ClaimDispatch? && !step.RecoverDispatch? {
      DispatchUntouched(rec, s, step, t);
    }
  }

  /** A stranded row stays as it is for the rest of the run: no step of any worker can move it again. */
  lemma {:induction false} StuckForever(rec: Recurrence, run: Run, i: nat, j: nat, x: Id)
    requires ValidRun(rec, run) && i <= j < |run.states| && Stuck(run.states[i], x)
    ensures Stuck(run.states[j], x) && run.states[j].db.outbox[x] == run.states[i].db.outbox[x]
  {
    if i < j {
      StuckForever(rec, run, i, j - 1, x);
      assert StepAt(rec, run, j - 1);
      StuckInStep(rec, run.states[j - 1], run.steps[j - 1], run.states[j], x);
    }
  }

  /** Occurrence and outbox row count the same attempts. */
  ghost predicate Agrees(db: Db, x: Id) {
    x in db.outbox ==>
      && db.outbox[x].job.occurrenceId in db.occurrences
      && db.occurrences[db.outbox[x].job.occurrenceId].attempts == db.outbox[x].attempts
  }

  // ---- The write that strands a row ------------------------------------------------------------

  /** Steps that end in transitionDispatch. */
  predicate ResultStep(step: Step) {
    step.DeferAttempt? || step.Persist?
  }

  function VerdictOf(s: State, step: Step): Verdict
    requires ResultStep(step) && step.task in s.dispatchers
  {
    if step.DeferAttempt? then DeferVerdict(step.now, step.code, step.message)
    else ResultVerdict(s.dispatchers[step.task], step.result, step.now, step.draw)
  }

  /** The step writes a result to row x: the owner and status guard lets it through. */
  predicate WritesResult(s: State, step: Step, x: Id) {
    && ResultStep(step) && step.task in s.dispatchers && s.dispatchers[step.task].row == x
    && MayTransition(s.db, x, s.dispatchers[step.task].work, s.dispatchers[step.task].worker)
  }

  /** It sends the row back to wait, although the row has no attempt left. */
  predicate LateRetry(s: State, step: Step, x: Id) {
    && WritesResult(s, step, x) && VerdictOf(s, step).box.BoxRetrying?
    && s.db.outbox[x].attempts >= s.db.outbox[x].job.retry.maxAttempts
  }

  /** In a state of the invariant the occurrence is always there, so the guard alone decides about the write. */
  lemma TransitionIsPairUpdate(s: State, task: nat, v: Verdict)
    requires Inv(s) && task in s.dispatchers
    ensures var d := s.dispatchers[task];
            && d.row in s.db.outbox && s.db.outbox[d.row].job.occurrenceId in s.db.occurrences
            && var o := s.db.occurrences[s.db.outbox[d.row].job.occurrenceId];
            DoTransition(s, task, v).db ==
              if MayTransition(s.db, d.row, d.work, d.worker)
              then PairUpdate(s.db, d.row, TransitionedRow(s.db.outbox[d.row], v),
                              TransitionedOccurrence(o, d.work.attempts, v))
              else s.db
  {
    assert DispatcherOk(s, task);
    PairFacts(s.db, s.dispatchers[task].row);
  }

  lemma PairUpdateStrands(s: State, y: Id, v: Verdict, o: OccurrenceRow, t: State, x: Id)
    requires x in s.db.outbox && y in s.db.outbox && !Stuck(s, x) && ProperVerdict(v)
    requires t.db == PairUpdate(s.db, y, TransitionedRow(s.db.outbox[y], v), o)
    ensures Stuck(t, x) <==>
              x == y && v.box.BoxRetrying? && s.db.outbox[x].attempts >= s.db.outbox[x].job.retry.maxAttempts
  {
  }

  lemma ResultStrands(rec: Recurrence, s: State, step: Step, t: State, x: Id)
    requires Inv(s) && Next(rec, s, step, t) && ResultStep(step) && x in s.db.outbox && !Stuck(s, x)
    ensures Stuck(t, x) <==> LateRetry(s, step, x)
  {
    var d := s.dispatchers[step.task];
    var v := VerdictOf(s, step);
    TransitionIsPairUpdate(s, step.task, v);
    if MayTransition(s.db, d.row, d.work, d.worker) {
      var o := s.db.occurrences[s.db.outbox[d.row].job.occurrenceId];
      PairUpdateStrands(s, d.row, v, TransitionedOccurrence(o, d.work.attempts, v), t, x);
    }
  }

  lemma BeginStrandsNothing(s: State, task: nat, now: Instant, acknowledged: bool, x: Id)
    requires InPhase(s, task, Claimed) && x in s.db.outbox && !Stuck(s, x)
    ensures !Stuck(DoBegin(s, task, now, acknowledged), x)
  {
  }

  /** Only a worker that has missed an attempt of the row can send it back too late. */
  lemma LateRetryIsStale(rec: Recurrence, s: State, step: Step, x: Id)
    requires Inv(s) && Enabled(rec, s, step) && LateRetry(s, step, x)
    ensures s.dispatchers[step.task].work.attempts < s.db.outbox[x].attempts
  {
    assert DispatcherOk(s, step.task);
  }

  lemma OthersStrandNothing(rec: Recurrence, s: State, step: Step, t: State, x: Id)
    requires Next(rec, s, step, t) && !ResultStep(step) && x in s.db.outbox && !Stuck(s, x)
    ensures !Stuck(t, x)
  {
    if step.CommitPlan? {
      PlanKeepsRow(rec, s, step.task, step.ids, x);
    } else if step.BeginAttempt? {
      BeginStrandsNothing(s, step.task, step.now, step.acknowledged, x);
    } else if !step.ClaimDispatch? && !step.RecoverDispatch? {
      DispatchUntouched(rec, s, step, t);
    }
  }

  /**
   * A step strands a row if and only if it is a late retry: a defer or a retry, let through by the
   * owner and status guard, of a row whose attempts have reached max_attempts.
   */
  lemma StrandingIsExact(rec: Recurrence, s: State, step: Step, t: State, x: Id)
    requires Inv(s) && Next(rec, s, step, t) && x in s.db.outbox && !Stuck(s, x)
    ensures Stuck(t, x) <==> LateRetry(s, step, x)
  {
    if ResultStep(step) {
      ResultStrands(rec, s, step, t, x);
    } else {
      OthersStrandNothing(rec, s, step, t, x);
    }
  }

  lemma InsertPlanIsUnused(db: Db, id: Id, r: ScheduleRow, plan: Plan, open: bool, ids: (Id, Id), x: Id)
    requires x !in db.outbox && x in InsertPlan(db, id, r, plan, open, ids).0.outbox
    ensures var db' := InsertPlan(db, id, r, plan, open, ids).0;
            && x == ids.1 && db'.outbox[x].attempts == 0 && db'.outbox[x].job.occurrenceId == ids.0
            && ids.0 in db'.occurrences && db'.occurrences[ids.0].attempts == 0
  {
  }

  /** A new row has used no attempt, and its occurrence agrees. */
  lemma {:induction false} InsertedIsUnused(
    db: Db, id: Id, r: ScheduleRow, plans: seq<Plan>, open: bool, ids: seq<(Id, Id)>, x: Id)
    requires |plans| == |ids| && FreshIds(db, ids) && x !in db.outbox
    ensures var db' := InsertPlans(db, id, r, plans, open, ids);
            x in db'.outbox ==> db'.outbox[x].attempts == 0 && Agrees(db', x)
    decreases |plans|
  {
    if |plans| > 0 {
      var (db1, open1) := InsertPlan(db, id, r, plans[0], open, ids[0]);
      var rest, more := plans[1..], ids[1..];
      FreshIdsStayFresh(db, id, r, plans[0], open, ids);
      if x in db1.outbox {
        InsertPlanIsUnused(db, id, r, plans[0], open, ids[0], x);
        InsertPlansKeepRow(db1, id, r, rest, open1, more, x);
        Progress.InsertedArePlanned(db1, id, r, rest, open1, more, ids[0].0);
      } else {
        InsertedIsUnused(db1, id, r, rest, open1, more, x);
      }
    }
  }

  lemma FreshIdsStayFresh(db: Db, id: Id, r: ScheduleRow, plan: Plan, open: bool, ids: seq<(Id, Id)>)
    requires |ids| > 0 && FreshIds(db, ids)
    ensures FreshIds(InsertPlan(db, id, r, plan, open, ids[0]).0, ids[1..])
    ensures forall i | 0 <= i < |ids[1..]| :: ids[1..][i].0 != ids[0].0 && ids[1..][i].1 != ids[0].1
  {
    var db1 := InsertPlan(db, id, r, plan, open, ids[0]).0;
    assert db1.occurrences.Keys <= db.occurrences.Keys + {ids[0].0} && db1.outbox.Keys <= db.outbox.Keys + {ids[0].1};
  }

  lemma NewRowIsUnused(rec: Recurrence, s: State, step: Step, t: State, x: Id)
    requires Inv(s) && Next(rec, s, step, t) && x !in s.db.outbox
    ensures !Stuck(t, x) && Agrees(t.db, x)
  {
    StepKeeps(rec, s, step, t);
    if step.CommitPlan? && x in t.db.outbox {
      var p := s.planners[step.task];
      InsertedIsUnused(s.db, p.id, p.snapshot, PlanOf(rec, p).plans, SawOpen(p), step.ids, x);
      PairFacts(t.db, x);
    }
  }

  ghost predicate LateRetryAt(run: Run, i: nat, x: Id)
    requires i < |run.steps| && i < |run.states|
  {
    LateRetry(run.states[i], run.steps[i], x)
  }

  ghost predicate LateRetryBefore(run: Run, j: nat, x: Id)
    requires j <= |run.steps| && j <= |run.states|
  {
    exists i: nat {:trigger LateRetryAt(run, i, x)} :: i < j && LateRetryAt(run, i, x)
  }

  lemma StrandedAt(rec: Recurrence, run: Run, i: nat, x: Id)
    requires ValidRun(rec, run) && i < |run.steps|
    ensures Stuck(run.states[i + 1], x) <==> Stuck(run.states[i], x) || LateRetryAt(run, i, x)
  {
    InvHolds(rec, run, i);
    assert StepAt(rec, run, i);
    if Stuck(run.states[i], x) {
      StuckInStep(rec, run.states[i], run.steps[i], run.states[i + 1], x);
    } else if x in run.states[i].db.outbox {
      StrandingIsExact(rec, run.states[i], run.steps[i], run.states[i + 1], x);
    } else {
      NewRowIsUnused(rec, run.states[i], run.steps[i], run.states[i + 1], x);
    }
  }

  /** Over a whole run: a row is stuck if and only if some earlier step was a late retry of it. */
  lemma {:induction false} StrandedIffLateRetry(rec: Recurrence, run: Run, j: nat, x: Id)
    requires ValidRun(rec, run) && j < |run.states|
    ensures Stuck(run.states[j], x) <==> LateRetryBefore(run, j, x)
  {
    if j > 0 {
      StrandedIffLateRetry(rec, run, j - 1, x);
      StrandedAt(rec, run, j - 1, x);
    }
  }

  // ---- No stranded work ------------------------------------------------------------------------

  /** From `from` on the row is claimable or recoverable unless someone moves it first. */
  ghost predicate EventuallyServed(r: OutboxRow, from: Instant) {
    forall now | now >= from :: Claimable(r, now) || Recoverable(r, now)
  }

  function ServedFrom(r: OutboxRow): Instant {
    if r.claimExpires.Some? then r.claimExpires.value else r.nextAttemptAt
  }

  lemma ServedUnlessStuck(s: State, x: Id)
    requires Inv(s) && x in s.db.outbox && BoxOpen(s.db.outbox[x].status)
    ensures EventuallyServed(s.db.outbox[x], ServedFrom(s.db.outbox[x])) <==> !Stuck(s, x)
    ensures Stuck(s, x) ==> forall now :: !Claimable(s.db.outbox[x], now) && !Recoverable(s.db.outbox[x], now)
  {
    PairFacts(s.db, x);
    var from := ServedFrom(s.db.outbox[x]);
    if Stuck(s, x) {
      assert !Claimable(s.db.outbox[x], from) && !Recoverable(s.db.outbox[x], from);
    }
  }

  /**
   * In every run, an open row becomes claimable or recoverable once its time or claim expiry has
   * passed, if and only if no late retry of it was ever written.
   */
  lemma NoStrandedWork(rec: Recurrence, run: Run, j: nat, x: Id)
    requires ValidRun(rec, run) && j < |run.states|
    requires x in run.states[j].db.outbox && BoxOpen(run.states[j].db.outbox[x].status)
    ensures var r := run.states[j].db.outbox[x];
            EventuallyServed(r, ServedFrom(r)) <==> !LateRetryBefore(run, j, x)
  {
    InvHolds(rec, run, j);
    ServedUnlessStuck(run.states[j], x);
    StrandedIffLateRetry(rec, run, j, x);
  }

  // ---- Attempt counts --------------------------------------------------------------------------

  lemma AgreesAfterPair(db: Db, y: Id, r: OutboxRow, o: OccurrenceRow, x: Id)
    requires Coupled(db) && x in db.outbox && y in db.outbox && r.job == db.outbox[y].job
    ensures Agrees(PairUpdate(db, y, r, o), x) <==> if x == y then o.attempts == r.attempts else Agrees(db, x)
  {
    PairFacts(db, x);
    PairFacts(db, y);
  }

  /** The written result carries the row's own attempt count. */
  predicate CountIsCurrent(s: State, step: Step, x: Id)
    requires WritesResult(s, step, x)
  {
    s.dispatchers[step.task].work.attempts == s.db.outbox[x].attempts
  }

  /** Begin and recovery copy the row's count to the occurrence. */
  predicate Recounts(s: State, step: Step, x: Id) {
    || (step.RecoverDispatch? && step.row == x)
    || (step.BeginAttempt? && step.task in s.dispatchers && s.dispatchers[step.task].row == x
      && MayBegin(s.db, x, s.dispatchers[step.task].work, s.dispatchers[step.task].worker, step.now))
  }

  lemma ResultCounts(rec: Recurrence, s: State, step: Step, t: State, x: Id)
    requires Inv(s) && Next(rec, s, step, t) && ResultStep(step) && x in s.db.outbox
    ensures Agrees(t.db, x) <==> if WritesResult(s, step, x) then CountIsCurrent(s, step, x) else Agrees(s.db, x)
  {
    var d := s.dispatchers[step.task];
    var v := VerdictOf(s, step);
    TransitionIsPairUpdate(s, step.task, v);
    var r := TransitionedRow(s.db.outbox[d.row], v);
    AgreesAfterPair(s.db, d.row, r,
      TransitionedOccurrence(s.db.occurrences[r.job.occurrenceId], d.work.attempts, v), x);
  }

  lemma BeginCounts(s: State, task: nat, now: Instant, acknowledged: bool, x: Id)
    requires Inv(s) && InPhase(s, task, Claimed) && x in s.db.outbox
    ensures Agrees(DoBegin(s, task, now, acknowledged).db, x) <==>
              Recounts(s, BeginAttempt(task, now, acknowledged), x) || Agrees(s.db, x)
  {
    var d := s.dispatchers[task];
    assert DispatcherOk(s, task);
    PairFacts(s.db, d.row);
    if MayBegin(s.db, d.row, d.work, d.worker, now) {
      var r := BegunRow(s.db.outbox[d.row], now);
      var o := s.db.occurrences[r.job.occurrenceId].(status := OccDispatching, attempts := r.attempts);
      assert DoBegin(s, task, now, acknowledged).db == PairUpdate(s.db, d.row, r, o);
      AgreesAfterPair(s.db, d.row, r, o, x);
    }
  }

  lemma RecoverCounts(s: State, row: Id, now: Instant, x: Id)
    requires Inv(s) && CanRecover(s, row, now) && x in s.db.outbox
    ensures Agrees(RecoverRow(s.db, row, now), x) <==> x == row || Agrees(s.db, x)
  {
    RecoverIsSafe(s.db, row, now);
    var r := s.db.outbox[row];
    AgreesAfterPair(s.db, row, RecoveredRow(r, now),
                    RecoveredOccurrence(s.db.occurrences[r.job.occurrenceId], r.attempts, now), x);
  }

  lemma PlanCounts(rec: Recurrence, s: State, task: nat, ids: seq<(Id, Id)>, x: Id)
    requires Inv(s) && CanCommitPlan(rec, s, task, ids) && x in s.db.outbox
    ensures Agrees(DoCommitPlan(rec, s, task, ids).db, x) <==> Agrees(s.db, x)
  {
    var p := s.planners[task];
    PlanKeepsRow(rec, s, task, ids, x);
    PairFacts(s.db, x);
    Progress.InsertedArePlanned(s.db, p.id, p.snapshot, PlanOf(rec, p).plans, SawOpen(p), ids,
                                s.db.outbox[x].job.occurrenceId);
  }

  lemma OthersCount(rec: Recurrence, s: State, step: Step, t: State, x: Id)
    requires Inv(s) && Next(rec, s, step, t) && !ResultStep(step) && x in s.db.outbox
    ensures Agrees(t.db, x) <==> Recounts(s, step, x) || Agrees(s.db, x)
  {
    if step.BeginAttempt? {
      BeginCounts(s, step.task, step.now, step.acknowledged, x);
    } else if step.RecoverDispatch? {
      RecoverCounts(s, step.row, step.now, x);
    } else if step.CommitPlan? {
      PlanCounts(rec, s, step.task, step.ids, x);
    } else if !step.ClaimDispatch? {
      DispatchUntouched(rec, s, step, t);
    }
  }

  /** After a step the counts agree exactly if it wrote the current count, copied it, or left agreeing counts alone. */
  lemma AgreementIsExact(rec: Recurrence, s: State, step: Step, t: State, x: Id)
    requires Inv(s) && Next(rec, s, step, t) && x in s.db.outbox
    ensures Agrees(t.db, x) <==>
              if WritesResult(s, step, x) then CountIsCurrent(s, step, x) else Recounts(s, step, x) || Agrees(s.db, x)
  {
    if ResultStep(step) {
      ResultCounts(rec, s, step, t, x);
    } else {
      OthersCount(rec, s, step, t, x);
    }
  }

  ghost predicate CurrentAt(run: Run, i: nat, x: Id)
    requires i < |run.steps| && i < |run.states|
  {
    WritesResult(run.states[i], run.steps[i], x) ==> CountIsCurrent(run.states[i], run.steps[i], x)
  }

  ghost predicate AllCurrent(run: Run, j: nat, x: Id)
    requires j <= |run.steps| && j <= |run.states|
  {
    forall i: nat {:trigger CurrentAt(run, i, x)} | i < j :: CurrentAt(run, i, x)
  }

  ghost predicate AgreedAt(run: Run, i: nat, x: Id)
    requires i < |run.states|
  {
    Agrees(run.states[i].db, x)
  }

  ghost predicate AlwaysAgreed(run: Run, j: nat, x: Id)
    requires j < |run.states|
  {
    forall i: nat {:trigger AgreedAt(run, i, x)} | i <= j :: AgreedAt(run, i, x)
  }

  lemma AgreedNext(rec: Recurrence, run: Run, i: nat, x: Id)
    requires ValidRun(rec, run) && i < |run.steps| && AgreedAt(run, i, x)
    ensures AgreedAt(run, i + 1, x) <==> CurrentAt(run, i, x)
  {
    InvHolds(rec, run, i);
    assert StepAt(rec, run, i);
    if x in run.states[i].db.outbox {
      AgreementIsExact(rec, run.states[i], run.steps[i], run.states[i + 1], x);
    } else {
      NewRowIsUnused(rec, run.states[i], run.steps[i], run.states[i + 1], x);
    }
  }

  /**
   * Occurrence and outbox agree on the attempts in every state up to j if and only if every result
   * written to the row up to then carried the row's own count.
   */
  lemma {:induction false} CountsAgreeExactly(rec: Recurrence, run: Run, j: nat, x: Id)
    requires ValidRun(rec, run) && j < |run.states|
    ensures AlwaysAgreed(run, j, x) <==> AllCurrent(run, j, x)
  {
    if j == 0 {
      assert AgreedAt(run, 0, x);
    } else {
      CountsAgreeExactly(rec, run, j - 1, x);
      if AgreedAt(run, j - 1, x) {
        AgreedNext(rec, run, j - 1, x);
      }
    }
  }

  // ---- One copy per worker id is enough --------------------------------------------------------

  lemma OneCopyIsCurrent(rec: Recurrence, run: Run, i: nat, x: Id)
    requires ValidRun(rec, run) && i < |run.steps|
    requires forall k | 0 <= k <= i :: OneCopy(run.states[k])
    ensures CurrentAt(run, i, x) && !LateRetryAt(run, i, x)
  {
    HoldersStayCurrent(rec, run, i);
    InvHolds(rec, run, i);
    assert StepAt(rec, run, i);
    if WritesResult(run.states[i], run.steps[i], x) {
      assert HolderCurrent(run.states[i], run.steps[i].task);
      if LateRetryAt(run, i, x) {
        LateRetryIsStale(rec, run.states[i], run.steps[i], x);
      }
    }
  }

  /**
   * If up to now no worker id ever had two live copies of one row, no late retry was written and the
   * counts agree, so by NoStrandedWork no row is stranded.
   */
  lemma OneCopySuffices(rec: Recurrence, run: Run, j: nat, x: Id)
    requires ValidRun(rec, run) && j < |run.states|
    requires forall k | 0 <= k <= j :: OneCopy(run.states[k])
    ensures !LateRetryBefore(run, j, x) && !Stuck(run.states[j], x) && AlwaysAgreed(run, j, x)
  {
    forall i: nat | i < j ensures CurrentAt(run, i, x) && !LateRetryAt(run, i, x) {
      OneCopyIsCurrent(rec, run, i, x);
    }
    StrandedIffLateRetry(rec, run, j, x);
    CountsAgreeExactly(rec, run, j, x);
  }
}
