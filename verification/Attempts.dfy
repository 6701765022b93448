/** How often a target is called, when it is called again, and what the holder of a claim knows. */
module Attempts {
  import opened Domain
  import opened Planner
  import opened Tables
  import opened Protocol
  import opened Coupling
  import opened Invariant
  import opened Preservation
  import opened Runs
  import Retry

  // ---- Every send has an attempt number of its own ---------------------------------------------

  ghost predicate SameAttempt(a: Id, v: OutboxRow, b: Id, w: OutboxRow) {
    a == b && v.attempts == w.attempts
  }

  ghost predicate BegunDistinct(s: State) {
    forall j, k |
      && j in s.dispatchers && s.dispatchers[j].phase.Begun?
      && k in s.dispatchers && s.dispatchers[k].phase.Begun? ::
      SameAttempt(s.dispatchers[j].row, s.dispatchers[j].work, s.dispatchers[k].row, s.dispatchers[k].work) ==> j == k
  }

  ghost predicate BegunUnsent(s: State) {
    forall k, i: nat | k in s.dispatchers && i < |s.sends| && s.dispatchers[k].phase.Begun? ::
      !SameAttempt(s.dispatchers[k].row, s.dispatchers[k].work, s.sends[i].row, s.sends[i].work)
  }

  ghost predicate SendsDistinct(sends: seq<SendRecord>) {
    forall i, j | 0 <= i < j < |sends| :: !SameAttempt(sends[i].row, sends[i].work, sends[j].row, sends[j].work)
  }

  ghost predicate SendInv(s: State) {
    BegunDistinct(s) && BegunUnsent(s) && SendsDistinct(s.sends)
  }

  lemma BeginKeepsSends(s: State, task: nat, now: Instant, acknowledged: bool)
    requires Inv(s) && InPhase(s, task, Claimed) && SendInv(s)
    ensures SendInv(DoBegin(s, task, now, acknowledged))
  {
    var d := s.dispatchers[task];
    forall k | k in s.dispatchers ensures WorkOk(s.db, s.dispatchers[k].row, s.dispatchers[k].work) {
      assert DispatcherOk(s, k);
    }
    forall i: nat | i < |s.sends| ensures WorkOk(s.db, s.sends[i].row, s.sends[i].work) {
      assert SendOk(s, i);
    }
    if Begin(s.db, d.row, d.work, d.worker, now).Some? && acknowledged {
      var t := DoBegin(s, task, now, acknowledged);
      assert t.dispatchers[task].work.attempts == s.db.outbox[d.row].attempts + 1;
    }
  }

  lemma SendKeepsSends(s: State, task: nat)
    requires InPhase(s, task, Begun) && SendInv(s)
    ensures SendInv(DoSend(s, task))
  {
  }

  /** Steps other than begin and send neither begin an attempt nor send. */
  lemma NothingBegins(rec: Recurrence, s: State, step: Step, t: State)
    requires Next(rec, s, step, t) && !step.BeginAttempt? && !step.Send?
    ensures t.sends == s.sends
    ensures forall k | k in t.dispatchers && t.dispatchers[k].phase.Begun? :: k in s.dispatchers
              && t.dispatchers[k] == s.dispatchers[k]
  {
  }

  lemma StepKeepsSends(rec: Recurrence, s: State, step: Step, t: State)
    requires Inv(s) && Next(rec, s, step, t) && SendInv(s)
    ensures SendInv(t)
  {
    if step.BeginAttempt? {
      BeginKeepsSends(s, step.task, step.now, step.acknowledged);
    } else if step.Send? {
      SendKeepsSends(s, step.task);
    } else {
      NothingBegins(rec, s, step, t);
    }
  }

  lemma {:induction false} SendInvHolds(rec: Recurrence, run: Run, i: nat)
    requires ValidRun(rec, run) && i < |run.states|
    ensures SendInv(run.states[i])
  {
    if i > 0 {
      SendInvHolds(rec, run, i - 1);
      InvHolds(rec, run, i - 1);
      assert StepAt(rec, run, i - 1);
      StepKeepsSends(rec, run.states[i - 1], run.steps[i - 1], run.states[i]);
    }
  }

  /** Number of requests sent for an occurrence. */
  function SendsFor(sends: seq<SendRecord>, o: Id): nat {
    if |sends| == 0 then 0
    else SendsFor(sends[..|sends| - 1], o) + if sends[|sends| - 1].work.job.occurrenceId == o then 1 else 0
  }

  /** The attempt numbers of an occurrence's requests. */
  ghost function AttemptsSent(sends: seq<SendRecord>, o: Id): set<int> {
    set i | 0 <= i < |sends| && sends[i].work.job.occurrenceId == o :: sends[i].work.attempts
  }

  lemma AttemptsSentBefore(sends: seq<SendRecord>, o: Id, n: nat)
    requires n + 1 == |sends|
    ensures var init := AttemptsSent(sends[..n], o);
            AttemptsSent(sends, o) ==
              if sends[n].work.job.occurrenceId == o then init + {sends[n].work.attempts} else init
  {
    var init := sends[..n];
    assert forall i | 0 <= i < n :: sends[i] == init[i];
  }

  lemma {:induction false} CountIsCardinality(sends: seq<SendRecord>, o: Id)
    requires forall i, j | 0 <= i < j < |sends| ::
               sends[i].work.job.occurrenceId == o && sends[j].work.job.occurrenceId == o ==>
                 sends[i].work.attempts != sends[j].work.attempts
    ensures |AttemptsSent(sends, o)| == SendsFor(sends, o)
  {
    if |sends| > 0 {
      var n := |sends| - 1;
      CountIsCardinality(sends[..n], o);
      AttemptsSentBefore(sends, o, n);
    }
  }

  ghost function Upto(n: nat): (r: set<int>)
    ensures |r| == n && forall v :: v in r <==> 1 <= v <= n
  {
    if n == 0 then {} else Upto(n - 1) + {n}
  }

  lemma SubsetOfRange(s: set<int>, n: nat)
    requires forall v | v in s :: 1 <= v <= n
    ensures |s| <= n
  {
    assert Upto(n) * s == s;
    assert |Upto(n)| == |Upto(n) - s| + |Upto(n) * s|;
  }

  /**
   * Over any run, with crashes, reclaimed rows, stale workers and lost acknowledgements, an occurrence
   * is sent at most as often as its row counts attempts, and that count never exceeds max_attempts.
   */
  lemma SendsAreBounded(rec: Recurrence, run: Run, i: nat, x: Id)
    requires ValidRun(rec, run) && i < |run.states| && x in run.states[i].db.outbox
    ensures var r := run.states[i].db.outbox[x];
            SendsFor(run.states[i].sends, r.job.occurrenceId) <= r.attempts <= r.job.retry.maxAttempts
  {
    InvHolds(rec, run, i);
    SendInvHolds(rec, run, i);
    SendsBoundedIn(run.states[i], x);
  }

  lemma SendsBoundedIn(s: State, x: Id)
    requires Inv(s) && SendsDistinct(s.sends) && x in s.db.outbox
    ensures SendsFor(s.sends,
              s.db.outbox[x].job.occurrenceId) <= s.db.outbox[x].attempts <= s.db.outbox[x].job.retry.maxAttempts
  {
    var o := s.db.outbox[x].job.occurrenceId;
    assert RowCoupled(s.db, x);
    forall i: nat | i < |s.sends| && s.sends[i].work.job.occurrenceId == o
      ensures s.sends[i].row == x && 1 <= s.sends[i].work.attempts <= s.db.outbox[x].attempts
    {
      assert SendOk(s, i);
    }
    CountIsCardinality(s.sends, o);
    SubsetOfRange(AttemptsSent(s.sends, o), s.db.outbox[x].attempts);
  }

  // ---- Retries stay in one window --------------------------------------------------------------

  /** Step i persists a retryable failure with attempts, window and randomness left. */
  ghost predicate RetriesAt(rec: Recurrence, run: Run, i: nat, at: int)
    requires ValidRun(rec, run) && i < |run.steps|
  {
    && run.steps[i].Persist?
    && run.steps[i].task in run.states[i].dispatchers
    && DecisionOf(run.states[i].dispatchers[run.steps[i].task], run.steps[i].result, run.steps[i].now,
         run.steps[i].draw)
         == Retry.RetryAt(at)
  }

  /**
   * Every retry of a row is scheduled in [now, first_attempt_at + window) for one first_attempt_at
   * that is already fixed when the retry is chosen and holds at every later moment.
   */
  lemma RetriesShareOneWindow(rec: Recurrence, run: Run, i: nat, j: nat, at: int)
    requires ValidRun(rec, run) && i < |run.steps| && i <= j < |run.states|
               && RetriesAt(rec, run, i, at)
    ensures var t := run.states[i].dispatchers[run.steps[i].task];
            && t.row in run.states[j].db.outbox
            && var r := run.states[j].db.outbox[t.row];
            && r.firstAttemptAt.Some? && r.firstAttemptAt == t.work.firstAttemptAt && r.job == t.work.job
            && run.steps[i].now * Retry.MILLISECOND <= at < Retry.Deadline(r.job.retry, r.firstAttemptAt.value)
            && t.work.attempts < r.job.retry.maxAttempts
  {
    InvHolds(rec, run, i);
    assert StepAt(rec, run, i);
    var step := run.steps[i];
    var t := run.states[i].dispatchers[step.task];
    assert DispatcherOk(run.states[i], step.task);
    Retry.RetryIsBounded(t.work.job.retry, t.work.attempts, t.work.firstAttemptAt, step.result, step.now, step.draw);
    OutboxRowIsMonotone(rec, run, i, j, t.row);
  }

  // ---- No stranded work, with one live copy per worker id --------------------------------------

  /** A worker id never has two live local copies of one outbox row. */
  ghost predicate OneCopy(s: State) {
    forall j, k | j in s.dispatchers && k in s.dispatchers ::
      s.dispatchers[j].worker == s.dispatchers[k].worker && s.dispatchers[j].row == s.dispatchers[k].row ==> j == k
  }

  /** The holder of the claim knows the row's attempt count. */
  ghost predicate HolderCurrent(s: State, k: nat)
    requires k in s.dispatchers
  {
    var t := s.dispatchers[k];
    t.row in s.db.outbox && s.db.outbox[t.row].claimOwner == Some(t.worker) ==>
      t.work.attempts == s.db.outbox[t.row].attempts
  }

  ghost predicate HoldersCurrent(s: State) {
    forall k {:trigger HolderCurrent(s, k)} | k in s.dispatchers :: HolderCurrent(s, k)
  }

  lemma ClaimKeepsHolders(s: State, task: nat, worker: string, row: Id, now: Instant, expires: Instant)
    requires HoldersCurrent(s) && CanClaimDispatch(s, task, row, now)
    requires OneCopy(DoClaimDispatch(s, task, worker, row, now, expires))
    ensures HoldersCurrent(DoClaimDispatch(s, task, worker, row, now, expires))
  {
    var t := DoClaimDispatch(s, task, worker, row, now, expires);
    forall k | k in t.dispatchers ensures HolderCurrent(t, k) {
      if k != task {
        assert HolderCurrent(s, k);
        assert t.dispatchers[task].row == row && t.dispatchers[task].worker == worker;
      }
    }
  }

  lemma BeginKeepsHolders(s: State, task: nat, now: Instant, acknowledged: bool)
    requires HoldersCurrent(s) && InPhase(s, task, Claimed) && OneCopy(s)
    ensures HoldersCurrent(DoBegin(s, task, now, acknowledged))
  {
    var t := DoBegin(s, task, now, acknowledged);
    forall k | k in t.dispatchers ensures HolderCurrent(t, k) {
      if k != task {
        assert HolderCurrent(s, k);
      }
    }
  }

  lemma TransitionKeepsHolders(s: State, task: nat, v: Verdict)
    requires HoldersCurrent(s) && task in s.dispatchers
    ensures HoldersCurrent(DoTransition(s, task, v))
  {
    var t := DoTransition(s, task, v);
    forall k | k in t.dispatchers ensures HolderCurrent(t, k) {
      assert HolderCurrent(s, k);
    }
  }

  /** A step that adds no task and leaves the rows of the others alone, or takes their claim away. */
  lemma HoldersAreStable(s: State, t: State)
    requires HoldersCurrent(s)
    requires forall k | k in t.dispatchers ::
               && k in s.dispatchers && t.dispatchers[k].(phase := s.dispatchers[k].phase) == s.dispatchers[k]
               && var x := t.dispatchers[k].row;
                  x in t.db.outbox ==>
                    || t.db.outbox[x].claimOwner.None?
                    || (x in s.db.outbox && t.db.outbox[x] == s.db.outbox[x])
    ensures HoldersCurrent(t)
  {
    forall k | k in t.dispatchers ensures HolderCurrent(t, k) {
      assert HolderCurrent(s, k);
    }
  }

  lemma {:induction false} InsertPlansKeepRow(
    db: Db, id: Id, r: ScheduleRow, plans: seq<Plan>, open: bool, ids: seq<(Id, Id)>, x: Id)
    requires |plans| == |ids| && x in db.outbox && forall i | 0 <= i < |ids| :: ids[i].1 != x
    ensures var db' := InsertPlans(db, id, r, plans, open, ids);
            x in db'.outbox && db'.outbox[x] == db.outbox[x]
    decreases |plans|
  {
    if |plans| > 0 {
      var (db1, open1) := InsertPlan(db, id, r, plans[0], open, ids[0]);
      InsertPlansKeepRow(db1, id, r, plans[1..], open1, ids[1..], x);
    }
  }

  lemma PlanKeepsRow(rec: Recurrence, s: State, task: nat, ids: seq<(Id, Id)>, x: Id)
    requires CanCommitPlan(rec, s, task, ids) && x in s.db.outbox
    ensures x in DoCommitPlan(rec, s, task, ids).db.outbox
    ensures DoCommitPlan(rec, s, task, ids).db.outbox[x] == s.db.outbox[x]
  {
    var p := s.planners[task];
    InsertPlansKeepRow(s.db, p.id, p.snapshot, PlanOf(rec, p).plans, SawOpen(p), ids, x);
  }

  lemma PlanKeepsHolders(rec: Recurrence, s: State, task: nat, ids: seq<(Id, Id)>)
    requires Inv(s) && HoldersCurrent(s) && CanCommitPlan(rec, s, task, ids)
    ensures HoldersCurrent(DoCommitPlan(rec, s, task, ids))
  {
    var t := DoCommitPlan(rec, s, task, ids);
    forall k | k in t.dispatchers ensures HolderCurrent(t, k) {
      assert HolderCurrent(s, k);
      assert DispatcherOk(s, k);
      PlanKeepsRow(rec, s, task, ids, s.dispatchers[k].row);
    }
  }

  /** Steps of commands, claims of schedules and crashes touch no dispatch table and add no dispatch task. */
  lemma DispatchUntouched(rec: Recurrence, s: State, step: Step, t: State)
    requires Next(rec, s, step, t)
    requires !step.CommitPlan? && !step.RecoverDispatch? && !step.ClaimDispatch? && !step.BeginAttempt?
    requires !step.DeferAttempt? && !step.Persist?
    ensures t.db.outbox == s.db.outbox && t.db.occurrences == s.db.occurrences
    ensures forall k | k in t.dispatchers :: k in s.dispatchers
              && t.dispatchers[k].(phase := s.dispatchers[k].phase) == s.dispatchers[k]
  {
    if step.CommitCommand? {
      CommandLeavesDispatch(rec, s, step.task, step.newId, step.createdAt);
    }
  }

  lemma StepKeepsHolders(rec: Recurrence, s: State, step: Step, t: State)
    requires Inv(s) && HoldersCurrent(s) && Next(rec, s, step, t) && OneCopy(s) && OneCopy(t)
    ensures HoldersCurrent(t)
  {
    if step.CommitPlan? {
      PlanKeepsHolders(rec, s, step.task, step.ids);
    } else if step.ClaimDispatch? {
      ClaimKeepsHolders(s, step.task, step.worker, step.row, step.now, step.expires);
    } else if step.BeginAttempt? {
      BeginKeepsHolders(s, step.task, step.now, step.acknowledged);
    } else if step.DeferAttempt? {
      TransitionKeepsHolders(s, step.task, DeferVerdict(step.now, step.code, step.message));
    } else if step.Persist? {
      TransitionKeepsHolders(s, step.task, ResultVerdict(s.dispatchers[step.task], step.result, step.now, step.draw));
    } else if step.RecoverDispatch? {
      HoldersAreStable(s, t);
    } else {
      DispatchUntouched(rec, s, step, t);
      HoldersAreStable(s, t);
    }
  }

  /** While no worker id has two copies of a row, whoever holds a claim knows the row's attempt count. */
  lemma {:induction false} HoldersStayCurrent(rec: Recurrence, run: Run, i: nat)
    requires ValidRun(rec, run) && i < |run.states|
    requires forall j | 0 <= j <= i :: OneCopy(run.states[j])
    ensures HoldersCurrent(run.states[i])
  {
    if i > 0 {
      HoldersStayCurrent(rec, run, i - 1);
      InvHolds(rec, run, i - 1);
      assert StepAt(rec, run, i - 1);
      StepKeepsHolders(rec, run.states[i - 1], run.steps[i - 1], run.states[i]);
    }
  }
}
