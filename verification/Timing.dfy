/** When rows may be taken: not before their time, and not from under a live claim. */
module Timing {
  import opened Domain
  import opened Planner
  import opened Tables
  import opened Protocol
  import opened Invariant
  import opened Preservation
  import opened Attempts
  import opened Liveness
  import Retry

  predicate ClaimsRow(step: Step, x: Id) {
    step.ClaimDispatch? && step.row == x
  }

  /** The step begins an attempt of row x. */
  predicate BeginsRow(s: State, step: Step, x: Id) {
    step.BeginAttempt? && Recounts(s, step, x)
  }

  // ---- One step --------------------------------------------------------------------------------

  /** A waiting row is claimed in its time, a claimed one when its claim has run out, none after its last attempt. */
  lemma ClaimWaits(rec: Recurrence, s: State, step: Step, t: State, x: Id)
    requires Next(rec, s, step, t) && ClaimsRow(step, x)
    ensures x in s.db.outbox
    ensures var r := s.db.outbox[x];
            && r.attempts < r.job.retry.maxAttempts
            && (Waiting(r) ==> r.nextAttemptAt <= step.now)
            && (r.status.BoxDispatching? ==> r.claimExpires.Some? && r.claimExpires.value <= step.now)
            && (Waiting(r) || r.status.BoxDispatching?)
  {
  }

  /** Only a row that spent its last attempt under a claim that has run out is given up. */
  lemma RecoveryWaits(rec: Recurrence, s: State, step: Step, t: State)
    requires Next(rec, s, step, t) && step.RecoverDispatch?
    ensures step.row in s.db.outbox
    ensures var r := s.db.outbox[step.row];
            && r.status.BoxDispatching? && r.attempts >= r.job.retry.maxAttempts
            && r.claimExpires.Some? && r.claimExpires.value <= step.now
  {
  }

  /** A schedule is claimed only while active and due, and not from under a live claim; the copy is the claimed row. */
  lemma DueClaimWaits(rec: Recurrence, s: State, step: Step, t: State)
    requires Next(rec, s, step, t) && step.ClaimDue?
    ensures step.id in s.db.schedules && step.id in t.db.schedules
    ensures var r, q := s.db.schedules[step.id], t.db.schedules[step.id];
            && r.status.Active? && r.nextDue.Some? && r.nextDue.value <= step.now
            && (r.claimExpires.Some? ==> r.claimExpires.value <= step.now)
            && q.claimOwner == Some(step.worker) && q.claimExpires == Some(step.expires) && q.version == r.version
            && q.status == r.status && q.nextDue == r.nextDue && q.def == r.def
            && q.tenant == r.tenant && q.name == r.name
            && t.db == s.db.(schedules := s.db.schedules[step.id := q])
            && step.task !in s.planners
            && t.planners == s.planners[step.task := PlannerTask(step.worker, step.id, q, step.now, None)]
  {
  }

  /** A release takes away the worker's own claim, and nothing else. */
  lemma ReleaseClears(rec: Recurrence, s: State, step: Step, t: State)
    requires Next(rec, s, step, t) && step.ReleaseClaim?
    ensures step.task in s.planners
    ensures var p := s.planners[step.task];
            if p.id in s.db.schedules && s.db.schedules[p.id].tenant == p.snapshot.tenant
               && s.db.schedules[p.id].claimOwner == Some(p.worker)
            then
              && p.id in t.db.schedules && t.db == s.db.(schedules := s.db.schedules[p.id := t.db.schedules[p.id]])
              && t.db.schedules[p.id].claimOwner.None? && t.db.schedules[p.id].claimExpires.None?
              && SameButClaim(s.db.schedules[p.id], t.db.schedules[p.id])
            else t.db == s.db
  {
  }

  // ---- Waiting over runs -----------------------------------------------------------------------

  /** Nothing but a claim moves a waiting row. */
  lemma OnlyClaimsMoveWaiting(rec: Recurrence, s: State, step: Step, t: State, x: Id)
    requires Next(rec, s, step, t) && x in s.db.outbox && Waiting(s.db.outbox[x]) && !ClaimsRow(step, x)
    ensures x in t.db.outbox && t.db.outbox[x] == s.db.outbox[x]
  {
    if step.CommitPlan? {
      PlanKeepsRow(rec, s, step.task, step.ids, x);
    } else if step.BeginAttempt? {
      BeginLeavesWaiting(s, step.task, step.now, step.acknowledged, x);
    } else if ResultStep(step) {
      TransitionLeavesWaiting(s, step.task, VerdictOf(s, step), x);
    } else if !step.ClaimDispatch? && !step.RecoverDispatch? {
      DispatchUntouched(rec, s, step, t);
    }
  }

  lemma BeginLeavesWaiting(s: State, task: nat, now: Instant, acknowledged: bool, x: Id)
    requires InPhase(s, task, Claimed) && x in s.db.outbox && Waiting(s.db.outbox[x])
    ensures x in DoBegin(s, task, now, acknowledged).db.outbox
    ensures DoBegin(s, task, now, acknowledged).db.outbox[x] == s.db.outbox[x]
  {
  }

  lemma TransitionLeavesWaiting(s: State, task: nat, v: Verdict, x: Id)
    requires task in s.dispatchers && x in s.db.outbox && Waiting(s.db.outbox[x])
    ensures x in DoTransition(s, task, v).db.outbox && DoTransition(s, task, v).db.outbox[x] == s.db.outbox[x]
  {
  }

  /** Some step in [i, j) claims row x at a clock reading not before `at`. */
  ghost predicate ClaimedFrom(run: Run, i: nat, j: nat, x: Id, at: Instant)
    requires j <= |run.steps|
  {
    exists k: nat {:trigger ClaimedAt(run, k, x, at)} :: i <= k < j && ClaimedAt(run, k, x, at)
  }

  ghost predicate ClaimedAt(run: Run, k: nat, x: Id, at: Instant)
    requires k < |run.steps|
  {
    ClaimsRow(run.steps[k], x) && run.steps[k].now >= at
  }

  /** A waiting row stays as it is until a claim that was made in time. */
  lemma {:induction false} WaitsForClaim(rec: Recurrence, run: Run, i: nat, j: nat, x: Id)
    requires ValidRun(rec, run) && i <= j < |run.states|
    requires x in run.states[i].db.outbox && Waiting(run.states[i].db.outbox[x])
    ensures x in run.states[j].db.outbox
    ensures || run.states[j].db.outbox[x] == run.states[i].db.outbox[x]
            || ClaimedFrom(run, i, j, x, run.states[i].db.outbox[x].nextAttemptAt)
  {
    InvHolds(rec, run, j);
    if i < j {
      var at := run.states[i].db.outbox[x].nextAttemptAt;
      WaitsForClaim(rec, run, i, j - 1, x);
      RowStays(rec, run, j - 1, x);
      if !ClaimedFrom(run, i, j - 1, x, at) {
        assert StepAt(rec, run, j - 1);
        if ClaimsRow(run.steps[j - 1], x) {
          ClaimWaits(rec, run.states[j - 1], run.steps[j - 1], run.states[j], x);
          assert ClaimedAt(run, j - 1, x, at);
        } else {
          OnlyClaimsMoveWaiting(rec, run.states[j - 1], run.steps[j - 1], run.states[j], x);
        }
      } else {
        var k: nat :| i <= k < j - 1 && ClaimedAt(run, k, x, at);
        assert ClaimedAt(run, k, x, at);
      }
    }
  }

  lemma RowStays(rec: Recurrence, run: Run, i: nat, x: Id)
    requires ValidRun(rec, run) && i < |run.steps| && x in run.states[i].db.outbox
    ensures x in run.states[i + 1].db.outbox
  {
    InvHolds(rec, run, i);
    assert StepAt(rec, run, i);
    StepKeeps(rec, run.states[i], run.steps[i], run.states[i + 1]);
  }

  /** Step i sends row x back to wait until `at`. */
  ghost predicate SendsBack(run: Run, i: nat, x: Id, at: Instant)
    requires i < |run.steps| && i < |run.states|
  {
    && WritesResult(run.states[i], run.steps[i], x) && VerdictOf(run.states[i], run.steps[i]).box.BoxRetrying?
    && at == VerdictOf(run.states[i], run.steps[i]).nextAttemptAt
  }

  lemma SentBackWaits(rec: Recurrence, run: Run, i: nat, x: Id, at: Instant)
    requires ValidRun(rec, run) && i < |run.steps| && SendsBack(run, i, x, at)
    ensures x in run.states[i + 1].db.outbox && Waiting(run.states[i + 1].db.outbox[x])
    ensures run.states[i + 1].db.outbox[x].nextAttemptAt == at
  {
    InvHolds(rec, run, i);
    assert StepAt(rec, run, i);
    TransitionIsPairUpdate(run.states[i], run.steps[i].task, VerdictOf(run.states[i], run.steps[i]));
  }

  /**
   * Between a retry or deferral of a row until `at` and its next begun attempt there is a claim whose
   * clock reads at least `at`: the row is left alone until its time.
   */
  lemma NextAttemptWaits(rec: Recurrence, run: Run, i: nat, j: nat, x: Id, at: Instant)
    requires ValidRun(rec, run) && i < j < |run.steps| && SendsBack(run, i, x, at)
    requires BeginsRow(run.states[j], run.steps[j], x)
    ensures ClaimedFrom(run, i + 1, j, x, at)
  {
    SentBackWaits(rec, run, i, x, at);
    WaitsForClaim(rec, run, i + 1, j, x);
  }

  /** A new row, too, is begun only after a claim made in time. */
  lemma FirstAttemptWaits(rec: Recurrence, run: Run, i: nat, j: nat, x: Id)
    requires ValidRun(rec, run) && i <= j < |run.steps| && x in run.states[i].db.outbox
    requires Waiting(run.states[i].db.outbox[x]) && BeginsRow(run.states[j], run.steps[j], x)
    ensures ClaimedFrom(run, i, j, x, run.states[i].db.outbox[x].nextAttemptAt)
  {
    WaitsForClaim(rec, run, i, j, x);
  }

  /** The instants at which a retry and a deferral send a row back. */
  lemma SentBackUntil(rec: Recurrence, run: Run, i: nat, x: Id, at: Instant)
    requires ValidRun(rec, run) && i < |run.steps| && SendsBack(run, i, x, at)
    ensures run.steps[i].DeferAttempt? ==> at == run.steps[i].now + 1000
    ensures run.steps[i].Persist? ==>
              run.steps[i].draw.Drawn? && at == Retry.Stored(run.steps[i].now * 1_000_000 + run.steps[i].draw.value)
  {
    InvHolds(rec, run, i);
    assert StepAt(rec, run, i);
    var d := run.states[i].dispatchers[run.steps[i].task];
    assert DispatcherOk(run.states[i], run.steps[i].task);
    if run.steps[i].Persist? {
      var step := run.steps[i];
      Retry.RetryIsBounded(d.work.job.retry, d.work.attempts, d.work.firstAttemptAt, step.result, step.now, step.draw);
    }
  }

  // ---- Claims over runs ------------------------------------------------------------------------

  /** Row x is under a claim until `expires`. */
  ghost predicate UnderClaim(s: State, x: Id, expires: Instant) {
    x in s.db.outbox && s.db.outbox[x].status.BoxDispatching? && s.db.outbox[x].claimExpires == Some(expires)
  }

  /** The step ends or renews the claim: it writes a result, gives the row up, or claims it again. */
  predicate EndsClaim(s: State, step: Step, x: Id) {
    WritesResult(s, step, x) || (step.RecoverDispatch? && step.row == x) || ClaimsRow(step, x)
  }

  lemma ClaimHoldsOn(rec: Recurrence, s: State, step: Step, t: State, x: Id, expires: Instant)
    requires Inv(s) && Next(rec, s, step, t) && UnderClaim(s, x, expires) && !EndsClaim(s, step, x)
    ensures UnderClaim(t, x, expires)
  {
    if step.CommitPlan? {
      PlanKeepsRow(rec, s, step.task, step.ids, x);
    } else if step.BeginAttempt? {
      BeginKeepsClaim(s, step.task, step.now, step.acknowledged, x, expires);
    } else if ResultStep(step) {
      ResultKeepsClaim(s, step.task, VerdictOf(s, step), x, expires);
    } else if !step.ClaimDispatch? && !step.RecoverDispatch? {
      DispatchUntouched(rec, s, step, t);
    }
  }

  lemma ResultKeepsClaim(s: State, task: nat, v: Verdict, x: Id, expires: Instant)
    requires Inv(s) && task in s.dispatchers && UnderClaim(s, x, expires)
    requires var d := s.dispatchers[task]; d.row != x || !MayTransition(s.db, x, d.work, d.worker)
    ensures UnderClaim(DoTransition(s, task, v), x, expires)
  {
    TransitionIsPairUpdate(s, task, v);
  }

  lemma BeginKeepsClaim(s: State, task: nat, now: Instant, acknowledged: bool, x: Id, expires: Instant)
    requires InPhase(s, task, Claimed) && UnderClaim(s, x, expires)
    ensures UnderClaim(DoBegin(s, task, now, acknowledged), x, expires)
  {
  }

  ghost predicate EndsClaimAt(run: Run, k: nat, x: Id)
    requires k < |run.steps| && k < |run.states|
  {
    EndsClaim(run.states[k], run.steps[k], x)
  }

  lemma {:induction false} ClaimHoldsUntil(rec: Recurrence, run: Run, i: nat, j: nat, x: Id, expires: Instant)
    requires ValidRun(rec, run) && i <= j < |run.states| && UnderClaim(run.states[i], x, expires)
    requires forall k: nat {:trigger EndsClaimAt(run, k, x)} | i <= k < j :: !EndsClaimAt(run, k, x)
    ensures UnderClaim(run.states[j], x, expires)
  {
    if i < j {
      ClaimHoldsUntil(rec, run, i, j - 1, x, expires);
      assert !EndsClaimAt(run, j - 1, x);
      InvHolds(rec, run, j - 1);
      assert StepAt(rec, run, j - 1);
      ClaimHoldsOn(rec, run.states[j - 1], run.steps[j - 1], run.states[j], x, expires);
    }
  }

  /**
   * A claim is respected: while its holder has written no result, the next claim of the row, and its
   * recovery, come at a clock reading not before the expiry.
   */
  lemma ClaimIsRespected(rec: Recurrence, run: Run, i: nat, j: nat, x: Id)
    requires ValidRun(rec, run) && i < j < |run.steps| && ClaimsRow(run.steps[i], x)
    requires ClaimsRow(run.steps[j], x) || (run.steps[j].RecoverDispatch? && run.steps[j].row == x)
    requires forall k: nat {:trigger EndsClaimAt(run, k, x)} | i < k < j :: !EndsClaimAt(run, k, x)
    ensures run.steps[j].now >= run.steps[i].expires
  {
    assert StepAt(rec, run, i);
    ClaimHoldsUntil(rec, run, i + 1, j, x, run.steps[i].expires);
    assert StepAt(rec, run, j);
    if ClaimsRow(run.steps[j], x) {
      ClaimWaits(rec, run.states[j], run.steps[j], run.states[j + 1], x);
    } else {
      RecoveryWaits(rec, run.states[j], run.steps[j], run.states[j + 1]);
    }
  }
}
