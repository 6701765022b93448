/**
 * Work can always be done: a due schedule can be materialized, and every row that is not stuck can be
 * finished, by some continuation of the run.
 */
module Completion {
  import opened Domain
  import opened Planner
  import opened Tables
  import opened Protocol
  import opened Coupling
  import opened Invariant
  import opened Preservation
  import opened Liveness
  import Retry

  /** Some finite continuation from s ends with row x succeeded or failed. */
  ghost predicate CanFinish(rec: Recurrence, s: State, x: Id) {
    exists steps :: FinishesBy(rec, s, steps, x)
  }

  ghost predicate FinishesBy(rec: Recurrence, s: State, steps: seq<Step>, x: Id) {
    && Follow(rec, s, steps).Some?
    && var t := Follow(rec, s, steps).value;
    x in t.db.outbox && !BoxOpen(t.db.outbox[x].status)
  }

  // ---- One more attempt ------------------------------------------------------------------------

  const SUCCESS := DispatchResult(200, None, NoCode)

  function AttemptSteps(k: nat, worker: string, x: Id, now: Instant): seq<Step> {
    [ClaimDispatch(k, worker, x, now, now + 1), BeginAttempt(k, now, true), Send(k),
      Persist(k, SUCCESS, now, Retry.Drawn(0))]
  }

  /** The task k holds row x under its own name and is in the given phase. */
  ghost predicate Holds(s: State, k: nat, worker: string, x: Id, phase: Phase) {
    && x in s.db.outbox && k in s.dispatchers
    && s.dispatchers[k].worker == worker && s.dispatchers[k].row == x && s.dispatchers[k].phase == phase
    && s.dispatchers[k].work == s.db.outbox[x] && OwnsOccurrence(s.db, s.db.outbox[x].job)
    && s.db.outbox[x].status.BoxDispatching? && s.db.outbox[x].claimOwner == Some(worker)
  }

  lemma ClaimHolds(s: State, k: nat, worker: string, x: Id, now: Instant)
    requires Inv(s) && CanClaimDispatch(s, k, x, now)
    ensures var t := DoClaimDispatch(s, k, worker, x, now, now + 1);
            && Holds(t, k, worker, x, Claimed) && t.db.outbox[x].claimExpires == Some(now + 1)
            && t.db.outbox[x].attempts < t.db.outbox[x].job.retry.maxAttempts
  {
    PairFacts(s.db, x);
  }

  lemma BeginHolds(s: State, k: nat, worker: string, x: Id, now: Instant)
    requires Holds(s, k, worker, x, Claimed) && s.db.outbox[x].claimExpires == Some(now + 1)
    requires s.db.outbox[x].attempts < s.db.outbox[x].job.retry.maxAttempts
    ensures Holds(DoBegin(s, k, now, true), k, worker, x, Begun)
  {
    assert MayBegin(s.db, x, s.dispatchers[k].work, worker, now);
  }

  lemma SendHolds(s: State, k: nat, worker: string, x: Id)
    requires Holds(s, k, worker, x, Begun)
    ensures Holds(DoSend(s, k), k, worker, x, Sent)
  {
  }

  lemma SuccessFinishes(s: State, k: nat, worker: string, x: Id, now: Instant)
    requires Holds(s, k, worker, x, Sent)
    ensures var t := DoTransition(s, k, ResultVerdict(s.dispatchers[k], SUCCESS, now, Retry.Drawn(0)));
            x in t.db.outbox && t.db.outbox[x].status.BoxSucceeded?
  {
  }

  lemma AttemptFollows(
    rec: Recurrence, s: State, k: nat, worker: string, x: Id, now: Instant, s1: State, s2: State, s3: State)
    requires CanClaimDispatch(s, k, x, now) && s1 == DoClaimDispatch(s, k, worker, x, now, now + 1)
    requires InPhase(s1, k, Claimed) && s2 == DoBegin(s1, k, now, true)
    requires InPhase(s2, k, Begun) && s3 == DoSend(s2, k) && InPhase(s3, k, Sent)
    ensures Follow(rec, s, AttemptSteps(k, worker, x, now))
              == Some(DoTransition(s3, k, ResultVerdict(s3.dispatchers[k], SUCCESS, now, Retry.Drawn(0))))
  {
    var steps := AttemptSteps(k, worker, x, now);
    var s4 := DoTransition(s3, k, ResultVerdict(s3.dispatchers[k], SUCCESS, now, Retry.Drawn(0)));
    FollowOneMore(rec, s, [], s, steps[0], s1);
    FollowOneMore(rec, s, [] + [steps[0]], s1, steps[1], s2);
    FollowOneMore(rec, s, [] + [steps[0]] + [steps[1]], s2, steps[2], s3);
    FollowOneMore(rec, s, [] + [steps[0]] + [steps[1]] + [steps[2]], s3, steps[3], s4);
    assert steps == [] + [steps[0]] + [steps[1]] + [steps[2]] + [steps[3]];
  }

  /** A claimable row is finished by a claim, a begin, a send and the target's success. */
  lemma OneAttemptFinishes(rec: Recurrence, s: State, k: nat, worker: string, x: Id, now: Instant)
    requires Inv(s) && CanClaimDispatch(s, k, x, now)
    ensures FinishesBy(rec, s, AttemptSteps(k, worker, x, now), x)
  {
    var s1 := DoClaimDispatch(s, k, worker, x, now, now + 1);
    ClaimHolds(s, k, worker, x, now);
    var s2 := DoBegin(s1, k, now, true);
    BeginHolds(s1, k, worker, x, now);
    var s3 := DoSend(s2, k);
    SendHolds(s2, k, worker, x);
    AttemptFollows(rec, s, k, worker, x, now, s1, s2, s3);
    SuccessFinishes(s3, k, worker, x, now);
  }

  lemma {:induction false} UnusedTask(tasks: set<nat>) returns (k: nat)
    ensures k !in tasks && forall j | j in tasks :: j < k
    decreases |tasks|
  {
    k := 0;
    if j: nat :| j in tasks {
      var l := UnusedTask(tasks - {j});
      k := Max(l, j + 1);
      forall i | i in tasks ensures i < k {
        assert i == j || i in tasks - {j};
      }
    }
  }

  lemma RecoveryFinishes(rec: Recurrence, s: State, x: Id, now: Instant)
    requires CanRecover(s, x, now)
    ensures FinishesBy(rec, s, [RecoverDispatch(x, now)], x)
  {
    FollowOneMore(rec, s, [], s, RecoverDispatch(x, now), s.(db := RecoverRow(s.db, x, now)));
    assert [] + [RecoverDispatch(x, now)] == [RecoverDispatch(x, now)];
  }

  lemma NotStuckCanFinish(rec: Recurrence, s: State, x: Id)
    requires Inv(s) && x in s.db.outbox && BoxOpen(s.db.outbox[x].status) && !Stuck(s, x)
    ensures CanFinish(rec, s, x)
  {
    var now := ServedFrom(s.db.outbox[x]);
    ServedUnlessStuck(s, x);
    if Recoverable(s.db.outbox[x], now) {
      RecoveryFinishes(rec, s, x, now);
    } else {
      var k := UnusedTask(s.dispatchers.Keys);
      OneAttemptFinishes(rec, s, k, "", x, now);
    }
  }

  lemma {:induction false} StuckUnderFollow(rec: Recurrence, s: State, steps: seq<Step>, x: Id)
    requires Stuck(s, x) && Follow(rec, s, steps).Some?
    ensures Stuck(Follow(rec, s, steps).value, x)
    decreases |steps|
  {
    if |steps| > 0 {
      var n := |steps| - 1;
      StuckUnderFollow(rec, s, steps[..n], x);
      StuckInStep(rec, Follow(rec, s, steps[..n]).value, steps[n], Follow(rec, s, steps).value, x);
    }
  }

  /** In every state of the invariant an open row can be finished if and only if it is not stuck. */
  lemma CanFinishUnlessStuck(rec: Recurrence, s: State, x: Id)
    requires Inv(s) && x in s.db.outbox && BoxOpen(s.db.outbox[x].status)
    ensures CanFinish(rec, s, x) <==> !Stuck(s, x)
  {
    if Stuck(s, x) {
      forall steps ensures !FinishesBy(rec, s, steps, x) {
        if Follow(rec, s, steps).Some? {
          StuckUnderFollow(rec, s, steps, x);
        }
      }
    } else {
      NotStuckCanFinish(rec, s, x);
    }
  }

  /**
   * From every reachable state an open row can be brought to a terminal status, by some finite
   * continuation of the run, if and only if no late retry of it was written so far.
   */
  lemma CanFinishIffNoLateRetry(rec: Recurrence, run: Run, j: nat, x: Id)
    requires ValidRun(rec, run) && j < |run.states|
    requires x in run.states[j].db.outbox && BoxOpen(run.states[j].db.outbox[x].status)
    ensures CanFinish(rec, run.states[j], x) <==> !LateRetryBefore(run, j, x)
  {
    InvHolds(rec, run, j);
    CanFinishUnlessStuck(rec, run.states[j], x);
    StrandedIffLateRetry(rec, run, j, x);
  }

  // ---- A due schedule can be materialized ------------------------------------------------------

  lemma {:induction false} LongerThanAll(keys: set<Id>) returns (n: nat)
    ensures forall x | x in keys :: |x| < n
    decreases |keys|
  {
    n := 0;
    if y: Id :| y in keys {
      var m := LongerThanAll(keys - {y});
      n := Max(m, |y| + 1);
      forall x | x in keys ensures |x| < n {
        assert x == y || x in keys - {y};
      }
    }
  }

  function LongId(n: nat): (id: Id)
    ensures |id| == n
  {
    seq(n, i => 'a')
  }

  function LongIds(a: nat, b: nat, n: nat): (ids: seq<(Id, Id)>)
    ensures |ids| == n && forall i | 0 <= i < n :: |ids[i].0| == a + i && |ids[i].1| == b + i
  {
    if n == 0 then [] else LongIds(a, b, n - 1) + [(LongId(a + n - 1), LongId(b + n - 1))]
  }

  lemma UnusedIds(db: Db, n: nat) returns (ids: seq<(Id, Id)>)
    ensures |ids| == n && FreshIds(db, ids)
  {
    var a := LongerThanAll(db.occurrences.Keys);
    var b := LongerThanAll(db.outbox.Keys);
    ids := LongIds(a, b, n);
    forall i | 0 <= i < n ensures ids[i].0 !in db.occurrences && ids[i].1 !in db.outbox {
      assert |ids[i].0| >= a && |ids[i].1| >= b;
    }
  }

  function PlanningSteps(
    k: nat, worker: string, id: Id, now: Instant, expires: Instant, ids: seq<(Id, Id)>): seq<Step>
  {
    [ClaimDue(k, worker, id, now, expires), ReadOpen(k), CommitPlan(k, ids)]
  }

  lemma PlanningFollows(
    rec: Recurrence, s: State, k: nat, worker: string, id: Id, now: Instant, expires: Instant, ids: seq<(Id, Id)>,
    s1: State, s2: State)
    requires CanClaimDue(s, k, id, now) && s1 == DoClaimDue(s, k, worker, id, now, expires)
    requires CanReadOpen(rec, s1, k) && s2 == DoReadOpen(s1, k) && CanCommitPlan(rec, s2, k, ids)
    ensures Follow(rec, s, PlanningSteps(k, worker, id, now, expires, ids)) == Some(DoCommitPlan(rec, s2, k, ids))
  {
    var steps := PlanningSteps(k, worker, id, now, expires, ids);
    FollowOneMore(rec, s, [], s, steps[0], s1);
    FollowOneMore(rec, s, [] + [steps[0]], s1, steps[1], s2);
    FollowOneMore(rec, s, [] + [steps[0]] + [steps[1]], s2, steps[2], DoCommitPlan(rec, s2, k, ids));
    assert steps == [] + [steps[0]] + [steps[1]] + [steps[2]];
  }

  lemma PlanningWins(
    rec: Recurrence, s: State, k: nat, worker: string, id: Id, now: Instant, expires: Instant, ids: seq<(Id, Id)>)
    requires CanClaimDue(s, k, id, now) && FreshIds(s.db, ids)
    requires PlanSchedule(rec, s.db.schedules[id].def, s.db.schedules[id].nextDue, now).Planned?
    requires |ids| == |PlanSchedule(rec, s.db.schedules[id].def, s.db.schedules[id].nextDue, now).plans|
    ensures var s1 := DoClaimDue(s, k, worker, id, now, expires);
            && CanReadOpen(rec, s1, k) && CanCommitPlan(rec, DoReadOpen(s1, k), k, ids)
            && var t := DoCommitPlan(rec, DoReadOpen(s1, k), k, ids);
            && id in t.db.schedules
            && var r, q := s.db.schedules[id], t.db.schedules[id];
            && q.version == r.version + 1 && q.claimOwner.None?
            && q.nextDue == PlanSchedule(rec, r.def, r.nextDue, now).next
  {
    var s2 := DoReadOpen(DoClaimDue(s, k, worker, id, now, expires), k);
    var p := s2.planners[k];
    assert PlanOf(rec, p) == PlanSchedule(rec, s.db.schedules[id].def, s.db.schedules[id].nextDue, now);
    InsertsKeepSchedules(s2.db, id, p.snapshot, PlanOf(rec, p).plans, SawOpen(p), ids);
  }

  /**
   * Whenever a schedule is due, any worker can claim, check and materialize it: the commit goes through,
   * moves the version on and leaves the schedule unclaimed at the planned next instant.
   */
  lemma DueCanBeMaterialized(rec: Recurrence, s: State, worker: string, id: Id, now: Instant, expires: Instant)
    returns (k: nat, ids: seq<(Id, Id)>)
    requires id in s.db.schedules && Due(s.db.schedules[id], now)
    requires PlanSchedule(rec, s.db.schedules[id].def, s.db.schedules[id].nextDue, now).Planned?
    ensures var t := Follow(rec, s, PlanningSteps(k, worker, id, now, expires, ids));
            && t.Some? && id in t.value.db.schedules
            && var r, q := s.db.schedules[id], t.value.db.schedules[id];
            && q.version == r.version + 1 && q.claimOwner.None?
            && q.nextDue == PlanSchedule(rec, r.def, r.nextDue, now).next
  {
    k := UnusedTask(s.planners.Keys);
    ids := UnusedIds(s.db, |PlanSchedule(rec, s.db.schedules[id].def, s.db.schedules[id].nextDue, now).plans|);
    PlanningWins(rec, s, k, worker, id, now, expires, ids);
    var s1 := DoClaimDue(s, k, worker, id, now, expires);
    PlanningFollows(rec, s, k, worker, id, now, expires, ids, s1, DoReadOpen(s1, k));
  }

  lemma {:induction false} InsertsKeepSchedules(
    db: Db, id: Id, r: ScheduleRow, plans: seq<Plan>, open: bool, ids: seq<(Id, Id)>)
    requires |plans| == |ids|
    ensures InsertPlans(db, id, r, plans, open, ids).schedules == db.schedules
    decreases |plans|
  {
    if |plans| > 0 {
      var (db1, open1) := InsertPlan(db, id, r, plans[0], open, ids[0]);
      InsertsKeepSchedules(db1, id, r, plans[1..], open1, ids[1..]);
    }
  }
}
