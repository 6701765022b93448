/**
 * Statements over many rows.  A claim or a recovery of a batch picks rows in some order; each batch is a
 * sequence of the single-row steps of the step system.
 */
module Batches {
  import opened Domain
  import opened Planner
  import opened Tables
  import opened Protocol

  // ---- Picking rows ----------------------------------------------------------------------------

  predicate Distinct(ids: seq<Id>) {
    forall i, j | 0 <= i < j < |ids| :: ids[i] != ids[j]
  }

  lemma LastIsNew(ids: seq<Id>)
    requires |ids| > 0 && Distinct(ids)
    ensures var n := |ids| - 1;
            && ids == ids[..n] + [ids[n]] && ids[n] !in ids[..n] && Distinct(ids[..n])
            && forall x | x in ids[..n] :: x in ids
  {
  }

  /** From the first n of `order`, up to `limit` eligible rows were taken, each once, and none was passed over. */
  ghost predicate Picked(order: seq<Id>, n: nat, limit: nat, eligible: set<Id>, taken: seq<Id>)
    requires n <= |order|
  {
    && Distinct(taken) && |taken| <= limit && |taken| <= n
    && (forall x | x in taken :: x in order && x in eligible)
    && (forall j | 0 <= j < n :: order[j] in eligible ==> order[j] in taken || |taken| == limit)
    && (forall j | n <= j < |order| :: order[j] !in taken)
  }

  lemma PickNext(order: seq<Id>, n: nat, limit: nat, eligible: set<Id>, taken: seq<Id>, more: seq<Id>)
    requires n < |order| && Distinct(order) && Picked(order, n, limit, eligible, taken)
    requires more == if |taken| < limit && order[n] in eligible then taken + [order[n]] else taken
    ensures Picked(order, n + 1, limit, eligible, more)
  {
    forall i, j | 0 <= i < j < |more| ensures more[i] != more[j] {
      assert j == |taken| ==> more[i] in taken;
    }
  }

  ghost function DueIds(db: Db, now: Instant): set<Id> {
    set id | id in db.schedules && Due(db.schedules[id], now)
  }

  ghost function ClaimableIds(db: Db, now: Instant): set<Id> {
    set x | x in db.outbox && Claimable(db.outbox[x], now)
  }

  ghost function ExhaustedIds(db: Db, now: Instant): set<Id> {
    set x | x in db.outbox && Recoverable(db.outbox[x], now)
  }

  /** One cycle of a worker: its first task number, its name, its clock reading and the expiry of its claims. */
  datatype Cycle = Cycle(first: nat, worker: string, now: Instant, expires: Instant)

  // ---- Claims of schedules ---------------------------------------------------------------------

  /** `after` is db with the given schedules claimed. */
  ghost predicate DueClaimed(db: Db, ids: seq<Id>, worker: string, expires: Instant, after: Db) {
    && after == db.(schedules := after.schedules) && after.schedules.Keys == db.schedules.Keys
    && forall id | id in db.schedules ::
         after.schedules[id] == if id in ids then ClaimSchedule(db.schedules[id], worker, expires) else db.schedules[id]
  }

  lemma ClaimOneDue(db: Db, ids: seq<Id>, id: Id, worker: string, expires: Instant, mid: Db)
    requires id in db.schedules && id !in ids && DueClaimed(db, ids, worker, expires, mid)
    ensures DueClaimed(db, ids + [id], worker, expires,
              WithSchedule(mid, id, ClaimSchedule(mid.schedules[id], worker, expires)))
  {
  }

  function ClaimSteps(c: Cycle, ids: seq<Id>): seq<Step> {
    seq(|ids|, i requires 0 <= i < |ids| => ClaimDue(c.first + i, c.worker, ids[i], c.now, c.expires))
  }

  ghost predicate DueFollowed(rec: Recurrence, s: State, c: Cycle, ids: seq<Id>, t: State) {
    && Follow(rec, s, ClaimSteps(c, ids)) == Some(t)
    && DueClaimed(s.db, ids, c.worker, c.expires, t.db)
    && forall k | k in t.planners :: k < c.first + |ids|
  }

  lemma ClaimStepsMore(c: Cycle, ids: seq<Id>, id: Id)
    ensures ClaimSteps(c, ids + [id])
              == ClaimSteps(c, ids) + [ClaimDue(c.first + |ids|, c.worker, id, c.now, c.expires)]
  {
  }

  lemma DueClaimedMore(db: Db, c: Cycle, ids: seq<Id>, id: Id, t: State, task: nat)
    requires DueClaimed(db, ids, c.worker, c.expires, t.db) && id in DueIds(db, c.now) && id !in ids
    requires forall k | k in t.planners :: k < task
    ensures CanClaimDue(t, task, id, c.now)
    ensures var u := DoClaimDue(t, task, c.worker, id, c.now, c.expires);
            DueClaimed(db, ids + [id], c.worker, c.expires, u.db) && forall k | k in u.planners :: k < task + 1
  {
    ClaimOneDue(db, ids, id, c.worker, c.expires, t.db);
  }

  lemma ClaimIsStep(rec: Recurrence, s: State, task: nat, worker: string, id: Id, now: Instant, expires: Instant)
    requires CanClaimDue(s, task, id, now)
    ensures Next(rec, s, ClaimDue(task, worker, id, now, expires), DoClaimDue(s, task, worker, id, now, expires))
  {
  }

  lemma DueOneMore(rec: Recurrence, s: State, c: Cycle, ids: seq<Id>, id: Id, t: State)
    requires DueFollowed(rec, s, c, ids, t) && CanClaimDue(t, c.first + |ids|, id, c.now)
    ensures Follow(rec, s, ClaimSteps(c, ids + [id]))
              == Some(DoClaimDue(t, c.first + |ids|, c.worker, id, c.now, c.expires))
  {
    var step := ClaimDue(c.first + |ids|, c.worker, id, c.now, c.expires);
    ClaimIsStep(rec, t, c.first + |ids|, c.worker, id, c.now, c.expires);
    FollowOneMore(rec, s, ClaimSteps(c, ids), t, step, DoClaimDue(t, c.first + |ids|, c.worker, id, c.now, c.expires));
    ClaimStepsMore(c, ids, id);
  }

  lemma DueFollowedMore(rec: Recurrence, s: State, c: Cycle, ids: seq<Id>, id: Id, t: State)
    requires DueFollowed(rec, s, c, ids, t) && id in DueIds(s.db, c.now) && id !in ids
    ensures CanClaimDue(t, c.first + |ids|, id, c.now)
    ensures DueFollowed(rec, s, c, ids + [id], DoClaimDue(t, c.first + |ids|, c.worker, id, c.now, c.expires))
  {
    DueClaimedMore(s.db, c, ids, id, t, c.first + |ids|);
    DueOneMore(rec, s, c, ids, id, t);
  }

  lemma NoDueFollowed(rec: Recurrence, s: State, c: Cycle)
    requires forall k | k in s.planners :: k < c.first
    ensures DueFollowed(rec, s, c, [], s)
  {
  }

  /** A batch claim of schedules is a sequence of single claims that the step system allows. */
  lemma {:induction false} ClaimBatchIsSteps(rec: Recurrence, s: State, c: Cycle, ids: seq<Id>) returns (t: State)
    requires Distinct(ids) && forall id | id in ids :: id in DueIds(s.db, c.now)
    requires forall k | k in s.planners :: k < c.first
    ensures DueFollowed(rec, s, c, ids, t)
    decreases |ids|
  {
    if |ids| == 0 {
      NoDueFollowed(rec, s, c);
      t := s;
    } else {
      var n := |ids| - 1;
      var init, id := ids[..n], ids[n];
      LastIsNew(ids);
      t := ClaimBatchIsSteps(rec, s, c, init);
      DueFollowedMore(rec, s, c, init, id, t);
      t := DoClaimDue(t, c.first + n, c.worker, id, c.now, c.expires);
    }
  }

  // ---- Recovery --------------------------------------------------------------------------------

  predicate MayRecover(db: Db, x: Id, now: Instant) {
    x in db.outbox && Recoverable(db.outbox[x], now)
  }

  ghost function RecoverEach(db: Db, rows: seq<Id>, now: Instant): (r: Db)
    requires forall x | x in rows :: x in db.outbox
    ensures r.outbox.Keys == db.outbox.Keys
    ensures forall x | x in db.outbox && x !in rows :: r.outbox[x] == db.outbox[x]
  {
    if |rows| == 0 then db
    else
      var n := |rows| - 1;
      RecoverRow(RecoverEach(db, rows[..n], now), rows[n], now)
  }

  /** `rows` are the exhausted rows of the whole outbox, each once. */
  ghost predicate AllExhausted(db: Db, rows: seq<Id>, now: Instant) {
    && Distinct(rows)
    && (forall x | x in rows :: x in db.outbox && Recoverable(db.outbox[x], now))
    && (forall x | x in db.outbox && Recoverable(db.outbox[x], now) :: x in rows)
  }

  lemma RecoverOneMore(db: Db, rows: seq<Id>, x: Id, now: Instant)
    requires x in db.outbox && forall y | y in rows :: y in db.outbox
    ensures RecoverEach(db, rows + [x], now) == RecoverRow(RecoverEach(db, rows, now), x, now)
  {
    assert (rows + [x])[..|rows|] == rows;
  }

  lemma NotYetRecovered(db: Db, rows: seq<Id>, x: Id, now: Instant)
    requires x !in rows && forall y | y in rows :: y in db.outbox
    ensures MayRecover(RecoverEach(db, rows, now), x, now) <==> MayRecover(db, x, now)
  {
  }

  lemma RecoverIsStep(rec: Recurrence, s: State, row: Id, now: Instant)
    requires row in s.db.outbox && Recoverable(s.db.outbox[row], now)
    ensures Next(rec, s, RecoverDispatch(row, now), s.(db := RecoverRow(s.db, row, now)))
  {
  }

  function RecoverSteps(rows: seq<Id>, now: Instant): seq<Step> {
    seq(|rows|, i requires 0 <= i < |rows| => RecoverDispatch(rows[i], now))
  }

  lemma RecoverOneMoreStep(rec: Recurrence, s: State, rows: seq<Id>, x: Id, now: Instant)
    requires (forall y | y in rows :: y in s.db.outbox) && x !in rows && MayRecover(s.db, x, now)
    requires Follow(rec, s, RecoverSteps(rows, now)) == Some(s.(db := RecoverEach(s.db, rows, now)))
    ensures Follow(rec, s, RecoverSteps(rows + [x], now)) == Some(s.(db := RecoverEach(s.db, rows + [x], now)))
  {
    var t := s.(db := RecoverEach(s.db, rows, now));
    NotYetRecovered(s.db, rows, x, now);
    RecoverOneMore(s.db, rows, x, now);
    RecoverIsStep(rec, t, x, now);
    FollowOneMore(rec, s, RecoverSteps(rows, now), t, RecoverDispatch(x, now), t.(db := RecoverRow(t.db, x, now)));
    assert RecoverSteps(rows + [x], now) == RecoverSteps(rows, now) + [RecoverDispatch(x, now)];
  }

  /** So is the recovery of all exhausted rows. */
  lemma {:induction false} RecoverBatchIsSteps(rec: Recurrence, s: State, rows: seq<Id>, now: Instant)
    requires forall x | x in rows :: x in s.db.outbox && Recoverable(s.db.outbox[x], now)
    requires Distinct(rows)
    ensures Follow(rec, s, RecoverSteps(rows, now)) == Some(s.(db := RecoverEach(s.db, rows, now)))
    decreases |rows|
  {
    if |rows| > 0 {
      var n := |rows| - 1;
      LastIsNew(rows);
      RecoverBatchIsSteps(rec, s, rows[..n], now);
      RecoverOneMoreStep(rec, s, rows[..n], rows[n], now);
    }
  }

  // ---- Claims of dispatch work -----------------------------------------------------------------

  /** `after` is db with the given outbox rows claimed. */
  ghost predicate DispatchClaimed(db: Db, rows: seq<Id>, worker: string, expires: Instant, after: Db) {
    && after == db.(outbox := after.outbox) && after.outbox.Keys == db.outbox.Keys
    && forall x | x in db.outbox ::
         after.outbox[x] == if x in rows then ClaimedRow(db.outbox[x], worker, expires) else db.outbox[x]
  }

  lemma ClaimOneDispatch(db: Db, rows: seq<Id>, x: Id, worker: string, expires: Instant, mid: Db)
    requires x in db.outbox && x !in rows && DispatchClaimed(db, rows, worker, expires, mid)
    ensures DispatchClaimed(db, rows + [x], worker, expires,
                            mid.(outbox := mid.outbox[x := ClaimedRow(mid.outbox[x], worker, expires)]))
  {
  }

  function DispatchSteps(c: Cycle, rows: seq<Id>): seq<Step> {
    seq(|rows|, i requires 0 <= i < |rows| => ClaimDispatch(c.first + i, c.worker, rows[i], c.now, c.expires))
  }

  ghost predicate DispatchFollowed(rec: Recurrence, s: State, c: Cycle, rows: seq<Id>, t: State) {
    && Follow(rec, s, DispatchSteps(c, rows)) == Some(t)
    && DispatchClaimed(s.db, rows, c.worker, c.expires, t.db)
    && forall k | k in t.dispatchers :: k < c.first + |rows|
  }

  lemma DispatchStepsMore(c: Cycle, rows: seq<Id>, x: Id)
    ensures DispatchSteps(c, rows + [x])
              == DispatchSteps(c, rows) + [ClaimDispatch(c.first + |rows|, c.worker, x, c.now, c.expires)]
  {
  }

  lemma DispatchClaimedMore(db: Db, c: Cycle, rows: seq<Id>, x: Id, t: State, task: nat)
    requires DispatchClaimed(db, rows, c.worker, c.expires, t.db) && x in ClaimableIds(db, c.now) && x !in rows
    requires forall k | k in t.dispatchers :: k < task
    ensures CanClaimDispatch(t, task, x, c.now)
    ensures var u := DoClaimDispatch(t, task, c.worker, x, c.now, c.expires);
            && DispatchClaimed(db, rows + [x], c.worker, c.expires, u.db)
            && forall k | k in u.dispatchers :: k < task + 1
  {
    ClaimOneDispatch(db, rows, x, c.worker, c.expires, t.db);
  }

  lemma DispatchIsStep(rec: Recurrence, s: State, task: nat, worker: string, row: Id, now: Instant, expires: Instant)
    requires CanClaimDispatch(s, task, row, now)
    ensures Next(rec, s, ClaimDispatch(task, worker, row, now, expires),
              DoClaimDispatch(s, task, worker, row, now, expires))
  {
  }

  lemma DispatchOneMore(rec: Recurrence, s: State, c: Cycle, rows: seq<Id>, x: Id, t: State)
    requires DispatchFollowed(rec, s, c, rows, t) && CanClaimDispatch(t, c.first + |rows|, x, c.now)
    ensures Follow(rec, s, DispatchSteps(c, rows + [x]))
              == Some(DoClaimDispatch(t, c.first + |rows|, c.worker, x, c.now, c.expires))
  {
    var step := ClaimDispatch(c.first + |rows|, c.worker, x, c.now, c.expires);
    DispatchIsStep(rec, t, c.first + |rows|, c.worker, x, c.now, c.expires);
    FollowOneMore(rec, s, DispatchSteps(c, rows), t, step,
                  DoClaimDispatch(t, c.first + |rows|, c.worker, x, c.now, c.expires));
    DispatchStepsMore(c, rows, x);
  }

  lemma DispatchFollowedMore(rec: Recurrence, s: State, c: Cycle, rows: seq<Id>, x: Id, t: State)
    requires DispatchFollowed(rec, s, c, rows, t) && x in ClaimableIds(s.db, c.now) && x !in rows
    ensures CanClaimDispatch(t, c.first + |rows|, x, c.now)
    ensures DispatchFollowed(rec, s, c, rows + [x], DoClaimDispatch(t, c.first + |rows|, c.worker, x, c.now, c.expires))
  {
    DispatchClaimedMore(s.db, c, rows, x, t, c.first + |rows|);
    DispatchOneMore(rec, s, c, rows, x, t);
  }

  lemma NoDispatchFollowed(rec: Recurrence, s: State, c: Cycle)
    requires forall k | k in s.dispatchers :: k < c.first
    ensures DispatchFollowed(rec, s, c, [], s)
  {
  }

  /** And so is a batch claim of dispatch work. */
  lemma {:induction false} DispatchBatchIsSteps(rec: Recurrence, s: State, c: Cycle, rows: seq<Id>) returns (t: State)
    requires Distinct(rows) && forall x | x in rows :: x in ClaimableIds(s.db, c.now)
    requires forall k | k in s.dispatchers :: k < c.first
    ensures DispatchFollowed(rec, s, c, rows, t)
    decreases |rows|
  {
    if |rows| == 0 {
      NoDispatchFollowed(rec, s, c);
      t := s;
    } else {
      var n := |rows| - 1;
      var init, x := rows[..n], rows[n];
      LastIsNew(rows);
      t := DispatchBatchIsSteps(rec, s, c, init);
      DispatchFollowedMore(rec, s, c, init, x, t);
      t := DoClaimDispatch(t, c.first + n, c.worker, x, c.now, c.expires);
    }
  }

  /** The claiming transaction of a dispatcher: recovery of what is exhausted, then a batch of claims. */
  lemma RecoverThenClaimIsSteps(rec: Recurrence, s: State, c: Cycle, recovered: seq<Id>, claimed: seq<Id>)
    returns (t: State)
    requires Distinct(recovered) && forall x | x in recovered :: x in s.db.outbox && Recoverable(s.db.outbox[x], c.now)
    requires Distinct(claimed) && forall x | x in claimed ::
               x in ClaimableIds(RecoverEach(s.db, recovered, c.now), c.now)
    requires forall k | k in s.dispatchers :: k < c.first
    ensures Follow(rec, s, RecoverSteps(recovered, c.now) + DispatchSteps(c, claimed)) == Some(t)
    ensures DispatchClaimed(RecoverEach(s.db, recovered, c.now), claimed, c.worker, c.expires, t.db)
  {
    var mid := s.(db := RecoverEach(s.db, recovered, c.now));
    RecoverBatchIsSteps(rec, s, recovered, c.now);
    t := DispatchBatchIsSteps(rec, mid, c, claimed);
    FollowAppends(rec, s, RecoverSteps(recovered, c.now), mid, DispatchSteps(c, claimed));
  }

  lemma DueClaimedIsUnique(db: Db, ids: seq<Id>, worker: string, expires: Instant, a: Db, b: Db)
    requires DueClaimed(db, ids, worker, expires, a) && DueClaimed(db, ids, worker, expires, b)
    ensures a == b
  {
    assert a.schedules == b.schedules;
  }

  lemma DispatchClaimedIsUnique(db: Db, rows: seq<Id>, worker: string, expires: Instant, a: Db, b: Db)
    requires DispatchClaimed(db, rows, worker, expires, a) && DispatchClaimed(db, rows, worker, expires, b)
    ensures a == b
  {
    assert a.outbox == b.outbox;
  }
}
