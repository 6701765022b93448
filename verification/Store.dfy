/**
 * The transactional store and the application methods that drive it, run one at a time.
 * Each method is tied to the table functions that the step system interleaves.
 */
module Store {
  import opened Domain
  import opened Planner
  import opened Tables
  import opened Protocol
  import opened Batches
  import opened Idempotency
  import Retry

  // ---- The store -------------------------------------------------------------------------------

  class TxStore {
    var schedules: map<Id, ScheduleRow>
    var occurrences: map<Id, OccurrenceRow>
    var outbox: map<Id, OutboxRow>
    var receipts: map<ReceiptKey, Receipt>

    function View(): Db
      reads this
    {
      Db(schedules, occurrences, outbox, receipts)
    }

    constructor ()
      ensures View() == Db(map[], map[], map[], map[])
    {
      schedules, occurrences, outbox, receipts := map[], map[], map[], map[];
    }

    method Restore(db: Db)
      modifies this
      ensures View() == db
    {
      schedules, occurrences, outbox, receipts := db.schedules, db.occurrences, db.outbox, db.receipts;
    }

    /** `order` lists the rows the claim looks at, in index order; locked rows are left out of it. */
    method ClaimDueSchedules(order: seq<Id>, now: Instant, worker: string, expires: Instant, limit: nat)
      returns (claimed: seq<Id>)
      requires Distinct(order)
      modifies this`schedules
      ensures Picked(order, |order|, limit, DueIds(old(View()), now), claimed)
      ensures DueClaimed(old(View()), claimed, worker, expires, View())
    {
      claimed := [];
      for i := 0 to |order|
        invariant Picked(order, i, limit, DueIds(old(View()), now), claimed)
        invariant DueClaimed(old(View()), claimed, worker, expires, View())
      {
        var id := order[i];
        ghost var was := claimed;
        if |claimed| < limit && id in schedules && Due(schedules[id], now) {
          ClaimOneDue(old(View()), claimed, id, worker, expires, View());
          ClaimOne(id, worker, expires);
          claimed := claimed + [id];
        }
        PickNext(order, i, limit, DueIds(old(View()), now), was, claimed);
      }
    }

    method ClaimOne(id: Id, worker: string, expires: Instant)
      requires id in schedules
      modifies this`schedules
      ensures View() == WithSchedule(old(View()), id, ClaimSchedule(old(schedules)[id], worker, expires))
    {
      schedules := schedules[id := ClaimSchedule(schedules[id], worker, expires)];
    }

    method HasOpenOccurrence(tenant: string, id: Id) returns (open: bool)
      ensures open <==> exists o | o in occurrences ::
                occurrences[o].key.tenant == tenant && occurrences[o].key.scheduleId == id
                  && OccOpen(occurrences[o].status)
    {
      open := HasOpen(View(), tenant, id);
    }

    method InsertOccurrenceRow(id: Id, r: ScheduleRow, p: Plan, newId: Id) returns (inserted: bool)
      modifies this`occurrences
      ensures (View(), inserted) == InsertOccurrence(old(View()), id, r, p, newId)
    {
      inserted := !Taken(View(), KeyOf(id, r, p));
      if inserted {
        occurrences := occurrences[newId := NewOccurrence(id, r, p)];
      }
    }

    method InsertDispatchOutbox(id: Id, r: ScheduleRow, occurrence: Id, p: Plan, newId: Id)
      modifies this`outbox
      ensures View() == InsertDispatch(old(View()), id, r, occurrence, p, newId)
    {
      if !Queued(View(), r.tenant, occurrence) {
        var job := NewJob(id, r, p, occurrence);
        outbox := outbox[newId := OutboxRow(job, BoxPending, 0, p.observedAt, None, None, None, NO_REPORT, None)];
      }
    }

    method AdvanceSchedule(id: Id, snapshot: ScheduleRow, worker: string, next: Option<Instant>) returns (ok: bool)
      modifies this`schedules
      ensures ok <==> MayAdvance(old(View()), id, snapshot, worker)
      ensures View() == if ok then WithSchedule(old(View()), id, Advanced(old(schedules)[id], next)) else old(View())
    {
      ok := MayAdvance(View(), id, snapshot, worker);
      if ok {
        schedules := schedules[id := Advanced(schedules[id], next)];
      }
    }

    method ReleaseScheduleClaim(id: Id, tenant: string, worker: string) returns (ok: bool)
      modifies this`schedules
      ensures ok <==> MayRelease(old(View()), id, tenant, worker)
      ensures View() == if ok then Release(old(View()), id) else old(View())
    {
      ok := MayRelease(View(), id, tenant, worker);
      if ok {
        schedules := schedules[id := schedules[id].(claimOwner := None, claimExpires := None)];
      }
    }

    /** `order` lists all outbox rows, in the order in which the update visits them. */
    method RecoverExhaustedDispatches(order: seq<Id>, now: Instant) returns (recovered: seq<Id>)
      requires Distinct(order) && forall x | x in outbox :: x in order
      modifies this`outbox, this`occurrences
      ensures AllExhausted(old(View()), recovered, now)
      ensures View() == RecoverEach(old(View()), recovered, now)
    {
      recovered := [];
      for i := 0 to |order|
        invariant Picked(order, i, |order| + 1, ExhaustedIds(old(View()), now), recovered)
        invariant View() == RecoverEach(old(View()), recovered, now)
      {
        ghost var was := recovered;
        recovered := RecoverNext(old(View()), recovered, order[i], now);
        PickNext(order, i, |order| + 1, ExhaustedIds(old(View()), now), was, recovered);
      }
    }

    method RecoverNext(ghost before: Db, recovered: seq<Id>, x: Id, now: Instant) returns (more: seq<Id>)
      requires x !in recovered && forall y | y in recovered :: y in before.outbox
      requires View() == RecoverEach(before, recovered, now)
      modifies this`outbox, this`occurrences
      ensures more == if MayRecover(before, x, now) then recovered + [x] else recovered
      ensures forall y | y in more :: y in before.outbox
      ensures View() == RecoverEach(before, more, now)
    {
      NotYetRecovered(before, recovered, x, now);
      more := recovered;
      if MayRecover(View(), x, now) {
        RecoverOneMore(before, recovered, x, now);
        RecoverOne(x, now);
        more := recovered + [x];
      }
    }

    method RecoverOne(x: Id, now: Instant)
      requires x in outbox
      modifies this`outbox, this`occurrences
      ensures View() == RecoverRow(old(View()), x, now)
    {
      var r := outbox[x];
      outbox := outbox[x := RecoveredRow(r, now)];
      if r.job.occurrenceId in occurrences && occurrences[r.job.occurrenceId].key.tenant == r.job.key.tenant {
        var o := occurrences[r.job.occurrenceId];
        occurrences := occurrences[r.job.occurrenceId := RecoveredOccurrence(o, r.attempts, now)];
      }
    }

    method ClaimDispatches(order: seq<Id>, now: Instant, worker: string, expires: Instant, limit: nat)
      returns (claimed: seq<Id>)
      requires Distinct(order)
      modifies this`outbox
      ensures Picked(order, |order|, limit, ClaimableIds(old(View()), now), claimed)
      ensures DispatchClaimed(old(View()), claimed, worker, expires, View())
    {
      claimed := [];
      for i := 0 to |order|
        invariant Picked(order, i, limit, ClaimableIds(old(View()), now), claimed)
        invariant DispatchClaimed(old(View()), claimed, worker, expires, View())
      {
        var x := order[i];
        ghost var was := claimed;
        if |claimed| < limit && x in outbox && Claimable(outbox[x], now) {
          ClaimOneDispatch(old(View()), claimed, x, worker, expires, View());
          outbox := outbox[x := ClaimedRow(outbox[x], worker, expires)];
          claimed := claimed + [x];
        }
        PickNext(order, i, limit, ClaimableIds(old(View()), now), was, claimed);
      }
    }

    method BeginDispatch(x: Id, work: OutboxRow, worker: string, now: Instant) returns (started: Option<OutboxRow>)
      modifies this`outbox, this`occurrences
      ensures started.None? ==> Begin(old(View()), x, work, worker, now).None? && View() == old(View())
      ensures started.Some? ==>
                Begin(old(View()), x, work, worker, now) == Some(View()) && x in outbox && outbox[x] == started.value
    {
      if !MayBegin(View(), x, work, worker, now) {
        return None;
      }
      var r := BegunRow(outbox[x], now);
      if !(r.job.occurrenceId in occurrences && occurrences[r.job.occurrenceId].key.tenant == r.job.key.tenant) {
        return None;
      }
      outbox := outbox[x := r];
      var o := occurrences[r.job.occurrenceId];
      occurrences := occurrences[r.job.occurrenceId := o.(status := OccDispatching, attempts := r.attempts)];
      return Some(r);
    }

    method TransitionDispatch(x: Id, work: OutboxRow, worker: string, v: Verdict) returns (ok: bool)
      modifies this`outbox, this`occurrences
      ensures Transition(old(View()), x, work, worker, v) == if ok then Some(View()) else None
      ensures !ok ==> View() == old(View())
    {
      ok := MayTransition(View(), x, work, worker) && OwnsOccurrence(View(), work.job);
      if ok {
        outbox := outbox[x := TransitionedRow(outbox[x], v)];
        var o := occurrences[work.job.occurrenceId];
        occurrences := occurrences[work.job.occurrenceId := TransitionedOccurrence(o, work.attempts, v)];
      }
    }

    method GetSchedule(tenant: string, name: string) returns (current: Current)
      ensures current.Found? ==>
                current.id in schedules && schedules[current.id] == current.row && Named(current.row, tenant, name)
      ensures !current.Found? ==> current == Missing && !NameInUse(View(), tenant, name)
    {
      if id :| id in schedules && Named(schedules[id], tenant, name) {
        return Found(id, schedules[id]);
      }
      return Missing;
    }
  }

  // ---- The claiming transactions of Planner.Run and Dispatcher.Run -----------------------------

  /** What Planner.Run claims is what a sequence of claim steps from the same tables claims. */
  method PlannerClaims(store: TxStore, order: seq<Id>, c: Cycle, limit: nat, ghost rec: Recurrence, ghost s: State)
    returns (claimed: seq<Id>, ghost t: State)
    requires Distinct(order) && s.db == store.View() && forall k | k in s.planners :: k < c.first
    modifies store`schedules
    ensures Picked(order, |order|, limit, DueIds(s.db, c.now), claimed)
    ensures Follow(rec, s, ClaimSteps(c, claimed)) == Some(t) && t.db == store.View()
  {
    claimed := store.ClaimDueSchedules(order, c.now, c.worker, c.expires, limit);
    t := ClaimBatchIsSteps(rec, s, c, claimed);
    DueClaimedIsUnique(s.db, claimed, c.worker, c.expires, store.View(), t.db);
  }

  /** Dispatcher.Run recovers first and claims then; together they are a sequence of steps too. */
  method DispatcherClaims(store: TxStore, rows: seq<Id>, order: seq<Id>, c: Cycle, limit: nat,
                          ghost rec: Recurrence, ghost s: State)
      returns (recovered: seq<Id>, claimed: seq<Id>, ghost t: State)
    requires Distinct(rows) && Distinct(order) && forall x | x in store.outbox :: x in rows
    requires s.db == store.View() && forall k | k in s.dispatchers :: k < c.first
    modifies store`outbox, store`occurrences
    ensures AllExhausted(s.db, recovered, c.now)
    ensures Picked(order, |order|, limit, ClaimableIds(RecoverEach(s.db, recovered, c.now), c.now), claimed)
    ensures Follow(rec, s, RecoverSteps(recovered, c.now) + DispatchSteps(c, claimed)) == Some(t)
    ensures t.db == store.View()
  {
    recovered := store.RecoverExhaustedDispatches(rows, c.now);
    ghost var mid := store.View();
    claimed := store.ClaimDispatches(order, c.now, c.worker, c.expires, limit);
    t := RecoverThenClaimIsSteps(rec, s, c, recovered, claimed);
    DispatchClaimedIsUnique(mid, claimed, c.worker, c.expires, store.View(), t.db);
  }

  // ---- Planner.materialize ---------------------------------------------------------------------

  /** On a lost claim the transaction is rolled back: the inserts of the loop leave no trace. */
  method MaterializeSchedule(store: TxStore, id: Id, snapshot: ScheduleRow, worker: string,
                             plans: seq<Plan>, next: Option<Instant>, ids: seq<(Id, Id)>) returns (ok: bool)
    requires |plans| == |ids|
    modifies store
    ensures var open := snapshot.def.overlap.Forbid? && HasOpen(old(store.View()), snapshot.tenant, id);
            Materialize(old(store.View()), id, snapshot, worker, plans, next, open, ids) ==
              if ok then Some(store.View()) else None
    ensures !ok ==> store.View() == old(store.View())
  {
    var saved := store.View();
    var open := false;
    if snapshot.def.overlap.Forbid? {
      open := store.HasOpenOccurrence(snapshot.tenant, id);
    }
    ghost var all := InsertPlans(saved, id, snapshot, plans, open, ids);
    var i := 0;
    while i < |plans|
      invariant 0 <= i <= |plans|
      invariant InsertPlans(store.View(), id, snapshot, plans[i..], open, ids[i..]) == all
    {
      ghost var before, was := store.View(), open;
      var plan := plans[i];
      if plan.dispatch && open {
        plan := Blocked(plan);
      }
      var inserted := store.InsertOccurrenceRow(id, snapshot, plan, ids[i].0);
      if inserted && plan.dispatch {
        store.InsertDispatchOutbox(id, snapshot, ids[i].0, plan, ids[i].1);
        if snapshot.def.overlap.Forbid? {
          open := true;
        }
      }
      assert InsertPlan(before, id, snapshot, plans[i], was, ids[i]) == (store.View(), open);
      assert plans[i..][1..] == plans[i + 1..] && ids[i..][1..] == ids[i + 1..];
      i := i + 1;
    }
    ok := store.AdvanceSchedule(id, snapshot, worker, next);
    if !ok {
      store.Restore(saved);
    }
  }

  // ---- Dispatcher.persistResult ----------------------------------------------------------------

  method PersistResult(
    store: TxStore, t: DispatchTask, result: DispatchResult, now: Instant, draw: Retry.Draw)
    returns (ok: bool)
    modifies store
    ensures Transition(old(store.View()), t.row, t.work, t.worker, ResultVerdict(t, result, now, draw))
              == if ok then Some(store.View()) else None
    ensures !ok ==> store.View() == old(store.View())
  {
    var p := t.work.job.retry;
    if Succeeded(result) {
      ok := store.TransitionDispatch(t.row, t.work, t.worker,
        Verdict(BoxSucceeded, OccSucceeded, ReportOf(result), now, Some(now)));
      return;
    }
    var failed := Verdict(BoxFailed, OccFailed, ReportOf(result), now, Some(now));
    if !Retryable(result) || t.work.attempts >= p.maxAttempts {
      ok := store.TransitionDispatch(t.row, t.work, t.worker, failed);
      return;
    }
    var first := if t.work.firstAttemptAt.Some? then t.work.firstAttemptAt.value else now;
    var deadline := Retry.Deadline(p, first);
    var remaining := deadline - now * Retry.MILLISECOND;
    if remaining <= 0 {
      ok := store.TransitionDispatch(t.row, t.work, t.worker, failed);
      return;
    }
    var backoff := Retry.RetryBackoff(p, t.work.attempts);
    var ceiling := if backoff.None? then 0 else backoff.value;
    if ceiling > remaining {
      ceiling := remaining;
    }
    var delay := Retry.FullJitter(ceiling, draw);
    if delay.None? {
      var jitterFailed := Retry.WithoutJitter(result, draw);
      ok := store.TransitionDispatch(t.row, t.work, t.worker,
        Verdict(BoxFailed, OccFailed, ReportOf(jitterFailed), now, Some(now)));
      return;
    }
    var at := now * Retry.MILLISECOND + delay.value;
    if at >= deadline {
      ok := store.TransitionDispatch(t.row, t.work, t.worker, failed);
      return;
    }
    ok := store.TransitionDispatch(t.row, t.work, t.worker,
      Verdict(BoxRetrying, OccRetrying, ReportOf(result), Retry.Stored(at), None));
  }

  // ---- Service.Execute -------------------------------------------------------------------------

  datatype Reply = Refused | Conflicting | Answered(receipt: Receipt)

  /** What one uninterrupted Execute must do, read off the step system. */
  ghost predicate ExecuteSpec(rec: Recurrence, before: Db, after: Db, c: Command, now: Instant, current: Current,
                              newId: Id, createdAt: Instant, reply: Reply)
  {
    match Lookup(before, IdentityOf(c), c.digest)
    case Replay(receipt) => reply == Answered(receipt) && after == before
    case IdempotencyConflict => reply == Conflicting && after == before
    case Unknown =>
      var o := ApplyCommand(rec, before, CommandTask(c, now, current), newId);
      if o.Rejected? then reply == Refused && after == before
      else
        && reply == Answered(ReceiptOf(c, o, createdAt))
        && after == o.db.(receipts := o.db.receipts[IdentityOf(c) := ReceiptOf(c, o, createdAt)])
  }

  ghost predicate ReadsRight(db: Db, c: Command, current: Current) {
    if c.op.Create? || c.op.Delete? then current == NotRead
    else if current.Found? then current.id in db.schedules && db.schedules[current.id] == current.row
      && Named(current.row, c.tenant, c.name)
    else current == Missing && !NameInUse(db, c.tenant, c.name)
  }

  method Execute(rec: Recurrence, store: TxStore, c: Command, now: Instant, newId: Id, createdAt: Instant)
    returns (reply: Reply, current: Current)
    modifies store
    ensures Lookup(old(store.View()), IdentityOf(c), c.digest).Unknown? ==> ReadsRight(old(store.View()), c, current)
    ensures ExecuteSpec(rec, old(store.View()), store.View(), c, now, current, newId, createdAt, reply)
  {
    current := NotRead;
    var key := IdentityOf(c);
    if key in store.receipts {
      if store.receipts[key].digest != c.digest {
        return Conflicting, current;
      }
      return Answered(store.receipts[key]), current;
    }
    if !c.op.Create? && !c.op.Delete? {
      current := store.GetSchedule(c.tenant, c.name);
    }
    var code, row := ApplyIn(rec, store, c, now, current, newId);
    if code.None? {
      return Refused, current;
    }
    var receipt := Receipt(c.digest, c.requestId, code.value, c.name, row, createdAt);
    store.receipts := store.receipts[key := receipt];
    return Answered(receipt), current;
  }

  /** Service.apply: None is an error, and then nothing was written. */
  method ApplyIn(rec: Recurrence, store: TxStore, c: Command, now: Instant, current: Current, newId: Id)
    returns (code: Option<ResultCode>, row: Option<ScheduleRow>)
    modifies store`schedules
    ensures var o := ApplyCommand(rec, old(store.View()), CommandTask(c, now, current), newId);
            if code.None? then o.Rejected? && store.View() == old(store.View())
            else o == Applied(store.View(), code.value, row)
  {
    row := None;
    match c.op
    case Create =>
      var pos := PositionOf(rec, c, now, None);
      if pos.NoPosition? {
        return None, None;
      }
      if id :| id in store.schedules && Named(store.schedules[id], c.tenant, c.name) {
        return Some(AlreadyExists), None;
      }
      row := Some(NewSchedule(c.tenant, c.name, c.def, pos.status, pos.next));
      store.schedules := store.schedules[newId := row.value];
      return Some(Registered), row;
    case Update =>
      if !current.Found? {
        return Some(NotFound), None;
      }
      var pos := PositionOf(rec, c, now, Some(current.row));
      if pos.NoPosition? {
        return None, None;
      }
      if SameVersion(store.View(), current.id, current.row) {
        row := Some(Replaced(store.schedules[current.id], c.def, pos.status, pos.next));
        store.schedules := store.schedules[current.id := row.value];
        return Some(Updated), row;
      }
      var latest := store.GetSchedule(c.tenant, c.name);
      return Some(if latest.Found? then Changed else NotFound), None;
    case Delete =>
      var latest := store.GetSchedule(c.tenant, c.name);
      if !latest.Found? {
        return Some(NotFound), None;
      }
      store.schedules := map id | id in store.schedules && !Named(store.schedules[id], c.tenant, c.name) ::
        store.schedules[id];
      return Some(Deleted), None;
    case _ =>
      if !current.Found? {
        return Some(NotFound), None;
      }
      if current.row.status.Exhausted? {
        return Some(ExhaustedResult), None;
      }
      var next := ResumeAt(rec, c, now, current.row);
      if c.op.Resume? && next.None? {
        return None, None;
      }
      if SameVersion(store.View(), current.id, current.row) && !store.schedules[current.id].status.Exhausted? {
        row := Some(Restated(store.schedules[current.id], if c.op.Resume? then Active else Paused, next));
        store.schedules := store.schedules[current.id := row.value];
        return Some(if c.op.Resume? then ResumedResult else PausedResult), row;
      }
      if !NameInUse(store.View(), c.tenant, c.name) {
        return Some(NotFound), None;
      }
      if NameExhausted(store.View(), c.tenant, c.name) {
        return Some(ExhaustedResult), None;
      }
      return Some(Changed), None;
  }
}
