/**
 * The cross-table invariant of occurrences and outbox rows, and what no statement ever undoes.
 * Occurrence updates carry no status guard; that they hit only open occurrences follows from here.
 */
module Coupling {
  import opened Domain
  import opened Planner
  import opened Tables

  /** The status pairs that occur: outbox first. */
  predicate AllowedPair(box: OutboxStatus, occ: OccurrenceStatus) {
    match box
    case BoxPending => occ == OccPending
    case BoxDispatching => OccOpen(occ)
    case BoxRetrying => occ == OccRetrying
    case BoxSucceeded => occ == OccSucceeded
    case BoxFailed => occ == OccFailed
  }

  ghost predicate RowCoupled(db: Db, x: Id)
    requires x in db.outbox
  {
    var r := db.outbox[x];
    && OutboxCheck(r)
    && r.job.occurrenceId in db.occurrences
    && var o := db.occurrences[r.job.occurrenceId];
    && o.key == r.job.key && o.scheduleName == r.job.scheduleName && AllowedPair(r.status, o.status)
  }

  ghost predicate HasRow(db: Db, occurrence: Id) {
    exists x | x in db.outbox :: db.outbox[x].job.occurrenceId == occurrence
  }

  ghost predicate RowsCoupled(db: Db) {
    forall x {:trigger RowCoupled(db, x)} | x in db.outbox :: RowCoupled(db, x)
  }

  /** UNIQUE (tenant_id, occurrence_id). */
  ghost predicate OneRowEach(db: Db) {
    forall x, y | x in db.outbox && y in db.outbox ::
      db.outbox[x].job.occurrenceId == db.outbox[y].job.occurrenceId ==> x == y
  }

  /** A skipped occurrence has no outbox row, any other has one. */
  ghost predicate Covered(db: Db, o: Id)
    requires o in db.occurrences
  {
    OccurrenceCheck(db.occurrences[o]) && (db.occurrences[o].status.OccSkipped? <==> !HasRow(db, o))
  }

  ghost predicate OccurrencesCovered(db: Db) {
    forall o {:trigger Covered(db, o)} | o in db.occurrences :: Covered(db, o)
  }

  /** UNIQUE (tenant_id, schedule_id, scheduled_at). */
  ghost predicate KeysUnique(db: Db) {
    forall o, p | o in db.occurrences && p in db.occurrences ::
      db.occurrences[o].key == db.occurrences[p].key ==> o == p
  }

  ghost predicate Coupled(db: Db) {
    RowsCoupled(db) && OneRowEach(db) && OccurrencesCovered(db) && KeysUnique(db)
  }

  // ---- Evolution: what every step preserves of the past ----------------------------------------

  ghost predicate OutboxEvolves(a: OutboxRow, b: OutboxRow) {
    && a.job == b.job
    && a.attempts <= b.attempts
    && (a.firstAttemptAt.Some? ==> b.firstAttemptAt == a.firstAttemptAt)
    && (!BoxOpen(a.status) ==> b == a)
  }

  ghost predicate OccurrenceEvolves(a: OccurrenceRow, b: OccurrenceRow) {
    && a.key == b.key && a.scheduleName == b.scheduleName && a.observedAt == b.observedAt
         && a.missedCount == b.missedCount
    && (!OccOpen(a.status) ==> b == a)
  }

  /** Rows stay, captured data stays, attempts only grow, the first attempt is fixed, terminal rows are final. */
  ghost predicate Evolves(a: Db, b: Db) {
    && (forall x | x in a.outbox :: x in b.outbox && OutboxEvolves(a.outbox[x], b.outbox[x]))
    && (forall o | o in a.occurrences :: o in b.occurrences && OccurrenceEvolves(a.occurrences[o], b.occurrences[o]))
  }

  /** A statement of the dispatcher: no row appears or goes, schedules and receipts are not touched. */
  ghost predicate DispatchOnly(a: Db, b: Db) {
    && b.schedules == a.schedules && b.receipts == a.receipts
    && b.occurrences.Keys == a.occurrences.Keys && b.outbox.Keys == a.outbox.Keys
  }

  lemma EvolvesTransitive(a: Db, b: Db, c: Db)
    requires Evolves(a, b) && Evolves(b, c)
    ensures Evolves(a, c)
  {
  }

  // ---- Statements that touch one outbox row and its occurrence ---------------------------------

  ghost function PairUpdate(db: Db, x: Id, r: OutboxRow, o: OccurrenceRow): Db {
    db.(outbox := db.outbox[x := r], occurrences := db.occurrences[r.job.occurrenceId := o])
  }

  lemma PairFacts(db: Db, x: Id)
    requires Coupled(db) && x in db.outbox
    ensures RowCoupled(db, x) && Covered(db, db.outbox[x].job.occurrenceId)
  {
    assert RowCoupled(db, x);
    assert Covered(db, db.outbox[x].job.occurrenceId);
  }

  lemma PairUpdateIsSafe(db: Db, x: Id, r: OutboxRow, o: OccurrenceRow)
    requires Coupled(db) && x in db.outbox && RowCoupled(db, x) && BoxOpen(db.outbox[x].status)
    requires OutboxEvolves(db.outbox[x], r) && OutboxCheck(r)
    requires OccurrenceEvolves(db.occurrences[r.job.occurrenceId], o) && OccurrenceCheck(o)
    requires AllowedPair(r.status, o.status)
    ensures Coupled(PairUpdate(db, x, r, o))
    ensures Evolves(db, PairUpdate(db, x, r, o)) && DispatchOnly(db, PairUpdate(db, x, r, o))
  {
    PairUpdateRows(db, x, r, o);
    PairUpdateCovers(db, x, r, o);
    PairUpdateUnique(db, x, r, o);
  }

  lemma PairUpdateRows(db: Db, x: Id, r: OutboxRow, o: OccurrenceRow)
    requires RowsCoupled(db) && OneRowEach(db) && x in db.outbox
    requires r.job == db.outbox[x].job && OutboxCheck(r) && AllowedPair(r.status, o.status)
    requires o.key == r.job.key && o.scheduleName == r.job.scheduleName
    ensures RowsCoupled(PairUpdate(db, x, r, o))
  {
    var db' := PairUpdate(db, x, r, o);
    forall y | y in db'.outbox ensures RowCoupled(db', y) {
      assert RowCoupled(db, y);
    }
  }

  lemma PairUpdateUnique(db: Db, x: Id, r: OutboxRow, o: OccurrenceRow)
    requires OneRowEach(db) && KeysUnique(db) && x in db.outbox && r.job == db.outbox[x].job
    requires r.job.occurrenceId in db.occurrences && o.key == db.occurrences[r.job.occurrenceId].key
    ensures OneRowEach(PairUpdate(db, x, r, o)) && KeysUnique(PairUpdate(db, x, r, o))
  {
  }

  lemma PairUpdateCovers(db: Db, x: Id, r: OutboxRow, o: OccurrenceRow)
    requires OccurrencesCovered(db) && x in db.outbox && r.job == db.outbox[x].job
    requires OccurrenceCheck(o) && !o.status.OccSkipped?
    ensures OccurrencesCovered(PairUpdate(db, x, r, o))
  {
    var db' := PairUpdate(db, x, r, o);
    assert forall y | y in db.outbox :: y in db'.outbox && db'.outbox[y].job == db.outbox[y].job;
    forall p | p in db'.occurrences ensures Covered(db', p) {
      assert p in db.occurrences ==> Covered(db, p);
      if p == r.job.occurrenceId {
        assert db'.outbox[x].job.occurrenceId == p;
      } else if HasRow(db, p) {
        var y :| y in db.outbox && db.outbox[y].job.occurrenceId == p;
        assert db'.outbox[y].job.occurrenceId == p;
      }
    }
  }

  lemma ClaimIsSafe(db: Db, x: Id, worker: string, now: Instant, expires: Instant)
    requires Coupled(db) && x in db.outbox && Claimable(db.outbox[x], now)
    ensures var db' := db.(outbox := db.outbox[x := ClaimedRow(db.outbox[x], worker, expires)]);
            Coupled(db') && Evolves(db, db') && DispatchOnly(db, db')
  {
    PairFacts(db, x);
    var r := ClaimedRow(db.outbox[x], worker, expires);
    var o := db.occurrences[r.job.occurrenceId];
    PairUpdateIsSafe(db, x, r, o);
    assert PairUpdate(db, x, r, o) == db.(outbox := db.outbox[x := r]);
  }

  lemma RecoverIsSafe(db: Db, x: Id, now: Instant)
    requires Coupled(db) && x in db.outbox && Recoverable(db.outbox[x], now)
    ensures Coupled(RecoverRow(db, x, now)) && Evolves(db, RecoverRow(db, x, now))
              && DispatchOnly(db, RecoverRow(db, x, now))
    ensures db.outbox[x].job.occurrenceId in db.occurrences
    ensures RecoverRow(db, x, now) == PairUpdate(db, x, RecoveredRow(db.outbox[x], now),
              RecoveredOccurrence(db.occurrences[db.outbox[x].job.occurrenceId], db.outbox[x].attempts, now))
  {
    PairFacts(db, x);
    var r := db.outbox[x];
    PairUpdateIsSafe(db, x, RecoveredRow(r, now),
      RecoveredOccurrence(db.occurrences[r.job.occurrenceId], r.attempts, now));
  }

  lemma BeginIsSafe(db: Db, x: Id, work: OutboxRow, worker: string, now: Instant)
    requires Coupled(db) && Begin(db, x, work, worker, now).Some?
    ensures var db' := Begin(db, x, work, worker, now).value;
            Coupled(db') && Evolves(db, db') && DispatchOnly(db, db')
  {
    PairFacts(db, x);
    var r := BegunRow(db.outbox[x], now);
    var o := db.occurrences[r.job.occurrenceId].(status := OccDispatching, attempts := r.attempts);
    PairUpdateIsSafe(db, x, r, o);
  }

  predicate ProperVerdict(v: Verdict) {
    || (v.box == BoxRetrying && v.occ == OccRetrying && v.completedAt.None?)
    || (v.box == BoxSucceeded && v.occ == OccSucceeded && v.completedAt.Some?)
    || (v.box == BoxFailed && v.occ == OccFailed && v.completedAt.Some?)
  }

  lemma TransitionIsSafe(db: Db, x: Id, work: OutboxRow, worker: string, v: Verdict)
    requires Coupled(db) && Transition(db, x, work, worker, v).Some? && ProperVerdict(v)
    requires work.job == db.outbox[x].job && 0 <= work.attempts <= MAX_RETRY_ATTEMPTS
    ensures var db' := Transition(db, x, work, worker, v).value;
            Coupled(db') && Evolves(db, db') && DispatchOnly(db, db')
  {
    PairFacts(db, x);
    var r := TransitionedRow(db.outbox[x], v);
    PairUpdateIsSafe(db, x, r, TransitionedOccurrence(db.occurrences[r.job.occurrenceId], work.attempts, v));
  }

  // ---- Materialization -------------------------------------------------------------------------

  lemma NoRowForFreshId(db: Db, o: Id)
    requires RowsCoupled(db) && o !in db.occurrences
    ensures !HasRow(db, o)
  {
    forall x | x in db.outbox ensures db.outbox[x].job.occurrenceId != o {
      assert RowCoupled(db, x);
    }
  }

  lemma InsertSkippedIsSafe(db: Db, o: Id, row: OccurrenceRow)
    requires Coupled(db) && o !in db.occurrences && !Taken(db, row.key)
    requires OccurrenceCheck(row) && row.status.OccSkipped?
    ensures var db' := db.(occurrences := db.occurrences[o := row]);
            Coupled(db') && Evolves(db, db')
  {
    var db' := db.(occurrences := db.occurrences[o := row]);
    NoRowForFreshId(db, o);
    forall p | p in db'.occurrences ensures Covered(db', p) {
      assert HasRow(db', p) <==> HasRow(db, p);
      assert p != o ==> Covered(db, p);
    }
    forall x | x in db'.outbox ensures RowCoupled(db', x) {
      assert RowCoupled(db, x);
    }
  }

  ghost function PairInsert(db: Db, o: Id, row: OccurrenceRow, x: Id, box: OutboxRow): Db {
    db.(occurrences := db.occurrences[o := row], outbox := db.outbox[x := box])
  }

  lemma InsertQueuedIsSafe(db: Db, o: Id, row: OccurrenceRow, x: Id, box: OutboxRow)
    requires Coupled(db) && o !in db.occurrences && x !in db.outbox && !Taken(db, row.key)
    requires OccurrenceCheck(row) && row.status.OccPending? && box.status.BoxPending? && OutboxCheck(box)
    requires box.job.occurrenceId == o && box.job.key == row.key && box.job.scheduleName == row.scheduleName
    ensures Coupled(PairInsert(db, o, row, x, box)) && Evolves(db, PairInsert(db, o, row, x, box))
  {
    NoRowForFreshId(db, o);
    InsertQueuedRows(db, o, row, x, box);
    InsertQueuedCovers(db, o, row, x, box);
  }

  lemma InsertQueuedRows(db: Db, o: Id, row: OccurrenceRow, x: Id, box: OutboxRow)
    requires RowsCoupled(db) && OneRowEach(db) && o !in db.occurrences && x !in db.outbox
    requires row.status.OccPending? && box.status.BoxPending? && OutboxCheck(box)
    requires box.job.occurrenceId == o && box.job.key == row.key && box.job.scheduleName == row.scheduleName
    ensures RowsCoupled(PairInsert(db, o, row, x, box)) && OneRowEach(PairInsert(db, o, row, x, box))
  {
    var db' := PairInsert(db, o, row, x, box);
    forall y | y in db'.outbox ensures RowCoupled(db', y) {
      if y != x {
        assert RowCoupled(db, y);
      }
    }
    NoRowForFreshId(db, o);
    assert forall y | y in db.outbox :: db.outbox[y].job.occurrenceId != o;
  }

  lemma InsertQueuedCovers(db: Db, o: Id, row: OccurrenceRow, x: Id, box: OutboxRow)
    requires OccurrencesCovered(db) && KeysUnique(db) && o !in db.occurrences && x !in db.outbox && !Taken(db, row.key)
    requires OccurrenceCheck(row) && row.status.OccPending? && box.job.occurrenceId == o
    ensures OccurrencesCovered(PairInsert(db, o, row, x, box)) && KeysUnique(PairInsert(db, o, row, x, box))
  {
    var db' := PairInsert(db, o, row, x, box);
    assert db'.outbox[x].job.occurrenceId == o;
    forall p | p in db'.occurrences ensures Covered(db', p) {
      if p != o {
        assert Covered(db, p);
        if HasRow(db, p) {
          var y :| y in db.outbox && db.outbox[y].job.occurrenceId == p;
          assert db'.outbox[y].job.occurrenceId == p;
        }
      }
    }
  }

  lemma InsertPlanIsSafe(db: Db, id: Id, r: ScheduleRow, plan: Plan, open: bool, ids: (Id, Id))
    requires Coupled(db) && GoodPlan(plan) && ValidRetry(r.def.retry)
    requires ids.0 !in db.occurrences && ids.1 !in db.outbox
    ensures var db' := InsertPlan(db, id, r, plan, open, ids).0;
            && Coupled(db') && Evolves(db, db')
            && db'.occurrences.Keys <= db.occurrences.Keys + {ids.0}
            && db'.outbox.Keys <= db.outbox.Keys + {ids.1}
            && db'.schedules == db.schedules && db'.receipts == db.receipts
  {
    var p := Effective(plan, open);
    var row := NewOccurrence(id, r, p);
    var db1 := InsertOccurrence(db, id, r, p, ids.0).0;
    NoRowForFreshId(db, ids.0);
    if !Taken(db, row.key) && p.dispatch {
      assert !Queued(db1, r.tenant, ids.0);
      InsertQueuedIsSafe(db, ids.0, row, ids.1, InsertDispatch(db1, id, r, ids.0, p, ids.1).outbox[ids.1]);
    } else if !Taken(db, row.key) {
      InsertSkippedIsSafe(db, ids.0, row);
    }
  }

  lemma {:induction false} InsertPlansIsSafe(
    db: Db, id: Id, r: ScheduleRow, plans: seq<Plan>, open: bool, ids: seq<(Id, Id)>)
    requires Coupled(db) && ValidRetry(r.def.retry) && |plans| == |ids|
    requires forall i | 0 <= i < |plans| :: GoodPlan(plans[i])
    requires FreshIds(db, ids)
    ensures var db' := InsertPlans(db, id, r, plans, open, ids);
            && Coupled(db') && Evolves(db, db')
            && db'.schedules == db.schedules && db'.receipts == db.receipts
    decreases |plans|
  {
    if |plans| > 0 {
      var (db1, open1) := InsertPlan(db, id, r, plans[0], open, ids[0]);
      InsertPlanIsSafe(db, id, r, plans[0], open, ids[0]);
      InsertPlansIsSafe(db1, id, r, plans[1..], open1, ids[1..]);
      EvolvesTransitive(db, db1, InsertPlans(db, id, r, plans, open, ids));
    }
  }
}
