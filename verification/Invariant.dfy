/** The invariant every reachable state satisfies, whatever workers, clocks and crashes do. */
module Invariant {
  import opened Domain
  import opened Tables
  import opened Protocol
  import opened Coupling

  // ---- Schedules -------------------------------------------------------------------------------

  /** Equal up to the claim columns. */
  predicate SameButClaim(a: ScheduleRow, b: ScheduleRow) {
    a.(claimOwner := b.claimOwner, claimExpires := b.claimExpires) == b
  }

  ghost predicate RowOk(s: State, id: Id)
    requires id in s.db.schedules
  {
    var r := s.db.schedules[id];
    ScheduleCheck(r) && id in s.issued && s.issued[id] == Owner(r.tenant, r.name)
  }

  ghost predicate OwnerOk(s: State, id: Id)
    requires id in s.issued
  {
    IsUuid(id) && ValidTenant(s.issued[id].tenant) && ValidName(s.issued[id].name)
  }

  /** UNIQUE (tenant_id, name). */
  ghost predicate NamesUnique(db: Db) {
    forall a, b | a in db.schedules && b in db.schedules ::
      db.schedules[a].tenant == db.schedules[b].tenant && db.schedules[a].name == db.schedules[b].name ==> a == b
  }

  ghost predicate OccurrenceOwned(s: State, o: Id)
    requires o in s.db.occurrences
  {
    var r := s.db.occurrences[o];
    && r.key.scheduleId in s.issued
    && s.issued[r.key.scheduleId] == Owner(r.key.tenant, r.scheduleName)
  }

  ghost predicate SchedulesOk(s: State) {
    && (forall id {:trigger RowOk(s, id)} | id in s.db.schedules :: RowOk(s, id))
    && (forall id {:trigger OwnerOk(s, id)} | id in s.issued :: OwnerOk(s, id))
    && NamesUnique(s.db)
  }

  ghost predicate OccurrencesOwned(s: State) {
    forall o {:trigger OccurrenceOwned(s, o)} | o in s.db.occurrences :: OccurrenceOwned(s, o)
  }

  // ---- Local copies ----------------------------------------------------------------------------

  /** A copied schedule row: never newer than the table, and unchanged while the version is. */
  ghost predicate SnapshotOk(s: State, id: Id, snapshot: ScheduleRow) {
    && id in s.issued && s.issued[id] == Owner(snapshot.tenant, snapshot.name)
    && ScheduleCheck(snapshot)
    && (id in s.db.schedules ==>
          && snapshot.version <= s.db.schedules[id].version
          && (snapshot.version == s.db.schedules[id].version ==> SameButClaim(snapshot, s.db.schedules[id])))
  }

  ghost predicate PlannerOk(s: State, k: nat)
    requires k in s.planners
  {
    var p := s.planners[k];
    && SnapshotOk(s, p.id, p.snapshot)
    && p.snapshot.status.Active? && p.snapshot.nextDue.Some? && p.snapshot.nextDue.value <= p.now
  }

  ghost predicate CommandOk(s: State, k: nat)
    requires k in s.commands
  {
    var t := s.commands[k];
    && Prepared(t.cmd) && IdentityOf(t.cmd) !in s.db.receipts
    && (t.current.Found? ==>
          SnapshotOk(s, t.current.id, t.current.row) && Named(t.current.row, t.cmd.tenant, t.cmd.name))
  }

  /** The identity lock: no two transactions work on the same receipt key. */
  ghost predicate IdentitiesLocked(s: State) {
    forall j, k | j in s.commands && k in s.commands ::
      IdentityOf(s.commands[j].cmd) == IdentityOf(s.commands[k].cmd) ==> j == k
  }

  /** A copied outbox row: same job, an attempt that was reached, the one first attempt. */
  ghost predicate WorkOk(db: Db, row: Id, work: OutboxRow) {
    && row in db.outbox
    && work.job == db.outbox[row].job && ValidRetry(work.job.retry)
    && 0 <= work.attempts <= db.outbox[row].attempts && work.attempts <= work.job.retry.maxAttempts
    && (work.firstAttemptAt.Some? ==> db.outbox[row].firstAttemptAt == work.firstAttemptAt)
  }

  ghost predicate DispatcherOk(s: State, k: nat)
    requires k in s.dispatchers
  {
    var t := s.dispatchers[k];
    && WorkOk(s.db, t.row, t.work)
    && (t.phase.Claimed? ==> t.work.attempts < t.work.job.retry.maxAttempts)
    && (!t.phase.Claimed? ==> 1 <= t.work.attempts && t.work.firstAttemptAt.Some?)
  }

  ghost predicate SendOk(s: State, i: nat)
    requires i < |s.sends|
  {
    WorkOk(s.db, s.sends[i].row, s.sends[i].work) && 1 <= s.sends[i].work.attempts
  }

  ghost predicate TasksOk(s: State) {
    && (forall k {:trigger PlannerOk(s, k)} | k in s.planners :: PlannerOk(s, k))
    && (forall k {:trigger CommandOk(s, k)} | k in s.commands :: CommandOk(s, k))
    && (forall k {:trigger DispatcherOk(s, k)} | k in s.dispatchers :: DispatcherOk(s, k))
    && (forall i: nat {:trigger SendOk(s, i)} | i < |s.sends| :: SendOk(s, i))
    && IdentitiesLocked(s)
  }

  ghost predicate Inv(s: State) {
    Coupled(s.db) && SchedulesOk(s) && OccurrencesOwned(s) && TasksOk(s)
  }

  // ---- Evolution of schedules ------------------------------------------------------------------

  ghost predicate RowEvolves(s: State, t: State, id: Id)
    requires id in t.db.schedules
  {
    if id in s.db.schedules then
      && s.db.schedules[id].version <= t.db.schedules[id].version
      && (s.db.schedules[id].version == t.db.schedules[id].version ==>
            SameButClaim(s.db.schedules[id], t.db.schedules[id]))
    else id !in s.issued
  }

  /** Identifiers keep their owner and never come back; a row changes only together with its version. */
  ghost predicate SchedulesEvolve(s: State, t: State) {
    && (forall id | id in s.issued :: id in t.issued && t.issued[id] == s.issued[id])
    && (forall id {:trigger RowEvolves(s, t, id)} | id in t.db.schedules :: RowEvolves(s, t, id))
  }

  lemma SnapshotIsStable(s: State, t: State, id: Id, snapshot: ScheduleRow)
    requires SnapshotOk(s, id, snapshot) && SchedulesEvolve(s, t)
    ensures SnapshotOk(t, id, snapshot)
  {
    if id in t.db.schedules {
      assert RowEvolves(s, t, id);
    }
  }

  lemma WorkIsStable(a: Db, b: Db, row: Id, work: OutboxRow)
    requires WorkOk(a, row, work) && Evolves(a, b)
    ensures WorkOk(b, row, work)
  {
  }

  /** Copies that a step leaves alone stay right. */
  lemma CopiesStayOk(s: State, t: State)
    requires TasksOk(s) && SchedulesEvolve(s, t) && Evolves(s.db, t.db)
    ensures forall k {:trigger PlannerOk(t, k)} | k in t.planners && k in s.planners
              && t.planners[k] == s.planners[k] :: PlannerOk(t, k)
    ensures forall k {:trigger DispatcherOk(t, k)} | k in t.dispatchers && k in s.dispatchers
              && t.dispatchers[k] == s.dispatchers[k] :: DispatcherOk(t, k)
    ensures forall i: nat {:trigger SendOk(t, i)} | i < |t.sends| && i < |s.sends| && t.sends[i] == s.sends[i] ::
              SendOk(t, i)
  {
    forall k | k in t.planners && k in s.planners && t.planners[k] == s.planners[k] ensures PlannerOk(t, k) {
      assert PlannerOk(s, k);
      SnapshotIsStable(s, t, s.planners[k].id, s.planners[k].snapshot);
    }
    forall k | k in t.dispatchers && k in s.dispatchers && t.dispatchers[k] == s.dispatchers[k]
      ensures DispatcherOk(t, k) {
      assert DispatcherOk(s, k);
      WorkIsStable(s.db, t.db, s.dispatchers[k].row, s.dispatchers[k].work);
    }
    forall i: nat | i < |t.sends| && i < |s.sends| && t.sends[i] == s.sends[i] ensures SendOk(t, i) {
      assert SendOk(s, i);
      WorkIsStable(s.db, t.db, s.sends[i].row, s.sends[i].work);
    }
  }

  lemma CommandsStayOk(s: State, t: State)
    requires TasksOk(s) && SchedulesEvolve(s, t)
    ensures forall k {:trigger CommandOk(t, k)} | k in t.commands && k in s.commands && t.commands[k] == s.commands[k]
              && IdentityOf(s.commands[k].cmd) !in t.db.receipts :: CommandOk(t, k)
    ensures forall k {:trigger CommandOk(s, k)} | k in s.commands :: IdentityOf(s.commands[k].cmd) !in s.db.receipts
  {
    forall k | k in t.commands && k in s.commands && t.commands[k] == s.commands[k]
      && IdentityOf(s.commands[k].cmd) !in t.db.receipts
      ensures CommandOk(t, k)
    {
      assert CommandOk(s, k);
      if s.commands[k].current.Found? {
        SnapshotIsStable(s, t, s.commands[k].current.id, s.commands[k].current.row);
      }
    }
    forall k | k in s.commands ensures IdentityOf(s.commands[k].cmd) !in s.db.receipts {
      assert CommandOk(s, k);
    }
  }

  lemma OwnershipIsStable(s: State, t: State)
    requires OccurrencesOwned(s) && SchedulesEvolve(s, t) && Evolves(s.db, t.db)
    requires t.db.occurrences.Keys == s.db.occurrences.Keys
    ensures OccurrencesOwned(t)
  {
    forall o | o in t.db.occurrences ensures OccurrenceOwned(t, o) {
      assert OccurrenceOwned(s, o);
    }
  }
}
