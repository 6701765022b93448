/** The identity a target sees: stable for one occurrence, different for different ones. */
module Identity {
  import opened Domain
  import opened Text
  import opened Planner
  import opened Tables
  import opened Protocol
  import opened Coupling
  import opened Invariant
  import opened Preservation
  import opened Runs

  const NUL: char := 0 as char

  /** The text whose digest becomes request id, idempotency key and trace id. */
  function Seed(tenant: string, id: Id, name: string, stamp: string): string {
    tenant + [NUL] + id + [NUL] + name + [NUL] + stamp
  }

  /** The seed of one request, its instant rendered by `stamp`. */
  function SeedOf(stamp: Instant -> string, w: OutboxRow): string {
    Seed(w.job.key.tenant, w.job.key.scheduleId, w.job.scheduleName, stamp(w.job.key.scheduledAt))
  }

  /** The separator occurs in no validated part, so the seed determines all four. */
  lemma SeedIsInjective(t1: string, i1: Id, n1: string, s1: string, t2: string, i2: Id, n2: string, s2: string)
    requires Seed(t1, i1, n1, s1) == Seed(t2, i2, n2, s2)
    requires NUL !in t1 && NUL !in t2 && NUL !in i1 && NUL !in i2 && NUL !in n1 && NUL !in n2
    ensures t1 == t2 && i1 == i2 && n1 == n2 && s1 == s2
  {
    assert Seed(t1, i1, n1, s1) == t1 + [NUL] + (i1 + [NUL] + (n1 + [NUL] + s1));
    assert Seed(t2, i2, n2, s2) == t2 + [NUL] + (i2 + [NUL] + (n2 + [NUL] + s2));
    FirstSeparator(NUL, t1, i1 + [NUL] + (n1 + [NUL] + s1), t2, i2 + [NUL] + (n2 + [NUL] + s2));
    FirstSeparator(NUL, i1, n1 + [NUL] + s1, i2, n2 + [NUL] + s2);
    FirstSeparator(NUL, n1, s1, n2, s2);
  }

  lemma ValidPartsAreSeparatorFree(s: State, id: Id)
    requires Inv(s) && id in s.issued
    ensures NUL !in id && NUL !in s.issued[id].tenant && NUL !in s.issued[id].name
  {
    assert OwnerOk(s, id);
  }

  lemma WorkPartsAreSeparatorFree(s: State, row: Id, work: OutboxRow)
    requires Inv(s) && WorkOk(s.db, row, work)
    ensures NUL !in work.job.key.tenant && NUL !in work.job.key.scheduleId && NUL !in work.job.scheduleName
  {
    PairFacts(s.db, row);
    assert OccurrenceOwned(s, work.job.occurrenceId);
    ValidPartsAreSeparatorFree(s, work.job.key.scheduleId);
  }

  /**
   * Every two requests for one occurrence, at any two moments of a run, carry the same seed, URL,
   * method and payload: those captured in its outbox row.
   */
  lemma IdentityIsStable(rec: Recurrence, run: Run, i: nat, a: nat, j: nat, b: nat, stamp: Instant -> string)
    requires ValidRun(rec, run) && i <= j < |run.states|
    requires a < |run.states[i].sends| && b < |run.states[j].sends|
    requires run.states[i].sends[a].work.job.occurrenceId == run.states[j].sends[b].work.job.occurrenceId
    ensures var v, w := run.states[i].sends[a].work, run.states[j].sends[b].work;
            && v.job == w.job && v.job.url == w.job.url && v.job.verb == w.job.verb && v.job.payload == w.job.payload
            && SeedOf(stamp, v) == SeedOf(stamp, w)
    ensures var x := run.states[j].sends[b].row;
            x in run.states[j].db.outbox && run.states[j].db.outbox[x].job == run.states[j].sends[b].work.job
  {
    InvHolds(rec, run, i);
    InvHolds(rec, run, j);
    assert SendOk(run.states[i], a);
    assert SendOk(run.states[j], b);
    OutboxRowIsMonotone(rec, run, i, j, run.states[i].sends[a].row);
  }

  /** Requests for different occurrences have different seeds, as soon as different instants render differently. */
  lemma DifferentOccurrencesDifferentSeeds(rec: Recurrence, run: Run, i: nat, a: nat, b: nat, stamp: Instant -> string)
    requires ValidRun(rec, run) && i < |run.states|
    requires a < |run.states[i].sends| && b < |run.states[i].sends|
    requires var v, w := run.states[i].sends[a].work.job, run.states[i].sends[b].work.job;
             && v.occurrenceId != w.occurrenceId
             && (stamp(v.key.scheduledAt) == stamp(w.key.scheduledAt) ==> v.key.scheduledAt == w.key.scheduledAt)
    ensures SeedOf(stamp, run.states[i].sends[a].work) != SeedOf(stamp, run.states[i].sends[b].work)
  {
    InvHolds(rec, run, i);
    SeedsDiffer(run.states[i], a, b, stamp);
  }

  lemma SeedsDiffer(s: State, a: nat, b: nat, stamp: Instant -> string)
    requires Inv(s) && a < |s.sends| && b < |s.sends|
    requires var v, w := s.sends[a].work.job, s.sends[b].work.job;
             && v.occurrenceId != w.occurrenceId
             && (stamp(v.key.scheduledAt) == stamp(w.key.scheduledAt) ==> v.key.scheduledAt == w.key.scheduledAt)
    ensures SeedOf(stamp, s.sends[a].work) != SeedOf(stamp, s.sends[b].work)
  {
    var v, w := s.sends[a].work, s.sends[b].work;
    assert SendOk(s, a);
    assert SendOk(s, b);
    PairFacts(s.db, s.sends[a].row);
    PairFacts(s.db, s.sends[b].row);
    WorkPartsAreSeparatorFree(s, s.sends[a].row, v);
    WorkPartsAreSeparatorFree(s, s.sends[b].row, w);
    if SeedOf(stamp, v) == SeedOf(stamp, w) {
      SeedIsInjective(v.job.key.tenant, v.job.key.scheduleId, v.job.scheduleName, stamp(v.job.key.scheduledAt),
                      w.job.key.tenant, w.job.key.scheduleId, w.job.scheduleName, stamp(w.job.key.scheduledAt));
    }
  }
}
