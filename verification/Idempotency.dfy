/** Commands are idempotent over whole runs. */
module Idempotency {
  import opened Domain
  import opened Planner
  import opened Tables
  import opened Protocol
  import opened Invariant
  import opened Preservation

  /** What Execute answers before it applies anything. */
  datatype Answer = Unknown | Replay(receipt: Receipt) | IdempotencyConflict

  function Lookup(db: Db, key: ReceiptKey, digest: string): Answer {
    if key !in db.receipts then Unknown
    else if db.receipts[key].digest != digest then IdempotencyConflict
    else Replay(db.receipts[key])
  }

  ghost predicate ReceiptsGrow(a: Db, b: Db) {
    forall k | k in a.receipts :: k in b.receipts && b.receipts[k] == a.receipts[k]
  }

  lemma StepGrowsReceipts(rec: Recurrence, s: State, step: Step, t: State)
    requires Inv(s) && Next(rec, s, step, t)
    ensures ReceiptsGrow(s.db, t.db)
  {
    if step.CommitCommand? {
      assert CommandOk(s, step.task);
      CommandLeavesDispatch(rec, s, step.task, step.newId, step.createdAt);
    } else if step.CommitPlan? {
      InsertedIsSafe(rec, s, step.task, step.ids);
    } else {
      StepKeeps(rec, s, step, t);
    }
  }

  lemma {:induction false} ReceiptsAreImmutable(rec: Recurrence, run: Run, i: nat, j: nat)
    requires ValidRun(rec, run) && i <= j < |run.states|
    ensures ReceiptsGrow(run.states[i].db, run.states[j].db)
    decreases j - i
  {
    if i < j {
      InvHolds(rec, run, i);
      assert StepAt(rec, run, i);
      StepGrowsReceipts(rec, run.states[i], run.steps[i], run.states[i + 1]);
      ReceiptsAreImmutable(rec, run, i + 1, j);
    }
  }

  /**
   * A committed receipt answers every later request with its key: the same digest is replayed with
   * exactly that receipt, another digest is refused, and no transaction for the key is or can get
   * under way, so no table changes for it again.
   */
  lemma ReplayIsStable(rec: Recurrence, run: Run, i: nat, j: nat, key: ReceiptKey, digest: string)
    requires ValidRun(rec, run) && i <= j < |run.states| && key in run.states[i].db.receipts
    ensures Lookup(run.states[j].db, key, digest) ==
              if digest == run.states[i].db.receipts[key].digest
              then Replay(run.states[i].db.receipts[key]) else IdempotencyConflict
    ensures forall k | k in run.states[j].commands :: IdentityOf(run.states[j].commands[k].cmd) != key
    ensures forall task, cmd | IdentityOf(cmd) == key :: !CanStartCommand(run.states[j], task, cmd)
  {
    ReceiptsAreImmutable(rec, run, i, j);
    InvHolds(rec, run, j);
    IdentitiesUnused(run.states[j]);
  }

  /** A command commit either changes nothing at all or comes with a receipt for its own, unused key. */
  lemma EffectAndReceiptTogether(rec: Recurrence, s: State, task: nat, newId: Id, createdAt: Instant)
    requires Inv(s) && CanCommitCommand(s, task, newId)
    ensures var t := DoCommitCommand(rec, s, task, newId, createdAt);
            var c := s.commands[task];
            var o := ApplyCommand(rec, s.db, c, newId);
            && IdentityOf(c.cmd) !in s.db.receipts
            && (IdentityOf(c.cmd) !in t.db.receipts ==> t.db == s.db && t.issued == s.issued)
            && (IdentityOf(c.cmd) in t.db.receipts <==> o.Applied?)
            && (o.Applied? ==> Lookup(t.db, IdentityOf(c.cmd), c.cmd.digest) == Replay(ReceiptOf(c.cmd, o, createdAt)))
            && (o.Applied? && o.row.None? && !o.code.Deleted? ==> t.db.schedules == s.db.schedules)
            && task !in t.commands
  {
    assert CommandOk(s, task);
    if ApplyCommand(rec, s.db, s.commands[task], newId).Applied? {
      OutcomeLeavesDispatch(rec, s.db, s.commands[task], newId);
    }
  }

  /** Step i commits a command, with a receipt, for `key`. */
  ghost predicate CommitsFor(rec: Recurrence, run: Run, i: nat, key: ReceiptKey)
    requires ValidRun(rec, run) && i < |run.steps|
  {
    && run.steps[i].CommitCommand?
    && run.steps[i].task in run.states[i].commands
    && IdentityOf(run.states[i].commands[run.steps[i].task].cmd) == key
    && ApplyCommand(rec, run.states[i].db, run.states[i].commands[run.steps[i].task], run.steps[i].newId).Applied?
  }

  lemma CommitLeavesReceipt(rec: Recurrence, run: Run, i: nat, key: ReceiptKey)
    requires ValidRun(rec, run) && i < |run.steps| && CommitsFor(rec, run, i, key)
    ensures key !in run.states[i].db.receipts && key in run.states[i + 1].db.receipts
  {
    InvHolds(rec, run, i);
    assert StepAt(rec, run, i);
    EffectAndReceiptTogether(rec, run.states[i], run.steps[i].task, run.steps[i].newId, run.steps[i].createdAt);
  }

  /** Per (tenant, scope, key) a run commits at most one command. */
  lemma CommandAppliesOnce(rec: Recurrence, run: Run, i: nat, j: nat, key: ReceiptKey)
    requires ValidRun(rec, run) && i < |run.steps| && j < |run.steps|
    requires CommitsFor(rec, run, i, key) && CommitsFor(rec, run, j, key)
    ensures i == j
  {
    CommitLeavesReceipt(rec, run, i, key);
    CommitLeavesReceipt(rec, run, j, key);
    if i < j {
      ReceiptsAreImmutable(rec, run, i + 1, j);
    } else if j < i {
      ReceiptsAreImmutable(rec, run, j + 1, i);
    }
  }
}
