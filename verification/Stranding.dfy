/**
 * A run in which one worker id holds two copies of one row.  It ends in a late retry: the row waits
 * with no attempt left, so no worker can ever take it.
 */
module Stranding {
  import opened Domain
  import opened Planner
  import opened Tables
  import opened Protocol
  import opened Attempts
  import opened Liveness

  /** Any recurrence will do; the schedule has a once trigger. */
  const REC := Recurrence((rule: string, tz: string, at: Instant) => Some(at + 60000),
                          (rule: string, tz: string, anchor: Instant, at: Instant) => Some(at + 60000))

  const DEF := Definition(
    None, Some(10), "UTC", "https://target.example/run", Post, "{}", RetryPolicy(1, 1, 1, 1), FireOnce, 1, Forbid)
  const CMD := Command(Create, "t", "n", "scope", "key", "digest", "request", DEF, Active)
  const NEW := NewSchedule("t", "n", DEF, Active, Some(10))
  const CLAIMED := ClaimSchedule(NEW, "w", 50)
  const RECEIPT := Receipt("digest", "request", Registered, "n", Some(NEW), 0)
  const KEY := ReceiptKey("t", "scope", "key")
  const PLAN := DispatchPlan(10, 10)
  const OCCURRENCE := NewOccurrence("a", CLAIMED, PLAN)
  const BOX := OutboxRow(NewJob("a", CLAIMED, PLAN, "b"), BoxPending, 0, 10, None, None, None, NO_REPORT, None)
  const FIRST := ClaimedRow(BOX, "w", 100)
  const SECOND := ClaimedRow(BOX, "w", 300)
  const BEGUN := BegunRow(SECOND, 200)
  const OWNERS: map<Id, Owner> := map["a" := Owner("t", "n")]
  const RECEIPTS: map<ReceiptKey, Receipt> := map[KEY := RECEIPT]
  const DONE := Advanced(CLAIMED, None)
  const DEFERRED := DeferVerdict(210, CoordinationContended, "")

  const PLANNER := PlannerTask("w", "a", CLAIMED, 10, None)
  const DISPATCHING := OCCURRENCE.(status := OccDispatching, attempts := 1)
  const RETRYING := TransitionedOccurrence(DISPATCHING, 0, DEFERRED)
  const STRANDED := TransitionedRow(BEGUN, DEFERRED)
  const EARLIER := DispatchTask("w", "c", FIRST, Claimed)
  const LATER := DispatchTask("w", "c", SECOND, Claimed)
  const LATER_BEGUN := DispatchTask("w", "c", BEGUN, Begun)
  const PLANNED := Db(map["a" := DONE], map["b" := OCCURRENCE], map["c" := BOX], RECEIPTS)

  const S0 := State(Db(map[], map[], map[], map[]), map[], map[], map[], map[], [])
  const S1 := S0.(commands := map[0 := CommandTask(CMD, 0, NotRead)])
  const S2 := State(Db(map["a" := NEW], map[], map[], RECEIPTS), OWNERS, map[], map[], map[], [])
  const S3 := S2.(db := S2.db.(schedules := map["a" := CLAIMED]), planners := map[0 := PLANNER])
  const S4 := S3.(planners := map[0 := PLANNER.(open := Some(false))])
  const S5 := State(PLANNED, OWNERS, map[], map[], map[], [])
  const S6 := S5.(db := S5.db.(outbox := map["c" := FIRST]), dispatchers := map[1 := EARLIER])
  const S7 := S6.(db := S6.db.(outbox := map["c" := SECOND]), dispatchers := map[1 := EARLIER, 2 := LATER])
  const S8 := S7.(db := S7.db.(outbox := map["c" := BEGUN], occurrences := map["b" := DISPATCHING]),
                  dispatchers := map[1 := EARLIER, 2 := LATER_BEGUN])
  const S9 := S8.(db := S8.db.(outbox := map["c" := STRANDED], occurrences := map["b" := RETRYING]),
                  dispatchers := map[2 := LATER_BEGUN])

  lemma Step0()
    ensures Next(REC, S0, StartCommand(0, CMD, 0), S1)
  {
    assert Prepared(CMD);
  }

  lemma Step1()
    ensures Next(REC, S1, CommitCommand(0, "a", 0), S2)
  {
    assert ApplyCommand(REC, S1.db, S1.commands[0], "a")
      == Applied(Db(map["a" := NEW], map[], map[], map[]), Registered, Some(NEW));
    assert S1.commands - {0} == map[];
  }

  lemma Step2()
    ensures Next(REC, S2, ClaimDue(0, "w", "a", 10, 50), S3)
  {
  }

  lemma Step3()
    ensures Next(REC, S3, ReadOpen(0), S4)
  {
    assert PlanOf(REC, S3.planners[0]) == Planned([PLAN], None);
  }

  lemma Step4()
    ensures Next(REC, S4, CommitPlan(0, [("b", "c")]), S5)
  {
    var p := S4.planners[0];
    assert PlanOf(REC, p) == Planned([PLAN], None);
    var db1 := S4.db.(occurrences := map["b" := OCCURRENCE], outbox := map["c" := BOX]);
    assert InsertPlan(S4.db, "a", CLAIMED, PLAN, false, ("b", "c")) == (db1, true);
    assert InsertPlans(S4.db, "a", CLAIMED, [PLAN], false, [("b", "c")]) == db1;
    assert S4.planners - {0} == map[];
  }

  lemma Step5()
    ensures Next(REC, S5, ClaimDispatch(1, "w", "c", 20, 100), S6)
  {
  }

  lemma Step6()
    ensures Next(REC, S6, ClaimDispatch(2, "w", "c", 150, 300), S7)
  {
  }

  lemma LaterCopyBegins()
    ensures DoBegin(S7, 2, 200, true) == S8
  {
  }

  lemma Step7()
    ensures Next(REC, S7, BeginAttempt(2, 200, true), S8)
  {
    LaterCopyBegins();
  }

  lemma EarlierCopyDefers()
    ensures DoTransition(S8, 1, DEFERRED) == S9
  {
    assert S8.dispatchers - {1} == S9.dispatchers;
  }

  lemma Step8()
    ensures Next(REC, S8, DeferAttempt(1, 210, CoordinationContended, ""), S9)
  {
    EarlierCopyDefers();
  }

  const STRANDING := Run(
    [S0, S1, S2, S3, S4, S5, S6, S7, S8, S9],
    [StartCommand(0, CMD, 0), CommitCommand(0, "a", 0),
     ClaimDue(0, "w", "a", 10, 50), ReadOpen(0), CommitPlan(0, [("b", "c")]),
     ClaimDispatch(1, "w", "c", 20, 100), ClaimDispatch(2, "w", "c", 150, 300),
     BeginAttempt(2, 200, true), DeferAttempt(1, 210, CoordinationContended, "")])

  lemma StrandingIsRun()
    ensures ValidRun(REC, STRANDING)
  {
    Step0();
    Step1();
    Step2();
    Step3();
    Step4();
    Step5();
    Step6();
    Step7();
    Step8();
  }

  /** The row waits for a retry, has used its only attempt, and no clock makes it claimable or recoverable. */
  lemma StrandedWithoutOneCopy()
    ensures ValidRun(REC, STRANDING) && !OneCopy(STRANDING.states[7])
    ensures LateRetryAt(STRANDING, 8, "c") && Stuck(STRANDING.states[9], "c")
    ensures !Agrees(STRANDING.states[9].db, "c")
    ensures var r := STRANDING.states[9].db.outbox["c"];
            && r.status.BoxRetrying? && r.attempts == r.job.retry.maxAttempts
            && forall now :: !Claimable(r, now) && !Recoverable(r, now)
  {
    StrandingIsRun();
    assert S7.dispatchers[1].row == S7.dispatchers[2].row;
  }
}
