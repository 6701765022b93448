# A verified model of the durable scheduler

The scheduler keeps four PostgreSQL tables: schedules, occurrences, a dispatch outbox and command
receipts. Any number of planners, dispatchers and command handlers change them through short Read
Committed transactions. Rows are read without locks first and written back under a guard: a version, a
claim owner, a status. This project models that protocol as a step system, models the recurrence and
retry arithmetic that feeds it, and proves what holds over every run.

`dafny verify dfyconfig.toml` checks the whole project.

## How the model is built

| module | what it holds |
|---|---|
| `Domain`, `Tables` | values, rows, CHECK constraints, one function per SQL statement |
| `Planner`, `Retry` | misfire policies and bounded catch-up, backoff and the retry decision |
| `Protocol` | the state, the sixteen steps, runs |
| `Coupling`, `Invariant`, `Preservation` | the invariant that every step keeps |
| `Runs`, `OverlapSafety`, `OnceTriggers`, `Idempotency`, `Attempts`, `Progress`, `Identity` | what follows for whole runs |
| `Materialization`, `Outcomes`, `CommandEffects` | what every commit writes, column by column, told by the rows before and after it |
| `Timing` | that no row is taken before its time or from under a live claim |
| `Liveness`, `Completion`, `Stranding` | exactly when dispatch work gets stuck, that all other work can be done, and a run that strands a row |
| `Text`, `Calendar`, `CronFields`, `ItemGrammar`, `Cron`, `Descriptors`, `Calculator` | text handling, the Gregorian calendar, cron fields and their grammar, rules and descriptors, `Next` and `NextAfter` |
| `Stamp` | the RFC 3339 text inside a seed |
| `Preparation` | defaults and validation of a request |
| `Jumps` | planning with the calculator's own port: what its 64-bit arithmetic does to due instants |
| `Batches` | statements over many rows as sequences of single-row steps |
| `Store` | the transactional store as a class and the methods that drive it, proved against the functions of `Tables` and `Protocol`; its one-row methods are the table functions written as updates in place |

Reading the statements:

- A *run* is any finite sequence of steps from the empty database. A claim, an unlocked read and a guarded
  commit are separate steps, so every interleaving of planners, dispatchers and commands is a run. A crash
  is a `Drop…` step. A commit whose acknowledgement is lost matters for the begin of an attempt only, and is
  the flag of `BeginAttempt`.
- Every clock reading is a parameter of its step: clocks may disagree and go back.
- A transaction's inserts take effect with its guarded commit. Rows of the occurrence and outbox tables are
  never deleted, so a key that conflicts at the insert still conflicts at the commit, and a key that is free
  can be taken meanwhile only by a transaction that waits for this one.
- A statement over many rows is a sequence of single-row steps, which allows more interleavings than the
  database does; `Store.PlannerClaims` and `Store.DispatcherClaims` tie the claiming transactions of both
  workers to such sequences.
- The advisory lock of a command is the condition that no two running commands have the same identity.
- The recurrence port is arbitrary: almost every result about runs holds whatever it returns. The only ones that
  need something of it are those about the order of due instants, and they ask for it at the calls made:
  `Calculator.RecurrenceOf` is the code's own port, with its 64-bit interval arithmetic, and `Jumps` says exactly
  when those calls do what is asked.
- Instants are integer milliseconds, "no instant" is `None`, identifiers are texts that are never issued twice.

Where a promise needs a condition, the project gives it:

- Dispatch results are fenced by the worker id alone, so work can get stuck. A step strands a row if and only
  if it is a *late retry*: a deferral or retry, let through by the owner and status guard, of a row whose
  attempts have reached max_attempts (`StrandingIsExact`, and `StrandedIffLateRetry` for runs). That is the
  guard `transitionDispatch` lacks; only a worker whose copy missed an attempt can do it (`LateRetryIsStale`).
  Every other open row is claimable or recoverable in time (`NoStrandedWork`) and can be finished
  (`CanFinishIffNoLateRetry`). One live copy per worker id rules late retries out (`OneCopySuffices`);
  `StrandedWithoutOneCopy` is a run of nine steps that strands a row, and `StuckForever` shows that nothing
  ever moves such a row again.
- For the same reason occurrence and outbox can differ in their attempt counts: they agree up to some moment
  if and only if every result written so far carried the row's own count (`CountsAgreeExactly`).
- A retry instant is chosen strictly before the end of the window, but the column keeps milliseconds: the
  stored instant is before the end exactly if the chosen one is more than half a millisecond before it
  (from 2000 on; halves before it are rounded the other way; `StoredRetryIsBounded`, with a concrete input in
  `StoredRetryCanReachDeadline`).
- `retryBackoff` divides by a shifted one. It is defined exactly when the cap already applies or the attempt
  number is at most 64 (`BackoffIsCappedPower`); stored attempt numbers are at most 10.
- The closed form for `@every` uses 64-bit nanoseconds: it is exact if and only if the distance it adds
  is at most 2^63 - 1 nanoseconds, and lies before its anchor otherwise (`MachineIntervalIsExact`, with a
  concrete input in `MachineIntervalCanGoBack`). So a plan leaves its schedule due past now if and only if the jump
  it makes over missed instants fits (`PlanMovesPastIffItFits`, with a failing plan in `LatePlanGoesBack`).
- In-flight HTTP attempts may overlap, and an attempt may begin after the retry window has ended. The code
  allows both and nothing here says otherwise.

## Model

| member | source | states |
|---|---|---|
| `Runs.TablesStayCoupled` | internal/adapters/postgres/outbox.go:12-180 | in every reachable state a skipped occurrence has no outbox row, any other has exactly one with the same tenant, schedule and instant, and the two statuses form an allowed pair |
| `Runs.TerminalOccurrenceIsFinal` | internal/adapters/postgres/outbox.go:164-172 | a terminal occurrence never changes again in a run, although occurrence updates test no status |
| `Runs.OutboxRowIsMonotone` | internal/adapters/postgres/outbox.go:75-180 | a terminal outbox row never changes again; every row keeps its job and its first attempt, and attempts only grow |
| `Runs.ScheduleChecksHold` | database/schema.sql:25-56 | every schedule row of every reachable state satisfies the CHECKs (exhausted, next due and run_at, claim pairing, no claim on paused or exhausted rows) and names stay unique, without the database rejecting anything |
| `Runs.VersionConsumedOnce` | internal/adapters/postgres/due.go:97-112 | two committed advances, replaces, pauses or resumes of one schedule id consumed strictly increasing versions; as ids are not reused this fences delete-and-recreate too |
| `Runs.ConsumptionMovesVersion` | internal/adapters/postgres/commands.go:86-144 | a consuming step finds exactly the version it was based on, replaces it by the next one, and touches no other schedule |
| `Runs.PlanMovesVersion` | internal/adapters/postgres/due.go:97-112 | the same for a committed materialization |
| `Runs.CommandMovesVersion` | internal/adapters/postgres/commands.go:86-144 | the same for a committed replace, pause or resume |
| `Runs.LosingPlannerLeavesNothing` | internal/adapters/postgres/store.go:62-75 | a planner's commit changes the tables if and only if its schedule is still at its version and under its claim |
| `Runs.OutboxCapturesDefinition` | internal/adapters/postgres/due.go:78-95 | every outbox row was committed at some step of the run and holds the URL, method, payload, retry policy and name the schedule had right then |
| `Runs.NewRowCaptures` | internal/adapters/postgres/due.go:78-95 | the same for the one step that adds the row |
| `OverlapSafety.ForbidMeansAtMostOneOpen` | internal/application/planner.go:67-98 | a schedule that always forbids overlap has at most one open occurrence in every reachable state, however planners, expired claims and catch-up loops race |
| `OverlapSafety.StepKeepsOverlap` | internal/application/planner.go:67-98 | every step keeps: at most one open, and a planner that saw none open and whose version is still current is still right |
| `OverlapSafety.ReadSeesTruth` | internal/adapters/postgres/due.go:44-54 | the unlocked open check establishes that belief |
| `OverlapSafety.InsertKeepsOne` | internal/application/planner.go:76-96 | the insert loop over several plans opens at most one occurrence under forbid |
| `OnceTriggers.InstantFiresAtMostOnce` | internal/adapters/postgres/due.go:56-76 | one schedule id and instant have at most one occurrence in every reachable state, whatever the clocks do |
| `OnceTriggers.ExhaustedIsNeverRevived` | internal/application/commands.go:159-230 | an exhausted once schedule stays exhausted with no next due instant and gets no further occurrence, through any run whose edits keep its run_at |
| `OnceTriggers.OutcomeNeverRevives` | internal/application/commands.go:144-234 | no single command outcome on an exhausted row revives it at the same run_at |
| `OnceTriggers.UsedUpPlansNothing` | internal/adapters/postgres/due.go:97-112 | no planner can commit for an exhausted or deleted schedule |
| `OnceTriggers.DifferentTriggerRearms` | internal/application/commands.go:159-175 | a replace with another run_at or a recurring rule arms the row at exactly the instant the trigger names, and changes nothing if it names none |
| `CommandEffects.PauseEffect` | internal/application/commands.go:201-230 | a pause leaves its schedule paused and unclaimed with definition and due instant as they were, or writes nothing and answers why |
| `CommandEffects.ResumeEffect` | internal/application/commands.go:201-230 | a resume leaves its schedule active at run_at or at the next instant of its rule, or fails without one |
| `CommandEffects.PausedStaysQuiet` | internal/adapters/postgres/commands.go:125-144 | over every run, from a pause until a resume or replace commits, no planner claims the schedule and it gets no new occurrence, whatever claims were under way |
| `CommandEffects.QuietPlansNothing` | internal/adapters/postgres/due.go:97-112 | a planner whose claim a pause has cleared loses |
| `CommandEffects.CreateEffect` | internal/adapters/postgres/commands.go:61-84 | a create adds exactly the requested schedule at the instant its trigger names, or nothing if the name is taken |
| `CommandEffects.ReplaceEffect` | internal/application/commands.go:148-194 | a replace writes the new definition; the same run_at keeps what was consumed, anything else arms the schedule anew or is refused |
| `CommandEffects.DeleteEffect` | internal/adapters/postgres/commands.go:113-123 | a delete removes the schedule of that tenant and name and no other |
| `CommandEffects.ReadIsExact` | internal/adapters/postgres/commands.go:146-155 | a command reads the schedule it names as it stands, or finds that there is none |
| `Idempotency.ReceiptsAreImmutable` | internal/adapters/postgres/commands.go:19-59 | a receipt present at one moment of a run is present and equal at every later one |
| `Idempotency.ReplayIsStable` | internal/application/commands.go:72-86 | once a receipt exists, the same digest is answered with it at any later time, another digest is a conflict, and no transaction for the key can get under way |
| `Idempotency.EffectAndReceiptTogether` | internal/application/commands.go:88-107 | a command that leaves no receipt has changed nothing; one that leaves a receipt leaves the one that answers its replay |
| `Idempotency.CommandAppliesOnce` | internal/application/commands.go:66-107 | per tenant, scope and key a run commits at most one command |
| `Attempts.SendsAreBounded` | internal/application/dispatcher.go:113-134 | requests sent for an occurrence never exceed its attempt count, which never exceeds max_attempts, over crashes, lost acknowledgements, reclaimed rows and stale workers |
| `Attempts.SendInvHolds` | internal/adapters/postgres/outbox.go:75-105 | every begun attempt of a row has its own number, and each number is sent at most once |
| `Attempts.RetriesShareOneWindow` | internal/application/dispatcher.go:171-197 | every retry is chosen in [now, first_attempt_at + window) for one first_attempt_at that no later moment of the run changes |
| `Outcomes.ResultIsRecorded` | internal/application/dispatcher.go:161-203 | in terms of result, clock and draw alone: succeeded exactly on a 2xx without error, retrying at the rounded now plus draw exactly when a retry is due, failed otherwise, with the matching occurrence status, completion and report in both tables; nothing if the owner and status guard stops the write |
| `Outcomes.RetryableIsExact` | internal/domain/occurrence.go:118-129 | which results may be tried again |
| `Outcomes.DeferralIsRecorded` | internal/application/dispatcher.go:91-104 | a deferral sends the row back for one second, counts no attempt and completes nothing |
| `Outcomes.BeginIsRecorded` | internal/adapters/postgres/outbox.go:75-105 | an attempt is counted in both tables, and the first one dated, if and only if the claim is the worker's own and live and an attempt is left; the claim is not prolonged |
| `Outcomes.ClaimIsRecorded` | internal/adapters/postgres/outbox.go:54-58 | a claim writes status, owner and expiry of its row and nothing else |
| `Outcomes.RecoveryIsRecorded` | internal/adapters/postgres/outbox.go:12-38 | a recovered row and its occurrence are failed with the recovery code; attempts and the last HTTP status stay |
| `Timing.NextAttemptWaits` | internal/adapters/postgres/outbox.go:45-49 | over every run, between a retry or deferral until some instant and the next begun attempt of the row there is a claim whose clock reads at least that instant |
| `Timing.FirstAttemptWaits` | internal/adapters/postgres/outbox.go:45-49 | the same for a row that has waited since it was queued |
| `Timing.SentBackUntil` | internal/application/dispatcher.go:190-196 | that instant is the rounded now plus draw for a retry, and now plus one second for a deferral |
| `Timing.ClaimWaits` | internal/adapters/postgres/outbox.go:45-49 | a waiting row is claimed only in its time, a claimed one only after its expiry, none after its last attempt |
| `Timing.ClaimIsRespected` | internal/adapters/postgres/outbox.go:45-49 | over every run, while the holder has written no result, the next claim or the recovery of the row comes at a clock reading not before the expiry |
| `Timing.RecoveryWaits` | internal/adapters/postgres/outbox.go:21-23 | only a row that spent its last attempt under a claim that has run out is given up |
| `Timing.DueClaimWaits` | internal/adapters/postgres/due.go:12-42 | a schedule is claimed only while active and due and not from under a live claim |
| `Timing.ReleaseClears` | internal/adapters/postgres/due.go:114-128 | a release takes away the worker's own claim and nothing else |
| `Liveness.NoStrandedWork` | internal/adapters/postgres/outbox.go:12-73 | in every run an open row is claimable or recoverable from its due time or claim expiry on, if and only if no late retry of it was ever written |
| `Liveness.StrandingIsExact` | internal/adapters/postgres/outbox.go:147-154 | a step strands a row if and only if it is a deferral or retry let through by the owner and status guard on a row whose attempts have reached max_attempts |
| `Liveness.StrandedIffLateRetry` | internal/adapters/postgres/outbox.go:147-154 | over every run a row is stuck if and only if some earlier step was such a write to it |
| `Liveness.LateRetryIsStale` | internal/application/dispatcher.go:168-170 | a late retry comes only from a worker whose copy has fewer attempts than the row |
| `Liveness.CountsAgreeExactly` | internal/adapters/postgres/outbox.go:164-172 | occurrence and outbox agree on the attempts up to any moment of a run if and only if every result written to the row so far carried the row's own count |
| `Liveness.AgreementIsExact` | internal/adapters/postgres/outbox.go:92-97 | after any step the counts agree exactly when it wrote the current count, copied it as begin and recovery do, or left agreeing counts alone |
| `Liveness.OneCopySuffices` | internal/application/runtime.go:54-68 | while no worker id ever had two live copies of a row, there is no late retry, no stuck row, and the counts agree |
| `Completion.CanFinishIffNoLateRetry` | internal/application/dispatcher.go:69-135 | from every reachable state an open row can be brought to a terminal status by some finite continuation, if and only if no late retry of it was written |
| `Completion.CanFinishUnlessStuck` | internal/adapters/postgres/outbox.go:12-180 | in every state of the invariant an open row can be finished if and only if it is not stuck |
| `Completion.DueCanBeMaterialized` | internal/application/planner.go:40-99 | whenever a schedule is due and its plan succeeds, a claim, an open check and a commit by any worker go through |
| `Attempts.HoldersStayCurrent` | internal/adapters/postgres/outbox.go:75-180 | while no worker id has two live copies of a row, whoever holds a claim knows the row's attempt count |
| `Stranding.StrandedWithoutOneCopy` | internal/adapters/postgres/outbox.go:147-154 | a concrete run in which one worker id holds two copies ends in a late retry, after which no clock makes the row claimable or recoverable and the attempt counts differ |
| `Liveness.StuckForever` | internal/adapters/postgres/outbox.go:45-49 | a waiting row without attempts left is never changed by any later step |
| `Progress.DueMovesForward` | internal/application/planner.go:59-136 | between edits, if the jumps made for it are forward, a recurring schedule's next due instant never goes back, strictly increases with every committed materialization, and stays above every instant recorded since |
| `Progress.MaterializationMovesPast` | internal/application/planner.go:101-136 | after a materialization a recurring schedule is due past now if and only if the jump made, if any, is forward |
| `Jumps.CalculatorDueMovesForward` | internal/application/planner.go:59-136 | the same monotony for the code's own port, given only that the interval jumps made for the schedule fit 64 bits |
| `Jumps.MaterializationMovesPastIffItFits` | internal/application/planner.go:101-136 | with the code's port a materialization leaves the schedule due past now if and only if its jump fits 64 bits |
| `Jumps.PlanMovesPastIffItFits` | internal/application/planner.go:101-136 | the same for a plan, under every misfire policy |
| `Jumps.CatchUpEndsRightIffItFits` | internal/application/planner.go:138-158 | with the code's port, catch-up ends at the first instant after now if and only if nothing was left out or the jump over the rest fits 64 bits |
| `Jumps.LatePlanGoesBack` | internal/application/planner.go:128-130 | a concrete plan, 2^63 nanoseconds late, that puts an @every 1s schedule before its own due instant |
| `Progress.CatchUpIsGapFree` | internal/application/planner.go:131-158 | under catch_up_bounded with the backlog within the limit, every recurrence instant from the first due one up to next_due_at is recorded, exactly once |
| `Progress.CommitIsPlannedStep` | internal/application/planner.go:67-98 | a committed materialization records every planned instant, records nothing else, and advances to the plan's next instant |
| `Progress.InsertPlansRecord` | internal/adapters/postgres/due.go:56-76 | each planned instant is recorded after the loop, dispatched, skipped, blocked or already there |
| `Progress.InsertedArePlanned` | internal/application/planner.go:76-96 | the loop changes no existing occurrence and adds only planned instants of its own schedule |
| `Progress.PlanIsOrbit` | internal/application/planner.go:116-158 | a plan whose backlog fits lists the recurrence from due on and ends at the first instant past now |
| `Identity.IdentityIsStable` | internal/domain/occurrence.go:92-102 | any two requests for one occurrence, at any moments of a run, carry the same seed, URL, method and payload |
| `Identity.SeedIsInjective` | internal/domain/occurrence.go:54-65 | the seed determines tenant, schedule id, name and instant text, since validated parts cannot contain the separator |
| `Identity.DifferentOccurrencesDifferentSeeds` | internal/domain/occurrence.go:54-65 | requests for different occurrences of a run have different seeds as soon as different instants are written differently |
| `Stamp.StampedSeedsDiffer` | internal/domain/occurrence.go:54-57 | the same with the actual RFC 3339 text, in any year |
| `Stamp.Rfc3339IsInjective` | internal/domain/occurrence.go:56-56 | the text of an instant, with dropped trailing zeros and a year of any length and sign, determines the instant |
| `Stamp.StampShows` | internal/domain/occurrence.go:56-56 | the text shows the UTC date and time of day of the instant |
| `Preservation.InvHolds` | internal/adapters/postgres/store.go:62-75 | the full invariant (tables coupled, rows checked, ownership, local copies, running commands) holds in every reachable state |
| `Preservation.StepKeeps` | internal/application/planner.go:40-99 | every step keeps the invariant; only a planner's commit adds occurrences or outbox rows, and only the two commits edit schedules beyond their claim |
| `Preservation.CommitPlanKeeps` | internal/application/planner.go:59-99 | materialization keeps the invariant, won or lost |
| `Preservation.AdvancedRowOk` | internal/application/planner.go:101-136 | the advanced row satisfies the CHECKs: no next due instant is written only for a once schedule |
| `Preservation.CommitCommandKeeps` | internal/application/commands.go:144-234 | a command commit keeps the invariant and touches no occurrence or outbox row |
| `Preservation.PositionIsValid` | internal/application/commands.go:159-175 | the position a create or replace computes satisfies the CHECKs |
| `Preservation.BeginKeeps` | internal/adapters/postgres/outbox.go:75-105 | begin keeps the invariant, acknowledged or not |
| `Preservation.TransitionKeeps` | internal/adapters/postgres/outbox.go:125-180 | a result or deferral write keeps the invariant, also from a stale worker |
| `Preservation.ClaimDueKeeps` | internal/adapters/postgres/due.go:12-42 | a claim of a due schedule keeps the invariant and edits no definition, due instant or version |
| `Preservation.ReleaseKeeps` | internal/adapters/postgres/due.go:114-128 | a release, fenced by the worker id alone, keeps the invariant |
| `Coupling.PairUpdateIsSafe` | internal/adapters/postgres/outbox.go:147-172 | writing one open outbox row together with its occurrence keeps the tables coupled and undoes nothing |
| `Coupling.ClaimIsSafe` | internal/adapters/postgres/outbox.go:40-73 | so does claiming a row, though its occurrence is not written |
| `Coupling.RecoverIsSafe` | internal/adapters/postgres/outbox.go:12-38 | so does recovery, and it is exactly such a pair write |
| `Coupling.BeginIsSafe` | internal/adapters/postgres/outbox.go:75-105 | so does begin |
| `Coupling.TransitionIsSafe` | internal/adapters/postgres/outbox.go:125-180 | so does a transition, even with an outdated attempt count |
| `Coupling.InsertPlansIsSafe` | internal/application/planner.go:76-96 | the whole insert loop keeps the tables coupled and changes no existing row |
| `Planner.BoundedCatchUp` | internal/application/planner.go:138-158 | the loop computes the catch-up whose meaning the next row states |
| `Planner.CatchUpIsPrefix` | internal/application/planner.go:138-158 | with n recurrence instants in [due, now] the plans are the first min(n, limit + 1) in order, the first min(n, limit) dispatch, an extra one is the bound-exceeded skip; next is the first instant after now if and only if nothing was left out or the one jump made is exact |
| `Planner.PlanIsProper` | internal/application/planner.go:101-136 | whatever the recurrence returns, any plan of a due schedule starts at due, uses up a once trigger and gives a recurring one a next instant |
| `Planner.PlanOfDue` | internal/application/planner.go:101-136 | if successors move forward, every plan lies within [due, now], and a recurring schedule moves past now if and only if its one jump, where there is one, does |
| `Planner.MisfirePolicy` | internal/application/planner.go:107-130 | outside bounded catch-up there is exactly one plan, for the due instant; it dispatches if and only if it is on time or the policy is not skip, a late once trigger included, and is recorded as skipped by the policy otherwise |
| `Planner.PolicyResumes` | internal/application/planner.go:116-130 | such a plan resumes at the first recurrence instant after now if and only if it is on time or its jump is exact |
| `Planner.PlansIncrease` | internal/application/planner.go:138-158 | the plans of one materialization are for different instants, in order |
| `Materialization.DueInstantIsSentUnlessSkipped` | internal/application/planner.go:67-130 | in a committed materialization with nothing open and the instant free, the due instant gets a pending outbox row if and only if it is on time or the policy is not skip |
| `Materialization.MaterializedAsPlanned` | internal/application/planner.go:76-96 | every planned instant that was free gets its occurrence, and an outbox row, pending and due at once, if and only if the plan dispatches and overlap does not forbid it; a blocked one says so |
| `Materialization.MaterializedRow` | internal/adapters/postgres/due.go:97-112 | the schedule is left at the planned next instant, unclaimed, one version on, exhausted exactly if it has a once trigger, and no other schedule changes |
| `Materialization.ReadIsExact` | internal/adapters/postgres/due.go:44-54 | the open check says yes if and only if overlap is forbidden and an occurrence of the schedule is open right then |
| `Calculator.SearchNext` | internal/adapters/recurrence/calculator.go:45-55 | the minute loop with its ten-year limit computes the first match |
| `Calculator.CronNextIsLeast` | internal/adapters/recurrence/calculator.go:47-55 | for any zone the result is the least whole UTC minute strictly after the input whose local fields match; an error means that none matches up to the limit |
| `Calculator.RepeatedLocalTimeFiresTwice` | internal/adapters/recurrence/calculator.go:47-55 | a matching local time that two UTC minutes show is reached as two distinct elements of the recurrence, whatever else the rule matches, unless a search on the way ends at its horizon |
| `Calculator.CronOrbitReaches` | internal/adapters/recurrence/calculator.go:47-55 | iterating Next reaches every later instant that fires, unless a search on the way ends before it at its horizon |
| `Calculator.CronOrbitIsExact` | internal/adapters/recurrence/calculator.go:47-55 | as far as no search ends at its horizon, the instants reached are exactly those that fire: skipped local times never do, and no match is passed over |
| `Calculator.UtcOrbitIsExact` | internal/adapters/recurrence/calculator.go:45-55 | for an accepted rule in UTC, iterating Next reaches exactly the instants that fire, without any condition |
| `Calculator.AcceptedUtcRuleAlwaysFires` | internal/adapters/recurrence/calculator.go:45-55 | in UTC the search never fails on an accepted rule, from any start |
| `Calculator.MachineNextAfterIsOrbit` | internal/adapters/recurrence/calculator.go:64-71 | the 64-bit closed form is the first instant past the threshold that iterating Next from the anchor reaches, if and only if the distance to it fits 64 bits |
| `Calculator.CronNextAfterIsOrbit` | internal/adapters/recurrence/calculator.go:72-72 | searching from the threshold finds what iterating Next from the anchor finds, when both stay within the horizon |
| `Calculator.CalculatorSkipsAhead` | internal/adapters/recurrence/calculator.go:58-73 | the code's NextAfter agrees with iterating Next, for every rule, zone, anchor and threshold, if and only if its jump fits 64 bits |
| `Calculator.CalculatorStepsForward` | internal/adapters/recurrence/calculator.go:36-56 | Next is always after its input |
| `Calculator.NextAfterIsForward` | internal/adapters/recurrence/calculator.go:58-73 | NextAfter is past its threshold if and only if its jump fits 64 bits |
| `Calculator.MachineIntervalIsExact` | internal/adapters/recurrence/calculator.go:69-70 | on 64-bit durations the closed form is exact, and after the threshold, if and only if the added distance is at most 2^63 - 1 nanoseconds; otherwise it lies before the anchor |
| `Calculator.MachineIntervalCanGoBack` | internal/adapters/recurrence/calculator.go:69-70 | a concrete anchor and threshold for which the result of @every 1s lies before both |
| `Cron.ParseCron` | internal/adapters/recurrence/cron.go:43-77 | an accepted rule, descriptors included, denotes its five fields, is well formed and feasible; a refused one has a field that does not parse or no possible date |
| `Cron.SpacedRuleIsRead` | internal/adapters/recurrence/cron.go:44-48 | a rule that is no descriptor is read as its words, however they are spaced |
| `Descriptors.DescriptorFires` | internal/adapters/recurrence/cron.go:24-47 | each descriptor, in any letter case and with blanks around it, matches exactly the local times it promises |
| `Descriptors.DescriptorIsAccepted` | internal/adapters/recurrence/cron.go:24-47 | and is accepted |
| `Text.FieldsReadsWords` | internal/adapters/recurrence/cron.go:48-48 | splitting at white space gives back any words, whatever blanks surround and separate them |
| `Cron.DayRule` | internal/adapters/recurrence/cron.go:167-183 | on well-formed fields the match is a conjunction when either day field is a wildcard and a disjunction of the day fields otherwise, with month always conjunctive |
| `Cron.HasPossibleCalendarDate` | internal/adapters/recurrence/cron.go:185-204 | the nested loops decide whether some allowed day exists in some allowed month of a leap year |
| `Cron.AcceptedRuleMatches` | internal/adapters/recurrence/cron.go:185-204 | every accepted rule matches some minute within ten calendar years of any start |
| `Cron.MatchingDate` | internal/adapters/recurrence/cron.go:167-204 | an accepted rule has a matching date in one of the nine years after any year |
| `Cron.LaterYearsAreWithin` | internal/adapters/recurrence/calculator.go:48-48 | every minute of the nine following calendar years lies before AddDate(10, 0, 0), also for 29 February |
| `Cron.TenYearsLaterIsDate` | internal/adapters/recurrence/calculator.go:48-48 | ten years later is the same date and time, or 1 March where that year has no 29 February |
| `Cron.UtcLocalOf` | internal/adapters/recurrence/calculator.go:50-50 | the UTC minute of a date and time has exactly that date, time and weekday |
| `Cron.UtcDayRule` | internal/adapters/recurrence/cron.go:167-183 | for every UTC minute the date and weekday of the calendar decide the match, by the day rule |
| `Cron.EpochIsThursday` | internal/adapters/recurrence/calculator.go:50-50 | minute 0 is midnight of Thursday, 1 January 1970 |
| `Calendar.DateOfDay` | internal/adapters/recurrence/cron.go:167-172 | every day number is the number of exactly the valid date computed from it |
| `Calendar.DayOfDate` | internal/adapters/recurrence/cron.go:167-172 | and every valid date is recovered from its day number |
| `Calendar.MonthLengths` | internal/adapters/recurrence/cron.go:196-196 | the length of every month, by an arithmetic formula |
| `Calendar.LeapYearWithinEight` | internal/adapters/recurrence/cron.go:196-201 | after any year there is a leap year within eight |
| `Calendar.WeekdayInMonth` | internal/adapters/recurrence/cron.go:186-191 | every month of every year has every weekday among its first seven days |
| `CronFields.ParseCronField` | internal/adapters/recurrence/cron.go:79-112 | parses exactly when every list item does, and then yields exactly the union of the items' progressions with 7 folded to 0, a wildcard if some item is unrestricted |
| `ItemGrammar.ItemIsRead` | internal/adapters/recurrence/cron.go:79-165 | every legal item, a value, a span or a star with or without a step, is read as what it means; a value with a step reaches to the end of the field |
| `ItemGrammar.ItemIsLegal` | internal/adapters/recurrence/cron.go:79-165 | only such items are read: any other text is refused |
| `ItemGrammar.NumeralIsValue` | internal/adapters/recurrence/cron.go:154-165 | a decimal numeral is its own number |
| `ItemGrammar.MonthNames` | internal/adapters/recurrence/cron.go:34-37 | each month name is its number |
| `ItemGrammar.WeekdayNames` | internal/adapters/recurrence/cron.go:39-41 | each weekday name is its number, Sunday 0 |
| `ItemGrammar.FieldBounds` | internal/adapters/recurrence/cron.go:52-68 | the bounds of the five fields |
| `ItemGrammar.CaseIsIgnored` | internal/adapters/recurrence/cron.go:81-81 | letter case does not matter |
| `CronFields.MarkItem` | internal/adapters/recurrence/cron.go:99-109 | the value loop on 64-bit integers never overflows, even with a step near the maximum, and marks exactly the progression |
| `CronFields.ParsedFieldIsWellFormed` | internal/adapters/recurrence/cron.go:79-112 | a parsed field is not empty, stays in range, and a wildcard flag implies the full range |
| `CronFields.ItemIsInRange` | internal/adapters/recurrence/cron.go:114-152 | a parsed item is a range inside the field's bounds with a positive 64-bit step; an unrestricted one is the full range with step 1 |
| `Text.AtoiReadsDecimals` | internal/adapters/recurrence/cron.go:154-165 | number parsing inverts decimal notation, with either sign, and refuses what does not fit 64 bits |
| `Text.SplitThenJoin` | internal/adapters/recurrence/cron.go:81-81 | splitting loses nothing, and no part contains the separator |
| `Retry.BackoffIsCappedPower` | internal/application/dispatcher.go:205-216 | retryBackoff equals min(base * 2^(attempt-1), maximum) in unbounded integers whenever it is defined, and exactly when that is |
| `Retry.BackoffFitsInt64` | internal/application/dispatcher.go:205-216 | for every valid policy and stored attempt number nothing overflows and the backoff is positive and capped |
| `Retry.BackoffIsMonotone` | internal/application/dispatcher.go:205-216 | the backoff never decreases with the attempt number |
| `Retry.RetryIsBounded` | internal/application/dispatcher.go:161-197 | exactly when a retry is scheduled, that it is now plus the draw, in [now, deadline) and within the capped backoff, and what any other failure records |
| `Retry.StoredRetryIsBounded` | internal/application/dispatcher.go:190-197 | the stored retry instant is in [now, deadline], and before the deadline exactly when the chosen one is far enough away not to be rounded onto it |
| `Retry.StoredRetryCanReachDeadline` | database/schema.sql:144-144 | a concrete draw whose stored instant equals the deadline |
| `Retry.InterruptionIsClassified` | internal/application/dispatcher.go:137-150 | a cancelled attempt is never a success and never retried, a timed-out one never a success and always retryable, and the target's own error text is kept |
| `Preparation.NormalizedIsPrepared` | internal/domain/schedule.go:132-233 | a normalized schedule satisfies everything the protocol relies on, its texts are trimmed, and normalizing it again changes nothing |
| `Preparation.ValidDefinitionsAreAccepted` | internal/domain/schedule.go:132-233 | every valid definition with trimmed texts is accepted unchanged |
| `Preparation.AcceptanceIsExact` | internal/domain/schedule.go:176-233 | exactly which triggers, rule lengths, retry policies, catch-up limits and statuses are accepted |
| `Preparation.DefaultsAreFilledIn` | internal/domain/schedule.go:132-173 | each field is what was asked for, or its default |
| `Preparation.RetryIsKept` | internal/domain/schedule.go:92-107 | what was asked for in the retry policy stays |
| `Store.TxStore.ClaimDueSchedules` | internal/adapters/postgres/due.go:12-42 | claims only due rows, each once, all of them unless the limit is reached, and changes nothing but their claims |
| `Store.TxStore.RecoverExhaustedDispatches` | internal/adapters/postgres/outbox.go:12-38 | fails exactly the rows of the outbox whose last claim ran out, together with their occurrences |
| `Store.PlannerClaims` | internal/application/planner.go:40-49 | the claiming transaction of a planner cycle leaves the tables as a sequence of single claim steps does |
| `Store.DispatcherClaims` | internal/application/dispatcher.go:69-81 | recovery followed by the claims of a dispatcher cycle leaves the tables as a sequence of recovery and claim steps does |
| `Store.TxStore.ClaimDispatches` | internal/adapters/postgres/outbox.go:40-73 | claims only claimable rows, each once, all of them unless the limit is reached, and changes no other row |
| `Store.TxStore.BeginDispatch` | internal/adapters/postgres/outbox.go:75-105 | counts one attempt in both tables and returns the started row, or changes nothing |
| `Store.TxStore.GetSchedule` | internal/adapters/postgres/commands.go:146-155 | finds the row of that tenant and name, or there is none |
| `Store.MaterializeSchedule` | internal/application/planner.go:67-98 | the loop with its running open flag is the materialize transaction of the step system; a lost claim rolls everything back |
| `Store.PersistResult` | internal/application/dispatcher.go:161-203 | the branches write exactly the decision whose bounds RetryIsBounded states |
| `Store.Execute` | internal/application/commands.go:66-107 | replay, conflict, error or effect with receipt, as the step system has them |
| `Store.ApplyIn` | internal/application/commands.go:144-234 | the branches compute the command outcome of the step system; an error has written nothing |
| `Batches.ClaimBatchIsSteps` | internal/adapters/postgres/due.go:12-42 | a batch claim of schedules is a sequence of single claims that the step system allows |
| `Batches.RecoverBatchIsSteps` | internal/adapters/postgres/outbox.go:12-38 | so is the recovery of all exhausted rows |
| `Batches.DispatchBatchIsSteps` | internal/adapters/postgres/outbox.go:40-73 | so is a batch claim of dispatch work |

## Left out

- HTTP transport, JSON decoding, routing and response mapping: a command arrives decoded, with an opaque digest.
- The outbound HTTP client, DNS pinning and allowlists: the target returns an arbitrary result.
- SHA-256, UUID generation and random numbers: seeds are compared as texts, fresh ids and draws are parameters. Equal digests of different seeds are not excluded.
- The time zone database: a zone is any function from UTC minutes to local fields; only UTC is instantiated.
- The lease store: acquiring a lease either lets the attempt begin or defers it.
- Schema installation, runtime lifecycle, configuration, logging and probes: only that cycles may overlap matters.
- ORDER BY, LIMIT and SKIP LOCKED: the rows a batch looks at, in order, are a parameter of the claim methods.
- created_at and updated_at columns: nothing reads them back.
- The zero time as a marker: "no instant" is a separate value, so an instant of the year 1 is not confused with it.
- The CHECKs on HTTP status (100 to 599) and on the text lengths of receipts: decided by components outside the model.
- Version numbers are unbounded integers; the BIGINT limit is not modelled.
- Text lengths and error message truncation count characters, not bytes.
- Runs.ScheduleChecksHold: leaves out the CHECKs on the length of the time zone name and on payload JSON, which the time zone database and the JSON decoder decide.
- CronFields.ParseCronField: upper-casing is exact where the result is ASCII; other letters stay as they are, and no field with one parses either way.
- time.ParseDuration: an interval rule is its whole number of milliseconds.
- Preparation.NormalizedIsPrepared: checks on zone, URL, payload and the meaning of the rule are one parameter.
- Preparation.ValidDefinitionsAreAccepted: the same checks are one parameter.
- Store.TxStore.HasOpenOccurrence, InsertOccurrenceRow, InsertDispatchOutbox, AdvanceSchedule, ReleaseScheduleClaim and TransitionDispatch have no row: what they mean is stated by Materialization.ReadIsExact, Materialization.MaterializedAsPlanned, Runs.NewRowCaptures, Materialization.MaterializedRow, Timing.ReleaseClears and Outcomes.ResultIsRecorded.
