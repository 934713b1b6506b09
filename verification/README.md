# StudyFlow verification model

A Dafny model of the parts of StudyFlow that keep state across calls or compute something whose
correctness spans several functions, with proofs about it. `dafny verify dfyconfig.toml` checks
everything.

## What is modelled

**Booking (schedule_service).** `ScheduleModel` holds the slots and lessons tables, the SQL
statements that change them and the handlers at the sequential grain, one handler being one step.
`ScheduleServer` is the same as code: a repository whose transactions may fail after any statement
and the gRPC handlers around it; `ScheduleMeaning` says of every request what it is answered and what
it stores, column by column. `BookedFlag` and `LessonHistory` prove what sequential runs keep.
`BookingTransactions` cuts handlers into guard reads, statements, row locks and commits under READ
COMMITTED, with any number of handlers and a death at any point; `BookingProofs` has the invariant,
`BookingAlone` that an uninterrupted handler is its request,
`BookingTheorems` the refinement to atomic steps, the alternation of bookings and freeings and the
absence of deadlock. `BookingHistory` says what a handler holds between its read and its write;
`StaleEdits` and `StaleMoves` prove to the step which interleavings keep the flag, climbing lessons and
frozen slots, and `BookingWitnesses` has runs that lose them.

The table constraints are parameters (`Schema`), and so are the early check of CreateLesson and the
check under the row lock (`Config`). The migration declares `UNIQUE (slot_id)`, a foreign key without
cascade and `UNIQUE (tutor_id, starts_at, ends_at)`; `MIGRATION` is that choice. Under it a cancelled
slot can never be booked again although CancelLesson frees it, which is the service README's "each
slot is used once".

What holds only sequentially, and in an interleaving exactly when nothing overtakes:

- lesson status and payment climbing: unless a cancellation, completion or payment commits between an
  UpdateLesson's read and its write (`LessonsClimbIff`, run `StaleEditUndoes`);
- the flag: unless a cancellation does (`FlagHoldsIff`); and it needs the unique constraint or a caller's
  restraint (`RunKeepsAgreementIff`, run `CancelTwiceBreaksTheFlag`);
- the frozen interval of booked slots: unless a booking commits between UpdateSlot's guard and its
  statement (`BookedSlotsFrozenIff`, run `StaleMoveMovesBookedSlot`);
- one successful submit per lesson: unless another was answered "unpaid" before the first one marked
  the lesson (`CanStillSucceedIff`, run `OverlappingSubmitsBothSucceed`);
- an assignment's due date staying set: unless another edit sets it between an edit's read and write
  (`DueDatesKeptIff`, run `OverlappingEditsLoseDueDate`).

**Payment saga.** `PaymentSaga` is the asynchronous picture: submits, lesson edits and markings send
requests that may be served late, twice or never, and whose replies may be lost. `PaymentService` is
the code with its retried calls, `PaymentOutcome` what each call pattern comes to, `PaymentAccounts`
balances receipts over sequential runs, `PaymentRefinement` shows those to be protocol runs, and
`PaymentOnce` says which submits can still succeed once a lesson is paid. A submit whose insert lost
its reply is tried again under the same id and ends in ALREADY_EXISTS with its receipt stored
(`FailedInsert`); the exact condition for success is `SubmitSucceedsIff`.

**Retry and circuit breaker (common_library).** `Backoff` is the delay arithmetic in int64, `Retry`
the attempt loop over arbitrary outcomes and cancellations, `CircuitBreaker` the three states with the
lock released around the call, `BreakerRetry` the composition. Half-open admits any number of calls.

**Homework status.** `RowNumber` and `HomeworkStatus` are the window functions, joins and CASE over
NULLs, for an arbitrary choice among ties, against a direct definition of status; `HomeworkRuns` says
how status moves over runs, `HomeworkEdits` cuts edits into read and write. The service README
promises reminders for assignments that were not handed in; the query also returns UNREVIEWED ones,
and the model follows the query.

**Gateway cache.** `CacheKeys` has the key builders, `GatewayCache` the handlers one at a time,
`CacheFreshness` every interleaving of reads cut into lookup, fetch and store. The backend's answer
depends on the caller, the key does not; both models carry the caller of every read and say whose
answer a hit is.

**SQL text builders.** `SqlText` reads query text into words, signs and placeholders, `SqlMeaning`
parses WHERE, ORDER BY and SET clauses and evaluates them over rows, refusing a text whose
placeholders do not match its arguments. `SqlClauses`, `SqlBuilders` and `SqlUpdates` prove how pasted pieces are read
back; `SqlAssignments`, `SqlLessons` and `SqlUsers` are the builders. The reader is independent of the
builders: each builder is proved to produce a text that, read and run, answers like the plain predicate
or the plain partial update.

## Assumptions

- Each handler takes one clock reading; ids are abstract and never drawn twice; creation times in
  homework runs are strictly increasing.
- Nobody but the payment service calls MarkAsPaid.
- The user service's answer about a pair is a parameter of CreateLesson.
- `status.FromError` unwraps, so an error wrapped after the last attempt is still retriable to an outer
  loop. The jitter generator panics on a base delay that is not positive; the model gives that outcome
  its own failure. A float64 beyond 2^63 converts to a platform-dependent word, which is a parameter.
- Repository errors of payment_service never count as retriable in practice; the model allows any.
- The interleaved sweep changes lesson rows one at a time, each with the values it finds there, and its
  changes are visible at once; its row locks are in the wait graph of `BookingTheorems` alone.
- The gateway's callers are authenticated; GET /users/me is asked with the caller's own id. An id the
  backend cannot parse is one whose canonical spelling is empty.
- Fixed query text before the first clause, and after RETURNING, is a parameter that holds no `$`.

## Model

| member | source | states |
|---|---|---|
| `BookedFlag.AgreementCounts` | schedule_service/internal/database/postgres/postgres.go:227-275 | the flag agreement in the words of the design, both ways: a slot is booked exactly when one and only one non-cancelled lesson refers to it, free when none does, and every non-cancelled lesson's slot exists |
| `BookedFlag.BookKeepsAgreement` | schedule_service/internal/database/postgres/postgres.go:227-275 | a successful booking of any slot keeps the agreement, whatever the schema |
| `BookedFlag.CancelFrees` | schedule_service/internal/database/postgres/postgres.go:305-332 | cancelling a live lesson, or one whose slot is free, keeps the agreement |
| `BookedFlag.CancelKeepsAgreementIff` | schedule_service/internal/service/service/service.go:461-496 | CancelLesson has no status guard: cancelling keeps the agreement exactly when the lesson is live or its slot is free |
| `BookedFlag.OtherStepsKeepLiveness` | schedule_service/internal/service/service/service.go:85-232 | every handler other than CreateLesson and CancelLesson keeps the agreement |
| `BookedFlag.StepKeepsAgreement` | schedule_service/internal/service/service/service.go:313-496 | any served request keeps the agreement, given UNIQUE(slot_id) or that it does not cancel a cancelled lesson |
| `BookedFlag.StepKeepsOneLessonPerSlot` | schedule_service/migrations/000001_init_schema.up.sql:17-31 | with UNIQUE(slot_id) no request leaves two lessons on one slot |
| `BookedFlag.RunKeepsAgreement` | schedule_service/internal/service/service/service.go:85-232 | the agreement in the final state of every sequential run of any handlers and failures, with the unique constraint or for runs that never cancel twice; runs are closed under prefixes, so it holds throughout |
| `BookedFlag.StepKeepsAgreementIff` | schedule_service/internal/service/service/service.go:461-496 | one served request keeps the agreement, whatever the schema, exactly when it is not a permitted cancellation of a cancelled lesson whose slot is booked for another |
| `BookedFlag.RunKeepsAgreementIff` | schedule_service/internal/service/service/service.go:461-496 | without any constraint the flag is right in every state of a sequential run if and only if no request of it does that |
| `BookedFlag.CancelTwiceBreaksTheFlag` | schedule_service/internal/service/service/service.go:461-496 | a run of five requests that breaks the agreement when neither is given, and is harmless under the migration's schema |
| `LessonHistory.StepClimbs` | schedule_service/internal/service/service/service.go:407-496 | one request never takes a lesson's status back, never un-cancels and never un-pays it, and never moves it to another slot |
| `LessonHistory.RunClimbs` | schedule_service/internal/service/service/service.go:407-496 | over every sequential run, from any moment to the end: status only climbs booked, completed, cancelled; cancelled absorbs; is_paid stays true; lessons never vanish |
| `LessonHistory.StepKeepsCompletedSlots` | schedule_service/internal/service/service/service.go:144-232 | no request moves or removes the slot under a completed lesson, because UpdateSlot and DeleteSlot refuse booked slots and the flag is right |
| `LessonHistory.OtherStepsCompleteNothing` | schedule_service/internal/database/postgres/postgres.go:430-446 | only the sweep completes lessons |
| `LessonHistory.StepKeepsCompletedOver` | schedule_service/internal/database/postgres/postgres.go:430-446 | completed lessons stay on existing slots that have ended, step by step under a monotone clock |
| `LessonHistory.RunCompletedAreOver` | schedule_service/internal/database/postgres/postgres.go:430-446 | over every sequential run with a monotone clock every completed lesson has an existing slot whose end is before now |
| `LessonHistory.RunFreezesCompletedSlots` | schedule_service/internal/service/service/service.go:166-229 | once a lesson is completed, its slot's interval is the same in every later state in which the lesson is still completed |
| `ScheduleMeaning.CreateLessonMeans` | schedule_service/internal/service/service/service.go:313-405 | every outcome of CreateLesson: which refusal when; otherwise Success, with a lesson of the requested slot and student under the new id, booked, unpaid, without link, price and payment info, created and edited now, the slot booked and every other row as it was |
| `ScheduleMeaning.CreateSlotMeans` | schedule_service/internal/service/service/service.go:85-142 | every outcome of CreateSlot and the row it stores, column by column |
| `ScheduleMeaning.UpdateSlotMeans` | schedule_service/internal/service/service/service.go:144-199 | every outcome of UpdateSlot: the times and edit time of that slot change, nothing else does |
| `ScheduleMeaning.DeleteSlotMeans` | schedule_service/internal/service/service/service.go:201-232 | every outcome of DeleteSlot |
| `ScheduleMeaning.UpdateLessonMeans` | schedule_service/internal/service/service/service.go:407-459 | every outcome of UpdateLesson: each present field lands in its own column, absent ones leave theirs, status, payment, slot and student stay |
| `ScheduleMeaning.CancelLessonMeans` | schedule_service/internal/service/service/service.go:461-496 | every outcome of CancelLesson: status and edit time of the lesson and the flag of its slot change, nothing else does |
| `ScheduleMeaning.MarkAsPaidMeans` | schedule_service/internal/service/service/service.go:636-661 | every outcome of MarkAsPaid: is_paid of that lesson, nothing else |
| `ScheduleMeaning.SweepMeans` | schedule_service/internal/database/postgres/postgres.go:430-446 | the sweep completes every booked lesson whose slot has ended and changes nothing else |
| `ScheduleServer.Repository.Exec` | schedule_service/internal/database/postgres/postgres.go:58-118 | one autocommitted statement with a fault anywhere: success means stored, an error means untouched unless it is the lost reply to a commit |
| `ScheduleServer.Repository.CreateLessonAndBookSlot` | schedule_service/internal/database/postgres/postgres.go:227-275 | statement by statement, with a failure after any of them: success is the atomic booking, failure leaves both tables unchanged unless it is the lost reply to a landed commit; without a fault it succeeds exactly when the atomic booking does and with its error |
| `ScheduleServer.Repository.CancelLessonAndFreeSlot` | schedule_service/internal/database/postgres/postgres.go:305-332 | the same for cancelling |
| `ScheduleServer.Repository.UpdateCompletedLessons` | schedule_service/internal/database/postgres/postgres.go:430-446 | the sweep: every booked lesson on an ended slot is completed, every other row stays, and its count is the number of lessons it changed |
| `ScheduleServer.Server.CreateSlot` | schedule_service/internal/service/service/service.go:85-142 | the handler gives the sequential model's rows and code, or under a fault leaves the rows alone or has committed and may answer Internal; on Success the new row is said column by column |
| `ScheduleServer.Server.UpdateSlot` | schedule_service/internal/service/service/service.go:144-199 | the same for UpdateSlot with its owner, booked and interval guards |
| `ScheduleServer.Server.DeleteSlot` | schedule_service/internal/service/service/service.go:201-232 | the same for DeleteSlot |
| `ScheduleServer.Server.CreateLesson` | schedule_service/internal/service/service/service.go:313-405 | the same for CreateLesson, the user service's answer being a parameter; on Success the lesson stored and the slot booked are said column by column |
| `ScheduleServer.Server.UpdateLesson` | schedule_service/internal/service/service/service.go:407-459 | the same for UpdateLesson: read, overwrite the given fields, write everything back; on Success each column is said |
| `ScheduleServer.Server.CancelLesson` | schedule_service/internal/service/service/service.go:461-496 | the same for CancelLesson |
| `ScheduleServer.Server.MarkAsPaid` | schedule_service/internal/service/service/service.go:636-661 | the same for MarkAsPaid |
| `BookingProofs.BookCommitIsAtomic` | schedule_service/internal/database/postgres/postgres.go:227-275 | a booking about to commit finds its slot present and free in the committed rows, so its statements add up to the atomic booking |
| `BookingProofs.BookKeepsInv` | schedule_service/internal/database/postgres/postgres.go:227-275 | every statement of a booking keeps the invariant over rows, locks and in-flight transactions |
| `BookingProofs.CancelKeepsInv` | schedule_service/internal/database/postgres/postgres.go:305-332 | every statement of a cancellation does |
| `BookingProofs.SlotKeepsInv` | schedule_service/internal/service/service/service.go:166-229 | so do UpdateSlot and DeleteSlot with the guard read and the write apart |
| `BookingProofs.EditKeepsInv` | schedule_service/internal/database/postgres/postgres.go:277-303 | so does UpdateLesson writing back a row it read earlier |
| `BookingProofs.RunKeepsInv` | schedule_service/internal/database/postgres/postgres.go:227-332 | the invariant in every state of every interleaving of any number of handlers, with deaths anywhere |
| `BookingAlone.AloneIsServe` | schedule_service/internal/service/service/service.go:144-496 | run without interruption, a handler of the interleaved machine leaves the tables its request leaves in the sequential model and commits exactly if that answers Success |
| `BookingAlone.SweepAlone` | schedule_service/internal/database/postgres/postgres.go:430-446 | a sweep reaching the rows one by one, in whatever order, is the sequential sweep |
| `BookingAlone.StatementsAreServe` | schedule_service/internal/service/service/service.go:85-142 | CreateSlot's insert and MarkAsPaid's update are their requests |
| `BookingTheorems.StepRefinesAtomic` | schedule_service/internal/database/postgres/postgres.go:227-332 | every interleaved step is one atomic step of the committed rows or none, and a dying transaction leaves them unchanged |
| `BookingTheorems.RunRefinesAtomic` | schedule_service/internal/database/postgres/postgres.go:227-332 | every interleaved run is a run of atomic steps |
| `BookingTheorems.RunBooksOnce` | schedule_service/internal/database/postgres/postgres.go:227-275 | no two committed bookings store the same lesson |
| `BookingTheorems.RunBooksOnlyFree` | schedule_service/internal/database/postgres/postgres.go:238-250 | every committed booking finds the latest committed event of its slot to be a freeing, or none |
| `BookingTheorems.RunAlternates` | schedule_service/internal/database/postgres/postgres.go:238-250 | between two committed bookings of a slot there is a committed freeing of it: in every interleaving, for every schema, with or without CreateLesson's early check |
| `BookingTheorems.LockedRowsStay` | schedule_service/internal/database/postgres/postgres.go:227-332 | in every interleaving a slot or lesson row that a transaction has locked or written stays as it is until that transaction takes its next step or ends |
| `BookingTheorems.WaitingDescends` | schedule_service/internal/database/postgres/postgres.go:227-332 | whoever is waited for is further along the one order in which row locks are taken |
| `BookingTheorems.RunNeverDeadlocks` | schedule_service/internal/database/postgres/postgres.go:227-332 | among handlers no interleaving closes a cycle of lock waits, and no chain of waits is longer than two |
| `BookingTheorems.CyclesAreSweeps` | schedule_service/internal/database/postgres/postgres.go:430-446 | with any number of sweeps under way, each keeping the lesson rows it has changed locked while it waits for another: a cycle of lock waits runs through sweeps alone, never through a handler |
| `BookingTheorems.OneSweepNeverDeadlocks` | schedule_service/internal/database/postgres/postgres.go:430-446 | so with one sweep at a time there is no cycle |
| `BookingTheorems.TwoSweepsMayDeadlock` | schedule_service/internal/database/postgres/postgres.go:430-446 | two sweeps that come upon two rows in opposite orders wait for each other |
| `BookingTheorems.SomebodyCanRun` | schedule_service/internal/database/postgres/postgres.go:227-332 | while a handler is unfinished some unfinished handler waits for no lock |
| `BookingHistory.SnapshotHeld` | schedule_service/internal/service/service/service.go:407-459 | an UpdateLesson holds the row it read, unchanged, until its write |
| `BookingHistory.SnapshotRead` | schedule_service/internal/service/service/service.go:407-459 | what an UpdateLesson is about to write back it has read in an earlier state of the run |
| `BookingHistory.GuardPassed` | schedule_service/internal/service/service/service.go:144-232 | an UpdateSlot or DeleteSlot about to run its statement found its slot free in an earlier state |
| `StaleEdits.EditKeepsSoundIff` | schedule_service/internal/database/postgres/postgres.go:277-303 | the late write of an UpdateLesson keeps the flag right exactly when the row it read and the row it overwrites are both live or both cancelled |
| `StaleEdits.FlagHoldsIff` | schedule_service/internal/database/postgres/postgres.go:277-332 | under the migration's constraints the flag agrees with the lessons in every state of an interleaving if and only if no UpdateLesson writes back a lesson whose cancellation committed between its read and its write |
| `StaleEdits.EditClimbsIff` | schedule_service/internal/database/postgres/postgres.go:277-303 | the late write takes nothing back exactly when the row it read is at least as far, in status and payment, as the row it overwrites |
| `StaleEdits.LessonsClimbIff` | schedule_service/internal/service/service/service.go:407-459 | in an interleaving status climbs and payment stays from any moment to any later one if and only if no UpdateLesson writes back a lesson that was cancelled, completed or paid between its read and its write |
| `StaleMoves.SlotWriteKeepsIff` | schedule_service/internal/database/postgres/postgres.go:82-118 | the statement of an UpdateSlot or DeleteSlot keeps all booked slots and their intervals exactly when its slot is not booked or it changes nothing |
| `StaleMoves.BookedAreLive` | schedule_service/internal/database/postgres/postgres.go:227-275 | where the flag is right, keeping booked slots is keeping the slots of all booked and completed lessons, both ways |
| `StaleMoves.BookedSlotsFrozenIff` | schedule_service/internal/service/service/service.go:166-229 | in an interleaving every booked slot keeps its interval at every step if and only if no booking of a slot commits, and stays, between the guard and the statement of an UpdateSlot or DeleteSlot that changes it |
| `StaleMoves.LiveLessonsKeepSlots` | schedule_service/internal/service/service/service.go:166-229 | where neither of the two overtakings occurs a lesson that is booked or completed has had its slot and interval unchanged since it was booked |
| `StaleMoves.DeletionsSpareBooked` | schedule_service/migrations/000001_init_schema.up.sql:17-31 | the foreign key refuses every late DeleteSlot of a slot booked behind its guard, so only UpdateSlot can be overtaken |
| `BookingWitnesses.EarlyCheckIsNotEnough` | schedule_service/internal/service/service/service.go:325-371 | without the locked re-check two handlers that passed the early check book one slot twice |
| `BookingWitnesses.StaleEditUndoes` | schedule_service/internal/database/postgres/postgres.go:277-303 | UpdateLesson's late write takes a paid and cancelled lesson back to booked and unpaid on a free slot |
| `BookingWitnesses.StaleMoveMovesBookedSlot` | schedule_service/internal/service/service/service.go:166-186 | UpdateSlot's late write moves a slot that was booked after its guard |
| `Backoff.FitsIff` | common_library/utils/retry.go:51-53 | all delays of n attempts fit int64, whatever the jitter, exactly when (2^(n-2) + 1) * base <= 2^63 |
| `Backoff.Pow2Of63` | common_library/utils/retry.go:52 | the limit is 2^63 |
| `Backoff.DelayIsMeant` | common_library/utils/retry.go:51-53 | under that condition the int64 computation, the float64 conversion included, gives 2^i * base + jitter |
| `Backoff.DelaysIncrease` | common_library/utils/retry.go:51-53 | delays strictly increase whatever the jitter |
| `Backoff.TotalBounds` | common_library/utils/retry.go:50-58 | the total wait lies between (2^(n-1) - 1) * base and that plus (n-1) * (base-1) |
| `Retry.RetryWithBackoff` | common_library/utils/retry.go:22-61 | on any stream of outcomes and cancellations the loop's result, number of calls and waits are those of the specification, which stops at the first attempt that ends the loop |
| `Retry.FirstStop` | common_library/utils/retry.go:34-61 | the attempt the loop stops at is one that ends it and no earlier one does |
| `Retry.RetriableIff` | common_library/utils/retry.go:15-20 | an error is worth another attempt if and only if it is Unavailable under any number of wrappings |
| `Retry.OutcomeEndsLoop` | common_library/utils/retry.go:34-49 | after attempts that failed with Unavailable, a call that succeeds or fails with anything else ends the loop with its own outcome, after that many calls and one wait fewer |
| `Retry.AttemptsRunOut` | common_library/utils/retry.go:50-61 | if all fail with Unavailable the last error comes back wrapped, after maxRetries calls and a wait between any two |
| `Retry.CancellationEndsLoop` | common_library/utils/retry.go:35-57 | a context seen done before an attempt or in the wait after it ends the loop with the context's error, with or without that attempt |
| `Retry.BadParameters` | common_library/utils/retry.go:29-31 | no call is made for maxRetries <= 0; a base delay that is not positive breaks the first wait |
| `Retry.WaitIs` | common_library/utils/retry.go:50-58 | the i-th wait, computed in int64, is 2^i * base plus the jitter drawn for it, under the bound of FitsIff |
| `Retry.UncancelledAnswer` | common_library/utils/retry.go:34-61 | left alone it returns the first outcome that is not Unavailable, otherwise the last error wrapped after exactly maxRetries calls |
| `Retry.NoCallAfterDone` | common_library/utils/retry.go:35-39 | no call is made once cancellation was observed |
| `Retry.GivesUpOnlyAtTheEnd` | common_library/utils/retry.go:46-48 | an Unavailable error comes back only after all maxRetries calls failed so, and it is the last one wrapped |
| `Retry.WaitsIncreaseWithinBounds` | common_library/utils/retry.go:50-58 | the waits the loop completes, computed in int64, strictly increase and add up to between (2^k - 1) * base and k * (base - 1) more, k being their number, under the bound of FitsIff |
| `CircuitBreaker.Circuit.Enter` | common_library/utils/retry.go:91-102 | the first locked section, field by field: refused exactly while open and not past the reset timeout, half-open if let in past it, otherwise let in with nothing changed |
| `CircuitBreaker.Circuit.Leave` | common_library/utils/retry.go:106-122 | the second locked section, field by field: success closes and forgets, Unavailable counts, is timed and opens at the threshold, other errors change nothing |
| `CircuitBreaker.AdmitMeans` | common_library/utils/retry.go:91-102 | the same of the functions the interleavings use, for every breaker and time |
| `CircuitBreaker.SettleMeans` | common_library/utils/retry.go:106-122 | the same for settling, for every error |
| `CircuitBreaker.HappenCounts` | common_library/utils/retry.go:91-123 | one admission or settlement, by any caller, keeps the meaning of the count |
| `CircuitBreaker.CountsAlwaysIff` | common_library/utils/retry.go:91-123 | failureCount is the Unavailable failures settled since the last settled success, and the state is Closed exactly below the threshold, in every interleaving of any number of callers, if and only if the threshold is at least 1 |
| `CircuitBreaker.HalfOpenReopens` | common_library/utils/retry.go:108-115 | one Unavailable in half-open reopens the breaker however many calls are inside |
| `CircuitBreaker.OpenBreakerRecovers` | common_library/utils/retry.go:91-122 | after any interleaving that left it open, the breaker lets the first caller past the timeout in, everybody after him too, and the first success closes it |
| `CircuitBreaker.BelowThreshold` | common_library/utils/retry.go:108-115 | against a backend that is down the first failureThreshold sequential calls all get through and then it is open |
| `CircuitBreaker.ProbesSpread` | common_library/utils/retry.go:93-100 | after that each further real call starts more than resetTimeout after the failure before it |
| `CircuitBreaker.DownBackendIsSpared` | common_library/utils/retry.go:93-115 | of all calls started by T after the opening failure at most failureThreshold + T / (resetTimeout + 1) are real, in whole ticks |
| `CircuitBreaker.PatientCallsPass` | common_library/utils/retry.go:93-115 | calls that each wait out the timeout all get through, however long the backend is down |
| `CircuitBreaker.BoundIsMet` | common_library/utils/retry.go:93-115 | for every threshold, timeout and T there are calls that reach the backend exactly as often as that bound allows |
| `BreakerRetry.RetryWithCircuitBreaker` | common_library/utils/retry.go:125-145 | the composed loop returns what the retry specification gives on the guarded outcomes, with that many real calls and that final breaker |
| `BreakerRetry.AttemptMeans` | common_library/utils/retry.go:125-145 | one attempt through the breaker, field by field: refused, successful, Unavailable or another error |
| `BreakerRetry.RefusedOrSame` | common_library/utils/retry.go:125-145 | either the breaker refused a call, or the result and the number of calls are those of plain RetryWithBackoff |
| `BreakerRetry.CountsUp` | common_library/utils/retry.go:108-115 | alone against a dead backend from Closed, the count rises by one a call and the breaker opens at the threshold |
| `BreakerRetry.DeadBackend` | common_library/utils/retry.go:125-145 | with gaps within resetTimeout it makes exactly min(maxRetries, threshold - count) real calls and ends with the open error exactly when attempts remain |
| `PaymentService.Service.CreateReceipt` | payment_service/internal/data/repository.go:36-56 | the retried insert: reply and rows after any losses of requests and replies |
| `PaymentService.Service.MarkAsPaid` | payment_service/internal/service/service.go:109-117 | the retried marking |
| `PaymentService.Service.SubmitPaymentReceipt` | payment_service/internal/service/service.go:68-122 | the saga as code equals its specification on every failure pattern: read, refuse if paid, draw the id once, insert, mark, return the receipt |
| `PaymentService.Service.VerifyReceipt` | payment_service/internal/service/service.go:166-180 | the retried UPDATE and read-back: reply and rows after any losses of requests and replies |
| `PaymentSaga.StepKeepsPaid` | payment_service/internal/service/service.go:76-117 | no step marks a lesson paid without a stored receipt; replies in flight and rows held by an edit count too |
| `PaymentSaga.StepKeepsMessages` | payment_service/internal/service/service.go:102-117 | a submit that asks to mark paid, or whose insert or marking was answered, has its receipt stored |
| `PaymentSaga.RunKeepsInv` | payment_service/internal/service/service.go:68-122 | the invariant over tables, in-flight requests, replies and snapshots in every interleaving |
| `PaymentSaga.PaidMeansReceipt` | payment_service/internal/service/service.go:87-117 | in every interleaving of any number of submits, stale lesson edits and markings, with crashes, lost, late and repeated messages: a lesson marked paid has a stored receipt |
| `PaymentSaga.OneReceiptPerSubmit` | payment_service/internal/service/service.go:87-107 | a submit stores at most one receipt however often its insert is served, exactly one if it succeeded, and every receipt is some submit's |
| `PaymentSaga.ReceiptsOnlyGrow` | payment_service/internal/service/service.go:166-180 | is_verified never goes back and no receipt disappears |
| `PaymentSaga.OverlappingSubmitsBothSucceed` | payment_service/internal/service/service.go:76-117 | two overlapping submits for one lesson both succeed, and a stale edit then leaves the lesson unpaid |
| `PaymentOnce.RunAnswersNobody` | payment_service/internal/service/service.go:76-86 | once a lesson is paid and while no UpdateLesson writes it back to unpaid, no submit without an answer gets one that lets it through |
| `PaymentOnce.AnsweredCanSucceed` | payment_service/internal/service/service.go:87-122 | a submit that was answered that its lesson is unpaid and has not failed succeeds if its remaining calls go through |
| `PaymentOnce.CanStillSucceedIff` | payment_service/internal/service/service.go:76-122 | so from a paid lesson on, in every interleaving that takes no payment back, a submit can still succeed if and only if it was answered before; none begun later can |
| `PaymentAccounts.SuccessWasDelivered` | payment_service/internal/service/service.go:102-107 | a retried call that reports success was answered by a served attempt |
| `PaymentAccounts.SubmitEffect` | payment_service/internal/service/service.go:68-122 | one submit stores at most its own receipt, marks only its own lesson and only after storing, succeeds only on an unpaid lesson, and changes nothing on a paid one |
| `PaymentAccounts.VerifyEffect` | payment_service/internal/data/repository.go:73-81 | verification changes no receipt but its own and of that only the flag, which is set afterwards exactly if it was set or some attempt's UPDATE ran; an answer is the stored row, verified; a missing receipt is never answered |
| `PaymentOutcome.SubmitSucceedsIff` | payment_service/internal/service/service.go:68-122 | a submit succeeds if and only if the lesson is known and unpaid, the id is free, all three calls get an answer, and no earlier attempt of the insert had reached the database; it then has stored its unverified receipt, marked its lesson, changed nothing else, and returns the receipt |
| `PaymentOutcome.RefusedSubmit` | payment_service/internal/service/service.go:76-86 | a missing lesson gives NOT_FOUND, a paid one ALREADY_EXISTS, a read that breaks its own error; nothing is stored |
| `PaymentOutcome.FailedInsert` | payment_service/internal/service/service.go:102-107 | an insert whose reply was lost and that is tried again ends the submit with ALREADY_EXISTS although the receipt is stored; one that breaks gives its error, the receipt being stored exactly if an attempt was served; the lesson stays unpaid |
| `PaymentOutcome.PastInsert` | payment_service/internal/service/service.go:109-121 | past the insert the receipt is stored; the marking's break is the submit's error, the lesson being paid exactly if an attempt was served |
| `PaymentOutcome.AnswersOrBreaks` | common_library/utils/retry.go:34-61 | every retried call gets the answer of its first delivered attempt or breaks with an error that is named |
| `PaymentOutcome.VerifySucceedsIff` | payment_service/internal/service/service.go:166-180 | a verification succeeds if and only if the receipt exists and an answer arrives; what it answers and stores in every other case |
| `PaymentRefinement.SubmitIsRun` | payment_service/internal/service/service.go:68-122 | whatever its calls meet, a submit of the code leaves the tables as some protocol run with one more submit does, which succeeds there exactly if the code's does |
| `PaymentRefinement.CodeIsProtocol` | payment_service/internal/service/service.go:68-180 | every sequential run of the code is a run of the protocol |
| `PaymentRefinement.PaidInCodeMeansReceipt` | payment_service/internal/service/service.go:87-117 | so in the code too a paid lesson has a stored receipt |
| `PaymentAccounts.ReceiptsBalance` | payment_service/internal/service/service.go:87-117 | over sequential submits with any failures: receipts of a lesson = its successful submits, at most one, plus the submits that failed after their insert took effect |
| `RowNumber.Pigeonhole` | homework_service/internal/repository/assignment.go:16-24 | distinct row numbers from 1 to the size of the partition include 1 |
| `RowNumber.FirstRow` | homework_service/internal/repository/assignment.go:16-33 | rn = 1 keeps exactly one row of every non-empty partition, a latest one, however ties are numbered |
| `RowNumber.FavouringNumbers` | homework_service/internal/repository/assignment.go:16-33 | every latest row is put first by some admissible numbering |
| `HomeworkStatus.OneJoinedRow` | homework_service/internal/repository/assignment.go:45-47 | the two left joins keep exactly one row per assignment and say what it carries |
| `HomeworkStatus.QueryIsDirect` | homework_service/internal/repository/assignment.go:15-49 | for any tables, clock and tie-break: exactly one row per assignment, its status one the direct definition allows, UNSPECIFIED exactly with neither submission nor due date |
| `HomeworkStatus.StatusByDueDate` | homework_service/internal/repository/assignment.go:38-44 | with nothing submitted the reported status is UNSPECIFIED without a due date, UNSENT before it and OVERDUE from it on |
| `HomeworkStatus.StatusByReview` | homework_service/internal/repository/assignment.go:38-47 | otherwise one submission is numbered 1, none is newer, and the reported status is REVIEWED exactly if it has feedback, else UNREVIEWED |
| `HomeworkStatus.RowsAreAssignments` | homework_service/internal/repository/assignment.go:34-48 | no row for anything else |
| `HomeworkStatus.EveryTieBreakHappens` | homework_service/internal/repository/assignment.go:16-24 | each latest submission is the one some tie-break picks |
| `HomeworkStatus.PickDecides` | homework_service/internal/repository/assignment.go:38-44 | the picked submission's feedback decides between UNREVIEWED and REVIEWED |
| `HomeworkStatus.TieBreakIrrelevantIff` | homework_service/internal/repository/assignment.go:16-33 | the status is independent of tie-breaks exactly when the latest submissions that share a time agree on having feedback |
| `HomeworkStatus.DueSoonExactly` | homework_service/internal/repository/assignment.go:127-134 | FindAssignmentsDueSoon returns exactly the in-window UNSENT or UNREVIEWED assignments |
| `HomeworkStatus.NormaliseStatuses` | homework_service/internal/server/homework_grpc/handler.go:146-153 | the handler loop keeps the specified statuses in order |
| `HomeworkStatus.SpecifiedHas` | homework_service/internal/server/homework_grpc/handler.go:146-153 | a status is kept exactly when it was requested and is not UNSPECIFIED |
| `HomeworkStatus.ListingOf` | homework_service/internal/repository/assignment.go:68-97 | ListByFilter's clauses over the status query select exactly by tutor, student and direct status |
| `HomeworkStatus.RequestedListing` | homework_service/internal/server/homework_grpc/handler.go:146-215 | what a listing request returns, a filter of only UNSPECIFIED listing everything |
| `HomeworkRuns.Store.CreateSubmission` | homework_service/internal/repository/submission.go:21-47 | the row stored, column by column, and the foreign key's refusal |
| `HomeworkRuns.Store.CreateFeedback` | homework_service/internal/repository/feedback.go:23-49 | the row stored, column by column, and the foreign key's refusal |
| `HomeworkRuns.Store.UpdateAssignment` | homework_service/internal/server/homework_grpc/handler.go:94-130 | the handler undisturbed, column by column: a present field lands in its column, an absent one leaves it, all else stays |
| `HomeworkRuns.Store.Update` | homework_service/internal/repository/assignment.go:202-231 | the repository's write: title, description, file and due date are overwritten, everything else stays |
| `HomeworkRuns.Store.DeleteAssignment` | homework_service/internal/repository/assignment.go:264-280 | afterwards no submission of the assignment and no feedback on one is left, and every other row of the three tables is as it was |
| `HomeworkRuns.Store.UpdateFeedback` | homework_service/internal/repository/feedback.go:51-77 | file and comment change, submission and creation time stay |
| `HomeworkRuns.LiveKeepsInv` | homework_service/migrations/0001_initial.up.sql:1-29 | references and strictly increasing creation times hold in every state of every run |
| `HomeworkRuns.QueryReportsStatusOf` | homework_service/internal/repository/assignment.go:15-49 | in every reachable state the query reports the one status of the assignment, however rows are numbered |
| `HomeworkRuns.SubmitMoves` | homework_service/internal/repository/submission.go:21-47 | a submission makes its assignment UNREVIEWED and moves no other |
| `HomeworkRuns.AssignMoves` | homework_service/internal/repository/assignment.go:170-200 | a new assignment is stored as given, its status is by its due date, and no other moves |
| `HomeworkRuns.DeleteMoves` | homework_service/internal/repository/assignment.go:264-280 | deleting an assignment removes it and moves no other |
| `HomeworkRuns.ReviewMoves` | homework_service/internal/repository/feedback.go:23-49 | feedback makes an assignment REVIEWED exactly when it is on its latest submission, and changes nothing otherwise |
| `HomeworkRuns.TickMoves` | homework_service/internal/repository/assignment.go:38-44 | time only turns UNSENT into OVERDUE, exactly when the due date passes |
| `HomeworkRuns.EditMoves` | homework_service/internal/server/homework_grpc/handler.go:94-130 | an undisturbed edit moves only its own assignment, only through the due date, only while nothing is submitted; a due date once set stays set |
| `HomeworkRuns.EditReviewMovesNothing` | homework_service/internal/repository/feedback.go:51-77 | editing feedback moves no status |
| `HomeworkRuns.LiveKeeps` | homework_service/internal/server/homework_grpc/handler.go:94-130 | over any run with edits one at a time, without its deletion, an assignment stays, stays submitted and keeps having a due date |
| `HomeworkRuns.SubmittedForGood` | homework_service/internal/repository/assignment.go:38-44 | once submitted, never UNSENT, OVERDUE or UNSPECIFIED again until deleted |
| `HomeworkEdits.UndisturbedEditIsEdit` | homework_service/internal/server/homework_grpc/handler.go:94-130 | read and write without anything in between are the edit in one piece |
| `HomeworkEdits.WriteMoves` | homework_service/internal/repository/assignment.go:202-231 | a late write moves the status of its own assignment only, only while nothing is submitted, to what the due date it brings gives |
| `HomeworkEdits.DueDatesKeptIff` | homework_service/internal/server/homework_grpc/handler.go:99-124 | with edits cut into read and write and interleaved with everything else, a due date once set stays until its assignment is deleted if and only if no handler that read none and brings none writes after another has set one |
| `HomeworkEdits.SubmittedThroughEdits` | homework_service/internal/repository/assignment.go:38-44 | however edits overlap, what is submitted stays UNREVIEWED or REVIEWED until deleted |
| `HomeworkEdits.OverlappingEditsLoseDueDate` | homework_service/internal/server/homework_grpc/handler.go:99-124 | two overlapping edits after which a due date is gone and UNSENT is UNSPECIFIED again |
| `CacheKeys.FamiliesDiffer` | api_gateway/internal/handler/user.go:326-365 | equal keys come from the same family, whatever the ids |
| `CacheKeys.KeysEqualIff` | api_gateway/internal/handler/user.go:326-365 | for all ids: two keys are equal exactly for the same request, or for two pairs whose ids joined by a colon read the same |
| `CacheKeys.KeysCollideIff` | api_gateway/internal/handler/user.go:358-365 | different requests share a key exactly when both are for pairs, one tutor id continuing the other past a colon by what the other student id has in front |
| `CacheKeys.KeysInjective` | api_gateway/internal/handler/user.go:326-365 | with colon-free tutor ids equal keys come from the same request |
| `CacheKeys.ColonsCollide` | api_gateway/internal/handler/user.go:358-365 | two pairs that do |
| `GatewayCache.Gateway.HandleWithCache` | api_gateway/internal/handler/utils.go:165-221 | lookup without regard to the caller, fetch on the caller's behalf, store: the response and the state after it |
| `GatewayCache.Gateway.UpdateUser` | api_gateway/internal/handler/user.go:64-80 | the write and both deletes, on success and on failure |
| `GatewayCache.Gateway.UpdateTutorProfile` | api_gateway/internal/handler/user.go:94-106 | the write and its delete |
| `GatewayCache.Gateway.WriteTutorStudent` | api_gateway/internal/handler/user.go:138-164 | update and deletion of a pair with their delete |
| `GatewayCache.Gateway.AcceptInvitation` | api_gateway/internal/handler/user.go:175-183 | the backend changes, the cache does not |
| `GatewayCache.WhoIsAnswered` | user_service/internal/service/service.go:168-281 | without a cache a stored row of public data is answered to every caller, a user's own to himself, a profile to its owner alone, a pair to either member alone; everybody else gets 403 |
| `GatewayCache.WhoIsRefused` | api_gateway/internal/handler/utils.go:34-54 | which error comes for a missing row, a stranger and an id that cannot be parsed |
| `GatewayCache.HitOrMiss` | api_gateway/internal/handler/utils.go:189-221 | a hit is served as stored and changes nothing; a miss is answered as without a cache, and only an answer of 200 is kept, for 300 seconds |
| `GatewayCache.UserUpdateIsSeen` | api_gateway/internal/handler/user.go:64-80 | whatever was cached, after a successful update of a user both views show the new rows to whoever asks by the same spelling |
| `GatewayCache.ProfileUpdateIsSeen` | api_gateway/internal/handler/user.go:94-106 | the same for a profile and its owner |
| `GatewayCache.PairWriteIsSeen` | api_gateway/internal/handler/user.go:138-164 | the same for a pair and its members; a deleted one gives 404 |
| `GatewayCache.AcceptanceIsSeenIff` | api_gateway/internal/handler/user.go:175-183 | an accepted invitation shows exactly if nothing, or the same row, was cached |
| `GatewayCache.RefusedWriteChangesNothing` | api_gateway/internal/handler/user.go:64-183 | a refused write changes no row |
| `GatewayCache.WritesTheirRowsOnly` | api_gateway/internal/handler/user.go:64-183 | a successful write changes the rows it is for and no others |
| `GatewayCache.ServeKeepsFresh` | api_gateway/internal/handler/user.go:64-183 | every request keeps all cached entries equal to the backend's values, apart from pairs an acceptance touched |
| `GatewayCache.CacheIsInvisibleIff` | api_gateway/internal/handler/utils.go:189-197 | handlers one at a time, canonical ids and colon-free tutor ids, no acceptance of the pair since its entry was stored: a GET is answered as if there were no cache if and only if the backend answers its caller or nothing is cached; a hit is the backend's current row whoever asks |
| `GatewayCache.CacheIsInvisible` | user_service/internal/service/service.go:188-281 | so for a user about himself, for public data and any caller, for a profile's owner and for either member of a pair the cache is invisible |
| `GatewayCache.OtherCallerSharesTheEntry` | user_service/internal/service/service.go:216-227 | after a tutor read the own profile another caller is answered from the cache, whom the backend refuses and who was refused before |
| `GatewayCache.OnlyPairsAreTouched` | api_gateway/internal/handler/user.go:175-183 | the exception needs an acceptance of that very pair in the run |
| `GatewayCache.AcceptanceLeavesStalePair` | api_gateway/internal/handler/user.go:175-183 | a run in which the exception shows |
| `GatewayCache.OtherSpellingLeavesStaleUser` | api_gateway/internal/handler/user.go:64-80 | an update under any other spelling of the id leaves the old answer in place |
| `CacheFreshness.HitWasTrue` | api_gateway/internal/handler/utils.go:165-221 | under every interleaving of reads cut into lookup, fetch and store with backend changes and deletes: what a hit serves was the backend's answer for that item to the caller of the request that stored it, whom it answers, at that request's fetch, later than now minus the time to live minus that request's fetch-to-store delay |
| `CacheFreshness.HitIsReadersIff` | user_service/internal/service/service.go:413-422 | what a hit serves is what the backend would have answered its reader at that instant if and only if it answers that reader about the item |
| `CacheFreshness.UndisturbedReadIsServe` | api_gateway/internal/handler/utils.go:165-221 | the three steps run without interruption are the sequential handler |
| `CacheFreshness.UndisturbedUpdateIsServe` | api_gateway/internal/handler/user.go:64-80 | the changes and deletes of an update of a user are the sequential update |
| `CacheFreshness.UndisturbedWritesAreServe` | api_gateway/internal/handler/user.go:94-183 | the same for profiles, pairs and acceptances |
| `CacheFreshness.EndedFlightStoresNothing` | api_gateway/internal/handler/utils.go:205-221 | a request that died, or has stored, stores nothing more |
| `CacheFreshness.BoundIsReached` | api_gateway/internal/handler/user.go:64-80 | for any item and any delay a race of a read with an update and its delete serves the old answer until the last second of that bound |
| `SqlText.NumberOfDecimal` | homework_service/internal/repository/assignment.go:74-92 | a formatted number reads back as itself |
| `SqlText.ReadInTurn` | homework_service/internal/repository/assignment.go:74-97 | texts that no word straddles are read one after the other |
| `SqlText.ReadPlaceholder` | homework_service/internal/repository/assignment.go:89 | `$k` reads as placeholder k |
| `SqlMeaning.ReadsConds` | homework_service/internal/repository/assignment.go:74-94 | a written list of conditions, IN lists of any length included, parses back to itself |
| `SqlMeaning.ReadsAssigns` | user_service/internal/data/query_builders.go:12-34 | a written SET list parses back to itself |
| `SqlClauses.ReadPlaceholders` | homework_service/internal/repository/assignment.go:86-93 | placeholders joined by commas read as the list of their numbers, for any length |
| `SqlClauses.AnswerCounts` | homework_service/internal/repository/assignment.go:94-97 | whatever may come back for a query with that meaning holds every selected row as often as it is stored and no other, in the order asked |
| `SqlBuilders.AddEqual` | homework_service/internal/repository/assignment.go:74-84 | appending `AND column = $k` with its argument narrows the answer to that value and continues the numbering |
| `SqlBuilders.AddIn` | homework_service/internal/repository/assignment.go:86-94 | appending `AND column IN ($k, ...)` with its arguments narrows the answer to those values and continues the numbering |
| `SqlAssignments.StatusPlaceholders` | homework_service/internal/repository/assignment.go:86-92 | the loop over the statuses |
| `SqlAssignments.ListByFilter` | homework_service/internal/repository/assignment.go:68-94 | for every filter, any number of statuses: the placeholders are exactly $1 to $n matching the n arguments, and what the text, read and evaluated, may return is exactly the rows that pass the filter, each as often as stored, in any order |
| `SqlAssignments.ListingMeans` | homework_service/internal/repository/assignment.go:68-97 | in the rows' own fields: tutor and student equal the given ids, status is among those given, absent ones asking for everything |
| `SqlLessons.StatusFilter` | schedule_service/internal/database/postgres/postgres.go:344-349 | the placeholder loop, the i-th status bound to $(i + first) |
| `SqlLessons.ListLessonsByTutor` | schedule_service/internal/database/postgres/postgres.go:334-355 | the same for the tutor's lessons in the given statuses, in an order by start: any answer sorted so may come back and no other |
| `SqlLessons.ListLessonsByStudent` | schedule_service/internal/database/postgres/postgres.go:357-378 | the same for the student's lessons, sorted by start |
| `SqlLessons.ListLessonsByPair` | schedule_service/internal/database/postgres/postgres.go:380-401 | the same for a pair's lessons, sorted by start, numbering from $3 |
| `SqlLessons.TutorListingMeans` | schedule_service/internal/database/postgres/postgres.go:334-355 | in the rows' own fields: that tutor's lessons in the statuses given, or in any, earlier ones first |
| `SqlLessons.StudentListingMeans` | schedule_service/internal/database/postgres/postgres.go:357-378 | the same by student |
| `SqlLessons.PairListingMeans` | schedule_service/internal/database/postgres/postgres.go:380-401 | the same by both |
| `SqlLessons.ListingAnswers` | schedule_service/internal/database/postgres/postgres.go:334-401 | for any rows a listing has an answer: the kept rows can be put in that order |
| `SqlUsers.BuildListTutorStudentsQuery` | user_service/internal/data/query_builders.go:129-156 | the same for the pair listing with either id, both or none |
| `SqlUsers.PairListingMeans` | user_service/internal/data/query_builders.go:129-156 | in the rows' own fields: the pairs with the given tutor and the given student, absent ones asking for everything |
| `SqlUpdates.OverwriteIsPatch` | user_service/internal/data/query_builders.go:12-52 | assigning the present fields by placeholder writes exactly those columns and leaves every other column of the row |
| `SqlUpdates.ReadWholeUpdate` | user_service/internal/data/query_builders.go:36-52 | the whole UPDATE text reads as its table, assignments and key conditions, with placeholders $1 to $n and then the key's |
| `SqlUpdates.PatchedCells` | user_service/internal/data/query_builders.go:36-52 | cell by cell: a row that carries every key has the present fields in their columns, and every other cell of the table stays |
| `SqlUsers.SetIfPresent` | user_service/internal/data/query_builders.go:17-31 | one optional field: absent, nothing is added |
| `SqlUsers.UserFieldsMean` | user_service/internal/data/query_builders.go:17-31 | each field of a user's update lands in its own column, with its value, exactly if present |
| `SqlUsers.ProfileFieldsMean` | user_service/internal/data/query_builders.go:59-73 | the same for profiles |
| `SqlUsers.PairFieldsMean` | user_service/internal/data/query_builders.go:97-111 | the same for pairs |
| `SqlUsers.BuildUserUpdateQuery` | user_service/internal/data/query_builders.go:12-52 | refused exactly when no field is present; otherwise, with the id appended, the statement writes the present fields of that row and leaves all other columns and rows |
| `SqlUsers.BuildTutorProfileUpdateQuery` | user_service/internal/data/query_builders.go:54-90 | the same for tutor profiles, keyed by user |
| `SqlUsers.BuildUpdateTutorStudentQuery` | user_service/internal/data/query_builders.go:92-127 | the same for pairs, keyed by tutor and student |

## Left out

- PaymentAccounts.ReceiptsBalance: sequential submits only, because overlapping ones can both succeed; `PaymentOnce.CanStillSucceedIff` says which.
- SqlUsers.BuildUserUpdateQuery: the database trigger that sets edited_at is not modelled; the same goes for the other two updates.
- SqlUsers.SetIfPresent: the block repeated per field in the three builders is one method here.
- SqlAssignments.StatusPlaceholders: the loop inside the listing is a method of its own here; the same goes for `SqlLessons.StatusFilter`.
- GatewayCache.CacheIsInvisibleIff: cache deletes are taken to succeed and rows that appear behind the gateway only where there was none.
- PaymentService.Service.SubmitPaymentReceipt: leaves out the role check and the refusal of empty ids that come before the first call; the same goes for VerifyReceipt.
- HomeworkRuns.Store.UpdateFeedback: its read and write are one step; overlapping edits of a feedback can lose file or comment, which no status depends on.
- Permission checks on callers beyond those in the modelled handlers, and the mapping of error codes to HTTP beyond the gateway's cached reads.
- Redis, Kafka, S3, Telegram and HMAC checking, protobuf and its conversions, service start-up and configuration.
- The row-scan loops of repositories and the listing of submissions and feedbacks.
- ListCompletedUnpaidLessons and the reminder workers, which only read.
- Registration of users and the overrides of ResolveTutorStudentContext.
- Nothing was executed: the statements are about the model.
