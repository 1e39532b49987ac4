# Verified model of Tama Link's durable state

Tama Link keeps its durable state in one SQLite database and one secret store. Several processes
share both; each can stall, lose its lease or crash between any two calls. This project models the
code that keeps that state consistent and proves what it promises.

Where the source reads and writes tables one call at a time, the model is a class whose methods are
proved against specification functions (`LeaseTable`, `FenceTable`, `Store`). Where the point is what
several processes can do to each other, the model is a step system: one step per transaction, secret
call, upstream call or channel operation, every interleaving allowed, and theorems over all runs.
Where the source is a small exact algorithm, the model is that algorithm with its loops, proved
against an independent definition.

| file | what it models |
|---|---|
| `Runs.dfy` | runs of any step system |
| `Leases.dfy` | named leases, their deadlines and ownership epochs |
| `CredentialFences.dfy` | the fence table: pointers, retirement backlog, invalidation marker |
| `CredentialProtocol.dfy`, `CredentialSafety.dfy`, `CredentialTheorems.dfy` | refresh, authorization, registration and logout as racing processes |
| `CredentialCompletion.dfy` | what those transactions achieve when their calls succeed, and that they end |
| `CredentialLegacy.dfy` | the legacy single-label refresh grant |
| `SubmissionStates.dfy`, `SubmissionStore.dfy` | the state machine, the accepted limits, the tables and their operations |
| `SubmissionInvariant.dfy`, `SubmissionHistories.dfy` | what every operation keeps, and whole runs |
| `EventHistory.dfy`, `Await.dfy`, `Polling.dfy` | bounded event history, await answers, cursor polling |
| `RetryIdentity.dfy`, `JsonDepth.dfy` | the identity of an idempotent request, the nesting scanner |
| `TaskDriver.dfy`, `TaskEndings.dfy` | how often the upstream call is made, and how a submission ends |
| `InputDelivery.dfy`, `InputCompletion.dfy` | racing deliveries of input responses, and what one await delivers |
| `WorkerPool.dfy`, `WorkerProgress.dfy` | the bounded pool, and what becomes of the work it is given |
| `JsonValues.dfy`, `SchemaVocabulary.dfy`, `SchemaValidation.dfy`, `JsonLiterals.dfy` | the schema dialect, its check and its validator |
| `ArgumentQuoting.dfy` | command-line quoting |

## What the proofs found

Five promises hold only under a condition. The code is modelled as it is; each has a run that
breaks the promise and a theorem that says exactly when it is kept.

- At most one upstream call. `prepare` reads the row back after its own move to queued
  (`internal/application/task_run.go:79-92`). If its lease expired in between and another driver has
  moved the row on, it still has `first` set and may call as well. `TaskDriver.TwoCallsAreReachable` is
  such a run. Two drivers come to the call in a run exactly when one read-back finds the row past
  queued, unfinished and without a task ID, and the driver that had moved it on finds it so too, in
  either order (`TaskDriver.TwoDriversComeToCall`); `TaskDriver.ReadBackDecides` states the guard at the
  step, and `TaskDriver.AtMostOneCall` proves the promise for every run in which the lease row still
  names the driver at that read. More than two calls are never made
  (`TaskDriver.AtMostOnceUnlessOvertaken`).
- A response marked sent is not sent again. `CommitLease` and the mark are two transactions, and the
  lease is read once before the update. `InputDelivery.MarkedCanBeSentAgain` is a run that repeats a
  marked response although its sender holds the delivery epoch. An update repeats a response exactly
  when another await marked it between the sender's last read of it and the update, or when the row had
  been deleted before that read and the response marked before (`InputDelivery.UpdateRepeatsExactlyAMarkSinceTheRead`);
  every response sent had such a read (`InputDelivery.EveryUpdateWasRead`), and
  `InputDelivery.MarkedIsNotSentAgain` proves the promise while delivery sections do not overlap.
- A superseded legacy grant stays masked. The invalidation marker is not tied to the epoch.
  `CredentialLegacy.OverlapBringsADeadGrantBack` is a run that unmasks one,
  `CredentialLegacy.WhenAGrantIsUnmasked` says exactly which calls do, and
  `CredentialLegacy.DeadGrantNeverComesBack` proves the promise for sections that do not overlap.
- A rejected legacy grant is not readable again (`internal/oauth/refresh.go:159-163` and `185-189`).
  Nothing durable records the rejection itself: if the process crashes, or reading or marking fails,
  before the marker is written, the next load returns the rejected grant
  (`CredentialLegacy.RejectedGrantOutlivesACrash`). With sections that do not overlap it is readable
  after a run exactly as long as no later call has set the marker or committed the fence
  (`CredentialLegacy.RejectedGrantIsReadableUntilClosed`).
- At most twice `MaxInFlight` goroutines. That bounds the goroutines that hold a slot or a parking
  place. Those that gave theirs back and have not yet deleted their mark come on top, so more than
  twice the bound live exactly when more of them leave than slots and places are free
  (`WorkerPool.PoolIsBounded`); for every bound their number is unlimited
  (`WorkerPool.AnyNumberCanBeLive`).

The map iteration order and the exact text of errors never matter to a stated result. In the byte-level
modules (`RetryIdentity`, `JsonDepth`, `ArgumentQuoting`) a Dafny `char` stands for one byte; in
`JsonValues` it stands for one Unicode code point.

## Model

| member | source | states |
|---|---|---|
| Leases.DeadlineIsTheFirstInstantNotEarly | internal/store/lease.go:165-172 | a lease deadline is the first whole millisecond not before now plus the TTL, and a fresh claim with a valid TTL is live |
| Leases.LeaseTable.ClaimLease | internal/store/lease.go:21-45 | the new table; the claim succeeds exactly when the row was free, expired or its own and the deadline has not passed at the second clock reading; then the row carries its deadline, and its generation rises exactly on a change of owner |
| Leases.LeaseTable.RenewLease | internal/store/lease.go:49-67 | a successful renewal puts its own deadline into the row, which is held at the second clock reading, and keeps the epoch; a row that is not held is left alone |
| Leases.LeaseTable.LeaseGeneration | internal/store/lease.go:71-86 | returns a generation exactly when the owner holds the lease in that epoch now |
| Leases.LeaseTable.CommitLease | internal/store/lease.go:92-107 | true exactly when the owner holds the lease in the given epoch now |
| Leases.LeaseTable.ReleaseLease | internal/store/lease.go:110-123 | deletes the row of the owner and nothing else |
| Leases.GenerationCountsOwnerChanges | internal/store/lease.go:21-45 | while the row is not deleted its generation rises by one at each change of owner and never otherwise, so equal generations mean unbroken ownership |
| Leases.EpochFoundAgainWasNeverLost | internal/store/lease.go:92-123 | with deletions allowed, finding the epoch again without a claim in between means the owner held it throughout |
| Leases.LostStaysLost | internal/store/lease.go:21-123 | a lost lease stays lost until the owner claims again |
| Leases.GrantStandsUntilItsDeadline | internal/store/lease.go:21-67 | ownership intervals of different owners never overlap: while each grant is extended before its deadline, whatever others try, the row is the one the owner's own claims and renewals alone would leave |
| Leases.GrantsAreGood | internal/store/lease.go:21-67 | after a successful claim or renewal nothing another owner tries before its deadline changes the row |
| CredentialFences.NamesNeverCollide | internal/store/fence.go:229-231 | pointer, marker and record names never collide, and a record name determines its fence and slot |
| CredentialFences.FenceTable.ReadCredentialFence | internal/store/fence.go:60-74 | the pointer of the fence, if any |
| CredentialFences.FenceTable.CommitCredentialFence | internal/store/fence.go:90-164 | advances the pointer and records the retired slot and labels exactly when the epoch is held and the generation is newer; otherwise nothing changes |
| CredentialFences.FenceTable.ClearCredentialFence | internal/store/fence.go:179-224 | clears the pointer and records the slot exactly when the epoch is held |
| CredentialFences.FenceTable.MarkRefreshCredentialInvalidated | internal/store/fence.go:245-253 | sets the marker and touches no pointer or record |
| CredentialFences.FenceTable.ClearRefreshCredentialInvalidation | internal/store/fence.go:257-263 | removes the marker and touches no pointer or record |
| CredentialFences.FenceTable.RefreshCredentialInvalidated | internal/store/fence.go:268-279 | reads the marker |
| CredentialFences.FenceTable.Record | internal/store/fence.go:286-300 | adds one record to the retirement backlog |
| CredentialFences.FenceTable.RetiredCredentialSlots | internal/store/fence.go:304-327 | lists exactly the backlog of the fence, each slot once |
| CredentialFences.FenceTable.ClearRetiredCredentialSlot | internal/store/fence.go:331-343 | removes one record and nothing else |
| CredentialTheorems.FenceChangesAreLinearized | internal/oauth/refresh.go:35-142 | in every run, when a commit or clear takes effect nobody moved that fence since the transaction read it, so the slot it retires is the slot it replaces |
| CredentialTheorems.OnlyALostEpochRejects | internal/oauth/fence.go:117-183 | a writer about to commit is turned away exactly when it lost its lease epoch |
| CredentialTheorems.CommittedSlotsAreReachable | internal/oauth/fence.go:117-222 | in every reachable state a committed slot still in the secret store is current or on record, and no slot on record is current |
| CredentialTheorems.CurrentSlotsSurvive | internal/oauth/register.go:380-465 | in runs without a logout the current slot always exists |
| CredentialTheorems.InvHolds | internal/oauth/token.go:204-291 | refresh, authorization, registration and logout all keep the credential invariant in every interleaving; what they achieve is stated by the rows of CredentialCompletion |
| CredentialSafety.NextIsLicensed | internal/oauth/refresh.go:165-283 | every call a transaction makes is licensed by what it read and holds |
| CredentialCompletion.LogoutIsComplete | internal/oauth/token.go:204-292 | a logout that keeps its epoch and whose calls succeed ends, whatever others do meanwhile, with no pointer at either fence, no legacy label, and every slot that was current or on record when it began gone |
| CredentialCompletion.LogoutsComplete | internal/oauth/token.go:204-292 | left alone it comes to that end |
| CredentialCompletion.AuthorizationIsComplete | internal/oauth/fence.go:117-183 | an authorization that succeeds ends with a new slot current and present, and the slot and legacy grant it replaces gone |
| CredentialCompletion.RegistrationIsComplete | internal/oauth/register.go:380-446 | a registration that succeeds ends with a new client slot current and present, the legacy record gone, and no grant of the old registration readable |
| CredentialCompletion.RefreshIsComplete | internal/oauth/refresh.go:35-142 | a refresh that comes to the exchange replaces the grant when the server answers and drops it when the server rejects it |
| CredentialCompletion.RefreshFindsNothing | internal/oauth/fence.go:61-100 | a refresh that never comes to the exchange found no grant that can be loaded, and changed nothing |
| CredentialCompletion.TransactionsEnd | internal/oauth/refresh.go:339-365 | every transaction that is left alone, keeps its epoch and whose calls succeed comes to its end |
| CredentialCompletion.UncommittedSlotsAreRolledBack | internal/oauth/fence.go:131-166 | a writer whose slot is not committed, for whatever reason, goes on to roll it back |
| CredentialCompletion.RollbacksLeaveNoOrphan | internal/oauth/fence.go:189-204 | a rolled back slot is deleted or recorded unless both calls fail |
| CredentialLegacy.DeadGrantNeverComesBack | internal/oauth/fence.go:61-100 | with sections that do not overlap a superseded legacy grant is masked after every run, whatever crashes or fails to delete |
| CredentialLegacy.ReadableUntilClosed | internal/oauth/fence.go:61-100 | with sections that do not overlap the legacy grant is readable after a run exactly when it was before and no call of the run set the marker or committed the fence |
| CredentialLegacy.RejectedGrantIsReadableUntilClosed | internal/oauth/refresh.go:159-232 | a legacy grant the server rejected is readable again exactly as long as no later call has set the marker or committed the fence |
| CredentialLegacy.RejectedGrantOutlivesACrash | internal/oauth/refresh.go:185-205 | a run without overlapping sections after which a rejected grant is readable |
| CredentialLegacy.WhenAGrantIsUnmasked | internal/store/fence.go:245-263 | a call unmasks the legacy grant exactly when it removes the marker with no fence in place, or clears the fence with no marker set; the program points at which a transaction does so |
| CredentialLegacy.OverlapBringsADeadGrantBack | internal/oauth/token.go:204-280 | a run with overlapping sections that unmasks one |
| SubmissionStates.PathShape | internal/submission/submission.go:35-66 | every allowed path is accepted, queued, then running and input_required in turn, and ends at its first terminal status |
| SubmissionStates.PathsAreTheLifecycles | internal/submission/submission.go:35-66 | from acceptance, the state machine lets through exactly the lifecycles |
| SubmissionStates.PersistedIsTheLeastCover | internal/store/accepted_limits.go:37-41 | a positive duration is stored as the least whole number of milliseconds not below it |
| SubmissionStates.AcceptedLimitsStayValid | internal/store/accepted_limits.go:25-56 | limits captured from a valid profile pass every later check, keep the payload deadline before the tombstone deadline, and retentions are rounded up by less than a millisecond |
| SubmissionStore.Store.CreateSubmission | internal/store/submission.go:99-206 | accepted exactly when the request is well-formed and within ceilings and profile and key and ID are free; then the row holds the arguments, tool, key and limits as given, and every other column its initial value; otherwise nothing changes |
| SubmissionStore.Store.ReconcileIdempotentSubmission | internal/store/submission.go:221-260 | the read-only answer to a reused key |
| SubmissionStore.Store.Reconcile | internal/store/submission.go:262-286 | the answer of an insert that lost the race |
| SubmissionStore.RaceHashesOfOwn | internal/store/submission.go:120-129 | the hashes an insert reconciles with are those of its candidates and its own |
| SubmissionStore.Store.RequireLiveLease | internal/store/lease_guard.go:15-29 | true exactly when the owner holds a live lease |
| SubmissionStore.Store.Transition | internal/store/transition.go:43-124 | let through exactly under a live lease on a readable row whose status allows the move; then the status, task ID, error and, for a terminal status, the three end columns are as given and every other column is unchanged |
| SubmissionStore.Store.Complete | internal/store/transition.go:144-165 | succeeds exactly when the move is let through and the result is within the accepted bound, and stores it whole; over the bound it fails the row with the fixed error; every column is stated |
| SubmissionStore.Store.FailLeased | internal/store/transition.go:169-178 | a leased terminal failure with the code, message and retryable given; refused exactly for an invalid error, a lease not held or a move not allowed |
| SubmissionStore.Store.Finish | internal/store/transition.go:180-241 | the one terminal write, column by column: result or error, completion time and both deadlines, the rest unchanged |
| SubmissionStore.Store.CaptureTerminalLeased | internal/store/terminal_evidence.go:17-86 | evidence within the accepted bound is stored with the status and error given, evidence over it is left out and the row fails; an ended row is left alone; every column is stated |
| SubmissionStore.Store.AppendEvents | internal/store/event.go:17-70 | a batch is accepted exactly when its events are own, increasing and within the row's bounds; the longest tail of the history that fits the row's bounds is kept; a refused batch changes nothing |
| SubmissionStore.Store.SaveTaskRecordLeased | internal/store/task_meta.go:30-83 | writes exactly the observation of a row that has not ended, under a live lease, or nothing |
| SubmissionStore.Store.AttachTaskID | internal/store/input.go:144-171 | attached exactly when the row has no task ID or the same one; nothing else changes |
| SubmissionStore.Store.ReplaceTaskIDLeased | internal/store/task.go:14-53 | replaces exactly the task ID of a running row under its lease, or changes nothing |
| SubmissionStore.Store.SetInputResponse | internal/store/input.go:53-88 | the first response stays and is recorded unsent; a different one is a conflict and changes nothing |
| SubmissionStore.Store.MarkInputResponsesSent | internal/store/input.go:113-130 | marks exactly the listed responses that are there and unsent, up to the first empty ID, and moves no earlier mark |
| SubmissionStore.Store.GC | internal/store/gc.go:24-44 | the tables after one sweep and the two counts |
| SubmissionStore.Store.ExpirePayloads | internal/store/gc.go:48-73 | afterwards no row past its payload deadline holds a payload and no other row has changed; what retries and later sweeps compare is kept; the count is that of the rows that changed |
| SubmissionStore.Store.DeleteLapsedTombstones | internal/store/gc.go:80-115 | the loop deletes each lapsed row with its key and its input responses |
| SubmissionInvariant.StepKeepsDbInv | internal/store/transition.go:43-241 | every store operation keeps the invariant of every row and the bijection between keys and submissions |
| SubmissionInvariant.ReachableStatesAreSound | internal/store/submission.go:99-206 | in every reachable state all rows are readable and submissions and idempotency keys are in bijection |
| SubmissionInvariant.TerminalRowsHoldOneOutcome | internal/store/transition.go:180-241 | a terminal row that is no tombstone holds exactly one of result and error |
| SubmissionInvariant.CapturedHolds | internal/store/terminal_evidence.go:51-86 | a capture keeps the row invariant |
| SubmissionInvariant.SweptHolds | internal/store/gc.go:48-73 | a sweep keeps the row invariant |
| SubmissionHistories.StatusHistoriesAreLegal | internal/submission/submission.go:50-66 | in every run the statuses of a row are a path of allowed moves followed at most by one expiry |
| SubmissionHistories.AtMostOneTerminalWrite | internal/worker/runner.go:94-158 | among all racing leased and unleased writers at most one ends the submission |
| SubmissionHistories.TheWinnerStands | internal/store/transition.go:207-239 | the winner's outcome, evidence, events and deadlines stay as written until a sweep at or after the payload deadline |
| SubmissionHistories.SweepIsExact | internal/store/gc.go:24-115 | a sweep touches no pending row, drops nothing before its deadline, and leaves nothing past it |
| SubmissionHistories.RetriesFindTheOriginal | internal/store/submission.go:221-286 | a reused key finds the original exactly when the request is the same, on the read-only path and on a lost insert alike, however long after |
| SubmissionHistories.AcceptedRequestStays | internal/store/submission.go:159-191 | over whole runs a kept row carries the tool, key and limits it was created with, and its arguments until a sweep at or past the payload deadline |
| SubmissionHistories.FirstAnswerStays | internal/store/input.go:47-130 | while a submission is kept the first response recorded for an input request stays, and so does its sent mark |
| EventHistory.EncodedEventsSize | internal/store/event.go:109-124 | the size is the length of the encoded array |
| EventHistory.TrimEvents | internal/store/event.go:98-107 | drops the oldest until both bounds hold |
| EventHistory.TrimmedIsTheLongestFittingSuffix | internal/store/event.go:98-107 | what is retained is the longest suffix that fits both bounds |
| EventHistory.TrimmingEarlyIsHarmless | internal/store/event.go:89-93 | trimming before an append changes nothing |
| EventHistory.MergeEvents | internal/store/event.go:72-96 | trimming after each event ends where one trim at the end would; a bad batch is refused as a whole |
| EventHistory.AcceptedExactly | internal/store/event.go:72-96 | the checks accept exactly batches of own events within both size bounds whose sequences increase past the stored one |
| EventHistory.HistoryIsOneFinalTrim | internal/store/event.go:17-96 | after any series of calls the retained events are one trim of everything accepted, sequences strictly increase, and the stored sequence is the last |
| Await.CursorParsesBack | internal/application/await.go:192-216 | a cursor parses back to its sequence exactly when it fits 64 bits |
| Await.GivenCursorIsAccepted | internal/application/await.go:26-37 | a cursor within the sequence is accepted and means what it meant |
| Await.CursorsAreAcceptedExactly | internal/application/await.go:26-37 | exactly the empty cursor and decimal texts up to the submission's sequence are accepted, as the number they denote |
| Await.WaitIsBounded | internal/application/await.go:101-117 | exactly the timeouts above the maximum are refused, none accepted overflows, and zero means the default |
| Await.BuildOutput | internal/application/await.go:219-291 | for a row of the store a terminal answer carries exactly one of result and valid error; a pending one carries neither and the row's poll interval, or one second when that is out of range |
| Await.PollReturnsTheNewEvents | internal/application/await.go:220-231 | a poll returns exactly the retained events past the cursor, in order, and the cursor of the last |
| Polling.DeliveryIncreases | internal/application/await.go:219-239 | all batches together strictly increase, so none overlap |
| Polling.CursorStaysWithin | internal/application/await.go:34-37 | no cursor is beyond the sequence of any later read |
| Polling.MissesOnlyWhatWasDropped | internal/application/await.go:219-239 | an event is missed exactly when it was dropped before the first poll after its append |
| Polling.PollingClient | internal/application/await.go:21-57 | the three statements for a client that polls at any points of any run of the store |
| RetryIdentity.EncodeRoundTrip | internal/application/submit.go:198-215 | the JSON text of a thread ID decodes to it |
| RetryIdentity.IdentityIsUnambiguous | internal/application/submit.go:189-215 | equal identity texts have equal arguments and an equal thread field, absent and null included |
| RetryIdentity.HashInputIsInjective | internal/store/submission.go:295-310 | the length-delimited framing determines tool and identity |
| RetryIdentity.ExactRetryDecision | internal/application/submit.go:221-258 | a candidate matches exactly when tool and canonical arguments agree and the thread ID was not mappable at acceptance or is the same |
| RetryIdentity.InsertRaceDecidesAlike | internal/store/submission.go:117-129 | the insert race looks for no other hash than the read-only path |
| JsonDepth.Depth | internal/store/validation.go:43-73 | the loop computes the scanner's maximum |
| JsonDepth.DepthIsNesting | internal/store/validation.go:41-73 | for every JSON text the scanned depth is the structural nesting, strings and escapes included |
| TaskDriver.AtMostOnceUnlessOvertaken | internal/application/task_run.go:67-126 | at most two upstream calls in any run, and one unless a driver was overtaken at its read-back |
| TaskDriver.AtMostOneCall | internal/application/task_run.go:67-157 | at most one call in runs where the lease row still names the driver at its read-back; how such runs end is stated by the rows of TaskEndings |
| TaskDriver.ReadBackDecides | internal/application/task_run.go:78-92 | a driver at its read-back, left alone, calls exactly when it finds the row past queued, unfinished and without a task ID, whoever has called before |
| TaskDriver.TwoDriversComeToCall | internal/application/task_run.go:67-126 | over whole runs: two drivers come to the call exactly when one's read-back finds the row past queued, unfinished and without a task ID and the one that moved it on finds it so too, in either order; never three |
| TaskDriver.CallersCameToCall | internal/application/task_run.go:99-126 | only a driver that came to the call makes it |
| TaskDriver.ComingToCallIsCalling | internal/application/task_run.go:99-126 | a driver that came to the call and is left alone makes it |
| TaskDriver.TwoCallsAreReachable | internal/application/task_run.go:78-126 | a run with two calls |
| TaskDriver.OnlyALostLeaseIsOvertaken | internal/store/transition.go:73-123 | a driver whose lease row still names it finds the row queued |
| TaskDriver.FollowKeepsInv | internal/application/task_follow.go:140-181 | following and failing never entitle another driver to call |
| TaskEndings.EndsHaveReasons | internal/application/task_run.go:98-157 | over whole runs a submission ends only with a status observed upstream, failed after an answer that ends it, or with its outcome unknown after an ambiguous call |
| TaskEndings.NeverFailedWithoutAnError | internal/application/task_run.go:112-148 | in no run without such an answer does a submission end failed |
| TaskEndings.AmbiguousCallsEndUnknown | internal/application/task_follow.go:140-181 | a driver that comes to an ambiguous call and is left alone under its lease ends the row with its outcome unknown; one that gets an answer that ends it, as failed |
| TaskEndings.HandlesAreAttached | internal/application/task_run.go:115-125 | a driver that got a task records it unless one is recorded, and follows it |
| TaskEndings.ObservationsAreWritten | internal/application/task_follow.go:16-106 | a following driver writes what it observes exactly when it is a legal move under its lease |
| TaskEndings.AcceptedSubmissionsAreCalled | internal/application/task_run.go:67-115 | the driver of a new submission, left alone under its lease, makes the call |
| InputDelivery.UpdatesAgree | internal/application/task_input.go:43-190 | every update ever sent carries the same value per request ID, and a mark follows an acknowledged update whose sender still held its epoch |
| InputDelivery.MarkedIsNotSentAgain | internal/application/task_input.go:143-190 | no marked response is sent again while delivery sections do not overlap |
| InputDelivery.UpdateRepeatsExactlyAMarkSinceTheRead | internal/application/task_input.go:102-159 | over whole runs: an update repeats a marked response exactly when another await marked it between the sender's last read of it as pending and the update, or the row was gone at that read and it had been marked before |
| InputDelivery.EveryUpdateWasRead | internal/application/task_input.go:102-137 | every response an await is about to send was read as pending at one step of the run |
| InputDelivery.MarkedIsTheHistory | internal/store/input.go:113-130 | the record of marks is exactly the history of marking steps |
| InputDelivery.MarkedCanBeSentAgain | internal/application/task_input.go:143-159 | a run that repeats a marked response while holding the epoch |
| InputDelivery.FirstResponseStays | internal/store/input.go:53-88 | first write wins: whatever other awaits bring, the first response of a request stays, and stays marked, until the row is deleted |
| InputCompletion.AwaitsDeliver | internal/application/task_input.go:43-159 | an await left alone under its lease that may go on with every response records them all, sends exactly those asked for and not yet sent in one update, and marks exactly these |
| InputCompletion.AwaitsRefuse | internal/application/task_input.go:62-81 | when one response differs from the recorded one or is not asked for, the await ends without an update |
| InputCompletion.DeliversPending | internal/application/task_input.go:102-190 | from what it found pending an await sends what is still asked for and unsent, and marks exactly that |
| WorkerPool.PoolIsBounded | internal/worker/service.go:147-213 | in every reachable state at most `max` execute and no ID twice; the live goroutines are exactly the at most `2 * max` holders and those on their way out; slots, places and the in-flight set are exact |
| WorkerPool.NothingOutlivesStop | internal/worker/service.go:135-139 | when Stop can return nothing is left and nothing starts later |
| WorkerPool.AnyNumberCanBeLive | internal/worker/service.go:200-213 | for every bound any number of goroutines can live at once |
| WorkerPool.GoKeepsCounts | internal/application/task_service.go:167-180 | each step of a goroutine keeps the counts |
| WorkerPool.LoopKeepsMarks | internal/application/task_service.go:141-165 | each step of the loop keeps the marks exact |
| WorkerProgress.OffersAreDecided | internal/worker/service.go:156-190 | the ID taken from the queue is executed when a slot is free, parked when only a parking place is, turned away without a trace when neither is, and dropped when in flight |
| WorkerProgress.ParkedIsExecuted | internal/worker/service.go:200-211 | a parked ID is executed once a slot is free, or gives everything back on cancellation |
| WorkerProgress.ExecutionsGiveBack | internal/worker/service.go:200-214 | an execution that ends gives back its slot, its place, its mark and its wait-group share, and nothing else |
| JsonValues.ExactIntegersAreIntegers | internal/catalog/validate.go:362-372 | a literal is an integer exactly when it denotes one, however it is written |
| JsonValues.CountsAreExact | internal/catalog/decimal.go:47-77 | a count is accepted exactly when it denotes an integer within the bound, and held as that integer |
| JsonValues.CmpIsTransitive | internal/catalog/decimal.go:105-114 | exact decimal comparison is an order on values, not on spellings |
| JsonValues.JsonInstanceEqual | internal/catalog/decimal.go:87-163 | equal exactly under instance equality, whatever the order of iteration |
| SchemaVocabulary.RequireUniqueStrings | internal/catalog/vocabulary.go:354-376 | the names, exactly when all are distinct non-empty strings |
| SchemaVocabulary.CheckTypeValue | internal/catalog/vocabulary.go:276-312 | accepts exactly the lists of distinct known types |
| SchemaVocabulary.CheckKeywordValues | internal/catalog/vocabulary.go:169-249 | accepts exactly the nodes with legal keyword values |
| SchemaVocabulary.CheckNode | internal/catalog/vocabulary.go:72-140 | accepts exactly the schemas of the dialect, whatever the order of iteration |
| SchemaVocabulary.CheckAnyOf | internal/catalog/vocabulary.go:146-165 | accepts exactly 1 to 16 checked branches |
| SchemaValidation.CheckedSchemasDecode | internal/catalog/validate.go:30-46 | a checked schema decodes |
| SchemaValidation.ValidateAgainstSchema | internal/catalog/validate.go:21-27 | for a checked schema validation never reports a malformed schema and accepts exactly the admitted values |
| SchemaValidation.Validate | internal/catalog/validate.go:48-98 | the same for a decoded schema |
| SchemaValidation.ValidateAnyOf | internal/catalog/validate.go:100-111 | valid exactly when some branch admits the value |
| SchemaValidation.CheckType | internal/catalog/validate.go:113-151 | valid exactly when the value has one of the types |
| SchemaValidation.ValidateProperties | internal/catalog/validate.go:162-180 | valid exactly when every declared property present is admitted |
| SchemaValidation.ValidateAdditional | internal/catalog/validate.go:186-225 | valid exactly when every other property is admitted |
| SchemaValidation.ValidateArray | internal/catalog/validate.go:227-251 | valid exactly when length and items are admitted |
| SchemaValidation.ValidateNumber | internal/catalog/validate.go:278-293 | exact bounds; a number out of range fails them |
| SchemaValidation.CountsAreBounds | internal/catalog/validate.go:232-237 | the runtime counts compare as the bounds they were written as |
| JsonLiterals.TrimJSON | internal/catalog/validate.go:374-387 | the text without the white space around it |
| JsonLiterals.IsJSONNumber | internal/catalog/validate.go:393-438 | accepts exactly the number literals of section 6 of RFC 8259 |
| ArgumentQuoting.QuoteWindowsArg | internal/bootstrap/create.go:289-322 | the loop computes the quoted text |
| ArgumentQuoting.QuotedIsReadBack | internal/bootstrap/create.go:289-322 | Microsoft's C run-time reads the quoted text back as exactly one argument, the original, wherever it stands in a line |
| ArgumentQuoting.PosixQuotedIsReadBack | internal/bootstrap/create.go:282-287 | a POSIX shell reads the quoted text back as exactly the original word |

## Left out

- The OAuth writers are step machines, not class methods: what matters about them is the state between two calls, which a method contract does not show. In-memory token, expiry and clock skew are not modelled; `HasCredentials` is the load without the exchange.
- Cryptography: sealed columns are their plaintext, SHA-256 is injective, random labels, owners and submission IDs are fresh. A failed COMMIT is not applied.
- SQL text, busy handling and pooling: a transaction is one step. `complete` reads the accepted limits before its transaction; they never change while a row exists, so the model reads them inside it.
- Strategy, descriptor digest and version columns of a submission, which no modelled operation changes.
- SubmissionStore.Store.AttachTaskID: may attach a task ID to a finished row, as in the code, so a tombstone is payload-free only up to its task ID until the next sweep.
- RetryIdentity.HashInputIsInjective: tool names and identities under 2^32 bytes, the range of the length prefix; identities are at most 4 MiB by the ceiling.
- RetryIdentity.EncodeRoundTrip: thread IDs are valid UTF-8, as decoded JSON strings are.
- JSON canonicalization itself: a document is given by its canonical value, or as malformed or ambiguous. Duplicate object keys in schemas and instances are not modelled.
- Decimal parsing and RE2 are parameters: which numbers the decimal type represents and which patterns compile and match. All results hold for any choice.
- `EventHistory` takes the encoded text of an event as given, and event timestamps are not modelled.
- Submit's acceptance checks (catalog, schema, bindings, credentials, strategy) come after the reconciliation that is modelled and refuse without writing.
- `newerObservation` and the two-lease gate of `apply` and `fail`: `TaskDriver` lets a driver write or defer at any time, so its theorems do not rely on them.
- Renewal and polling intervals, and liveness: a renewal is a step that may or may not come in time.
- HTTP, MCP, D-Bus, OAuth discovery, keyrings, file privacy, browser, terminal and the bootstrap flows.
