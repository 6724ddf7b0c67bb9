# Verification of the leased, fenced task queue

This Dafny project models the distributed task queue of the coordinator and its workers, and proves what the design
promises about it.

Tasks are rows moved by short transactions: enqueue, claim, start, fail, complete, renew, shorten, reclaim, cancel and
purge. Delivery is at least once, and exactly one result is kept for each task. Attempt numbers are fencing tokens, and
leases are renewed by whatever is heard from a worker but never past a deadline. Lost attempts are retried with backoff
and an exclusion that expires, a bounded number of times. At the two ends, a coordinator session counts credits and a
worker holds slots and a bounded buffer of results.

## Layers

| layer | modules | what it is |
|---|---|---|
| vocabulary | `Basics`, `TaskStates`, `Records`, `Policies` | statuses, rows, per-type limits |
| one task | `RowMachine`, `Life`, `Answers` | guard and update of every statement on one row; the row's history and its invariant; what each operation answers |
| the tables | `Queue`, `QueueEngine`, `Selection` | transactions on all rows, runs, and the class `TaskQueue` whose methods are the database functions |
| theorems on runs | `Fencing`, `Winner`, `Ledger`, `Termination`, `Leases`, `Recovery`, `Retry`, `Timeline` | safety and bounds over every run |
| below | `LockLevel` | snapshots, row locks, skip-locked and blocking transactions, interleaved |
| coordinator end | `Credits`, `Impostors`, `Session`, `Renewal`, `Passes`, `Registry` | credit accounting, handlers, lazy renewal, the two drain loops, session turnover |
| worker end | `Outbox`, `Wakeups`, `Runner`, `Results` | result buffer, the submission loop interleaved with everything else, slots, the gate for results |
| both ends | `EndToEnd` | honest workers and the coordinator over a lossy network |

The history (who claimed what and which submissions were accepted) is ghost state: nothing in the system reads it, and
`LifeInv` ties it to the durable columns. Worker messages, their contents, and their order are arbitrary, except in
`EndToEnd` and `HonestSubmissionsPass`, which are about honest workers. `random()` is any value in [0, 1). The database
clock is the time each transaction carries; only `TimelineIsExact`, `NoReclaimWhileHeard` and the recovery bound need it not to
go back. Times are real numbers.

## Where the code and its comments disagree

The model follows the code.

- Cancelling leaves `not_before` and `excluded_worker_id` set (`WhoKeepsRetryColumns`, `CancelledAfterReclaim`).
- Right after a claim the lease can end later than the deadline (`ClaimLeaseWithinDeadline`, `LeaseCanOutliveDeadline`).
- A per-type lease length applies to the first running lease only; renewals and the due-clock use the global one. So lazy
  renewal is within one interval of eager renewal exactly when the first lease is at least the global TTL, or the deadline
  leaves no room for the difference (`LazyRefinesEager`, `ShortTypeLeaseLosesTask`).
- Start and failure reports are not fenced: `mark_status` compares the worker, not the attempt. A late failure of one
  attempt ends a later one exactly when the same worker holds it, and the ledger then charges an attempt that may never
  have been executed (`LateFailureReport`, `ReportLandsElsewhere`, `FailureChargedToUnrunAttempt`).
- Not only `capacity` reopens a saturated session: failure reports and malformed results always do, and so do most results
  (`ClosedAfterMessage`, `FailureReopens`). Until one of these arrives it gets no claim (`NoClaimAfterRefusal`).
- A repeated named credit release is a no-op exactly when the first one left no reconnect residue
  (`RepeatedReleaseIsNoOp`).
- A worker naming a finished task it never held is answered DUPLICATE or SUPERSEDED, not NOT_OWNER, and frees a unit of its
  own reconnect residue if it has any (`ImpostorResult`, `CancelledTaskFreesResidue`).
- `now()` is a transaction's start, so a transaction that waited for a lock can stamp earlier than the one it waited for.
  The rebuilt timeline is sorted exactly when each entry's stamp is no earlier than the last one shown
  (`TimelineInOrder`, `BackdatedStampBreaksOrder`); other backward stamps do no harm (`BackdatedRenewalIsHarmless`).
- Renewing or shortening all of a worker's leases can deadlock with another such statement; the database then aborts one,
  which the source logs and swallows (`OnlyBulkStatementsDeadlock`, `BulkStatementsDeadlock`).
- A session can be closed by a refusal after a pass has chosen it; unless a later message reopens it before its turn, the
  pass ends at an exception for a limit of zero (`AssignOnce`, `RefusalFailsAPass`).
- An answer that arrives during a submission pass can end the pass early (`AnswerMidPassStopsIt`).
- A duration that is an integer too large for a floating-point number leaves `validate` as an overflow, not as a malformed
  result (`Validate`).

## Model

| member | source | states |
|---|---|---|
| `TaskStates.PathsEndInTerminalStates` | coordinator/app/task_states.py:67-111 | Along every path `check_transition` permits, a terminal status is absorbing, and REASSIGNED is reached only from itself. |
| `TaskStates.CompletionPassesThroughRunning` | coordinator/app/task_states.py:67-75 | A permitted path that ends COMPLETED contains the step RUNNING to COMPLETED: nothing completes without running. |
| `Life.NextKeepsInv` | coordinator/app/task_queue.py:296-317 | Every statement of the engine (claim, start, fail, complete, fence, renew, shorten, reclaim, cancel, purge) keeps the row shape and the ties between row, ledger, claims and accepted submissions. |
| `Life.LeadsKeepsInv` | coordinator/app/task_queue.py:1107-1152 | The same over every run of a task, of any length. |
| `Life.BornInv` | coordinator/app/task_queue.py:170-188 | A freshly enqueued row starts inside the invariant. |
| `Life.LedgerNamesHolders` | coordinator/app/task_queue.py:618-633 | Every `task_attempts` row, whoever wrote it, names a worker that really claimed the task. |
| `Life.EverHeldIsClaimed` | coordinator/app/task_queue.py:655-689 | On an unfinished task, the lookup of `_ever_held` is true exactly for workers that claimed the task at some time in the run. |
| `Life.FenceRowIsNew` | coordinator/app/task_queue.py:618-633 | When the NOT EXISTS guard passes, no fence row in the ledger names that worker and attempt, so fence rows stay unique. |
| `Queue.AdvanceKeepsInv` | coordinator/app/task_queue.py:891-932 | No permitted transaction breaks the world invariant: every task keeps its life invariant, and result pointers and bodies stay in bijection with accepted submissions. |
| `Queue.RunsKeepInv` | coordinator/app/task_queue.py:1107-1152 | Safety over whole runs: the world invariant survives any sequence of permitted transactions on any number of tasks. |
| `Queue.ReachableWorldsAreGood` | coordinator/app/task_queue.py:170-188 | Every state of the tables reachable from empty ones satisfies the invariant. |
| `Queue.RunsProject` | coordinator/app/task_queue.py:504-512 | A run of the whole queue is, for each task, a serial run of that task's own events. |
| `Queue.EveryLifeIsARun` | coordinator/app/task_queue.py:170-188 | Every task in every reachable world got there by a run of its own events from its creation, so the per-task theorems hold of all of them. |
| `Queue.StoreKeepsResults` | coordinator/app/task_queue.py:891-932 | Storing a result and moving its task to COMPLETED together keep bodies and pointers in bijection. |
| `Queue.PurgeKeepsResults` | coordinator/app/task_queue.py:1736-1745 | Deleting bodies and nulling the pointers to them keeps the rest in bijection. |
| `Fencing.CompleteAnswerMeaning` | coordinator/app/task_queue.py:825-889 | On any reachable row `complete_task` never answers ILLEGAL; on an unfinished task NOT_OWNER goes exactly to workers that never claimed it, TRANSITIONED exactly to the holder of the current attempt naming it, FENCED exactly to every other past or present holder. |
| `Fencing.TransitionedIsEnabled` | coordinator/app/task_queue.py:838-889 | The TRANSITIONED answer coincides with the guard of the completing write. |
| `Fencing.StaleAttemptNeverAccepted` | coordinator/app/task_queue.py:838-874 | Once the attempt count has passed `a`, no submission naming `a` is accepted in any later state, and its honest sender is never called NOT_OWNER. |
| `Fencing.ClaimsStrictlyIncrease` | coordinator/app/task_queue.py:307-317 | Successive claims of a task carry strictly increasing attempt numbers. |
| `Fencing.OneHolderPerAttempt` | coordinator/app/task_queue.py:1130-1146 | Each (task, attempt) has one holder for all time: two claims of one attempt, any distance apart, are the same claim. |
| `Fencing.HistoryOnlyGrows` | coordinator/app/task_queue.py:1130-1146 | Along any run the attempt count never falls, and claims, accepted submissions and ledger rows are only appended. |
| `Fencing.EveryWriteIsLegal` | coordinator/app/task_queue.py:882-889 | Every status write is one `check_transition` allows; completing an unstarted task walks through RUNNING. |
| `Fencing.MarkAnswerIsEnabled` | coordinator/app/task_queue.py:514-523 | The answers of `mark_status` match the guards of its writes in both directions, and a failure report is ILLEGAL only on a completed task. |
| `Fencing.LateFailureReport` | coordinator/app/task_queue.py:512-523 | A failure report from the claimer of attempt a is taken against another attempt if and only if that worker claimed again and holds a later, live one; the one FAILED row it leaves names the later attempt. |
| `Fencing.LateStartReport` | coordinator/app/task_queue.py:512-523 | A start report from the claimer of attempt a starts another attempt if and only if that worker holds a later one not yet started. |
| `Fencing.StaleFailureEndsNextAttempt` | coordinator/app/assignment.py:858-874 | A run of enabled events: claim, reclaim, claim by the same worker, failure report of the first attempt. The task is FAILED on attempt 1 with the row numbered 1. |
| `Winner.SingleWinner` | coordinator/app/task_queue.py:838-932 | Over any run a task is completed at most once, by the holder of the attempt the row still carries, and the stored envelope is that submission. |
| `Winner.WinnerIsFinal` | coordinator/app/task_queue.py:825-833 | In every later state the winner and the claims are unchanged; only the result pointer may be nulled. |
| `Winner.TerminalIsFrozen` | coordinator/app/task_queue.py:1736-1745 | A terminal row, its ledger and its history never change again, except that a purge may clear the pointer. |
| `Winner.ResultsMatchPointers` | coordinator/app/task_queue.py:891-932 | Live result rows and non-null result pointers correspond one to one in every reachable state. |
| `Winner.StoredAttemptIsCurrent` | coordinator/app/task_queue.py:838-904 | Every stored envelope names the attempt number its task ended on. |
| `Winner.LateSubmission` | coordinator/app/task_queue.py:571-594 | For a terminal task the answer is DUPLICATE exactly when the pointer is live and the token equals the winner's, else SUPERSEDED. |
| `Winner.ReplayedWinner` | coordinator/app/task_queue.py:571-594 | Replaying the winning submission in any later state is DUPLICATE until the purge and SUPERSEDED after it. |
| `Ledger.GaplessLedger` | coordinator/app/task_queue.py:1236-1257 | The reclaimer's rows are numbered exactly 0 to attempt_count-1, each names the worker that lost that attempt, all REASSIGNED except the last row of an exhausted task. |
| `Ledger.OneFailedRow` | coordinator/app/task_queue.py:1475-1490 | A task has exactly one FAILED ledger row if its status is FAILED and none otherwise. |
| `Ledger.FenceIsIdempotent` | coordinator/app/task_queue.py:618-633 | Any resubmission of a fenced result leaves row and ledger as the first one left them, and stays fenceable. |
| `Ledger.FenceRowsBounded` | coordinator/app/task_queue.py:859-873 | However often anybody resubmits, a task collects at most (attempt_count+1)^2 fence rows. |
| `Termination.StepDescends` | coordinator/app/task_queue.py:1107-1146 | Each status change lowers the lexicographic measure (attempts left, stage), and live rows stay below the attempt cap. |
| `Termination.ChangesArePaidFor` | coordinator/app/task_queue.py:1107-1146 | Over any run the measure pays for every status change, and the attempt count grows by exactly the reclaims. |
| `Termination.EveryTaskStops` | coordinator/app/task_queue.py:1107-1146 | With the type's cap fixed at M >= 1: at most 3M status changes ever, live rows have attempt_count < M, exhaustion happens at exactly M. |
| `Termination.BoundIsReached` | coordinator/app/task_queue.py:1107-1146 | The bound is tight: from any eligible row a run with exactly three changes per remaining attempt exists. |
| `Leases.DeadlineIsFixed` | coordinator/app/task_queue.py:532-545 | A running attempt's deadline, start and holder are the same in every later state of that attempt, under any renewals and shortenings. |
| `Leases.RenewalNeverPreventsReclaim` | coordinator/app/task_queue.py:944-996 | A task started at s with cap c keeps lease <= s + c while that attempt lives, so it is reclaimable at every instant past s + c, for the deadline. |
| `Leases.UnstartedIsReclaimable` | coordinator/app/task_queue.py:307-313 | A delivery never started is reclaimable past its claim plus the larger of ack timeout and cap, however often it is renewed. |
| `Leases.ClaimLeaseWithinDeadline` | coordinator/app/task_queue.py:307-313 | Right after a claim, lease <= deadline holds if and only if the type's ack timeout is at most its cap. |
| `Leases.LeaseCanOutliveDeadline` | coordinator/app/task_queue.py:307-313 | A concrete policy under which the delivered row's lease ends after its deadline. |
| `Leases.ShortenNeverExtends` | coordinator/app/task_queue.py:1034-1061 | Shortening never moves a lease out, bounds it by now + grace, and a second close observed later changes nothing. |
| `Leases.SilenceKeepsLease` | coordinator/app/task_queue.py:1034-1061 | With no renewal and no start, a live attempt's lease never moves out. |
| `Leases.ObservedCloseExpires` | coordinator/app/assignment.py:1343-1389 | After an observed close and silence the attempt, if still live, is expired at every instant past close + grace. |
| `Recovery.RoomyPassRecovers` | coordinator/app/task_queue.py:1107-1152 | A reclaim pass whose batch has room for every candidate takes back every expired unlocked row, requeued or ended by its attempt count. |
| `Recovery.ObservedCloseIsRecovered` | coordinator/app/assignment.py:1343-1389 | At every such instant any reclaim pass with room in its batch that finds the row unlocked takes the task back: one more attempt, and QUEUED, or FAILED exactly when its attempts are used up. |
| `Recovery.RecoveredWithin` | coordinator/app/assignment.py:1576-1603 | With ticks at most I apart there is one in (close + grace, close + grace + I], the same for every continuation, such that at it and every later tick each silent continuation still live is expired and recovered by any pass with room. |
| `Timeline.BuildLifecycle` | coordinator/app/main.py:1965-1988 | The list built by successive appends equals the specification list. |
| `Timeline.TimelineIsExact` | coordinator/app/main.py:1965-1988 | For every task and run on a forward clock the rebuilt list starts QUEUED at creation, is sorted in time, and ends in the row's current status. |
| `Timeline.StepExtendsTimeline` | coordinator/app/main.py:1965-1988 | One statement either extends the list, or, if it is a reclaim, starts it over as QUEUED (then FAILED on exhaustion). |
| `Timeline.TimelineOnlyGrows` | coordinator/app/task_queue.py:919-931 | Within one attempt the rebuilt list is append-only on any clock: nothing already shown is restamped or dropped. |
| `Timeline.StepInOrder` | coordinator/app/main.py:1965-1988 | From a list in any state, after one statement the list is sorted if and only if the statement's stamp is no earlier than the last one shown and, unless it starts over, the list was sorted; starting over needs only that giving up is stamped after creation. |
| `Timeline.TimelineInOrder` | coordinator/app/main.py:1965-1988 | On any clock, after any run from creation the rebuilt list is sorted if and only if each stamp since its last restart fits after the last one then shown. |
| `Timeline.BackdatedStampBreaksOrder` | coordinator/app/main.py:1965-1988 | A witness: a start stamped before the claim leaves the list unsorted. |
| `Timeline.BackdatedRenewalIsHarmless` | coordinator/app/task_queue.py:984-996 | A witness that a backward stamp alone is harmless: a renewal stamped before the claim leaves the list sorted. |
| `Retry.EligibilityIsMonotone` | coordinator/app/task_queue.py:289-293 | On an unchanged row eligibility never lapses. |
| `Retry.RequeuedEligibility` | coordinator/app/task_queue.py:1130-1146 | A task requeued at r is eligible for a worker if and only if now >= r + delay, plus the exclusion window for the worker that lost it. |
| `Retry.EveryoneEventuallyEligible` | coordinator/app/task_queue.py:1101-1104 | By r + backoff_max + exclusion_window every worker may claim it, the excluded one included, whatever the jitter drew. |
| `Retry.ExclusionAlwaysExpires` | coordinator/app/task_queue.py:289-293 | On every reachable queued row each worker is eligible at some instant. |
| `Retry.WhoKeepsRetryColumns` | coordinator/app/task_queue.py:1710-1716 | In every reachable state a task carries a retry instant, and with it an exclusion, if and only if it was taken back at least once and has neither completed nor failed; so a finished one keeps them exactly when it was cancelled after a reclaim. |
| `Retry.CancelledAfterReclaim` | coordinator/app/task_queue.py:1710-1716 | Such a task exists: claimed, taken back, cancelled, still naming the excluded worker. |
| `Policies.BackoffBounds` | coordinator/app/task_queue.py:1101-1104 | The jittered delay lies in [0, backoff_max] for every draw and attempt number. |
| `Selection.PickFirst` | coordinator/app/task_queue.py:299-305 | A scan finds a candidate that no other sorts before. |
| `Selection.TakeFirst` | coordinator/app/task_queue.py:299-305 | ORDER BY with LIMIT: min(limit, candidates) distinct rows, in key order, and nothing left behind sorts strictly before a taken row. |
| `QueueEngine.TaskQueue.Enqueue` | coordinator/app/task_queue.py:170-188 | Inserts exactly one queued row under a fresh id and keeps the queue valid. |
| `QueueEngine.TaskQueue.Dequeue` | coordinator/app/task_queue.py:337-398 | Refuses exactly limit < 1, limit over the cap and an empty type list; otherwise takes min(limit, eligible unlocked) rows by (priority, created_at), claims each, and touches nothing else. |
| `QueueEngine.TaskQueue.ClaimRows` | coordinator/app/task_queue.py:306-316 | The claiming UPDATE is one claim event on each chosen row. |
| `QueueEngine.TaskQueue.MarkStatus` | coordinator/app/task_queue.py:456-568 | Answers not-found, not-owner, illegal, no-op or transitioned guard by guard, and writes only on transitioned. |
| `QueueEngine.TaskQueue.RecordExecutionFailure` | coordinator/app/task_queue.py:1475-1531 | Adds one FAILED row numbered by the task's own attempt count unless that row exists. |
| `QueueEngine.TaskQueue.StartTask` | coordinator/app/assignment.py:730-735 | The start transaction is one start event when transitioned and no change otherwise. |
| `QueueEngine.TaskQueue.FailTask` | coordinator/app/assignment.py:858-874 | The failure transaction writes status and reason together when transitioned and nothing otherwise. |
| `QueueEngine.TaskQueue.AnswerSubmission` | coordinator/app/task_queue.py:817-889 | The guards in the order they run, with the path loop, compute the specified answer. |
| `QueueEngine.TaskQueue.CompleteTask` | coordinator/app/task_queue.py:692-932 | One submission is stored, fenced or refused in one transaction; never ILLEGAL; on an unfinished task NOT_OWNER exactly for a worker that never claimed it. |
| `QueueEngine.TaskQueue.StoreResult` | coordinator/app/task_queue.py:891-932 | Result row and COMPLETED row are written together as one store. |
| `QueueEngine.TaskQueue.RecordFence` | coordinator/app/task_queue.py:618-633 | Writes one fence row unless the same row is there, and nothing else. |
| `QueueEngine.TaskQueue.FenceSubmission` | coordinator/app/task_queue.py:844-874 | A fence naming an attempt never reached leaves no row. |
| `QueueEngine.FenceChange` | coordinator/app/task_queue.py:844-874 | A fenced submission amounts to one enabled fence event exactly when the named attempt lies in 0..attempt_count, and to no write otherwise. |
| `QueueEngine.TaskQueue.RenewLease` | coordinator/app/task_queue.py:952-996 | Renews exactly when the sender holds the live row; the answer says whether it did. |
| `QueueEngine.TaskQueue.RenewWorkerLeases` | coordinator/app/task_queue.py:999-1031 | Renews exactly the live rows the tables say the worker holds, and returns their ids. |
| `QueueEngine.TaskQueue.ShortenWorkerLeases` | coordinator/app/task_queue.py:1034-1061 | Shortens exactly the live rows the worker holds and counts them. |
| `QueueEngine.TaskQueue.RecordLosses` | coordinator/app/task_queue.py:1236-1257 | The loop appends one loss row to each reclaimed task's ledger, numbered by the attempt that ended, and leaves other ledgers alone. |
| `QueueEngine.TaskQueue.ReclaimExpiredLeases` | coordinator/app/task_queue.py:1182-1258 | Refuses exactly batch < 1; otherwise takes min(batch, expired unlocked) rows longest overdue first and reclaims each by its attempt count. |
| `QueueEngine.ReclaimTables` | coordinator/app/task_queue.py:1130-1152 | A batch of reclaims is permitted as one transaction and adds exactly one ledger row to each reclaimed task. |
| `QueueEngine.TaskQueue.CancelQueuedTask` | coordinator/app/task_queue.py:1691-1717 | Cancels exactly a queued task; otherwise reports not-found or the status that refused. |
| `QueueEngine.TaskQueue.PurgeExpiredResults` | coordinator/app/task_queue.py:1720-1745 | Deletes exactly the bodies past retention, clears the pointers to them, and does nothing when retention is off. |
| `LockLevel.DoKeepsInv` | coordinator/app/task_queue.py:296-317 | Every begin, lock, skip, write, commit or abort keeps row locks exclusive and every locked version equal to the committed one. |
| `LockLevel.InterleavingsAreSerial` | coordinator/app/task_queue.py:803-821 | Any interleaving of dequeue, reclaim, start, fail, submit, cancel, renewal of one lease, renewal and shortening of all of a worker's leases, and purge commits a serial run of permitted atomic changes. |
| `LockLevel.RowsAreSerial` | coordinator/app/task_queue.py:504-512 | Each row's committed history under any interleaving is a serial run of its own events. |
| `LockLevel.CommitIsPermitted` | coordinator/app/task_queue.py:1107-1129 | Buffered writes decided under locks are still permitted by the committed tables at commit. |
| `LockLevel.NoDoubleClaimNoDoubleReclaim` | coordinator/app/task_queue.py:296-317 | Under any interleaving each claim but the last was reclaimed before the next one, and no attempt is reclaimed twice. |
| `LockLevel.NeverCancelledAndClaimed` | coordinator/app/task_queue.py:1696-1717 | Under any interleaving a cancelled task has no holder, all its claims were taken back, and it is never claimed later. |
| `LockLevel.WaitersHoldNothing` | coordinator/app/task_queue.py:504-512 | A transaction that waits for the one row it names holds none. |
| `LockLevel.OnlyBulkStatementsDeadlock` | coordinator/app/task_queue.py:1022-1030 | In any state of any interleaving every transaction of a wait cycle is a renewal or shortening of all of a worker's leases, or a purge; no other operation ever deadlocks. |
| `LockLevel.BulkStatementsDeadlock` | coordinator/app/task_queue.py:1022-1030 | From any reachable world any two of these statements that match the same two rows can lock them in opposite orders and wait for each other; aborting one frees the other. |
| `LockLevel.RenewalAndShorteningDeadlock` | coordinator/app/task_queue.py:1050-1060 | In particular a hello renewal and a disconnect shortening of a worker that holds two rows. |
| `LockLevel.PurgesDeadlock` | coordinator/app/task_queue.py:1736-1745 | In particular two purges over two bodies past retention. |
| `LockLevel.TwoHeldRows` | coordinator/app/task_queue.py:307-317 | Such worlds are reachable. |
| `LockLevel.CommitLeavesOthers` | coordinator/app/task_queue.py:1736-1745 | A commit, a purge through its foreign key included, changes no row its transaction has not locked. |
| `Credits.ParseMaxConcurrent` | coordinator/app/assignment.py:428-435 | The declared concurrency is clamped to [1, ceiling] and taken as it is inside that range. |
| `Credits.ParseInFlight` | coordinator/app/assignment.py:448-472 | Declared residue is clamped to [0, max_concurrent] and taken as it is inside that range. |
| `Credits.CountReleaseIsExact` | coordinator/app/assignment.py:658-663 | An unnamed release of freed >= 1 frees exactly min(freed, in_flight), and touches keys only once the residue is gone. |
| `Credits.RepeatedReleaseIsNoOp` | coordinator/app/assignment.py:649-656 | Of any task, keyed here or not, a second named release changes nothing if and only if the first left no residue; the first frees one unit if the task is keyed or residue is left, else none. |
| `Credits.DuplicateReportDrainsResidue` | coordinator/app/assignment.py:653-655 | A witness: two reports of one recovered task free two of the tasks declared at reconnect. |
| `Credits.CreditsAreConserved` | coordinator/app/assignment.py:308-318 | Under any interleaving of handlers with passes, in_flight = initial residue + fresh deliveries - the units the messages are worth, within [0, max_concurrent], keys distinct. |
| `Credits.HandleFreesUnits` | coordinator/app/assignment.py:628-663 | Each handler frees exactly the units its message is worth: one for a key or a unit of residue, min(freed, in_flight) for a count, none otherwise, by answer; none raises the number in flight. |
| `Credits.OnlyRefusalsCloseASession` | coordinator/app/assignment.py:593-610 | Nothing a worker sends takes free credit away, except an at_capacity refusal of an outstanding delivery. |
| `Credits.ReportsSettleTheirTask` | coordinator/app/assignment.py:897-902 | After a result, failure or valid capacity report naming a task, the task holds no credit here; if it held one, exactly that unit is freed and the session is open again. |
| `Credits.GuessedTaskFreesResidueOnly` | coordinator/app/assignment.py:1083-1088 | Naming a task without a key here never touches a key; a result frees residue exactly on answers other than not-owner, not-found and fenced, a failure exactly on answers other than not-owner and not-found. |
| `Impostors.ImpostorResult` | coordinator/app/task_queue.py:825-833 | A result from a worker that never claimed the task frees something if and only if the task is finished and reconnect residue is left, never more than one unit and never a key; on an unfinished or unknown task it changes nothing. |
| `Impostors.ImpostorFailure` | coordinator/app/assignment.py:897-902 | A failure report from such a worker is refused as not-owner in every state and frees nothing; it does clear saturation. |
| `Impostors.CancelledTaskFreesResidue` | coordinator/app/assignment.py:1083-1088 | A witness: a result for a cancelled, never-claimed task answers SUPERSEDED and frees one unit. |
| `Credits.RefusalSaturates` | coordinator/app/assignment.py:593-610 | An at_capacity refusal of an outstanding delivery closes the session and keeps the credit consumed. |
| `Credits.ClosedAfterMessage` | coordinator/app/assignment.py:593-610 | After any message a session is closed if and only if the message refuses an outstanding delivery for lack of capacity, or the session was closed and the message is not one that reopens: a capacity count of at least one, any failure report, any malformed result, or a result on any answer but not-owner, not-found and fenced, or naming a key held here. |
| `Credits.NoClaimAfterRefusal` | coordinator/app/assignment.py:1267-1287 | From a closed session, along any run of messages and passes in which no message received reopens it, no pass plans a claim, and it is still closed at the end. |
| `Credits.ReopenedMeansClaimable` | coordinator/app/assignment.py:1267-1287 | The converse: after a message that reopens a session with room, the next pass may claim for it. |
| `Credits.FailureReopens` | coordinator/app/assignment.py:902-902 | A witness run: a refused session is reopened by a failure report about a task it never had, and claimed for again. |
| `Credits.RefusalsStrandFew` | coordinator/app/assignment.py:593-610 | Such a worker is handed at most max_concurrent minus its declared residue tasks, over a run of any length. |
| `Session.LocalSession.constructor` | coordinator/app/main.py:1133-1141 | A session opens with the clamped declared residue and nothing keyed. |
| `Session.LocalSession.RecoverLeases` | coordinator/app/main.py:1160-1171 | On hello, exactly the rows the tables name are renewed and become renewable by this session. |
| `Session.LocalSession.ReleaseCredit` | coordinator/app/assignment.py:628-663 | The in-place release, with its loop over the oldest keys, equals the specified release, and its answer says whether anything was freed. |
| `Session.LocalSession.RenewIfDue` | coordinator/app/assignment.py:357-404 | A lease is written only for an entitled and due task; a lost round trip leaves it due, a refused one counts as renewed. On a held live task the session sees exactly the lazy-renewal step. |
| `Session.LocalSession.HandleAccepted` | coordinator/app/assignment.py:564-591 | An accepted ack of an outstanding delivery may renew its lease; an unknown ack changes nothing. |
| `Session.LocalSession.HandleRefused` | coordinator/app/assignment.py:593-625 | A refusal saturates on at_capacity and frees the task's credit otherwise; never both. |
| `Session.LocalSession.HandleCapacity` | coordinator/app/assignment.py:666-714 | A count below one is ignored; otherwise credit is released, the named task forgotten, and saturation cleared. |
| `Session.LocalSession.HandleStarted` | coordinator/app/assignment.py:717-771 | The start is written and the due-clock restarted exactly when the transition happened. |
| `Session.LocalSession.HandleFailed` | coordinator/app/assignment.py:836-902 | The terminal write, the guarded credit release and the clearing of saturation, together. |
| `Session.LocalSession.HandleResult` | coordinator/app/assignment.py:1059-1090 | One completing transaction, then credit, renewal clock and saturation settle unless the answer and the key say the task was never here. |
| `Session.LocalSession.HandleMalformed` | coordinator/app/assignment.py:1000-1027 | A malformed result renews once while the task is still held, then frees only a credit it names. |
| `Session.LocalSession.Deliver` | coordinator/app/assignment.py:1214-1232 | A delivery keys one credit and awaits one ack; a dead socket consumes nothing. |
| `Renewal.LastWrite` | coordinator/app/assignment.py:333-404 | Under lazy renewal the lease in force was written by the start or by one of the messages, less than one interval before the last message. |
| `Renewal.EagerLease` | coordinator/app/task_queue.py:944-947 | Renewing on every message leaves the target of the last message in force. |
| `Renewal.LazyLagBound` | coordinator/app/assignment.py:333-404 | The lazy lease is behind the eager one by at most the interval plus what the first lease fell short of the TTL. |
| `Renewal.LazyRefinesEager` | coordinator/app/assignment.py:351-354 | Lazy stays within one interval of eager for every message sequence if and only if the first lease is at least the global TTL, or the deadline is within the first lease plus one interval, or the interval is zero. |
| `Renewal.HeardFromMeansKept` | coordinator/app/assignment.py:333-404 | With message gaps g and interval + g within both the first lease and the TTL, the row is not expired before its deadline, under any sequence of messages. |
| `Renewal.NoReclaimWhileHeard` | coordinator/app/assignment.py:333-404 | The same over every run in which fences, submissions, failures, other renewals and reclaim passes come between the messages: no reclaim of the attempt at or before its deadline is ever enabled. Only an observed close is excluded. |
| `Renewal.ShortTypeLeaseLosesTask` | coordinator/app/task_queue.py:536-545 | A per-type lease of 10 s under a 60 s TTL: a worker reporting every 5 s still loses its task. |
| `Passes.ReclaimOnce` | coordinator/app/assignment.py:1432-1452 | One pass takes min(batch, expired) rows out of the expired set and adds none. |
| `Passes.DrainReclaims` | coordinator/app/assignment.py:1602-1603 | Repeating full batches ends, reclaims every expired lease exactly once, and leaves none. |
| `Passes.DeliverBatch` | coordinator/app/assignment.py:1291-1296 | Every task a session holds newly during the sends is already ASSIGNED to its worker with a lease; in-flight grows only by sends that succeeded. |
| `Passes.AssignTo` | coordinator/app/assignment.py:1278-1296 | Fails exactly when the chosen session has no credit left by its turn; otherwise claims within free credit shorten the queue by at least the deliveries, and no row that was not queued changes. |
| `Credits.NoCreditLeft` | coordinator/app/assignment.py:1267-1287 | After any batch of messages a session that had credit has none if and only if one of them closes it and none after that reopens it. |
| `Passes.TakeArrivals` | coordinator/app/assignment.py:593-610 | The messages a session handles before its turn change its credits as their handlers do, in order. |
| `Passes.AssignOnce` | coordinator/app/assignment.py:1248-1300 | With any messages arriving while the pass awaits, it fails if and only if, for a session chosen at its top, one of them closes it before its turn and none after that reopens it; either way every delivery made stays durable. A draining replica claims nothing. |
| `Passes.RefusalFailsAPass` | coordinator/app/assignment.py:1267-1287 | A witness: a session of two credits with one unanswered delivery and one task queued; the refusal arriving mid-pass fails the pass, and with a capacity report behind it does not. |
| `Passes.DrainAssignments` | coordinator/app/assignment.py:1660-1663 | Repeating passes while they deliver ends, because queued rows strictly fall; without capacity refusals no pass fails. |
| `Outbox.EveryResultIsAccountedFor` | worker/worker.py:536-570 | Over any run, recorded = pending + acknowledged + evicted + overwritten, and pending never exceeds the cap. |
| `Outbox.EvictionTakesOldest` | worker/worker.py:538-547 | Recording a result evicts another one if and only if the buffer is full and that one is the oldest; the rest are untouched. |
| `Runner.TaskRunner.Evict` | worker/worker.py:538-553 | The eviction loop leaves room for one by dropping exactly the oldest entry of a full buffer, with its send stamp. |
| `Runner.TaskRunner.RecordResult` | worker/worker.py:536-555 | Recording is the specified step on the shared state: oldest evicted with its stamp at the cap, result buffered, event set, books balanced. |
| `Runner.TaskRunner.ResultAcknowledged` | worker/worker.py:557-569 | An answer is the specified step: that result and its stamp go, the order of the rest stays, the event is cleared when nothing is left. |
| `Runner.TaskRunner.Attach` | worker/worker.py:576-602 | A new session voids every send stamp and sets the event if anything pends. |
| `Runner.TaskRunner.Admit` | worker/worker.py:1065-1107 | Refuses an unsupported type, ignores a task already running, refuses with no slot exactly when the worker is full, else takes a slot and captures attempt, epoch and token. |
| `Runner.TaskRunner.Succeed` | worker/worker.py:996-1015 | A result is buffered under the attempt and token captured at admission. |
| `Runner.TaskRunner.Finish` | worker/worker.py:1016-1021 | Entry and slot are given back together, so slots plus running stay max_concurrent. |
| `Runner.TaskRunner.SubmitResult` | worker/worker.py:762-784 | A send happens exactly for a pending result on a live session, and only a successful one is stamped. |
| `Runner.TaskRunner.SubmitNext` | worker/worker.py:814-826 | One key of the snapshot is skipped, sent or stops the pass as the specified turn says. |
| `Runner.TaskRunner.ClearEvent` | worker/worker.py:803-806 | The event is cleared before the work of a pass. |
| `Runner.TaskRunner.SubmitPending` | worker/worker.py:812-826 | With nothing in between and every send working, each pending result is stamped now or still inside its grace; the pass stops at the first failed send. |
| `Runner.TaskRunner.PlanPark` | worker/worker.py:808-836 | Waiting for an answer is not a failure; the wait is within the retry ceiling or the grace, and not shorter than the grace when only waiting. |
| `Wakeups.NoLostWakeup` | worker/worker.py:803-861 | In any interleaving of records, answers, attaches, detaches, direct sends and single turns of the loop, the event is set if and only if something pends and a result was recorded or a session attached since the loop last cleared it. |
| `Wakeups.QuietPassMissesNothing` | worker/worker.py:803-826 | A pass that was not stopped and ends with the event clear leaves every pending result with a send stamp; stamps are voided by the next attach. |
| `Wakeups.WhatStopsAPass` | worker/worker.py:814-826 | A turn stops the pass if and only if its key is pending no more, answered or evicted meanwhile, or it is due and cannot be sent. |
| `Wakeups.AnswerMidPassStopsIt` | worker/worker.py:772-826 | A witness: an answer arriving mid-pass for a key still to come ends the pass with every send working and a later result unsent. |
| `Results.Validate` | coordinator/app/results.py:88-170 | Accepts exactly well-formed submissions; task, attempt, epoch and token pass through untouched; a changed body is null, flagged, and was over the cap; the conversion overflow escapes exactly when every check passed and the duration is an integer too large. |
| `Results.HugeDurationOverflows` | coordinator/app/results.py:121-147 | A witness: a submission right in every field passes with a duration of zero and escapes as an overflow with an integer of two to the top exponent. |
| `Results.HonestSubmissionsPass` | worker/worker.py:736-759 | Round trip: whatever an honest worker builds is accepted with the task, attempt and token of its admission, truncated or not. |
| `EndToEnd.ExecutedAtMostOnce` | worker/worker.py:1065-1107 | With honest workers over a lossy network each (task, attempt) is executed at most once, by the worker it was claimed for. |
| `EndToEnd.AcceptedResultNamesItsExecution` | coordinator/app/task_queue.py:838-932 | Every accepted result came from one finished execution admitted for exactly (task, attempt_count) by its holder, and the stored token names only that execution. |
| `EndToEnd.HonestAnswers` | coordinator/app/task_queue.py:825-889 | An honest submission, whenever and however often it arrives: accepted if its attempt is current, FENCED if passed while unfinished; once finished DUPLICATE if it won and its body is kept, else SUPERSEDED. |
| `EndToEnd.DeliveryIsNew` | coordinator/app/assignment.py:1193-1210 | The delivery of a claim names an attempt that was never claimed before. |
| `EndToEnd.IgnoredDeliveryMeansFenced` | worker/worker.py:1065-1082 | A delivery ignored because an older attempt is still running: in every later state the result of that older execution is fenced or superseded. |
| `EndToEnd.ReportLandsElsewhere` | coordinator/app/task_queue.py:512-523 | An honest report is taken against an attempt its execution never had if and only if its worker holds a later attempt of the task: live for a failure, not yet started for a start. |
| `EndToEnd.FailureIsCharged` | coordinator/app/assignment.py:858-874 | A task failed by a report has one report row, naming the current attempt, and an execution by that worker really raised, at that attempt or an earlier one; at that very attempt if the worker claimed the task once. |
| `EndToEnd.FailureChargedToUnrunAttempt` | coordinator/app/assignment.py:858-874 | A witness with honest parties: the only execution is of attempt 0, and the task ends FAILED with attempt 1 charged. |
| `Registry.LatestSessionWins` | coordinator/app/assignment.py:475-511 | With serialised handshakes the latest session stays registered until its own teardown, whatever late teardowns of older sessions do. |
| `Registry.SessionRegistry.TearDown` | coordinator/app/main.py:1262-1304 | Registration and leases change only if the registry still names this very session. |

## Left out

- Enqueueing in batches is a loop of inserts; parameters, payloads, correlation ids and the attempts' `recorded_at` travel
  unread and have no column here. The stored failure reason is kept whole, not cut at 120 characters.
- Ids are abstract. An id that does not parse as a UUID is one that names no row. Unknown status strings cannot be written.
- Redis, heartbeats, the SUSPECT and OFFLINE sweep, metrics, logs, the dashboard mirror of running tasks, routes, policy
  editing and credentials decide nothing about recovery and are not modelled. A doorbell only means that a pass may run.
- The `task_cancel` message, retry wake-ups and the wait of a graceful shutdown only save time; an execution that is
  cancelled is a `Release` without a `Finish` in `EndToEnd`. What executors compute is abstract.
- LockLevel.InterleavingsAreSerial: row locks on tasks only. A purge locks a body before the task that points to it; as
  bodies and pointers correspond one to one, locking the task stands for both. A bulk statement may lock its rows in any
  order; without an ORDER BY the database promises none.
- QueueEngine.TaskQueue.Dequeue: returns the chosen rows in key order, ties in any order; the source does not promise the
  order of `RETURNING`.
- Passes.AssignOnce: messages handled while a pass awaits are carried with their effect on credits and with the answers the
  queue gave; the queue's own transactions for them are those of `LockLevel`.
- Passes.DrainReclaims: one replica at a fixed clock; other replicas appear in `LockLevel`.
- Session.LocalSession.RecoverLeases: a database failure at hello is swallowed by the source and leaves the leases alone;
  that path is not a branch here, and equals not calling it.
- Registry.LatestSessionWins: handshakes of one worker are serialised. Concurrent handshakes take, publish and register
  their epoch in separate steps with an unconditional overwrite, and no claim is made about them.
- Registry.SessionRegistry.TearDown: the process map and the shared registry key are one map here, without expiry, and the
  guard and the shortening are one step; the source notes the window between them.
- Renewal.HeardFromMeansKept: the database clock and the session's monotonic clock are taken to run at the same rate.
- Runner.TaskRunner.SubmitPending: a pass with nothing in between; passes interleaved with everything else are in `Wakeups`.
- Wakeups.NoLostWakeup: a send and its stamp are one step, so an answer that arrives between them is not modelled. The
  buffer's cap is at least one.
- Results.Validate: a duration that is not a number is not represented, and JSON values are opaque apart from scalars.
- EndToEnd.AcceptedResultNamesItsExecution: tokens are assumed never to repeat, as fresh random identifiers are.
- EndToEnd.ExecutedAtMostOnce: a delivery may be lost or late but is not duplicated by the transport; the coordinator sends
  one per claim over an ordered socket.
- Eventual completion is not claimed: a slow fleet can exhaust attempts, and two workers may compute one task at once.
- Deleting a worker row, which would null worker columns, is not part of this model.
