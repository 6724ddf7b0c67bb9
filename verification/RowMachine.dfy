/**
 The queue engine seen from one row of `tasks`.

 Every statement that moves a task is one `RowEvent`: `Enabled` is the guard its SQL or Python
 evaluates on the locked row, `RowAfter` is the UPDATE, and `LedgerAfter` is what it inserts into
 `task_attempts` for that task.
 */
module RowMachine {
  import opened Basics
  import opened TaskStates
  import opened Records

  datatype RowEvent =
    | Claim(worker: WorkerId, now: Time, ackTimeout: real, cap: real, window: real)
    | Start(worker: WorkerId, now: Time, ttl: real, cap: real)
    | Fail(worker: WorkerId, now: Time, errorType: string)
    | Complete(worker: WorkerId, now: Time, envelope: Envelope, rid: ResultId)
    | Fence(worker: WorkerId, number: nat)
    | Renew(worker: WorkerId, now: Time, ttl: real)
    | Shorten(worker: WorkerId, now: Time, grace: real)
    | Reclaim(now: Time, maxAttempts: int, delay: real)
    | Cancel(now: Time)
    | DropResult

  /** When a statement stamps what it writes with its transaction's time, that time. */
  function EventTime(ev: RowEvent): Option<Time> {
    match ev
    case Claim(_, now, _, _, _) => Some(now)
    case Start(_, now, _, _) => Some(now)
    case Fail(_, now, _) => Some(now)
    case Complete(_, now, _, _) => Some(now)
    case Renew(_, now, _) => Some(now)
    case Shorten(_, now, _) => Some(now)
    case Reclaim(now, _, _) => Some(now)
    case Cancel(now) => Some(now)
    case _ => None
  }

  /** May this worker claim the row now? Unset backoff and exclusion never hold it back. */
  predicate Eligible(row: Task, worker: WorkerId, now: Time, window: real) {
    && row.status == Queued
    && (row.notBefore.None? || row.notBefore.value <= now)
    && (row.excluded.None? || row.excluded.value != worker
        || (row.notBefore.Some? && row.notBefore.value + window <= now))
  }

  predicate Holds(row: Task, worker: WorkerId) {
    row.assignee == Some(worker)
  }

  predicate Expired(row: Task, now: Time) {
    IsLive(row.status) && row.lease.Some? && row.lease.value < now
  }

  predicate Exhausted(row: Task, maxAttempts: int) {
    row.attempt + 1 >= maxAttempts
  }

  /** The row or the ledger shows that this worker held the task at some time. */
  predicate EverHeld(row: Task, ledger: seq<Attempt>, worker: WorkerId) {
    Holds(row, worker) || exists i :: 0 <= i < |ledger| && ledger[i].worker == Some(worker)
  }

  /** Is this submission the current attempt's, from its holder? */
  predicate Current(row: Task, worker: WorkerId, attempt: Option<int>) {
    Holds(row, worker) && attempt == Some(row.attempt)
  }

  predicate HasRow(ledger: seq<Attempt>, worker: WorkerId, number: nat, outcome: Outcome) {
    exists i :: 0 <= i < |ledger| && ledger[i].worker == Some(worker)
      && ledger[i].number == number && ledger[i].outcome == outcome
  }

  predicate Enabled(row: Task, ledger: seq<Attempt>, ev: RowEvent) {
    match ev
    case Claim(worker, now, _, _, window) => Eligible(row, worker, now, window)
    case Start(worker, _, _, _) => Holds(row, worker) && CheckTransition(row.status, Running) == Write
    case Fail(worker, _, _) => Holds(row, worker) && CheckTransition(row.status, Failed) == Write
    case Complete(worker, _, envelope, _) => IsLive(row.status) && Current(row, worker, envelope.attempt)
    case Fence(worker, number) =>
      && !IsTerminal(row.status)
      && !Current(row, worker, Some(number))
      && EverHeld(row, ledger, worker)
      && number <= row.attempt
    case Renew(worker, _, _) => Holds(row, worker) && IsLive(row.status)
    case Shorten(worker, _, _) => Holds(row, worker) && IsLive(row.status)
    case Reclaim(now, _, delay) => Expired(row, now) && delay >= 0.0
    case Cancel(_) => row.status == Queued
    case DropResult => row.resultId.Some?
  }

  /** `LEAST(now + ttl, COALESCE(deadline_at, 'infinity'))`. */
  function RenewalTarget(row: Task, now: Time, ttl: real): Time {
    if row.deadline.Some? then Least(now + ttl, row.deadline.value) else now + ttl
  }

  function RowAfter(row: Task, ev: RowEvent): Task {
    match ev
    case Claim(worker, now, ackTimeout, cap, _) =>
      row.(status := Assigned, assignee := Some(worker), assignedAt := Some(now),
           lease := Some(now + ackTimeout), deadline := Some(now + cap), updatedAt := now)
    case Start(_, now, ttl, cap) =>
      row.(status := Running, startedAt := Some(now), deadline := Some(now + cap),
           lease := Some(Least(now + ttl, now + cap)), updatedAt := now)
    case Fail(_, now, _) =>
      row.(status := Failed, lease := None, deadline := None, notBefore := None, excluded := None,
           updatedAt := now)
    case Complete(_, now, _, rid) =>
      row.(status := Status.Completed, resultId := Some(rid), completedAt := Some(now), updatedAt := now,
           lease := None, deadline := None, notBefore := None, excluded := None,
           startedAt := if row.startedAt.Some? then row.startedAt else Some(now))
    case Fence(_, _) => row
    case Renew(_, now, ttl) => row.(lease := Some(RenewalTarget(row, now, ttl)), updatedAt := now)
    case Shorten(_, now, grace) =>
      row.(lease := Some(if row.lease.Some? then Least(row.lease.value, now + grace) else now + grace),
           updatedAt := now)
    case Reclaim(now, maxAttempts, delay) =>
      var exhausted := Exhausted(row, maxAttempts);
      row.(status := if exhausted then Failed else Queued,
           assignee := None, assignedAt := None, startedAt := None, lease := None, deadline := None,
           attempt := row.attempt + 1,
           excluded := if exhausted then None else row.assignee,
           notBefore := if exhausted then None else Some(now + delay),
           updatedAt := now)
    case Cancel(now) => row.(status := Cancelled, updatedAt := now)
    case DropResult => row.(resultId := None)
  }

  function FenceReason(row: Task, worker: WorkerId): Reason {
    if Holds(row, worker) then StaleAttempt else TaskReassigned
  }

  /** The row the reclaimer records: who lost which attempt, what became of the task, which clock ran out. */
  function ReclaimRecord(row: Task, now: Time, maxAttempts: int): Attempt {
    Attempt(row.attempt, row.assignee,
            if Exhausted(row, maxAttempts) then FailedOutcome else ReassignedOutcome,
            if row.deadline.Some? && row.deadline.value <= now then DeadlineExceeded else LeaseExpired)
  }

  function LedgerAfter(row: Task, ledger: seq<Attempt>, ev: RowEvent): seq<Attempt> {
    match ev
    case Fail(worker, _, errorType) =>
      if HasRow(ledger, worker, row.attempt, FailedOutcome) then ledger
      else ledger + [Attempt(row.attempt, Some(worker), FailedOutcome, ExecutorError(errorType))]
    case Fence(worker, number) =>
      if HasRow(ledger, worker, number, FencedOutcome) then ledger
      else ledger + [Attempt(number, Some(worker), FencedOutcome, FenceReason(row, worker))]
    case Reclaim(now, maxAttempts, _) => ledger + [ReclaimRecord(row, now, maxAttempts)]
    case _ => ledger
  }
}
