/** What each queue operation answers its caller, decided on the row it has locked. */
module Answers {
  import opened Basics
  import opened TaskStates
  import opened Records
  import opened RowMachine

  datatype Answer =
    | Transitioned
    | NoChange
    | NotFound
    | NotOwner
    | Illegal
    | Duplicate
    | Superseded
    | Fenced
    | NotCancellable(current: Status)

  /** `mark_status`: a worker asks for its task to move to `next`. */
  function MarkAnswer(row: Option<Task>, worker: WorkerId, next: Status): Answer {
    if row.None? then NotFound
    else if !Holds(row.value, worker) then NotOwner
    else match CheckTransition(row.value.status, next)
      case Forbidden => Illegal
      case Noop => NoChange
      case Write => Transitioned
  }

  /** The token stored for a task, unless the result body is gone. */
  function StoredToken(results: map<ResultId, Stored>, rid: Option<ResultId>): Option<string> {
    if rid.Some? && rid.value in results then results[rid.value].envelope.token else None
  }

  /** A submission for a task that is already terminal: is the stored result this very submission? */
  function TerminalAnswer(results: map<ResultId, Stored>, rid: Option<ResultId>, token: Option<string>): Answer {
    if rid.None? || token.None? then Superseded
    else
      var stored := StoredToken(results, rid);
      if stored.Some? && stored == token then Duplicate else Superseded
  }

  /** The statuses completion walks through; an unreported start is walked, not skipped. */
  function CompletionPath(current: Status): seq<Status> {
    if current == Assigned then [Running, Status.Completed] else [Status.Completed]
  }

  predicate PathPermitted(current: Status, path: seq<Status>)
    decreases |path|
  {
    path == [] || (CheckTransition(current, path[0]) != Forbidden && PathPermitted(path[0], path[1..]))
  }

  /** `complete_task`, guard by guard, in the order the guards run. */
  function CompleteAnswer(row: Option<Task>, ledger: seq<Attempt>, results: map<ResultId, Stored>,
                          worker: WorkerId, envelope: Envelope): Answer
  {
    if row.None? then NotFound
    else if IsTerminal(row.value.status) then TerminalAnswer(results, row.value.resultId, envelope.token)
    else if !Current(row.value, worker, envelope.attempt) then
      if EverHeld(row.value, ledger, worker) then Fenced else NotOwner
    else if PathPermitted(row.value.status, CompletionPath(row.value.status)) then Transitioned
    else Illegal
  }

  function CancelAnswer(row: Option<Task>): Answer {
    if row.None? then NotFound
    else if row.value.status != Queued then NotCancellable(row.value.status)
    else Transitioned
  }
}
