/** Rows of the durable tables, reduced to the columns the protocol reads or writes. */
module Records {
  import opened Basics
  import opened TaskStates

  datatype TaskId = TaskId(key: nat)
  datatype WorkerId = WorkerId(key: nat)
  datatype ResultId = ResultId(key: nat)

  /** One row of `tasks`. Parameters, payload and correlation id travel unread and are left out. */
  datatype Task = Task(
    taskType: string,
    priority: int,
    createdAt: Time,
    status: Status,
    assignee: Option<WorkerId>,
    assignedAt: Option<Time>,
    startedAt: Option<Time>,
    completedAt: Option<Time>,
    updatedAt: Time,
    lease: Option<Time>,
    deadline: Option<Time>,
    attempt: nat,
    excluded: Option<WorkerId>,
    notBefore: Option<Time>,
    resultId: Option<ResultId>)

  /** The row an enqueue inserts. */
  function NewTask(taskType: string, priority: int, now: Time): Task {
    Task(taskType, priority, now, Queued, None, None, None, None, now, None, None, 0, None, None, None)
  }

  datatype Outcome = ReassignedOutcome | FailedOutcome | FencedOutcome

  datatype Reason =
    | LeaseExpired
    | DeadlineExceeded
    | StaleAttempt
    | TaskReassigned
    | ExecutorError(errorType: string)

  /** One row of `task_attempts`: an attempt that did not end normally. */
  datatype Attempt = Attempt(number: nat, worker: Option<WorkerId>, outcome: Outcome, reason: Reason)

  /** A result submission as `complete_task` reads it. */
  datatype Envelope = Envelope(task: TaskId, attempt: Option<int>, token: Option<string>, size: nat)

  /** One row of `task_results`. */
  datatype Stored = Stored(envelope: Envelope, submittedAt: Time)

  /** The durable state. `attempts` holds the rows of `task_attempts` grouped by task, in insertion order. */
  datatype Db = Db(
    tasks: map<TaskId, Task>,
    attempts: map<TaskId, seq<Attempt>>,
    results: map<ResultId, Stored>)

  const EMPTY := Db(map[], map[], map[])
}
