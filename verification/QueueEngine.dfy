/**
 The queue itself: the three tables and the operations that move them.

 Each method is one transaction. `world` is a ghost mirror that adds the claim and acceptance history;
 every method says which `Change` it amounts to, and keeps `Valid`, which includes `WorldInv`.
 */
module QueueEngine {
  import opened Basics
  import opened TaskStates
  import opened Records
  import opened Policies
  import opened RowMachine
  import opened Life
  import opened Answers
  import opened Fencing
  import opened Queue
  import opened Selection

  datatype LimitError = LimitTooSmall | LimitTooLarge | NoTaskTypes

  // ---------- What the statements compute ----------

  function ClaimOf(s: Settings, row: Task, worker: WorkerId, now: Time): RowEvent {
    Claim(worker, now, AckTimeout(s, row.taskType), ExecutionCap(s, row.taskType), s.exclusionWindow)
  }

  function StartOf(s: Settings, row: Task, worker: WorkerId, now: Time): RowEvent {
    Start(worker, now, LeaseTtl(s, row.taskType), ExecutionCap(s, row.taskType))
  }

  function ReclaimOf(s: Settings, row: Task, now: Time, draw: real): RowEvent {
    Reclaim(now, MaxAttempts(s, row.taskType), Backoff(s, row.attempt, draw))
  }

  /** Rows the dequeue statement may take: of a permitted type, eligible, and not locked by another transaction. */
  function Claimable(tasks: map<TaskId, Task>, worker: WorkerId, types: Option<set<string>>, window: real,
                     now: Time, locked: set<TaskId>): set<TaskId>
  {
    set t | t in tasks && t !in locked
      && (types.None? || tasks[t].taskType in types.value) && Eligible(tasks[t], worker, now, window)
  }

  /** Rows the reclaim statement may take. */
  function Reclaimable(tasks: map<TaskId, Task>, now: Time, locked: set<TaskId>): set<TaskId> {
    set t | t in tasks && t !in locked && Expired(tasks[t], now)
  }

  function HeldLive(tasks: map<TaskId, Task>, worker: WorkerId): set<TaskId> {
    set t | t in tasks && Holds(tasks[t], worker) && IsLive(tasks[t].status)
  }

  function QueueKey(row: Task): Key {
    Key(row.priority, row.createdAt)
  }

  function QueueKeys(tasks: map<TaskId, Task>): map<TaskId, Key> {
    map t | t in tasks :: QueueKey(tasks[t])
  }

  function LeaseKeys(tasks: map<TaskId, Task>): map<TaskId, Key> {
    map t | t in tasks :: Key(0, if tasks[t].lease.Some? then tasks[t].lease.value else 0.0)
  }

  /** The UPDATE of `mark_status` for any target status. */
  function MarkRow(row: Task, next: Status, now: Time, ttl: real, cap: real): Task {
    if next == Running then
      row.(status := Running, startedAt := Some(now), deadline := Some(now + cap),
           lease := Some(Least(now + ttl, now + cap)), updatedAt := now)
    else if IsTerminal(next) then
      row.(status := next, lease := None, deadline := None, notBefore := None, excluded := None, updatedAt := now)
    else row.(status := next, updatedAt := now)
  }

  /** The ledger after recording a reported failure, numbered by the task's own attempt count; a repeat adds nothing. */
  function FailureRecorded(tasks: map<TaskId, Task>, attempts: map<TaskId, seq<Attempt>>, id: TaskId, worker: WorkerId,
                           errorType: string): map<TaskId, seq<Attempt>>
  {
    if id in tasks && id in attempts && !HasRow(attempts[id], worker, tasks[id].attempt, FailedOutcome) then
      attempts[id := attempts[id] + [Attempt(tasks[id].attempt, Some(worker), FailedOutcome, ExecutorError(errorType))]]
    else attempts
  }

  function Lookup(tasks: map<TaskId, Task>, id: TaskId): Option<Task> {
    if id in tasks then Some(tasks[id]) else None
  }

  function LedgerOf(attempts: map<TaskId, seq<Attempt>>, id: TaskId): seq<Attempt> {
    if id in attempts then attempts[id] else []
  }

  /** The event a submission writes, given what it was answered. A fence naming an attempt never reached writes nothing. */
  function SubmissionEvent(answer: Answer, row: Task, worker: WorkerId, envelope: Envelope, now: Time, rid: ResultId)
    : Option<RowEvent>
  {
    match answer
    case Transitioned => Some(Complete(worker, now, envelope, rid))
    case Fenced =>
      if envelope.attempt.Some? && 0 <= envelope.attempt.value <= row.attempt
      then Some(Fence(worker, envelope.attempt.value))
      else None
    case _ => None
  }

  /** The change a submission amounts to, if it writes anything. */
  function SubmissionChange(db: Db, worker: WorkerId, envelope: Envelope, now: Time, rid: ResultId): Option<Change> {
    var id := envelope.task;
    if id !in db.tasks then None
    else
      var answer := CompleteAnswer(Some(db.tasks[id]), LedgerOf(db.attempts, id), db.results, worker, envelope);
      match SubmissionEvent(answer, db.tasks[id], worker, envelope, now, rid)
      case None => None
      case Some(ev) => if ev.Complete? then Some(Store(id, ev)) else Some(Touch(map[id := ev]))
  }

  function Advanced(w: World, c: Option<Change>): World
    requires Aligned(w)
  {
    if c.Some? then Advance(w, c.value) else w
  }

  // ---------- How a Touch rewrites the tables ----------

  lemma TouchTables(db: Db, evs: map<TaskId, RowEvent>)
    requires WellFormed(db) && Permits(db, Touch(evs))
    ensures Apply(db, Touch(evs)) == Db(
      map t | t in db.tasks :: if t in evs then RowAfter(db.tasks[t], evs[t]) else db.tasks[t],
      map t | t in db.tasks :: if t in evs then LedgerAfter(db.tasks[t], db.attempts[t], evs[t]) else db.attempts[t],
      db.results)
  {
    forall t | t in db.tasks
      ensures TaskAfter(db, Touch(evs), t) == if t in evs then RowAfter(db.tasks[t], evs[t]) else db.tasks[t]
      ensures AttemptsAfter(db, Touch(evs), t) ==
        if t in evs then LedgerAfter(db.tasks[t], db.attempts[t], evs[t]) else db.attempts[t]
    {
    }
  }

  lemma TouchOne(db: Db, id: TaskId, ev: RowEvent)
    requires WellFormed(db) && Permits(db, Touch(map[id := ev]))
    ensures id in db.tasks
    ensures Apply(db, Touch(map[id := ev])) == Db(
      db.tasks[id := RowAfter(db.tasks[id], ev)],
      db.attempts[id := LedgerAfter(db.tasks[id], db.attempts[id], ev)],
      db.results)
  {
    assert id in map[id := ev];
    TouchTables(db, map[id := ev]);
  }

  lemma InsertOne(db: Db, id: TaskId, row: Task)
    requires WellFormed(db) && id !in db.tasks
    ensures Apply(db, Insert(id, row)) == Db(db.tasks[id := row], db.attempts[id := []], db.results)
  {
  }

  /** Reporting a failure is the terminal write and the record of why. */
  lemma FailTables(db: Db, id: TaskId, worker: WorkerId, errorType: string, s: Settings, now: Time)
    requires WellFormed(db) && id in db.tasks && MarkAnswer(Some(db.tasks[id]), worker, Failed) == Transitioned
    ensures Permits(db, Touch(map[id := Fail(worker, now, errorType)]))
    ensures Apply(db, Touch(map[id := Fail(worker, now, errorType)])) == Db(
      db.tasks[id := MarkRow(db.tasks[id], Failed, now, LeaseTtl(s, db.tasks[id].taskType), ExecutionCap(s, db.tasks[id].taskType))],
      FailureRecorded(db.tasks, db.attempts, id, worker, errorType),
      db.results)
  {
    TouchOne(db, id, Fail(worker, now, errorType));
    assert db.attempts == db.attempts[id := db.attempts[id]];
  }

  /** Reporting a start moves the row and leaves the ledger alone. */
  lemma StartTables(db: Db, id: TaskId, worker: WorkerId, s: Settings, now: Time)
    requires WellFormed(db) && id in db.tasks && MarkAnswer(Some(db.tasks[id]), worker, Running) == Transitioned
    ensures var ev := StartOf(s, db.tasks[id], worker, now);
      && Permits(db, Touch(map[id := ev]))
      && Apply(db, Touch(map[id := ev])) == Db(
        db.tasks[id := MarkRow(db.tasks[id], Running, now, LeaseTtl(s, db.tasks[id].taskType), ExecutionCap(s, db.tasks[id].taskType))],
        db.attempts, db.results)
  {
    TouchOne(db, id, StartOf(s, db.tasks[id], worker, now));
    assert db.attempts == db.attempts[id := db.attempts[id]];
  }

  lemma StoreOne(db: Db, id: TaskId, ev: RowEvent)
    requires WellFormed(db) && Permits(db, Store(id, ev))
    ensures Apply(db, Store(id, ev)) == Db(
      db.tasks[id := RowAfter(db.tasks[id], ev)], db.attempts, db.results[ev.rid := Stored(ev.envelope, ev.now)])
  {
    var db' := Apply(db, Store(id, ev));
    forall t | t in db.tasks
      ensures db'.tasks[t] == if t == id then RowAfter(db.tasks[id], ev) else db.tasks[t]
      ensures db'.attempts[t] == db.attempts[t]
    {
    }
  }

  function Renewed(row: Task, now: Time, ttl: real): Task {
    row.(lease := Some(RenewalTarget(row, now, ttl)), updatedAt := now)
  }

  /** Renewing a worker's leases rewrites its live rows and nothing else. */
  lemma RenewedTables(db: Db, worker: WorkerId, now: Time, ttl: real)
    requires WellFormed(db)
    ensures var evs := map t | t in HeldLive(db.tasks, worker) :: Renew(worker, now, ttl);
      && Permits(db, Touch(evs))
      && Apply(db, Touch(evs)) == Db(
        map t | t in db.tasks :: if t in HeldLive(db.tasks, worker) then Renewed(db.tasks[t], now, ttl) else db.tasks[t],
        db.attempts, db.results)
  {
    TouchTables(db, map t | t in HeldLive(db.tasks, worker) :: Renew(worker, now, ttl));
  }

  /** Shortening them, likewise. */
  lemma ShortenedTables(db: Db, worker: WorkerId, now: Time, grace: real)
    requires WellFormed(db)
    ensures var evs := map t | t in HeldLive(db.tasks, worker) :: Shorten(worker, now, grace);
      && Permits(db, Touch(evs))
      && Apply(db, Touch(evs)) == Db(
        map t | t in db.tasks ::
          if t in HeldLive(db.tasks, worker) then RowAfter(db.tasks[t], Shorten(worker, now, grace)) else db.tasks[t],
        db.attempts, db.results)
  {
    TouchTables(db, map t | t in HeldLive(db.tasks, worker) :: Shorten(worker, now, grace));
  }

  /** Claiming a batch of eligible rows rewrites those rows and nothing else. */
  lemma ClaimedTables(db: Db, taken: seq<TaskId>, worker: WorkerId, s: Settings, now: Time)
    requires WellFormed(db)
    requires forall t :: t in taken ==> t in db.tasks && Eligible(db.tasks[t], worker, now, s.exclusionWindow)
    ensures var evs := map t | t in taken :: ClaimOf(s, db.tasks[t], worker, now);
      && Permits(db, Touch(evs))
      && Apply(db, Touch(evs)) == Db(
        map t | t in db.tasks :: if t in taken then RowAfter(db.tasks[t], ClaimOf(s, db.tasks[t], worker, now)) else db.tasks[t],
        db.attempts, db.results)
  {
    TouchTables(db, map t | t in taken :: ClaimOf(s, db.tasks[t], worker, now));
  }

  /** A purge deletes bodies, and the foreign key clears exactly the pointers to them. */
  lemma PurgedTables(db: Db, rids: set<ResultId>)
    requires WellFormed(db)
    ensures Apply(db, Purge(rids)) == Db(
      map t | t in db.tasks ::
        if db.tasks[t].resultId.Some? && db.tasks[t].resultId.value in rids then db.tasks[t].(resultId := None) else db.tasks[t],
      db.attempts, db.results - rids)
  {
    forall t | t in db.tasks
      ensures AttemptsAfter(db, Purge(rids), t) == db.attempts[t]
      ensures TaskAfter(db, Purge(rids), t) ==
        if db.tasks[t].resultId.Some? && db.tasks[t].resultId.value in rids then db.tasks[t].(resultId := None) else db.tasks[t]
    {
    }
  }

  /** Every event of the batch takes back an expired lease, at `now`. */
  ghost predicate AllReclaims(db: Db, evs: map<TaskId, RowEvent>, now: Time) {
    forall t :: t in evs ==>
      t in db.tasks && evs[t].Reclaim? && evs[t].now == now && Expired(db.tasks[t], now) && evs[t].delay >= 0.0
  }

  /** What the reclaim statement decides for each chosen row. */
  function ReclaimEvents(tasks: map<TaskId, Task>, taken: seq<TaskId>, s: Settings, now: Time, draws: map<TaskId, real>)
    : map<TaskId, RowEvent>
  {
    map t | t in taken && t in tasks && t in draws :: ReclaimOf(s, tasks[t], now, draws[t])
  }

  lemma ReclaimEventsAreReclaims(db: Db, taken: seq<TaskId>, s: Settings, now: Time, draws: map<TaskId, real>)
    requires Sane(s)
    requires forall t :: t in taken ==> t in db.tasks && Expired(db.tasks[t], now) && t in draws && 0.0 <= draws[t] < 1.0
    ensures var evs := ReclaimEvents(db.tasks, taken, s, now, draws);
      AllReclaims(db, evs, now) && forall t :: t in taken <==> t in evs
  {
    var evs := ReclaimEvents(db.tasks, taken, s, now, draws);
    forall t | t in evs ensures evs[t].delay >= 0.0 {
      BackoffBounds(s, db.tasks[t].attempt, draws[t]);
    }
  }

  /** What one reclaim statement does to the task rows: the longest overdue unlocked rows, up to the batch, each taken back. */
  ghost predicate ReclaimPass(before: map<TaskId, Task>, after: map<TaskId, Task>, taken: seq<TaskId>, batch: int, s: Settings,
                              now: Time, draws: map<TaskId, real>, locked: set<TaskId>)
  {
    var candidates := Reclaimable(before, now, locked);
    var evs := ReclaimEvents(before, taken, s, now, draws);
    && Distinct(taken) && ToSet(taken) <= candidates
    && |taken| == Min(batch, |candidates|)
    && candidates <= LeaseKeys(before).Keys
    && TakenFirst(taken, candidates, LeaseKeys(before))
    && (forall t :: t in taken <==> t in evs)
    && after == map t | t in before :: if t in evs then RowAfter(before[t], evs[t]) else before[t]
  }

  /** What a batch of reclaims leaves in the tables: one ledger row for each. */
  lemma ReclaimTables(db: Db, evs: map<TaskId, RowEvent>, now: Time)
    requires WellFormed(db) && AllReclaims(db, evs, now)
    ensures Permits(db, Touch(evs))
    ensures Apply(db, Touch(evs)) == Db(
      map t | t in db.tasks :: if t in evs then RowAfter(db.tasks[t], evs[t]) else db.tasks[t],
      map t | t in db.tasks ::
        if t in evs then db.attempts[t] + [ReclaimRecord(db.tasks[t], now, evs[t].maxAttempts)] else db.attempts[t],
      db.results)
  {
    TouchTables(db, evs);
  }

  /** What `complete_task` answers on a reachable row, before any table is touched. */
  lemma SubmissionAnswer(w: World, worker: WorkerId, envelope: Envelope)
    requires Reachable(w) && envelope.task in w.db.tasks
    ensures var row, answer := w.db.tasks[envelope.task],
        CompleteAnswer(Some(w.db.tasks[envelope.task]), w.db.attempts[envelope.task], w.db.results, worker, envelope);
      && answer != Illegal
      && (!IsTerminal(row.status) ==> (answer == NotOwner <==> !IsHolder(w.claims[envelope.task], worker)))
      && (answer == Transitioned ==> IsLive(row.status))
  {
    ReachableLife(w, envelope.task);
    CompleteAnswerMeaning(LifeOf(w, envelope.task), w.db.results, worker, envelope);
  }

  /** A fenced submission writes one fence row if it names an attempt the task has reached, and nothing otherwise. */
  lemma FenceChange(db: Db, worker: WorkerId, envelope: Envelope, now: Time, rid: ResultId)
    requires WellFormed(db) && envelope.task in db.tasks
    requires var id := envelope.task;
      CompleteAnswer(Some(db.tasks[id]), db.attempts[id], db.results, worker, envelope) == Fenced
    ensures var id := envelope.task;
      if envelope.attempt.Some? && 0 <= envelope.attempt.value <= db.tasks[id].attempt then
        && Enabled(db.tasks[id], db.attempts[id], Fence(worker, envelope.attempt.value))
        && SubmissionChange(db, worker, envelope, now, rid) == Some(Touch(map[id := Fence(worker, envelope.attempt.value)]))
      else SubmissionChange(db, worker, envelope, now, rid) == None
  {
  }

  class TaskQueue {
    var tasks: map<TaskId, Task>
    var attempts: map<TaskId, seq<Attempt>>
    var results: map<ResultId, Stored>
    ghost var world: World

    function Tables(): Db
      reads this
    {
      Db(tasks, attempts, results)
    }

    ghost predicate Valid()
      reads this
    {
      world.db == Tables() && Reachable(world)
    }

    constructor ()
      ensures Valid() && world == NOTHING
    {
      tasks, attempts, results := map[], map[], map[];
      world := NOTHING;
      new;
      assert Runs(NOTHING, [], NOTHING);
    }

    /** Close a transaction: the tables now hold what `c` does to them, and the history follows. */
    ghost method Commit(c: Change)
      requires Reachable(world) && Permits(world.db, c) && Tables() == Apply(world.db, c)
      modifies this`world
      ensures world == Advance(old(world), c) && Valid()
    {
      StaysReachable(world, c);
      world := Advance(world, c);
    }

    /** Insert one queued task under a fresh id. */
    method Enqueue(id: TaskId, taskType: string, priority: int, now: Time)
      requires Valid() && id !in tasks
      modifies this
      ensures Valid() && world == Advance(old(world), Insert(id, NewTask(taskType, priority, now)))
      ensures tasks == old(tasks)[id := NewTask(taskType, priority, now)]
    {
      InsertOne(world.db, id, NewTask(taskType, priority, now));
      tasks := tasks[id := NewTask(taskType, priority, now)];
      attempts := attempts[id := []];
      Commit(Insert(id, NewTask(taskType, priority, now)));
    }

    /** The claiming UPDATE: one Claim event on each chosen row. */
    method ClaimRows(taken: seq<TaskId>, worker: WorkerId, s: Settings, now: Time)
      requires Valid()
      requires forall t :: t in taken ==> t in tasks && Eligible(tasks[t], worker, now, s.exclusionWindow)
      modifies this
      ensures Valid()
      ensures world == Advance(old(world), Touch(map t | t in taken :: ClaimOf(s, old(tasks)[t], worker, now)))
      ensures tasks == map t | t in old(tasks) ::
        if t in taken then RowAfter(old(tasks)[t], ClaimOf(s, old(tasks)[t], worker, now)) else old(tasks)[t]
    {
      ghost var evs := map t | t in taken :: ClaimOf(s, tasks[t], worker, now);
      ClaimedTables(world.db, taken, worker, s, now);
      tasks := map t | t in tasks ::
        if t in taken then RowAfter(tasks[t], ClaimOf(s, tasks[t], worker, now)) else tasks[t];
      Commit(Touch(evs));
    }

    /**
     Claim up to `limit` rows for a worker, most urgent and oldest first, stepping over rows other transactions
     have locked. A lone dequeuer has nothing locked against it.
     */
    method Dequeue(worker: WorkerId, limit: int, maxBatch: int, types: Option<set<string>>, s: Settings, now: Time,
                   locked: set<TaskId>)
      returns (r: Result<seq<TaskId>, LimitError>)
      requires Valid()
      modifies this
      ensures Valid()
      ensures r.Err? <==> limit < 1 || limit > maxBatch || types == Some({})
      ensures r.Err? ==> world == old(world)
      ensures r.Ok? ==>
        var candidates := Claimable(old(tasks), worker, types, s.exclusionWindow, now, locked);
        && Distinct(r.value) && ToSet(r.value) <= candidates
        && |r.value| == Min(limit, |candidates|)
        && candidates <= QueueKeys(old(tasks)).Keys
        && TakenFirst(r.value, candidates, QueueKeys(old(tasks)))
        && (forall t :: t in r.value ==> t in old(tasks))
        && world == Advance(old(world), Touch(map t | t in r.value :: ClaimOf(s, old(tasks)[t], worker, now)))
        && tasks == map t | t in old(tasks) ::
          if t in r.value then RowAfter(old(tasks)[t], ClaimOf(s, old(tasks)[t], worker, now)) else old(tasks)[t]
    {
      if limit < 1 {
        return Err(LimitTooSmall);
      }
      if limit > maxBatch {
        return Err(LimitTooLarge);
      }
      if types == Some({}) {
        return Err(NoTaskTypes);
      }
      var candidates := Claimable(tasks, worker, types, s.exclusionWindow, now, locked);
      var taken := TakeFirst(candidates, QueueKeys(tasks), limit);
      assert forall t :: t in taken ==> t in ToSet(taken);
      ClaimRows(taken, worker, s, now);
      r := Ok(taken);
    }

    /** A worker asks for its task to move to `next`. The tables change; the caller closes the transaction. */
    method MarkStatus(id: TaskId, worker: WorkerId, next: Status, s: Settings, now: Time) returns (answer: Answer)
      modifies this`tasks
      ensures answer == MarkAnswer(Lookup(old(tasks), id), worker, next)
      ensures tasks ==
        if answer == Transitioned then
          old(tasks)[id := MarkRow(old(tasks)[id], next, now,
                                   LeaseTtl(s, old(tasks)[id].taskType), ExecutionCap(s, old(tasks)[id].taskType))]
        else old(tasks)
    {
      if id !in tasks {
        return NotFound;
      }
      var row := tasks[id];
      if !Holds(row, worker) {
        return NotOwner;
      }
      match CheckTransition(row.status, next) {
        case Forbidden => return Illegal;
        case Noop => return NoChange;
        case Write =>
      }
      tasks := tasks[id := MarkRow(row, next, now, LeaseTtl(s, row.taskType), ExecutionCap(s, row.taskType))];
      return Transitioned;
    }

    /** Record why a worker-reported failure happened, numbered by the task's own attempt count. */
    method RecordExecutionFailure(id: TaskId, worker: WorkerId, errorType: string)
      requires attempts.Keys == tasks.Keys
      modifies this`attempts
      ensures attempts == FailureRecorded(tasks, old(attempts), id, worker, errorType)
    {
      if id in tasks && !HasRow(attempts[id], worker, tasks[id].attempt, FailedOutcome) {
        attempts := attempts[id := attempts[id]
          + [Attempt(tasks[id].attempt, Some(worker), FailedOutcome, ExecutorError(errorType))]];
      }
    }

    /** The `task_started` transaction. */
    method StartTask(id: TaskId, worker: WorkerId, s: Settings, now: Time) returns (answer: Answer)
      requires Valid()
      modifies this
      ensures Valid()
      ensures answer == MarkAnswer(Lookup(old(tasks), id), worker, Running)
      ensures answer == Transitioned ==>
        id in old(tasks) && world == Advance(old(world), Touch(map[id := StartOf(s, old(tasks)[id], worker, now)]))
      ensures answer != Transitioned ==> world == old(world)
    {
      answer := MarkStatus(id, worker, Running, s, now);
      if answer == Transitioned {
        StartTables(world.db, id, worker, s, now);
        Commit(Touch(map[id := StartOf(s, old(tasks)[id], worker, now)]));
      }
    }

    /** The `task_failed` transaction: the terminal write and the record of why, together. */
    method FailTask(id: TaskId, worker: WorkerId, errorType: string, s: Settings, now: Time) returns (answer: Answer)
      requires Valid()
      modifies this
      ensures Valid()
      ensures answer == MarkAnswer(Lookup(old(tasks), id), worker, Failed)
      ensures answer == Transitioned ==>
        id in old(tasks) && world == Advance(old(world), Touch(map[id := Fail(worker, now, errorType)]))
      ensures answer != Transitioned ==> world == old(world)
    {
      answer := MarkStatus(id, worker, Failed, s, now);
      if answer == Transitioned {
        FailTables(world.db, id, worker, errorType, s, now);
        RecordExecutionFailure(id, worker, errorType);
        Commit(Touch(map[id := Fail(worker, now, errorType)]));
      }
    }

    /** The guards of `complete_task` in the order they run, on a row that exists. */
    method AnswerSubmission(worker: WorkerId, envelope: Envelope) returns (answer: Answer)
      requires envelope.task in tasks && envelope.task in attempts
      ensures answer == CompleteAnswer(Some(tasks[envelope.task]), attempts[envelope.task], results, worker, envelope)
    {
      var row := tasks[envelope.task];
      if IsTerminal(row.status) {
        return TerminalAnswer(results, row.resultId, envelope.token);
      }
      if !Current(row, worker, envelope.attempt) {
        return if EverHeld(row, attempts[envelope.task], worker) then Fenced else NotOwner;
      }
      var state, path := row.status, CompletionPath(row.status);
      while path != []
        invariant PathPermitted(row.status, CompletionPath(row.status)) <==> PathPermitted(state, path)
        decreases |path|
      {
        if CheckTransition(state, path[0]) == Forbidden {
          return Illegal;
        }
        state, path := path[0], path[1..];
      }
      return Transitioned;
    }

    /** Insert one fence row for a real attempt, unless the same row is already there. */
    method RecordFence(worker: WorkerId, id: TaskId, number: nat)
      requires Valid() && id in tasks && Enabled(tasks[id], attempts[id], Fence(worker, number))
      modifies this
      ensures Valid() && world == Advance(old(world), Touch(map[id := Fence(worker, number)]))
    {
      TouchOne(world.db, id, Fence(worker, number));
      if !HasRow(attempts[id], worker, number, FencedOutcome) {
        attempts := attempts[id := attempts[id] + [Attempt(number, Some(worker), FencedOutcome, FenceReason(tasks[id], worker))]];
      }
      assert tasks == tasks[id := tasks[id]];
      assert Tables() == Apply(world.db, Touch(map[id := Fence(worker, number)]));
      Commit(Touch(map[id := Fence(worker, number)]));
    }

    /** Refuse a submission whose attempt is no longer current, leaving a row if it names a real attempt. */
    method FenceSubmission(worker: WorkerId, envelope: Envelope, ghost now: Time, ghost rid: ResultId)
      requires Valid() && envelope.task in tasks
      requires CompleteAnswer(Some(tasks[envelope.task]), attempts[envelope.task], results, worker, envelope) == Fenced
      modifies this
      ensures Valid()
      ensures world == Advanced(old(world), SubmissionChange(old(Tables()), worker, envelope, now, rid))
    {
      FenceChange(world.db, worker, envelope, now, rid);
      if envelope.attempt.Some? && 0 <= envelope.attempt.value <= tasks[envelope.task].attempt {
        RecordFence(worker, envelope.task, envelope.attempt.value);
      }
    }

    /** Both writes or neither: the result row and the task's move to COMPLETED. */
    method StoreResult(worker: WorkerId, envelope: Envelope, now: Time, rid: ResultId)
      requires Valid() && rid !in results && envelope.task in tasks
      requires CompleteAnswer(Some(tasks[envelope.task]), attempts[envelope.task], results, worker, envelope) == Transitioned
      modifies this
      ensures Valid()
      ensures world == Advanced(old(world), SubmissionChange(old(Tables()), worker, envelope, now, rid))
    {
      SubmissionAnswer(world, worker, envelope);
      ghost var ev := Complete(worker, now, envelope, rid);
      StoreOne(world.db, envelope.task, ev);
      results := results[rid := Stored(envelope, now)];
      var row := tasks[envelope.task];
      tasks := tasks[envelope.task :=
        row.(status := Status.Completed, resultId := Some(rid), completedAt := Some(now), updatedAt := now,
             lease := None, deadline := None, notBefore := None, excluded := None,
             startedAt := if row.startedAt.Some? then row.startedAt else Some(now))];
      Commit(Store(envelope.task, ev));
    }

    /**
     Persist a result and complete its task, or say why not. `rid` is a fresh result id. The answer is never
     ILLEGAL, and on an unfinished task NOT_OWNER goes exactly to workers that never held it.
     */
    method CompleteTask(worker: WorkerId, envelope: Envelope, now: Time, rid: ResultId) returns (answer: Answer)
      requires Valid() && rid !in results
      modifies this
      ensures Valid()
      ensures answer == CompleteAnswer(Lookup(old(tasks), envelope.task), LedgerOf(old(attempts), envelope.task),
                                       old(results), worker, envelope)
      ensures world == Advanced(old(world), SubmissionChange(old(Tables()), worker, envelope, now, rid))
      ensures answer != Illegal
      ensures envelope.task in old(tasks) && !IsTerminal(old(tasks)[envelope.task].status) ==>
        (answer == NotOwner <==> !IsHolder(old(world.claims)[envelope.task], worker))
    {
      var id := envelope.task;
      if id !in tasks {
        return NotFound;
      }
      SubmissionAnswer(world, worker, envelope);
      answer := AnswerSubmission(worker, envelope);
      if answer == Fenced {
        FenceSubmission(worker, envelope, now, rid);
      } else if answer == Transitioned {
        StoreResult(worker, envelope, now, rid);
      }
    }

    /** Push one lease out by the global TTL, capped at the deadline. */
    method RenewLease(id: TaskId, worker: WorkerId, s: Settings, now: Time) returns (renewed: bool)
      requires Valid()
      modifies this
      ensures Valid()
      ensures renewed <==> id in HeldLive(old(tasks), worker)
      ensures tasks == if renewed then old(tasks)[id := Renewed(old(tasks)[id], now, s.leaseTtl)] else old(tasks)
      ensures world == if renewed then Advance(old(world), Touch(map[id := Renew(worker, now, s.leaseTtl)])) else old(world)
    {
      renewed := id in tasks && Holds(tasks[id], worker) && IsLive(tasks[id].status);
      if renewed {
        ghost var ev := Renew(worker, now, s.leaseTtl);
        TouchOne(world.db, id, ev);
        tasks := tasks[id := Renewed(tasks[id], now, s.leaseTtl)];
        assert attempts == attempts[id := attempts[id]];
        Commit(Touch(map[id := ev]));
      }
    }

    /** The reconnect path: renew every live lease the worker holds, and name them from the tables. */
    method RenewWorkerLeases(worker: WorkerId, s: Settings, now: Time) returns (renewed: set<TaskId>)
      requires Valid()
      modifies this
      ensures Valid()
      ensures renewed == HeldLive(old(tasks), worker)
      ensures world == Advance(old(world), Touch(map t | t in renewed :: Renew(worker, now, s.leaseTtl)))
    {
      renewed := HeldLive(tasks, worker);
      RenewedTables(world.db, worker, now, s.leaseTtl);
      tasks := map t | t in tasks :: if t in renewed then Renewed(tasks[t], now, s.leaseTtl) else tasks[t];
      Commit(Touch(map t | t in renewed :: Renew(worker, now, s.leaseTtl)));
    }

    /** The disconnect path: cut every live lease the worker holds to at most `grace` from now. */
    method ShortenWorkerLeases(worker: WorkerId, grace: real, now: Time) returns (shortened: nat)
      requires Valid()
      modifies this
      ensures Valid()
      ensures shortened == |HeldLive(old(tasks), worker)|
      ensures world == Advance(old(world), Touch(map t | t in HeldLive(old(tasks), worker) :: Shorten(worker, now, grace)))
    {
      var held := HeldLive(tasks, worker);
      ShortenedTables(world.db, worker, now, grace);
      tasks := map t | t in tasks :: if t in held then RowAfter(tasks[t], Shorten(worker, now, grace)) else tasks[t];
      Commit(Touch(map t | t in held :: Shorten(worker, now, grace)));
      shortened := |held|;
    }

    /** One ledger row for each reclaimed task, numbered by the attempt that ended. `before` holds the rows as they were. */
    method RecordLosses(taken: seq<TaskId>, before: map<TaskId, Task>, evs: map<TaskId, RowEvent>, now: Time)
      requires Distinct(taken) && attempts.Keys == before.Keys
      requires forall t :: t in taken ==> t in before && t in evs && evs[t].Reclaim?
      modifies this`attempts
      ensures attempts == map t | t in before ::
        if t in taken then old(attempts)[t] + [ReclaimRecord(before[t], now, evs[t].maxAttempts)] else old(attempts)[t]
    {
      var i := 0;
      while i < |taken|
        invariant 0 <= i <= |taken|
        invariant attempts.Keys == before.Keys
        invariant forall t :: t in before ==>
          attempts[t] == (if t in taken[..i] then old(attempts)[t] + [ReclaimRecord(before[t], now, evs[t].maxAttempts)]
                          else old(attempts)[t])
      {
        var t := taken[i];
        NextInLine(taken, i);
        attempts := attempts[t := attempts[t] + [ReclaimRecord(before[t], now, evs[t].maxAttempts)]];
        i := i + 1;
      }
      assert taken[..i] == taken;
    }

    /** The reclaiming UPDATE and its ledger rows: one Reclaim event on each chosen row. */
    method ReclaimRows(taken: seq<TaskId>, evs: map<TaskId, RowEvent>, now: Time)
      requires Valid() && Distinct(taken) && (forall t :: t in taken <==> t in evs) && AllReclaims(Tables(), evs, now)
      modifies this
      ensures Valid()
      ensures world == Advance(old(world), Touch(evs))
      ensures tasks == map t | t in old(tasks) :: if t in evs then RowAfter(old(tasks)[t], evs[t]) else old(tasks)[t]
    {
      var before := tasks;
      ReclaimTables(world.db, evs, now);
      tasks := map t | t in before :: if t in evs then RowAfter(before[t], evs[t]) else before[t];
      RecordLosses(taken, before, evs, now);
      Commit(Touch(evs));
    }

    /** Take back up to `batch` expired leases, longest overdue first, each requeued or given up on by its attempt count. */
    method ReclaimExpiredLeases(batch: int, s: Settings, now: Time, draws: map<TaskId, real>, locked: set<TaskId>)
      returns (r: Result<seq<TaskId>, LimitError>)
      requires Valid() && Sane(s)
      requires forall t :: t in tasks ==> t in draws && 0.0 <= draws[t] < 1.0
      modifies this
      ensures Valid()
      ensures r.Err? <==> batch < 1
      ensures r.Err? ==> world == old(world)
      ensures r.Ok? ==>
        && ReclaimPass(old(tasks), tasks, r.value, batch, s, now, draws, locked)
        && world == Advance(old(world), Touch(ReclaimEvents(old(tasks), r.value, s, now, draws)))
    {
      if batch < 1 {
        return Err(LimitTooSmall);
      }
      var candidates := Reclaimable(tasks, now, locked);
      var taken := TakeFirst(candidates, LeaseKeys(tasks), batch);
      assert forall t :: t in taken ==> t in ToSet(taken);
      ReclaimEventsAreReclaims(Tables(), taken, s, now, draws);
      var evs := ReclaimEvents(tasks, taken, s, now, draws);
      ReclaimRows(taken, evs, now);
      r := Ok(taken);
    }

    /** Cancel a task that is still waiting. The retry columns are left as they are. */
    method CancelQueuedTask(id: TaskId, now: Time) returns (answer: Answer)
      requires Valid()
      modifies this
      ensures Valid()
      ensures answer == CancelAnswer(Lookup(old(tasks), id))
      ensures world == if answer == Transitioned then Advance(old(world), Touch(map[id := Cancel(now)])) else old(world)
    {
      if id !in tasks {
        return NotFound;
      }
      if tasks[id].status != Queued {
        return NotCancellable(tasks[id].status);
      }
      TouchOne(world.db, id, Cancel(now));
      tasks := tasks[id := tasks[id].(status := Cancelled, updatedAt := now)];
      assert attempts == attempts[id := attempts[id]];
      Commit(Touch(map[id := Cancel(now)]));
      return Transitioned;
    }

    /** Delete result bodies older than the retention period; the foreign key nulls the pointers. */
    method PurgeExpiredResults(retentionDays: int, now: Time) returns (purged: nat)
      requires Valid()
      modifies this
      ensures Valid()
      ensures var expired := if retentionDays <= 0 then {} else
          set r | r in old(results) && old(results)[r].submittedAt < now - retentionDays as real * 86400.0;
        purged == |expired| && world == if retentionDays <= 0 then old(world) else Advance(old(world), Purge(expired))
    {
      if retentionDays <= 0 {
        return 0;
      }
      var rids := set r | r in results && results[r].submittedAt < now - retentionDays as real * 86400.0;
      PurgedTables(world.db, rids);
      results := results - rids;
      tasks := map t | t in tasks ::
        if tasks[t].resultId.Some? && tasks[t].resultId.value in rids then tasks[t].(resultId := None) else tasks[t];
      Commit(Purge(rids));
      purged := |rids|;
    }
  }
}
