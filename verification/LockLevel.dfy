/**
 Below the atomic steps: transactions that scan a snapshot, take row locks one at a time, decide on the
 version they read under the lock, and commit or abort. Any interleaving of any number of them commits a
 serial run of the atomic changes.

 Three statements lock many rows and wait for each: renewing or shortening all of a worker's leases, and the purge, whose
 foreign key updates the task of every body it deletes.
 */
module LockLevel {
  import opened Basics
  import opened TaskStates
  import opened Records
  import opened Policies
  import opened RowMachine
  import opened Life
  import opened Answers
  import opened Queue
  import opened Winner
  import opened QueueEngine

  datatype TxnId = TxnId(key: nat)

  datatype Op =
    | DequeueOp(worker: WorkerId, types: Option<set<string>>, limit: nat, s: Settings)
    | ReclaimOp(batch: nat, s: Settings)
    | StartOp(id: TaskId, worker: WorkerId, s: Settings)
    | FailOp(id: TaskId, worker: WorkerId, errorType: string)
    | SubmitOp(worker: WorkerId, envelope: Envelope, rid: ResultId)
    | CancelOp(id: TaskId)
    | RenewOp(id: TaskId, worker: WorkerId, ttl: real)
    | RenewAllOp(worker: WorkerId, ttl: real)
    | ShortenAllOp(worker: WorkerId, grace: real)
    | PurgeOp(cutoff: Time)

  /** `FOR UPDATE SKIP LOCKED`: step over rows another transaction holds instead of waiting. */
  predicate SkipsLocked(op: Op) {
    op.DequeueOp? || op.ReclaimOp?
  }

  /** One UPDATE or DELETE over many rows: it locks them one by one, and waits for each with the others held. */
  predicate IsBulk(op: Op) {
    op.RenewAllOp? || op.ShortenAllOp? || op.PurgeOp?
  }

  /** May the statement lock one more row? Only the skip-locked ones carry a LIMIT. */
  predicate HasRoom(op: Op, locked: nat) {
    match op
    case DequeueOp(_, _, limit, _) => locked < limit
    case ReclaimOp(batch, _) => locked < batch
    case _ => IsBulk(op) || locked == 0
  }

  /** The one row a blocking operation names. */
  function Target(op: Op): TaskId
    requires !SkipsLocked(op) && !IsBulk(op)
  {
    match op
    case StartOp(id, _, _) => id
    case FailOp(id, _, _) => id
    case SubmitOp(_, envelope, _) => envelope.task
    case CancelOp(id) => id
    case RenewOp(id, _, _) => id
  }

  /** A row and its ledger as read while holding its lock. */
  datatype Version = Version(row: Task, ledger: seq<Attempt>)

  /** What the operation writes on a row it has locked: the guard is evaluated on the locked version. */
  function Decide(op: Op, now: Time, v: Version, results: map<ResultId, Stored>, delay: real): Option<RowEvent> {
    match op
    case DequeueOp(worker, types, _, s) =>
      if Eligible(v.row, worker, now, s.exclusionWindow) && (types.None? || v.row.taskType in types.value)
      then Some(ClaimOf(s, v.row, worker, now)) else None
    case ReclaimOp(_, s) =>
      if Expired(v.row, now) && delay >= 0.0
      then Some(Reclaim(now, MaxAttempts(s, v.row.taskType), delay)) else None
    case StartOp(_, worker, s) =>
      if MarkAnswer(Some(v.row), worker, Running) == Transitioned then Some(StartOf(s, v.row, worker, now)) else None
    case FailOp(_, worker, errorType) =>
      if MarkAnswer(Some(v.row), worker, Failed) == Transitioned then Some(Fail(worker, now, errorType)) else None
    case SubmitOp(worker, envelope, rid) =>
      SubmissionEvent(CompleteAnswer(Some(v.row), v.ledger, results, worker, envelope), v.row, worker, envelope, now, rid)
    case CancelOp(_) => if v.row.status == Queued then Some(Cancel(now)) else None
    case RenewOp(_, worker, ttl) =>
      if Holds(v.row, worker) && IsLive(v.row.status) then Some(Renew(worker, now, ttl)) else None
    case RenewAllOp(worker, ttl) =>
      if Holds(v.row, worker) && IsLive(v.row.status) then Some(Renew(worker, now, ttl)) else None
    case ShortenAllOp(worker, grace) =>
      if Holds(v.row, worker) && IsLive(v.row.status) then Some(Shorten(worker, now, grace)) else None
    case PurgeOp(cutoff) => if PastRetention(v.row, results, cutoff) then Some(DropResult) else None
  }

  /** The row points to a body submitted before the cutoff. */
  predicate PastRetention(row: Task, results: map<ResultId, Stored>, cutoff: Time) {
    row.resultId.Some? && row.resultId.value in results && results[row.resultId.value].submittedAt < cutoff
  }

  /** A transaction in flight. `scanned` is the snapshot it started from and may be stale. */
  datatype Txn = Txn(
    op: Op,
    now: Time,
    scanned: set<TaskId>,
    locked: map<TaskId, Version>,
    writes: map<TaskId, RowEvent>)

  /** The committed world, who holds each row lock, and the transactions in flight. */
  datatype Engine = Engine(world: World, owner: map<TaskId, TxnId>, txns: map<TxnId, Txn>)

  function Idle(w: World): Engine {
    Engine(w, map[], map[])
  }

  datatype Action =
    | Begin(x: TxnId, op: Op, now: Time)
    | Lock(x: TxnId, t: TaskId)
    | Skip(x: TxnId, t: TaskId)
    | Write(x: TxnId, t: TaskId, delay: real)
    | Commit(x: TxnId)
    | Abort(x: TxnId)
    | Enqueue(id: TaskId, row: Task)

  /** The rows the statement's WHERE clause matches in the snapshot. */
  function Scan(db: Db, op: Op, now: Time): set<TaskId> {
    match op
    case DequeueOp(worker, types, _, s) => Claimable(db.tasks, worker, types, s.exclusionWindow, now, {})
    case ReclaimOp(_, _) => Reclaimable(db.tasks, now, {})
    case RenewAllOp(worker, _) => HeldLive(db.tasks, worker)
    case ShortenAllOp(worker, _) => HeldLive(db.tasks, worker)
    case PurgeOp(cutoff) => set t | t in db.tasks && PastRetention(db.tasks[t], db.results, cutoff)
    case _ => if Target(op) in db.tasks then {Target(op)} else {}
  }

  function VersionOf(w: World, t: TaskId): Version
    requires Aligned(w) && t in w.db.tasks
  {
    Version(w.db.tasks[t], w.db.attempts[t])
  }

  /** The bodies a purge deletes: those of the rows whose pointers it clears. */
  function Purged(txn: Txn): set<ResultId> {
    set t | t in txn.writes && t in txn.locked && txn.locked[t].row.resultId.Some? :: txn.locked[t].row.resultId.value
  }

  /** The change a transaction's buffered writes amount to. */
  function CommitChange(txn: Txn): Change {
    if txn.op.PurgeOp? then Purge(Purged(txn))
    else if txn.op.SubmitOp? && txn.op.envelope.task in txn.writes && txn.writes[txn.op.envelope.task].Complete?
    then Store(txn.op.envelope.task, txn.writes[txn.op.envelope.task])
    else Touch(txn.writes)
  }

  predicate CanDo(e: Engine, a: Action)
    requires Aligned(e.world)
  {
    match a
    case Begin(x, _, _) => x !in e.txns
    case Lock(x, t) =>
      && x in e.txns && t in e.txns[x].scanned && t in e.world.db.tasks
      && t !in e.owner
      && t !in e.txns[x].locked && HasRoom(e.txns[x].op, |e.txns[x].locked|)
    case Skip(x, t) => x in e.txns && SkipsLocked(e.txns[x].op) && t in e.owner && e.owner[t] != x
    case Write(x, t, delay) =>
      && x in e.txns && t in e.txns[x].locked
      && Decide(e.txns[x].op, e.txns[x].now, e.txns[x].locked[t], e.world.db.results, delay).Some?
    case Commit(x) =>
      x in e.txns && (e.txns[x].op.SubmitOp? ==> e.txns[x].op.rid !in e.world.db.results)
    case Abort(x) => x in e.txns
    case Enqueue(id, row) => Permits(e.world.db, Insert(id, row))
  }

  function Released(owner: map<TaskId, TxnId>, x: TxnId): map<TaskId, TxnId> {
    map t | t in owner && owner[t] != x :: owner[t]
  }

  function Do(e: Engine, a: Action): Engine
    requires Aligned(e.world) && CanDo(e, a)
  {
    match a
    case Begin(x, op, now) => e.(txns := e.txns[x := Txn(op, now, Scan(e.world.db, op, now), map[], map[])])
    case Lock(x, t) =>
      var txn := e.txns[x];
      e.(owner := e.owner[t := x], txns := e.txns[x := txn.(locked := txn.locked[t := VersionOf(e.world, t)])])
    case Skip(x, t) => e.(txns := e.txns[x := e.txns[x].(scanned := e.txns[x].scanned - {t})])
    case Write(x, t, delay) =>
      var txn := e.txns[x];
      var ev := Decide(txn.op, txn.now, txn.locked[t], e.world.db.results, delay).value;
      e.(txns := e.txns[x := txn.(writes := txn.writes[t := ev])])
    case Commit(x) =>
      Engine(Advance(e.world, CommitChange(e.txns[x])), Released(e.owner, x), e.txns - {x})
    case Abort(x) => Engine(e.world, Released(e.owner, x), e.txns - {x})
    case Enqueue(id, row) => e.(world := Advance(e.world, Insert(id, row)))
  }

  // ---------- What every interleaving keeps ----------

  /** Locks are exclusive, and a lock holder's version is still the committed one. */
  ghost predicate LocksInv(e: Engine)
    requires Aligned(e.world)
  {
    && (forall t :: t in e.owner ==> e.owner[t] in e.txns && t in e.txns[e.owner[t]].locked)
    && (forall x, t :: x in e.txns && t in e.txns[x].locked ==>
      && t in e.owner && e.owner[t] == x
      && t in e.world.db.tasks
      && e.txns[x].locked[t] == VersionOf(e.world, t))
  }

  /** Buffered writes were decided on locked versions, by the operation they belong to. */
  ghost predicate WritesInv(txn: Txn) {
    && (forall t :: t in txn.writes ==>
      && t in txn.locked
      && Enabled(txn.locked[t].row, txn.locked[t].ledger, txn.writes[t])
      && (txn.writes[t].DropResult? <==> txn.op.PurgeOp?)
      && (txn.writes[t].Complete? ==> txn.op.SubmitOp? && txn.writes[t].rid == txn.op.rid && txn.writes[t].envelope == txn.op.envelope))
    && (!SkipsLocked(txn.op) && !IsBulk(txn.op) ==> txn.scanned <= {Target(txn.op)} && txn.locked.Keys <= {Target(txn.op)})
  }

  ghost predicate EngineInv(e: Engine) {
    && Reachable(e.world)
    && LocksInv(e)
    && forall x :: x in e.txns ==> WritesInv(e.txns[x])
  }

  lemma DecisionIsEnabled(op: Op, now: Time, v: Version, results: map<ResultId, Stored>, delay: real)
    requires Decide(op, now, v, results, delay).Some?
    ensures var ev := Decide(op, now, v, results, delay).value;
      && (v.row.status != Reassigned ==> Enabled(v.row, v.ledger, ev))
      && (ev.DropResult? <==> op.PurgeOp?)
      && (ev.Complete? ==> op.SubmitOp? && ev.rid == op.rid && ev.envelope == op.envelope)
  {
    if op.SubmitOp? && v.row.status != Reassigned {
      assert v.row.status == Queued ==> !PathPermitted(Queued, [Status.Completed]);
    }
  }

  lemma CommitIsPermitted(e: Engine, x: TxnId)
    requires EngineInv(e) && CanDo(e, Commit(x))
    ensures Permits(e.world.db, CommitChange(e.txns[x]))
  {
    if e.txns[x].op.PurgeOp? {
      PurgeIsPermitted(e, x);
    } else {
      WritesArePermitted(e, x);
    }
  }

  lemma WritesArePermitted(e: Engine, x: TxnId)
    requires Aligned(e.world) && LocksInv(e) && CanDo(e, Commit(x)) && WritesInv(e.txns[x]) && !e.txns[x].op.PurgeOp?
    ensures Permits(e.world.db, CommitChange(e.txns[x]))
  {
    var txn := e.txns[x];
    forall t | t in txn.writes
      ensures t in e.world.db.tasks && Enabled(e.world.db.tasks[t], e.world.db.attempts[t], txn.writes[t])
    {
      assert txn.locked[t] == VersionOf(e.world, t);
    }
    forall t | t in txn.writes && txn.writes[t].Complete? ensures t == txn.op.envelope.task {
      assert t in txn.locked.Keys;
    }
  }

  /** What a purge deletes is still there: each pointer it clears is current, and a current pointer has its body. */
  lemma PurgeIsPermitted(e: Engine, x: TxnId)
    requires EngineInv(e) && x in e.txns && e.txns[x].op.PurgeOp?
    ensures Permits(e.world.db, CommitChange(e.txns[x]))
  {
    ReachableWorldsAreGood(e.world);
    PurgedAreStored(e, x);
  }

  lemma PurgedAreStored(e: Engine, x: TxnId)
    requires Aligned(e.world) && ResultsInv(e.world) && LocksInv(e) && x in e.txns
    ensures Purged(e.txns[x]) <= e.world.db.results.Keys
  {
    forall t | t in e.txns[x].locked && e.txns[x].locked[t].row.resultId.Some?
      ensures e.txns[x].locked[t].row.resultId.value in e.world.db.results
    {
      assert e.txns[x].locked[t] == VersionOf(e.world, t);
    }
  }

  /** A change leaves every row it has no event for exactly as it was. */
  lemma UntouchedVersion(w: World, c: Change, t: TaskId)
    requires Aligned(w) && Permits(w.db, c) && t in w.db.tasks && EventFor(w.db, c, t).None?
    ensures t in Advance(w, c).db.tasks && VersionOf(Advance(w, c), t) == VersionOf(w, t)
  {
    LifeAdvances(w, c, t);
    assert LifeOf(Advance(w, c), t) == LifeOf(w, t);
  }

  /** A commit has no event for a row its transaction has not locked: no other task shares a body a purge deletes. */
  lemma CommitLeavesOthers(e: Engine, x: TxnId, t: TaskId)
    requires Aligned(e.world) && ResultsInv(e.world) && LocksInv(e) && x in e.txns && WritesInv(e.txns[x])
    requires t in e.world.db.tasks && t !in e.txns[x].locked
    ensures EventFor(e.world.db, CommitChange(e.txns[x]), t).None?
  {
    assert t !in e.txns[x].writes;
    if e.txns[x].op.PurgeOp? {
      PurgeLeavesOthers(e, x, t);
    }
  }

  lemma PurgeLeavesOthers(e: Engine, x: TxnId, t: TaskId)
    requires Aligned(e.world) && ResultsInv(e.world) && LocksInv(e) && x in e.txns
    requires t in e.world.db.tasks && t !in e.txns[x].locked
    ensures e.world.db.tasks[t].resultId.Some? ==> e.world.db.tasks[t].resultId.value !in Purged(e.txns[x])
  {
    PointersOfResults(e.world);
    forall u | u in e.txns[x].locked && e.txns[x].locked[u].row.resultId.Some?
      ensures e.txns[x].locked[u].row.resultId != e.world.db.tasks[t].resultId
    {
      assert e.txns[x].locked[u] == VersionOf(e.world, u);
    }
  }

  /** A row another transaction has locked is not this one's, and its version is the committed one. */
  lemma LockedElsewhere(e: Engine, x: TxnId, y: TxnId, t: TaskId)
    requires Aligned(e.world) && LocksInv(e) && x in e.txns && y in e.txns && y != x && t in e.txns[y].locked
    ensures t !in e.txns[x].locked && t in e.world.db.tasks && e.txns[y].locked[t] == VersionOf(e.world, t)
  {
    assert e.owner[t] == y;
  }

  lemma CommitKeepsVersion(e: Engine, x: TxnId, t: TaskId, w: World)
    requires Aligned(e.world) && ResultsInv(e.world) && LocksInv(e) && x in e.txns && WritesInv(e.txns[x])
    requires Permits(e.world.db, CommitChange(e.txns[x])) && w == Advance(e.world, CommitChange(e.txns[x]))
    requires t in e.world.db.tasks && t !in e.txns[x].locked
    ensures t in w.db.tasks && VersionOf(w, t) == VersionOf(e.world, t)
  {
    CommitLeavesOthers(e, x, t);
    UntouchedVersion(e.world, CommitChange(e.txns[x]), t);
  }

  /** Dropping one transaction and its locks keeps lock exclusivity, if every other version is still current. */
  lemma LocksAfterEnd(e: Engine, x: TxnId, w: World)
    requires Aligned(e.world) && LocksInv(e) && Aligned(w)
    requires forall y, t :: y in e.txns && y != x && t in e.txns[y].locked ==>
      t in w.db.tasks && e.txns[y].locked[t] == VersionOf(w, t)
    ensures LocksInv(Engine(w, Released(e.owner, x), e.txns - {x}))
  {
  }

  lemma LocksAfterCommit(e: Engine, x: TxnId)
    requires Aligned(e.world) && ResultsInv(e.world) && LocksInv(e) && CanDo(e, Commit(x)) && WritesInv(e.txns[x])
    requires Permits(e.world.db, CommitChange(e.txns[x]))
    ensures LocksInv(Do(e, Commit(x)))
  {
    var w := Advance(e.world, CommitChange(e.txns[x]));
    forall y, t | y in e.txns && y != x && t in e.txns[y].locked
      ensures t in w.db.tasks && e.txns[y].locked[t] == VersionOf(w, t)
    {
      LockedElsewhere(e, x, y, t);
      CommitKeepsVersion(e, x, t, w);
    }
    LocksAfterEnd(e, x, w);
  }

  lemma CommitKeepsInv(e: Engine, x: TxnId)
    requires EngineInv(e) && CanDo(e, Commit(x))
    ensures EngineInv(Do(e, Commit(x)))
  {
    CommitIsPermitted(e, x);
    StaysReachable(e.world, CommitChange(e.txns[x]));
    ReachableWorldsAreGood(e.world);
    LocksAfterCommit(e, x);
  }

  lemma LocksAfterInsert(e: Engine, c: Change)
    requires Aligned(e.world) && LocksInv(e) && c.Insert? && Permits(e.world.db, c)
    ensures LocksInv(e.(world := Advance(e.world, c)))
  {
    var w := Advance(e.world, c);
    forall y, t | y in e.txns && t in e.txns[y].locked
      ensures t in w.db.tasks && e.txns[y].locked[t] == VersionOf(w, t)
    {
      UntouchedVersion(e.world, c, t);
    }
  }

  lemma EnqueueKeepsInv(e: Engine, id: TaskId, row: Task)
    requires EngineInv(e) && CanDo(e, Enqueue(id, row))
    ensures EngineInv(Do(e, Enqueue(id, row)))
  {
    StaysReachable(e.world, Insert(id, row));
    LocksAfterInsert(e, Insert(id, row));
    assert Do(e, Enqueue(id, row)) == e.(world := Advance(e.world, Insert(id, row)));
  }

  lemma WriteKeepsWrites(txn: Txn, t: TaskId, ev: RowEvent)
    requires WritesInv(txn) && t in txn.locked && Enabled(txn.locked[t].row, txn.locked[t].ledger, ev)
    requires ev.DropResult? <==> txn.op.PurgeOp?
    requires ev.Complete? ==> txn.op.SubmitOp? && ev.rid == txn.op.rid && ev.envelope == txn.op.envelope
    ensures WritesInv(txn.(writes := txn.writes[t := ev]))
  {
  }

  lemma BufferedWriteKeepsInv(e: Engine, x: TxnId, t: TaskId, ev: RowEvent)
    requires EngineInv(e) && x in e.txns
    requires var txn := e.txns[x];
      && t in txn.locked && Enabled(txn.locked[t].row, txn.locked[t].ledger, ev) && (ev.DropResult? <==> txn.op.PurgeOp?)
      && (ev.Complete? ==> txn.op.SubmitOp? && ev.rid == txn.op.rid && ev.envelope == txn.op.envelope)
    ensures EngineInv(e.(txns := e.txns[x := e.txns[x].(writes := e.txns[x].writes[t := ev])]))
  {
    var txn := e.txns[x];
    WriteKeepsWrites(txn, t, ev);
    LocksAfterUpdate(e, x, txn.(writes := txn.writes[t := ev]));
  }

  lemma WriteKeepsInv(e: Engine, x: TxnId, t: TaskId, delay: real)
    requires EngineInv(e) && CanDo(e, Action.Write(x, t, delay))
    ensures EngineInv(Do(e, Action.Write(x, t, delay)))
  {
    LockedRowIsReal(e, x, t);
    var ev := DecidedWrite(e.txns[x], t, e.world.db.results, delay);
    BufferedWriteKeepsInv(e, x, t, ev);
    WriteBuffers(e, x, t, delay, ev);
  }

  lemma WriteBuffers(e: Engine, x: TxnId, t: TaskId, delay: real, ev: RowEvent)
    requires Aligned(e.world) && CanDo(e, Action.Write(x, t, delay))
    requires ev == Decide(e.txns[x].op, e.txns[x].now, e.txns[x].locked[t], e.world.db.results, delay).value
    ensures Do(e, Action.Write(x, t, delay)) == e.(txns := e.txns[x := e.txns[x].(writes := e.txns[x].writes[t := ev])])
  {
  }

  lemma LockedRowIsReal(e: Engine, x: TxnId, t: TaskId)
    requires Reachable(e.world) && LocksInv(e) && x in e.txns && t in e.txns[x].locked
    ensures e.txns[x].locked[t].row.status != Reassigned
  {
    assert e.txns[x].locked[t] == VersionOf(e.world, t);
    CommittedRowIsReal(e.world, t);
  }

  lemma DecidedWrite(txn: Txn, t: TaskId, results: map<ResultId, Stored>, delay: real) returns (ev: RowEvent)
    requires t in txn.locked && txn.locked[t].row.status != Reassigned
    requires Decide(txn.op, txn.now, txn.locked[t], results, delay).Some?
    ensures ev == Decide(txn.op, txn.now, txn.locked[t], results, delay).value
    ensures Enabled(txn.locked[t].row, txn.locked[t].ledger, ev) && (ev.DropResult? <==> txn.op.PurgeOp?)
    ensures ev.Complete? ==> txn.op.SubmitOp? && ev.rid == txn.op.rid && ev.envelope == txn.op.envelope
  {
    DecisionIsEnabled(txn.op, txn.now, txn.locked[t], results, delay);
    ev := Decide(txn.op, txn.now, txn.locked[t], results, delay).value;
  }

  lemma CommittedRowIsReal(w: World, t: TaskId)
    requires Reachable(w) && t in w.db.tasks
    ensures w.db.tasks[t].status != Reassigned
  {
    ReachableLife(w, t);
  }

  /** Changing a transaction in any way but its locked versions keeps lock exclusivity. */
  lemma LocksAfterUpdate(e: Engine, x: TxnId, txn: Txn)
    requires Aligned(e.world) && LocksInv(e) && x in e.txns && txn.locked == e.txns[x].locked
    ensures LocksInv(e.(txns := e.txns[x := txn]))
  {
  }

  lemma LocksAfterLock(e: Engine, x: TxnId, t: TaskId, txn: Txn)
    requires Aligned(e.world) && LocksInv(e) && x in e.txns && t in e.world.db.tasks && t !in e.owner
    requires txn.locked == e.txns[x].locked[t := VersionOf(e.world, t)]
    ensures LocksInv(e.(owner := e.owner[t := x], txns := e.txns[x := txn]))
  {
  }

  lemma LockKeepsWrites(txn: Txn, t: TaskId, v: Version)
    requires WritesInv(txn) && t in txn.scanned && t !in txn.locked
    ensures WritesInv(txn.(locked := txn.locked[t := v]))
  {
    assert t !in txn.writes;
  }

  lemma LockKeepsInv(e: Engine, x: TxnId, t: TaskId)
    requires EngineInv(e) && CanDo(e, Lock(x, t))
    ensures EngineInv(Do(e, Lock(x, t)))
  {
    var txn := e.txns[x];
    LocksAfterLock(e, x, t, txn.(locked := txn.locked[t := VersionOf(e.world, t)]));
    LockKeepsWrites(e.txns[x], t, VersionOf(e.world, t));
  }

  lemma LocksAfterNew(e: Engine, x: TxnId, txn: Txn)
    requires Aligned(e.world) && LocksInv(e) && x !in e.txns && txn.locked == map[]
    ensures LocksInv(e.(txns := e.txns[x := txn]))
  {
  }

  lemma NewTxnIsClean(db: Db, op: Op, now: Time)
    ensures WritesInv(Txn(op, now, Scan(db, op, now), map[], map[]))
  {
  }

  lemma BeginKeepsInv(e: Engine, x: TxnId, op: Op, now: Time)
    requires EngineInv(e) && CanDo(e, Begin(x, op, now))
    ensures EngineInv(Do(e, Begin(x, op, now)))
  {
    NewTxnIsClean(e.world.db, op, now);
    LocksAfterNew(e, x, Txn(op, now, Scan(e.world.db, op, now), map[], map[]));
  }

  lemma SkipKeepsInv(e: Engine, x: TxnId, t: TaskId)
    requires EngineInv(e) && CanDo(e, Skip(x, t))
    ensures EngineInv(Do(e, Skip(x, t)))
  {
    assert WritesInv(e.txns[x]);
    LocksAfterUpdate(e, x, e.txns[x].(scanned := e.txns[x].scanned - {t}));
  }

  lemma AbortKeepsInv(e: Engine, x: TxnId)
    requires EngineInv(e) && CanDo(e, Abort(x))
    ensures EngineInv(Do(e, Abort(x)))
  {
    LocksAfterEnd(e, x, e.world);
  }

  lemma DoKeepsInv(e: Engine, a: Action)
    requires EngineInv(e) && CanDo(e, a)
    ensures EngineInv(Do(e, a))
  {
    match a
    case Begin(x, op, now) => BeginKeepsInv(e, x, op, now);
    case Lock(x, t) => LockKeepsInv(e, x, t);
    case Skip(x, t) => SkipKeepsInv(e, x, t);
    case Write(x, t, delay) => WriteKeepsInv(e, x, t, delay);
    case Commit(x) => CommitKeepsInv(e, x);
    case Abort(x) => AbortKeepsInv(e, x);
    case Enqueue(id, row) => EnqueueKeepsInv(e, id, row);
  }

  // ---------- Refinement ----------

  ghost predicate Executes(e: Engine, actions: seq<Action>, e': Engine)
    requires Aligned(e.world)
    decreases |actions|
  {
    if actions == [] then e == e'
    else CanDo(e, actions[0]) && Aligned(Do(e, actions[0]).world) && Executes(Do(e, actions[0]), actions[1..], e')
  }

  /** The changes an execution commits, in commit order. */
  function Committed(e: Engine, actions: seq<Action>): seq<Change>
    requires Aligned(e.world)
    decreases |actions|
  {
    if actions == [] || !CanDo(e, actions[0]) || !Aligned(Do(e, actions[0]).world) then []
    else
      var rest := Committed(Do(e, actions[0]), actions[1..]);
      match actions[0]
      case Commit(x) => [CommitChange(e.txns[x])] + rest
      case Enqueue(id, row) => [Insert(id, row)] + rest
      case _ => rest
  }

  /** Every interleaving of transactions commits a serial run of atomic, individually permitted changes. */
  lemma {:induction false} InterleavingsAreSerial(e: Engine, actions: seq<Action>, e': Engine)
    requires EngineInv(e) && Executes(e, actions, e')
    ensures EngineInv(e')
    ensures Runs(e.world, Committed(e, actions), e'.world)
    decreases |actions|
  {
    if actions != [] {
      var a := actions[0];
      DoKeepsInv(e, a);
      InterleavingsAreSerial(Do(e, a), actions[1..], e');
      var rest := Committed(Do(e, a), actions[1..]);
      match a {
        case Commit(x) =>
          CommitIsPermitted(e, x);
          RunsAfter(e.world, CommitChange(e.txns[x]), Do(e, a).world, rest, e'.world);
        case Enqueue(id, row) =>
          RunsAfter(e.world, Insert(id, row), Do(e, a).world, rest, e'.world);
        case _ =>
      }
    }
  }

  /** So each row's committed history is a serial run of its own events. */
  lemma RowsAreSerial(e: Engine, actions: seq<Action>, e': Engine, t: TaskId)
    requires EngineInv(e) && Executes(e, actions, e') && t in e.world.db.tasks
    ensures Aligned(e'.world) && t in e'.world.db.tasks
    ensures Leads(LifeOf(e.world, t), Trace(e.world, Committed(e, actions), t), LifeOf(e'.world, t))
  {
    InterleavingsAreSerial(e, actions, e');
    RunsProject(e.world, Committed(e, actions), e'.world, t);
  }

  // ---------- What that rules out ----------

  /**
   However dequeues, reclaims, starts, failures, submissions and cancels interleave on the replicas: between two
   claims of a task lies the reclaim of the first, and each attempt is reclaimed at most once.
   */
  lemma NoDoubleClaimNoDoubleReclaim(actions: seq<Action>, e: Engine, t: TaskId)
    requires Executes(Idle(NOTHING), actions, e)
    ensures Aligned(e.world)
    ensures t in e.world.db.tasks ==>
      var claims, reclaims := e.world.claims[t], OfKind(ReclaimKind, e.world.db.attempts[t]);
      && (forall i :: 0 <= i < |claims| - 1 ==>
        i < |reclaims| && reclaims[i].worker == Some(claims[i].worker) && reclaims[i].number == claims[i].attempt)
      && (forall i, j :: 0 <= i < j < |reclaims| ==> reclaims[i].number < reclaims[j].number)
  {
    assert Runs(NOTHING, [], NOTHING);
    InterleavingsAreSerial(Idle(NOTHING), actions, e);
    if t in e.world.db.tasks {
      ReachableLife(e.world, t);
    }
  }

  /** A cancelled task is claimed by nobody: every claim it ever had was taken back before, and none follows. */
  lemma NeverCancelledAndClaimed(before: seq<Action>, e: Engine, after: seq<Action>, e': Engine, t: TaskId)
    requires Executes(Idle(NOTHING), before, e) && Aligned(e.world) && Executes(e, after, e')
    requires t in e.world.db.tasks && e.world.db.tasks[t].status == Cancelled
    ensures e.world.db.tasks[t].assignee.None? && |e.world.claims[t]| == e.world.db.tasks[t].attempt
    ensures Aligned(e'.world) && t in e'.world.db.tasks
    ensures e'.world.db.tasks[t] == e.world.db.tasks[t] && e'.world.claims[t] == e.world.claims[t]
  {
    assert Runs(NOTHING, [], NOTHING);
    InterleavingsAreSerial(Idle(NOTHING), before, e);
    ReachableLife(e.world, t);
    RowsAreSerial(e, after, e', t);
    TerminalIsFrozen(LifeOf(e.world, t), Trace(e.world, Committed(e, after), t), LifeOf(e'.world, t));
  }

  // ---------- Waiting ----------

  /** `x` needs the lock `y` holds on one of its rows, and its statement waits for locks. */
  predicate Waits(e: Engine, x: TxnId, y: TxnId) {
    && x in e.txns && y in e.txns && x != y && !SkipsLocked(e.txns[x].op)
    && exists t :: t in e.txns[x].scanned && t in e.owner && e.owner[t] == y
  }

  /** A transaction that waits for its single row holds none. */
  lemma WaitersHoldNothing(e: Engine, x: TxnId, y: TxnId)
    requires EngineInv(e) && Waits(e, x, y) && !IsBulk(e.txns[x].op)
    ensures e.txns[x].locked == map[]
  {
    var t :| t in e.txns[x].scanned && t in e.owner && e.owner[t] == y;
    assert WritesInv(e.txns[x]) && t !in e.txns[x].locked;
    assert e.txns[x].locked.Keys == {};
  }

  /** Somebody is waited for only while holding a row. */
  lemma WaitedForHoldsARow(e: Engine, x: TxnId, y: TxnId)
    requires Aligned(e.world) && LocksInv(e) && Waits(e, x, y)
    ensures e.txns[y].locked != map[]
  {
    var t :| t in e.txns[x].scanned && t in e.owner && e.owner[t] == y;
    assert t in e.txns[y].locked;
  }

  /** Each waits for the next, and the last for the first. */
  ghost predicate Deadlock(e: Engine, xs: seq<TxnId>) {
    && |xs| > 0
    && (forall i :: 0 < i < |xs| ==> Waits(e, xs[i - 1], xs[i]))
    && Waits(e, xs[|xs| - 1], xs[0])
  }

  /**
   In any state of any interleaving, every transaction of a deadlock is one of the three bulk statements. So starts,
   failures, submissions, cancels, single renewals, dequeues and reclaims never deadlock, among themselves or with these.
   */
  lemma OnlyBulkStatementsDeadlock(e: Engine, xs: seq<TxnId>, i: nat)
    requires EngineInv(e) && Deadlock(e, xs) && i < |xs|
    ensures xs[i] in e.txns && IsBulk(e.txns[xs[i]].op)
  {
    var before := if i == 0 then xs[|xs| - 1] else xs[i - 1];
    var after := if i + 1 == |xs| then xs[0] else xs[i + 1];
    assert Waits(e, before, xs[i]);
    assert Waits(e, xs[i], after);
    WaitedForHoldsARow(e, before, xs[i]);
    if !IsBulk(e.txns[xs[i]].op) {
      WaitersHoldNothing(e, xs[i], after);
    }
  }

  // ---------- The bulk statements can deadlock ----------

  lemma ThenDoes(e: Engine, actions: seq<Action>, e': Engine, a: Action)
    requires Aligned(e.world) && Executes(e, actions, e') && Aligned(e'.world) && CanDo(e', a) && Aligned(Do(e', a).world)
    ensures Executes(e, actions + [a], Do(e', a))
    decreases |actions|
  {
    ConsAppend(actions, [a]);
    if actions == [] {
      OneDoes(e, a);
    } else {
      ThenDoes(Do(e, actions[0]), actions[1..], e', a);
      ExecutesAfter(e, actions[0], Do(e, actions[0]), actions[1..] + [a], Do(e', a));
    }
  }

  lemma OneDoes(e: Engine, a: Action)
    requires Aligned(e.world) && CanDo(e, a) && Aligned(Do(e, a).world)
    ensures Executes(e, [a], Do(e, a))
  {
    assert [a][1..] == [];
    assert Executes(Do(e, a), [], Do(e, a));
  }

  lemma ExecutesAfter(e: Engine, a: Action, next: Engine, actions: seq<Action>, e': Engine)
    requires Aligned(e.world) && CanDo(e, a) && next == Do(e, a) && Aligned(next.world) && Executes(next, actions, e')
    ensures Executes(e, [a] + actions, e')
  {
    assert ([a] + actions)[1..] == actions;
  }

  /** Any two bulk statements that match the same two rows can each lock one of them, and then wait for each other. */
  lemma BulkStatementsDeadlock(w: World, p: Op, q: Op, t: TaskId, u: TaskId, x: TxnId, y: TxnId, now: Time)
    returns (actions: seq<Action>, e: Engine)
    requires Reachable(w) && IsBulk(p) && IsBulk(q) && t != u && x != y
    requires {t, u} <= Scan(w.db, p, now) && {t, u} <= Scan(w.db, q, now)
    ensures Executes(Idle(w), actions, e) && Aligned(e.world) && Deadlock(e, [x, y])
    ensures CanDo(e, Abort(x)) && CanDo(Do(e, Abort(x)), Lock(y, t))
  {
    actions, e := BothBegun(w, p, q, x, y, now);
    ScannedAreTasks(w.db, p, now, t);
    ScannedAreTasks(w.db, p, now, u);
    actions, e := LockCrosswise(Idle(w), actions, e, x, y, t, u);
    WaitingCrosswise(e, x, y, t, u);
  }

  lemma ScannedAreTasks(db: Db, op: Op, now: Time, t: TaskId)
    requires IsBulk(op) && t in Scan(db, op, now)
    ensures t in db.tasks
  {
  }

  /**
   A worker reconnects to one replica while another observes its old socket close: the hello renewal and the disconnect
   shortening lock two of its rows in opposite orders, and each waits for the other.
   */
  lemma RenewalAndShorteningDeadlock(w: World, worker: WorkerId, t: TaskId, u: TaskId, x: TxnId, y: TxnId, now: Time)
    returns (actions: seq<Action>, e: Engine)
    requires Reachable(w) && t in HeldLive(w.db.tasks, worker) && u in HeldLive(w.db.tasks, worker) && t != u && x != y
    ensures Executes(Idle(w), actions, e) && Aligned(e.world) && Deadlock(e, [x, y])
    ensures CanDo(e, Abort(x)) && CanDo(Do(e, Abort(x)), Lock(y, t))
  {
    actions, e := BulkStatementsDeadlock(w, RenewAllOp(worker, 60.0), ShortenAllOp(worker, 30.0), t, u, x, y, now);
  }

  /** Two replicas sweep at once: their purges, over two bodies past retention, likewise. */
  lemma PurgesDeadlock(w: World, cutoff: Time, t: TaskId, u: TaskId, x: TxnId, y: TxnId, now: Time)
    returns (actions: seq<Action>, e: Engine)
    requires Reachable(w) && t in w.db.tasks && u in w.db.tasks && t != u && x != y
    requires PastRetention(w.db.tasks[t], w.db.results, cutoff) && PastRetention(w.db.tasks[u], w.db.results, cutoff)
    ensures Executes(Idle(w), actions, e) && Aligned(e.world) && Deadlock(e, [x, y])
    ensures CanDo(e, Abort(x)) && CanDo(Do(e, Abort(x)), Lock(y, t))
  {
    actions, e := BulkStatementsDeadlock(w, PurgeOp(cutoff), PurgeOp(cutoff), t, u, x, y, now);
  }

  /** Two bulk transactions begun on the same two rows each lock one of them. */
  lemma LockCrosswise(start: Engine, actions: seq<Action>, begun: Engine, x: TxnId, y: TxnId, t: TaskId, u: TaskId)
    returns (more: seq<Action>, e: Engine)
    requires Aligned(start.world) && Executes(start, actions, begun)
    requires Aligned(begun.world) && begun.owner == map[] && t in begun.world.db.tasks && u in begun.world.db.tasks && t != u
    requires x != y && x in begun.txns && y in begun.txns && IsBulk(begun.txns[x].op) && IsBulk(begun.txns[y].op)
    requires begun.txns[x].locked == begun.txns[y].locked == map[]
    requires {t, u} <= begun.txns[x].scanned && {t, u} <= begun.txns[y].scanned
    ensures Executes(start, more, e) && e.world == begun.world && e.owner == map[t := x, u := y] && x in e.txns && y in e.txns
    ensures e.txns[x].op == begun.txns[x].op && e.txns[y].op == begun.txns[y].op
    ensures e.txns[x].scanned == begun.txns[x].scanned && e.txns[y].scanned == begun.txns[y].scanned
    ensures e.txns[y].locked.Keys == {u}
  {
    var half := Do(begun, Lock(x, t));
    ThenDoes(start, actions, begun, Lock(x, t));
    e := Do(half, Lock(y, u));
    ThenDoes(start, actions + [Lock(x, t)], half, Lock(y, u));
    more := actions + [Lock(x, t)] + [Lock(y, u)];
  }

  lemma WaitingCrosswise(e: Engine, x: TxnId, y: TxnId, t: TaskId, u: TaskId)
    requires Aligned(e.world) && e.owner == map[t := x, u := y] && x != y && t != u && x in e.txns && y in e.txns
    requires IsBulk(e.txns[x].op) && IsBulk(e.txns[y].op) && t in e.world.db.tasks
    requires {t, u} <= e.txns[x].scanned && {t, u} <= e.txns[y].scanned && e.txns[y].locked.Keys == {u}
    ensures Deadlock(e, [x, y]) && CanDo(e, Abort(x)) && CanDo(Do(e, Abort(x)), Lock(y, t))
  {
    assert Waits(e, x, y) by { assert u in e.txns[x].scanned; }
    assert Waits(e, y, x) by { assert t in e.txns[y].scanned; }
  }

  lemma BothBegun(w: World, p: Op, q: Op, x: TxnId, y: TxnId, now: Time) returns (actions: seq<Action>, e: Engine)
    requires Aligned(w) && x != y
    ensures Executes(Idle(w), actions, e)
    ensures e == Engine(w, map[], map[x := Txn(p, now, Scan(w.db, p, now), map[], map[]),
                                      y := Txn(q, now, Scan(w.db, q, now), map[], map[])])
  {
    OneDoes(Idle(w), Begin(x, p, now));
    actions, e := [Begin(x, p, now)], Do(Idle(w), Begin(x, p, now));
    ThenDoes(Idle(w), actions, e, Begin(y, q, now));
    actions, e := actions + [Begin(y, q, now)], Do(e, Begin(y, q, now));
  }

  /** A world in which a worker holds two rows is reachable. */
  lemma TwoHeldRows(worker: WorkerId, t: TaskId, u: TaskId) returns (w: World)
    requires t != u
    ensures Reachable(w) && t in HeldLive(w.db.tasks, worker) && u in HeldLive(w.db.tasks, worker)
  {
    var row, claim := NewTask("sleep", 0, 0.0), Claim(worker, 1.0, 30.0, 300.0, 60.0);
    w := TwoQueued(row, t, u);
    StaysReachable(w, Touch(map[t := claim, u := claim]));
    LifeAdvances(w, Touch(map[t := claim, u := claim]), t);
    LifeAdvances(w, Touch(map[t := claim, u := claim]), u);
    var w' := Advance(w, Touch(map[t := claim, u := claim]));
    assert LifeOf(w', t).row == RowAfter(row, claim) && LifeOf(w', u).row == RowAfter(row, claim);
    w := w';
  }

  lemma TwoQueued(row: Task, t: TaskId, u: TaskId) returns (w: World)
    requires t != u && row == NewTask(row.taskType, row.priority, row.createdAt)
    ensures Reachable(w) && t in w.db.tasks && u in w.db.tasks && w.db.tasks[t] == row && w.db.tasks[u] == row
  {
    assert Runs(NOTHING, [], NOTHING);
    var one := Advance(NOTHING, Insert(t, row));
    StaysReachable(NOTHING, Insert(t, row));
    TablesAfter(NOTHING, Insert(t, row));
    w := Advance(one, Insert(u, row));
    StaysReachable(one, Insert(u, row));
    TablesAfter(one, Insert(u, row));
    LifeAdvances(one, Insert(u, row), t);
    assert LifeOf(w, t) == LifeOf(one, t);
  }
}
