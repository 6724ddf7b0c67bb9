/** One worker socket held by a coordinator replica: the message handlers, over the credits and the queue. */
module Session {
  import opened Basics
  import opened TaskStates
  import opened Records
  import opened Policies
  import opened RowMachine
  import opened Answers
  import opened Queue
  import opened Credits
  import opened Renewal
  import opened QueueEngine

  /** The lease write a message causes: none unless the session is entitled, due, and the row is still its worker's. */
  function RenewalOf(q: TaskQueue, worker: WorkerId, task: TaskId, s: Settings, now: Time): Option<Change>
    reads q
  {
    if task in HeldLive(q.tasks, worker) then Some(Touch(map[task := Renew(worker, now, s.leaseTtl)])) else None
  }

  class LocalSession {
    const worker: WorkerId
    const maxConcurrent: nat
    const types: set<string>
    var residual: nat
    var credited: seq<TaskId>
    var pendingAcks: set<TaskId>
    var saturated: bool
    var renewDue: map<TaskId, Time>
    var recovered: set<TaskId>

    function View(): Credit
      reads this
    {
      Credit(maxConcurrent, residual, credited, pendingAcks, saturated)
    }

    /** The dictionary keys are distinct, and credits never exceed what the worker declared. */
    ghost predicate Valid()
      reads this
    {
      Distinct(credited) && InFlight(View()) <= maxConcurrent
    }

    /** A session opens with the worker's declared residue, clamped, and nothing keyed. */
    constructor (worker: WorkerId, maxConcurrent: nat, types: set<string>, declared: Option<int>)
      ensures Valid() && this.worker == worker && this.types == types
      ensures View() == Opened(maxConcurrent, ParseInFlight(declared, maxConcurrent))
      ensures renewDue == map[] && recovered == {}
    {
      this.worker, this.maxConcurrent, this.types := worker, maxConcurrent, types;
      residual, credited, pendingAcks := ParseInFlight(declared, maxConcurrent), [], {};
      saturated, renewDue, recovered := false, map[], {};
    }

    /** The reconnect path: renew what the database says this worker holds, and become entitled to it. */
    method RecoverLeases(q: TaskQueue, s: Settings, now: Time)
      requires Valid() && q.Valid()
      modifies q, this`recovered
      ensures Valid() && q.Valid()
      ensures recovered == old(recovered) + HeldLive(old(q.tasks), worker)
      ensures q.world == Advance(old(q.world), Touch(map t | t in HeldLive(old(q.tasks), worker) :: Renew(worker, now, s.leaseTtl)))
    {
      var renewed := q.RenewWorkerLeases(worker, s, now);
      recovered := recovered + renewed;
    }

    /** Give credit back. A named task is exactly-once; an unnamed release takes residue first, then the oldest keys. */
    method ReleaseCredit(task: Option<TaskId>, freed: int) returns (released: bool)
      requires Valid()
      modifies this`residual, this`credited
      ensures Valid()
      ensures View() == Released(old(View()), task, freed)
      ensures released <==> InFlight(View()) < InFlight(old(View()))
    {
      if task.Some? {
        if task.value in credited {
          WithoutRemoves(credited, task.value);
          credited := Without(credited, task.value);
          return true;
        }
        if residual > 0 {
          residual := residual - 1;
          return true;
        }
        return false;
      }
      var count := Min(Max(1, freed), residual);
      residual := residual - count;
      ghost var keys, fromResidue := credited, count;
      while count < freed && |credited| > 0
        invariant residual == old(residual) - fromResidue
        invariant fromResidue <= count && (count == fromResidue || count <= freed)
        invariant count - fromResidue <= |keys| && credited == keys[count - fromResidue..]
        decreases |credited|
      {
        credited := credited[1..];
        count := count + 1;
      }
      DropIsDistinct(keys, count - fromResidue);
      released := count > 0;
    }

    method MarkRenewed(task: TaskId, clock: Time, interval: real)
      modifies this`renewDue
      ensures renewDue == old(renewDue)[task := clock + interval]
    {
      renewDue := renewDue[task := clock + interval];
    }

    /** When this task's lease is next worth writing, as far as this session knows. */
    function DueAt(task: TaskId): Option<Time>
      reads this
    {
      if task in renewDue then Some(renewDue[task]) else None
    }

    /** One task as this session sees it: its row, and when its lease is next worth writing. */
    function Watching(q: TaskQueue, task: TaskId): Watch
      requires task in q.tasks
      reads this, q
    {
      Watch(q.tasks[task], DueAt(task))
    }

    /** A message about `task` at `clock` leads to a database call: entitled, due, and the round trip works. */
    predicate Renews(task: TaskId, clock: Time, reachable: bool)
      reads this
    {
      (task in credited || task in recovered) && LeaseDue(DueAt(task), clock) && reachable
    }

    /**
     Renew one task's lease if this session is entitled to it and it is due. A lost database round trip (`reachable`
     false) is swallowed and leaves the task due; a refused one still counts as renewed here.
     */
    method RenewIfDue(q: TaskQueue, task: TaskId, s: Settings, interval: real, now: Time, clock: Time, reachable: bool)
      requires Valid() && q.Valid()
      modifies q, this`renewDue
      ensures Valid() && q.Valid()
      ensures q.world ==
        if old(Renews(task, clock, reachable)) then Advanced(old(q.world), old(RenewalOf(q, worker, task, s, now)))
        else old(q.world)
      ensures renewDue ==
        if old(Renews(task, clock, reachable)) then old(renewDue)[task := clock + interval] else old(renewDue)
      ensures task in HeldLive(old(q.tasks), worker) && (task in credited || task in recovered) && reachable && clock == now ==>
        task in q.tasks && Watching(q, task) == OnMessage(old(Watching(q, task)), worker, now, s.leaseTtl, interval)
    {
      if task !in credited && task !in recovered {
        return;
      }
      if !LeaseDue(DueAt(task), clock) {
        return;
      }
      if !reachable {
        return;
      }
      var renewed := q.RenewLease(task, worker, s, now);
      MarkRenewed(task, clock, interval);
    }

    /** `task_ack`, accepted: the delivery lease becomes a full one. An unknown ack does nothing. */
    method HandleAccepted(q: TaskQueue, task: TaskId, s: Settings, interval: real, now: Time, clock: Time, reachable: bool)
      requires Valid() && q.Valid()
      modifies q, this
      ensures Valid() && q.Valid()
      ensures View() == Handle(old(View()), AckAccepted(task))
      ensures recovered == old(recovered)
      ensures renewDue ==
        if task in old(pendingAcks) && old(Renews(task, clock, reachable)) then old(renewDue)[task := clock + interval]
        else old(renewDue)
      ensures q.world ==
        if task in old(pendingAcks) && old(Renews(task, clock, reachable))
        then Advanced(old(q.world), old(RenewalOf(q, worker, task, s, now))) else old(q.world)
    {
      if task !in pendingAcks {
        assert pendingAcks - {task} == pendingAcks;
        return;
      }
      pendingAcks := pendingAcks - {task};
      RenewIfDue(q, task, s, interval, now, clock, reachable);
    }

    /** `task_ack`, refused: lack of capacity closes the session, any other cause frees the task's credit. */
    method HandleRefused(task: TaskId, atCapacity: bool)
      requires Valid()
      modifies this
      ensures Valid()
      ensures View() == Handle(old(View()), if atCapacity then AckAtCapacity(task) else AckRefused(task))
      ensures renewDue == old(renewDue) && recovered == old(recovered)
    {
      if task !in pendingAcks {
        return;
      }
      pendingAcks := pendingAcks - {task};
      if atCapacity {
        saturated := true;
      } else {
        var _ := ReleaseCredit(Some(task), 1);
      }
    }

    /** Forget what this session tracked about a task it is done with. */
    method Forget(task: TaskId)
      modifies this`renewDue, this`recovered
      ensures renewDue == old(renewDue) - {task} && recovered == old(recovered) - {task}
    {
      renewDue := renewDue - {task};
      recovered := recovered - {task};
    }

    /** `capacity`: the worker freed slots. A count below one is ignored. */
    method HandleCapacity(task: Option<TaskId>, freed: int)
      requires Valid()
      modifies this
      ensures Valid()
      ensures View() == Handle(old(View()), CapacityReport(task, freed))
      ensures var done := if task.Some? && freed >= 1 then {task.value} else {};
        renewDue == old(renewDue) - done && recovered == old(recovered) - done
    {
      if freed >= 1 {
        var _ := ReleaseCredit(task, freed);
        ghost var left := View();
        if task.Some? {
          renewDue := renewDue - {task.value};
          recovered := recovered - {task.value};
        }
        saturated := false;
        assert View() == left.(saturated := false);
      }
    }

    /** `task_started`: ASSIGNED to RUNNING; the lease was just written, so the due-clock restarts. */
    method HandleStarted(q: TaskQueue, task: TaskId, s: Settings, interval: real, now: Time, clock: Time) returns (answer: Answer)
      requires Valid() && q.Valid()
      modifies q, this`renewDue
      ensures Valid() && q.Valid()
      ensures answer == MarkAnswer(Lookup(old(q.tasks), task), worker, Running)
      ensures answer == Transitioned ==>
        && task in old(q.tasks)
        && q.world == Advance(old(q.world), Touch(map[task := StartOf(s, old(q.tasks)[task], worker, now)]))
        && renewDue == old(renewDue)[task := clock + interval]
      ensures answer != Transitioned ==> q.world == old(q.world) && renewDue == old(renewDue)
    {
      answer := q.StartTask(task, worker, s, now);
      if answer == Transitioned {
        MarkRenewed(task, clock, interval);
      }
    }

    /** The credit side of a failure report: release unless the task was never this session's. */
    method SettleFailure(task: TaskId, answer: Answer)
      requires Valid()
      modifies this
      ensures Valid()
      ensures View() == Handle(old(View()), FailureReport(task, answer))
      ensures renewDue == old(renewDue) - {task} && recovered == old(recovered) - {task}
    {
      if answer !in {NotOwner, NotFound} || task in credited {
        var _ := ReleaseCredit(Some(task), 1);
      }
      Forget(task);
      saturated := false;
    }

    /** `task_failed`: the terminal write, then the credit unless the task was never this session's. */
    method HandleFailed(q: TaskQueue, task: TaskId, errorType: string, s: Settings, now: Time) returns (answer: Answer)
      requires Valid() && q.Valid()
      modifies q, this
      ensures Valid() && q.Valid()
      ensures answer == MarkAnswer(Lookup(old(q.tasks), task), worker, Failed)
      ensures View() == Handle(old(View()), FailureReport(task, answer))
      ensures q.world == if answer == Transitioned
        then Advance(old(q.world), Touch(map[task := Fail(worker, now, errorType)])) else old(q.world)
      ensures renewDue == old(renewDue) - {task} && recovered == old(recovered) - {task}
    {
      answer := q.FailTask(task, worker, errorType, s, now);
      SettleFailure(task, answer);
    }

    /** The credit side of a well-formed result: release and reopen unless the answer and the key say it was never here. */
    method SettleResult(task: TaskId, answer: Answer)
      requires Valid()
      modifies this
      ensures Valid()
      ensures View() == Handle(old(View()), ResultReport(task, answer))
      ensures var done := if answer !in {NotOwner, NotFound, Fenced} || task in old(credited) then {task} else {};
        renewDue == old(renewDue) - done && recovered == old(recovered) - done
    {
      if answer !in {NotOwner, NotFound, Fenced} || task in credited {
        var _ := ReleaseCredit(Some(task), 1);
        Forget(task);
        saturated := false;
      }
    }

    /** `task_result`, well formed: complete or refuse in one transaction, then release the credit. */
    method HandleResult(q: TaskQueue, envelope: Envelope, now: Time, rid: ResultId) returns (answer: Answer)
      requires Valid() && q.Valid() && rid !in q.results
      modifies q, this
      ensures Valid() && q.Valid()
      ensures answer == CompleteAnswer(Lookup(old(q.tasks), envelope.task), LedgerOf(old(q.attempts), envelope.task),
                                       old(q.results), worker, envelope)
      ensures q.world == Advanced(old(q.world), SubmissionChange(old(q.Tables()), worker, envelope, now, rid))
      ensures View() == Handle(old(View()), ResultReport(envelope.task, answer))
      ensures var done := if answer !in {NotOwner, NotFound, Fenced} || envelope.task in old(credited) then {envelope.task} else {};
        renewDue == old(renewDue) - done && recovered == old(recovered) - done
    {
      answer := q.CompleteTask(worker, envelope, now, rid);
      SettleResult(envelope.task, answer);
    }

    /** The credit side of a malformed result: free only a credit it names, and reopen. */
    method SettleMalformed(task: Option<TaskId>)
      requires Valid()
      modifies this
      ensures Valid()
      ensures View() == Handle(old(View()), MalformedResult(task))
      ensures var done := if task.Some? then {task.value} else {};
        renewDue == old(renewDue) - done && recovered == old(recovered) - done
    {
      if task.Some? {
        if task.value in credited {
          var _ := ReleaseCredit(task, 1);
        }
        Forget(task.value);
      }
      saturated := false;
    }

    /** `task_result`, malformed: renew once more while the task is still held, then free only a credit it names. */
    method HandleMalformed(q: TaskQueue, task: Option<TaskId>, s: Settings, interval: real, now: Time, clock: Time, reachable: bool)
      requires Valid() && q.Valid()
      modifies q, this
      ensures Valid() && q.Valid()
      ensures View() == Handle(old(View()), MalformedResult(task))
      ensures var done := if task.Some? then {task.value} else {};
        renewDue == old(renewDue) - done && recovered == old(recovered) - done
      ensures q.world ==
        if task.Some? && old(Renews(task.value, clock, reachable))
        then Advanced(old(q.world), old(RenewalOf(q, worker, task.value, s, now))) else old(q.world)
    {
      if task.Some? {
        RenewIfDue(q, task.value, s, interval, now, clock, reachable);
      }
      SettleMalformed(task);
    }

    /** The credit side of any message, given what the queue answered. */
    method Settle(m: Message)
      requires Valid()
      modifies this
      ensures Valid() && View() == Handle(old(View()), m)
    {
      match m
      case AckAccepted(task) => pendingAcks := pendingAcks - {task};
      case AckAtCapacity(task) => HandleRefused(task, true);
      case AckRefused(task) => HandleRefused(task, false);
      case CapacityReport(task, freed) => HandleCapacity(task, freed);
      case FailureReport(task, answer) => SettleFailure(task, answer);
      case ResultReport(task, answer) => SettleResult(task, answer);
      case MalformedResult(task) => SettleMalformed(task);
    }

    /** Record one delivery attempt of a claimed task: a dead socket consumes nothing. */
    method Deliver(task: TaskId, sent: bool)
      requires Distinct(credited)
      requires sent && task !in credited ==> InFlight(View()) < maxConcurrent
      requires InFlight(View()) <= maxConcurrent
      modifies this`pendingAcks, this`credited
      ensures Valid()
      ensures View() == if sent then Delivered(old(View()), task) else old(View())
    {
      if sent {
        pendingAcks := pendingAcks + {task};
        if task !in credited {
          credited := credited + [task];
        }
      }
    }
  }
}
