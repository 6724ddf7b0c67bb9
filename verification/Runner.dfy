/** The worker's runtime: execution slots, the result buffer, and the event the submission loop parks on. */
module Runner {
  import opened Basics
  import opened Records
  import opened Outbox
  import opened Wakeups

  /** One task executing now. Attempt, epoch and token are captured at admission. */
  datatype RunningTask = RunningTask(attempt: nat, epoch: nat, token: string)

  datatype Admission = RefusedType | AlreadyRunning | RefusedCapacity | Started

  class TaskRunner {
    const maxConcurrent: nat
    const cap: nat
    const types: set<string>
    var running: map<TaskId, RunningTask>
    var slots: nat
    var order: seq<TaskId>
    var pending: map<TaskId, Envelope>
    var sentAt: map<TaskId, Time>
    var event: bool
    var attached: bool
    var epoch: nat
    ghost var books: Books

    function Buffer(): Box
      reads this
    {
      Box(order, pending)
    }

    /** What the submission loop shares with everything else here. */
    function Shared(): Desk
      reads this
    {
      Desk(Buffer(), sentAt, event, attached)
    }

    /** At every await point: a slot per running task, and a bounded and balanced buffer. */
    ghost predicate Valid()
      reads this
    {
      && slots + |running| == maxConcurrent
      && cap >= 1 && BoxInv(Buffer(), cap)
      && Balanced(books, Buffer())
    }

    constructor (maxConcurrent: nat, cap: nat, types: set<string>)
      requires cap >= 1
      ensures Valid() && running == map[] && slots == maxConcurrent && Shared() == CLEAR_DESK
      ensures this.maxConcurrent == maxConcurrent && this.cap == cap && this.types == types
    {
      this.maxConcurrent, this.cap, this.types := maxConcurrent, cap, types;
      running, slots, order, pending, sentAt := map[], maxConcurrent, [], map[], map[];
      event, attached, epoch := false, false, 0;
      books := Books(0, 0, 0, 0);
    }

    /** Evict from the front until there is room for one more; a full buffer loses exactly its oldest entry. */
    method Evict()
      requires cap >= 1 && BoxInv(Buffer(), cap)
      modifies this`order, this`pending, this`sentAt
      ensures Buffer() == MakeRoom(old(Buffer()), cap) && sentAt == StampsAfterRoom(old(Shared()), cap)
    {
      ghost var start := Buffer();
      MakeRoomInv(start, cap);
      BoxSize(start, cap);
      while |pending| >= cap
        invariant BoxInv(Buffer(), cap) && |pending| == |order|
        invariant (Buffer() == start && sentAt == old(sentAt))
          || (Buffer() == MakeRoom(start, cap) && sentAt == StampsAfterRoom(old(Shared()), cap) && |order| < cap)
        decreases |order|
      {
        var dropped := order[0];
        order := order[1..];
        pending := pending - {dropped};
        sentAt := sentAt - {dropped};
        BoxSize(Buffer(), cap);
      }
    }

    /** Queue one result for submission, evicting the oldest at the cap, and wake the loop. */
    method RecordResult(task: TaskId, envelope: Envelope)
      requires Valid()
      modifies this`order, this`pending, this`sentAt, this`event, this`books
      ensures Valid()
      ensures Shared() == AfterRecord(old(Shared()), cap, task, envelope)
      ensures books == BooksAfter(old(books), old(Buffer()), cap, Record(task, envelope))
    {
      EventBalances(books, Buffer(), cap, Record(task, envelope));
      books := BooksAfter(books, Buffer(), cap, Record(task, envelope));
      Evict();
      if task !in pending {
        order := order + [task];
      }
      pending := pending[task := envelope];
      event := true;
    }

    /** Drop a pending result the coordinator has answered for, accepted or not. */
    method ResultAcknowledged(task: TaskId) returns (existed: bool)
      requires Valid()
      modifies this`order, this`pending, this`sentAt, this`event, this`books
      ensures Valid()
      ensures existed <==> task in old(pending)
      ensures Shared() == AfterAnswer(old(Shared()), task)
    {
      existed := task in pending;
      EventBalances(books, Buffer(), cap, Acknowledge(task));
      books := BooksAfter(books, Buffer(), cap, Acknowledge(task));
      order := Without(order, task);
      pending := pending - {task};
      sentAt := sentAt - {task};
      if pending == map[] {
        event := false;
      }
    }

    /** Was this result sent recently enough to still expect an answer? */
    predicate AwaitingAck(task: TaskId, clock: Time, grace: real)
      reads this
    {
      task in sentAt && clock - sentAt[task] < grace
    }

    /** Point reports at the session that is live now; anything sent on the old socket is void. */
    method Attach(newEpoch: nat)
      requires Valid()
      modifies this`attached, this`epoch, this`sentAt, this`event
      ensures Valid() && epoch == newEpoch && Shared() == AfterAttach(old(Shared()))
    {
      attached, epoch, sentAt := true, newEpoch, map[];
      if pending != map[] {
        event := true;
      }
    }

    method Detach()
      requires Valid()
      modifies this`attached
      ensures Valid() && Shared() == old(Shared()).(attached := false)
    {
      attached := false;
    }

    /** Admission control for one assignment, guard by guard. The token is minted here, once per execution. */
    method Admit(task: TaskId, taskType: string, attempt: nat, token: string) returns (a: Admission)
      requires Valid()
      modifies this`running, this`slots
      ensures Valid()
      ensures a == RefusedType <==> taskType !in types
      ensures a == AlreadyRunning <==> taskType in types && task in old(running)
      ensures a == RefusedCapacity <==> taskType in types && task !in old(running) && |old(running)| == maxConcurrent
      ensures a == Started ==> running == old(running)[task := RunningTask(attempt, epoch, token)]
      ensures a != Started ==> running == old(running)
    {
      if taskType !in types {
        return RefusedType;
      }
      if task in running {
        return AlreadyRunning;
      }
      if slots == 0 {
        return RefusedCapacity;
      }
      slots := slots - 1;
      running := running[task := RunningTask(attempt, epoch, token)];
      return Started;
    }

    /** An execution that ends with a result buffers it under the attempt and token it was admitted with. */
    method Succeed(task: TaskId, size: nat)
      requires Valid() && task in running
      modifies this`order, this`pending, this`sentAt, this`event, this`books
      ensures Valid()
      ensures Shared() == AfterRecord(old(Shared()), cap, task,
                                      Envelope(task, Some(running[task].attempt), Some(running[task].token), size))
    {
      RecordResult(task, Envelope(task, Some(running[task].attempt), Some(running[task].token), size));
    }

    /** The `finally` of every execution, whatever its outcome: the slot goes back with the entry. */
    method Finish(task: TaskId)
      requires Valid() && task in running
      modifies this`running, this`slots
      ensures Valid() && running == old(running) - {task} && slots == old(slots) + 1
    {
      assert running.Keys == (running - {task}).Keys + {task};
      running := running - {task};
      slots := slots + 1;
    }

    /** Put one pending result on the wire; only a successful send stamps it. */
    method SubmitResult(task: TaskId, clock: Time, sendOk: bool) returns (sent: bool)
      requires Valid()
      modifies this`sentAt
      ensures Valid()
      ensures sent <==> Sends(old(Shared()), task, sendOk)
      ensures Shared() == AfterSend(old(Shared()), task, clock, sendOk)
    {
      sent := task in pending && attached && sendOk;
      if sent {
        sentAt := sentAt[task := clock];
      }
    }

    /** Top of the submission loop: the event is cleared before the work, so anything recorded during the pass sets it again. */
    method ClearEvent()
      requires Valid()
      modifies this`event
      ensures Valid() && Shared() == old(Shared()).(event := false)
    {
      event := false;
    }

    /** One key of the pass: skip it while its answer is still expected, else send it, else stop. */
    method SubmitNext(task: TaskId, clock: Time, grace: real, sendOk: bool) returns (turn: Turn)
      requires Valid()
      modifies this`sentAt
      ensures Valid()
      ensures turn == TurnOf(old(Shared()), task, clock, grace, sendOk)
      ensures Shared() == AfterTurn(old(Shared()), task, clock, grace, sendOk)
    {
      if AwaitingAck(task, clock, grace) {
        return StillWaiting;
      }
      var sent := SubmitResult(task, clock, sendOk);
      return if sent then Delivered else Stopped;
    }

    /**
     The sends of one pass with nothing in between, oldest first: skip what still awaits an answer, stop at the first send
     that fails.
     */
    method SubmitPending(clock: Time, grace: real, sendOk: TaskId -> bool) returns (delivered: nat, waiting: nat)
      requires Valid()
      modifies this`sentAt
      ensures Valid()
      ensures delivered + waiting <= |order|
      ensures attached && (forall t :: t in pending ==> sendOk(t)) ==>
        && delivered + waiting == |order|
        && forall t :: t in pending ==> t in sentAt && (sentAt[t] == clock || old(AwaitingAck(t, clock, grace)))
      ensures !attached ==> delivered == 0 && sentAt == old(sentAt)
    {
      delivered, waiting := 0, 0;
      var i := 0;
      while i < |order|
        invariant 0 <= i <= |order| && delivered + waiting == i
        invariant !attached ==> delivered == 0 && sentAt == old(sentAt)
        invariant forall k :: i <= k < |order| ==>
          (order[k] in sentAt <==> order[k] in old(sentAt))
          && (order[k] in sentAt ==> sentAt[order[k]] == old(sentAt)[order[k]])
        invariant forall k :: 0 <= k < i ==>
          order[k] in sentAt && (sentAt[order[k]] == clock || old(AwaitingAck(order[k], clock, grace)))
      {
        assert order[i] in ToSet(order);
        var turn := SubmitNext(order[i], clock, grace, sendOk(order[i]));
        match turn {
          case StillWaiting => waiting := waiting + 1;
          case Delivered => delivered := delivered + 1;
          case Stopped => return;
        }
        i := i + 1;
      }
      forall t | t in pending ensures exists k :: 0 <= k < |order| && order[k] == t {
        assert t in ToSet(order);
      }
    }

    /**
     The end of a pass: how many consecutive failures it leaves, and how long to park. `idle` says that nothing was pending
     when the pass began. Waiting for an answer is not a
     failure, but the loop must come back once the grace period is over, and never stays away longer than the larger
     of the retry ceiling and the grace period.
     */
    method PlanPark(idle: bool, failures: nat, delivered: nat, waiting: nat, base: real, factor: real, maximum: real, grace: real,
                    draw: real)
      returns (next: nat, delay: real)
      requires base >= 0.0 && factor >= 0.0 && maximum >= 0.0 && 0.0 <= draw < 1.0
      ensures next == if idle || delivered > 0 || waiting > 0 then 0 else failures + 1
      ensures 0.0 <= delay && (delay <= maximum || delay <= grace)
      ensures !idle && waiting > 0 && delivered == 0 ==> delay >= grace
    {
      if idle {
        return 0, maximum;
      }
      next := if delivered > 0 || waiting > 0 then 0 else failures + 1;
      FullJitterBounds(next, base, factor, maximum, draw);
      delay := FullJitter(next, base, factor, maximum, draw);
      if waiting > 0 && delivered == 0 && delay < grace {
        delay := grace;
      }
    }
  }
}
