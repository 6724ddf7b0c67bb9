/** The two drain loops of a replica, run alone at a fixed clock. */
module Passes {
  import opened Basics
  import opened TaskStates
  import opened Records
  import opened Policies
  import opened RowMachine
  import opened Credits
  import opened QueueEngine
  import opened Session

  function QueuedTasks(tasks: map<TaskId, Task>): set<TaskId> {
    set t | t in tasks && tasks[t].status == Queued
  }

  // ---------- Reclaiming ----------

  /** A reclaimed row is no longer expired at the same clock; every other row is as it was. */
  lemma ReclaimedAreGone(before: map<TaskId, Task>, after: map<TaskId, Task>, taken: seq<TaskId>,
                         evs: map<TaskId, RowEvent>, now: Time)
    requires forall t :: t in taken <==> t in evs
    requires forall t :: t in evs ==> t in before && evs[t].Reclaim?
    requires after == map t | t in before :: if t in evs then RowAfter(before[t], evs[t]) else before[t]
    ensures Reclaimable(after, now, {}) == Reclaimable(before, now, {}) - ToSet(taken)
  {
    forall t | t in before ensures t in Reclaimable(after, now, {}) <==> t in Reclaimable(before, now, {}) && t !in taken {
    }
  }

  lemma RemainderCount(all: set<TaskId>, taken: seq<TaskId>)
    requires Distinct(taken) && ToSet(taken) <= all
    ensures |all - ToSet(taken)| == |all| - |taken|
  {
    DistinctCount(taken);
    assert all == (all - ToSet(taken)) + ToSet(taken);
  }

  /** One reclaim pass: as many expired rows as fit the batch leave the expired set, and nothing joins it. */
  method ReclaimOnce(q: TaskQueue, batch: int, s: Settings, now: Time, draws: map<TaskId, real>) returns (reclaimed: nat)
    requires q.Valid() && batch >= 1 && Sane(s)
    requires forall t :: t in q.tasks ==> t in draws && 0.0 <= draws[t] < 1.0
    modifies q
    ensures q.Valid() && q.tasks.Keys == old(q.tasks).Keys
    ensures reclaimed == Min(batch, |Reclaimable(old(q.tasks), now, {})|)
    ensures Reclaimable(q.tasks, now, {}) <= Reclaimable(old(q.tasks), now, {})
    ensures |Reclaimable(q.tasks, now, {})| == |Reclaimable(old(q.tasks), now, {})| - reclaimed
  {
    ghost var before := q.tasks;
    var r := q.ReclaimExpiredLeases(batch, s, now, draws, {});
    ReclaimedAreGone(before, q.tasks, r.value, ReclaimEvents(before, r.value, s, now, draws), now);
    RemainderCount(Reclaimable(before, now, {}), r.value);
    reclaimed := |r.value|;
  }

  /**
   Repeat full batches until one comes back short. The loop ends, every expired lease was taken back exactly once,
   and no live row whose lease is past remains.
   */
  method DrainReclaims(q: TaskQueue, batch: int, s: Settings, now: Time, draws: map<TaskId, real>) returns (reclaimed: nat)
    requires q.Valid() && batch >= 1 && Sane(s)
    requires forall t :: t in q.tasks ==> t in draws && 0.0 <= draws[t] < 1.0
    modifies q
    ensures q.Valid()
    ensures Reclaimable(q.tasks, now, {}) == {}
    ensures reclaimed == |Reclaimable(old(q.tasks), now, {})|
    ensures q.tasks.Keys == old(q.tasks).Keys
  {
    var last := ReclaimOnce(q, batch, s, now, draws);
    reclaimed := last;
    while last >= batch
      invariant q.Valid() && q.tasks.Keys == old(q.tasks).Keys
      invariant reclaimed + |Reclaimable(q.tasks, now, {})| == |Reclaimable(old(q.tasks), now, {})|
      invariant last < batch ==> Reclaimable(q.tasks, now, {}) == {}
      decreases |Reclaimable(q.tasks, now, {})|, last
    {
      last := ReclaimOnce(q, batch, s, now, draws);
      reclaimed := reclaimed + last;
    }
  }

  // ---------- Assigning ----------

  /** Each task held now and not in `held` is ASSIGNED to the worker, with a lease. */
  ghost predicate DurableIn(tasks: map<TaskId, Task>, worker: WorkerId, credited: seq<TaskId>, held: seq<TaskId>) {
    forall t :: t in credited && t !in held ==>
      t in tasks && tasks[t].status == Assigned && tasks[t].lease.Some? && Holds(tasks[t], worker)
  }

  /** What a replica has handed out is durable: each task a session newly holds is ASSIGNED to it with a lease. */
  ghost predicate DurablyAssigned(q: TaskQueue, session: LocalSession, held: seq<TaskId>)
    reads q, session
  {
    DurableIn(q.tasks, session.worker, session.credited, held)
  }

  /** Claiming queued rows leaves every earlier delivery as durable as it was. */
  lemma StaysDurable(before: map<TaskId, Task>, after: map<TaskId, Task>, worker: WorkerId, credited: seq<TaskId>, held: seq<TaskId>)
    requires DurableIn(before, worker, credited, held)
    requires forall t :: t in before && before[t].status != Queued ==> t in after && after[t] == before[t]
    ensures DurableIn(after, worker, credited, held)
  {
  }

  /** A claimed batch leaves the queue shorter by exactly its length. */
  lemma ClaimedLeaveQueue(before: map<TaskId, Task>, after: map<TaskId, Task>, taken: seq<TaskId>, s: Settings,
                          worker: WorkerId, now: Time)
    requires Distinct(taken)
    requires forall t :: t in taken ==> t in before && before[t].status == Queued
    requires after == map t | t in before ::
      if t in taken then RowAfter(before[t], ClaimOf(s, before[t], worker, now)) else before[t]
    ensures |QueuedTasks(after)| == |QueuedTasks(before)| - |taken|
    ensures forall t :: t in taken ==>
      after[t].status == Assigned && after[t].lease.Some? && Holds(after[t], worker)
  {
    assert QueuedTasks(after) == QueuedTasks(before) - ToSet(taken);
    RemainderCount(QueuedTasks(before), taken);
  }

  /** Send one session's claimed batch. Rows are committed before the first byte goes out. */
  method DeliverBatch(q: TaskQueue, session: LocalSession, claimed: seq<TaskId>, sends: (WorkerId, TaskId) -> bool)
    returns (delivered: nat)
    requires session.Valid() && InFlight(session.View()) + |claimed| <= session.maxConcurrent
    requires forall t :: t in claimed ==>
      t in q.tasks && q.tasks[t].status == Assigned && q.tasks[t].lease.Some? && Holds(q.tasks[t], session.worker)
    modifies session`pendingAcks, session`credited
    ensures session.Valid() && delivered <= |claimed|
    ensures forall t :: t in session.credited ==> t in old(session.credited) || t in claimed
    ensures DurablyAssigned(q, session, old(session.credited))
    ensures InFlight(session.View()) <= InFlight(old(session.View())) + delivered
  {
    delivered := 0;
    var i := 0;
    while i < |claimed|
      invariant 0 <= i <= |claimed| && delivered <= i
      invariant session.Valid() && InFlight(session.View()) <= InFlight(old(session.View())) + delivered
      invariant forall t :: t in session.credited ==> t in old(session.credited) || t in claimed
    {
      var sent := sends(session.worker, claimed[i]);
      session.Deliver(claimed[i], sent);
      if sent {
        delivered := delivered + 1;
      }
      i := i + 1;
    }
  }

  /**
   Claim for one session within its free credit, commit, then send. A session that was chosen while it had credit and has
   none left makes the claim fail: the queue rejects a limit of zero.
   */
  method AssignTo(q: TaskQueue, session: LocalSession, maxBatch: int, s: Settings, now: Time, sends: (WorkerId, TaskId) -> bool)
    returns (r: Result<nat, LimitError>)
    requires q.Valid() && session.Valid() && maxBatch >= 1 && session.types != {}
    modifies q, session`pendingAcks, session`credited
    ensures q.Valid() && session.Valid()
    ensures r.Err? <==> FreeCredits(old(session.View())) == 0
    ensures r.Err? ==> q.world == old(q.world) && session.credited == old(session.credited)
    ensures |QueuedTasks(q.tasks)| + Count(r) <= |QueuedTasks(old(q.tasks))|
    ensures DurablyAssigned(q, session, old(session.credited))
    ensures forall t :: t in old(q.tasks) && old(q.tasks)[t].status != Queued ==> t in q.tasks && q.tasks[t] == old(q.tasks)[t]
  {
    var limit := Min(FreeCredits(session.View()), maxBatch);
    ghost var before := q.tasks;
    var claimed := q.Dequeue(session.worker, limit, maxBatch, Some(session.types), s, now, {});
    if claimed.Err? {
      return Err(claimed.error);
    }
    assert forall t :: t in claimed.value ==> t in ToSet(claimed.value);
    ClaimedLeaveQueue(before, q.tasks, claimed.value, s, session.worker, now);
    var delivered := DeliverBatch(q, session, claimed.value, sends);
    r := Ok(delivered);
  }

  /** Deliveries a pass reports; one that failed reports none. */
  function Count(r: Result<nat, LimitError>): nat {
    if r.Ok? then r.value else 0
  }

  ghost predicate SessionsValid(sessions: seq<LocalSession>)
    reads sessions
  {
    forall i :: 0 <= i < |sessions| ==> sessions[i].Valid()
  }

  /** Chosen at the top of the pass: some credit free, some type declared. */
  predicate Chosen(session: LocalSession)
    reads session
  {
    FreeCredits(session.View()) > 0 && session.types != {}
  }

  /** The messages a session handles before its turn in a pass: their effect on its credits, in order. */
  method TakeArrivals(session: LocalSession, arrivals: seq<Message>)
    requires session.Valid()
    modifies session
    ensures session.Valid() && session.View() == HandleAll(old(session.View()), arrivals)
  {
    var i := 0;
    while i < |arrivals|
      invariant 0 <= i <= |arrivals|
      invariant session.Valid() && session.View() == HandleAll(old(session.View()), arrivals[..i])
    {
      session.Settle(arrivals[i]);
      ArrivalsSoFar(old(session.View()), arrivals, i);
      i := i + 1;
    }
    assert arrivals[..i] == arrivals;
  }

  lemma ArrivalsSoFar(c: Credit, arrivals: seq<Message>, i: nat)
    requires i < |arrivals|
    ensures HandleAll(c, arrivals[..i + 1]) == Handle(HandleAll(c, arrivals[..i]), arrivals[i])
  {
    assert arrivals[..i + 1][..i] == arrivals[..i];
  }

  /** No message keys a task. */
  lemma {:induction false} ArrivalsKeepNoNewKeys(c: Credit, arrivals: seq<Message>)
    requires Distinct(c.credited)
    ensures forall t :: t in HandleAll(c, arrivals).credited ==> t in c.credited
  {
    if arrivals != [] {
      var before := HandleAll(c, arrivals[..|arrivals| - 1]);
      ArrivalsKeepNoNewKeys(c, arrivals[..|arrivals| - 1]);
      ArrivalsOnlyRelease(c, arrivals[..|arrivals| - 1]);
      HandleKeysNothing(before, arrivals[|arrivals| - 1]);
    }
  }

  lemma HandleKeysNothing(c: Credit, m: Message)
    requires Distinct(c.credited)
    ensures forall t :: t in Handle(c, m).credited ==> t in c.credited
  {
    match m
    case AckRefused(t) => WithoutRemoves(c.credited, t);
    case CapacityReport(named, _) => if named.Some? { WithoutRemoves(c.credited, named.value); }
    case FailureReport(t, _) => WithoutRemoves(c.credited, t);
    case ResultReport(t, _) => WithoutRemoves(c.credited, t);
    case MalformedResult(named) => if named.Some? { WithoutRemoves(c.credited, named.value); }
    case _ =>
  }

  /** One session's turn: the messages that arrive first, then, if it was chosen, its claim. */
  method TakeTurn(q: TaskQueue, session: LocalSession, chosen: bool, arrivals: seq<Message>, maxBatch: int,
                  s: Settings, now: Time, sends: (WorkerId, TaskId) -> bool)
    returns (r: Result<nat, LimitError>)
    requires q.Valid() && session.Valid() && maxBatch >= 1 && chosen == Chosen(session)
    modifies q, session
    ensures q.Valid() && session.Valid()
    ensures |QueuedTasks(q.tasks)| + Count(r) <= |QueuedTasks(old(q.tasks))|
    ensures DurablyAssigned(q, session, old(session.credited))
    ensures r.Err? <==> chosen && LeftClosed(old(session.View()), arrivals)
    ensures forall t :: t in old(q.tasks) && old(q.tasks)[t].status != Queued ==> t in q.tasks && q.tasks[t] == old(q.tasks)[t]
  {
    TakeArrivals(session, arrivals);
    ArrivalsKeepNoNewKeys(old(session.View()), arrivals);
    if !chosen {
      return Ok(0);
    }
    NoCreditLeft(old(session.View()), arrivals);
    r := AssignTo(q, session, maxBatch, s, now, sends);
  }

  /** The first `i` sessions have had their turn, and what they were given is durable; the others are as at the top. */
  ghost predicate TurnsTaken(q: TaskQueue, sessions: seq<LocalSession>, views: seq<Credit>, i: nat)
    reads q, sessions
  {
    && i <= |sessions| == |views|
    && (forall j :: 0 <= j < i ==> DurablyAssigned(q, sessions[j], views[j].credited))
    && forall j :: i <= j < |sessions| ==> sessions[j].View() == views[j]
  }

  /** The `i`-th session's turn leaves every other session alone and every earlier delivery durable. */
  method AssignAt(q: TaskQueue, sessions: seq<LocalSession>, i: nat, chosen: bool, arrivals: seq<Message>, maxBatch: int,
                  s: Settings, now: Time, sends: (WorkerId, TaskId) -> bool, ghost views: seq<Credit>)
    returns (r: Result<nat, LimitError>)
    requires q.Valid() && SessionsValid(sessions) && Distinct(sessions) && maxBatch >= 1
    requires i < |sessions| && chosen == Chosen(sessions[i]) && TurnsTaken(q, sessions, views, i)
    modifies q, sessions[i]
    ensures q.Valid() && SessionsValid(sessions)
    ensures |QueuedTasks(q.tasks)| + Count(r) <= |QueuedTasks(old(q.tasks))|
    ensures TurnsTaken(q, sessions, views, i + 1)
    ensures r.Err? <==> chosen && LeftClosed(views[i], arrivals)
  {
    ghost var before := q.tasks;
    r := TakeTurn(q, sessions[i], chosen, arrivals, maxBatch, s, now, sends);
    forall j | 0 <= j < i ensures DurablyAssigned(q, sessions[j], views[j].credited) {
      StaysDurable(before, q.tasks, sessions[j].worker, sessions[j].credited, views[j].credited);
    }
  }

  /** A chosen session is left closed by the messages that arrive before its turn. */
  ghost predicate TurnFails(chosen: seq<bool>, arrivals: seq<seq<Message>>, views: seq<Credit>, i: nat)
    requires |chosen| == |arrivals| == |views|
  {
    i < |views| && chosen[i] && LeftClosed(views[i], arrivals[i])
  }

  /** The turns of all sessions, in order, up to the first that fails. */
  method TakeTurns(q: TaskQueue, sessions: seq<LocalSession>, chosen: seq<bool>, arrivals: seq<seq<Message>>, maxBatch: int,
                   s: Settings, now: Time, sends: (WorkerId, TaskId) -> bool, ghost views: seq<Credit>)
    returns (r: Result<nat, LimitError>)
    requires q.Valid() && SessionsValid(sessions) && Distinct(sessions) && maxBatch >= 1
    requires |chosen| == |arrivals| == |views| == |sessions|
    requires forall i :: 0 <= i < |sessions| ==> chosen[i] == Chosen(sessions[i]) && sessions[i].View() == views[i]
    modifies q, sessions
    ensures q.Valid() && SessionsValid(sessions)
    ensures |QueuedTasks(q.tasks)| + Count(r) <= |QueuedTasks(old(q.tasks))|
    ensures forall i :: 0 <= i < |sessions| ==> DurablyAssigned(q, sessions[i], views[i].credited)
    ensures r.Err? <==> exists i :: TurnFails(chosen, arrivals, views, i)
  {
    var delivered, i := 0, 0;
    while i < |sessions|
      invariant 0 <= i <= |sessions|
      invariant q.Valid() && SessionsValid(sessions) && TurnsTaken(q, sessions, views, i)
      invariant |QueuedTasks(q.tasks)| + delivered <= |QueuedTasks(old(q.tasks))|
      invariant forall j :: 0 <= j < i ==> !TurnFails(chosen, arrivals, views, j)
    {
      assert chosen[i] == Chosen(sessions[i]);
      var n := AssignAt(q, sessions, i, chosen[i], arrivals[i], maxBatch, s, now, sends, views);
      if n.Err? {
        assert TurnFails(chosen, arrivals, views, i);
        return n;
      }
      delivered := delivered + n.value;
      i := i + 1;
    }
    r := Ok(delivered);
  }

  /**
   One assignment pass over this replica's sockets. A draining replica claims nothing. `arrivals` are the messages each session
   handles while the pass awaits, before its own turn, with what the queue answered them. The pass fails exactly when, for a
   session chosen at its top, one of them closes it and none after that reopens it; what was handed out by then stays durably
   assigned.
   */
  method AssignOnce(q: TaskQueue, sessions: seq<LocalSession>, arrivals: seq<seq<Message>>, draining: bool, maxBatch: int,
                    s: Settings, now: Time, sends: (WorkerId, TaskId) -> bool)
    returns (r: Result<nat, LimitError>)
    requires q.Valid() && SessionsValid(sessions) && Distinct(sessions) && maxBatch >= 1 && |arrivals| == |sessions|
    modifies q, sessions
    ensures q.Valid() && SessionsValid(sessions)
    ensures |QueuedTasks(q.tasks)| + Count(r) <= |QueuedTasks(old(q.tasks))|
    ensures draining ==> q.world == old(q.world) && r == Ok(0)
    ensures forall i :: 0 <= i < |sessions| ==> DurablyAssigned(q, sessions[i], old(sessions[i].credited))
    ensures r.Err? <==> (!draining && QueuedTasks(old(q.tasks)) != {} &&
      exists i :: 0 <= i < |sessions| && old(Chosen(sessions[i])) && LeftClosed(old(sessions[i].View()), arrivals[i]))
  {
    if draining || QueuedTasks(q.tasks) == {} {
      return Ok(0);
    }
    var chosen := seq(|sessions|, i requires 0 <= i < |sessions| reads sessions => Chosen(sessions[i]));
    ghost var views := seq(|sessions|, i requires 0 <= i < |sessions| reads sessions => sessions[i].View());
    r := TakeTurns(q, sessions, chosen, arrivals, maxBatch, s, now, sends, views);
    assert forall i :: 0 <= i < |sessions| ==>
      (TurnFails(chosen, arrivals, views, i) <==> old(Chosen(sessions[i])) && LeftClosed(old(sessions[i].View()), arrivals[i]));
  }

  /** No message in a pass refuses for lack of capacity. */
  ghost predicate NoRefusals(arrivals: seq<seq<Message>>) {
    forall i, k :: 0 <= i < |arrivals| && 0 <= k < |arrivals[i]| ==> !arrivals[i][k].AckAtCapacity?
  }

  /**
   Repeat passes while they deliver. Queued rows strictly fall, so the loop ends; a pass that fails ends it too. `arrivals`
   says what arrives during each pass.
   */
  method DrainAssignments(q: TaskQueue, sessions: seq<LocalSession>, arrivals: nat -> seq<seq<Message>>, maxBatch: int,
                          s: Settings, now: Time, sends: (WorkerId, TaskId) -> bool)
    returns (delivered: nat, failed: bool)
    requires q.Valid() && SessionsValid(sessions) && Distinct(sessions) && maxBatch >= 1
    requires forall pass :: |arrivals(pass)| == |sessions|
    modifies q, sessions
    ensures q.Valid() && SessionsValid(sessions)
    ensures |QueuedTasks(q.tasks)| + delivered <= |QueuedTasks(old(q.tasks))|
    ensures (forall pass :: NoRefusals(arrivals(pass))) ==> !failed
  {
    delivered := 0;
    var pass := 0;
    var last := AssignOnce(q, sessions, arrivals(pass), false, maxBatch, s, now, sends);
    delivered := Count(last);
    while last.Ok? && last.value > 0
      invariant q.Valid() && SessionsValid(sessions)
      invariant |QueuedTasks(q.tasks)| + delivered <= |QueuedTasks(old(q.tasks))|
      invariant (forall pass :: NoRefusals(arrivals(pass))) ==> last.Ok?
      decreases |QueuedTasks(q.tasks)|, Count(last)
    {
      pass := pass + 1;
      last := AssignOnce(q, sessions, arrivals(pass), false, maxBatch, s, now, sends);
      delivered := delivered + Count(last);
    }
    failed := last.Err?;
  }

  // ---------- A pass that fails, and one that nearly does ----------

  /** A worker with room for two tasks and one delivery it has not answered. */
  method HalfBusy(worker: WorkerId, t: TaskId) returns (session: LocalSession)
    ensures fresh(session) && session.Valid() && session.types == {"sleep"} && session.worker == worker
    ensures session.View() == Delivered(Opened(2, 0), t)
  {
    session := new LocalSession(worker, 2, {"sleep"}, None);
    session.Deliver(t, true);
  }

  method OneWaiting(u: TaskId) returns (q: TaskQueue)
    ensures fresh(q) && q.Valid() && QueuedTasks(q.tasks) != {}
  {
    q := new TaskQueue();
    q.Enqueue(u, "sleep", 0, 0.0);
    assert u in QueuedTasks(q.tasks);
  }

  lemma RefusalLeavesClosed(t: TaskId)
    ensures LeftClosed(Delivered(Opened(2, 0), t), [AckAtCapacity(t)])
    ensures !LeftClosed(Delivered(Opened(2, 0), t), [AckAtCapacity(t), CapacityReport(None, 1)])
  {
    var c := Delivered(Opened(2, 0), t);
    var refused, freed := [AckAtCapacity(t)], [AckAtCapacity(t), CapacityReport(None, 1)];
    assert refused[..0] == [] && freed[..1] == refused;
    assert HandleAll(c, []) == c && HandleAll(c, refused) == Handle(c, refused[0]);
    ClosedAfterArrivals(c, refused);
    ClosedAfterArrivals(c, freed);
  }

  /**
   One queued task and one session chosen with credit left: the refusal of its earlier delivery, arriving while the pass
   awaits, makes the pass fail. With a capacity report behind the refusal it does not.
   */
  method RefusalFailsAPass(worker: WorkerId, t: TaskId, u: TaskId, s: Settings, freed: bool) returns (r: Result<nat, LimitError>)
    ensures r.Err? <==> !freed
  {
    var q := OneWaiting(u);
    var session := HalfBusy(worker, t);
    var sessions, arrivals := [session], [if freed then [AckAtCapacity(t), CapacityReport(None, 1)] else [AckAtCapacity(t)]];
    RefusalLeavesClosed(t);
    assert Chosen(sessions[0]);
    r := AssignOnce(q, sessions, arrivals, false, 10, s, 1.0, (w, id) => true);
  }
}
