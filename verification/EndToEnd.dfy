/**
 Worker and coordinator together, with honest workers over a lossy network.

 A delivery is sent at most once per claim and may be lost; a worker admits a delivery unless it is already running the
 task; every result it ever computes may be submitted any number of times, in any order, at any later moment, from before
 its slot is given back. An execution that raises reports its failure, possibly late; one that is cancelled gives its slot
 back without finishing. Starts and failures reach the coordinator only as reports of executions.
 */
module EndToEnd {
  import opened Basics
  import opened TaskStates
  import opened Records
  import opened RowMachine
  import opened Life
  import opened Answers
  import opened Fencing
  import opened Queue
  import opened Winner

  /** A delivery: this worker is to run this attempt of this task. */
  datatype Assignment = Assignment(worker: WorkerId, task: TaskId, attempt: nat)

  /** One admitted execution and the token minted for it. */
  datatype Execution = Execution(assignment: Assignment, token: string)

  datatype System = System(
    world: World,
    unsent: set<Assignment>,
    inFlight: set<Assignment>,
    executions: set<Execution>,
    running: set<Execution>,
    finished: set<Execution>,
    raised: set<Execution>)

  /** What an execution submits: the attempt and token captured when it was admitted. */
  function Submission(e: Execution, size: nat): Envelope {
    Envelope(e.assignment.task, Some(e.assignment.attempt), Some(e.token), size)
  }

  datatype Action =
    | Coordinate(c: Change)
    | Send(a: Assignment)
    | Lose(a: Assignment)
    | Admit(a: Assignment, token: string)
    | Ignore(a: Assignment)
    | Finish(e: Execution)
    | Raise(e: Execution)
    | Release(e: Execution)
    | ReportStart(e: Execution, now: Time, ttl: real, cap: real)
    | ReportFailure(e: Execution, now: Time, errorType: string)
    | Submit(e: Execution, size: nat, now: Time, rid: ResultId)

  /** The deliveries a change gives rise to: one per row it claims, naming the attempt the claim returned. */
  function Deliveries(w: World, c: Change): set<Assignment>
    requires Aligned(w)
  {
    if c.Touch? then
      set t | t in c.evs && c.evs[t].Claim? && t in w.db.tasks :: Assignment(c.evs[t].worker, t, w.db.tasks[t].attempt)
    else {}
  }

  /** Moves the coordinator makes on its own: everything but taking in a result, a start or a failure. */
  predicate OwnMove(c: Change) {
    !c.Store? && (c.Touch? ==> forall t :: t in c.evs ==> !c.evs[t].Start? && !c.evs[t].Fail?)
  }

  function StartChange(e: Execution, now: Time, ttl: real, cap: real): Change {
    Touch(map[e.assignment.task := Start(e.assignment.worker, now, ttl, cap)])
  }

  function FailureChange(e: Execution, now: Time, errorType: string): Change {
    Touch(map[e.assignment.task := Fail(e.assignment.worker, now, errorType)])
  }

  /** A worker ignores a delivery of a task it is running. */
  predicate Busy(s: System, d: Assignment) {
    exists e :: e in s.running && e.assignment.worker == d.worker && e.assignment.task == d.task
  }

  predicate CanAct(s: System, a: Action)
    requires Aligned(s.world)
  {
    match a
    case Coordinate(c) => Permits(s.world.db, c) && OwnMove(c)
    case Send(d) => d in s.unsent
    case Lose(d) => d in s.unsent || d in s.inFlight
    case Admit(d, token) =>
      && d in s.inFlight
      && !Busy(s, d)
      && (forall e :: e in s.executions ==> e.token != token)
    case Ignore(d) => d in s.inFlight && Busy(s, d)
    case Finish(e) => e in s.running && e !in s.raised
    case Raise(e) => e in s.running && e !in s.finished
    case Release(e) => e in s.running
    case ReportStart(e, now, ttl, cap) => e in s.executions && Permits(s.world.db, StartChange(e, now, ttl, cap))
    case ReportFailure(e, now, errorType) => e in s.raised && Permits(s.world.db, FailureChange(e, now, errorType))
    case Submit(e, size, now, rid) =>
      && e in s.finished
      && Permits(s.world.db, Store(e.assignment.task, Complete(e.assignment.worker, now, Submission(e, size), rid)))
  }

  function Act(s: System, a: Action): System
    requires Aligned(s.world) && CanAct(s, a)
  {
    match a
    case Coordinate(c) => s.(world := Advance(s.world, c), unsent := s.unsent + Deliveries(s.world, c))
    case Send(d) => s.(unsent := s.unsent - {d}, inFlight := s.inFlight + {d})
    case Lose(d) => s.(unsent := s.unsent - {d}, inFlight := s.inFlight - {d})
    case Admit(d, token) =>
      s.(inFlight := s.inFlight - {d}, running := s.running + {Execution(d, token)},
         executions := s.executions + {Execution(d, token)})
    case Ignore(d) => s.(inFlight := s.inFlight - {d})
    case Finish(e) => s.(finished := s.finished + {e})
    case Raise(e) => s.(raised := s.raised + {e})
    case Release(e) => s.(running := s.running - {e})
    case ReportStart(e, now, ttl, cap) => s.(world := Advance(s.world, StartChange(e, now, ttl, cap)))
    case ReportFailure(e, now, errorType) => s.(world := Advance(s.world, FailureChange(e, now, errorType)))
    case Submit(e, size, now, rid) =>
      s.(world := Advance(s.world, Store(e.assignment.task, Complete(e.assignment.worker, now, Submission(e, size), rid))))
  }

  // ---------- The invariant ----------

  /** This assignment is the claim of its attempt: the coordinator did hand this attempt to this worker. */
  predicate IsClaim(w: World, a: Assignment) {
    a.task in w.claims && a.attempt < |w.claims[a.task]| && w.claims[a.task][a.attempt].worker == a.worker
  }

  predicate OfOneAttempt(a: Assignment, b: Assignment) {
    a.task == b.task && a.attempt == b.attempt
  }

  /** Every assignment anywhere in the system is a real claim, and is in at most one place. */
  ghost predicate AssignmentsInv(s: System) {
    && (forall a :: a in s.unsent ==> IsClaim(s.world, a) && a !in s.inFlight)
    && (forall a :: a in s.inFlight ==> IsClaim(s.world, a))
    && (forall e :: e in s.executions ==>
      IsClaim(s.world, e.assignment) && e.assignment !in s.unsent && e.assignment !in s.inFlight)
  }

  /** Executions are unique per assignment and per token, and only they run or finish. */
  ghost predicate ExecutionsInv(s: System) {
    && (forall e, f :: e in s.executions && f in s.executions && (e.assignment == f.assignment || e.token == f.token) ==> e == f)
    && s.running <= s.executions && s.finished <= s.executions && s.raised <= s.executions
  }

  /** Every accepted submission is that of a finished execution by the worker that submitted it. */
  ghost predicate AcceptancesInv(s: System) {
    forall t, i :: t in s.world.accepted && 0 <= i < |s.world.accepted[t]| ==>
      ByExecution(s, t, s.world.accepted[t][i])
  }

  ghost predicate ByExecution(s: System, t: TaskId, acc: Acceptance) {
    exists e :: e in s.finished && e.assignment.task == t && e.assignment.worker == acc.worker
      && acc.envelope == Submission(e, acc.envelope.size)
  }

  /** Every task failed by a report was reported by an execution that raised, under a worker it was still held by. */
  ghost predicate FailuresInv(s: System)
    requires Aligned(s.world)
  {
    forall t :: t in s.world.db.tasks && ReportedFailed(s.world.db.tasks[t]) ==> ByRaised(s, t)
  }

  predicate ReportedFailed(row: Task) {
    row.status == Failed && row.assignee.Some?
  }

  ghost predicate ByRaised(s: System, t: TaskId)
    requires t in s.world.db.tasks
  {
    exists e :: e in s.raised && e.assignment.task == t && s.world.db.tasks[t].assignee == Some(e.assignment.worker)
  }

  ghost predicate SystemInv(s: System) {
    && Reachable(s.world)
    && AssignmentsInv(s)
    && ExecutionsInv(s)
    && AcceptancesInv(s)
    && FailuresInv(s)
  }

  const SILENT := System(NOTHING, {}, {}, {}, {}, {}, {})

  /** Assignments of one attempt are one assignment: the claim fixes the worker. */
  lemma ClaimFixesWorker(w: World, a: Assignment, b: Assignment)
    requires IsClaim(w, a) && IsClaim(w, b) && OfOneAttempt(a, b)
    ensures a == b
  {
  }

  /** A change extends each task's claims, and extends its accepted submissions only by storing. */
  lemma HistoryGrows(w: World, c: Change, t: TaskId)
    requires Aligned(w) && Permits(w.db, c) && t in w.claims
    ensures t in Advance(w, c).claims && w.claims[t] <= Advance(w, c).claims[t]
    ensures !c.Store? || c.id != t ==> Advance(w, c).accepted[t] == w.accepted[t]
    ensures c.Store? && c.id == t ==>
      Advance(w, c).accepted[t] == w.accepted[t] + [Acceptance(c.ev.worker, c.ev.envelope, c.ev.now)]
    ensures c.Touch? && t in c.evs && c.evs[t].Claim? ==>
      Advance(w, c).claims[t] == w.claims[t] + [ClaimRecord(c.evs[t].worker, w.db.tasks[t].attempt, c.evs[t].now)]
  {
    LifeAdvances(w, c, t);
    assert LifeOf(Advance(w, c), t) == Lived(LifeOf(w, t), EventFor(w.db, c, t));
  }

  lemma StaysClaimed(w: World, c: Change, a: Assignment)
    requires Aligned(w) && Permits(w.db, c) && IsClaim(w, a)
    ensures IsClaim(Advance(w, c), a)
  {
    HistoryGrows(w, c, a.task);
  }

  /** A claim's delivery is new: its attempt was never claimed before, so no assignment for it exists anywhere. */
  lemma DeliveryIsNew(w: World, c: Change, a: Assignment)
    requires Reachable(w) && Permits(w.db, c) && a in Deliveries(w, c)
    ensures IsClaim(Advance(w, c), a) && !IsClaim(w, a)
  {
    ReachableLife(w, a.task);
    HistoryGrows(w, c, a.task);
    assert LifeOf(w, a.task).claims == w.claims[a.task];
    assert w.db.tasks[a.task].status == Queued;
    assert |w.claims[a.task]| == w.db.tasks[a.task].attempt;
  }

  lemma AcceptancesUnchanged(w: World, c: Change)
    requires Aligned(w) && Permits(w.db, c) && !c.Store?
    ensures forall t :: t in Advance(w, c).accepted ==>
      Advance(w, c).accepted[t] == if t in w.accepted then w.accepted[t] else []
  {
    forall t | t in Advance(w, c).accepted
      ensures Advance(w, c).accepted[t] == if t in w.accepted then w.accepted[t] else []
    {
      if t in w.claims {
        HistoryGrows(w, c, t);
      } else {
        TablesAfter(w, c);
      }
    }
  }

  /** Only a failure report leaves a task failed with a holder. */
  lemma FailedRowBefore(l: Life, ev: Option<RowEvent>)
    requires ev.Some? ==> !ev.value.Fail?
    requires ReportedFailed(Lived(l, ev).row)
    ensures ReportedFailed(l.row) && Lived(l, ev).row.assignee == l.row.assignee
  {
  }

  lemma FailedBefore(w: World, c: Change, t: TaskId)
    requires Aligned(w) && Permits(w.db, c) && t in Advance(w, c).db.tasks && ReportedFailed(Advance(w, c).db.tasks[t])
    requires c.Touch? && t in c.evs ==> !c.evs[t].Fail?
    ensures t in w.db.tasks && ReportedFailed(w.db.tasks[t])
    ensures Advance(w, c).db.tasks[t].assignee == w.db.tasks[t].assignee
  {
    TablesAfter(w, c);
    if t in w.db.tasks {
      LifeAdvances(w, c, t);
      FailedRowBefore(LifeOf(w, t), EventFor(w.db, c, t));
    }
  }

  lemma FailuresStay(s: System, c: Change, s': System)
    requires SystemInv(s) && Permits(s.world.db, c) && s'.world == Advance(s.world, c) && s'.raised == s.raised
    requires c.Touch? ==> forall t :: t in c.evs ==> !c.evs[t].Fail?
    ensures FailuresInv(s')
  {
    forall t | t in s'.world.db.tasks && ReportedFailed(s'.world.db.tasks[t]) ensures ByRaised(s', t) {
      FailedBefore(s.world, c, t);
      assert ByRaised(s, t);
    }
  }

  lemma FailureIsRaised(s: System, e: Execution, now: Time, errorType: string)
    requires SystemInv(s) && CanAct(s, ReportFailure(e, now, errorType))
    ensures FailuresInv(Act(s, ReportFailure(e, now, errorType)))
  {
    var c, s' := FailureChange(e, now, errorType), Act(s, ReportFailure(e, now, errorType));
    forall t | t in s'.world.db.tasks && ReportedFailed(s'.world.db.tasks[t]) ensures ByRaised(s', t) {
      if t == e.assignment.task {
        LifeAdvances(s.world, c, t);
        assert LifeOf(s'.world, t) == Next(LifeOf(s.world, t), Fail(e.assignment.worker, now, errorType));
        assert s'.world.db.tasks[t].assignee == Some(e.assignment.worker);
      } else {
        FailedBefore(s.world, c, t);
        assert ByRaised(s, t);
      }
    }
  }

  /** A report writes one row: it delivers nothing, and neither claims nor completes. */
  lemma ReportKeepsRest(s: System, c: Change, s': System)
    requires SystemInv(s) && Permits(s.world.db, c) && c.Touch? && s' == s.(world := Advance(s.world, c))
    ensures Reachable(s'.world) && AssignmentsInv(s') && ExecutionsInv(s') && AcceptancesInv(s')
  {
    StaysReachable(s.world, c);
    ClaimsStay(s.world, c);
    AssignmentsFrame(s, s');
    AcceptancesUnchanged(s.world, c);
    AcceptancesFrame(s, s');
  }

  lemma ClaimsStay(w: World, c: Change)
    requires Aligned(w) && Permits(w.db, c)
    ensures forall a :: IsClaim(w, a) ==> IsClaim(Advance(w, c), a)
  {
    forall a | IsClaim(w, a) ensures IsClaim(Advance(w, c), a) {
      StaysClaimed(w, c, a);
    }
  }

  lemma AssignmentsFrame(s: System, s': System)
    requires AssignmentsInv(s) && forall a :: IsClaim(s.world, a) ==> IsClaim(s'.world, a)
    requires s'.unsent == s.unsent && s'.inFlight == s.inFlight && s'.executions == s.executions
    ensures AssignmentsInv(s')
  {
  }

  lemma AcceptancesFrame(s: System, s': System)
    requires AcceptancesInv(s) && s.finished <= s'.finished
    requires forall t :: t in s'.world.accepted ==>
      s'.world.accepted[t] == if t in s.world.accepted then s.world.accepted[t] else []
    ensures AcceptancesInv(s')
  {
    forall t, i | t in s'.world.accepted && 0 <= i < |s'.world.accepted[t]|
      ensures ByExecution(s', t, s'.world.accepted[t][i])
    {
      assert ByExecution(s, t, s.world.accepted[t][i]);
    }
  }

  lemma ReportKeepsInv(s: System, a: Action)
    requires SystemInv(s) && CanAct(s, a) && (a.ReportStart? || a.ReportFailure?)
    ensures SystemInv(Act(s, a))
  {
    match a
    case ReportStart(e, now, ttl, cap) =>
      ReportKeepsRest(s, StartChange(e, now, ttl, cap), Act(s, a));
      FailuresStay(s, StartChange(e, now, ttl, cap), Act(s, a));
    case ReportFailure(e, now, errorType) =>
      ReportKeepsRest(s, FailureChange(e, now, errorType), Act(s, a));
      FailureIsRaised(s, e, now, errorType);
  }

  lemma CoordinateKeepsAssignments(s: System, c: Change, s': System)
    requires SystemInv(s) && CanAct(s, Coordinate(c)) && s' == Act(s, Coordinate(c))
    ensures AssignmentsInv(s')
  {
    ClaimsStay(s.world, c);
    forall a | a in Deliveries(s.world, c) ensures IsClaim(s'.world, a) && !IsClaim(s.world, a) {
      DeliveryIsNew(s.world, c, a);
    }
  }

  lemma CoordinateKeepsInv(s: System, c: Change)
    requires SystemInv(s) && CanAct(s, Coordinate(c))
    ensures SystemInv(Act(s, Coordinate(c)))
  {
    var s' := Act(s, Coordinate(c));
    StaysReachable(s.world, c);
    CoordinateKeepsAssignments(s, c, s');
    FailuresStay(s, c, s');
    AcceptancesUnchanged(s.world, c);
    AcceptancesFrame(s, s');
  }

  lemma SubmitKeepsInv(s: System, e: Execution, size: nat, now: Time, rid: ResultId)
    requires SystemInv(s) && CanAct(s, Submit(e, size, now, rid))
    ensures SystemInv(Act(s, Submit(e, size, now, rid)))
  {
    var c := Store(e.assignment.task, Complete(e.assignment.worker, now, Submission(e, size), rid));
    var s' := Act(s, Submit(e, size, now, rid));
    StaysReachable(s.world, c);
    FailuresStay(s, c, s');
    ClaimsStay(s.world, c);
    AssignmentsFrame(s, s');
    forall t, i | t in s'.world.accepted && 0 <= i < |s'.world.accepted[t]|
      ensures ByExecution(s', t, s'.world.accepted[t][i])
    {
      HistoryGrows(s.world, c, t);
      if i < |s.world.accepted[t]| {
        assert ByExecution(s, t, s.world.accepted[t][i]);
      } else {
        assert s'.world.accepted[t][i].envelope == Submission(e, size);
      }
    }
  }

  lemma WorkerKeepsInv(s: System, a: Action)
    requires SystemInv(s) && CanAct(s, a) && !a.Coordinate? && !a.Submit? && !a.ReportStart? && !a.ReportFailure?
    ensures SystemInv(Act(s, a))
  {
    var s' := Act(s, a);
    forall t | t in s'.world.db.tasks && ReportedFailed(s'.world.db.tasks[t]) ensures ByRaised(s', t) {
      assert ByRaised(s, t);
    }
    AcceptancesFrame(s, s');
  }

  lemma ActKeepsInv(s: System, a: Action)
    requires SystemInv(s) && CanAct(s, a)
    ensures SystemInv(Act(s, a))
  {
    match a
    case Coordinate(c) => CoordinateKeepsInv(s, c);
    case Submit(e, size, now, rid) => SubmitKeepsInv(s, e, size, now, rid);
    case ReportStart(_, _, _, _) => ReportKeepsInv(s, a);
    case ReportFailure(_, _, _) => ReportKeepsInv(s, a);
    case _ => WorkerKeepsInv(s, a);
  }

  ghost predicate Evolves(s: System, actions: seq<Action>, s': System): (evolves: bool)
    requires Aligned(s.world)
    ensures evolves ==> Aligned(s'.world)
    decreases |actions|
  {
    if actions == [] then s == s'
    else CanAct(s, actions[0]) && Evolves(Act(s, actions[0]), actions[1..], s')
  }

  lemma {:induction false} EvolutionKeepsInv(s: System, actions: seq<Action>, s': System)
    requires SystemInv(s) && Evolves(s, actions, s')
    ensures SystemInv(s')
    decreases |actions|
  {
    if actions != [] {
      ActKeepsInv(s, actions[0]);
      EvolutionKeepsInv(Act(s, actions[0]), actions[1..], s');
    }
  }

  lemma FromSilence(actions: seq<Action>, s: System)
    requires Evolves(SILENT, actions, s)
    ensures SystemInv(s)
  {
    assert Runs(NOTHING, [], NOTHING);
    EvolutionKeepsInv(SILENT, actions, s);
  }

  // ---------- What the whole system guarantees ----------

  /** Each (task, attempt) is executed at most once, by the worker it was claimed for. */
  lemma ExecutedAtMostOnce(actions: seq<Action>, s: System, e: Execution, f: Execution)
    requires Evolves(SILENT, actions, s)
    requires e in s.executions && f in s.executions && OfOneAttempt(e.assignment, f.assignment)
    ensures e == f
    ensures IsClaim(s.world, e.assignment)
  {
    FromSilence(actions, s);
    ClaimFixesWorker(s.world, e.assignment, f.assignment);
  }

  /**
   Every accepted result came from exactly one execution: the one admitted from the delivery of (task, attempt_count), by
   the worker holding that attempt; and the stored token names it.
   */
  lemma AcceptedResultNamesItsExecution(actions: seq<Action>, s: System, t: TaskId) returns (e: Execution)
    requires Evolves(SILENT, actions, s) && t in s.world.accepted && s.world.accepted[t] != []
    ensures t in s.world.db.tasks
    ensures e in s.finished && e.assignment == Assignment(s.world.accepted[t][0].worker, t, s.world.db.tasks[t].attempt)
    ensures s.world.accepted[t][0].envelope == Submission(e, s.world.accepted[t][0].envelope.size)
    ensures forall f :: f in s.executions && (f.token == e.token || OfOneAttempt(f.assignment, e.assignment)) ==> f == e
    ensures s.world.db.tasks[t].resultId.Some? && s.world.db.tasks[t].resultId.value in s.world.db.results ==>
      s.world.db.results[s.world.db.tasks[t].resultId.value].envelope.token == Some(e.token)
  {
    FromSilence(actions, s);
    assert ByExecution(s, t, s.world.accepted[t][0]);
    e :| e in s.finished && e.assignment.task == t && e.assignment.worker == s.world.accepted[t][0].worker
      && s.world.accepted[t][0].envelope == Submission(e, s.world.accepted[t][0].envelope.size);
    SingleWinner(s.world, t);
    forall f | f in s.executions && OfOneAttempt(f.assignment, e.assignment) ensures f == e {
      ClaimFixesWorker(s.world, f.assignment, e.assignment);
    }
  }

  /**
   The answer an honest execution's submission gets, whenever it arrives and however often. While the task is
   unfinished: accepted if its attempt is the current live one, fenced if the attempt has moved on, and never taken
   for an impostor's. Once finished: DUPLICATE if this very execution won and its result is still stored, else SUPERSEDED.
   */
  lemma HonestAnswers(actions: seq<Action>, s: System, e: Execution, size: nat)
    requires Evolves(SILENT, actions, s) && e in s.executions
    ensures e.assignment.task in s.world.db.tasks
    ensures var t := e.assignment.task;
      var row := s.world.db.tasks[t];
      var answer := CompleteAnswer(Some(row), s.world.db.attempts[t], s.world.db.results, e.assignment.worker, Submission(e, size));
      && e.assignment.attempt <= row.attempt
      && (!IsTerminal(row.status) ==> answer == if e.assignment.attempt == row.attempt then Transitioned else Fenced)
      && (IsTerminal(row.status) ==>
        answer == if row.resultId.Some? && e.assignment.attempt == row.attempt then Duplicate else Superseded)
  {
    FromSilence(actions, s);
    AttemptWithinCount(s.world, e.assignment);
    if IsTerminal(s.world.db.tasks[e.assignment.task].status) {
      LateHonestAnswer(actions, s, e, size);
    } else {
      LiveHonestAnswer(s.world, e, size);
    }
  }

  lemma LiveHonestAnswer(w: World, e: Execution, size: nat)
    requires Reachable(w) && IsClaim(w, e.assignment) && e.assignment.task in w.db.tasks
    requires !IsTerminal(w.db.tasks[e.assignment.task].status)
    ensures var t := e.assignment.task;
      CompleteAnswer(Some(w.db.tasks[t]), w.db.attempts[t], w.db.results, e.assignment.worker, Submission(e, size))
        == if e.assignment.attempt == w.db.tasks[t].attempt then Transitioned else Fenced
  {
    var l := LifeOf(w, e.assignment.task);
    ReachableLife(w, e.assignment.task);
    CompleteAnswerMeaning(l, w.db.results, e.assignment.worker, Submission(e, size));
    assert l.claims[e.assignment.attempt].worker == e.assignment.worker;
  }

  lemma AttemptWithinCount(w: World, a: Assignment)
    requires Reachable(w) && IsClaim(w, a)
    ensures a.task in w.db.tasks && a.attempt <= w.db.tasks[a.task].attempt
  {
    ReachableLife(w, a.task);
    assert LifeOf(w, a.task).claims == w.claims[a.task];
  }

  lemma LateTokenAnswer(w: World, t: TaskId, worker: WorkerId, envelope: Envelope)
    requires Reachable(w) && t in w.db.tasks && IsTerminal(w.db.tasks[t].status)
    ensures w.db.tasks[t].resultId.Some? ==> w.accepted[t] != []
    ensures envelope.token.Some? ==>
      CompleteAnswer(Some(w.db.tasks[t]), w.db.attempts[t], w.db.results, worker, envelope) ==
        if w.db.tasks[t].resultId.Some? && envelope.token == w.accepted[t][0].envelope.token then Duplicate else Superseded
  {
    ReachableWorldsAreGood(w);
    LateSubmission(w, t, worker, envelope);
  }

  lemma LateHonestAnswer(actions: seq<Action>, s: System, e: Execution, size: nat)
    requires Evolves(SILENT, actions, s) && e in s.executions && Reachable(s.world)
    requires e.assignment.task in s.world.db.tasks && IsTerminal(s.world.db.tasks[e.assignment.task].status)
    ensures var t := e.assignment.task;
      CompleteAnswer(Some(s.world.db.tasks[t]), s.world.db.attempts[t], s.world.db.results, e.assignment.worker, Submission(e, size))
        == if s.world.db.tasks[t].resultId.Some? && e.assignment.attempt == s.world.db.tasks[t].attempt then Duplicate else Superseded
  {
    var t := e.assignment.task;
    LateTokenAnswer(s.world, t, e.assignment.worker, Submission(e, size));
    if s.world.db.tasks[t].resultId.Some? {
      var win := AcceptedResultNamesItsExecution(actions, s, t);
      assert win.token == e.token <==> OfOneAttempt(e.assignment, win.assignment);
    }
  }

  // ---------- Starts and failures are not fenced ----------

  lemma ReportPermitted(w: World, t: TaskId, ev: RowEvent)
    requires Aligned(w) && t in w.db.tasks && !ev.Complete? && !ev.DropResult?
    ensures Permits(w.db, Touch(map[t := ev])) <==> Can(LifeOf(w, t), ev)
  {
    assert t in map[t := ev];
  }

  lemma ExecutionsAreClaimed(actions: seq<Action>, s: System, e: Execution)
    requires Evolves(SILENT, actions, s) && e in s.executions
    ensures Reachable(s.world) && IsClaim(s.world, e.assignment) && e.assignment.task in s.world.db.tasks
  {
    FromSilence(actions, s);
    AttemptWithinCount(s.world, e.assignment);
  }

  /**
   An honest report taken against an attempt its execution never had: a failure exactly when the worker holds a later live
   attempt of the task, a start exactly when it holds a later one not yet started.
   */
  lemma ReportLandsElsewhere(actions: seq<Action>, s: System, e: Execution, now: Time, ttl: real, cap: real, errorType: string)
    requires Evolves(SILENT, actions, s) && e in s.executions
    ensures e.assignment.task in s.world.db.tasks && e.assignment.task in s.world.claims
    ensures var a, row, claims :=
        e.assignment.attempt, s.world.db.tasks[e.assignment.task], s.world.claims[e.assignment.task];
      var later := a < row.attempt < |claims| && claims[row.attempt].worker == e.assignment.worker;
      && (Permits(s.world.db, FailureChange(e, now, errorType)) && a != row.attempt <==> IsLive(row.status) && later)
      && (Permits(s.world.db, StartChange(e, now, ttl, cap)) && a != row.attempt <==> row.status == Assigned && later)
  {
    ExecutionsAreClaimed(actions, s, e);
    ReportElsewhere(s.world, e, now, ttl, cap, errorType);
  }

  lemma ReportElsewhere(w: World, e: Execution, now: Time, ttl: real, cap: real, errorType: string)
    requires Reachable(w) && IsClaim(w, e.assignment) && e.assignment.task in w.db.tasks
    ensures var a, row, claims := e.assignment.attempt, w.db.tasks[e.assignment.task], w.claims[e.assignment.task];
      var later := a < row.attempt < |claims| && claims[row.attempt].worker == e.assignment.worker;
      && (Permits(w.db, FailureChange(e, now, errorType)) && a != row.attempt <==> IsLive(row.status) && later)
      && (Permits(w.db, StartChange(e, now, ttl, cap)) && a != row.attempt <==> row.status == Assigned && later)
  {
    var t, worker := e.assignment.task, e.assignment.worker;
    ReportPermitted(w, t, Fail(worker, now, errorType));
    ReportPermitted(w, t, Start(worker, now, ttl, cap));
    ReachableLife(w, t);
    LateReports(LifeOf(w, t), e.assignment.attempt, worker, now, ttl, cap, errorType);
  }

  lemma LateReports(l: Life, a: nat, worker: WorkerId, now: Time, ttl: real, cap: real, errorType: string)
    requires LifeInv(l) && a < |l.claims| && l.claims[a].worker == worker
    ensures var later := a < l.row.attempt < |l.claims| && l.claims[l.row.attempt].worker == worker;
      && (Can(l, Fail(worker, now, errorType)) && a != l.row.attempt <==> IsLive(l.row.status) && later)
      && (Can(l, Start(worker, now, ttl, cap)) && a != l.row.attempt <==> l.row.status == Assigned && later)
  {
    LateFailureReport(l, a, now, errorType);
    LateStartReport(l, a, now, ttl, cap);
  }

  /**
   A task failed by a report: its one report row names the attempt current when the report was taken, and some execution of
   the same task by the same worker really raised, at that attempt or an earlier one. It is that very attempt if the worker
   claimed the task once.
   */
  lemma FailureIsCharged(actions: seq<Action>, s: System, t: TaskId) returns (e: Execution)
    requires Evolves(SILENT, actions, s) && t in s.world.db.tasks && ReportedFailed(s.world.db.tasks[t])
    ensures var row, rows := s.world.db.tasks[t], OfKind(ReportKind, s.world.db.attempts[t]);
      && |rows| == 1 && rows[0].number == row.attempt && rows[0].worker == Some(e.assignment.worker)
      && e in s.raised && e.assignment.task == t && e.assignment.attempt <= row.attempt
      && (ClaimedOnce(s.world.claims[t], e.assignment.worker) ==> e.assignment.attempt == row.attempt)
  {
    FromSilence(actions, s);
    assert ByRaised(s, t);
    e :| e in s.raised && e.assignment.task == t && s.world.db.tasks[t].assignee == Some(e.assignment.worker);
    ReachableLife(s.world, t);
    AttemptWithinCount(s.world, e.assignment);
  }

  ghost predicate ClaimedOnce(claims: seq<ClaimRecord>, worker: WorkerId) {
    forall i, j :: 0 <= i < |claims| && 0 <= j < |claims| && claims[i].worker == worker == claims[j].worker ==> i == j
  }

  lemma EvolvesFirst(s: System, actions: seq<Action>, s': System) returns (next: System)
    requires Aligned(s.world) && actions != [] && Evolves(s, actions, s')
    ensures CanAct(s, actions[0]) && next == Act(s, actions[0])
    ensures Aligned(next.world) && Evolves(next, actions[1..], s')
  {
    next := Act(s, actions[0]);
  }

  lemma EvolvesAfter(s: System, a: Action, next: System, actions: seq<Action>, s': System)
    requires Aligned(s.world) && CanAct(s, a) && next == Act(s, a)
    requires Aligned(next.world) && Evolves(next, actions, s')
    ensures Evolves(s, [a] + actions, s')
  {
    assert ([a] + actions)[1..] == actions;
  }

  lemma {:induction false} EvolvesThen(s: System, actions: seq<Action>, s': System, more: seq<Action>, s'': System)
    requires Aligned(s.world) && Evolves(s, actions, s') && Evolves(s', more, s'')
    ensures Evolves(s, actions + more, s'')
    decreases |actions|
  {
    ConsAppend(actions, more);
    if actions != [] {
      var next := EvolvesFirst(s, actions, s');
      EvolvesThen(next, actions[1..], s', more, s'');
      EvolvesAfter(s, actions[0], next, actions[1..] + more, s'');
    }
  }

  lemma OneAction(s: System, a: Action)
    requires Aligned(s.world) && CanAct(s, a)
    ensures Aligned(Act(s, a).world) && Evolves(s, [a], Act(s, a))
  {
    assert [a][1..] == [];
    assert Evolves(Act(s, a), [], Act(s, a));
  }

  lemma ThenActs(actions: seq<Action>, s: System, a: Action)
    requires Evolves(SILENT, actions, s) && CanAct(s, a)
    ensures Aligned(Act(s, a).world) && Evolves(SILENT, actions + [a], Act(s, a))
  {
    OneAction(s, a);
    EvolvesThen(SILENT, actions, s, [a], Act(s, a));
  }

  /** One event on one row moves that row's life by one step and delivers its claim, if it is one. */
  lemma OneEvent(w: World, t: TaskId, ev: RowEvent)
    requires Aligned(w) && t in w.db.tasks && Can(LifeOf(w, t), ev) && !ev.Complete? && !ev.DropResult?
    ensures var c := Touch(map[t := ev]);
      && Permits(w.db, c) && t in Advance(w, c).db.tasks && LifeOf(Advance(w, c), t) == Next(LifeOf(w, t), ev)
      && Deliveries(w, c) == if ev.Claim? then {Assignment(ev.worker, t, w.db.tasks[t].attempt)} else {}
  {
    var c := Touch(map[t := ev]);
    ReportPermitted(w, t, ev);
    LifeAdvances(w, c, t);
    if ev.Claim? {
      assert Assignment(ev.worker, t, w.db.tasks[t].attempt) in Deliveries(w, c);
    }
  }

  /** The coordinator applies one event to one task. */
  lemma Coordinates(actions: seq<Action>, s: System, t: TaskId, ev: RowEvent) returns (more: seq<Action>, s': System)
    requires Evolves(SILENT, actions, s) && t in s.world.db.tasks && Can(LifeOf(s.world, t), ev)
    requires ev.Claim? || ev.Reclaim?
    ensures Evolves(SILENT, more, s') && t in s'.world.db.tasks && LifeOf(s'.world, t) == Next(LifeOf(s.world, t), ev)
    ensures s' == s.(world := s'.world, unsent := s.unsent +
      if ev.Claim? then {Assignment(ev.worker, t, s.world.db.tasks[t].attempt)} else {})
  {
    var a := Coordinate(Touch(map[t := ev]));
    OneEvent(s.world, t, ev);
    ThenActs(actions, s, a);
    more, s' := actions + [a], Act(s, a);
  }

  lemma Enqueues(t: TaskId) returns (actions: seq<Action>, s: System)
    ensures Evolves(SILENT, actions, s) && t in s.world.db.tasks
    ensures LifeOf(s.world, t) == Born(NewTask("sleep", 0, 0.0)) && s == SILENT.(world := s.world)
  {
    var c := Insert(t, NewTask("sleep", 0, 0.0));
    TablesAfter(NOTHING, c);
    OneAction(SILENT, Coordinate(c));
    actions, s := [Coordinate(c)], Act(SILENT, Coordinate(c));
  }

  /** A delivery is sent and admitted. */
  lemma Delivers(actions: seq<Action>, s: System, d: Assignment, token: string) returns (more: seq<Action>, s': System)
    requires Evolves(SILENT, actions, s) && s == SILENT.(world := s.world, unsent := {d})
    ensures Evolves(SILENT, more, s')
    ensures s' == SILENT.(world := s.world, running := {Execution(d, token)}, executions := {Execution(d, token)})
  {
    ThenActs(actions, s, Send(d));
    var sent := Act(s, Send(d));
    ThenActs(actions + [Send(d)], sent, Admit(d, token));
    more, s' := actions + [Send(d)] + [Admit(d, token)], Act(sent, Admit(d, token));
  }

  /** An execution raises, and its report is taken. */
  lemma Fails(actions: seq<Action>, s: System, e: Execution, now: Time, errorType: string)
    returns (more: seq<Action>, s': System)
    requires Evolves(SILENT, actions, s) && e in s.running && e !in s.finished && e.assignment.task in s.world.db.tasks
    requires Can(LifeOf(s.world, e.assignment.task), Fail(e.assignment.worker, now, errorType))
    ensures Evolves(SILENT, more, s') && e.assignment.task in s'.world.db.tasks
    ensures LifeOf(s'.world, e.assignment.task)
      == Next(LifeOf(s.world, e.assignment.task), Fail(e.assignment.worker, now, errorType))
    ensures s' == s.(world := s'.world, raised := s.raised + {e})
  {
    ThenActs(actions, s, Raise(e));
    var raised := Act(s, Raise(e));
    var report := ReportFailure(e, now, errorType);
    OneEvent(s.world, e.assignment.task, Fail(e.assignment.worker, now, errorType));
    ThenActs(actions + [Raise(e)], raised, report);
    more, s' := actions + [Raise(e)] + [report], Act(raised, report);
  }

  /** A worker is executing attempt 0 of a task, with time to lose its lease. */
  lemma StartsAttempt(t: TaskId, worker: WorkerId, token: string) returns (actions: seq<Action>, s: System)
    ensures Evolves(SILENT, actions, s) && t in s.world.db.tasks
    ensures LifeOf(s.world, t) == Next(Born(NewTask("sleep", 0, 0.0)), Claim(worker, 1.0, 30.0, 300.0, 60.0))
    ensures var e := Execution(Assignment(worker, t, 0), token);
      s == SILENT.(world := s.world, running := {e}, executions := {e})
  {
    actions, s := Enqueues(t);
    actions, s := Coordinates(actions, s, t, Claim(worker, 1.0, 30.0, 300.0, 60.0));
    actions, s := Delivers(actions, s, Assignment(worker, t, 0), token);
  }

  /** It loses the lease and, past its exclusion, is given the task again. */
  lemma GivenAgain(t: TaskId, worker: WorkerId, token: string) returns (actions: seq<Action>, s: System)
    ensures Evolves(SILENT, actions, s) && t in s.world.db.tasks
    ensures LifeOf(s.world, t).row.status == Assigned && LifeOf(s.world, t).row.attempt == 1
    ensures LifeOf(s.world, t).row.assignee == Some(worker)
    ensures var e := Execution(Assignment(worker, t, 0), token); s.running == s.executions == {e} && s.finished == s.raised == {}
  {
    actions, s := StartsAttempt(t, worker, token);
    actions, s := Coordinates(actions, s, t, Reclaim(40.0, 3, 2.0));
    actions, s := Coordinates(actions, s, t, Claim(worker, 110.0, 30.0, 300.0, 60.0));
  }

  /**
   With honest parties: a slow worker loses attempt 0, is given the task again while still running it, and then raises.
   The task is FAILED, and its ledger charges attempt 1, which nobody ever executed.
   */
  lemma FailureChargedToUnrunAttempt(t: TaskId, worker: WorkerId, token: string) returns (actions: seq<Action>, s: System)
    ensures Evolves(SILENT, actions, s) && t in s.world.db.tasks
    ensures s.world.db.tasks[t].status == Failed && s.world.db.tasks[t].attempt == 1
    ensures s.executions == s.raised == {Execution(Assignment(worker, t, 0), token)}
    ensures HasRow(s.world.db.attempts[t], worker, 1, FailedOutcome)
  {
    var e := Execution(Assignment(worker, t, 0), token);
    actions, s := GivenAgain(t, worker, token);
    var l := LifeOf(s.world, t);
    actions, s := Fails(actions, s, e, 111.0, "MemoryError");
    FailureLeavesRow(l, worker, 111.0, "MemoryError");
  }

  lemma FailureLeavesRow(l: Life, worker: WorkerId, now: Time, errorType: string)
    ensures HasRow(Next(l, Fail(worker, now, errorType)).ledger, worker, l.row.attempt, FailedOutcome)
  {
    var ledger := Next(l, Fail(worker, now, errorType)).ledger;
    if !HasRow(l.ledger, worker, l.row.attempt, FailedOutcome) {
      assert ledger[|l.ledger|].number == l.row.attempt;
    }
  }

  /** What is executed stays executed, and what was claimed stays claimed. */
  lemma {:induction false} EvolutionKeepsPast(s: System, actions: seq<Action>, s': System, a: Assignment)
    requires SystemInv(s) && Evolves(s, actions, s') && IsClaim(s.world, a)
    ensures s.executions <= s'.executions && IsClaim(s'.world, a)
    decreases |actions|
  {
    if actions != [] {
      ActKeepsInv(s, actions[0]);
      ActionKeepsClaim(s, actions[0], a);
      EvolutionKeepsPast(Act(s, actions[0]), actions[1..], s', a);
    }
  }

  lemma ActionKeepsClaim(s: System, action: Action, a: Assignment)
    requires SystemInv(s) && CanAct(s, action) && IsClaim(s.world, a)
    ensures s.executions <= Act(s, action).executions && IsClaim(Act(s, action).world, a)
  {
    match action
    case Coordinate(c) => StaysClaimed(s.world, c, a);
    case Submit(e, size, now, rid) =>
      StaysClaimed(s.world, Store(e.assignment.task, Complete(e.assignment.worker, now, Submission(e, size), rid)), a);
    case ReportStart(e, now, ttl, cap) => StaysClaimed(s.world, StartChange(e, now, ttl, cap), a);
    case ReportFailure(e, now, errorType) => StaysClaimed(s.world, FailureChange(e, now, errorType), a);
    case _ =>
  }

  /**
   A delivery ignored because an older attempt is still running: whatever happens later, the result of that older
   execution is fenced or superseded, never stored.
   */
  lemma IgnoredDeliveryMeansFenced(actions: seq<Action>, s: System, d: Assignment, e: Execution,
                                   more: seq<Action>, s': System, size: nat)
    requires Evolves(SILENT, actions, s) && CanAct(s, Ignore(d)) && Evolves(s, more, s')
    requires e in s.running && e.assignment.worker == d.worker && e.assignment.task == d.task && e.assignment.attempt < d.attempt
    ensures d.task in s'.world.db.tasks && d.task in s'.world.db.attempts
    ensures CompleteAnswer(Some(s'.world.db.tasks[d.task]), s'.world.db.attempts[d.task], s'.world.db.results,
                           d.worker, Submission(e, size)) in {Fenced, Superseded}
  {
    FromSilence(actions, s);
    EvolutionKeepsPast(s, more, s', d);
    EvolvesThen(SILENT, actions, s, more, s');
    FromSilence(actions + more, s');
    AttemptWithinCount(s'.world, d);
    HonestAnswers(actions + more, s', e, size);
  }
}
