/**
 The worker's submission loop among the coroutines it shares the buffer with. A pass clears the event, takes a snapshot
 of the pending keys and sends them one at a time; while a send awaits the socket, results are recorded and answered,
 and sessions come and go. The loop then parks on the event.
 */
module Wakeups {
  import opened Basics
  import opened Records
  import opened Outbox

  /** What the loop shares with the rest of the worker: the buffer, the send stamps, the event, and whether a session is live. */
  datatype Desk = Desk(box: Box, sentAt: map<TaskId, Time>, event: bool, attached: bool)

  const CLEAR_DESK := Desk(NO_RESULTS, map[], false, false)

  /** Dropping a pending result drops its stamp. */
  function StampsAfterRoom(d: Desk, cap: nat): map<TaskId, Time> {
    if |d.box.order| >= cap && d.box.order != [] then d.sentAt - {d.box.order[0]} else d.sentAt
  }

  function AfterRecord(d: Desk, cap: nat, t: TaskId, e: Envelope): Desk {
    d.(box := Recorded(d.box, cap, t, e), sentAt := StampsAfterRoom(d, cap), event := true)
  }

  function AfterAnswer(d: Desk, t: TaskId): Desk {
    d.(box := Acknowledged(d.box, t), sentAt := d.sentAt - {t}, event := d.event && Acknowledged(d.box, t).envelopes != map[])
  }

  function AfterAttach(d: Desk): Desk {
    d.(sentAt := map[], attached := true, event := d.event || d.box.envelopes != map[])
  }

  /** Was this result sent recently enough to still expect an answer? */
  predicate Awaiting(d: Desk, t: TaskId, clock: Time, grace: real) {
    t in d.sentAt && clock - d.sentAt[t] < grace
  }

  predicate Sends(d: Desk, t: TaskId, ok: bool) {
    t in d.box.envelopes && d.attached && ok
  }

  function AfterSend(d: Desk, t: TaskId, clock: Time, ok: bool): Desk {
    if Sends(d, t, ok) then d.(sentAt := d.sentAt[t := clock]) else d
  }

  // ---------- The loop ----------

  /** How one key of the snapshot is dealt with: still awaiting an answer, sent, or the pass stops here. */
  datatype Turn = StillWaiting | Delivered | Stopped

  function TurnOf(d: Desk, t: TaskId, clock: Time, grace: real, ok: bool): Turn {
    if Awaiting(d, t, clock, grace) then StillWaiting
    else if Sends(d, t, ok) then Delivered
    else Stopped
  }

  function AfterTurn(d: Desk, t: TaskId, clock: Time, grace: real, ok: bool): Desk {
    if Awaiting(d, t, clock, grace) then d else AfterSend(d, t, clock, ok)
  }

  /** Parked on the event, or in a pass with the keys of its snapshot still to come. */
  datatype Loop = Parked | Passing(rest: seq<TaskId>, stopped: bool)

  datatype Worker = Worker(desk: Desk, loop: Loop)

  const IDLE_WORKER := Worker(CLEAR_DESK, Parked)

  datatype Step =
    | Produce(task: TaskId, envelope: Envelope)
    | Answer(task: TaskId)
    | Attach
    | Detach
    | SendNow(task: TaskId, clock: Time, ok: bool)
    | BeginPass
    | TakeTurn(clock: Time, ok: bool)
    | Park

  predicate Possible(w: Worker, step: Step) {
    match step
    case BeginPass => w.loop.Parked?
    case TakeTurn(_, _) => w.loop.Passing? && w.loop.rest != []
    case Park => w.loop.Passing? && w.loop.rest == []
    case _ => true
  }

  function After(w: Worker, step: Step, cap: nat, grace: real): Worker
    requires Possible(w, step)
  {
    match step
    case Produce(t, e) => w.(desk := AfterRecord(w.desk, cap, t, e))
    case Answer(t) => w.(desk := AfterAnswer(w.desk, t))
    case Attach => w.(desk := AfterAttach(w.desk))
    case Detach => w.(desk := w.desk.(attached := false))
    case SendNow(t, clock, ok) => w.(desk := AfterSend(w.desk, t, clock, ok))
    case BeginPass => Worker(w.desk.(event := false), Passing(w.desk.box.order, false))
    case TakeTurn(clock, ok) =>
      var t := w.loop.rest[0];
      Worker(AfterTurn(w.desk, t, clock, grace, ok),
             if TurnOf(w.desk, t, clock, grace, ok) == Stopped then Passing([], true) else Passing(w.loop.rest[1..], w.loop.stopped))
    case Park => w.(loop := Parked)
  }

  /** `w'` is what these interleaved steps lead to from `w`. */
  ghost predicate Leads(w: Worker, steps: seq<Step>, cap: nat, grace: real, w': Worker)
    decreases |steps|
  {
    if steps == [] then w == w'
    else Possible(w, steps[0]) && Leads(After(w, steps[0], cap, grace), steps[1..], cap, grace, w')
  }

  /** Something worth waking for: a result recorded or a session attached. */
  predicate Tells(step: Step) {
    step.Produce? || step.Attach?
  }

  /** Since the last time the event was cleared, the loop was told something. */
  ghost predicate Told(steps: seq<Step>) {
    exists i :: 0 <= i < |steps| && Tells(steps[i]) && NoPassIn(steps[i + 1..])
  }

  ghost predicate NoPassIn(steps: seq<Step>) {
    forall i :: 0 <= i < |steps| ==> !steps[i].BeginPass?
  }

  /** The same, carried forward step by step. */
  predicate ToldAfter(told: bool, step: Step) {
    Tells(step) || (told && !step.BeginPass?)
  }

  predicate ToldFrom(told: bool, steps: seq<Step>)
    decreases |steps|
  {
    if steps == [] then told else ToldFrom(ToldAfter(told, steps[0]), steps[1..])
  }

  lemma {:induction false} ToldIsToldFrom(told: bool, steps: seq<Step>)
    ensures ToldFrom(told, steps) <==> Told(steps) || (told && NoPassIn(steps))
    decreases |steps|
  {
    if steps != [] {
      var rest := steps[1..];
      ToldIsToldFrom(ToldAfter(told, steps[0]), rest);
      NoPassFirst(steps);
      if Told(rest) {
        var i :| 0 <= i < |rest| && Tells(rest[i]) && NoPassIn(rest[i + 1..]);
        assert steps[i + 1] == rest[i] && steps[i + 2..] == rest[i + 1..];
      }
      if Told(steps) {
        var i :| 0 <= i < |steps| && Tells(steps[i]) && NoPassIn(steps[i + 1..]);
        assert i > 0 ==> rest[i - 1] == steps[i] && rest[i..] == steps[i + 1..];
      }
      assert Tells(steps[0]) && NoPassIn(rest) ==> Tells(steps[0]) && NoPassIn(steps[0 + 1..]);
    }
  }

  lemma NoPassFirst(steps: seq<Step>)
    requires steps != []
    ensures NoPassIn(steps) <==> !steps[0].BeginPass? && NoPassIn(steps[1..])
  {
    assert forall i :: 0 < i < |steps| ==> steps[i] == steps[1..][i - 1];
  }

  /** Whatever the pass has already passed by is stamped, unless something has been said that will bring the loop back. */
  ghost predicate Covered(w: Worker) {
    w.loop.Passing? && !w.desk.event && !w.loop.stopped ==>
      forall t :: t in w.desk.box.envelopes ==> t in w.loop.rest || t in w.desk.sentAt
  }

  ghost predicate WorkerInv(w: Worker, cap: nat, told: bool) {
    && BoxInv(w.desk.box, cap)
    && w.desk.sentAt.Keys <= w.desk.box.envelopes.Keys
    && (w.desk.event <==> told && w.desk.box.envelopes != map[])
    && Covered(w)
  }

  lemma NonEmptyBox(b: Box, cap: nat)
    requires BoxInv(b, cap)
    ensures b.envelopes == map[] <==> b.order == []
  {
    if b.order != [] {
      assert b.order[0] in ToSet(b.order);
    }
  }

  lemma RecordKeeps(w: Worker, cap: nat, grace: real, t: TaskId, e: Envelope, told: bool)
    requires WorkerInv(w, cap, told) && cap >= 1
    ensures WorkerInv(After(w, Produce(t, e), cap, grace), cap, true)
  {
    RecordedInv(w.desk.box, cap, t, e);
  }

  lemma AnswerKeeps(w: Worker, cap: nat, grace: real, t: TaskId, told: bool)
    requires WorkerInv(w, cap, told)
    ensures WorkerInv(After(w, Answer(t), cap, grace), cap, told)
  {
    AcknowledgedInv(w.desk.box, cap, t);
  }

  lemma BeginKeeps(w: Worker, cap: nat, grace: real, told: bool)
    requires WorkerInv(w, cap, told) && Possible(w, BeginPass)
    ensures WorkerInv(After(w, BeginPass, cap, grace), cap, false)
  {
    forall t | t in w.desk.box.envelopes ensures t in w.desk.box.order {
      assert t in ToSet(w.desk.box.order);
    }
  }

  lemma TurnKeeps(w: Worker, cap: nat, grace: real, clock: Time, ok: bool, told: bool)
    requires WorkerInv(w, cap, told) && Possible(w, TakeTurn(clock, ok))
    ensures WorkerInv(After(w, TakeTurn(clock, ok), cap, grace), cap, told)
  {
    assert w.loop.rest == [w.loop.rest[0]] + w.loop.rest[1..];
  }

  lemma StepKeeps(w: Worker, cap: nat, grace: real, step: Step, told: bool)
    requires WorkerInv(w, cap, told) && cap >= 1 && Possible(w, step)
    ensures WorkerInv(After(w, step, cap, grace), cap, ToldAfter(told, step))
  {
    match step
    case Produce(t, e) => RecordKeeps(w, cap, grace, t, e, told);
    case Answer(t) => AnswerKeeps(w, cap, grace, t, told);
    case BeginPass => BeginKeeps(w, cap, grace, told);
    case TakeTurn(clock, ok) => TurnKeeps(w, cap, grace, clock, ok, told);
    case _ =>
  }

  lemma {:induction false} StepsKeep(w: Worker, steps: seq<Step>, cap: nat, grace: real, w': Worker, told: bool)
    requires WorkerInv(w, cap, told) && cap >= 1 && Leads(w, steps, cap, grace, w')
    ensures WorkerInv(w', cap, ToldFrom(told, steps))
    decreases |steps|
  {
    if steps != [] {
      StepKeeps(w, cap, grace, steps[0], told);
      StepsKeep(After(w, steps[0], cap, grace), steps[1..], cap, grace, w', ToldAfter(told, steps[0]));
    }
  }

  lemma FromIdle(steps: seq<Step>, cap: nat, grace: real, w: Worker)
    requires Leads(IDLE_WORKER, steps, cap, grace, w) && cap >= 1
    ensures WorkerInv(w, cap, Told(steps))
  {
    StepsKeep(IDLE_WORKER, steps, cap, grace, w, false);
    ToldIsToldFrom(false, steps);
  }

  /**
   No lost wakeup, in any interleaving: whenever the loop looks, in particular when it parks, the event is set exactly
   when something is pending and a result was recorded or a session attached since the loop last cleared it.
   */
  lemma NoLostWakeup(steps: seq<Step>, cap: nat, grace: real, w: Worker)
    requires Leads(IDLE_WORKER, steps, cap, grace, w) && cap >= 1
    ensures w.desk.event <==> Told(steps) && w.desk.box.order != []
  {
    FromIdle(steps, cap, grace, w);
    NonEmptyBox(w.desk.box, cap);
  }

  /**
   A pass that ran to its end and will sleep overlooks nothing: every pending result carries a send stamp, and stamps do
   not outlive the session they were sent on.
   */
  lemma QuietPassMissesNothing(steps: seq<Step>, cap: nat, grace: real, w: Worker)
    requires Leads(IDLE_WORKER, steps, cap, grace, w) && cap >= 1
    requires w.loop == Passing([], false) && !w.desk.event
    ensures forall t :: t in w.desk.box.envelopes ==> t in w.desk.sentAt
  {
    FromIdle(steps, cap, grace, w);
  }

  /** A turn stops the pass exactly when its key is pending no more, answered or evicted meanwhile, or due and not sendable. */
  lemma WhatStopsAPass(steps: seq<Step>, cap: nat, grace: real, w: Worker, clock: Time, ok: bool)
    requires Leads(IDLE_WORKER, steps, cap, grace, w) && cap >= 1 && Possible(w, TakeTurn(clock, ok)) && !w.loop.stopped
    ensures After(w, TakeTurn(clock, ok), cap, grace).loop.stopped <==>
      w.loop.rest[0] !in w.desk.box.envelopes || (!Awaiting(w.desk, w.loop.rest[0], clock, grace) && !(w.desk.attached && ok))
  {
    FromIdle(steps, cap, grace, w);
  }

  // ---------- An answer can end a pass ----------

  lemma LeadsStep(w: Worker, step: Step, steps: seq<Step>, cap: nat, grace: real, w': Worker)
    requires Possible(w, step) && Leads(After(w, step, cap, grace), steps, cap, grace, w')
    ensures Leads(w, [step] + steps, cap, grace, w')
  {
    assert ([step] + steps)[1..] == steps;
  }

  function SampleResult(a: TaskId): Envelope {
    Envelope(a, Some(0), Some("first"), 0)
  }

  /** Attached, `a` sent and awaiting its answer, `b` just recorded. */
  function TwoPending(a: TaskId, b: TaskId): Worker {
    Worker(Desk(Box([a, b], map[a := SampleResult(a), b := SampleResult(b)]), map[a := 0.0], true, true), Parked)
  }

  lemma ReachTwoPending(a: TaskId, b: TaskId, cap: nat, grace: real, steps: seq<Step>, w: Worker)
    requires a != b && cap >= 2 && Leads(TwoPending(a, b), steps, cap, grace, w)
    ensures Leads(IDLE_WORKER, [Attach] + ([Produce(a, SampleResult(a))] + ([SendNow(a, 0.0, true)] + ([Produce(b, SampleResult(b))] + steps))),
                  cap, grace, w)
  {
    var w1 := After(IDLE_WORKER, Attach, cap, grace);
    var w2 := After(w1, Produce(a, SampleResult(a)), cap, grace);
    var w3 := After(w2, SendNow(a, 0.0, true), cap, grace);
    assert w2.desk.box.envelopes == map[a := SampleResult(a)];
    assert w3.desk.sentAt == map[a := 0.0];
    assert After(w3, Produce(b, SampleResult(b)), cap, grace) == TwoPending(a, b);
    LeadsStep(w3, Produce(b, SampleResult(b)), steps, cap, grace, w);
    LeadsStep(w2, SendNow(a, 0.0, true), [Produce(b, SampleResult(b))] + steps, cap, grace, w);
    LeadsStep(w1, Produce(a, SampleResult(a)), [SendNow(a, 0.0, true)] + ([Produce(b, SampleResult(b))] + steps), cap, grace, w);
    LeadsStep(IDLE_WORKER, Attach,
              [Produce(a, SampleResult(a))] + ([SendNow(a, 0.0, true)] + ([Produce(b, SampleResult(b))] + steps)), cap, grace, w);
  }

  /**
   An answer that arrives mid-pass for a key still to come ends the pass with every send working: the result behind it is
   left unsent and the event clear, so it waits for the retry delay.
   */
  lemma AnswerMidPassStopsIt(a: TaskId, b: TaskId, cap: nat, grace: real) returns (steps: seq<Step>, w: Worker)
    requires a != b && cap >= 2
    ensures Leads(IDLE_WORKER, steps, cap, grace, w)
    ensures forall i :: 0 <= i < |steps| ==> !steps[i].Detach? && (steps[i].TakeTurn? ==> steps[i].ok)
    ensures w.loop == Parked && w.desk.attached && !w.desk.event
    ensures w.desk.box.order == [b] && b !in w.desk.sentAt
  {
    var w0 := TwoPending(a, b);
    var w1 := After(w0, BeginPass, cap, grace);
    var w2 := After(w1, Answer(a), cap, grace);
    var w3 := After(w2, TakeTurn(1.0, true), cap, grace);
    w := After(w3, Park, cap, grace);
    LeadsStep(w3, Park, [], cap, grace, w);
    LeadsStep(w2, TakeTurn(1.0, true), [Park] + [], cap, grace, w);
    LeadsStep(w1, Answer(a), [TakeTurn(1.0, true)] + ([Park] + []), cap, grace, w);
    steps := [BeginPass] + ([Answer(a)] + ([TakeTurn(1.0, true)] + ([Park] + [])));
    LeadsStep(w0, BeginPass, [Answer(a)] + ([TakeTurn(1.0, true)] + ([Park] + [])), cap, grace, w);
    ReachTwoPending(a, b, cap, grace, steps, w);
    steps := [Attach] + ([Produce(a, SampleResult(a))] + ([SendNow(a, 0.0, true)] + ([Produce(b, SampleResult(b))] + steps)));
  }
}
