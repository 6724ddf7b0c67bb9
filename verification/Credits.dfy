/**
 Credit accounting of one worker session, seen as a machine over its handlers and the assignment pass.

 Credits are keyed by task; work declared at reconnect is an unkeyed residue. A refusal for lack of
 capacity closes the session until the worker reports again.
 */
module Credits {
  import opened Basics
  import opened Records
  import opened Answers

  /** `credited` lists keys in insertion order, as the dictionary does. */
  datatype Credit = Credit(
    maxConcurrent: nat,
    residual: nat,
    credited: seq<TaskId>,
    pendingAcks: set<TaskId>,
    saturated: bool)

  /** `max_concurrent` from a hello: an integer clamped to `[1, ceiling]`, or the default clamped alike. */
  function ParseMaxConcurrent(raw: Option<int>, default: int, ceiling: int): (m: nat)
    requires ceiling >= 1
    ensures 1 <= m <= ceiling
    ensures raw.Some? && 1 <= raw.value <= ceiling ==> m == raw.value
  {
    Max(1, Min(if raw.Some? then raw.value else default, ceiling))
  }

  /** `tasks_in_flight` from a hello, clamped to `[0, maxConcurrent]`. */
  function ParseInFlight(raw: Option<int>, maxConcurrent: nat): (n: nat)
    ensures n <= maxConcurrent
    ensures raw.Some? && 0 <= raw.value <= maxConcurrent ==> n == raw.value
  {
    if raw.None? then 0 else Max(0, Min(raw.value, maxConcurrent))
  }

  function Opened(maxConcurrent: nat, residue: nat): Credit {
    Credit(maxConcurrent, residue, [], {}, false)
  }

  function InFlight(c: Credit): nat {
    c.residual + |c.credited|
  }

  function FreeCredits(c: Credit): nat {
    if c.saturated then 0 else Max(0, c.maxConcurrent - InFlight(c))
  }

  /** Releasing one named task: its key if held, else one unit of residue, else nothing. */
  function ReleaseNamed(c: Credit, t: TaskId): Credit {
    if t in c.credited then c.(credited := Without(c.credited, t))
    else if c.residual > 0 then c.(residual := c.residual - 1)
    else c
  }

  /** Releasing by count: residue first, then the oldest keys. */
  function ReleaseCount(c: Credit, freed: int): Credit {
    var fromResidue := Min(Max(1, freed), c.residual);
    var fromKeys := Max(0, Min(freed - fromResidue, |c.credited|));
    c.(residual := c.residual - fromResidue, credited := c.credited[fromKeys..])
  }

  /** `_release_credit`: by name when a task is named, by count otherwise. */
  function Released(c: Credit, named: Option<TaskId>, freed: int): Credit {
    if named.Some? then ReleaseNamed(c, named.value) else ReleaseCount(c, freed)
  }

  /** A count release of at least one frees exactly `min(freed, in flight)`. */
  lemma CountReleaseIsExact(c: Credit, freed: int)
    requires freed >= 1
    ensures InFlight(c) - InFlight(ReleaseCount(c, freed)) == Min(freed, InFlight(c))
    ensures ReleaseCount(c, freed).credited <= c.credited || ReleaseCount(c, freed).residual == 0
  {
  }

  /** What releasing one named task frees: its key, or else one unit of residue, if there is any. */
  function NamedUnits(c: Credit, t: TaskId): nat {
    if t in c.credited || c.residual > 0 then 1 else 0
  }

  lemma NamedReleaseIsExact(c: Credit, t: TaskId)
    requires Distinct(c.credited)
    ensures InFlight(ReleaseNamed(c, t)) == InFlight(c) - NamedUnits(c, t)
    ensures Distinct(ReleaseNamed(c, t).credited) && t !in ReleaseNamed(c, t).credited
  {
    WithoutRemoves(c.credited, t);
  }

  /**
   A second named release of the same task, keyed here or not, changes nothing exactly when the first left no residue
   to draw on.
   */
  lemma RepeatedReleaseIsNoOp(c: Credit, t: TaskId)
    requires Distinct(c.credited)
    ensures ReleaseNamed(ReleaseNamed(c, t), t) == ReleaseNamed(c, t) <==> ReleaseNamed(c, t).residual == 0
    ensures t in c.credited ==> ReleaseNamed(c, t).residual == c.residual
    ensures InFlight(c) - InFlight(ReleaseNamed(c, t)) == NamedUnits(c, t)
  {
    WithoutRemoves(c.credited, t);
  }

  /** A reconnected worker's task, reported done twice, frees two of the tasks it declared. */
  lemma DuplicateReportDrainsResidue(t: TaskId)
    ensures var c := Opened(4, 2);
      InFlight(ReleaseNamed(c, t)) == 1 && InFlight(ReleaseNamed(ReleaseNamed(c, t), t)) == 0
  {
  }

  // ---------- Messages and passes ----------

  datatype Message =
    | AckAccepted(task: TaskId)
    | AckAtCapacity(task: TaskId)
    | AckRefused(task: TaskId)
    | CapacityReport(named: Option<TaskId>, freed: int)
    | FailureReport(task: TaskId, answer: Answer)
    | ResultReport(task: TaskId, answer: Answer)
    | MalformedResult(named: Option<TaskId>)

  function Acked(c: Credit, t: TaskId): Credit {
    c.(pendingAcks := c.pendingAcks - {t})
  }

  /** What each handler does to the credits. */
  function Handle(c: Credit, m: Message): Credit {
    match m
    case AckAccepted(t) => Acked(c, t)
    case AckAtCapacity(t) => if t in c.pendingAcks then Acked(c, t).(saturated := true) else c
    case AckRefused(t) => if t in c.pendingAcks then ReleaseNamed(Acked(c, t), t) else c
    case CapacityReport(named, freed) =>
      if freed < 1 then c
      else Released(c, named, freed).(saturated := false)
    case FailureReport(t, answer) =>
      (if answer !in {NotOwner, NotFound} || t in c.credited then ReleaseNamed(c, t) else c).(saturated := false)
    case ResultReport(t, answer) =>
      if answer !in {NotOwner, NotFound, Fenced} || t in c.credited then ReleaseNamed(c, t).(saturated := false) else c
    case MalformedResult(named) =>
      (if named.Some? && named.value in c.credited then ReleaseNamed(c, named.value) else c).(saturated := false)
  }

  /** The units each message is worth, by what it names and what it was answered. */
  function Units(c: Credit, m: Message): nat {
    match m
    case AckAccepted(_) => 0
    case AckAtCapacity(_) => 0
    case AckRefused(t) => if t in c.pendingAcks then NamedUnits(c, t) else 0
    case CapacityReport(named, freed) =>
      if freed < 1 then 0 else if named.Some? then NamedUnits(c, named.value) else Min(freed, InFlight(c))
    case FailureReport(t, NotOwner) => if t in c.credited then 1 else 0
    case FailureReport(t, NotFound) => if t in c.credited then 1 else 0
    case FailureReport(t, _) => NamedUnits(c, t)
    case ResultReport(t, NotOwner) => if t in c.credited then 1 else 0
    case ResultReport(t, NotFound) => if t in c.credited then 1 else 0
    case ResultReport(t, Fenced) => if t in c.credited then 1 else 0
    case ResultReport(t, _) => NamedUnits(c, t)
    case MalformedResult(named) => if named.Some? && named.value in c.credited then 1 else 0
  }

  /** A delivery that reached the socket: the task awaits an ack and holds a key, a fresh one unless it already had one. */
  function Delivered(c: Credit, t: TaskId): Credit {
    c.(pendingAcks := c.pendingAcks + {t}, credited := if t in c.credited then c.credited else c.credited + [t])
  }

  /** Session history: `planned` rows claimed by the running pass and not yet sent, and the running totals. */
  datatype Tally = Tally(credit: Credit, planned: nat, keyed: nat, released: nat, everCredited: set<TaskId>)

  datatype Step =
    | Receive(m: Message)
    | Plan(k: nat)
    | Send(task: TaskId, sent: bool)

  /** A pass claims only after finding free credit, at most that much, and finishes its sends before the next. */
  predicate Allowed(t: Tally, s: Step) {
    match s
    case Receive(_) => true
    case Plan(k) => t.planned == 0 && 1 <= k <= FreeCredits(t.credit)
    case Send(_, _) => t.planned > 0
  }

  function After(t: Tally, s: Step): Tally {
    match s
    case Receive(m) =>
      t.(credit := Handle(t.credit, m), released := t.released + Units(t.credit, m))
    case Plan(k) => t.(planned := k)
    case Send(task, sent) =>
      var planned := Max(0, t.planned - 1);
      if !sent then t.(planned := planned)
      else t.(credit := Delivered(t.credit, task), planned := planned,
              keyed := t.keyed + (if task in t.credit.credited then 0 else 1),
              everCredited := t.everCredited + {task})
  }

  function Fresh(maxConcurrent: nat, residue: nat): Tally {
    Tally(Opened(maxConcurrent, residue), 0, 0, 0, {})
  }

  /** Conservation: in flight = residue at open + fresh deliveries - units the messages are worth, and never above the cap. */
  ghost predicate Conserved(t: Tally, maxConcurrent: nat, residue: nat) {
    && t.credit.maxConcurrent == maxConcurrent
    && Distinct(t.credit.credited)
    && InFlight(t.credit) == residue + t.keyed - t.released
    && InFlight(t.credit) + t.planned <= maxConcurrent
  }

  lemma DropIsDistinct(keys: seq<TaskId>, n: nat)
    requires Distinct(keys) && n <= |keys|
    ensures Distinct(keys[n..])
  {
  }

  lemma CountReleaseKeepsKeys(c: Credit, freed: int)
    requires Distinct(c.credited)
    ensures Distinct(ReleaseCount(c, freed).credited)
  {
    var fromKeys := Max(0, Min(freed - Min(Max(1, freed), c.residual), |c.credited|));
    DropIsDistinct(c.credited, fromKeys);
  }

  /** Each handler frees exactly the units its message is worth: none raises the number in flight, none breaks the keys. */
  lemma HandleFreesUnits(c: Credit, m: Message)
    requires Distinct(c.credited)
    ensures InFlight(Handle(c, m)) == InFlight(c) - Units(c, m)
    ensures Distinct(Handle(c, m).credited) && Handle(c, m).maxConcurrent == c.maxConcurrent
  {
    match m
    case AckRefused(t) => NamedReleaseIsExact(Acked(c, t), t);
    case CapacityReport(named, freed) =>
      if freed >= 1 {
        if named.Some? {
          NamedReleaseIsExact(c, named.value);
        } else {
          CountReleaseIsExact(c, freed);
          CountReleaseKeepsKeys(c, freed);
        }
      }
    case FailureReport(t, _) => NamedReleaseIsExact(c, t);
    case ResultReport(t, _) => NamedReleaseIsExact(c, t);
    case MalformedResult(named) => if named.Some? { NamedReleaseIsExact(c, named.value); }
    case _ =>
  }

  /** Only a capacity refusal of an outstanding delivery can take free credit away from a session. */
  lemma OnlyRefusalsCloseASession(c: Credit, m: Message)
    requires Distinct(c.credited)
    ensures FreeCredits(Handle(c, m)) < FreeCredits(c) ==> m.AckAtCapacity? && m.task in c.pendingAcks
  {
    HandleFreesUnits(c, m);
  }

  lemma StepConserves(t: Tally, s: Step, maxConcurrent: nat, residue: nat)
    requires Conserved(t, maxConcurrent, residue) && Allowed(t, s)
    ensures Conserved(After(t, s), maxConcurrent, residue)
  {
    if s.Receive? {
      HandleFreesUnits(t.credit, s.m);
    }
  }

  function Steps(t: Tally, steps: seq<Step>): Tally
    decreases |steps|
  {
    if steps == [] then t else Steps(After(t, steps[0]), steps[1..])
  }

  ghost predicate AllAllowed(t: Tally, steps: seq<Step>)
    decreases |steps|
  {
    steps == [] || (Allowed(t, steps[0]) && AllAllowed(After(t, steps[0]), steps[1..]))
  }

  lemma {:induction false} RunConserves(t: Tally, steps: seq<Step>, maxConcurrent: nat, residue: nat)
    requires Conserved(t, maxConcurrent, residue) && AllAllowed(t, steps)
    ensures Conserved(Steps(t, steps), maxConcurrent, residue)
    decreases |steps|
  {
    if steps != [] {
      StepConserves(t, steps[0], maxConcurrent, residue);
      RunConserves(After(t, steps[0]), steps[1..], maxConcurrent, residue);
    }
  }

  /** Credit conservation under any interleaving of messages with passes, from the session's hello. */
  lemma CreditsAreConserved(maxConcurrent: nat, raw: Option<int>, steps: seq<Step>)
    requires AllAllowed(Fresh(maxConcurrent, ParseInFlight(raw, maxConcurrent)), steps)
    ensures var residue := ParseInFlight(raw, maxConcurrent);
      var t := Steps(Fresh(maxConcurrent, residue), steps);
      && InFlight(t.credit) == residue + t.keyed - t.released
      && InFlight(t.credit) <= maxConcurrent
      && Distinct(t.credit.credited)
  {
    var residue := ParseInFlight(raw, maxConcurrent);
    RunConserves(Fresh(maxConcurrent, residue), steps, maxConcurrent, residue);
  }

  /** Once a result, failure or valid capacity report naming a task is processed, the task holds no credit here. */
  lemma ReportsSettleTheirTask(c: Credit, m: Message, t: TaskId)
    requires Distinct(c.credited)
    requires (m.CapacityReport? && m.named == Some(t) && m.freed >= 1) || (m.FailureReport? && m.task == t) || (m.ResultReport? && m.task == t)
      || m == MalformedResult(Some(t))
    ensures t !in Handle(c, m).credited
    ensures t in c.credited ==> InFlight(Handle(c, m)) == InFlight(c) - 1
    ensures t in c.credited ==> !Handle(c, m).saturated
  {
    WithoutRemoves(c.credited, t);
  }

  /** Naming a task the session was never given frees something exactly on these answers, and only out of the residue. */
  lemma GuessedTaskFreesResidueOnly(c: Credit, t: TaskId, answer: Answer)
    requires Distinct(c.credited) && t !in c.credited
    ensures var failed, submitted := Handle(c, FailureReport(t, answer)), Handle(c, ResultReport(t, answer));
      && failed.credited == submitted.credited == c.credited
      && (failed.residual < c.residual <==> c.residual > 0 && answer !in {NotOwner, NotFound})
      && (submitted.residual < c.residual <==> c.residual > 0 && answer !in {NotOwner, NotFound, Fenced})
      && (submitted != c ==> answer !in {NotOwner, NotFound, Fenced})
    ensures Handle(c, MalformedResult(Some(t))) == c.(saturated := false)
  {
  }

  // ---------- No livelock ----------

  /** The worker refuses every delivery for lack of capacity and says nothing else. */
  ghost predicate OnlyRefuses(steps: seq<Step>) {
    forall i :: 0 <= i < |steps| && steps[i].Receive? ==> steps[i].m.AckAtCapacity?
  }

  /** Against such a worker keys only accumulate: they are exactly the tasks ever delivered. */
  lemma {:induction false} RefusalsKeepCredits(t: Tally, steps: seq<Step>, maxConcurrent: nat, residue: nat)
    requires Conserved(t, maxConcurrent, residue) && AllAllowed(t, steps) && OnlyRefuses(steps)
    requires t.released == 0 && t.credit.residual == residue && ToSet(t.credit.credited) == t.everCredited
    ensures var t' := Steps(t, steps);
      && t'.released == 0 && t'.credit.residual == residue
      && ToSet(t'.credit.credited) == t'.everCredited
      && Conserved(t', maxConcurrent, residue)
    decreases |steps|
  {
    if steps != [] {
      StepConserves(t, steps[0], maxConcurrent, residue);
      var t1 := After(t, steps[0]);
      if steps[0].Send? {
        assert ToSet(t1.credit.credited) == t1.everCredited;
      }
      assert OnlyRefuses(steps[1..]);
      RefusalsKeepCredits(t1, steps[1..], maxConcurrent, residue);
    }
  }

  /** A worker that only refuses strands at most `maxConcurrent - residue` tasks, however long the run. */
  lemma RefusalsStrandFew(maxConcurrent: nat, residue: nat, steps: seq<Step>)
    requires residue <= maxConcurrent
    requires AllAllowed(Fresh(maxConcurrent, residue), steps) && OnlyRefuses(steps)
    ensures |Steps(Fresh(maxConcurrent, residue), steps).everCredited| <= maxConcurrent - residue
  {
    var t := Fresh(maxConcurrent, residue);
    RefusalsKeepCredits(t, steps, maxConcurrent, residue);
    DistinctCount(Steps(t, steps).credit.credited);
  }

  // ---------- What closes and what reopens a session ----------

  /** A capacity refusal of a delivery still outstanding. */
  predicate Closes(c: Credit, m: Message) {
    m.AckAtCapacity? && m.task in c.pendingAcks
  }

  /**
   Not only a capacity report: every failure report and every malformed result reopens too, and a result unless it is
   answered as not this worker's or fenced and names no key held here.
   */
  predicate Reopens(c: Credit, m: Message) {
    match m
    case CapacityReport(_, freed) => freed >= 1
    case FailureReport(_, _) => true
    case MalformedResult(_) => true
    case ResultReport(t, answer) => answer !in {NotOwner, NotFound, Fenced} || t in c.credited
    case _ => false
  }

  /** A session is closed after a message exactly when the message closes it, or it was closed and the message does not reopen it. */
  lemma ClosedAfterMessage(c: Credit, m: Message)
    ensures Handle(c, m).saturated <==> Closes(c, m) || (c.saturated && !Reopens(c, m))
  {
  }

  /** No message received along these steps reopens the session. */
  ghost predicate NeverReopened(t: Tally, steps: seq<Step>)
    decreases |steps|
  {
    steps == [] ||
    ((steps[0].Receive? ==> !Reopens(t.credit, steps[0].m)) && NeverReopened(After(t, steps[0]), steps[1..]))
  }

  /**
   A closed session gets no claim until something reopens it, whatever else its worker sends and however passes run; and
   it is still closed then.
   */
  lemma {:induction false} NoClaimAfterRefusal(t: Tally, steps: seq<Step>)
    requires t.credit.saturated && AllAllowed(t, steps) && NeverReopened(t, steps)
    ensures forall i :: 0 <= i < |steps| ==> !steps[i].Plan?
    ensures Steps(t, steps).credit.saturated
    decreases |steps|
  {
    if steps != [] {
      NoClaimAfterRefusal(After(t, steps[0]), steps[1..]);
    }
  }

  /** The converse: a message that reopens a session with room lets the very next pass claim for it. */
  lemma ReopenedMeansClaimable(t: Tally, m: Message)
    requires Distinct(t.credit.credited) && InFlight(t.credit) < t.credit.maxConcurrent && t.planned == 0
    requires Reopens(t.credit, m)
    ensures Allowed(After(t, Receive(m)), Plan(1))
  {
    HandleFreesUnits(t.credit, m);
  }

  /** Refused for lack of capacity, reopened by a failure report about a task it never had, and claimed for again. */
  lemma FailureReopens(a: TaskId, b: TaskId)
    requires a != b
    ensures var t := Fresh(2, 0);
      var steps := [Plan(1), Send(a, true), Receive(AckAtCapacity(a)), Receive(FailureReport(b, NotFound)), Plan(1)];
      && AllAllowed(t, steps)
      && Steps(t, steps[..3]).credit.saturated && !Steps(t, steps).credit.saturated
  {
    var t0 := Fresh(2, 0);
    var steps := [Plan(1), Send(a, true), Receive(AckAtCapacity(a)), Receive(FailureReport(b, NotFound)), Plan(1)];
    var t1 := After(t0, steps[0]);
    var t2 := After(t1, steps[1]);
    var t3 := After(t2, steps[2]);
    var t4 := After(t3, steps[3]);
    var t5 := After(t4, steps[4]);
    assert AllAllowed(t5, []) && Steps(t5, []) == t5 && Steps(t3, []) == t3;
    assert steps[4..][1..] == [] && steps[3..][1..] == steps[4..] && steps[2..][1..] == steps[3..];
    assert AllAllowed(t4, steps[4..]) && Steps(t4, steps[4..]) == t5;
    assert AllAllowed(t3, steps[3..]) && Steps(t3, steps[3..]) == t5;
    assert AllAllowed(t2, steps[2..]) && Steps(t2, steps[2..]) == t5;
    assert steps[1..][1..] == steps[2..];
    assert AllAllowed(t1, steps[1..]) && Steps(t1, steps[1..]) == t5;
    var first := steps[..3];
    assert first[2..][1..] == [] && first[1..][1..] == first[2..];
    assert Steps(t2, first[2..]) == t3;
    assert Steps(t1, first[1..]) == t3;
  }

  // ---------- Several messages at once ----------

  /** A batch of messages, handled in order. */
  function HandleAll(c: Credit, ms: seq<Message>): Credit {
    if ms == [] then c else Handle(HandleAll(c, ms[..|ms| - 1]), ms[|ms| - 1])
  }

  /** Some message closes the session, and none after it reopens it. */
  ghost predicate LeftClosed(c: Credit, ms: seq<Message>) {
    exists i :: 0 <= i < |ms| && ClosedFrom(c, ms, i)
  }

  ghost predicate ClosedFrom(c: Credit, ms: seq<Message>, i: nat)
    requires i < |ms|
  {
    Closes(HandleAll(c, ms[..i]), ms[i]) && forall j :: i < j < |ms| ==> !Reopens(HandleAll(c, ms[..j]), ms[j])
  }

  lemma ClosedFromStep(c: Credit, ms: seq<Message>, front: seq<Message>, i: nat)
    requires ms != [] && front == ms[..|ms| - 1] && i < |front|
    ensures ClosedFrom(c, ms, i) <==> ClosedFrom(c, front, i) && !Reopens(HandleAll(c, front), ms[|front|])
  {
    assert forall j :: 0 <= j <= |front| ==> front[..j] == ms[..j];
    assert front[..|front|] == front;
  }

  lemma LeftClosedStep(c: Credit, ms: seq<Message>)
    requires ms != []
    ensures var front, last := ms[..|ms| - 1], ms[|ms| - 1];
      LeftClosed(c, ms) <==> Closes(HandleAll(c, front), last) || (LeftClosed(c, front) && !Reopens(HandleAll(c, front), last))
  {
    var front := ms[..|ms| - 1];
    forall i | 0 <= i < |front|
      ensures ClosedFrom(c, ms, i) <==> ClosedFrom(c, front, i) && !Reopens(HandleAll(c, front), ms[|front|])
    {
      ClosedFromStep(c, ms, front, i);
    }
    assert ClosedFrom(c, ms, |front|) <==> Closes(HandleAll(c, front), ms[|front|]);
  }

  /** Whatever arrives, no message raises the number in flight. */
  lemma {:induction false} ArrivalsOnlyRelease(c: Credit, ms: seq<Message>)
    requires Distinct(c.credited)
    ensures var c' := HandleAll(c, ms);
      InFlight(c') <= InFlight(c) && Distinct(c'.credited) && c'.maxConcurrent == c.maxConcurrent
  {
    if ms != [] {
      ArrivalsOnlyRelease(c, ms[..|ms| - 1]);
      HandleFreesUnits(HandleAll(c, ms[..|ms| - 1]), ms[|ms| - 1]);
    }
  }

  lemma {:induction false} ClosedAfterArrivals(c: Credit, ms: seq<Message>)
    requires !c.saturated
    ensures HandleAll(c, ms).saturated <==> LeftClosed(c, ms)
  {
    if ms != [] {
      var front, last := ms[..|ms| - 1], ms[|ms| - 1];
      ClosedAfterArrivals(c, front);
      ClosedAfterMessage(HandleAll(c, front), last);
      LeftClosedStep(c, ms);
    }
  }

  /** A session with credit has none left after a batch exactly when the batch leaves it closed. */
  lemma NoCreditLeft(c: Credit, ms: seq<Message>)
    requires Distinct(c.credited) && FreeCredits(c) > 0
    ensures FreeCredits(HandleAll(c, ms)) == 0 <==> LeftClosed(c, ms)
  {
    ArrivalsOnlyRelease(c, ms);
    ClosedAfterArrivals(c, ms);
  }

  /** The first refusal of an outstanding delivery closes the session and keeps its credit consumed. */
  lemma RefusalSaturates(c: Credit, t: TaskId)
    requires t in c.pendingAcks
    ensures Handle(c, AckAtCapacity(t)).saturated
    ensures FreeCredits(Handle(c, AckAtCapacity(t))) == 0
    ensures InFlight(Handle(c, AckAtCapacity(t))) == InFlight(c)
  {
  }
}
