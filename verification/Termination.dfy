/** Every task stops: with its type's attempt cap fixed at M, at most 3M status changes, ever. */
module Termination {
  import opened Basics
  import opened TaskStates
  import opened Records
  import opened RowMachine
  import opened Life

  /** Every reclaim of the run resolves the type's cap to `m`. */
  ghost predicate CapFixed(evs: seq<RowEvent>, m: int) {
    forall i :: 0 <= i < |evs| && evs[i].Reclaim? ==> evs[i].maxAttempts == m
  }

  /** A live task still has an attempt left; a task the reclaimer gave up on has used exactly `m`. */
  predicate Bounded(row: Task, m: int) {
    && (!IsTerminal(row.status) ==> row.attempt < m)
    && row.attempt <= m
    && (row.status == Failed && row.assignee.None? ==> row.attempt == m)
  }

  function StageRank(s: Status): int {
    match s
    case Queued => 2
    case Assigned => 1
    case _ => 0
  }

  /** Lexicographic (m - attempt, stage) flattened: each attempt is worth three moves. */
  function Measure(row: Task, m: int): int {
    if IsTerminal(row.status) then 0 else 3 * (m - row.attempt - 1) + StageRank(row.status) + 1
  }

  function StatusChanges(l: Life, evs: seq<RowEvent>): nat
    decreases |evs|
  {
    if evs == [] then 0
    else (if Next(l, evs[0]).row.status == l.row.status then 0 else 1) + StatusChanges(Next(l, evs[0]), evs[1..])
  }

  /** Attempts taken back by the reclaimer along a run. */
  function Reclaimed(evs: seq<RowEvent>): nat {
    if evs == [] then 0 else (if evs[0].Reclaim? then 1 else 0) + Reclaimed(evs[1..])
  }

  lemma StepDescends(l: Life, ev: RowEvent, m: int)
    requires LifeInv(l) && Can(l, ev) && Bounded(l.row, m)
    requires ev.Reclaim? ==> ev.maxAttempts == m
    ensures Bounded(Next(l, ev).row, m)
    ensures 0 <= Measure(Next(l, ev).row, m) <= Measure(l.row, m)
    ensures Next(l, ev).row.status != l.row.status ==> Measure(Next(l, ev).row, m) < Measure(l.row, m)
  {
  }

  lemma StepCounts(l: Life, ev: RowEvent)
    ensures Next(l, ev).row.attempt == l.row.attempt + if ev.Reclaim? then 1 else 0
  {
  }

  /** The measure pays for every status change of a run. */
  lemma {:induction false} ChangesArePaidFor(l: Life, evs: seq<RowEvent>, l': Life, m: int)
    requires LifeInv(l) && Leads(l, evs, l') && CapFixed(evs, m) && Bounded(l.row, m)
    ensures Bounded(l'.row, m)
    ensures StatusChanges(l, evs) + Measure(l'.row, m) <= Measure(l.row, m)
    ensures l'.row.attempt == l.row.attempt + Reclaimed(evs)
    decreases |evs|
  {
    if evs != [] {
      NextKeepsInv(l, evs[0]);
      StepDescends(l, evs[0], m);
      StepCounts(l, evs[0]);
      ChangesArePaidFor(Next(l, evs[0]), evs[1..], l', m);
    }
  }

  /**
   From birth: at most 3M status changes and M reclaims over any run, exhaustion at exactly M, and the attempt
   number counts the reclaims.
   */
  lemma EveryTaskStops(taskType: string, priority: int, born: Time, evs: seq<RowEvent>, l: Life, m: int)
    requires m >= 1
    requires Leads(Born(NewTask(taskType, priority, born)), evs, l) && CapFixed(evs, m)
    ensures StatusChanges(Born(NewTask(taskType, priority, born)), evs) <= 3 * m
    ensures l.row.attempt == Reclaimed(evs) <= m
    ensures !IsTerminal(l.row.status) ==> l.row.attempt < m
    ensures l.row.status == Failed && l.row.assignee.None? ==> l.row.attempt == m
  {
    BornInv(taskType, priority, born);
    ChangesArePaidFor(Born(NewTask(taskType, priority, born)), evs, l, m);
    assert Measure(l.row, m) >= 0 by {
      LeadsKeepsInv(Born(NewTask(taskType, priority, born)), evs, l);
    }
  }

  // ---------- The bound is tight ----------

  /** One attempt that is claimed, started, and lost. */
  function LostAttempt(worker: WorkerId, at: Time, m: int): seq<RowEvent> {
    [Claim(worker, at, 0.0, 0.0, 0.0), Start(worker, at, 0.0, 0.0), Reclaim(at + 1.0, m, 0.0)]
  }

  lemma LostAttemptRuns(l: Life, worker: WorkerId, at: Time, m: int)
    requires LifeInv(l) && Eligible(l.row, worker, at, 0.0)
    ensures var evs := LostAttempt(worker, at, m);
      var l' := Next(Next(Next(l, evs[0]), evs[1]), evs[2]);
      && Leads(l, evs, l')
      && StatusChanges(l, evs) == 3
      && l'.row.attempt == l.row.attempt + 1
      && (l.row.attempt + 1 < m ==> Eligible(l'.row, worker, at + 1.0, 0.0))
  {
    var evs := LostAttempt(worker, at, m);
    var l1 := Next(l, evs[0]);
    var l2 := Next(l1, evs[1]);
    var l3 := Next(l2, evs[2]);
    assert evs[1..] == [evs[1], evs[2]] && evs[1..][1..] == [evs[2]] && evs[1..][1..][1..] == [];
    assert Leads(l3, [], l3);
    assert Leads(l2, [evs[2]], l3);
    assert StatusChanges(l3, []) == 0;
    assert StatusChanges(l2, [evs[2]]) == 1;
    assert StatusChanges(l1, [evs[1], evs[2]]) == 2;
  }

  lemma ChangesAfter(l: Life, ev: RowEvent, evs: seq<RowEvent>)
    ensures StatusChanges(l, [ev] + evs)
      == (if Next(l, ev).row.status == l.row.status then 0 else 1) + StatusChanges(Next(l, ev), evs)
  {
    assert ([ev] + evs)[1..] == evs;
  }

  lemma {:induction false} ChangesAppend(l: Life, evs: seq<RowEvent>, l': Life, more: seq<RowEvent>)
    requires Leads(l, evs, l')
    ensures StatusChanges(l, evs + more) == StatusChanges(l, evs) + StatusChanges(l', more)
    decreases |evs|
  {
    ConsAppend(evs, more);
    if evs != [] {
      ChangesAppend(Next(l, evs[0]), evs[1..], l', more);
      ChangesAfter(l, evs[0], evs[1..] + more);
    }
  }

  /** Losing every attempt uses the whole budget: a run of exactly three changes per remaining attempt exists. */
  lemma {:induction false} BoundIsReached(l: Life, worker: WorkerId, at: Time, m: int) returns (evs: seq<RowEvent>, l': Life)
    requires LifeInv(l) && Eligible(l.row, worker, at, 0.0) && l.row.attempt < m
    ensures Leads(l, evs, l') && CapFixed(evs, m)
    ensures StatusChanges(l, evs) == 3 * (m - l.row.attempt)
    decreases m - l.row.attempt
  {
    var first := LostAttempt(worker, at, m);
    LostAttemptRuns(l, worker, at, m);
    var next := Next(Next(Next(l, first[0]), first[1]), first[2]);
    if l.row.attempt + 1 == m {
      evs, l' := first, next;
    } else {
      LeadsKeepsInv(l, first, next);
      var rest;
      rest, l' := BoundIsReached(next, worker, at + 1.0, m);
      evs := first + rest;
      LeadsAppend(l, first, next, rest, l');
      ChangesAppend(l, first, next, rest);
    }
  }
}
