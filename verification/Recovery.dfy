/** From an observed socket close to the task being back in the queue, or given up on. */
module Recovery {
  import opened Basics
  import opened TaskStates
  import opened Records
  import opened Policies
  import opened RowMachine
  import opened Life
  import opened Leases
  import opened QueueEngine

  /** This pass takes the task back: requeued or given up on by its attempt count, with nobody holding it. */
  predicate TakenBack(row: Task, row': Task, maxAttempts: int) {
    && row'.attempt == row.attempt + 1
    && row'.status == (if row.attempt + 1 >= maxAttempts then Failed else Queued)
    && row'.assignee.None? && row'.lease.None? && row'.deadline.None?
  }

  /** A batch with room for every candidate takes every candidate. */
  lemma RoomyBatchTakesAll(taken: seq<TaskId>, candidates: set<TaskId>, batch: int)
    requires Distinct(taken) && ToSet(taken) <= candidates && |taken| == Min(batch, |candidates|)
    requires batch >= |candidates|
    ensures ToSet(taken) == candidates
  {
    DistinctCount(taken);
    var left := candidates - ToSet(taken);
    assert candidates == ToSet(taken) + left;
    assert |left| == 0;
  }

  /** A reclaim pass with room in its batch takes back every expired row that no other transaction has locked. */
  lemma RoomyPassRecovers(before: map<TaskId, Task>, after: map<TaskId, Task>, taken: seq<TaskId>, batch: int, s: Settings,
                          now: Time, draws: map<TaskId, real>, locked: set<TaskId>, t: TaskId)
    requires ReclaimPass(before, after, taken, batch, s, now, draws, locked)
    requires t in before && t !in locked && Expired(before[t], now) && batch >= |Reclaimable(before, now, locked)|
    ensures t in taken && t in after && TakenBack(before[t], after[t], MaxAttempts(s, before[t].taskType))
  {
    RoomyBatchTakesAll(taken, Reclaimable(before, now, locked), batch);
    assert t in ToSet(taken);
  }

  /** Every pass at `now` that has room and finds `t` unlocked with this row takes it back. */
  ghost predicate RecoveredAt(t: TaskId, row: Task, now: Time) {
    forall before, after, taken, batch, s, draws, locked ::
      (&& ReclaimPass(before, after, taken, batch, s, now, draws, locked)
       && t in before && before[t] == row && t !in locked && batch >= |Reclaimable(before, now, locked)|)
      ==> t in taken && t in after && TakenBack(row, after[t], MaxAttempts(s, row.taskType))
  }

  /**
   A close observed at `close.now`, and silence after it: at every instant past `close.now + grace`, if the attempt is still
   live, any reclaim pass with room in its batch that finds the row unlocked returns the task to the queue, or ends it if its
   attempts are used up.
   */
  lemma ObservedCloseIsRecovered(l: Life, close: RowEvent, evs: seq<RowEvent>, l': Life, t: TaskId, now: Time)
    requires LifeInv(l) && close.Shorten? && Can(l, close)
    requires Leads(Next(l, close), evs, l') && Silent(evs) && SameAttempt(l, l')
    requires now > close.now + close.grace
    ensures RecoveredAt(t, l'.row, now)
  {
    ObservedCloseExpires(l, close, evs, l', now);
    forall before, after, taken, batch, s, draws, locked |
      && ReclaimPass(before, after, taken, batch, s, now, draws, locked)
      && t in before && before[t] == l'.row && t !in locked && batch >= |Reclaimable(before, now, locked)|
      ensures t in taken && t in after && TakenBack(l'.row, after[t], MaxAttempts(s, l'.row.taskType))
    {
      RoomyPassRecovers(before, after, taken, batch, s, now, draws, locked, t);
    }
  }

  /**
   The recovery bound. With ticks at most `interval` apart there is one within `grace + interval` of the close, the same
   whatever happens after it, that recovers every silent continuation: in every state such a continuation can be in at that
   tick. The same holds of every later tick.
   */
  lemma RecoveredWithin(l: Life, close: RowEvent, ticks: seq<Time>, interval: real, t: TaskId) returns (k: nat)
    requires LifeInv(l) && close.Shorten? && close.grace >= 0.0 && Can(l, close)
    requires TicksCover(ticks, close.now, close.now + close.grace, interval)
    ensures k < |ticks| && close.now + close.grace < ticks[k] <= close.now + close.grace + interval
    ensures forall i, evs, l' ::
      (k <= i < |ticks| && Leads(Next(l, close), evs, l') && Silent(evs) && SameAttempt(l, l'))
      ==> Expired(l'.row, ticks[i]) && RecoveredAt(t, l'.row, ticks[i])
  {
    k := SomeTickFollows(ticks, close.now, close.now + close.grace, interval);
    forall i, evs, l' | k <= i < |ticks| && Leads(Next(l, close), evs, l') && Silent(evs) && SameAttempt(l, l')
      ensures Expired(l'.row, ticks[i]) && RecoveredAt(t, l'.row, ticks[i])
    {
      TicksRise(ticks, k, i, close.now, close.now + close.grace, interval);
      ObservedCloseExpires(l, close, evs, l', ticks[i]);
      ObservedCloseIsRecovered(l, close, evs, l', t, ticks[i]);
    }
  }

  lemma {:induction false} TicksRise(ticks: seq<Time>, k: nat, i: nat, from: Time, until: Time, interval: real)
    requires TicksCover(ticks, from, until, interval) && k <= i < |ticks|
    ensures ticks[k] <= ticks[i]
    decreases i
  {
    if k < i {
      TicksRise(ticks, k, i - 1, from, until, interval);
    }
  }
}
