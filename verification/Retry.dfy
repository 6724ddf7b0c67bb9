/** When a requeued task may be claimed again, and by whom. */
module Retry {
  import opened Basics
  import opened TaskStates
  import opened Records
  import opened Policies
  import opened RowMachine
  import opened Life
  import opened Queue

  /** Eligibility never lapses on an unchanged row. */
  lemma EligibilityIsMonotone(row: Task, worker: WorkerId, now: Time, later: Time, window: real)
    requires Eligible(row, worker, now, window) && now <= later
    ensures Eligible(row, worker, later, window)
  {
  }

  /**
   Exactly when a task requeued by a reclaim may be claimed: everyone but the worker that lost it waits for the
   backoff instant, and that worker waits for the exclusion window on top.
   */
  lemma RequeuedEligibility(l: Life, r: Time, m: int, delay: real, worker: WorkerId, now: Time, window: real)
    requires LifeInv(l) && Can(l, Reclaim(r, m, delay)) && l.row.attempt + 1 < m && window >= 0.0
    ensures var row := Next(l, Reclaim(r, m, delay)).row;
      Eligible(row, worker, now, window) <==>
        now >= r + delay + (if l.row.assignee == Some(worker) then window else 0.0)
  {
  }

  /** No starvation by policy: within `backoffMax + window` of the reclaim every worker is eligible, the excluded one too. */
  lemma EveryoneEventuallyEligible(l: Life, s: Settings, r: Time, m: int, draw: real, worker: WorkerId, now: Time)
    requires LifeInv(l) && Sane(s) && 0.0 <= draw < 1.0 && s.exclusionWindow >= 0.0
    requires Expired(l.row, r) && l.row.attempt + 1 < m
    requires now >= r + s.backoffMax + s.exclusionWindow
    ensures Can(l, Reclaim(r, m, Backoff(s, l.row.attempt, draw)))
    ensures Can(Next(l, Reclaim(r, m, Backoff(s, l.row.attempt, draw))),
                Claim(worker, now, s.ackTimeout, s.executionFallback, s.exclusionWindow))
  {
    var delay := Backoff(s, l.row.attempt, draw);
    BackoffBounds(s, l.row.attempt, draw);
    RequeuedEligibility(l, r, m, delay, worker, now, s.exclusionWindow);
  }

  /** The retry columns travel together: an exclusion never stands without the instant it expires from. */
  lemma ExclusionAlwaysExpires(l: Life, worker: WorkerId, window: real)
    requires LifeInv(l) && l.row.status == Queued
    ensures exists now :: Eligible(l.row, worker, now, window)
  {
    var now := if l.row.notBefore.Some? then l.row.notBefore.value + (if window >= 0.0 then window else 0.0) else 0.0;
    assert Eligible(l.row, worker, now, window);
  }

  /**
   Who carries a retry instant and an exclusion, in every reachable state: exactly the tasks that were taken back at
   least once and have neither completed nor failed. So of the finished ones only a task cancelled after a reclaim keeps
   them.
   */
  lemma WhoKeepsRetryColumns(w: World, t: TaskId)
    requires Reachable(w) && t in w.db.tasks
    ensures var row := w.db.tasks[t];
      && (row.notBefore.Some? <==> row.attempt > 0 && row.status !in {Status.Completed, Failed})
      && (row.excluded.Some? <==> row.notBefore.Some?)
      && (IsTerminal(row.status) ==> (row.notBefore.Some? <==> row.status == Cancelled && row.attempt > 0))
  {
    ReachableLife(w, t);
  }

  /** Claimed, taken back, cancelled: the finished row still names the worker that lost it and when it may be retried. */
  lemma CancelledAfterReclaim(worker: WorkerId) returns (l: Life)
    ensures Leads(Born(NewTask("sleep", 0, 0.0)),
      [Claim(worker, 1.0, 30.0, 60.0, 60.0), Reclaim(40.0, 3, 2.0), Cancel(41.0)], l)
    ensures l.row.status == Cancelled && l.row.excluded == Some(worker) && l.row.notBefore == Some(42.0)
  {
    var l0 := Born(NewTask("sleep", 0, 0.0));
    var evs := [Claim(worker, 1.0, 30.0, 60.0, 60.0), Reclaim(40.0, 3, 2.0), Cancel(41.0)];
    var l1 := Next(l0, evs[0]);
    var l2 := Next(l1, evs[1]);
    l := Next(l2, evs[2]);
    assert evs[1..] == [evs[1], evs[2]] && evs[1..][1..] == [evs[2]] && evs[1..][1..][1..] == [];
    assert Leads(l, [], l);
    assert Leads(l2, [evs[2]], l);
    assert Leads(l1, [evs[1], evs[2]], l);
  }
}
