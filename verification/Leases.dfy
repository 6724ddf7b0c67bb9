/** Leases and deadlines: renewal postpones a reclaim and can never prevent one. */
module Leases {
  import opened Basics
  import opened TaskStates
  import opened Records
  import opened RowMachine
  import opened Life
  import opened Fencing
  import opened Winner

  /** Still the same live attempt: neither finished nor taken back in between. */
  predicate SameAttempt(l: Life, l': Life) {
    IsLive(l.row.status) && IsLive(l'.row.status) && l.row.attempt == l'.row.attempt
  }

  /** A run that ends in the same live attempt never left it. */
  lemma StepStays(l: Life, ev: RowEvent, rest: seq<RowEvent>, l': Life)
    requires LifeInv(l) && Can(l, ev) && Leads(Next(l, ev), rest, l') && SameAttempt(l, l')
    ensures SameAttempt(Next(l, ev), l')
    ensures !ev.Reclaim? && !ev.Fail? && !ev.Complete?
  {
    NextKeepsInv(l, ev);
    HistoryOnlyGrows(Next(l, ev), rest, l');
    if IsTerminal(Next(l, ev).row.status) {
      TerminalIsFrozen(Next(l, ev), rest, l');
    }
  }

  /** A running attempt's deadline, start and holder are fixed, whatever is renewed or shortened meanwhile. */
  lemma {:induction false} DeadlineIsFixed(l: Life, evs: seq<RowEvent>, l': Life)
    requires LifeInv(l) && Leads(l, evs, l')
    requires l.row.status == Running && IsLive(l'.row.status) && l'.row.attempt == l.row.attempt
    ensures l'.row.status == Running
    ensures l'.row.deadline == l.row.deadline && l'.row.startedAt == l.row.startedAt && l'.row.assignee == l.row.assignee
    decreases |evs|
  {
    if evs != [] {
      StepStays(l, evs[0], evs[1..], l');
      NextKeepsInv(l, evs[0]);
      DeadlineIsFixed(Next(l, evs[0]), evs[1..], l');
    }
  }

  /**
   A task started at `s` with execution cap `cap` is reclaimable at every instant past `s + cap` for as
   long as that attempt is live, under any sequence of renewals, reconnects and disconnects.
   */
  lemma RenewalNeverPreventsReclaim(l: Life, worker: WorkerId, s: Time, ttl: real, cap: real,
                                    evs: seq<RowEvent>, l': Life, now: Time, m: int, delay: real)
    requires LifeInv(l) && Can(l, Start(worker, s, ttl, cap))
    requires Leads(Next(l, Start(worker, s, ttl, cap)), evs, l')
    requires IsLive(l'.row.status) && l'.row.attempt == l.row.attempt
    requires now > s + cap && delay >= 0.0
    ensures l'.row.lease.Some? && l'.row.lease.value <= s + cap
    ensures Can(l', Reclaim(now, m, delay))
    ensures ReclaimRecord(l'.row, now, m).reason == DeadlineExceeded
  {
    var started := Next(l, Start(worker, s, ttl, cap));
    NextKeepsInv(l, Start(worker, s, ttl, cap));
    LeadsKeepsInv(started, evs, l');
    DeadlineIsFixed(started, evs, l');
  }

  /** Between claim and start the lease can exceed the deadline only as far as the acknowledgement timeout did. */
  lemma {:induction false} UnstartedLeaseBound(l: Life, evs: seq<RowEvent>, l': Life, bound: Time)
    requires LifeInv(l) && Leads(l, evs, l')
    requires l.row.status == Assigned && l'.row.status == Assigned && l'.row.attempt == l.row.attempt
    requires l.row.lease.value <= bound && l.row.deadline.value <= bound
    ensures l'.row.lease.Some? && l'.row.lease.value <= bound && l'.row.deadline == l.row.deadline
    decreases |evs|
  {
    if evs != [] {
      StepStays(l, evs[0], evs[1..], l');
      NextKeepsInv(l, evs[0]);
      if evs[0].Start? {
        DeadlineIsFixed(Next(l, evs[0]), evs[1..], l');
      } else {
        UnstartedLeaseBound(Next(l, evs[0]), evs[1..], l', bound);
      }
    }
  }

  /** A delivery that is never started is reclaimable past `claimed + max(ackTimeout, cap)`, however often it is renewed. */
  lemma UnstartedIsReclaimable(l: Life, ev: RowEvent, evs: seq<RowEvent>, l': Life, now: Time)
    requires LifeInv(l) && ev.Claim? && Can(l, ev) && Leads(Next(l, ev), evs, l')
    requires l'.row.status == Assigned && l'.row.attempt == l.row.attempt
    requires now > ev.now + ev.ackTimeout && now > ev.now + ev.cap
    ensures Expired(l'.row, now)
  {
    NextKeepsInv(l, ev);
    var bound := if ev.ackTimeout <= ev.cap then ev.now + ev.cap else ev.now + ev.ackTimeout;
    UnstartedLeaseBound(Next(l, ev), evs, l', bound);
  }

  /** At the claim itself, lease <= deadline holds exactly when the type's ack timeout is within its cap. */
  lemma ClaimLeaseWithinDeadline(l: Life, ev: RowEvent)
    requires ev.Claim? && Can(l, ev)
    ensures Next(l, ev).row.lease.value <= Next(l, ev).row.deadline.value <==> ev.ackTimeout <= ev.cap
  {
  }

  /** A policy with a cap shorter than its ack timeout: the delivered row's lease outlives its deadline. */
  lemma LeaseCanOutliveDeadline()
    ensures var l := Born(NewTask("sleep", 0, 0.0));
      var ev := Claim(WorkerId(1), 1.0, 30.0, 5.0, 60.0);
      && LifeInv(l) && Can(l, ev)
      && Next(l, ev).row.lease == Some(31.0) && Next(l, ev).row.deadline == Some(6.0)
  {
    BornInv("sleep", 0, 0.0);
  }

  // ---------- A socket close accelerates, and only accelerates ----------

  /** Shortening never extends a lease, and a second close observed later changes nothing. */
  lemma ShortenNeverExtends(row: Task, ev: RowEvent, again: RowEvent)
    requires ev.Shorten? && again.Shorten? && row.lease.Some?
    requires again.now >= ev.now && again.grace == ev.grace
    ensures RowAfter(row, ev).lease.value <= row.lease.value
    ensures RowAfter(row, ev).lease.value <= ev.now + ev.grace
    ensures RowAfter(RowAfter(row, ev), again).lease == RowAfter(row, ev).lease
  {
  }

  /** Nothing in the run counts as hearing from the worker again. */
  ghost predicate Silent(evs: seq<RowEvent>) {
    forall i :: 0 <= i < |evs| ==> !evs[i].Renew? && !evs[i].Start?
  }

  lemma {:induction false} SilenceKeepsLease(l: Life, evs: seq<RowEvent>, l': Life)
    requires LifeInv(l) && Leads(l, evs, l') && Silent(evs) && SameAttempt(l, l')
    ensures l.row.lease.Some? && l'.row.lease.Some? && l'.row.lease.value <= l.row.lease.value
    decreases |evs|
  {
    if evs != [] {
      StepStays(l, evs[0], evs[1..], l');
      NextKeepsInv(l, evs[0]);
      assert Silent(evs[1..]);
      SilenceKeepsLease(Next(l, evs[0]), evs[1..], l');
    }
  }

  /** Reclaimer ticks no further than `interval` apart, the first not after `from`, reaching past `until`. */
  ghost predicate TicksCover(ticks: seq<Time>, from: Time, until: Time, interval: real) {
    && |ticks| > 0
    && ticks[0] <= from
    && ticks[|ticks| - 1] > until
    && forall i :: 0 < i < |ticks| ==> ticks[i - 1] <= ticks[i] <= ticks[i - 1] + interval
  }

  lemma {:induction false} SomeTickFollows(ticks: seq<Time>, from: Time, until: Time, interval: real) returns (k: nat)
    requires TicksCover(ticks, from, until, interval) && from <= until
    ensures k < |ticks| && until < ticks[k] <= until + interval
  {
    k := 1;
    while ticks[k] <= until
      invariant 1 <= k < |ticks| && ticks[k - 1] <= until
      decreases |ticks| - k
    {
      k := k + 1;
    }
  }

  /**
   A close observed at `close.now`, and silence after it: at every instant past `close.now + grace` at which the same
   attempt is still live, it is expired.
   */
  lemma ObservedCloseExpires(l: Life, close: RowEvent, evs: seq<RowEvent>, l': Life, now: Time)
    requires LifeInv(l) && close.Shorten? && Can(l, close)
    requires Leads(Next(l, close), evs, l') && Silent(evs) && SameAttempt(l, l')
    requires now > close.now + close.grace
    ensures Expired(l'.row, now)
  {
    NextKeepsInv(l, close);
    LeadsKeepsInv(Next(l, close), evs, l');
    SilenceKeepsLease(Next(l, close), evs, l');
  }
}
