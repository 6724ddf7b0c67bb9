/**
 Lazy renewal: a message about a task writes a lease only when the task is due, and due again only after an
 interval. How far that lets the lease lag, and when it is still safe.
 */
module Renewal {
  import opened Basics
  import opened TaskStates
  import opened Records
  import opened RowMachine
  import opened Life

  /** `_lease_due`: an unknown task is always due. */
  predicate LeaseDue(due: Option<Time>, clock: Time) {
    due.None? || clock >= due.value
  }

  /** One task as a session sees it: its row, and when its lease is next worth writing. */
  datatype Watch = Watch(row: Task, due: Option<Time>)

  /** A message at `t` under lazy renewal. `interval` is the TTL times the renewal fraction. */
  function OnMessage(w: Watch, worker: WorkerId, t: Time, ttl: real, interval: real): Watch {
    if LeaseDue(w.due, t) then Watch(RowAfter(w.row, Renew(worker, t, ttl)), Some(t + interval)) else w
  }

  /** The watch after a whole sequence of message times. */
  function Watched(w: Watch, worker: WorkerId, times: seq<Time>, ttl: real, interval: real): Watch {
    if times == [] then w
    else OnMessage(Watched(w, worker, times[..|times| - 1], ttl, interval), worker, times[|times| - 1], ttl, interval)
  }

  /** The watch after the same messages when every one of them renews: always due. */
  function Eager(w: Watch, worker: WorkerId, times: seq<Time>, ttl: real): Watch {
    Watched(w.(due := None), worker, times, ttl, 0.0)
  }

  /** A running row just started at `start`, its first lease `first` long, and the due-clock set from the start. */
  ghost predicate JustStarted(w: Watch, start: Time, first: real, interval: real) {
    && w.row.status == Running
    && w.row.deadline.Some?
    && w.row.lease == Some(Least(start + first, w.row.deadline.value))
    && w.due == Some(start + interval)
  }

  ghost predicate Increasing(start: Time, times: seq<Time>) {
    && (forall i :: 0 <= i < |times| ==> start <= times[i])
    && forall i, j :: 0 <= i < j < |times| ==> times[i] <= times[j]
  }

  /** The last write behind a watch: at `start` for `first` seconds, or at a message for a full TTL. */
  ghost predicate WrittenAt(w: Watch, since: Time, span: real, deadline: Time, interval: real) {
    && w.row.status == Running
    && w.row.deadline == Some(deadline)
    && w.row.lease == Some(Least(since + span, deadline))
    && w.due == Some(since + interval)
  }

  /** Whatever the messages, the lease in force was written by the start or by one of them. */
  lemma {:induction false} LastWrite(w: Watch, worker: WorkerId, start: Time, first: real, times: seq<Time>, ttl: real, interval: real)
    returns (since: Time, span: real)
    requires JustStarted(w, start, first, interval) && Increasing(start, times)
    ensures WrittenAt(Watched(w, worker, times, ttl, interval), since, span, w.row.deadline.value, interval)
    ensures (since == start && span == first) || span == ttl
    ensures start <= since && (|times| > 0 ==> since <= times[|times| - 1])
    ensures |times| > 0 ==> times[|times| - 1] < since + interval || since == times[|times| - 1]
  {
    since, span := start, first;
    if times != [] {
      var n := |times| - 1;
      since, span := LastWrite(w, worker, start, first, times[..n], ttl, interval);
      if LeaseDue(Watched(w, worker, times[..n], ttl, interval).due, times[n]) {
        since, span := times[n], ttl;
      }
    }
  }

  /** Eager renewal leaves the target of its last message in force, whatever came before. */
  lemma {:induction false} EagerLease(w: Watch, worker: WorkerId, times: seq<Time>, ttl: real)
    requires |times| > 0 && forall i, j :: 0 <= i < j < |times| ==> times[i] <= times[j]
    ensures Eager(w, worker, times, ttl).row.deadline == w.row.deadline
    ensures Eager(w, worker, times, ttl).row.lease == Some(RenewalTarget(w.row, times[|times| - 1], ttl))
    ensures Eager(w, worker, times, ttl).due == Some(times[|times| - 1])
  {
    var front := times[..|times| - 1];
    if front == [] {
      assert Watched(w.(due := None), worker, front, ttl, 0.0) == w.(due := None);
    } else {
      EagerLease(w, worker, front, ttl);
    }
  }

  /** The lag of the lazy lease behind the eager one is at most the interval, plus what the first lease fell short of the TTL. */
  lemma LazyLagBound(w: Watch, worker: WorkerId, start: Time, first: real, times: seq<Time>, ttl: real, interval: real)
    requires JustStarted(w, start, first, interval) && Increasing(start, times) && |times| > 0
    requires interval >= 0.0
    ensures var lazy, eager := Watched(w, worker, times, ttl, interval).row, Eager(w, worker, times, ttl).row;
      && lazy.lease.Some? && eager.lease.Some?
      && eager.lease.value - lazy.lease.value <= interval + (if first < ttl then ttl - first else 0.0)
  {
    EagerLease(w, worker, times, ttl);
    var since, span := LastWrite(w, worker, start, first, times, ttl, interval);
  }

  /**
   When lazy renewal stays within one interval of eager renewal, whatever messages come: exactly when the first lease is at
   least a full TTL, or the deadline cuts the lease off before the difference can show, or every message renews anyway.
   A per-type lease shorter than the global TTL breaks it for every type with room before its deadline.
   */
  lemma LazyRefinesEager(w: Watch, worker: WorkerId, start: Time, first: real, ttl: real, interval: real)
    requires JustStarted(w, start, first, interval) && interval >= 0.0
    ensures first >= ttl || w.row.deadline.value <= start + first + interval || interval == 0.0 <==>
      forall times: seq<Time> :: |times| > 0 && Increasing(start, times) ==> WithinInterval(w, worker, times, ttl, interval)
  {
    if first >= ttl || w.row.deadline.value <= start + first + interval || interval == 0.0 {
      forall times: seq<Time> | |times| > 0 && Increasing(start, times)
        ensures WithinInterval(w, worker, times, ttl, interval)
      {
        EagerLease(w, worker, times, ttl);
        var since, span := LastWrite(w, worker, start, first, times, ttl, interval);
      }
    } else {
      LagShows(w, worker, start, first, ttl, interval);
    }
  }

  /** One message just before the first renewal is due shows the whole shortfall of the first lease. */
  lemma LagShows(w: Watch, worker: WorkerId, start: Time, first: real, ttl: real, interval: real)
    requires JustStarted(w, start, first, interval) && interval > 0.0
    requires first < ttl && w.row.deadline.value > start + first + interval
    ensures exists times: seq<Time> ::
      |times| > 0 && Increasing(start, times) && !WithinInterval(w, worker, times, ttl, interval)
  {
    var gap := if ttl - first < interval then ttl - first else interval;
    var times := [start + interval - gap / 2.0];
    assert times[..0] == [];
    assert Watched(w, worker, [], ttl, interval) == w;
    assert Watched(w, worker, times, ttl, interval) == w;
    EagerLease(w, worker, times, ttl);
    assert Increasing(start, times) && !WithinInterval(w, worker, times, ttl, interval);
  }

  ghost predicate WithinInterval(w: Watch, worker: WorkerId, times: seq<Time>, ttl: real, interval: real) {
    var lazy, eager := Watched(w, worker, times, ttl, interval).row, Eager(w, worker, times, ttl).row;
    lazy.lease.Some? && eager.lease.Some? && eager.lease.value <= lazy.lease.value + interval
  }

  /** Messages no further than `gap` apart, from the start to beyond `now`. */
  ghost predicate GapsWithin(start: Time, times: seq<Time>, gap: real) {
    && (|times| > 0 ==> times[0] <= start + gap)
    && forall i :: 0 < i < |times| ==> times[i] <= times[i - 1] + gap
  }

  /**
   A worker heard from at least every `gap` seconds keeps its task until the deadline, provided the interval plus the
   gap fits in both the first lease and the TTL: at no instant before the next message is the row reclaimable,
   unless its deadline has passed.
   */
  lemma HeardFromMeansKept(w: Watch, worker: WorkerId, start: Time, first: real, times: seq<Time>, ttl: real, interval: real,
                           gap: real, now: Time)
    requires JustStarted(w, start, first, interval) && Increasing(start, times) && GapsWithin(start, times, gap)
    requires interval >= 0.0 && gap >= 0.0 && interval + gap <= first && interval + gap <= ttl
    requires now <= (if |times| == 0 then start else times[|times| - 1]) + gap
    ensures Expired(Watched(w, worker, times, ttl, interval).row, now) ==> now > w.row.deadline.value
  {
    var since, span := LastWrite(w, worker, start, first, times, ttl, interval);
  }

  // ---------- Among everything else that happens to the task ----------

  /** A message of the session about its task, or any other statement on it, by anybody, in between. */
  datatype Beat = Heard(at: Time) | Meanwhile(ev: RowEvent)

  datatype Held = Held(life: Life, due: Option<Time>)

  /** A due message renews if the row is still the worker's; refused or not, it counts as renewed here. */
  function BeatAfter(h: Held, worker: WorkerId, b: Beat, ttl: real, interval: real): Held {
    match b
    case Meanwhile(ev) => Held(Next(h.life, ev), h.due)
    case Heard(t) =>
      if !LeaseDue(h.due, t) then h
      else if Can(h.life, Renew(worker, t, ttl)) then Held(Next(h.life, Renew(worker, t, ttl)), Some(t + interval))
      else Held(h.life, Some(t + interval))
  }

  function BeatTime(b: Beat): Option<Time> {
    if b.Heard? then Some(b.at) else EventTime(b.ev)
  }

  /**
   The worker is heard from at least every `gap` seconds and no close of its socket is observed. Time does not go back
   from `now`, the last message came at `heard`, and every statement in between is one the engine permits.
   */
  ghost predicate InTouch(h: Held, worker: WorkerId, beats: seq<Beat>, ttl: real, interval: real, gap: real, heard: Time, now: Time)
    decreases |beats|
  {
    beats == [] ||
    var b := beats[0];
    var at := if BeatTime(b).Some? then BeatTime(b).value else now;
    && now <= at <= heard + gap
    && (b.Meanwhile? ==> Can(h.life, b.ev) && !b.ev.Shorten? && (b.ev.Renew? ==> b.ev.ttl == ttl))
    && InTouch(BeatAfter(h, worker, b, ttl, interval), worker, beats[1..], ttl, interval, gap, if b.Heard? then b.at else heard, at)
  }

  /** The attempt is over, or its lease outlasts the next message unless the deadline comes first. */
  predicate Kept(h: Held, worker: WorkerId, interval: real, gap: real, heard: Time, now: Time, deadline: Time) {
    IsTerminal(h.life.row.status) ||
    (&& h.life.row.status == Running && Holds(h.life.row, worker) && h.life.row.deadline == Some(deadline)
     && h.due.Some? && heard <= h.due.value <= now + interval
     && h.life.row.lease.Some? && Least(h.due.value + gap, deadline) <= h.life.row.lease.value)
  }

  lemma BeatKeeps(h: Held, worker: WorkerId, b: Beat, ttl: real, interval: real, gap: real, heard: Time, now: Time, at: Time,
                  deadline: Time)
    requires Kept(h, worker, interval, gap, heard, now, deadline)
    requires interval >= 0.0 && gap >= 0.0 && interval + gap <= ttl
    requires at == (if BeatTime(b).Some? then BeatTime(b).value else now) && now <= at <= heard + gap
    requires b.Meanwhile? ==> Can(h.life, b.ev) && !b.ev.Shorten? && (b.ev.Renew? ==> b.ev.ttl == ttl)
    ensures b.Meanwhile? && b.ev.Reclaim? ==> at > deadline
    ensures at > deadline ||
      Kept(BeatAfter(h, worker, b, ttl, interval), worker, interval, gap, if b.Heard? then b.at else heard, at, deadline)
  {
  }

  lemma {:induction false} TouchKeeps(h: Held, worker: WorkerId, beats: seq<Beat>, ttl: real, interval: real, gap: real,
                                      heard: Time, now: Time, deadline: Time)
    requires InTouch(h, worker, beats, ttl, interval, gap, heard, now)
    requires now > deadline || Kept(h, worker, interval, gap, heard, now, deadline)
    requires interval >= 0.0 && gap >= 0.0 && interval + gap <= ttl
    ensures forall i :: 0 <= i < |beats| && beats[i].Meanwhile? && beats[i].ev.Reclaim? ==> beats[i].ev.now > deadline
    decreases |beats|
  {
    if beats != [] {
      var b := beats[0];
      var at := if BeatTime(b).Some? then BeatTime(b).value else now;
      if now <= deadline {
        BeatKeeps(h, worker, b, ttl, interval, gap, heard, now, at, deadline);
      }
      TouchKeeps(BeatAfter(h, worker, b, ttl, interval), worker, beats[1..], ttl, interval, gap, if b.Heard? then b.at else heard,
                 at, deadline);
      assert forall i :: 0 < i < |beats| ==> beats[i] == beats[1..][i - 1];
    }
  }

  /**
   A worker heard from at least every `gap` seconds keeps its task: in no run, whatever submissions, fences, renewals and
   reclaim passes come between its messages, does a reclaim take the attempt at or before its deadline. The interval plus
   the gap must fit in both the first lease and the TTL.
   */
  lemma NoReclaimWhileHeard(l: Life, worker: WorkerId, start: Time, first: real, beats: seq<Beat>, ttl: real, interval: real, gap: real)
    requires JustStarted(Watch(l.row, Some(start + interval)), start, first, interval) && Holds(l.row, worker)
    requires InTouch(Held(l, Some(start + interval)), worker, beats, ttl, interval, gap, start, start)
    requires interval >= 0.0 && gap >= 0.0 && interval + gap <= first && interval + gap <= ttl
    ensures forall i :: 0 <= i < |beats| && beats[i].Meanwhile? && beats[i].ev.Reclaim? ==>
      beats[i].ev.now > l.row.deadline.value
  {
    TouchKeeps(Held(l, Some(start + interval)), worker, beats, ttl, interval, gap, start, start, l.row.deadline.value);
  }

  /** The shipped numbers with a per-type lease of 10 s: a worker reporting every 5 s loses its task after 10 s. */
  lemma ShortTypeLeaseLosesTask(row: Task, worker: WorkerId)
    requires row.status == Running && row.deadline == Some(300.0) && row.lease == Some(10.0)
    ensures Expired(Watched(Watch(row, Some(30.0)), worker, [5.0, 10.0], 60.0, 30.0).row, 11.0)
  {
    var w := Watch(row, Some(30.0));
    assert [5.0, 10.0][..1] == [5.0] && [5.0][..0] == [];
    assert Watched(w, worker, [], 60.0, 30.0) == w;
    assert Watched(w, worker, [5.0], 60.0, 30.0) == w;
  }
}
