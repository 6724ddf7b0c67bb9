/**
 Which session speaks for a worker: registration at the handshake, and a teardown that runs late.

 Handshakes of one worker are serialised here, each with a larger epoch than the last; teardowns come in any order.
 */
module Registry {
  import opened Basics
  import opened Records
  import opened RowMachine
  import opened Queue
  import opened QueueEngine

  datatype SessionEvent = Open(worker: WorkerId, epoch: nat) | Close(worker: WorkerId, epoch: nat)

  /** The registry after an event: an open overwrites, a close removes only the entry of its own epoch. */
  function After(live: map<WorkerId, nat>, ev: SessionEvent): map<WorkerId, nat> {
    match ev
    case Open(w, e) => live[w := e]
    case Close(w, e) => if w in live && live[w] == e then live - {w} else live
  }

  function Registered(live: map<WorkerId, nat>, evs: seq<SessionEvent>): map<WorkerId, nat> {
    if evs == [] then live else After(Registered(live, evs[..|evs| - 1]), evs[|evs| - 1])
  }

  /** Epochs of one worker grow with each handshake, and only opened sessions are torn down. */
  ghost predicate Serialised(evs: seq<SessionEvent>) {
    && (forall i, j :: 0 <= i < j < |evs| && evs[i].Open? && evs[j].Open? && evs[i].worker == evs[j].worker ==>
      evs[i].epoch < evs[j].epoch)
    && (forall j :: 0 <= j < |evs| && evs[j].Close? ==>
      exists i :: 0 <= i < j && evs[i] == Open(evs[j].worker, evs[j].epoch))
  }

  /** `i` is the worker's latest handshake in the run. */
  ghost predicate Latest(evs: seq<SessionEvent>, w: WorkerId, i: nat) {
    i < |evs| && evs[i].Open? && evs[i].worker == w
    && forall j :: i < j < |evs| && evs[j].Open? ==> evs[j].worker != w
  }

  /** The session opened at `i` was torn down later in the run. */
  ghost predicate TornDown(evs: seq<SessionEvent>, w: WorkerId, epoch: nat, i: nat) {
    exists k :: i < k < |evs| && evs[k] == Close(w, epoch)
  }

  lemma TornDownStep(evs: seq<SessionEvent>, w: WorkerId, epoch: nat, i: nat)
    requires i < |evs| - 1
    ensures TornDown(evs, w, epoch, i) <==>
      TornDown(evs[..|evs| - 1], w, epoch, i) || evs[|evs| - 1] == Close(w, epoch)
  {
    var front := evs[..|evs| - 1];
    if TornDown(front, w, epoch, i) {
      var k :| i < k < |front| && front[k] == Close(w, epoch);
      assert evs[k] == Close(w, epoch);
    }
    if TornDown(evs, w, epoch, i) {
      var k :| i < k < |evs| && evs[k] == Close(w, epoch);
      assert k == |evs| - 1 || front[k] == Close(w, epoch);
    }
  }

  lemma PrefixSerialised(evs: seq<SessionEvent>)
    requires Serialised(evs) && evs != []
    ensures Serialised(evs[..|evs| - 1])
  {
    var front := evs[..|evs| - 1];
    forall j | 0 <= j < |front| && front[j].Close?
      ensures exists i :: 0 <= i < j && front[i] == Open(front[j].worker, front[j].epoch)
    {
      var i :| 0 <= i < j && evs[i] == Open(evs[j].worker, evs[j].epoch);
      assert front[i] == evs[i];
    }
  }

  /**
   The latest handshake always wins: its session is registered until its own teardown and from then on nothing is,
   whenever and however often the teardowns of superseded sessions run.
   */
  lemma {:induction false} LatestSessionWins(evs: seq<SessionEvent>, w: WorkerId, i: nat)
    requires Serialised(evs) && Latest(evs, w, i)
    ensures w in Registered(map[], evs) <==> !TornDown(evs, w, evs[i].epoch, i)
    ensures w in Registered(map[], evs) ==> Registered(map[], evs)[w] == evs[i].epoch
    decreases |evs|
  {
    var n := |evs| - 1;
    if i < n {
      var front := evs[..n];
      PrefixSerialised(evs);
      assert front[i] == evs[i];
      LatestSessionWins(front, w, i);
      TornDownStep(evs, w, evs[i].epoch, i);
      assert evs[n].Open? ==> evs[n].worker != w;
    }
  }

  class SessionRegistry {
    var live: map<WorkerId, nat>

    constructor ()
      ensures live == map[]
    {
      live := map[];
    }

    method Register(worker: WorkerId, epoch: nat)
      modifies this
      ensures live == After(old(live), Open(worker, epoch))
    {
      live := live[worker := epoch];
    }

    /**
     The teardown of one session: it gives up the registration and shortens the worker's leases only if the registry
     still names this very session. A superseded session's teardown changes neither.
     */
    method TearDown(q: TaskQueue, worker: WorkerId, epoch: nat, grace: real, now: Time)
      requires q.Valid()
      modifies this, q
      ensures q.Valid()
      ensures live == After(old(live), Close(worker, epoch))
      ensures q.world ==
        if worker in old(live) && old(live)[worker] == epoch
        then Advance(old(q.world), Touch(map t | t in HeldLive(old(q.tasks), worker) :: Shorten(worker, now, grace)))
        else old(q.world)
    {
      if worker in live && live[worker] == epoch {
        live := live - {worker};
        var _ := q.ShortenWorkerLeases(worker, grace, now);
      }
    }
  }
}
