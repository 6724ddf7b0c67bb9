/** The task state machine: which status writes are legal, and which states are final. */
module TaskStates {

  datatype Status = Queued | Assigned | Running | Completed | Failed | Cancelled | Reassigned

  /** What `check_transition` tells its caller: write, skip a same-state move, or refuse. */
  datatype Verdict = Write | Noop | Forbidden

  function Allowed(s: Status): set<Status> {
    match s
    case Queued => {Assigned, Cancelled}
    case Assigned => {Running, Failed, Cancelled, Queued}
    case Running => {Status.Completed, Failed, Cancelled, Queued}
    case _ => {}
  }

  predicate IsTerminal(s: Status) {
    s in {Status.Completed, Failed, Cancelled}
  }

  predicate IsLive(s: Status) {
    s in {Assigned, Running}
  }

  function CheckTransition(current: Status, next: Status): Verdict {
    if current == next then Noop
    else if next in Allowed(current) then Write
    else Forbidden
  }

  /** Every consecutive pair of statuses is a legal move or a same-state report. */
  ghost predicate LegalPath(path: seq<Status>) {
    forall i :: 0 < i < |path| ==> CheckTransition(path[i - 1], path[i]) != Forbidden
  }

  /** Along any legal path a terminal status is absorbing, and `Reassigned` is reached only from itself. */
  lemma {:induction false} PathsEndInTerminalStates(path: seq<Status>, i: nat, j: nat)
    requires LegalPath(path)
    requires i <= j < |path|
    ensures IsTerminal(path[i]) ==> path[j] == path[i]
    ensures path[j] == Reassigned ==> path[i] == Reassigned
    decreases j - i
  {
    if i < j {
      PathsEndInTerminalStates(path, i, j - 1);
      assert CheckTransition(path[j - 1], path[j]) != Forbidden;
    }
  }

  /** `Completed` is only ever entered from `Running`: a task cannot complete without having run. */
  lemma {:induction false} CompletionPassesThroughRunning(path: seq<Status>)
    requires LegalPath(path)
    requires |path| > 0 && path[0] != Status.Completed && path[|path| - 1] == Status.Completed
    ensures exists k :: 0 <= k < |path| - 1 && path[k] == Running && path[k + 1] == Status.Completed
  {
    var n := |path| - 1;
    assert CheckTransition(path[n - 1], path[n]) != Forbidden;
    if path[n - 1] == Status.Completed {
      CompletionPassesThroughRunning(path[..n]);
      var k :| 0 <= k < n - 1 && path[..n][k] == Running && path[..n][k + 1] == Status.Completed;
      assert path[k] == Running && path[k + 1] == Status.Completed;
    } else {
      assert path[n - 1] == Running;
    }
  }
}
