/**
 What a worker gets by naming a task it never held: the answer of the queue and the credit it frees, together.
 */
module Impostors {
  import opened Basics
  import opened TaskStates
  import opened Records
  import opened RowMachine
  import opened Life
  import opened Answers
  import opened Fencing
  import opened Credits

  /**
   A result naming a task its sender never claimed. On an unfinished or unknown task it changes nothing at all. On a
   finished one the answer is DUPLICATE or SUPERSEDED whoever asks, and the sender's session is settled as if the task
   had been its own: it frees a unit exactly when reconnect residue is left, and it is reopened.
   */
  lemma ImpostorResult(l: Life, results: map<ResultId, Stored>, c: Credit, worker: WorkerId, envelope: Envelope)
    requires LifeInv(l) && !IsHolder(l.claims, worker)
    requires Distinct(c.credited) && envelope.task !in c.credited
    ensures var answer := CompleteAnswer(Some(l.row), l.ledger, results, worker, envelope);
      var c' := Handle(c, ResultReport(envelope.task, answer));
      && (InFlight(c') < InFlight(c) <==> IsTerminal(l.row.status) && c.residual > 0)
      && InFlight(c) - 1 <= InFlight(c')
      && c'.credited == c.credited
      && (c'.saturated <==> c.saturated && !IsTerminal(l.row.status))
      && (!IsTerminal(l.row.status) ==> c' == c)
    ensures Handle(c, ResultReport(envelope.task, CompleteAnswer(None, [], results, worker, envelope))) == c
  {
    CompleteAnswerMeaning(l, results, worker, envelope);
    GuessedTaskFreesResidueOnly(c, envelope.task, CompleteAnswer(Some(l.row), l.ledger, results, worker, envelope));
  }

  /** A failure report naming such a task is refused in every state and frees nothing, but it does reopen the session. */
  lemma ImpostorFailure(l: Life, c: Credit, worker: WorkerId, t: TaskId)
    requires LifeInv(l) && !IsHolder(l.claims, worker)
    requires t !in c.credited
    ensures MarkAnswer(Some(l.row), worker, Failed) == NotOwner
    ensures Handle(c, FailureReport(t, MarkAnswer(Some(l.row), worker, Failed))) == c.(saturated := false)
  {
    if l.row.assignee.Some? {
      assert IsHolder(l.claims, l.claims[l.row.attempt].worker);
    }
  }

  /** A task cancelled before anybody claimed it: a stranger's result for it is SUPERSEDED and frees one unit of residue. */
  lemma CancelledTaskFreesResidue(worker: WorkerId, envelope: Envelope)
    ensures var l := Born(NewTask("sleep", 0, 0.0));
      var l' := Next(l, Cancel(1.0));
      var answer := CompleteAnswer(Some(l'.row), l'.ledger, map[], worker, envelope);
      && LifeInv(l) && Can(l, Cancel(1.0)) && !IsHolder(l'.claims, worker)
      && answer == Superseded
      && InFlight(Handle(Opened(2, 1), ResultReport(envelope.task, answer))) == 0
  {
    BornInv("sleep", 0, 0.0);
  }
}
