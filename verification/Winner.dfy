/** One winner per task, nothing lost and nothing stored twice. */
module Winner {
  import opened Basics
  import opened TaskStates
  import opened Records
  import opened RowMachine
  import opened Life
  import opened Answers
  import opened Queue

  /** A terminal row never changes again, except that a purge may clear its result pointer. */
  lemma {:induction false} TerminalIsFrozen(l: Life, evs: seq<RowEvent>, l': Life)
    requires LifeInv(l) && Leads(l, evs, l') && IsTerminal(l.row.status)
    ensures l'.row == l.row || l'.row == l.row.(resultId := None)
    ensures l'.ledger == l.ledger && l'.claims == l.claims && l'.accepted == l.accepted
    ensures l.row.resultId.None? ==> evs == []
    decreases |evs|
  {
    if evs != [] {
      assert evs[0] == DropResult;
      NextKeepsInv(l, evs[0]);
      TerminalIsFrozen(Next(l, evs[0]), evs[1..], l');
    }
  }

  /**
   Over any run from empty tables a task is completed at most once. The winner held the task, named the
   attempt the row still carries, and its submission is what is stored until it is purged.
   */
  lemma SingleWinner(w: World, t: TaskId)
    requires Reachable(w) && t in w.db.tasks
    ensures |w.accepted[t]| <= 1
    ensures w.db.tasks[t].status == Status.Completed <==> |w.accepted[t]| == 1
    ensures |w.accepted[t]| == 1 ==>
      var win := w.accepted[t][0];
      && win.envelope.attempt == Some(w.db.tasks[t].attempt)
      && |w.claims[t]| == w.db.tasks[t].attempt + 1
      && w.claims[t][w.db.tasks[t].attempt].worker == win.worker
      && (w.db.tasks[t].resultId.Some? ==>
           && w.db.tasks[t].resultId.value in w.db.results
           && w.db.results[w.db.tasks[t].resultId.value].envelope == win.envelope)
  {
    ReachableWorldsAreGood(w);
    GoodLife(w, t);
  }

  /** The winner of a completed task never changes in any later world. */
  lemma WinnerIsFinal(w: World, cs: seq<Change>, w': World, t: TaskId)
    requires WorldInv(w) && Runs(w, cs, w') && t in w.db.tasks && |w.accepted[t]| == 1
    ensures t in w'.db.tasks && w'.accepted[t] == w.accepted[t] && w'.claims[t] == w.claims[t]
    ensures w'.db.tasks[t].resultId in {w.db.tasks[t].resultId, None}
  {
    GoodLife(w, t);
    RunsProject(w, cs, w', t);
    TerminalIsFrozen(LifeOf(w, t), Trace(w, cs, t), LifeOf(w', t));
  }

  function Pointers(db: Db): set<ResultId> {
    set t | t in db.tasks && db.tasks[t].resultId.Some? :: db.tasks[t].resultId.value
  }

  /** Bodies and pointers correspond one to one: every stored result is some task's, and no two tasks share one. */
  lemma ResultsMatchPointers(w: World)
    requires Reachable(w)
    ensures Pointers(w.db) == w.db.results.Keys
    ensures forall t, u ::
      (t in w.db.tasks && u in w.db.tasks && w.db.tasks[t].resultId.Some?
       && w.db.tasks[t].resultId == w.db.tasks[u].resultId) ==> t == u
  {
    ReachableWorldsAreGood(w);
    PointersOfResults(w);
  }

  lemma PointersOfResults(w: World)
    requires Aligned(w) && ResultsInv(w)
    ensures Pointers(w.db) == w.db.results.Keys
    ensures forall t, u ::
      (t in w.db.tasks && u in w.db.tasks && w.db.tasks[t].resultId.Some?
       && w.db.tasks[t].resultId == w.db.tasks[u].resultId) ==> t == u
  {
    forall r | r in w.db.results ensures r in Pointers(w.db) {
      var t := w.db.results[r].envelope.task;
      assert t in w.db.tasks && w.db.tasks[t].resultId == Some(r);
    }
  }

  /** A stored envelope carries the attempt number its task ended on. */
  lemma StoredAttemptIsCurrent(w: World, r: ResultId)
    requires WorldInv(w) && r in w.db.results
    ensures w.db.results[r].envelope.task in w.db.tasks
    ensures w.db.results[r].envelope.attempt == Some(w.db.tasks[w.db.results[r].envelope.task].attempt)
  {
    GoodLife(w, w.db.results[r].envelope.task);
  }

  /**
   A submission for a finished task is DUPLICATE exactly when the winning body is still stored and carries the
   same token; otherwise it is SUPERSEDED. Either way it is never accepted.
   */
  lemma LateSubmission(w: World, t: TaskId, worker: WorkerId, envelope: Envelope)
    requires WorldInv(w) && t in w.db.tasks && IsTerminal(w.db.tasks[t].status)
    ensures var answer := CompleteAnswer(Some(w.db.tasks[t]), w.db.attempts[t], w.db.results, worker, envelope);
      && answer in {Duplicate, Superseded}
      && (answer == Duplicate <==>
           && w.db.tasks[t].resultId.Some?
           && envelope.token.Some?
           && envelope.token == w.accepted[t][0].envelope.token)
  {
    GoodLife(w, t);
    LateAnswer(LifeOf(w, t), w.db.results, worker, envelope);
  }

  /** The same, from what one task's life says and from the body its pointer leads to. */
  lemma LateAnswer(l: Life, results: map<ResultId, Stored>, worker: WorkerId, envelope: Envelope)
    requires LifeInv(l) && IsTerminal(l.row.status)
    requires l.row.resultId.Some? ==>
      l.row.resultId.value in results && l.accepted != []
      && results[l.row.resultId.value].envelope == l.accepted[0].envelope
    ensures var answer := CompleteAnswer(Some(l.row), l.ledger, results, worker, envelope);
      && answer in {Duplicate, Superseded}
      && (answer == Duplicate <==>
           l.row.resultId.Some? && envelope.token.Some? && envelope.token == l.accepted[0].envelope.token)
  {
  }

  /** Replaying the winning submission is always safe: DUPLICATE until the purge, SUPERSEDED after it. */
  lemma ReplayedWinner(w: World, cs: seq<Change>, w': World, t: TaskId, worker: WorkerId)
    requires WorldInv(w) && Runs(w, cs, w') && t in w.db.tasks && |w.accepted[t]| == 1
    requires w.accepted[t][0].envelope.token.Some?
    ensures t in w'.db.tasks
    ensures CompleteAnswer(Some(w'.db.tasks[t]), w'.db.attempts[t], w'.db.results, worker, w.accepted[t][0].envelope)
      == if w'.db.tasks[t].resultId.Some? then Duplicate else Superseded
  {
    WinnerIsFinal(w, cs, w', t);
    RunsKeepInv(w, cs, w');
    ReplayAnswer(w', t, worker);
  }

  lemma ReplayAnswer(w: World, t: TaskId, worker: WorkerId)
    requires WorldInv(w) && t in w.db.tasks && |w.accepted[t]| == 1
    requires w.accepted[t][0].envelope.token.Some?
    ensures CompleteAnswer(Some(w.db.tasks[t]), w.db.attempts[t], w.db.results, worker, w.accepted[t][0].envelope)
      == if w.db.tasks[t].resultId.Some? then Duplicate else Superseded
  {
    GoodLife(w, t);
    LateSubmission(w, t, worker, w.accepted[t][0].envelope);
  }
}
