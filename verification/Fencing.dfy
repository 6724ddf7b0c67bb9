/** Attempt numbers are fencing tokens, and the answers of `complete_task` mean what they say. */
module Fencing {
  import opened Basics
  import opened TaskStates
  import opened Records
  import opened RowMachine
  import opened Life
  import opened Answers

  /** History is append-only and attempt numbers never fall, along any run. */
  lemma {:induction false} HistoryOnlyGrows(l: Life, evs: seq<RowEvent>, l': Life)
    requires Leads(l, evs, l')
    ensures l.row.attempt <= l'.row.attempt
    ensures l.claims <= l'.claims && l.accepted <= l'.accepted && l.ledger <= l'.ledger
    decreases |evs|
  {
    if evs != [] {
      HistoryOnlyGrows(Next(l, evs[0]), evs[1..], l');
    }
  }

  /** Successive claims carry strictly increasing attempt numbers, however far apart in time. */
  lemma ClaimsStrictlyIncrease(l: Life, i: nat, j: nat)
    requires LifeInv(l) && i < j < |l.claims|
    ensures l.claims[i].attempt < l.claims[j].attempt
  {
    assert l.claims[i].attempt == i && l.claims[j].attempt == j;
  }

  /** Each (task, attempt) has one holder for all time: two claims of one attempt are the same claim. */
  lemma OneHolderPerAttempt(l: Life, evs: seq<RowEvent>, l': Life, c: ClaimRecord, c': ClaimRecord)
    requires LifeInv(l) && Leads(l, evs, l')
    requires c in l.claims && c' in l'.claims && c.attempt == c'.attempt
    ensures c == c'
  {
    LeadsKeepsInv(l, evs, l');
    HistoryOnlyGrows(l, evs, l');
    var i :| 0 <= i < |l.claims| && l.claims[i] == c;
    var j :| 0 <= j < |l'.claims| && l'.claims[j] == c';
    assert l'.claims[i] == c;
  }

  /**
   What `complete_task` answers, in terms of the history only. It never answers ILLEGAL. While the task
   is unfinished: NOT_OWNER goes exactly to workers that never claimed it, TRANSITIONED exactly to
   the holder of the current attempt naming that attempt, and FENCED to every other past or present holder.
   */
  lemma CompleteAnswerMeaning(l: Life, results: map<ResultId, Stored>, worker: WorkerId, envelope: Envelope)
    requires LifeInv(l)
    ensures var answer := CompleteAnswer(Some(l.row), l.ledger, results, worker, envelope);
      && answer != Illegal
      && (IsTerminal(l.row.status) ==> answer in {Duplicate, Superseded})
      && (!IsTerminal(l.row.status) ==>
        && (answer == NotOwner <==> !IsHolder(l.claims, worker))
        && (answer == Transitioned <==>
             |l.claims| == l.row.attempt + 1 && l.claims[l.row.attempt].worker == worker
             && envelope.attempt == Some(l.row.attempt))
        && (answer == Fenced <==> IsHolder(l.claims, worker) && answer != Transitioned))
  {
    if !IsTerminal(l.row.status) {
      EverHeldIsClaimed(l, worker);
      if Current(l.row, worker, envelope.attempt) {
        assert IsLive(l.row.status);
        assert PathPermitted(Running, [Status.Completed]);
        assert [Running, Status.Completed][1..] == [Status.Completed];
        assert l.claims[l.row.attempt].worker == worker;
      }
    }
  }

  /** The guard of the completing write is exactly the TRANSITIONED answer. */
  lemma TransitionedIsEnabled(l: Life, results: map<ResultId, Stored>, worker: WorkerId, envelope: Envelope,
                              now: Time, rid: ResultId)
    requires LifeInv(l)
    ensures CompleteAnswer(Some(l.row), l.ledger, results, worker, envelope) == Transitioned
      <==> Can(l, Complete(worker, now, envelope, rid))
  {
    CompleteAnswerMeaning(l, results, worker, envelope);
  }

  /** Once the attempt number has moved past `a`, no submission naming `a` is ever accepted again. */
  lemma StaleAttemptNeverAccepted(l: Life, evs: seq<RowEvent>, l': Life, a: nat,
                                  results: map<ResultId, Stored>, worker: WorkerId, envelope: Envelope)
    requires LifeInv(l) && Leads(l, evs, l')
    requires a < l.row.attempt && envelope.attempt == Some(a)
    ensures CompleteAnswer(Some(l'.row), l'.ledger, results, worker, envelope) in
      {NotOwner, Fenced, Duplicate, Superseded}
    ensures forall now, rid :: !Can(l', Complete(worker, now, envelope, rid))
    ensures IsHolder(l.claims, worker) ==>
      CompleteAnswer(Some(l'.row), l'.ledger, results, worker, envelope) != NotOwner
  {
    LeadsKeepsInv(l, evs, l');
    HistoryOnlyGrows(l, evs, l');
    CompleteAnswerMeaning(l', results, worker, envelope);
    if IsHolder(l.claims, worker) {
      var i :| 0 <= i < |l.claims| && l.claims[i].worker == worker;
      assert l'.claims[i].worker == worker;
    }
  }

  /** Every status write is a legal move; completing an unstarted task walks through RUNNING. */
  lemma EveryWriteIsLegal(l: Life, ev: RowEvent)
    requires LifeInv(l) && Can(l, ev)
    ensures CheckTransition(l.row.status, Next(l, ev).row.status) != Forbidden
      || (ev.Complete? && l.row.status == Assigned && PathPermitted(Assigned, CompletionPath(Assigned)))
  {
    if ev.Complete? && l.row.status == Assigned {
      assert [Running, Status.Completed][1..] == [Status.Completed];
      assert PathPermitted(Running, [Status.Completed]);
    }
  }

  /** `mark_status` as the handlers use it: exactly the guard of the write it performs. */
  lemma MarkAnswerIsEnabled(l: Life, worker: WorkerId, now: Time, ttl: real, cap: real, errorType: string)
    requires LifeInv(l)
    ensures MarkAnswer(Some(l.row), worker, Running) == Transitioned <==> Can(l, Start(worker, now, ttl, cap))
    ensures MarkAnswer(Some(l.row), worker, Failed) == Transitioned <==> Can(l, Fail(worker, now, errorType))
    ensures MarkAnswer(Some(l.row), worker, Failed) == NotOwner <==> l.row.assignee != Some(worker)
    ensures MarkAnswer(Some(l.row), worker, Failed) == Illegal ==> l.row.status == Status.Completed
  {
  }

  // ---------- Starts and failures are not fenced ----------

  /**
   A failure report carries no attempt number. From the claimer of attempt `a` it is taken against another attempt
   exactly when that worker holds a later, live one: it claimed the task again before the report came in. The ledger then
   names the later attempt.
   */
  lemma LateFailureReport(l: Life, a: nat, now: Time, errorType: string)
    requires LifeInv(l) && a < |l.claims|
    ensures var worker := l.claims[a].worker;
      && (Can(l, Fail(worker, now, errorType)) && a != l.row.attempt <==>
           IsLive(l.row.status) && a < l.row.attempt && l.claims[l.row.attempt].worker == worker)
      && (Can(l, Fail(worker, now, errorType)) ==>
           Next(l, Fail(worker, now, errorType)).ledger
             == l.ledger + [Attempt(l.row.attempt, Some(worker), FailedOutcome, ExecutorError(errorType))])
  {
    if IsLive(l.row.status) {
      NoFailedRowYet(l, l.claims[a].worker);
    }
  }

  /** A start report likewise: it starts another attempt's clock exactly when its sender holds a later, unstarted one. */
  lemma LateStartReport(l: Life, a: nat, now: Time, ttl: real, cap: real)
    requires LifeInv(l) && a < |l.claims|
    ensures var worker := l.claims[a].worker;
      Can(l, Start(worker, now, ttl, cap)) && a != l.row.attempt <==>
        l.row.status == Assigned && a < l.row.attempt && l.claims[l.row.attempt].worker == worker
  {
  }

  /** Attempt 0 is lost, the same worker gets attempt 1 after its exclusion, and the failure of attempt 0 ends it. */
  lemma StaleFailureEndsNextAttempt(worker: WorkerId) returns (evs: seq<RowEvent>, l: Life)
    ensures evs == [Claim(worker, 1.0, 30.0, 300.0, 60.0), Reclaim(40.0, 3, 2.0), Claim(worker, 110.0, 30.0, 300.0, 60.0),
                    Fail(worker, 111.0, "MemoryError")]
    ensures Leads(Born(NewTask("sleep", 0, 0.0)), evs, l)
    ensures l.row.status == Failed && l.row.attempt == 1
    ensures |l.ledger| == 2 && l.ledger[1] == Attempt(1, Some(worker), FailedOutcome, ExecutorError("MemoryError"))
  {
    evs := [Claim(worker, 1.0, 30.0, 300.0, 60.0), Reclaim(40.0, 3, 2.0), Claim(worker, 110.0, 30.0, 300.0, 60.0),
            Fail(worker, 111.0, "MemoryError")];
    var l1 := Next(Born(NewTask("sleep", 0, 0.0)), evs[0]);
    var l2 := Next(l1, evs[1]);
    var l3 := Next(l2, evs[2]);
    l := Next(l3, evs[3]);
    assert evs[1..] == [evs[1], evs[2], evs[3]] && evs[1..][1..] == [evs[2], evs[3]];
    assert [evs[2], evs[3]][1..] == [evs[3]] && [evs[3]][1..] == [];
    assert Leads(l, [], l);
    assert Leads(l3, [evs[3]], l);
    assert Leads(l2, [evs[2], evs[3]], l);
    assert Leads(l1, evs[1..], l);
  }
}
