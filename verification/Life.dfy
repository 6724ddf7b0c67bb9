/**
 The whole life of one task: its row, its ledger, and a history of who claimed it and which
 submissions completed it. `LifeInv` ties the durable columns to that history, and every enabled
 row event keeps it.
 */
module Life {
  import opened Basics
  import opened TaskStates
  import opened Records
  import opened RowMachine

  datatype ClaimRecord = ClaimRecord(worker: WorkerId, attempt: nat, at: Time)

  datatype Acceptance = Acceptance(worker: WorkerId, envelope: Envelope, at: Time)

  /** Durable columns plus history variables; nothing in the system reads the history. */
  datatype Life = Life(
    row: Task,
    ledger: seq<Attempt>,
    claims: seq<ClaimRecord>,
    accepted: seq<Acceptance>)

  function Born(row: Task): Life {
    Life(row, [], [], [])
  }

  function ClaimsAfter(row: Task, claims: seq<ClaimRecord>, ev: RowEvent): seq<ClaimRecord> {
    if ev.Claim? then claims + [ClaimRecord(ev.worker, row.attempt, ev.now)] else claims
  }

  function AcceptedAfter(accepted: seq<Acceptance>, ev: RowEvent): seq<Acceptance> {
    if ev.Complete? then accepted + [Acceptance(ev.worker, ev.envelope, ev.now)] else accepted
  }

  function Next(l: Life, ev: RowEvent): Life {
    Life(RowAfter(l.row, ev), LedgerAfter(l.row, l.ledger, ev),
         ClaimsAfter(l.row, l.claims, ev), AcceptedAfter(l.accepted, ev))
  }

  predicate Can(l: Life, ev: RowEvent) {
    Enabled(l.row, l.ledger, ev)
  }

  // ---------- The shape of a row ----------

  ghost predicate Shape(row: Task) {
    && row.status != Reassigned
    && (row.status == Queued ==>
      row.assignee.None? && row.assignedAt.None? && row.startedAt.None? && row.lease.None? && row.deadline.None?)
    && (IsLive(row.status) ==>
      row.assignee.Some? && row.assignedAt.Some? && row.lease.Some? && row.deadline.Some?)
    && (row.status == Assigned ==> row.startedAt.None?)
    && (row.status == Running ==> row.startedAt.Some? && row.lease.value <= row.deadline.value)
    && (IsTerminal(row.status) ==> row.lease.None? && row.deadline.None?)
    && (row.status == Cancelled ==> row.assignee.None? && row.assignedAt.None? && row.startedAt.None?)
    && (row.completedAt.Some? <==> row.status == Status.Completed)
    && (row.status == Status.Completed ==> row.assignee.Some? && row.assignedAt.Some? && row.startedAt.Some?)
    && (row.resultId.Some? ==> row.status == Status.Completed)
    && (row.excluded.Some? <==> row.notBefore.Some?)
    && (row.notBefore.Some? <==> row.attempt > 0 && row.status !in {Status.Completed, Failed})
  }

  /** The current attempt has a holder on record: live, completed, or failed on the holder's own report. */
  predicate Claimed(row: Task) {
    row.assignee.Some?
  }

  // ---------- The ledger by kind of row ----------

  datatype Kind = ReclaimKind | FenceKind | ReportKind

  function KindOf(a: Attempt): Kind {
    if a.outcome == FencedOutcome then FenceKind
    else if a.reason.ExecutorError? then ReportKind
    else ReclaimKind
  }

  /** The rows of one kind, in order. */
  function OfKind(k: Kind, ledger: seq<Attempt>): seq<Attempt> {
    if ledger == [] then []
    else
      var rest, last := OfKind(k, ledger[..|ledger| - 1]), ledger[|ledger| - 1];
      if KindOf(last) == k then rest + [last] else rest
  }

  lemma OfKindAppend(k: Kind, ledger: seq<Attempt>, a: Attempt)
    ensures OfKind(k, ledger + [a]) == if KindOf(a) == k then OfKind(k, ledger) + [a] else OfKind(k, ledger)
  {
    assert (ledger + [a])[..|ledger|] == ledger;
  }

  lemma {:induction false} OfKindMembers(k: Kind, ledger: seq<Attempt>, a: Attempt)
    ensures a in OfKind(k, ledger) <==> a in ledger && KindOf(a) == k
  {
    if ledger != [] {
      var front, last := ledger[..|ledger| - 1], ledger[|ledger| - 1];
      OfKindMembers(k, front, a);
      assert ledger == front + [last];
    }
  }

  // ---------- The life invariant ----------

  /** Claims are numbered 0, 1, 2, ... and the last one belongs to the current holder, if there is one. */
  ghost predicate ClaimsInv(row: Task, claims: seq<ClaimRecord>) {
    && |claims| == row.attempt + (if Claimed(row) then 1 else 0)
    && (forall i :: 0 <= i < |claims| ==> claims[i].attempt == i)
    && (Claimed(row) ==> row.assignee == Some(claims[row.attempt].worker))
  }

  /** Reclaim rows are numbered 0..attempt-1 without a gap; only an exhausted task's last one is FAILED. */
  ghost predicate ReclaimsInv(row: Task, ledger: seq<Attempt>, claims: seq<ClaimRecord>)
    requires |claims| >= row.attempt
  {
    var rows := OfKind(ReclaimKind, ledger);
    && |rows| == row.attempt
    && (row.status == Failed && !Claimed(row) ==> row.attempt > 0)
    && forall i :: 0 <= i < |rows| ==>
      && rows[i].number == i
      && rows[i].worker == Some(claims[i].worker)
      && rows[i].outcome ==
         (if row.status == Failed && !Claimed(row) && i == row.attempt - 1 then FailedOutcome else ReassignedOutcome)
  }

  /** A reported failure leaves exactly one row, naming the holder and the attempt current when the report was taken. */
  ghost predicate ReportsInv(row: Task, ledger: seq<Attempt>) {
    var rows := OfKind(ReportKind, ledger);
    && |rows| == (if row.status == Failed && Claimed(row) then 1 else 0)
    && (rows != [] ==> rows[0].number == row.attempt && rows[0].worker == row.assignee && rows[0].outcome == FailedOutcome)
  }

  predicate IsHolder(claims: seq<ClaimRecord>, worker: WorkerId) {
    exists i :: 0 <= i < |claims| && claims[i].worker == worker
  }

  /** Fence rows are unique per (worker, attempt), name past or present holders, and stay within range. */
  ghost predicate FencesInv(row: Task, ledger: seq<Attempt>, claims: seq<ClaimRecord>) {
    var rows := OfKind(FenceKind, ledger);
    && (forall i :: 0 <= i < |rows| ==>
      rows[i].worker.Some? && IsHolder(claims, rows[i].worker.value) && rows[i].number <= row.attempt)
    && forall i, j :: 0 <= i < j < |rows| ==>
      rows[i].worker != rows[j].worker || rows[i].number != rows[j].number
  }

  /** At most one submission ever completed the task: the current holder's, for the current attempt. */
  ghost predicate AcceptedInv(row: Task, claims: seq<ClaimRecord>, accepted: seq<Acceptance>) {
    && |accepted| == (if row.status == Status.Completed then 1 else 0)
    && (accepted != [] ==>
      row.assignee == Some(accepted[0].worker) && accepted[0].envelope.attempt == Some(row.attempt))
  }

  ghost predicate LifeInv(l: Life) {
    && Shape(l.row)
    && ClaimsInv(l.row, l.claims)
    && ReclaimsInv(l.row, l.ledger, l.claims)
    && ReportsInv(l.row, l.ledger)
    && FencesInv(l.row, l.ledger, l.claims)
    && AcceptedInv(l.row, l.claims, l.accepted)
  }

  lemma BornInv(taskType: string, priority: int, now: Time)
    ensures LifeInv(Born(NewTask(taskType, priority, now)))
  {
  }

  // ---------- Consequences of the invariant ----------

  /** The three kinds cover the ledger, and each kind names only workers that claimed the task. */
  lemma LedgerNamesHolders(l: Life, i: nat)
    requires LifeInv(l) && i < |l.ledger|
    ensures l.ledger[i].worker.Some? && IsHolder(l.claims, l.ledger[i].worker.value)
  {
    var a := l.ledger[i];
    var k := KindOf(a);
    OfKindMembers(k, l.ledger, a);
    var j :| 0 <= j < |OfKind(k, l.ledger)| && OfKind(k, l.ledger)[j] == a;
    match k
    case ReclaimKind => assert l.claims[j].worker == a.worker.value;
    case ReportKind => assert l.claims[l.row.attempt].worker == a.worker.value;
    case FenceKind =>
  }

  /** On a task that is not terminal, what `_ever_held` looks up is exactly having claimed the task. */
  lemma EverHeldIsClaimed(l: Life, worker: WorkerId)
    requires LifeInv(l) && !IsTerminal(l.row.status)
    ensures EverHeld(l.row, l.ledger, worker) <==> IsHolder(l.claims, worker)
  {
    if IsHolder(l.claims, worker) {
      var i :| 0 <= i < |l.claims| && l.claims[i].worker == worker;
      if i < l.row.attempt {
        var a := OfKind(ReclaimKind, l.ledger)[i];
        OfKindMembers(ReclaimKind, l.ledger, a);
      }
    }
    if EverHeld(l.row, l.ledger, worker) {
      if Holds(l.row, worker) {
        assert l.claims[l.row.attempt].worker == worker;
      } else {
        var i :| 0 <= i < |l.ledger| && l.ledger[i].worker == Some(worker);
        LedgerNamesHolders(l, i);
      }
    }
  }

  // ---------- Preservation ----------

  lemma NoFailedRowYet(l: Life, worker: WorkerId)
    requires LifeInv(l) && l.row.status != Failed
    ensures !HasRow(l.ledger, worker, l.row.attempt, FailedOutcome)
  {
    if HasRow(l.ledger, worker, l.row.attempt, FailedOutcome) {
      var i :| 0 <= i < |l.ledger| && l.ledger[i].worker == Some(worker)
        && l.ledger[i].number == l.row.attempt && l.ledger[i].outcome == FailedOutcome;
      OfKindMembers(KindOf(l.ledger[i]), l.ledger, l.ledger[i]);
      assert false;
    }
  }

  lemma ClaimKeepsInv(l: Life, ev: RowEvent)
    requires LifeInv(l) && ev.Claim? && Can(l, ev)
    ensures LifeInv(Next(l, ev))
  {
    var l' := Next(l, ev);
    var fences := OfKind(FenceKind, l.ledger);
    forall i | 0 <= i < |fences| ensures IsHolder(l'.claims, fences[i].worker.value) {
      var j :| 0 <= j < |l.claims| && l.claims[j].worker == fences[i].worker.value;
      assert l'.claims[j] == l.claims[j];
    }
  }

  lemma ReclaimKeepsInv(l: Life, ev: RowEvent)
    requires LifeInv(l) && ev.Reclaim? && Can(l, ev)
    ensures LifeInv(Next(l, ev))
  {
    var a := ReclaimRecord(l.row, ev.now, ev.maxAttempts);
    OfKindAppend(ReclaimKind, l.ledger, a);
    OfKindAppend(ReportKind, l.ledger, a);
    OfKindAppend(FenceKind, l.ledger, a);
  }

  lemma FailKeepsInv(l: Life, ev: RowEvent)
    requires LifeInv(l) && ev.Fail? && Can(l, ev)
    ensures LifeInv(Next(l, ev))
  {
    NoFailedRowYet(l, ev.worker);
    var a := Attempt(l.row.attempt, Some(ev.worker), FailedOutcome, ExecutorError(ev.errorType));
    OfKindAppend(ReclaimKind, l.ledger, a);
    OfKindAppend(ReportKind, l.ledger, a);
    OfKindAppend(FenceKind, l.ledger, a);
  }

  /** The NOT EXISTS guard keeps fence rows unique. */
  lemma FenceRowIsNew(l: Life, worker: WorkerId, number: nat)
    requires !HasRow(l.ledger, worker, number, FencedOutcome)
    ensures forall i :: 0 <= i < |OfKind(FenceKind, l.ledger)| ==>
      OfKind(FenceKind, l.ledger)[i].worker != Some(worker) || OfKind(FenceKind, l.ledger)[i].number != number
  {
    var fences := OfKind(FenceKind, l.ledger);
    forall i | 0 <= i < |fences|
      ensures fences[i].worker != Some(worker) || fences[i].number != number
    {
      OfKindMembers(FenceKind, l.ledger, fences[i]);
    }
  }

  lemma FenceKeepsFences(l: Life, ev: RowEvent)
    requires LifeInv(l) && ev.Fence? && Can(l, ev)
    requires !HasRow(l.ledger, ev.worker, ev.number, FencedOutcome)
    ensures FencesInv(l.row, LedgerAfter(l.row, l.ledger, ev), l.claims)
  {
    OfKindAppend(FenceKind, l.ledger,
                 Attempt(ev.number, Some(ev.worker), FencedOutcome, FenceReason(l.row, ev.worker)));
    EverHeldIsClaimed(l, ev.worker);
    FenceRowIsNew(l, ev.worker, ev.number);
  }

  lemma FenceKeepsInv(l: Life, ev: RowEvent)
    requires LifeInv(l) && ev.Fence? && Can(l, ev)
    ensures LifeInv(Next(l, ev))
  {
    if !HasRow(l.ledger, ev.worker, ev.number, FencedOutcome) {
      FenceKeepsFences(l, ev);
      var a := Attempt(ev.number, Some(ev.worker), FencedOutcome, FenceReason(l.row, ev.worker));
      OfKindAppend(ReclaimKind, l.ledger, a);
      OfKindAppend(ReportKind, l.ledger, a);
    }
  }

  /** Every event the engine can perform keeps the invariant. */
  lemma NextKeepsInv(l: Life, ev: RowEvent)
    requires LifeInv(l) && Can(l, ev)
    ensures LifeInv(Next(l, ev))
  {
    match ev
    case Claim(_, _, _, _, _) => ClaimKeepsInv(l, ev);
    case Reclaim(_, _, _) => ReclaimKeepsInv(l, ev);
    case Fail(_, _, _) => FailKeepsInv(l, ev);
    case Fence(_, _) => FenceKeepsInv(l, ev);
    case _ =>
  }

  // ---------- Runs ----------

  /** `l'` is what a run of enabled events leads to from `l`. */
  ghost predicate Leads(l: Life, evs: seq<RowEvent>, l': Life)
    decreases |evs|
  {
    if evs == [] then l == l'
    else Can(l, evs[0]) && Leads(Next(l, evs[0]), evs[1..], l')
  }

  lemma {:induction false} LeadsKeepsInv(l: Life, evs: seq<RowEvent>, l': Life)
    requires LifeInv(l) && Leads(l, evs, l')
    ensures LifeInv(l')
    decreases |evs|
  {
    if evs != [] {
      NextKeepsInv(l, evs[0]);
      LeadsKeepsInv(Next(l, evs[0]), evs[1..], l');
    }
  }

  lemma LeadsAfter(l: Life, ev: RowEvent, evs: seq<RowEvent>, l': Life)
    requires Can(l, ev) && Leads(Next(l, ev), evs, l')
    ensures Leads(l, [ev] + evs, l')
  {
    assert ([ev] + evs)[1..] == evs;
  }

  lemma {:induction false} LeadsAppend(l: Life, evs: seq<RowEvent>, l': Life, more: seq<RowEvent>, l'': Life)
    requires Leads(l, evs, l') && Leads(l', more, l'')
    ensures Leads(l, evs + more, l'')
    decreases |evs|
  {
    ConsAppend(evs, more);
    if evs != [] {
      LeadsAppend(Next(l, evs[0]), evs[1..], l', more, l'');
      LeadsAfter(l, evs[0], evs[1..] + more, l'');
    }
  }
}
