/** The timeline rebuilt from a row's columns is exact: it starts queued, is sorted, and ends in the current status. */
module Timeline {
  import opened Basics
  import opened TaskStates
  import opened Records
  import opened RowMachine
  import opened Life
  import opened Fencing

  datatype Entry = Entry(state: Status, at: Time)

  /** The entries the columns justify, oldest first. */
  function Lifecycle(row: Task): seq<Entry> {
    [Entry(Queued, row.createdAt)]
    + (if row.assignedAt.Some? then [Entry(Assigned, row.assignedAt.value)] else [])
    + (if row.startedAt.Some? then [Entry(Running, row.startedAt.value)] else [])
    + (if row.status == Status.Completed && row.completedAt.Some? then [Entry(Status.Completed, row.completedAt.value)]
       else if row.status in {Failed, Cancelled} then [Entry(row.status, row.updatedAt)]
       else [])
  }

  /** The same list, built by successive appends. */
  method BuildLifecycle(row: Task) returns (timeline: seq<Entry>)
    ensures timeline == Lifecycle(row)
  {
    timeline := [Entry(Queued, row.createdAt)];
    if row.assignedAt.Some? {
      timeline := timeline + [Entry(Assigned, row.assignedAt.value)];
    }
    if row.startedAt.Some? {
      timeline := timeline + [Entry(Running, row.startedAt.value)];
    }
    if row.status == Status.Completed && row.completedAt.Some? {
      timeline := timeline + [Entry(Status.Completed, row.completedAt.value)];
    } else if row.status in {Failed, Cancelled} {
      timeline := timeline + [Entry(row.status, row.updatedAt)];
    }
  }

  /** The clock never runs behind what the row already records. */
  predicate ClockForward(l: Life, evs: seq<RowEvent>)
    decreases |evs|
  {
    evs == [] ||
    (&& (EventTime(evs[0]).Some? ==> l.row.updatedAt <= EventTime(evs[0]).value)
     && ClockForward(Next(l, evs[0]), evs[1..]))
  }

  /** The stamps of a row are ordered: created, assigned, started, completed, updated. */
  predicate Ordered(row: Task) {
    && row.createdAt <= row.updatedAt
    && (row.assignedAt.Some? ==> row.createdAt <= row.assignedAt.value <= row.updatedAt)
    && (row.startedAt.Some? ==> row.assignedAt.Some? && row.assignedAt.value <= row.startedAt.value <= row.updatedAt)
    && (row.completedAt.Some? ==>
         row.startedAt.Some? && row.startedAt.value <= row.completedAt.value == row.updatedAt)
  }

  ghost predicate SortedInTime(timeline: seq<Entry>) {
    forall i, j :: 0 <= i < j < |timeline| ==> timeline[i].at <= timeline[j].at
  }

  lemma StampsStayOrdered(l: Life, ev: RowEvent)
    requires LifeInv(l) && Can(l, ev) && Ordered(l.row)
    requires EventTime(ev).Some? ==> l.row.updatedAt <= EventTime(ev).value
    ensures Ordered(Next(l, ev).row)
  {
  }

  lemma {:induction false} StampsOrderedAlongRuns(l: Life, evs: seq<RowEvent>, l': Life)
    requires LifeInv(l) && Leads(l, evs, l') && Ordered(l.row) && ClockForward(l, evs)
    ensures Ordered(l'.row)
    decreases |evs|
  {
    if evs != [] {
      StampsStayOrdered(l, evs[0]);
      NextKeepsInv(l, evs[0]);
      StampsOrderedAlongRuns(Next(l, evs[0]), evs[1..], l');
    }
  }

  lemma OrderedTimeline(l: Life)
    requires LifeInv(l) && Ordered(l.row)
    ensures SortedInTime(Lifecycle(l.row))
    ensures Lifecycle(l.row)[0] == Entry(Queued, l.row.createdAt)
    ensures Lifecycle(l.row)[|Lifecycle(l.row)| - 1].state == l.row.status
  {
  }

  /** Timeline exactness for every task and every run of its events on a clock that never goes back. */
  lemma TimelineIsExact(taskType: string, priority: int, born: Time, evs: seq<RowEvent>, l: Life)
    requires Leads(Born(NewTask(taskType, priority, born)), evs, l)
    requires ClockForward(Born(NewTask(taskType, priority, born)), evs)
    ensures SortedInTime(Lifecycle(l.row))
    ensures Lifecycle(l.row)[0] == Entry(Queued, born)
    ensures Lifecycle(l.row)[|Lifecycle(l.row)| - 1].state == l.row.status
  {
    var l0 := Born(NewTask(taskType, priority, born));
    BornInv(taskType, priority, born);
    LeadsKeepsInv(l0, evs, l);
    StampsOrderedAlongRuns(l0, evs, l);
    OrderedTimeline(l);
    CreationIsFixed(l0, evs, l);
  }

  lemma {:induction false} CreationIsFixed(l: Life, evs: seq<RowEvent>, l': Life)
    requires Leads(l, evs, l')
    ensures l'.row.createdAt == l.row.createdAt
    decreases |evs|
  {
    if evs != [] {
      CreationIsFixed(Next(l, evs[0]), evs[1..], l');
    }
  }

  lemma StepExtendsTimeline(l: Life, ev: RowEvent)
    requires LifeInv(l) && Can(l, ev)
    ensures !ev.Reclaim? ==> Lifecycle(l.row) <= Lifecycle(Next(l, ev).row)
    ensures ev.Reclaim? ==>
      Lifecycle(Next(l, ev).row) == [Entry(Queued, l.row.createdAt)]
        + if Exhausted(l.row, ev.maxAttempts) then [Entry(Failed, ev.now)] else []
  {
  }

  /**
   Within one attempt the rebuilt list is append-only on any clock: nothing reported once is restamped or dropped. Only
   a reclaim starts it over.
   */
  lemma {:induction false} TimelineOnlyGrows(l: Life, evs: seq<RowEvent>, l': Life)
    requires LifeInv(l) && Leads(l, evs, l') && l.row.attempt == l'.row.attempt
    ensures Lifecycle(l.row) <= Lifecycle(l'.row)
    decreases |evs|
  {
    if evs != [] {
      var next := Next(l, evs[0]);
      HistoryOnlyGrows(next, evs[1..], l');
      StepExtendsTimeline(l, evs[0]);
      NextKeepsInv(l, evs[0]);
      TimelineOnlyGrows(next, evs[1..], l');
    }
  }

  // ---------- Exactly when the list is in order ----------

  function LastStamp(row: Task): Time {
    var timeline := Lifecycle(row);
    timeline[|timeline| - 1].at
  }

  /**
   Does the stamp this statement is about to write belong after the last one shown? Statements that add no entry always
   fit; a reclaim starts the list over, so only giving up has to come after the task's creation.
   */
  predicate Fits(row: Task, ev: RowEvent) {
    match ev
    case Claim(_, now, _, _, _) => LastStamp(row) <= now
    case Start(_, now, _, _) => LastStamp(row) <= now
    case Fail(_, now, _) => LastStamp(row) <= now
    case Complete(_, now, _, _) => LastStamp(row) <= now
    case Cancel(now) => LastStamp(row) <= now
    case Reclaim(now, maxAttempts, _) => Exhausted(row, maxAttempts) ==> row.createdAt <= now
    case _ => true
  }

  lemma AppendedSorted(before: seq<Entry>, after: seq<Entry>)
    requires before != [] && before <= after
    requires forall i :: |before| <= i < |after| ==> after[i].at == after[|before|].at
    ensures SortedInTime(after) <==>
      SortedInTime(before) && (|after| > |before| ==> before[|before| - 1].at <= after[|before|].at)
  {
    if SortedInTime(after) {
      assert forall i :: 0 <= i < |before| ==> before[i] == after[i];
    }
  }

  /** Only these five statements add entries, all of them stamped with the statement's own time. */
  lemma StampsAppended(l: Life, ev: RowEvent)
    requires LifeInv(l) && Can(l, ev) && !ev.Reclaim?
    ensures var before, after := Lifecycle(l.row), Lifecycle(Next(l, ev).row);
      && |before| <= |after|
      && (|before| < |after| <==> ev.Claim? || ev.Start? || ev.Fail? || ev.Complete? || ev.Cancel?)
      && forall i :: |before| <= i < |after| ==> EventTime(ev) == Some(after[i].at)
  {
  }

  /** One statement leaves the list in order exactly when its stamp fits and, unless it starts over, the list was in order. */
  lemma StepInOrder(l: Life, ev: RowEvent)
    requires LifeInv(l) && Can(l, ev)
    ensures SortedInTime(Lifecycle(Next(l, ev).row)) <==>
      Fits(l.row, ev) && (ev.Reclaim? || SortedInTime(Lifecycle(l.row)))
  {
    StepExtendsTimeline(l, ev);
    var before, after := Lifecycle(l.row), Lifecycle(Next(l, ev).row);
    if ev.Reclaim? {
      assert after[0].at == l.row.createdAt;
      assert |after| == 2 ==> after[1].at == ev.now;
    } else {
      StampsAppended(l, ev);
      AppendedSorted(before, after);
    }
  }

  /** Every stamp written since the list last started over fits; `inOrder` is how the list stands now. */
  predicate AllFit(l: Life, evs: seq<RowEvent>, inOrder: bool)
    decreases |evs|
  {
    if evs == [] then inOrder
    else AllFit(Next(l, evs[0]), evs[1..], Fits(l.row, evs[0]) && (evs[0].Reclaim? || inOrder))
  }

  lemma {:induction false} RunInOrder(l: Life, evs: seq<RowEvent>, l': Life)
    requires LifeInv(l) && Leads(l, evs, l')
    ensures SortedInTime(Lifecycle(l'.row)) <==> AllFit(l, evs, SortedInTime(Lifecycle(l.row)))
    decreases |evs|
  {
    if evs != [] {
      StepInOrder(l, evs[0]);
      NextKeepsInv(l, evs[0]);
      RunInOrder(Next(l, evs[0]), evs[1..], l');
    }
  }

  /**
   On any clock, whatever transactions stamp what: after any run of a task from its creation the rebuilt list is sorted
   if and only if each stamp since its last restart was no earlier than the last one then shown.
   */
  lemma TimelineInOrder(taskType: string, priority: int, born: Time, evs: seq<RowEvent>, l: Life)
    requires Leads(Born(NewTask(taskType, priority, born)), evs, l)
    ensures SortedInTime(Lifecycle(l.row)) <==> AllFit(Born(NewTask(taskType, priority, born)), evs, true)
  {
    BornInv(taskType, priority, born);
    RunInOrder(Born(NewTask(taskType, priority, born)), evs, l);
  }

  /** A backward stamp need not show: a renewal stamped before the claim leaves the list in order. */
  lemma BackdatedRenewalIsHarmless()
    ensures var l := Born(NewTask("sleep", 0, 0.0));
      var evs := [Claim(WorkerId(1), 5.0, 30.0, 60.0, 60.0), Renew(WorkerId(1), 4.0, 60.0)];
      !ClockForward(l, evs) && AllFit(l, evs, true)
  {
    var l := Born(NewTask("sleep", 0, 0.0));
    var evs := [Claim(WorkerId(1), 5.0, 30.0, 60.0, 60.0), Renew(WorkerId(1), 4.0, 60.0)];
    var l1 := Next(l, evs[0]);
    assert evs[1..] == [evs[1]] && evs[1..][1..] == [];
    assert !ClockForward(l1, [evs[1]]);
    assert LastStamp(l.row) == 0.0;
    assert AllFit(Next(l1, evs[1]), [], true);
    assert AllFit(l1, [evs[1]], true);
  }

  /**
   A transaction that began before the previous writer's, waited for it, and stamped its own start: the rebuilt list is out of
   order.
   */
  lemma BackdatedStampBreaksOrder()
    ensures var l := Born(NewTask("sleep", 0, 0.0));
      var claim, backdated := Claim(WorkerId(1), 5.0, 30.0, 60.0, 60.0), Start(WorkerId(1), 4.0, 60.0, 60.0);
      && Can(l, claim) && Can(Next(l, claim), backdated)
      && !SortedInTime(Lifecycle(Next(Next(l, claim), backdated).row))
  {
    var l := Born(NewTask("sleep", 0, 0.0));
    var row := Next(Next(l, Claim(WorkerId(1), 5.0, 30.0, 60.0, 60.0)), Start(WorkerId(1), 4.0, 60.0, 60.0)).row;
    assert Lifecycle(row)[1] == Entry(Assigned, 5.0) && Lifecycle(row)[2] == Entry(Running, 4.0);
  }
}
