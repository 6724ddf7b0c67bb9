/**
 The durable tables and everything that can happen to them.

 A `Change` is what one committed transaction does: insert a task, apply one event to each of a set
 of rows, store a result, or purge results. `Permits` is the conjunction of the guards. Adding the
 claim and acceptance history gives a `World`; `WorldInv` holds in every world a run can reach.
 */
module Queue {
  import opened Basics
  import opened Records
  import opened RowMachine
  import opened Life

  datatype Change =
    | Insert(id: TaskId, row: Task)
    | Touch(evs: map<TaskId, RowEvent>)
    | Store(id: TaskId, ev: RowEvent)
    | Purge(rids: set<ResultId>)

  predicate WellFormed(db: Db) {
    db.attempts.Keys == db.tasks.Keys
  }

  predicate Permits(db: Db, c: Change)
    requires WellFormed(db)
  {
    match c
    case Insert(id, row) => id !in db.tasks && row == NewTask(row.taskType, row.priority, row.createdAt)
    case Touch(evs) =>
      forall t :: t in evs ==>
        && t in db.tasks
        && !evs[t].Complete? && !evs[t].DropResult?
        && Enabled(db.tasks[t], db.attempts[t], evs[t])
    case Store(id, ev) =>
      && ev.Complete?
      && id in db.tasks
      && ev.envelope.task == id
      && ev.rid !in db.results
      && Enabled(db.tasks[id], db.attempts[id], ev)
    case Purge(rids) => rids <= db.results.Keys
  }

  /** The event a change applies to one existing row, if any. Purging reaches a row through its foreign key. */
  function EventFor(db: Db, c: Change, t: TaskId): Option<RowEvent>
    requires t in db.tasks
  {
    match c
    case Insert(_, _) => None
    case Touch(evs) => if t in evs then Some(evs[t]) else None
    case Store(id, ev) => if t == id then Some(ev) else None
    case Purge(rids) =>
      if db.tasks[t].resultId.Some? && db.tasks[t].resultId.value in rids then Some(DropResult) else None
  }

  function TaskAfter(db: Db, c: Change, t: TaskId): Task
    requires t in db.tasks
  {
    match EventFor(db, c, t)
    case None => db.tasks[t]
    case Some(ev) => RowAfter(db.tasks[t], ev)
  }

  function AttemptsAfter(db: Db, c: Change, t: TaskId): seq<Attempt>
    requires t in db.tasks && t in db.attempts
  {
    match EventFor(db, c, t)
    case None => db.attempts[t]
    case Some(ev) => LedgerAfter(db.tasks[t], db.attempts[t], ev)
  }

  function ResultsAfter(results: map<ResultId, Stored>, c: Change): map<ResultId, Stored> {
    match c
    case Store(_, Complete(_, now, envelope, rid)) => results[rid := Stored(envelope, now)]
    case Purge(rids) => results - rids
    case _ => results
  }

  function Apply(db: Db, c: Change): (db': Db)
    requires WellFormed(db)
    ensures WellFormed(db')
  {
    var tasks := map t | t in db.tasks :: TaskAfter(db, c, t);
    var attempts := map t | t in db.tasks :: AttemptsAfter(db, c, t);
    if c.Insert? then Db(tasks[c.id := c.row], attempts[c.id := []], db.results)
    else Db(tasks, attempts, ResultsAfter(db.results, c))
  }

  // ---------- Worlds: the tables plus history ----------

  datatype World = World(
    db: Db,
    claims: map<TaskId, seq<ClaimRecord>>,
    accepted: map<TaskId, seq<Acceptance>>)

  const NOTHING := World(EMPTY, map[], map[])

  predicate Aligned(w: World) {
    WellFormed(w.db) && w.claims.Keys == w.db.tasks.Keys && w.accepted.Keys == w.db.tasks.Keys
  }

  function LifeOf(w: World, t: TaskId): Life
    requires Aligned(w) && t in w.db.tasks
  {
    Life(w.db.tasks[t], w.db.attempts[t], w.claims[t], w.accepted[t])
  }

  function Lived(l: Life, ev: Option<RowEvent>): Life {
    if ev.None? then l else Next(l, ev.value)
  }

  function Advance(w: World, c: Change): (w': World)
    requires Aligned(w)
    ensures Aligned(w') && w'.db == Apply(w.db, c)
  {
    var claims := map t | t in w.db.tasks :: Lived(LifeOf(w, t), EventFor(w.db, c, t)).claims;
    var accepted := map t | t in w.db.tasks :: Lived(LifeOf(w, t), EventFor(w.db, c, t)).accepted;
    if c.Insert? then World(Apply(w.db, c), claims[c.id := []], accepted[c.id := []])
    else World(Apply(w.db, c), claims, accepted)
  }

  /** A change is, for each existing task, one event of its life or nothing. */
  lemma LifeAdvances(w: World, c: Change, t: TaskId)
    requires Aligned(w) && Permits(w.db, c) && t in w.db.tasks
    ensures t in Advance(w, c).db.tasks
    ensures LifeOf(Advance(w, c), t) == Lived(LifeOf(w, t), EventFor(w.db, c, t))
    ensures EventFor(w.db, c, t).Some? ==> Can(LifeOf(w, t), EventFor(w.db, c, t).value)
  {
  }

  /** Live result rows and result pointers are in bijection, and each body is the submission that won. */
  ghost predicate ResultsInv(w: World)
    requires Aligned(w)
  {
    && (forall t :: t in w.db.tasks && w.db.tasks[t].resultId.Some? ==>
      var rid := w.db.tasks[t].resultId.value;
      && rid in w.db.results
      && w.accepted[t] != []
      && w.db.results[rid].envelope == w.accepted[t][0].envelope
      && w.db.results[rid].envelope.task == t)
    && (forall r :: r in w.db.results ==>
      var t := w.db.results[r].envelope.task;
      t in w.db.tasks && w.db.tasks[t].resultId == Some(r))
  }

  ghost predicate LivesInv(w: World)
    requires Aligned(w)
  {
    forall t :: t in w.db.tasks ==> LifeInv(LifeOf(w, t))
  }

  ghost predicate WorldInv(w: World) {
    Aligned(w) && LivesInv(w) && ResultsInv(w)
  }

  lemma GoodLife(w: World, t: TaskId)
    requires WorldInv(w) && t in w.db.tasks
    ensures LifeInv(LifeOf(w, t))
  {
  }

  lemma LivedKeepsInv(l: Life, ev: Option<RowEvent>)
    requires LifeInv(l) && (ev.Some? ==> Can(l, ev.value))
    ensures LifeInv(Lived(l, ev))
  {
    if ev.Some? {
      NextKeepsInv(l, ev.value);
    }
  }

  lemma InsertedIsBorn(w: World, c: Change, t: TaskId)
    requires Aligned(w) && Permits(w.db, c) && t in Advance(w, c).db.tasks && t !in w.db.tasks
    ensures c.Insert? && c.row == NewTask(c.row.taskType, c.row.priority, c.row.createdAt)
    ensures LifeOf(Advance(w, c), t) == Born(c.row)
  {
    TablesAfter(w, c);
  }

  lemma AdvanceKeepsLives(w: World, c: Change, t: TaskId)
    requires Aligned(w) && LivesInv(w) && Permits(w.db, c)
    requires t in Advance(w, c).db.tasks
    ensures LifeInv(LifeOf(Advance(w, c), t))
  {
    if t in w.db.tasks {
      LifeAdvances(w, c, t);
      LivedKeepsInv(LifeOf(w, t), EventFor(w.db, c, t));
    } else {
      InsertedIsBorn(w, c, t);
      BornInv(c.row.taskType, c.row.priority, c.row.createdAt);
    }
  }

  lemma AdvanceKeepsAllLives(w: World, c: Change, w': World)
    requires Aligned(w) && LivesInv(w) && Permits(w.db, c) && w' == Advance(w, c)
    ensures LivesInv(w')
  {
    forall t | t in w'.db.tasks ensures LifeInv(LifeOf(w', t)) {
      AdvanceKeepsLives(w, c, t);
    }
  }

  /** A task about to be completed has no result and no accepted submission yet. */
  lemma NothingStoredYet(w: World, c: Change)
    requires Aligned(w) && LivesInv(w) && Permits(w.db, c) && c.Store?
    ensures w.accepted[c.id] == [] && w.db.tasks[c.id].resultId.None?
  {
    assert LifeInv(LifeOf(w, c.id));
  }

  /** Only completing and purging touch a result pointer or the record of what was accepted. */
  lemma PointerEvents(l: Life, ev: RowEvent)
    requires !ev.Complete? && !ev.DropResult?
    ensures Next(l, ev).row.resultId == l.row.resultId
    ensures Next(l, ev).accepted == l.accepted
  {
  }

  lemma PointerFrame(w: World, c: Change, t: TaskId)
    requires Aligned(w) && Permits(w.db, c) && t in w.db.tasks
    requires EventFor(w.db, c, t).Some? ==>
      !EventFor(w.db, c, t).value.Complete? && !EventFor(w.db, c, t).value.DropResult?
    ensures t in Advance(w, c).db.tasks
    ensures Advance(w, c).db.tasks[t].resultId == w.db.tasks[t].resultId
    ensures Advance(w, c).accepted[t] == w.accepted[t]
  {
    var l := LifeOf(w, t);
    LifeAdvances(w, c, t);
    var l' := LifeOf(Advance(w, c), t);
    if EventFor(w.db, c, t).Some? {
      PointerEvents(l, EventFor(w.db, c, t).value);
    }
    assert l'.row.resultId == l.row.resultId && l'.accepted == l.accepted;
  }

  lemma StoredRow(w: World, c: Change)
    requires Aligned(w) && Permits(w.db, c) && c.Store?
    requires w.accepted[c.id] == []
    ensures c.id in Advance(w, c).db.tasks
    ensures Advance(w, c).db.tasks[c.id].resultId == Some(c.ev.rid)
    ensures Advance(w, c).accepted[c.id] == [Acceptance(c.ev.worker, c.ev.envelope, c.ev.now)]
  {
    var l := LifeOf(w, c.id);
    LifeAdvances(w, c, c.id);
    assert LifeOf(Advance(w, c), c.id) == Next(l, c.ev);
  }

  lemma PointersFrame(w: World, c: Change)
    requires Aligned(w) && Permits(w.db, c) && !c.Purge?
    ensures w.db.tasks.Keys <= Advance(w, c).db.tasks.Keys
    ensures forall t :: t in w.db.tasks && (c.Store? ==> t != c.id) ==>
      && Advance(w, c).db.tasks[t].resultId == w.db.tasks[t].resultId
      && Advance(w, c).accepted[t] == w.accepted[t]
  {
    var w' := Advance(w, c);
    forall t | t in w.db.tasks && (c.Store? ==> t != c.id)
      ensures w'.db.tasks[t].resultId == w.db.tasks[t].resultId && w'.accepted[t] == w.accepted[t]
    {
      PointerFrame(w, c, t);
    }
  }

  lemma ApplyShape(db: Db, c: Change)
    requires WellFormed(db)
    ensures Apply(db, c).results == ResultsAfter(db.results, c)
    ensures Apply(db, c).tasks.Keys == db.tasks.Keys + (if c.Insert? then {c.id} else {})
    ensures c.Insert? ==> Apply(db, c).tasks[c.id] == c.row
  {
  }

  lemma TablesAfter(w: World, c: Change)
    requires Aligned(w)
    ensures Advance(w, c).db.results == ResultsAfter(w.db.results, c)
    ensures Advance(w, c).db.tasks.Keys == w.db.tasks.Keys + (if c.Insert? then {c.id} else {})
    ensures c.Insert? ==> Advance(w, c).db.tasks[c.id] == c.row
  {
    ApplyShape(w.db, c);
  }

  lemma StoreKeepsResults(w: World, w': World, c: Change)
    requires Aligned(w) && ResultsInv(w) && Permits(w.db, c) && c.Store?
    requires w.accepted[c.id] == [] && w.db.tasks[c.id].resultId.None?
    requires w' == Advance(w, c)
    ensures ResultsInv(w')
  {
    StoredRow(w, c);
    PointersFrame(w, c);
    TablesAfter(w, c);
    ResultsAgree(w, w', c);
  }

  /** The bijection after a store, from what the store did to pointers and bodies. */
  lemma ResultsAgree(w: World, w': World, c: Change)
    requires Aligned(w) && Aligned(w') && ResultsInv(w) && c.Store? && c.ev.Complete? && c.ev.rid !in w.db.results
    requires w'.db.tasks.Keys == w.db.tasks.Keys && c.id in w.db.tasks && c.ev.envelope.task == c.id
    requires w'.db.results == w.db.results[c.ev.rid := Stored(c.ev.envelope, c.ev.now)]
    requires w.db.tasks[c.id].resultId.None? && w'.db.tasks[c.id].resultId == Some(c.ev.rid)
    requires w'.accepted[c.id] == [Acceptance(c.ev.worker, c.ev.envelope, c.ev.now)]
    requires forall t :: t in w.db.tasks && t != c.id ==>
      w'.db.tasks[t].resultId == w.db.tasks[t].resultId && w'.accepted[t] == w.accepted[t]
    ensures ResultsInv(w')
  {
  }

  lemma PurgedRow(w: World, c: Change, t: TaskId)
    requires Aligned(w) && Permits(w.db, c) && c.Purge? && t in w.db.tasks
    ensures t in Advance(w, c).db.tasks
    ensures Advance(w, c).accepted[t] == w.accepted[t]
    ensures Advance(w, c).db.tasks[t].resultId ==
      if w.db.tasks[t].resultId.Some? && w.db.tasks[t].resultId.value in c.rids then None
      else w.db.tasks[t].resultId
  {
    LifeAdvances(w, c, t);
    assert LifeOf(Advance(w, c), t) == Lived(LifeOf(w, t), EventFor(w.db, c, t));
  }

  lemma PurgeKeepsResults(w: World, w': World, c: Change)
    requires Aligned(w) && ResultsInv(w) && Permits(w.db, c) && c.Purge?
    requires w' == Advance(w, c)
    ensures ResultsInv(w')
  {
    TablesAfter(w, c);
    forall t | t in w.db.tasks
      ensures w'.accepted[t] == w.accepted[t]
      ensures w'.db.tasks[t].resultId ==
        if w.db.tasks[t].resultId.Some? && w.db.tasks[t].resultId.value in c.rids then None
        else w.db.tasks[t].resultId
    {
      PurgedRow(w, c, t);
    }
    PurgedResultsAgree(w, w', c.rids);
  }

  lemma PurgedResultsAgree(w: World, w': World, rids: set<ResultId>)
    requires Aligned(w) && Aligned(w') && ResultsInv(w)
    requires w'.db.tasks.Keys == w.db.tasks.Keys && w'.db.results == w.db.results - rids
    requires forall t :: t in w.db.tasks ==>
      && w'.accepted[t] == w.accepted[t]
      && w'.db.tasks[t].resultId ==
        if w.db.tasks[t].resultId.Some? && w.db.tasks[t].resultId.value in rids then None
        else w.db.tasks[t].resultId
    ensures ResultsInv(w')
  {
  }

  lemma UntouchedResultsAgree(w: World, w': World)
    requires Aligned(w) && Aligned(w') && ResultsInv(w)
    requires w.db.tasks.Keys <= w'.db.tasks.Keys && w'.db.results == w.db.results
    requires forall t :: t in w.db.tasks ==>
      w'.db.tasks[t].resultId == w.db.tasks[t].resultId && w'.accepted[t] == w.accepted[t]
    requires forall t :: t in w'.db.tasks && t !in w.db.tasks ==> w'.db.tasks[t].resultId.None?
    ensures ResultsInv(w')
  {
  }

  lemma TouchKeepsResults(w: World, w': World, c: Change)
    requires Aligned(w) && ResultsInv(w) && Permits(w.db, c) && (c.Touch? || c.Insert?)
    requires w' == Advance(w, c)
    ensures ResultsInv(w')
  {
    TablesAfter(w, c);
    PointersFrame(w, c);
    UntouchedResultsAgree(w, w');
  }

  lemma ChangeKeepsResults(w: World, c: Change)
    requires Aligned(w) && ResultsInv(w) && Permits(w.db, c)
    requires c.Store? ==> w.accepted[c.id] == [] && w.db.tasks[c.id].resultId.None?
    ensures ResultsInv(Advance(w, c))
  {
    match c
    case Store(_, _) => StoreKeepsResults(w, Advance(w, c), c);
    case Purge(_) => PurgeKeepsResults(w, Advance(w, c), c);
    case _ => TouchKeepsResults(w, Advance(w, c), c);
  }

  /** The heart of the safety argument: no permitted change breaks the invariant. */
  lemma AdvanceKeepsInv(w: World, c: Change)
    requires WorldInv(w) && Permits(w.db, c)
    ensures WorldInv(Advance(w, c))
  {
    AdvanceKeepsAllLives(w, c, Advance(w, c));
    if c.Store? {
      NothingStoredYet(w, c);
    }
    ChangeKeepsResults(w, c);
  }

  // ---------- Runs ----------

  /** `w'` is what a run of permitted changes leads to from `w`. */
  ghost predicate Runs(w: World, cs: seq<Change>, w': World): (runs: bool)
    requires Aligned(w)
    ensures runs ==> Aligned(w')
    decreases |cs|
  {
    if cs == [] then w == w'
    else Permits(w.db, cs[0]) && Runs(Advance(w, cs[0]), cs[1..], w')
  }

  /** Safety over whole runs, from any good world. */
  lemma {:induction false} RunsKeepInv(w: World, cs: seq<Change>, w': World)
    requires WorldInv(w) && Runs(w, cs, w')
    ensures WorldInv(w')
    decreases |cs|
  {
    if cs != [] {
      AdvanceKeepsInv(w, cs[0]);
      RunsKeepInv(Advance(w, cs[0]), cs[1..], w');
    }
  }

  /** Some run of permitted changes leads from empty tables to `w`. */
  ghost predicate Reachable(w: World): (reachable: bool)
    ensures reachable ==> Aligned(w)
  {
    exists cs :: Runs(NOTHING, cs, w)
  }

  /** Every world reachable from empty tables satisfies the invariant. */
  lemma ReachableWorldsAreGood(w: World)
    requires Reachable(w)
    ensures WorldInv(w)
  {
    var cs :| Runs(NOTHING, cs, w);
    RunsKeepInv(NOTHING, cs, w);
  }

  lemma ReachableLife(w: World, t: TaskId)
    requires Reachable(w) && t in w.db.tasks
    ensures LifeInv(LifeOf(w, t))
  {
    ReachableWorldsAreGood(w);
  }

  lemma {:induction false} BornDuring(w: World, cs: seq<Change>, w': World, t: TaskId) returns (row: Task, evs: seq<RowEvent>)
    requires Aligned(w) && Runs(w, cs, w') && t !in w.db.tasks && t in w'.db.tasks
    ensures row == NewTask(row.taskType, row.priority, row.createdAt) && Leads(Born(row), evs, LifeOf(w', t))
    decreases |cs|
  {
    var next := Advance(w, cs[0]);
    if t in next.db.tasks {
      TablesAfter(w, cs[0]);
      row, evs := cs[0].row, Trace(next, cs[1..], t);
      assert LifeOf(next, t) == Born(row);
      RunsProject(next, cs[1..], w', t);
    } else {
      row, evs := BornDuring(next, cs[1..], w', t);
    }
  }

  /** Every task in every reachable world got there by a run of its own events from its creation. */
  lemma EveryLifeIsARun(w: World, t: TaskId) returns (row: Task, evs: seq<RowEvent>)
    requires Reachable(w) && t in w.db.tasks
    ensures row == NewTask(row.taskType, row.priority, row.createdAt) && Leads(Born(row), evs, LifeOf(w, t))
  {
    var cs :| Runs(NOTHING, cs, w);
    row, evs := BornDuring(NOTHING, cs, w, t);
  }

  lemma RunsFirst(w: World, cs: seq<Change>, w': World) returns (next: World)
    requires Aligned(w) && cs != [] && Runs(w, cs, w')
    ensures Permits(w.db, cs[0]) && next == Advance(w, cs[0])
    ensures Aligned(next) && Runs(next, cs[1..], w')
  {
    next := Advance(w, cs[0]);
  }

  lemma RunsAfter(w: World, c: Change, next: World, cs: seq<Change>, w': World)
    requires Aligned(w) && Permits(w.db, c) && next == Advance(w, c)
    requires Aligned(next) && Runs(next, cs, w')
    ensures Runs(w, [c] + cs, w')
  {
    assert ([c] + cs)[1..] == cs;
  }

  lemma {:induction false} RunsAppend(w: World, cs: seq<Change>, w': World, more: seq<Change>, w'': World)
    requires Aligned(w) && Runs(w, cs, w') && Runs(w', more, w'')
    ensures Runs(w, cs + more, w'')
    decreases |cs|
  {
    ConsAppend(cs, more);
    if cs != [] {
      var next := RunsFirst(w, cs, w');
      RunsAppend(next, cs[1..], w', more, w'');
      RunsAfter(w, cs[0], next, cs[1..] + more, w'');
    }
  }

  lemma StaysReachable(w: World, c: Change)
    requires Reachable(w) && Permits(w.db, c)
    ensures Reachable(Advance(w, c))
  {
    var cs :| Runs(NOTHING, cs, w);
    var w' := Advance(w, c);
    assert [c][1..] == [];
    assert Runs(w', [], w');
    assert Runs(w, [c], w');
    RunsAppend(NOTHING, cs, w, [c], w');
  }

  /** The events one task sees during a run. */
  function Trace(w: World, cs: seq<Change>, t: TaskId): seq<RowEvent>
    requires Aligned(w) && t in w.db.tasks
    decreases |cs|
  {
    if cs == [] then []
    else
      var rest := Trace(Advance(w, cs[0]), cs[1..], t);
      match EventFor(w.db, cs[0], t)
      case None => rest
      case Some(ev) => [ev] + rest
  }

  /** A run of the whole queue is, for each task, a serial run of that task's own events. */
  lemma {:induction false} RunsProject(w: World, cs: seq<Change>, w': World, t: TaskId)
    requires Aligned(w) && Runs(w, cs, w') && t in w.db.tasks
    ensures t in w'.db.tasks
    ensures Leads(LifeOf(w, t), Trace(w, cs, t), LifeOf(w', t))
    decreases |cs|
  {
    if cs != [] {
      LifeAdvances(w, cs[0], t);
      RunsProject(Advance(w, cs[0]), cs[1..], w', t);
      if EventFor(w.db, cs[0], t).Some? {
        LeadsAfter(LifeOf(w, t), EventFor(w.db, cs[0], t).value, Trace(Advance(w, cs[0]), cs[1..], t), LifeOf(w', t));
      }
    }
  }
}
