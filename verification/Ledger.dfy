/** The recovery ledger: gapless, bounded, and unchanged by replays. */
module Ledger {
  import opened Basics
  import opened TaskStates
  import opened Records
  import opened RowMachine
  import opened Life
  import opened Queue

  function FailedAmong(rows: seq<Attempt>): nat {
    if rows == [] then 0
    else FailedAmong(rows[..|rows| - 1]) + if rows[|rows| - 1].outcome == FailedOutcome then 1 else 0
  }

  /** FAILED rows come from the reclaimer or from a worker's report, and from nowhere else. */
  lemma {:induction false} FailedRowsSplit(ledger: seq<Attempt>)
    ensures FailedAmong(ledger)
      == FailedAmong(OfKind(ReclaimKind, ledger)) + FailedAmong(OfKind(ReportKind, ledger))
  {
    if ledger != [] {
      var front, last := ledger[..|ledger| - 1], ledger[|ledger| - 1];
      FailedRowsSplit(front);
      OfKindAppend(ReclaimKind, front, last);
      OfKindAppend(ReportKind, front, last);
      assert ledger == front + [last];
      var reclaims, reports := OfKind(ReclaimKind, front), OfKind(ReportKind, front);
      assert (reclaims + [last])[..|reclaims|] == reclaims;
      assert (reports + [last])[..|reports|] == reports;
    }
  }

  lemma {:induction false} NoFailedAmong(rows: seq<Attempt>)
    requires forall i :: 0 <= i < |rows| ==> rows[i].outcome != FailedOutcome
    ensures FailedAmong(rows) == 0
  {
    if rows != [] {
      NoFailedAmong(rows[..|rows| - 1]);
    }
  }

  /**
   The reclaimer's rows for a task are numbered exactly 0..attempt-1, each names the worker that lost that
   attempt, and all say REASSIGNED except the last one of an exhausted task.
   */
  lemma GaplessLedger(w: World, t: TaskId)
    requires Reachable(w) && t in w.db.tasks
    ensures var rows, row := OfKind(ReclaimKind, w.db.attempts[t]), w.db.tasks[t];
      && |rows| == row.attempt <= |w.claims[t]|
      && forall i :: 0 <= i < |rows| ==>
        && rows[i].number == i
        && rows[i].worker == Some(w.claims[t][i].worker)
        && (rows[i].outcome == FailedOutcome <==> i == row.attempt - 1 && row.status == Failed && row.assignee.None?)
        && (rows[i].outcome == ReassignedOutcome <==> rows[i].outcome != FailedOutcome)
  {
    ReachableLife(w, t);
  }

  /** A task is FAILED exactly when its ledger holds a FAILED row, and then it holds exactly one. */
  lemma OneFailedRow(l: Life)
    requires LifeInv(l)
    ensures FailedAmong(l.ledger) == if l.row.status == Failed then 1 else 0
  {
    FailedRowsSplit(l.ledger);
    var reclaims, reports := OfKind(ReclaimKind, l.ledger), OfKind(ReportKind, l.ledger);
    if l.row.status == Failed && !Claimed(l.row) {
      var n := |reclaims| - 1;
      NoFailedAmong(reclaims[..n]);
      assert reports == [];
    } else {
      NoFailedAmong(reclaims);
      if reports != [] {
        assert reports[..0] == [];
      }
    }
  }

  /** Resubmitting a fenced result any number of times leaves the ledger as the first time left it. */
  lemma FenceIsIdempotent(l: Life, worker: WorkerId, number: nat)
    requires Can(l, Fence(worker, number))
    ensures var l' := Next(l, Fence(worker, number));
      && l'.row == l.row
      && HasRow(l'.ledger, worker, number, FencedOutcome)
      && Can(l', Fence(worker, number))
      && Next(l', Fence(worker, number)) == l'
  {
    var ledger' := LedgerAfter(l.row, l.ledger, Fence(worker, number));
    if !HasRow(l.ledger, worker, number, FencedOutcome) {
      assert ledger'[|l.ledger|].worker == Some(worker);
    }
    if !Holds(l.row, worker) {
      var i :| 0 <= i < |l.ledger| && l.ledger[i].worker == Some(worker);
      assert ledger'[i].worker == Some(worker);
    }
  }

  // ---------- The bound on fence rows ----------

  function HolderSet(claims: seq<ClaimRecord>): (holders: set<WorkerId>)
    ensures |holders| <= |claims|
  {
    if claims == [] then {} else HolderSet(claims[..|claims| - 1]) + {claims[|claims| - 1].worker}
  }

  lemma {:induction false} HolderSetMembers(claims: seq<ClaimRecord>, worker: WorkerId)
    ensures worker in HolderSet(claims) <==> IsHolder(claims, worker)
  {
    if claims != [] {
      var front, last := claims[..|claims| - 1], claims[|claims| - 1];
      HolderSetMembers(front, worker);
      assert claims == front + [last];
      if IsHolder(front, worker) {
        var i :| 0 <= i < |front| && front[i].worker == worker;
        assert claims[i].worker == worker;
      }
      if last.worker == worker {
        assert claims[|claims| - 1].worker == worker;
      }
    }
  }

  /** All (holder, attempt) pairs with an attempt below `n`. */
  ghost function Pairs(holders: set<WorkerId>, n: nat): set<(WorkerId, int)> {
    set h, k | h in holders && 0 <= k < n :: (h, k)
  }

  ghost function Column(holders: set<WorkerId>, k: int): set<(WorkerId, int)> {
    set h | h in holders :: (h, k)
  }

  lemma {:induction false} PairsCount(holders: set<WorkerId>, n: nat)
    ensures |Pairs(holders, n)| == |holders| * n
    decreases n
  {
    if n == 0 {
      assert Pairs(holders, n) == {};
    } else {
      PairsCount(holders, n - 1);
      var column := Column(holders, n - 1);
      ColumnCount(holders, n - 1);
      var fewer := Pairs(holders, n - 1);
      assert Pairs(holders, n) == fewer + column;
      assert fewer !! column;
    }
  }

  lemma {:induction false} ColumnCount(holders: set<WorkerId>, k: int)
    ensures |Column(holders, k)| == |holders|
    decreases holders
  {
    if holders == {} {
      assert Column(holders, k) == {};
    } else {
      var x :| x in holders;
      var rest := holders - {x};
      ColumnCount(rest, k);
      assert Column(holders, k) == Column(rest, k) + {(x, k)};
    }
  }

  function PairOf(a: Attempt): (WorkerId, int)
    requires a.worker.Some?
  {
    (a.worker.value, a.number)
  }

  /** The (worker, attempt) pairs a sequence of rows names; distinct rows name distinct pairs. */
  lemma {:induction false} DistinctPairs(rows: seq<Attempt>)
    requires forall i :: 0 <= i < |rows| ==> rows[i].worker.Some?
    requires forall i, j :: 0 <= i < j < |rows| ==>
      rows[i].worker != rows[j].worker || rows[i].number != rows[j].number
    ensures |set i | 0 <= i < |rows| :: PairOf(rows[i])| == |rows|
  {
    var all := set i | 0 <= i < |rows| :: PairOf(rows[i]);
    if rows == [] {
      assert all == {};
    } else {
      var n := |rows| - 1;
      var front := rows[..n];
      DistinctPairs(front);
      var some := set i | 0 <= i < |front| :: PairOf(front[i]);
      assert forall i :: 0 <= i < n ==> front[i] == rows[i];
      assert all == some + {PairOf(rows[n])};
    }
  }

  lemma SquareBound(x: nat, n: nat)
    requires x <= n
    ensures x * n <= n * n
  {
  }

  /** Adversarial resubmission writes at most (attempt + 1)^2 fence rows per task, ever. */
  lemma FenceRowsBounded(l: Life)
    requires LifeInv(l)
    ensures |OfKind(FenceKind, l.ledger)| <= (l.row.attempt + 1) * (l.row.attempt + 1)
  {
    var rows, n, holders := OfKind(FenceKind, l.ledger), l.row.attempt + 1, HolderSet(l.claims);
    DistinctPairs(rows);
    var named := set i | 0 <= i < |rows| :: PairOf(rows[i]);
    forall i | 0 <= i < |rows| ensures PairOf(rows[i]) in Pairs(holders, n) {
      HolderSetMembers(l.claims, rows[i].worker.value);
    }
    assert named <= Pairs(holders, n);
    SubsetCount(named, Pairs(holders, n));
    PairsCount(holders, n);
    SquareBound(|holders|, n);
  }

  lemma {:induction false} SubsetCount<T>(a: set<T>, b: set<T>)
    requires a <= b
    ensures |a| <= |b|
  {
    if a != {} {
      var x :| x in a;
      SubsetCount(a - {x}, b - {x});
    }
  }
}
