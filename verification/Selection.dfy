/** `ORDER BY ... LIMIT n` over a set of candidate rows. */
module Selection {
  import opened Basics
  import opened Records

  /** A sort key: `(priority, created_at)` for the queue, `(0, lease_expires_at)` for the reclaimer. */
  datatype Key = Key(major: int, minor: real)

  predicate Before(a: Key, b: Key) {
    a.major < b.major || (a.major == b.major && a.minor < b.minor)
  }

  /** Nothing left behind sorts strictly before something taken. */
  ghost predicate TakenFirst(taken: seq<TaskId>, candidates: set<TaskId>, key: map<TaskId, Key>)
    requires candidates <= key.Keys && ToSet(taken) <= candidates
  {
    && (forall i, u :: 0 <= i < |taken| && u in candidates && u !in taken ==> !Before(key[u], key[taken[i]]))
    && (forall i, j :: 0 <= i < j < |taken| ==> !Before(key[taken[j]], key[taken[i]]))
  }

  /** Nothing in `left` sorts strictly before `t`. */
  ghost predicate IsFirst(t: TaskId, left: set<TaskId>, key: map<TaskId, Key>)
    requires left <= key.Keys
  {
    t in left && forall u :: u in left ==> !Before(key[u], key[t])
  }

  /** A first element of a non-empty set, by scanning it. */
  method PickFirst(left: set<TaskId>, key: map<TaskId, Key>) returns (t: TaskId)
    requires left <= key.Keys && left != {}
    ensures IsFirst(t, left, key)
  {
    t :| t in left;
    var rest := left - {t};
    ghost var seen := {t};
    while rest != {}
      invariant seen + rest == left && seen !! rest
      invariant IsFirst(t, seen, key)
      decreases |rest|
    {
      var u :| u in rest;
      if Before(key[u], key[t]) {
        t := u;
      }
      rest := rest - {u};
      seen := seen + {u};
    }
    assert seen == left;
  }

  /** Taking a first element of what is left keeps the selection in order. */
  lemma FirstGoesNext(taken: seq<TaskId>, candidates: set<TaskId>, key: map<TaskId, Key>, t: TaskId)
    requires candidates <= key.Keys && ToSet(taken) <= candidates && TakenFirst(taken, candidates, key)
    requires IsFirst(t, candidates - ToSet(taken), key) && Distinct(taken)
    ensures ToSet(taken + [t]) <= candidates && Distinct(taken + [t])
    ensures TakenFirst(taken + [t], candidates, key)
  {
    var taken' := taken + [t];
    assert forall x :: x in taken' ==> x in taken || x == t;
    forall i, j | 0 <= i < j < |taken'| ensures !Before(key[taken'[j]], key[taken'[i]]) {
      assert taken'[i] == taken[i];
    }
  }

  /** One more element of a duplicate-free sequence. */
  lemma NextInLine(taken: seq<TaskId>, i: nat)
    requires Distinct(taken) && i < |taken|
    ensures taken[i] !in taken[..i]
    ensures forall t :: t in taken[..i + 1] <==> t in taken[..i] || t == taken[i]
  {
    assert taken[..i + 1] == taken[..i] + [taken[i]];
  }

  lemma OneFewerLeft(taken: seq<TaskId>, candidates: set<TaskId>, t: TaskId)
    requires t in candidates && t !in taken
    ensures candidates - ToSet(taken + [t]) == candidates - ToSet(taken) - {t}
    ensures |candidates - ToSet(taken + [t])| == |candidates - ToSet(taken)| - 1
  {
    assert ToSet(taken + [t]) == ToSet(taken) + {t};
  }

  /** Take the first `limit` candidates; rows with equal keys come in any order. */
  method TakeFirst(candidates: set<TaskId>, key: map<TaskId, Key>, limit: nat) returns (taken: seq<TaskId>)
    requires candidates <= key.Keys
    ensures Distinct(taken) && ToSet(taken) <= candidates
    ensures |taken| == Min(limit, |candidates|)
    ensures TakenFirst(taken, candidates, key)
  {
    taken := [];
    while |taken| < limit && candidates - ToSet(taken) != {}
      invariant Distinct(taken) && ToSet(taken) <= candidates
      invariant |taken| <= limit && |taken| + |candidates - ToSet(taken)| == |candidates|
      invariant TakenFirst(taken, candidates, key)
      decreases limit - |taken|
    {
      var left := candidates - ToSet(taken);
      var t := PickFirst(left, key);
      FirstGoesNext(taken, candidates, key, t);
      OneFewerLeft(taken, candidates, t);
      taken := taken + [t];
    }
  }
}
