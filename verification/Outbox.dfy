/** The worker's buffer of results not yet acknowledged: insertion ordered, bounded, oldest evicted first. */
module Outbox {
  import opened Basics
  import opened Records

  /** `order` lists the dictionary's keys in insertion order; overwriting a key keeps its place. */
  datatype Box = Box(order: seq<TaskId>, envelopes: map<TaskId, Envelope>)

  const NO_RESULTS := Box([], map[])

  ghost predicate BoxInv(b: Box, cap: nat) {
    Distinct(b.order) && ToSet(b.order) == b.envelopes.Keys && |b.order| <= cap
  }

  lemma BoxSize(b: Box, cap: nat)
    requires BoxInv(b, cap)
    ensures |b.envelopes| == |b.order|
  {
    DistinctCount(b.order);
    assert |b.envelopes.Keys| == |b.envelopes|;
  }

  function DropOldest(b: Box): Box
    requires b.order != []
  {
    Box(b.order[1..], b.envelopes - {b.order[0]})
  }

  /** Make room for one more: with a full buffer, drop the oldest, even when the new result would overwrite. */
  function MakeRoom(b: Box, cap: nat): Box {
    if |b.order| >= cap && b.order != [] then DropOldest(b) else b
  }

  function Put(b: Box, t: TaskId, e: Envelope): Box {
    Box(if t in b.envelopes then b.order else b.order + [t], b.envelopes[t := e])
  }

  function Recorded(b: Box, cap: nat, t: TaskId, e: Envelope): Box {
    Put(MakeRoom(b, cap), t, e)
  }

  function Acknowledged(b: Box, t: TaskId): Box {
    Box(Without(b.order, t), b.envelopes - {t})
  }

  lemma MakeRoomInv(b: Box, cap: nat)
    requires BoxInv(b, cap) && cap >= 1
    ensures BoxInv(MakeRoom(b, cap), cap) && |MakeRoom(b, cap).order| < cap
    ensures MakeRoom(b, cap).envelopes.Keys <= b.envelopes.Keys
  {
    if |b.order| >= cap {
      assert b.order == [b.order[0]] + b.order[1..];
      assert ToSet(b.order) == {b.order[0]} + ToSet(b.order[1..]);
    }
  }

  lemma RecordedInv(b: Box, cap: nat, t: TaskId, e: Envelope)
    requires BoxInv(b, cap) && cap >= 1
    ensures BoxInv(Recorded(b, cap, t, e), cap)
    ensures t in Recorded(b, cap, t, e).envelopes && Recorded(b, cap, t, e).envelopes[t] == e
  {
    MakeRoomInv(b, cap);
    var room := MakeRoom(b, cap);
    if t !in room.envelopes {
      assert t !in ToSet(room.order);
      assert ToSet(room.order + [t]) == ToSet(room.order) + {t};
    } else {
      assert room.envelopes.Keys + {t} == room.envelopes.Keys;
    }
  }

  lemma AcknowledgedInv(b: Box, cap: nat, t: TaskId)
    requires BoxInv(b, cap)
    ensures BoxInv(Acknowledged(b, t), cap)
  {
    WithoutRemoves(b.order, t);
    WithoutAsSet(b.order, t);
  }

  // ---------- Conservation over a run ----------

  datatype BoxEvent = Record(task: TaskId, envelope: Envelope) | Acknowledge(task: TaskId)

  /** Where every recorded result went. */
  datatype Books = Books(recorded: nat, acknowledged: nat, evicted: nat, overwritten: nat)

  function BoxAfter(b: Box, cap: nat, ev: BoxEvent): Box {
    match ev
    case Record(t, e) => Recorded(b, cap, t, e)
    case Acknowledge(t) => Acknowledged(b, t)
  }

  function BooksAfter(books: Books, b: Box, cap: nat, ev: BoxEvent): Books {
    match ev
    case Record(t, _) =>
      var room := MakeRoom(b, cap);
      books.(recorded := books.recorded + 1,
             evicted := books.evicted + |b.order| - |room.order|,
             overwritten := books.overwritten + if t in room.envelopes then 1 else 0)
    case Acknowledge(t) => books.(acknowledged := books.acknowledged + if t in b.envelopes then 1 else 0)
  }

  ghost predicate Balanced(books: Books, b: Box) {
    books.recorded == |b.order| + books.acknowledged + books.evicted + books.overwritten
  }

  lemma EventBalances(books: Books, b: Box, cap: nat, ev: BoxEvent)
    requires BoxInv(b, cap) && cap >= 1 && Balanced(books, b)
    ensures BoxInv(BoxAfter(b, cap, ev), cap) && Balanced(BooksAfter(books, b, cap, ev), BoxAfter(b, cap, ev))
  {
    match ev
    case Record(t, e) => RecordedInv(b, cap, t, e);
    case Acknowledge(t) =>
      AcknowledgedInv(b, cap, t);
      WithoutRemoves(b.order, t);
      assert t in b.envelopes.Keys <==> t in ToSet(b.order);
  }

  function BoxRun(b: Box, cap: nat, evs: seq<BoxEvent>): Box
    decreases |evs|
  {
    if evs == [] then b else BoxRun(BoxAfter(b, cap, evs[0]), cap, evs[1..])
  }

  function BooksRun(books: Books, b: Box, cap: nat, evs: seq<BoxEvent>): Books
    decreases |evs|
  {
    if evs == [] then books
    else BooksRun(BooksAfter(books, b, cap, evs[0]), BoxAfter(b, cap, evs[0]), cap, evs[1..])
  }

  lemma {:induction false} RunBalances(books: Books, b: Box, cap: nat, evs: seq<BoxEvent>)
    requires BoxInv(b, cap) && cap >= 1 && Balanced(books, b)
    ensures BoxInv(BoxRun(b, cap, evs), cap) && Balanced(BooksRun(books, b, cap, evs), BoxRun(b, cap, evs))
    decreases |evs|
  {
    if evs != [] {
      EventBalances(books, b, cap, evs[0]);
      RunBalances(BooksAfter(books, b, cap, evs[0]), BoxAfter(b, cap, evs[0]), cap, evs[1..]);
    }
  }

  /** No result vanishes: each one recorded is pending, acknowledged, evicted at the cap, or overwritten; never more than the cap pend. */
  lemma EveryResultIsAccountedFor(cap: nat, evs: seq<BoxEvent>)
    requires cap >= 1
    ensures var books, b := BooksRun(Books(0, 0, 0, 0), NO_RESULTS, cap, evs), BoxRun(NO_RESULTS, cap, evs);
      && books.recorded == |b.order| + books.acknowledged + books.evicted + books.overwritten
      && |b.order| <= cap
  {
    RunBalances(Books(0, 0, 0, 0), NO_RESULTS, cap, evs);
  }

  /** An eviction takes exactly the oldest key, and only from a full buffer. */
  lemma EvictionTakesOldest(b: Box, cap: nat, t: TaskId, e: Envelope, u: TaskId)
    requires BoxInv(b, cap) && cap >= 1 && u in b.envelopes && u != t
    ensures u !in Recorded(b, cap, t, e).envelopes <==> |b.order| == cap && u == b.order[0]
    ensures u in Recorded(b, cap, t, e).envelopes ==> Recorded(b, cap, t, e).envelopes[u] == b.envelopes[u]
  {
    assert u in ToSet(b.order);
  }
}
