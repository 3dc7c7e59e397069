/** What the queue is for: an append-only log, and for each reader a cursor into it.
    A reader never falls more than one ring behind. It may join one message ahead of
    the end, behind the message that is just being written. */
module Broadcast {
  import opened RingLayout
  import opened QueueSpec

  /** A reader that joined at message `start`, expects `next`, and has been given
      `delivered` so far. */
  datatype Reader<M> = Reader(start: nat, next: nat, delivered: seq<M>)

  datatype Board<M> = Board(log: seq<M>, readers: seq<Option<Reader<M>>>)

  datatype Event<M> =
    | Stutter
    | Append(message: M)
    | Deliver(id: nat)
    | Join(id: nat, start: nat)
    | Leave(id: nat)

  predicate CanHappen<M>(b: Board<M>, e: Event<M>) {
    match e
    case Stutter => true
    case Append(_) =>
      forall c :: 0 <= c < |b.readers| && b.readers[c].Some? ==> |b.log| + 1 < b.readers[c].value.next + RING_SIZE
    case Deliver(c) => c < |b.readers| && b.readers[c].Some? && 1 <= b.readers[c].value.next <= |b.log|
    case Join(c, start) =>
      c < |b.readers| && b.readers[c].None? && 1 <= start <= |b.log| + 2 && |b.log| + 1 <= start + RING_SIZE
    case Leave(c) => c < |b.readers| && b.readers[c].Some?
  }

  function Happen<M>(b: Board<M>, e: Event<M>): Board<M>
    requires CanHappen(b, e)
  {
    match e
    case Stutter => b
    case Append(m) => b.(log := b.log + [m])
    case Deliver(c) =>
      var r := b.readers[c].value;
      var r' := r.(next := r.next + 1, delivered := r.delivered + [b.log[r.next - 1]]);
      b.(readers := b.readers[c := Some(r')])
    case Join(c, start) => b.(readers := b.readers[c := Some(Reader(start, start, []))])
    case Leave(c) => b.(readers := b.readers[c := None])
  }

  /** The events can happen one after the other. */
  predicate CanAll<M>(b: Board<M>, es: seq<Event<M>>)
    decreases |es|, 0
  {
    es != [] ==>
      var front := es[..|es| - 1];
      CanAll(b, front) && CanHappen(HappenAll(b, front), es[|es| - 1])
  }

  function HappenAll<M>(b: Board<M>, es: seq<Event<M>>): Board<M>
    requires CanAll(b, es)
    decreases |es|, 1
  {
    if es == [] then b else Happen(HappenAll(b, es[..|es| - 1]), es[|es| - 1])
  }

  /** The messages numbered start .. next - 1 have been given, in order, and no others. */
  ghost predicate GivenExactly<M>(log: seq<M>, start: nat, next: nat, delivered: seq<M>) {
    if start == next then delivered == []
    else 1 <= start < next <= |log| + 1 && delivered == log[start - 1..next - 1]
  }

  /** The reader holds log[start .. next - 1] and has at most 1024 unread. */
  ghost predicate ReaderExact<M>(r: Reader<M>, log: seq<M>) {
    && 1 <= r.start <= r.next <= |log| + 2 && |log| + 1 <= r.next + RING_SIZE
    && GivenExactly(log, r.start, r.next, r.delivered)
  }

  ghost predicate Exact<M>(b: Board<M>) {
    forall c :: 0 <= c < |b.readers| && b.readers[c].Some? ==> ReaderExact(b.readers[c].value, b.log)
  }

  lemma AppendKeepsReader<M>(r: Reader<M>, log: seq<M>, m: M)
    requires ReaderExact(r, log) && |log| + 1 < r.next + RING_SIZE
    ensures ReaderExact(r, log + [m])
  {
    if r.start < r.next {
      assert (log + [m])[r.start - 1..r.next - 1] == log[r.start - 1..r.next - 1];
    }
  }

  lemma DeliverKeepsReader<M>(r: Reader<M>, log: seq<M>)
    requires ReaderExact(r, log) && r.next <= |log|
    ensures ReaderExact(r.(next := r.next + 1, delivered := r.delivered + [log[r.next - 1]]), log)
  {
    assert log[r.start - 1..r.next] == log[r.start - 1..r.next - 1] + [log[r.next - 1]];
  }

  lemma HappenKeepsExact<M>(b: Board<M>, e: Event<M>)
    requires Exact(b) && CanHappen(b, e)
    ensures Exact(Happen(b, e)) && b.log <= Happen(b, e).log
  {
    match e
    case Append(m) =>
      forall c | 0 <= c < |b.readers| && b.readers[c].Some?
        ensures ReaderExact(b.readers[c].value, b.log + [m])
      {
        AppendKeepsReader(b.readers[c].value, b.log, m);
      }
    case Deliver(c) => DeliverKeepsReader(b.readers[c].value, b.log);
    case _ =>
  }

  /** On the board, delivery is exact in every history. */
  lemma {:induction false} HistoryKeepsExact<M>(b: Board<M>, es: seq<Event<M>>)
    requires Exact(b) && CanAll(b, es)
    ensures Exact(HappenAll(b, es)) && b.log <= HappenAll(b, es).log
    decreases |es|
  {
    if es != [] {
      var front := es[..|es| - 1];
      HistoryKeepsExact(b, front);
      HappenKeepsExact(HappenAll(b, front), es[|es| - 1]);
    }
  }
}
