/** Release/acquire memory in the manner of vector clocks. A view says how far each
    thread is known to have got: which epochs of data accesses happen before, and
    how old a value each atomic location may still return. */
module Views {
  import opened RingLayout

  /** `written`: epochs of the producer's data writes that happen before.
      `readBy[c]`: epochs of consumer c's data reads that happen before.
      The floors are positions in the modification order of each atomic location:
      an older value than that can no longer be returned. */
  datatype View = View(
    written: nat,
    readBy: seq<nat>,
    slotFloor: seq<nat>,
    cursorFloor: seq<nat>,
    flagFloor: nat)

  /** A release store: the value, and the storing thread's view at that point. */
  datatype Entry = Entry(value: nat, view: View)

  predicate Shaped(v: View, k: nat) {
    |v.readBy| == k && |v.slotFloor| == RING_SIZE && |v.cursorFloor| == k
  }

  function Max(a: nat, b: nat): nat {
    if a < b then b else a
  }

  function MaxEach(a: seq<nat>, b: seq<nat>): (r: seq<nat>)
    requires |a| == |b|
    ensures |r| == |a|
    ensures forall i :: 0 <= i < |a| ==> r[i] == Max(a[i], b[i])
  {
    seq(|a|, i requires 0 <= i < |a| => Max(a[i], b[i]))
  }

  /** What a thread with view v knows after an acquire load that reads an entry
      released with view w. */
  function Join(v: View, w: View, k: nat): (r: View)
    requires Shaped(v, k) && Shaped(w, k)
    ensures Shaped(r, k)
  {
    View(Max(v.written, w.written), MaxEach(v.readBy, w.readBy), MaxEach(v.slotFloor, w.slotFloor),
         MaxEach(v.cursorFloor, w.cursorFloor), Max(v.flagFloor, w.flagFloor))
  }

  function Zero(k: nat): (v: View)
    ensures Shaped(v, k)
  {
    View(0, seq(k, _ => 0), seq(RING_SIZE, _ => 0), seq(k, _ => 0), 0)
  }

  predicate LeqEach(a: seq<nat>, b: seq<nat>)
    requires |a| == |b|
  {
    forall i :: 0 <= i < |a| ==> a[i] <= b[i]
  }

  /** v knows no more than w. */
  predicate Leq(v: View, w: View, k: nat)
    requires Shaped(v, k) && Shaped(w, k)
  {
    && v.written <= w.written
    && LeqEach(v.readBy, w.readBy)
    && LeqEach(v.slotFloor, w.slotFloor)
    && LeqEach(v.cursorFloor, w.cursorFloor)
    && v.flagFloor <= w.flagFloor
  }

  /** Joining is the least upper bound. */
  lemma JoinIsLub(v: View, w: View, top: View, k: nat)
    requires Shaped(v, k) && Shaped(w, k) && Shaped(top, k)
    ensures Leq(v, Join(v, w, k), k) && Leq(w, Join(v, w, k), k)
    ensures Leq(v, top, k) && Leq(w, top, k) ==> Leq(Join(v, w, k), top, k)
  {
  }

  lemma LeqTransitive(u: View, v: View, w: View, k: nat)
    requires Shaped(u, k) && Shaped(v, k) && Shaped(w, k)
    requires Leq(u, v, k) && Leq(v, w, k)
    ensures Leq(u, w, k)
  {
  }
}
