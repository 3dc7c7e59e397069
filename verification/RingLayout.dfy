/** Where the message with a given sequence number lives in the ring. */
module RingLayout {
  import opened Arithmetic64

  const RING_SIZE: int := 1024
  const RING_MASK: int := RING_SIZE - 1
  const MAX_CONSUMERS: int := 64

  /** The slot that message number s goes to. */
  function RingIndex(s: nat): (i: nat) {
    s % 1024
  }

  /** `seq & kRingMask` selects exactly that slot. */
  lemma MaskSelectsSlot(s: nat)
    ensures BitAnd(s, RING_MASK) == RingIndex(s) < RING_SIZE
  {
    assert Pow2(10) == 1024 by {
      assert Pow2(5) == 32;
      assert Pow2(8) == 256;
    }
    MaskIsRemainder(s, 10);
  }

  /** The latest sequence number in 1..n stored in slot i, or 0 when there is none. */
  function LastIn(n: nat, i: nat): (s: nat)
    ensures s <= n
  {
    if n == 0 then 0
    else if RingIndex(n) == i then n
    else LastIn(n - 1, i)
  }

  lemma {:induction false} LastInIsLatest(n: nat, i: nat, t: nat)
    ensures LastIn(n, i) == 0 || RingIndex(LastIn(n, i)) == i
    ensures 1 <= t <= n && RingIndex(t) == i ==> t <= LastIn(n, i)
  {
    if n > 0 && RingIndex(n) != i {
      LastInIsLatest(n - 1, i, t);
    }
  }

  /** Numbers less than a ring apart never share a slot. */
  lemma DistinctSlots(a: nat, b: nat)
    requires a < b < a + RING_SIZE
    ensures RingIndex(a) != RingIndex(b)
  {
  }

  lemma SameSlotApart(a: nat, b: nat)
    requires a < b && RingIndex(a) == RingIndex(b)
    ensures b >= a + RING_SIZE
  {
  }

  /** What the slot of `s` holds after n publishes, relative to s. */
  lemma LastInOf(n: nat, s: nat)
    requires s >= 1
    ensures LastIn(n, RingIndex(s)) >= s <==> s <= n
    ensures LastIn(n, RingIndex(s)) == s <==> s <= n < s + RING_SIZE
    ensures n < s ==> LastIn(n, RingIndex(s)) == 0 || LastIn(n, RingIndex(s)) + RING_SIZE <= s
  {
    var l := LastIn(n, RingIndex(s));
    LastInIsLatest(n, RingIndex(s), s);
    LastInIsLatest(n, RingIndex(s), s + RING_SIZE);
    assert l > s ==> l >= s + RING_SIZE;
    assert RingIndex(s + RING_SIZE) == RingIndex(s);
  }

  lemma RingIndexWraps(s: nat)
    ensures RingIndex(s + RING_SIZE) == RingIndex(s)
  {
  }

  /** Once a whole ring past s, the slot of s holds message s + 1024. */
  lemma LastInOnceLapped(n: nat, s: nat)
    requires s >= 1 && s + RING_SIZE <= n < s + 2 * RING_SIZE
    ensures LastIn(n, RingIndex(s)) == s + RING_SIZE
  {
    LastInOf(n, s + RING_SIZE);
    RingIndexWraps(s);
  }
}
