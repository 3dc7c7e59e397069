/** What one call on the queue does to its memory, as functions on values,
    and the invariant that ties that memory to the log of published messages. */
module QueueSpec {
  import opened Arithmetic64
  import opened RingLayout

  datatype Option<+T> = None | Some(value: T)

  datatype Slot<T> = Slot(sequence: u64, data: T)

  datatype ConsumerSlot = ConsumerSlot(active: bool, sequence: u64)

  datatype QueueState<T> = QueueState(
    ring: seq<Slot<T>>,
    consumers: seq<ConsumerSlot>,
    next: u64,
    cachedMin: u64)

  predicate WellSized<T>(q: QueueState<T>) {
    |q.ring| == RING_SIZE && |q.consumers| == MAX_CONSUMERS
  }

  // ---------- the four operations ----------

  /** The wrapping distance test that makes the ring look full. */
  predicate SeemsFull(nextSeq: u64, min: u64) {
    Sub64(nextSeq, min) >= RING_SIZE
  }

  /** The smallest sequence of an active consumer; 2^64-1 when none is active. */
  function ScanMin(cs: seq<ConsumerSlot>): (m: u64)
    ensures forall i :: 0 <= i < |cs| && cs[i].active ==> m <= cs[i].sequence
    ensures m == U64_MAX || exists i :: 0 <= i < |cs| && cs[i].active && cs[i].sequence == m
  {
    if cs == [] then U64_MAX
    else
      var front, last := cs[..|cs| - 1], cs[|cs| - 1];
      var m := ScanMin(front);
      assert m == U64_MAX || exists i :: 0 <= i < |front| && cs[i].active && cs[i].sequence == m by {
        if m != U64_MAX {
          var i :| 0 <= i < |front| && front[i].active && front[i].sequence == m;
          assert cs[i] == front[i];
        }
      }
      assert forall i :: 0 <= i < |front| ==> front[i] == cs[i];
      if last.active && last.sequence < m then last.sequence else m
  }

  /** The fast check fails: publish will scan. */
  predicate MustScan<T>(q: QueueState<T>) {
    SeemsFull(Add64(q.next, 1), q.cachedMin)
  }

  /** The cached minimum after the fast check and, when that fails, the rescan. */
  function RefreshedMin<T>(q: QueueState<T>): u64 {
    if MustScan(q) then ScanMin(q.consumers) else q.cachedMin
  }

  function Store<T>(q: QueueState<T>, item: T): QueueState<T>
    requires WellSized(q)
  {
    var n := Add64(q.next, 1);
    q.(next := n, ring := q.ring[RingIndex(n) := Slot(Add64(n, 1), item)])
  }

  function Publish<T>(q: QueueState<T>, item: T): (QueueState<T>, bool)
    requires WellSized(q)
  {
    var q1 := q.(cachedMin := RefreshedMin(q));
    if SeemsFull(Add64(q.next, 1), q1.cachedMin) then (q1, false) else (Store(q1, item), true)
  }

  /** The naive producer: it scans every consumer on every call. */
  function PublishRescanning<T>(q: QueueState<T>, item: T): (QueueState<T>, bool)
    requires WellSized(q)
  {
    var q1 := q.(cachedMin := ScanMin(q.consumers));
    if SeemsFull(Add64(q.next, 1), q1.cachedMin) then (q1, false) else (Store(q1, item), true)
  }

  predicate IsActive<T>(q: QueueState<T>, id: int)
    requires WellSized(q)
  {
    0 <= id < MAX_CONSUMERS && q.consumers[id].active
  }

  function SetCursor<T>(q: QueueState<T>, id: int, s: u64): QueueState<T>
    requires WellSized(q) && 0 <= id < MAX_CONSUMERS
  {
    q.(consumers := q.consumers[id := q.consumers[id].(sequence := s)])
  }

  function Consume<T>(q: QueueState<T>, id: int): (QueueState<T>, Option<T>)
    requires WellSized(q)
  {
    if !IsActive(q, id) then (q, None)
    else
      var s := q.consumers[id].sequence;
      var slot := q.ring[RingIndex(s)];
      if slot.sequence <= s then (q, None)
      else (SetCursor(q, id, Add64(s, 1)), Some(slot.data))
  }

  function FirstInactive(cs: seq<ConsumerSlot>, i: nat): (r: nat)
    requires i <= |cs|
    ensures i <= r <= |cs|
    ensures forall j :: i <= j < r ==> cs[j].active
    ensures r < |cs| ==> !cs[r].active
    decreases |cs| - i
  {
    if i == |cs| || !cs[i].active then i else FirstInactive(cs, i + 1)
  }

  function Register<T>(q: QueueState<T>, start: u64): (QueueState<T>, Option<nat>)
    requires WellSized(q)
  {
    var id := FirstInactive(q.consumers, 0);
    if id == MAX_CONSUMERS then (q, None)
    else (q.(consumers := q.consumers[id := ConsumerSlot(true, start)]), Some(id))
  }

  function Unregister<T>(q: QueueState<T>, id: int): QueueState<T>
    requires WellSized(q)
  {
    if 0 <= id < MAX_CONSUMERS
    then q.(consumers := q.consumers[id := q.consumers[id].(active := false)])
    else q
  }

  // ---------- the invariant ----------

  /** Slot i holds the latest message whose number selects it, stamped number + 1. */
  ghost predicate SlotHolds<T>(slot: Slot<T>, log: seq<T>, i: nat) {
    var l := LastIn(|log|, i);
    if l == 0 then slot.sequence == 0 else slot.sequence == l + 1 && slot.data == log[l - 1]
  }

  /** The ring stores exactly the tail of the log. */
  ghost predicate Stores<T>(q: QueueState<T>, log: seq<T>) {
    && WellSized(q)
    && q.next == |log|
    && forall i :: 0 <= i < RING_SIZE ==> SlotHolds(q.ring[i], log, i)
  }

  /** A cursor between "1024 unread" and "nothing unread", not below the cache. */
  predicate InWindow(s: u64, next: u64, cachedMin: u64) {
    && 1 <= s <= next + 1 <= s + RING_SIZE
    && (cachedMin == U64_MAX || cachedMin <= s)
  }

  /** The cache is never ahead of the producer; the sentinel appears only once a scan
      has been due. */
  predicate CacheSound(next: u64, cachedMin: u64) {
    if cachedMin == U64_MAX then next >= RING_SIZE - 1 else cachedMin <= next
  }

  ghost predicate Inv<T>(q: QueueState<T>, log: seq<T>) {
    && Stores(q, log)
    && q.next <= U64_MAX - 2
    && CacheSound(q.next, q.cachedMin)
    && forall i :: 0 <= i < MAX_CONSUMERS && q.consumers[i].active ==>
        InWindow(q.consumers[i].sequence, q.next, q.cachedMin)
  }

  predicate SomeActive<T>(q: QueueState<T>)
    requires WellSized(q)
  {
    exists i :: 0 <= i < MAX_CONSUMERS && q.consumers[i].active
  }

  /** Some active consumer has a whole ring of unread messages. */
  predicate TrulyFull<T>(q: QueueState<T>)
    requires WellSized(q)
  {
    exists i :: 0 <= i < MAX_CONSUMERS && q.consumers[i].active
      && q.next + 1 - q.consumers[i].sequence == RING_SIZE
  }

  predicate Fresh<T>(q: QueueState<T>) {
    && WellSized(q)
    && q.next == 0 && q.cachedMin == 0
    && (forall i :: 0 <= i < RING_SIZE ==> q.ring[i].sequence == 0)
    && (forall i :: 0 <= i < MAX_CONSUMERS ==> q.consumers[i] == ConsumerSlot(false, 0))
  }

  lemma FreshInv<T>(q: QueueState<T>)
    requires Fresh(q)
    ensures Inv(q, [])
  {
  }

  // ---------- the ring and the log ----------

  lemma StoreKeepsSlot<T>(q: QueueState<T>, log: seq<T>, item: T, i: nat)
    requires Stores(q, log) && i < RING_SIZE && i != RingIndex(|log| + 1)
    ensures SlotHolds(q.ring[i], log + [item], i)
  {
    assert LastIn(|log| + 1, i) == LastIn(|log|, i);
    assert SlotHolds(q.ring[i], log, i);
  }

  lemma StoreFillsSlot<T>(q: QueueState<T>, log: seq<T>, item: T)
    requires Stores(q, log) && q.next <= U64_MAX - 2
    ensures var i := RingIndex(|log| + 1);
      i < RING_SIZE && SlotHolds(Store(q, item).ring[i], log + [item], i)
  {
    assert LastIn(|log| + 1, RingIndex(|log| + 1)) == |log| + 1;
  }

  lemma StoreExtendsLog<T>(q: QueueState<T>, log: seq<T>, item: T)
    requires Stores(q, log) && q.next <= U64_MAX - 2
    ensures Stores(Store(q, item), log + [item])
  {
    var q', log' := Store(q, item), log + [item];
    StoreFillsSlot(q, log, item);
    forall i | 0 <= i < RING_SIZE ensures SlotHolds(q'.ring[i], log', i) {
      if i != RingIndex(|log| + 1) {
        StoreKeepsSlot(q, log, item, i);
      }
    }
  }

  /** Whatever the cursor s >= 1, consume finds a message iff number s has been
      published; it is the latest number >= s in that slot, and s itself iff the
      cursor has not been lapped. */
  lemma ConsumeFindsLatest<T>(q: QueueState<T>, log: seq<T>, id: int)
    requires Stores(q, log) && q.next <= U64_MAX - 2
    requires IsActive(q, id) && q.consumers[id].sequence >= 1
    ensures var s := q.consumers[id].sequence;
      var l := LastIn(|log|, RingIndex(s));
      && (Consume(q, id).1.Some? <==> s <= |log|)
      && (Consume(q, id).1.Some? ==> l >= s && Consume(q, id).1 == Some(log[l - 1]))
      && (Consume(q, id).1.Some? ==> (l == s <==> |log| < s + RING_SIZE))
  {
    var s := q.consumers[id].sequence;
    LastInOf(|log|, s);
    assert SlotHolds(q.ring[RingIndex(s)], log, RingIndex(s));
  }

  // ---------- each operation, exactly ----------

  lemma DistanceTest(next: u64, min: u64)
    requires next <= U64_MAX - 2
    ensures min <= next + 1 ==> (SeemsFull(Add64(next, 1), min) <==> next + 1 - min >= RING_SIZE)
    ensures SeemsFull(Add64(next, 1), U64_MAX) <==> next >= RING_SIZE - 2
  {
  }

  /** In every invariant state the wrapping test is the integer test, and the
      sentinel never lets a publish through. */
  lemma WrappingTestFaithful<T>(q: QueueState<T>, log: seq<T>)
    requires Inv(q, log)
    ensures SeemsFull(Add64(q.next, 1), q.cachedMin) <==>
      q.cachedMin == U64_MAX || q.next + 1 - q.cachedMin >= RING_SIZE
    ensures SomeActive(q) ==>
      (SeemsFull(Add64(q.next, 1), ScanMin(q.consumers)) <==>
       q.next + 1 - ScanMin(q.consumers) >= RING_SIZE)
  {
    DistanceTest(q.next, q.cachedMin);
    if SomeActive(q) {
      ScanWindow(q, log);
      DistanceTest(q.next, ScanMin(q.consumers));
    }
  }

  /** With an active consumer the scanned minimum is a real cursor. */
  lemma ScanWindow<T>(q: QueueState<T>, log: seq<T>)
    requires Inv(q, log) && SomeActive(q)
    ensures InWindow(ScanMin(q.consumers), q.next, q.cachedMin)
    ensures TrulyFull(q) <==> q.next + 1 - ScanMin(q.consumers) == RING_SIZE
  {
    var m := ScanMin(q.consumers);
    var k :| 0 <= k < MAX_CONSUMERS && q.consumers[k].active;
    assert m <= q.consumers[k].sequence;
    var i :| 0 <= i < MAX_CONSUMERS && q.consumers[i].active && q.consumers[i].sequence == m;
    if TrulyFull(q) {
      var j :| 0 <= j < MAX_CONSUMERS && q.consumers[j].active
        && q.next + 1 - q.consumers[j].sequence == RING_SIZE;
      assert m <= q.consumers[j].sequence;
    }
  }

  /** With an active consumer publish fails exactly when the slowest one has 1024
      unread messages; with none it depends on the cache alone. Either way the log
      grows by the item or not at all, and the cursors stay where they were. */
  lemma PublishExact<T>(q: QueueState<T>, log: seq<T>, item: T)
    requires Inv(q, log) && q.next < U64_MAX - 2
    ensures SomeActive(q) ==> (Publish(q, item).1 <==> !TrulyFull(q))
    ensures !SomeActive(q) ==>
      (Publish(q, item).1 <==> q.cachedMin != U64_MAX && q.next + 1 - q.cachedMin < RING_SIZE)
    ensures Publish(q, item).0.consumers == q.consumers
    ensures Publish(q, item).1 ==> Inv(Publish(q, item).0, log + [item])
    ensures !Publish(q, item).1 ==>
      && Inv(Publish(q, item).0, log)
      && Publish(q, item).0.ring == q.ring && Publish(q, item).0.next == q.next
  {
    WrappingTestFaithful(q, log);
    DistanceTest(q.next, U64_MAX);
    var q1 := q.(cachedMin := RefreshedMin(q));
    if SomeActive(q) {
      ScanWindow(q, log);
    } else {
      assert ScanMin(q.consumers) == U64_MAX;
    }
    assert Stores(q1, log);
    StoreExtendsLog(q1, log, item);
  }

  lemma AdvanceKeepsInv<T>(q: QueueState<T>, log: seq<T>, id: int)
    requires Inv(q, log) && IsActive(q, id) && q.consumers[id].sequence <= |log|
    ensures Add64(q.consumers[id].sequence, 1) == q.consumers[id].sequence + 1
    ensures Inv(SetCursor(q, id, q.consumers[id].sequence + 1), log)
  {
  }

  lemma ConsumeExact<T>(q: QueueState<T>, log: seq<T>, id: int)
    requires Inv(q, log)
    ensures Consume(q, id).1.Some? <==> IsActive(q, id) && q.consumers[id].sequence <= |log|
    ensures Consume(q, id).1.Some? ==>
      var s := q.consumers[id].sequence;
      Consume(q, id) == (SetCursor(q, id, s + 1), Some(log[s - 1]))
    ensures Consume(q, id).1.None? ==> Consume(q, id).0 == q
    ensures Inv(Consume(q, id).0, log)
  {
    if IsActive(q, id) {
      var s := q.consumers[id].sequence;
      ConsumeFindsLatest(q, log, id);
      if s <= |log| {
        AdvanceKeepsInv(q, log, id);
      }
    }
  }

  /** When publish is refused with somebody active, the slowest consumer can read. */
  lemma RefusedPublishUnblocks<T>(q: QueueState<T>, log: seq<T>, item: T) returns (slowest: nat)
    requires Inv(q, log) && q.next < U64_MAX - 2
    requires SomeActive(q) && !Publish(q, item).1
    ensures IsActive(q, slowest) && |log| + 1 - q.consumers[slowest].sequence == RING_SIZE
    ensures forall i :: IsActive(q, i) ==> q.consumers[slowest].sequence <= q.consumers[i].sequence
    ensures Consume(Publish(q, item).0, slowest).1 == Some(log[q.consumers[slowest].sequence - 1])
  {
    PublishExact(q, log, item);
    slowest :| 0 <= slowest < MAX_CONSUMERS && q.consumers[slowest].active
      && q.next + 1 - q.consumers[slowest].sequence == RING_SIZE;
    ConsumeExact(Publish(q, item).0, log, slowest);
  }

  /** What the source must demand of register_consumer's callers. */
  predicate RegistrationContract(start: u64, next: u64, cachedMin: u64) {
    && 1 <= start <= next + 1
    && next + 1 - start <= RING_SIZE
    && (cachedMin == U64_MAX || cachedMin <= start)
  }

  /** The lowest free record is taken, none is found exactly when all 64 are in
      use, and the invariant survives exactly when the contract was met. */
  lemma RegisterExact<T>(q: QueueState<T>, log: seq<T>, start: u64)
    requires Inv(q, log)
    ensures Register(q, start).1.None? <==> forall i :: 0 <= i < MAX_CONSUMERS ==> q.consumers[i].active
    ensures Register(q, start).1.None? ==> Register(q, start).0 == q
    ensures Register(q, start).1.Some? ==>
      var (q', id) := Register(q, start);
      && id.value < MAX_CONSUMERS && !q.consumers[id.value].active
      && (forall j :: 0 <= j < id.value ==> q.consumers[j].active)
      && q' == q.(consumers := q.consumers[id.value := ConsumerSlot(true, start)])
      && (Inv(q', log) <==> RegistrationContract(start, q.next, q.cachedMin))
  {
    var (q', id) := Register(q, start);
    if id.Some? {
      assert q'.consumers[id.value] == ConsumerSlot(true, start);
    }
  }

  /** Joining at the producer's position, or just after it, always meets the contract;
      the one exception is position 0, on a fresh queue. */
  lemma JoiningNowMeetsContract<T>(q: QueueState<T>, log: seq<T>, start: u64)
    requires Inv(q, log)
    requires start == q.next || start == q.next + 1
    ensures RegistrationContract(start, q.next, q.cachedMin) <==> start != 0
  {
  }

  lemma UnregisterKeepsInv<T>(q: QueueState<T>, log: seq<T>, id: int)
    requires Inv(q, log)
    ensures Inv(Unregister(q, id), log)
    ensures !IsActive(Unregister(q, id), id)
    ensures forall j :: j != id ==> IsActive(Unregister(q, id), j) == IsActive(q, j)
    ensures forall j :: 0 <= j < MAX_CONSUMERS ==> Unregister(q, id).consumers[j].sequence == q.consumers[j].sequence
    ensures Unregister(q, id).(consumers := q.consumers) == q
  {
  }

  // ---------- cached against rescanning ----------

  /** Over all invariant states, the cached and the rescanning producer give the same
      answer, except with nobody registered, an untouched low cache, and the first
      1022 messages already out. */
  lemma CachedAgreesWithRescan<T>(q: QueueState<T>, log: seq<T>, item: T)
    requires Inv(q, log) && q.next < U64_MAX - 2
    ensures Publish(q, item).1 == PublishRescanning(q, item).1 <==>
      SomeActive(q) || q.cachedMin == U64_MAX || q.next + 1 - q.cachedMin >= RING_SIZE
      || q.next < RING_SIZE - 2
    ensures Publish(q, item).1 == PublishRescanning(q, item).1 ==>
      PublishRescanning(q, item).0 == Publish(q, item).0.(cachedMin := ScanMin(q.consumers))
  {
    PublishExact(q, log, item);
    WrappingTestFaithful(q, log);
    DistanceTest(q.next, U64_MAX);
    if SomeActive(q) {
      ScanWindow(q, log);
    } else {
      assert ScanMin(q.consumers) == U64_MAX;
    }
  }

  // ---------- the end of the number space ----------

  /** A message just published under the number its reader waits for can be read
      iff that number is not 2^64-1, the one whose stamp wraps to 0. */
  lemma ReadableUnlessLastNumber<T>(q: QueueState<T>, item: T, id: int)
    requires WellSized(q) && Publish(q, item).1
    requires IsActive(q, id) && q.consumers[id].sequence == Add64(q.next, 1)
    ensures Consume(Publish(q, item).0, id).1 ==
      if Add64(q.next, 1) == U64_MAX then None else Some(item)
  {
  }
}
