/** The queue object itself: arrays updated in place, each method tied to the
    value-level operation of QueueSpec and to the ghost log of published messages. */
module Queue {
  import opened Arithmetic64
  import opened RingLayout
  import opened QueueSpec

  class LockFreePubSubQueue<T> {
    const ring: array<Slot<T>>
    const consumers: array<ConsumerSlot>
    var next: u64
    var minConsumerSeq: u64
    ghost var log: seq<T>
    /** Scans of the consumers made so far. */
    ghost var scans: nat

    ghost predicate Sized()
      reads this
    {
      ring.Length == RING_SIZE && consumers.Length == MAX_CONSUMERS
    }

    /** The memory of the queue as a value. */
    ghost function State(): (q: QueueState<T>)
      reads this, ring, consumers
      requires Sized()
      ensures WellSized(q)
    {
      QueueState(ring[..], consumers[..], next, minConsumerSeq)
    }

    ghost predicate Valid()
      reads this, ring, consumers
    {
      Sized() && Inv(State(), log)
    }

    /** `blank` stands for the value-initialised message of an unused slot. */
    constructor (blank: T)
      ensures Valid() && fresh(ring) && fresh(consumers)
      ensures log == [] && scans == 0 && Fresh(State())
    {
      ring := new Slot<T>[1024](_ => Slot(0, blank));
      consumers := new ConsumerSlot[64](_ => ConsumerSlot(false, 0));
      next, minConsumerSeq := 0, 0;
      log, scans := [], 0;
    }

    method RegisterConsumer(startSequence: u64) returns (id: Option<nat>)
      requires Valid()
      modifies consumers
      ensures (State(), id) == Register(old(State()), startSequence)
      ensures Valid() <==> id == None || RegistrationContract(startSequence, next, minConsumerSeq)
    {
      RegisterExact(State(), log, startSequence);
      var i := 0;
      while i < 64
        invariant 0 <= i <= MAX_CONSUMERS
        invariant State() == old(State())
        invariant FirstInactive(consumers[..], i) == FirstInactive(consumers[..], 0)
      {
        if !consumers[i].active {
          consumers[i] := consumers[i].(active := true);
          consumers[i] := consumers[i].(sequence := startSequence);
          assert consumers[..] == old(consumers[..])[i := ConsumerSlot(true, startSequence)];
          return Some(i);
        }
        i := i + 1;
      }
      return None;
    }

    method UnregisterConsumer(id: int)
      requires Valid()
      modifies consumers
      ensures Valid()
      ensures State() == Unregister(old(State()), id)
    {
      UnregisterKeepsInv(State(), log, id);
      if 0 <= id < 64 {
        consumers[id] := consumers[id].(active := false);
        assert consumers[..] == old(consumers[..])[id := old(consumers[id]).(active := false)];
      }
    }

    /** The slow path of publish: every record is loaded in turn. */
    method ScanConsumers() returns (minSeq: u64)
      requires Sized()
      modifies this`scans
      ensures scans == old(scans) + 1
      ensures minSeq == ScanMin(consumers[..])
    {
      minSeq := U64_MAX;
      scans := scans + 1;
      var i := 0;
      while i < 64
        invariant 0 <= i <= MAX_CONSUMERS
        invariant minSeq == ScanMin(consumers[..i]) && scans == old(scans) + 1
      {
        assert consumers[..i + 1][..i] == consumers[..i];
        if consumers[i].active {
          minSeq := if consumers[i].sequence < minSeq then consumers[i].sequence else minSeq;
        }
        i := i + 1;
      }
      assert consumers[..64] == consumers[..];
    }

    method Publish(item: T) returns (ok: bool)
      requires Valid()
      requires next < U64_MAX - 2
      modifies this`next, this`minConsumerSeq, this`log, this`scans, ring
      ensures Valid()
      ensures (State(), ok) == QueueSpec.Publish(old(State()), item)
      ensures log == if ok then old(log) + [item] else old(log)
      ensures scans == old(scans) + (if MustScan(old(State())) then 1 else 0)
      ensures SomeActive(old(State())) ==> (ok <==> !TrulyFull(old(State())))
    {
      PublishExact(State(), log, item);
      var nextSeq := Add64(next, 1);
      if Sub64(nextSeq, minConsumerSeq) >= 1024 {
        var minSeq := ScanConsumers();
        minConsumerSeq := minSeq;
        if Sub64(nextSeq, minSeq) >= 1024 {
          return false;
        }
      }
      next := nextSeq;
      MaskSelectsSlot(nextSeq);
      var slot := BitAnd(nextSeq, RING_MASK);
      ring[slot] := ring[slot].(data := item);
      ring[slot] := ring[slot].(sequence := Add64(nextSeq, 1));
      assert ring[..] == old(ring[..])[slot := Slot(Add64(nextSeq, 1), item)];
      log := log + [item];
      return true;
    }

    method Consume(consumerId: int) returns (out: Option<T>)
      requires Valid()
      modifies consumers
      ensures Valid()
      ensures (State(), out) == QueueSpec.Consume(old(State()), consumerId)
      ensures out.Some? <==>
        && 0 <= consumerId < MAX_CONSUMERS
        && old(consumers[consumerId].active) && old(consumers[consumerId].sequence) <= |log|
      ensures out.Some? ==>
        && out.value == log[old(consumers[consumerId].sequence) - 1]
        && consumers[consumerId].sequence == old(consumers[consumerId].sequence) + 1
    {
      ConsumeExact(State(), log, consumerId);
      if consumerId < 0 || consumerId >= 64 {
        return None;
      }
      if !consumers[consumerId].active {
        return None;
      }
      var s := consumers[consumerId].sequence;
      MaskSelectsSlot(s);
      var slot := ring[BitAnd(s, RING_MASK)];
      if slot.sequence <= s {
        return None;
      }
      consumers[consumerId] := consumers[consumerId].(sequence := Add64(s, 1));
      assert consumers[..] == old(consumers[..])[consumerId := ConsumerSlot(true, Add64(s, 1))];
      return Some(slot.data);
    }

    method CurrentSequence() returns (n: u64)
      requires Valid()
      ensures n == |log|
    {
      return next;
    }
  }
}
