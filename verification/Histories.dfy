/** Whole histories of calls, one call at a time: exact delivery, the lazy cache,
    progress, and the cost of scanning. */
module Histories {
  import opened Arithmetic64
  import opened RingLayout
  import opened QueueSpec

  datatype Op<T> =
    | OpPublish(item: T)
    | OpConsume(id: int)
    | OpRegister(start: u64)
    | OpUnregister(id: int)

  datatype Outcome<T> =
    | Published(ok: bool)
    | Consumed(out: Option<T>)
    | Registered(slot: Option<nat>)
    | Unregistered

  /** The queue with its history: the log, and for every record where its reader
      started and what it has been given since. */
  datatype World<T> = World(
    queue: QueueState<T>,
    log: seq<T>,
    starts: seq<nat>,
    delivered: seq<seq<T>>)

  predicate WorldSized<T>(w: World<T>) {
    WellSized(w.queue) && |w.starts| == MAX_CONSUMERS && |w.delivered| == MAX_CONSUMERS
  }

  /** One call. The log and the deliveries record what the call's own result says. */
  function Step<T>(w: World<T>, op: Op<T>): (r: (World<T>, Outcome<T>))
    requires WorldSized(w)
    ensures WorldSized(r.0)
  {
    match op
    case OpPublish(item) =>
      var (q, ok) := Publish(w.queue, item);
      (w.(queue := q, log := if ok then w.log + [item] else w.log), Published(ok))
    case OpConsume(id) =>
      var (q, out) := Consume(w.queue, id);
      if out.None? || !(0 <= id < MAX_CONSUMERS) then (w.(queue := q), Consumed(out))
      else
        (w.(queue := q, delivered := w.delivered[id := w.delivered[id] + [out.value]]), Consumed(out))
    case OpRegister(start) =>
      var (q, slot) := Register(w.queue, start);
      if slot.None? || slot.value >= MAX_CONSUMERS then (w.(queue := q), Registered(slot))
      else
        (w.(queue := q, starts := w.starts[slot.value := start],
          delivered := w.delivered[slot.value := []]), Registered(slot))
    case OpUnregister(id) =>
      (w.(queue := Unregister(w.queue, id)), Unregistered)
  }

  function Run<T>(w: World<T>, ops: seq<Op<T>>): (r: World<T>)
    requires WorldSized(w)
    ensures WorldSized(r)
    decreases |ops|
  {
    if ops == [] then w else Run(Step(w, ops[0]).0, ops[1..])
  }

  function Outcomes<T>(w: World<T>, ops: seq<Op<T>>): seq<Outcome<T>>
    requires WorldSized(w)
    decreases |ops|
  {
    if ops == [] then [] else [Step(w, ops[0]).1] + Outcomes(Step(w, ops[0]).0, ops[1..])
  }

  /** What the source demands of one call: registration inside the window, and a
      sequence number still to be had. */
  predicate CallAllowed<T>(w: World<T>, op: Op<T>)
    requires WorldSized(w)
  {
    match op
    case OpPublish(_) => w.queue.next < U64_MAX - 2
    case OpRegister(start) => RegistrationContract(start, w.queue.next, w.queue.cachedMin)
    case _ => true
  }

  predicate Obeys<T>(w: World<T>, ops: seq<Op<T>>)
    requires WorldSized(w)
    decreases |ops|
  {
    ops != [] ==> CallAllowed(w, ops[0]) && Obeys(Step(w, ops[0]).0, ops[1..])
  }

  /** A reader that started at `start` and now expects `next` has been given exactly
      the messages numbered start .. next - 1. */
  ghost predicate DeliveredExactly<T>(log: seq<T>, start: nat, next: nat, delivered: seq<T>) {
    1 <= start <= next <= |log| + 1 && delivered == log[start - 1..next - 1]
  }

  ghost predicate WorldInv<T>(w: World<T>) {
    && WorldSized(w)
    && Inv(w.queue, w.log)
    && forall i :: 0 <= i < MAX_CONSUMERS && w.queue.consumers[i].active ==>
        DeliveredExactly(w.log, w.starts[i], w.queue.consumers[i].sequence, w.delivered[i])
  }

  lemma PublishKeepsWorldInv<T>(w: World<T>, item: T)
    requires WorldInv(w) && w.queue.next < U64_MAX - 2
    ensures WorldInv(Step(w, OpPublish(item)).0)
  {
    PublishExact(w.queue, w.log, item);
    var w' := Step(w, OpPublish(item)).0;
    forall i | 0 <= i < MAX_CONSUMERS && w'.queue.consumers[i].active
      ensures DeliveredExactly(w'.log, w'.starts[i], w'.queue.consumers[i].sequence, w'.delivered[i])
    {
      assert DeliveredExactly(w.log, w.starts[i], w.queue.consumers[i].sequence, w.delivered[i]);
    }
  }

  lemma ConsumeKeepsWorldInv<T>(w: World<T>, id: int)
    requires WorldInv(w)
    ensures WorldInv(Step(w, OpConsume(id)).0)
  {
    ConsumeExact(w.queue, w.log, id);
    if IsActive(w.queue, id) && w.queue.consumers[id].sequence <= |w.log| {
      var s := w.queue.consumers[id].sequence;
      assert DeliveredExactly(w.log, w.starts[id], s, w.delivered[id]);
      assert w.log[w.starts[id] - 1..s] == w.log[w.starts[id] - 1..s - 1] + [w.log[s - 1]];
    }
  }

  lemma StepKeepsWorldInv<T>(w: World<T>, op: Op<T>)
    requires WorldInv(w) && CallAllowed(w, op)
    ensures WorldInv(Step(w, op).0)
    ensures w.log <= Step(w, op).0.log
  {
    match op
    case OpPublish(item) => PublishKeepsWorldInv(w, item);
    case OpConsume(id) => ConsumeKeepsWorldInv(w, id);
    case OpRegister(start) => RegisterExact(w.queue, w.log, start);
    case OpUnregister(id) => UnregisterKeepsInv(w.queue, w.log, id);
  }

  /** Over every history that obeys the contract: the log only grows, and every
      active reader has been given exactly log[start..], in order, with nothing
      lost, repeated or mixed up. */
  lemma {:induction false} RunDeliversExactly<T>(w: World<T>, ops: seq<Op<T>>)
    requires WorldInv(w) && Obeys(w, ops)
    ensures WorldInv(Run(w, ops))
    ensures w.log <= Run(w, ops).log
    decreases |ops|
  {
    if ops != [] {
      StepKeepsWorldInv(w, ops[0]);
      RunDeliversExactly(Step(w, ops[0]).0, ops[1..]);
    }
  }

  // ---------- the lazy cache against the naive scan ----------

  function NaiveStep<T>(w: World<T>, op: Op<T>): (r: (World<T>, Outcome<T>))
    requires WorldSized(w)
    ensures WorldSized(r.0)
  {
    match op
    case OpPublish(item) =>
      var (q, ok) := PublishRescanning(w.queue, item);
      (w.(queue := q, log := if ok then w.log + [item] else w.log), Published(ok))
    case _ => Step(w, op)
  }

  function NaiveOutcomes<T>(w: World<T>, ops: seq<Op<T>>): seq<Outcome<T>>
    requires WorldSized(w)
    decreases |ops|
  {
    if ops == [] then []
    else [NaiveStep(w, ops[0]).1] + NaiveOutcomes(NaiveStep(w, ops[0]).0, ops[1..])
  }

  predicate SomeoneAtEachPublish<T>(w: World<T>, ops: seq<Op<T>>)
    requires WorldSized(w)
    decreases |ops|
  {
    ops != [] ==>
      && (ops[0].OpPublish? ==> SomeActive(w.queue))
      && SomeoneAtEachPublish(Step(w, ops[0]).0, ops[1..])
  }

  /** The two worlds differ at most in the cached minimum. */
  ghost predicate SameButCache<T>(w: World<T>, v: World<T>) {
    v == w.(queue := w.queue.(cachedMin := v.queue.cachedMin))
  }

  lemma NaiveStepAgrees<T>(w: World<T>, v: World<T>, op: Op<T>)
    requires WorldInv(w) && CallAllowed(w, op) && WorldSized(v) && SameButCache(w, v)
    requires op.OpPublish? ==> SomeActive(w.queue)
    ensures NaiveStep(v, op).1 == Step(w, op).1
    ensures SameButCache(Step(w, op).0, NaiveStep(v, op).0)
  {
    match op {
      case OpPublish(item) =>
        CachedAgreesWithRescan(w.queue, w.log, item);
        assert PublishRescanning(v.queue, item) == PublishRescanning(w.queue, item);
      case _ =>
    }
  }

  /** Over every history in which somebody is active at each publish, the cached
      producer answers every call exactly as the one that rescans each time. */
  lemma {:induction false} LazyCacheIsExact<T>(w: World<T>, v: World<T>, ops: seq<Op<T>>)
    requires WorldInv(w) && Obeys(w, ops) && SomeoneAtEachPublish(w, ops)
    requires WorldSized(v) && SameButCache(w, v)
    ensures Outcomes(w, ops) == NaiveOutcomes(v, ops)
    decreases |ops|
  {
    if ops != [] {
      StepKeepsWorldInv(w, ops[0]);
      NaiveStepAgrees(w, v, ops[0]);
      LazyCacheIsExact(Step(w, ops[0]).0, NaiveStep(v, ops[0]).0, ops[1..]);
    }
  }

  // ---------- how often the producer scans ----------

  /** The call is a publish that takes the slow path. */
  predicate Scans<T>(q: QueueState<T>, op: Op<T>) {
    op.OpPublish? && MustScan(q)
  }

  function ScanCount<T>(w: World<T>, ops: seq<Op<T>>): nat
    requires WorldSized(w)
    decreases |ops|
  {
    if ops == [] then 0
    else (if Scans(w.queue, ops[0]) then 1 else 0) + ScanCount(Step(w, ops[0]).0, ops[1..])
  }

  /** Every scan finds somebody, and nobody further behind than `lag`. */
  predicate LagAtMost<T>(w: World<T>, ops: seq<Op<T>>, lag: nat)
    requires WorldSized(w)
    decreases |ops|
  {
    ops != [] ==>
      && (Scans(w.queue, ops[0]) ==>
            SomeActive(w.queue) && w.queue.next + 1 - ScanMin(w.queue.consumers) <= lag)
      && LagAtMost(Step(w, ops[0]).0, ops[1..], lag)
  }

  /** One step of the amortisation: a scan moves the cache to within `lag` of the
      producer, and the next scan waits until the producer is 1024 ahead of it. */
  lemma ScanStep<T>(w: World<T>, op: Op<T>, lag: nat)
    requires WorldInv(w) && CallAllowed(w, op) && lag < RING_SIZE
    requires w.queue.cachedMin != U64_MAX
    requires Scans(w.queue, op) ==>
      SomeActive(w.queue) && w.queue.next + 1 - ScanMin(w.queue.consumers) <= lag
    ensures var q, q' := w.queue, Step(w, op).0.queue;
      && q'.cachedMin != U64_MAX
      && (Scans(q, op) ==>
            && q.next + 1 >= q.cachedMin + RING_SIZE
            && q'.next == q.next + 1 <= q'.cachedMin + lag)
      && (!Scans(q, op) ==> q'.cachedMin == q.cachedMin && q.next <= q'.next)
  {
    WrappingTestFaithful(w.queue, w.log);
    match op {
      case OpPublish(item) =>
        PublishExact(w.queue, w.log, item);
        if SomeActive(w.queue) {
          ScanWindow(w.queue, w.log);
        }
      case _ =>
    }
  }

  /** Publishes that must lie between the first and the last of c scans. */
  function Spacing(c: nat, d: nat): nat {
    if c <= 1 then 0 else d + Spacing(c - 1, d)
  }

  lemma {:induction false} SpacingIsProduct(c: nat, d: nat)
    requires c > 0
    ensures Spacing(c, d) == (c - 1) * d
  {
    if c > 1 {
      SpacingIsProduct(c - 1, d);
      assert (c - 1) * d == (c - 2) * d + d;
    }
  }

  /** From any state: scans cost at least 1024 - lag publishes each, after the slack
      that the present cache still leaves. */
  lemma {:induction false} ScansAmortised<T>(w: World<T>, ops: seq<Op<T>>, lag: nat)
    requires WorldInv(w) && Obeys(w, ops) && LagAtMost(w, ops, lag) && lag < RING_SIZE
    requires w.queue.cachedMin != U64_MAX
    ensures ScanCount(w, ops) > 0 ==>
      w.queue.cachedMin + RING_SIZE + Spacing(ScanCount(w, ops), RING_SIZE - lag) <= Run(w, ops).queue.next
    decreases |ops|
  {
    if ops != [] {
      var w' := Step(w, ops[0]).0;
      StepKeepsWorldInv(w, ops[0]);
      ScanStep(w, ops[0], lag);
      ScansAmortised(w', ops[1..], lag);
      NextOnlyGrows(w', ops[1..]);
    }
  }

  lemma {:induction false} NextOnlyGrows<T>(w: World<T>, ops: seq<Op<T>>)
    requires WorldInv(w) && Obeys(w, ops)
    ensures w.queue.next <= Run(w, ops).queue.next
    decreases |ops|
  {
    if ops != [] {
      StepKeepsWorldInv(w, ops[0]);
      NextOnlyGrows(Step(w, ops[0]).0, ops[1..]);
    }
  }

  /** From a fresh queue, P publishes cost at most 1 + (P - 1024) / (1024 - lag) scans,
      and none at all while P < 1024. */
  lemma FreshScansAmortised<T>(w: World<T>, ops: seq<Op<T>>, lag: nat)
    requires WorldSized(w) && Fresh(w.queue) && w.log == []
    requires Obeys(w, ops) && LagAtMost(w, ops, lag) && lag < RING_SIZE
    ensures var p := Run(w, ops).queue.next;
      && (p < RING_SIZE ==> ScanCount(w, ops) == 0)
      && (p >= RING_SIZE ==> ScanCount(w, ops) <= 1 + (p - RING_SIZE) / (RING_SIZE - lag))
  {
    FreshInv(w.queue);
    ScansAmortised(w, ops, lag);
    ScansFromSlack(ScanCount(w, ops), Run(w, ops).queue.next, RING_SIZE - lag);
  }

  lemma ScansFromSlack(c: nat, p: nat, d: nat)
    requires d > 0
    requires c > 0 ==> RING_SIZE + Spacing(c, d) <= p
    ensures p < RING_SIZE ==> c == 0
    ensures p >= RING_SIZE ==> c <= 1 + (p - RING_SIZE) / d
  {
    if c > 0 {
      SpacingIsProduct(c, d);
      QuotientBound(c - 1, d, p - RING_SIZE);
    }
  }

  lemma QuotientBound(k: nat, d: nat, x: nat)
    requires d > 0 && k * d <= x
    ensures k <= x / d
  {
    var q := x / d;
    assert d * (k - q) == k * d - d * q;
    MultipleGap(d, k - q);
  }

  // ---------- progress ----------

  /** Messages the active consumers among cs still have to read, of `total`. */
  function Unread(cs: seq<ConsumerSlot>, total: nat): int {
    if cs == [] then 0
    else
      var last := cs[|cs| - 1];
      Unread(cs[..|cs| - 1], total) + (if last.active then total + 1 - last.sequence else 0)
  }

  /** What is left to do: messages to publish and messages to read. */
  function Remaining<T>(q: QueueState<T>, total: nat): int {
    total - q.next + Unread(q.consumers, total)
  }

  lemma {:induction false} UnreadAdvance(cs: seq<ConsumerSlot>, total: nat, i: nat, s: u64)
    requires i < |cs| && cs[i].active
    ensures Unread(cs[i := cs[i].(sequence := s)], total)
         == Unread(cs, total) + cs[i].sequence - s
    decreases |cs|
  {
    var n := |cs| - 1;
    var cs' := cs[i := cs[i].(sequence := s)];
    if i < n {
      assert cs'[..n] == cs[..n][i := cs[i].(sequence := s)];
      UnreadAdvance(cs[..n], total, i, s);
    } else {
      assert cs'[..n] == cs[..n];
    }
  }

  lemma {:induction false} UnreadNonNegative(cs: seq<ConsumerSlot>, total: nat)
    requires forall i :: 0 <= i < |cs| && cs[i].active ==> cs[i].sequence <= total + 1
    ensures Unread(cs, total) >= 0
    ensures Unread(cs, total) == 0 <==> forall i :: 0 <= i < |cs| && cs[i].active ==> cs[i].sequence == total + 1
    decreases |cs|
  {
    if cs != [] {
      UnreadNonNegative(cs[..|cs| - 1], total);
      assert forall i :: 0 <= i < |cs| - 1 ==> cs[..|cs| - 1][i] == cs[i];
    }
  }

  /** The calls of the demo once everybody is registered: publish while messages are
      left, or consume. */
  predicate Transfers<T>(w: World<T>, ops: seq<Op<T>>, total: nat)
    requires WorldSized(w)
    decreases |ops|
  {
    ops != [] ==>
      && (ops[0].OpConsume? || (ops[0].OpPublish? && w.queue.next < total))
      && Transfers(Step(w, ops[0]).0, ops[1..], total)
  }

  predicate Succeeded<T>(o: Outcome<T>) {
    (o.Published? && o.ok) || (o.Consumed? && o.out.Some?)
  }

  function Successes<T>(os: seq<Outcome<T>>): nat {
    if os == [] then 0 else (if Succeeded(os[0]) then 1 else 0) + Successes(os[1..])
  }

  /** Every success lowers what is left by exactly one; a refusal leaves it alone. */
  lemma StepLowersRemaining<T>(w: World<T>, op: Op<T>, total: nat)
    requires WorldInv(w) && CallAllowed(w, op)
    requires op.OpConsume? || op.OpPublish?
    ensures Remaining(Step(w, op).0.queue, total)
         == Remaining(w.queue, total) - (if Succeeded(Step(w, op).1) then 1 else 0)
  {
    match op {
      case OpPublish(item) => PublishExact(w.queue, w.log, item);
      case OpConsume(id) =>
        ConsumeExact(w.queue, w.log, id);
        if Consume(w.queue, id).1.Some? {
          UnreadAdvance(w.queue.consumers, total, id, w.queue.consumers[id].sequence + 1);
        }
      case _ =>
    }
  }

  /** No deadlock: while anything is left and somebody is active, the next publish or
      some consume succeeds. */
  lemma NeverStuck<T>(w: World<T>, item: T, total: nat) returns (op: Op<T>)
    requires WorldInv(w) && SomeActive(w.queue)
    requires w.queue.next <= total <= U64_MAX - 2
    requires Remaining(w.queue, total) > 0
    ensures (op == OpPublish(item) && w.queue.next < total) || op.OpConsume?
    ensures Succeeded(Step(w, op).1)
  {
    if w.queue.next < total {
      if Publish(w.queue, item).1 {
        return OpPublish(item);
      }
      PublishExact(w.queue, w.log, item);
      var slowest := RefusedPublishUnblocks(w.queue, w.log, item);
      ConsumeExact(w.queue, w.log, slowest);
      return OpConsume(slowest);
    }
    UnreadNonNegative(w.queue.consumers, total);
    var i :| 0 <= i < MAX_CONSUMERS && w.queue.consumers[i].active && w.queue.consumers[i].sequence <= total;
    ConsumeExact(w.queue, w.log, i);
    return OpConsume(i);
  }

  /** Nothing is left exactly when all messages are out and everybody has them all. */
  lemma DoneMeansDone<T>(w: World<T>, total: nat)
    requires WorldInv(w) && w.queue.next <= total
    ensures Remaining(w.queue, total) >= 0
    ensures Remaining(w.queue, total) == 0 <==>
      && w.queue.next == total
      && forall i :: 0 <= i < MAX_CONSUMERS && w.queue.consumers[i].active ==>
          w.queue.consumers[i].sequence == total + 1
  {
    UnreadNonNegative(w.queue.consumers, total);
  }

  lemma {:induction false} SuccessesAreProgress<T>(w: World<T>, ops: seq<Op<T>>, total: nat)
    requires WorldInv(w) && total <= U64_MAX - 2 && Transfers(w, ops, total)
    ensures WorldInv(Run(w, ops))
    ensures Successes(Outcomes(w, ops)) == Remaining(w.queue, total) - Remaining(Run(w, ops).queue, total)
    ensures w.queue.next <= total ==> Run(w, ops).queue.next <= total
    decreases |ops|
  {
    if ops != [] {
      StepKeepsWorldInv(w, ops[0]);
      StepLowersRemaining(w, ops[0], total);
      var w' := Step(w, ops[0]).0;
      SuccessesAreProgress(w', ops[1..], total);
      assert Outcomes(w, ops)[1..] == Outcomes(w', ops[1..]);
      if ops[0].OpPublish? {
        PublishExact(w.queue, w.log, ops[0].item);
      } else {
        ConsumeExact(w.queue, w.log, ops[0].id);
      }
    }
  }

  function ActiveCount(cs: seq<ConsumerSlot>): nat {
    if cs == [] then 0
    else ActiveCount(cs[..|cs| - 1]) + (if cs[|cs| - 1].active then 1 else 0)
  }

  lemma {:induction false} UnreadAtOne(cs: seq<ConsumerSlot>, total: nat)
    requires forall i :: 0 <= i < |cs| && cs[i].active ==> cs[i].sequence == 1
    ensures Unread(cs, total) == total * ActiveCount(cs)
    decreases |cs|
  {
    if cs != [] {
      var front := cs[..|cs| - 1];
      assert forall i :: 0 <= i < |front| ==> front[i] == cs[i];
      UnreadAtOne(front, total);
      assert total * (ActiveCount(front) + 1) == total * ActiveCount(front) + total;
    }
  }

  lemma EverythingToDo<T>(w: World<T>, total: nat)
    requires WorldInv(w) && w.queue.next == 0
    ensures Remaining(w.queue, total) == total * (ActiveCount(w.queue.consumers) + 1)
  {
    UnreadAtOne(w.queue.consumers, total);
    OnceMore(total, ActiveCount(w.queue.consumers));
  }

  lemma OnceMore(a: int, b: int)
    ensures a * (b + 1) == a * b + a
  {
  }

  /** With k consumers at number 1 and `total` messages, a run ends with everybody
      served exactly when it has had total * (k + 1) successes. */
  lemma CompleteRunCount<T>(w: World<T>, ops: seq<Op<T>>, total: nat)
    requires WorldInv(w) && w.queue.next == 0 && total <= U64_MAX - 2
    requires Transfers(w, ops, total)
    ensures Remaining(Run(w, ops).queue, total) == 0 <==>
      Successes(Outcomes(w, ops)) == total * (ActiveCount(w.queue.consumers) + 1)
  {
    SuccessesAreProgress(w, ops, total);
    EverythingToDo(w, total);
  }

  // ---------- capacity ----------

  function PublishAll<T>(q: QueueState<T>, items: seq<T>): (q': QueueState<T>)
    requires WellSized(q)
    ensures WellSized(q')
    decreases |items|
  {
    if items == [] then q else PublishAll(Publish(q, items[0]).0, items[1..])
  }

  /** Somebody still waits for message number 1. */
  ghost predicate WaitsAtOne<T>(q: QueueState<T>, log: seq<T>, id: int) {
    Inv(q, log) && IsActive(q, id) && q.consumers[id].sequence == 1
  }

  function AtMostRing(n: nat): nat {
    if n <= RING_SIZE then n else RING_SIZE
  }

  lemma FullAtOneRing<T>(q: QueueState<T>, log: seq<T>, id: int)
    requires WaitsAtOne(q, log, id)
    ensures q.next <= RING_SIZE
    ensures TrulyFull(q) <==> q.next == RING_SIZE
  {
    assert q.consumers[id].active && InWindow(1, q.next, q.cachedMin);
    forall i | 0 <= i < MAX_CONSUMERS && q.consumers[i].active
      ensures q.next + 1 - q.consumers[i].sequence == RING_SIZE ==> q.next == RING_SIZE
    {
      assert InWindow(q.consumers[i].sequence, q.next, q.cachedMin);
    }
  }

  /** One publish with somebody at 1 succeeds below 1024 and fails at 1024. */
  lemma PublishAtOne<T>(q: QueueState<T>, log: seq<T>, items: seq<T>, id: int)
      returns (q': QueueState<T>, log': seq<T>)
    requires WaitsAtOne(q, log, id) && items != []
    ensures WaitsAtOne(q', log', id) && q'.next == AtMostRing(q.next + 1)
    ensures PublishAll(q, items) == PublishAll(q', items[1..])
  {
    FullAtOneRing(q, log, id);
    PublishExact(q, log, items[0]);
    q' := Publish(q, items[0]).0;
    log' := if Publish(q, items[0]).1 then log + [items[0]] else log;
  }

  /** With a consumer waiting at number 1 exactly 1024 publishes succeed: the ring has
      no slot to spare. */
  lemma {:induction false} CapacityIsWholeRing<T>(q: QueueState<T>, log: seq<T>, items: seq<T>, id: int)
    requires WaitsAtOne(q, log, id)
    ensures PublishAll(q, items).next == if q.next + |items| <= 1024 then q.next + |items| else 1024
    decreases |items|
  {
    FullAtOneRing(q, log, id);
    if items != [] {
      var q', log' := PublishAtOne(q, log, items, id);
      CapacityIsWholeRing(q', log', items[1..], id);
    }
  }

  // ---------- how many consumers there can be ----------

  function RegisterAll<T>(q: QueueState<T>, starts: seq<u64>): (r: (QueueState<T>, seq<Option<nat>>))
    requires WellSized(q)
    ensures WellSized(r.0) && |r.1| == |starts|
    decreases |starts|
  {
    if starts == [] then (q, [])
    else
      var (q1, id) := Register(q, starts[0]);
      var (q2, ids) := RegisterAll(q1, starts[1..]);
      (q2, [id] + ids)
  }

  /** The first n records are in use, each at its start, and no others. */
  ghost predicate Taken<T>(q: QueueState<T>, n: nat) {
    WellSized(q) && n <= 64 && forall i :: 0 <= i < 64 ==> (q.consumers[i].active <==> i < n)
  }

  lemma TakesNext<T>(q: QueueState<T>, n: nat, start: u64) returns (q': QueueState<T>, id: Option<nat>)
    requires Taken(q, n)
    ensures (q', id) == Register(q, start)
    ensures n < 64 ==> Taken(q', n + 1) && id == Some(n) && q'.consumers[n] == ConsumerSlot(true, start)
    ensures n < 64 ==> forall i :: 0 <= i < 64 && i != n ==> q'.consumers[i] == q.consumers[i]
    ensures n == 64 ==> q' == q && id == None
  {
    assert n < 64 ==> !q.consumers[n].active;
    q', id := Register(q, start).0, Register(q, start).1;
  }

  /** Of any series of registrations on a queue with n records taken exactly the next
      64 - n succeed, with the ids n, n + 1 and so on, each leaving its start in its
      record; the others get nothing. */
  lemma {:induction false} SixtyFourConsumers<T>(q: QueueState<T>, n: nat, starts: seq<u64>)
    requires Taken(q, n)
    ensures var (q', ids) := RegisterAll(q, starts);
      && (forall i :: 0 <= i < |starts| ==> ids[i] == if n + i < 64 then Some(n + i) else None)
      && (forall i :: 0 <= i < |starts| && n + i < 64 ==> q'.consumers[n + i] == ConsumerSlot(true, starts[i]))
      && (forall i :: 0 <= i < n ==> q'.consumers[i] == q.consumers[i])
    decreases |starts|
  {
    if starts != [] {
      var q1, id := TakesNext(q, n, starts[0]);
      SixtyFourConsumers(q1, if n < 64 then n + 1 else n, starts[1..]);
    }
  }

  lemma OnlyFreeOne(cs: seq<ConsumerSlot>, id: nat)
    requires id < |cs| && forall i :: 0 <= i < |cs| ==> (cs[i].active <==> i != id)
    ensures FirstInactive(cs, 0) == id
  {
    var r := FirstInactive(cs, 0);
    assert !cs[id].active;
    assert r <= id;
    assert cs[r].active <==> r != id;
  }

  lemma OneCall<T>(w: World<T>, op: Op<T>)
    requires WorldSized(w)
    ensures Run(w, [op]) == Step(w, op).0 && Outcomes(w, [op]) == [Step(w, op).1]
  {
    var w1 := Step(w, op).0;
    assert [op][1..] == [];
    assert Run(w1, []) == w1 && Outcomes(w1, []) == [];
  }

  lemma TwoCalls<T>(w: World<T>, op: Op<T>, op': Op<T>)
    requires WorldSized(w)
    ensures var (w1, o) := Step(w, op);
      Run(w, [op, op']) == Step(w1, op').0 && Outcomes(w, [op, op']) == [o, Step(w1, op').1]
  {
    assert [op, op'][1..] == [op'];
    OneCall(Step(w, op).0, op');
  }

  /** With every record taken nobody gets in; once somebody leaves, the next to register
      gets that very id, whoever it is, and starts with nothing given to it. */
  lemma LeavingFreesTheId<T>(w: World<T>, id: nat, start: u64)
    requires WorldSized(w) && Taken(w.queue, 64) && id < 64
    ensures Step(w, OpRegister(start)).1 == Registered(None)
    ensures var ops := [OpUnregister(id), OpRegister(start)];
      && Outcomes(w, ops) == [Unregistered, Registered(Some(id))]
      && Run(w, ops).queue == w.queue.(consumers := w.queue.consumers[id := ConsumerSlot(true, start)])
      && Run(w, ops).starts[id] == start && Run(w, ops).delivered[id] == []
  {
    var w1 := Step(w, OpUnregister(id)).0;
    OnlyFreeOne(w1.queue.consumers, id);
    TwoCalls(w, OpUnregister(id), OpRegister(start));
  }

  // ---------- registrations outside the ordinary case ----------

  /** With nobody registered the producer stops after message 1023, or earlier, and
      nothing is overwritten, so a first consumer may still start at 1. */
  lemma {:induction false} NobodyRegistered<T>(w: World<T>, ops: seq<Op<T>>)
    requires WorldInv(w) && !SomeActive(w.queue)
    requires w.queue.cachedMin in {0, U64_MAX} && w.queue.next < RING_SIZE
    requires forall i :: 0 <= i < |ops| ==> ops[i].OpPublish?
    ensures Obeys(w, ops)
    ensures var w' := Run(w, ops);
      && WorldInv(w') && !SomeActive(w'.queue) && w'.queue.next < RING_SIZE
      && RegistrationContract(1, w'.queue.next, w'.queue.cachedMin)
    decreases |ops|
  {
    if ops != [] {
      StepKeepsWorldInv(w, ops[0]);
      PublishExact(w.queue, w.log, ops[0].item);
      var w' := Step(w, ops[0]).0;
      NobodyRegistered(w', ops[1..]);
    }
  }

  /** A queue on which somebody was registered at 0 before the first publish. */
  predicate StartedAtZero<T>(q: QueueState<T>, id: int) {
    && WellSized(q) && 0 <= id < MAX_CONSUMERS
    && q.consumers[id] == ConsumerSlot(true, 0)
    && q.next < RING_SIZE && q.cachedMin == 0 && q.ring[0].sequence == 0
  }

  /** That is what registering at the position of a fresh queue leads to. */
  lemma RegisteringAtZero<T>(q: QueueState<T>)
    requires Fresh(q)
    ensures var (q', id) := Register(q, 0);
      id.Some? && StartedAtZero(q', id.value)
  {
    assert FirstInactive(q.consumers, 0) == 0;
  }

  lemma StepAtZero<T>(w: World<T>, op: Op<T>, id: int)
    requires WorldSized(w) && StartedAtZero(w.queue, id) && op != OpUnregister(id)
    ensures StartedAtZero(Step(w, op).0.queue, id)
    ensures Step(w, op).0.delivered[id] == w.delivered[id]
  {
    assert RingIndex(0) == 0;
    if op.OpPublish? {
      assert ScanMin(w.queue.consumers) == 0 by {
        assert w.queue.consumers[id].active;
      }
    }
  }

  /** The documented starting point, the producer's position, is 0 on a fresh queue.
      Whoever starts there never gets anything, and keeps the producer from ever
      passing 1023, whatever calls follow and whoever else joins or leaves. */
  lemma {:induction false} StartZeroStallsForGood<T>(w: World<T>, ops: seq<Op<T>>, id: int)
    requires WorldSized(w) && StartedAtZero(w.queue, id) && OpUnregister(id) !in ops
    ensures StartedAtZero(Run(w, ops).queue, id)
    ensures Run(w, ops).queue.next < RING_SIZE
    ensures Run(w, ops).delivered[id] == w.delivered[id]
    decreases |ops|
  {
    if ops != [] {
      StepAtZero(w, ops[0], id);
      StartZeroStallsForGood(Step(w, ops[0]).0, ops[1..], id);
    }
  }

  /** A start below the cached minimum can be lapped: without another scan the
      producer may run to cachedMin + 1023, and then the newcomer's slot holds a
      later message than the one it expects. */
  lemma {:induction false} BelowTheCacheIsLapped<T>(q: QueueState<T>, log: seq<T>, items: seq<T>, id: int)
    requires Stores(q, log) && CacheSound(q.next, q.cachedMin) && q.cachedMin != U64_MAX
    requires IsActive(q, id) && 1 <= q.consumers[id].sequence < q.cachedMin
    requires q.cachedMin + RING_SIZE <= U64_MAX - 2
    requires |items| == q.cachedMin + RING_SIZE - 1 - q.next
    ensures var q' := PublishAll(q, items);
      var s := q.consumers[id].sequence;
      var l := LastIn(|log + items|, RingIndex(s));
      && Stores(q', log + items) && q'.consumers == q.consumers
      && l > s && Consume(q', id).1 == Some((log + items)[l - 1])
    decreases |items|
  {
    if items == [] {
      assert log + items == log;
      ConsumeFindsLatest(q, log, id);
      LastInOf(|log|, q.consumers[id].sequence);
    } else {
      WrappingDifference(q.next + 1, q.cachedMin);
      StoreExtendsLog(q, log, items[0]);
      var q' := Publish(q, items[0]).0;
      assert q' == Store(q, items[0]);
      assert log + items == (log + [items[0]]) + items[1..];
      BelowTheCacheIsLapped(q', log + [items[0]], items[1..], id);
    }
  }
}
