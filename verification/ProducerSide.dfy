/** The producer: commit, then notify; raise the flag, then notify. And the publishing
    loop of the command-line program, which tries each message on the queue until it is
    accepted, while consumers move in between. */
module ProducerSide {
  import opened Arithmetic64
  import opened RingLayout
  import opened QueueSpec
  import opened Queue
  import opened WaitStrategy
  import opened ConsumerRun

  class Producer<T> {
    const queue: LockFreePubSubQueue<T>
    const strategy: BlockingWaitStrategy
    var shutdownFlag: bool

    constructor (queue: LockFreePubSubQueue<T>, strategy: BlockingWaitStrategy)
      ensures this.queue == queue && this.strategy == strategy && !shutdownFlag
    {
      this.queue := queue;
      this.strategy := strategy;
      shutdownFlag := false;
    }

    /** One unit in the eventfd for each message that got in, none for a refusal. */
    method Publish(item: T) returns (ok: bool)
      requires queue.Valid() && strategy.Valid() && queue.next < U64_MAX - 2
      modifies queue, queue.ring, strategy.eventFd
      ensures queue.Valid() && strategy.Valid() && shutdownFlag == old(shutdownFlag)
      ensures (queue.State(), ok) == QueueSpec.Publish(old(queue.State()), item)
      ensures queue.log == if ok then old(queue.log) + [item] else old(queue.log)
      ensures strategy.eventFd.counter ==
        if ok then AfterWrite(old(strategy.eventFd.counter)) else old(strategy.eventFd.counter)
      ensures old(strategy.eventFd.counter) < 0xFFFF_FFFF_FFFF_FFFE ==>
        strategy.eventFd.counter == old(strategy.eventFd.counter) + (if ok then 1 else 0)
    {
      ok := queue.Publish(item);
      if ok {
        strategy.NotifyAll();
      }
    }

    /** The flag is up, and whoever polls next is signalled. */
    method Shutdown()
      requires strategy.Valid()
      modifies this, strategy.eventFd
      ensures shutdownFlag && strategy.Valid() && Ready(strategy.eventFd.uses)
      ensures strategy.eventFd.counter == AfterWrite(old(strategy.eventFd.counter))
    {
      shutdownFlag := true;
      strategy.NotifyAll();
    }
  }

  /** The type whose turn it is at attempt number t. */
  function KindOf(t: nat): MessageType {
    if t >= 3 then KindOf(t - 3) else if t == 0 then Add else if t == 1 then Trade else Delete
  }

  lemma {:induction false} KindOfIs(t: nat)
    ensures t % 3 == 0 ==> KindOf(t) == Add
    ensures t % 3 == 1 ==> KindOf(t) == Trade
    ensures t % 3 == 2 ==> KindOf(t) == Delete
  {
    if t >= 3 {
      KindOfIs(t - 3);
      assert (t - 3) % 3 == t % 3;
    }
  }

  /** Consumers take one message each, in this order, if there is one for them. */
  function ConsumeAll<T>(q: QueueState<T>, ids: seq<int>): (q': QueueState<T>)
    requires WellSized(q)
    ensures WellSized(q')
    decreases |ids|
  {
    if ids == [] then q else ConsumeAll(QueueSpec.Consume(q, ids[0]).0, ids[1..])
  }

  datatype Driven = Driven(queue: QueueState<Message<nat>>, sent: seq<Message<nat>>, refusals: seq<nat>)

  /** The loop about to make attempt number t, for message i, which has been refused r
      times so far. `moves` says who consumes before each attempt, and how many attempts
      are looked at. The type index moves on at every attempt. */
  function Drive(q: QueueState<Message<nat>>, moves: seq<seq<int>>, i: nat, t: nat, r: nat, total: nat): Driven
    requires WellSized(q)
    decreases |moves|
  {
    if i > total || moves == [] then Driven(q, [], [])
    else
      var m := Message(KindOf(t), i);
      var (q', ok) := QueueSpec.Publish(ConsumeAll(q, moves[0]), m);
      var rest := Drive(q', moves[1..], if ok then i + 1 else i, t + 1, if ok then 0 else r + 1, total);
      if ok then Driven(rest.queue, [m] + rest.sent, [r] + rest.refusals) else rest
  }

  method ConsumersMove<T>(queue: LockFreePubSubQueue<T>, ids: seq<int>)
    requires queue.Valid()
    modifies queue.consumers
    ensures queue.Valid() && queue.State() == ConsumeAll(old(queue.State()), ids)
  {
    var k := 0;
    while k < |ids|
      invariant 0 <= k <= |ids| && queue.Valid()
      invariant ConsumeAll(queue.State(), ids[k..]) == ConsumeAll(old(queue.State()), ids)
    {
      var _ := queue.Consume(ids[k]);
      k := k + 1;
    }
  }

  /** n units more, or as many as the eventfd holds. */
  function AfterWrites(counter: nat, n: nat): nat {
    if counter + n <= 0xFFFF_FFFF_FFFF_FFFE then counter + n else 0xFFFF_FFFF_FFFF_FFFE
  }

  lemma {:induction false} ConsumersLeaveNext<T>(q: QueueState<T>, ids: seq<int>)
    requires WellSized(q)
    ensures ConsumeAll(q, ids).next == q.next
    decreases |ids|
  {
    if ids != [] {
      ConsumersLeaveNext(QueueSpec.Consume(q, ids[0]).0, ids[1..]);
    }
  }

  /** What is done and what is still to come make up the whole. */
  ghost predicate MakesUp(whole: Driven, sent: seq<Message<nat>>, refusals: seq<nat>, rest: Driven) {
    whole == Driven(rest.queue, sent + rest.sent, refusals + rest.refusals)
  }

  /** One attempt in terms of Drive: the message is in, or it has been refused once more. */
  lemma DriveOnce(
      q: QueueState<Message<nat>>, moves: seq<seq<int>>, i: nat, t: nat, r: nat, total: nat,
      whole: Driven, sent: seq<Message<nat>>, refusals: seq<nat>)
    requires WellSized(q) && i <= total && moves != []
    requires MakesUp(whole, sent, refusals, Drive(q, moves, i, t, r, total))
    ensures var m := Message(KindOf(t), i);
      var (q', ok) := QueueSpec.Publish(ConsumeAll(q, moves[0]), m);
      MakesUp(whole, if ok then sent + [m] else sent, if ok then refusals + [r] else refusals,
        Drive(q', moves[1..], if ok then i + 1 else i, t + 1, if ok then 0 else r + 1, total))
  {
    var m := Message(KindOf(t), i);
    var (q', ok) := QueueSpec.Publish(ConsumeAll(q, moves[0]), m);
    if ok {
      var rest := Drive(q', moves[1..], i + 1, t + 1, 0, total);
      assert sent + ([m] + rest.sent) == (sent + [m]) + rest.sent;
      assert refusals + ([r] + rest.refusals) == (refusals + [r]) + rest.refusals;
    }
  }

  datatype Counts = Counts(add: nat, trade: nat, delete: nat)

  /** The counters of the three types, by what they count. */
  ghost predicate Tallies(counts: Counts, sent: seq<Message<nat>>) {
    counts == Counts(Count(sent, Add), Count(sent, Trade), Count(sent, Delete))
  }

  method CountSent(counts: Counts, kind: MessageType, ghost i: nat, ghost sent: seq<Message<nat>>)
      returns (counts': Counts)
    requires Tallies(counts, sent)
    ensures Tallies(counts', sent + [Message(kind, i)])
  {
    CountsOneMore(sent, Message(kind, i));
    match kind {
      case Add => counts' := counts.(add := counts.add + 1);
      case Trade => counts' := counts.(trade := counts.trade + 1);
      case Delete => counts' := counts.(delete := counts.delete + 1);
    }
  }

  /** One attempt of run_producer_mode's inner loop, with the consumers' moves before it;
      in ghosts, where that puts it in the whole. */
  method Attempt(
      producer: Producer<Message<nat>>, i: nat, typeIdx: nat, moves: seq<seq<int>>,
      ghost t: nat, ghost r: nat, ghost total: nat,
      ghost whole: Driven, ghost sent: seq<Message<nat>>, ghost refusals: seq<nat>)
      returns (published: bool, kind: MessageType)
    requires producer.queue.Valid() && producer.strategy.Valid() && producer.queue.next < U64_MAX - 2
    requires typeIdx == t % 3 && i <= total && moves != []
    requires MakesUp(whole, sent, refusals, Drive(producer.queue.State(), moves, i, t, r, total))
    modifies producer.queue, producer.queue.ring, producer.queue.consumers, producer.strategy.eventFd
    ensures producer.queue.Valid() && producer.strategy.Valid() && kind == KindOf(t)
    ensures producer.queue.log == old(producer.queue.log) + (if published then [Message(kind, i)] else [])
    ensures producer.queue.next == old(producer.queue.next) + (if published then 1 else 0)
    ensures producer.strategy.eventFd.counter ==
      AfterWrites(old(producer.strategy.eventFd.counter), if published then 1 else 0)
    ensures published ==>
      MakesUp(whole, sent + [Message(kind, i)], refusals + [r],
        Drive(producer.queue.State(), moves[1..], i + 1, t + 1, 0, total))
    ensures !published ==>
      MakesUp(whole, sent, refusals, Drive(producer.queue.State(), moves[1..], i, t + 1, r + 1, total))
  {
    DriveOnce(producer.queue.State(), moves, i, t, r, total, whole, sent, refusals);
    ConsumersLeaveNext(producer.queue.State(), moves[0]);
    ConsumersMove(producer.queue, moves[0]);
    KindOfIs(t);
    kind := if typeIdx == 0 then Add else if typeIdx == 1 then Trade else Delete;
    published := producer.Publish(Message(kind, i));
  }

  lemma NextTurn(k: nat)
    ensures (k % 3 + 1) % 3 == (k + 1) % 3
  {
  }

  /** Where the loop stands after k attempts: what is done, and what is still to come. */
  ghost predicate Midway(
      producer: Producer<Message<nat>>, log0: seq<Message<nat>>, units0: nat, total: nat, moves: seq<seq<int>>,
      k: nat, i: nat, counts: Counts, whole: Driven, sent: seq<Message<nat>>, refusals: seq<nat>, r: nat)
    reads producer, producer.queue, producer.queue.ring, producer.queue.consumers, producer.strategy, producer.strategy.eventFd
  {
    && producer.queue.Valid() && producer.strategy.Valid()
    && 1 <= i <= total + 1 && k <= |moves| && |sent| == i - 1
    && producer.queue.next + (total + 1 - i) <= U64_MAX - 2
    && producer.queue.log == log0 + sent && Tallies(counts, sent)
    && producer.strategy.eventFd.counter == AfterWrites(units0, |sent|)
    && MakesUp(whole, sent, refusals, Drive(producer.queue.State(), moves[k..], i, k, r, total))
  }

  /** One time round the loop. */
  method Round(
      producer: Producer<Message<nat>>, ghost log0: seq<Message<nat>>, ghost units0: nat, total: nat,
      moves: seq<seq<int>>, k: nat, i: nat, typeIdx: nat, counts: Counts,
      ghost whole: Driven, ghost sent: seq<Message<nat>>, ghost refusals: seq<nat>, ghost r: nat)
      returns (i': nat, counts': Counts, ghost sent': seq<Message<nat>>, ghost refusals': seq<nat>, ghost r': nat)
    requires Midway(producer, log0, units0, total, moves, k, i, counts, whole, sent, refusals, r)
    requires i <= total && k < |moves| && typeIdx == k % 3
    modifies producer.queue, producer.queue.ring, producer.queue.consumers, producer.strategy.eventFd
    ensures Midway(producer, log0, units0, total, moves, k + 1, i', counts', whole, sent', refusals', r')
  {
    var published, kind := Attempt(producer, i, typeIdx, moves[k..], k, r, total, whole, sent, refusals);
    assert moves[k..][1..] == moves[k + 1..];
    if published {
      counts' := CountSent(counts, kind, i, sent);
      i', sent', refusals', r' := i + 1, sent + [Message(kind, i)], refusals + [r], 0;
    } else {
      i', counts', sent', refusals', r' := i, counts, sent, refusals, r + 1;
    }
  }

  /** run_producer_mode on the queue itself, for as many attempts as there are moves: the
      messages that got in are on the log, in order, and in the counts of their types,
      and there is one unit in the eventfd for each. */
  method PublishLoop(producer: Producer<Message<nat>>, total: nat, moves: seq<seq<int>>)
      returns (counts: Counts, ghost whole: Driven)
    requires producer.queue.Valid() && producer.strategy.Valid() && producer.queue.next + total <= U64_MAX - 2
    modifies producer.queue, producer.queue.ring, producer.queue.consumers, producer.strategy.eventFd
    ensures producer.queue.Valid() && producer.strategy.Valid()
    ensures whole == Drive(old(producer.queue.State()), moves, 1, 0, 0, total)
    ensures producer.queue.State() == whole.queue && producer.queue.log == old(producer.queue.log) + whole.sent
    ensures Tallies(counts, whole.sent) && counts.add + counts.trade + counts.delete == |whole.sent|
    ensures producer.strategy.eventFd.counter == AfterWrites(old(producer.strategy.eventFd.counter), |whole.sent|)
    ensures old(producer.strategy.eventFd.counter) + |whole.sent| <= 0xFFFF_FFFF_FFFF_FFFE ==>
      producer.strategy.eventFd.counter == old(producer.strategy.eventFd.counter) + |whole.sent|
  {
    whole := Drive(producer.queue.State(), moves, 1, 0, 0, total);
    counts := Counts(0, 0, 0);
    var i, typeIdx, k := 1, 0, 0;
    ghost var sent: seq<Message<nat>>, refusals: seq<nat>, r := [], [], 0;
    ghost var log0, units0 := producer.queue.log, producer.strategy.eventFd.counter;
    while i <= total && k < |moves|
      invariant 0 <= k <= |moves| && typeIdx == k % 3 && i >= 1
      invariant Midway(producer, log0, units0, total, moves, k, i, counts, whole, sent, refusals, r)
      decreases |moves| - k
    {
      i, counts, sent, refusals, r :=
        Round(producer, log0, units0, total, moves, k, i, typeIdx, counts, whole, sent, refusals, r);
      NextTurn(k);
      typeIdx, k := (typeIdx + 1) % 3, k + 1;
    }
    assert sent + [] == sent;
    CountsAddUp(sent);
  }

  // ---------- the types of the messages ----------

  lemma {:induction false} SentInOrder(
      q: QueueState<Message<nat>>, moves: seq<seq<int>>, i: nat, t: nat, r: nat, total: nat)
    requires WellSized(q) && i <= total + 1
    ensures var d := Drive(q, moves, i, t, r, total);
      && |d.sent| == |d.refusals| <= total + 1 - i
      && forall j :: 0 <= j < |d.sent| ==> d.sent[j].payload == i + j
    decreases |moves|
  {
    if i <= total && moves != [] {
      var (q', ok) := QueueSpec.Publish(ConsumeAll(q, moves[0]), Message(KindOf(t), i));
      SentInOrder(q', moves[1..], if ok then i + 1 else i, t + 1, if ok then 0 else r + 1, total);
    }
  }

  /** The types of the messages that got in, given how often each was refused, when the
      first attempt is number t. */
  function KindsAfter(refusals: seq<nat>, t: nat): (kinds: seq<MessageType>)
    ensures |kinds| == |refusals|
  {
    if refusals == [] then [] else [KindOf(t + refusals[0])] + KindsAfter(refusals[1..], t + refusals[0] + 1)
  }

  /** Add, Trade, Delete, as the program announces. */
  function Cycle(n: nat, t: nat): (kinds: seq<MessageType>)
    ensures |kinds| == n && forall j :: 0 <= j < n ==> kinds[j] == KindOf(t + j)
  {
    seq(n, j requires 0 <= j < n => KindOf(t + j))
  }

  function KindsOf(sent: seq<Message<nat>>): (kinds: seq<MessageType>)
    ensures |kinds| == |sent| && forall j :: 0 <= j < |sent| ==> kinds[j] == sent[j].kind
  {
    seq(|sent|, j requires 0 <= j < |sent| => sent[j].kind)
  }

  /** What the queue answers to the attempts, one by one. */
  function Answers(q: QueueState<Message<nat>>, moves: seq<seq<int>>, i: nat, t: nat, total: nat): seq<bool>
    requires WellSized(q)
    decreases |moves|
  {
    if i > total || moves == [] then []
    else
      var (q', ok) := QueueSpec.Publish(ConsumeAll(q, moves[0]), Message(KindOf(t), i));
      [ok] + Answers(q', moves[1..], if ok then i + 1 else i, t + 1, total)
  }

  /** What gets in, and how often each was refused before, by the answers alone. */
  function SentBy(answers: seq<bool>, i: nat, t: nat): seq<Message<nat>> {
    if answers == [] then []
    else if answers[0] then [Message(KindOf(t), i)] + SentBy(answers[1..], i + 1, t + 1)
    else SentBy(answers[1..], i, t + 1)
  }

  function RefusalsBy(answers: seq<bool>, r: nat): seq<nat> {
    if answers == [] then []
    else if answers[0] then [r] + RefusalsBy(answers[1..], 0)
    else RefusalsBy(answers[1..], r + 1)
  }

  lemma {:induction false} DriveByAnswers(
      q: QueueState<Message<nat>>, moves: seq<seq<int>>, i: nat, t: nat, r: nat, total: nat)
    requires WellSized(q)
    ensures Drive(q, moves, i, t, r, total).sent == SentBy(Answers(q, moves, i, t, total), i, t)
    ensures Drive(q, moves, i, t, r, total).refusals == RefusalsBy(Answers(q, moves, i, t, total), r)
    decreases |moves|
  {
    if i <= total && moves != [] {
      var (q', ok) := QueueSpec.Publish(ConsumeAll(q, moves[0]), Message(KindOf(t), i));
      DriveByAnswers(q', moves[1..], if ok then i + 1 else i, t + 1, if ok then 0 else r + 1, total);
      assert Answers(q, moves, i, t, total)[1..] == Answers(q', moves[1..], if ok then i + 1 else i, t + 1, total);
    }
  }

  lemma {:induction false} SentKinds(answers: seq<bool>, i: nat, t: nat, r: nat)
    requires r <= t
    ensures KindsOf(SentBy(answers, i, t)) == KindsAfter(RefusalsBy(answers, r), t - r)
    decreases |answers|
  {
    if answers != [] {
      if answers[0] {
        SentKinds(answers[1..], i + 1, t + 1, 0);
        PushFront(Message(KindOf(t), i), SentBy(answers[1..], i + 1, t + 1), r, RefusalsBy(answers[1..], 0), t - r);
      } else {
        SentKinds(answers[1..], i, t + 1, r + 1);
      }
    }
  }

  lemma PushFront(m: Message<nat>, sent: seq<Message<nat>>, r: nat, refusals: seq<nat>, b: nat)
    ensures KindsOf([m] + sent) == [m.kind] + KindsOf(sent)
    ensures KindsAfter([r] + refusals, b) == [KindOf(b + r)] + KindsAfter(refusals, b + r + 1)
  {
    assert KindsOf([m] + sent) == [m.kind] + KindsOf(sent);
    assert ([r] + refusals)[1..] == refusals;
  }

  lemma KindOfSum(t: nat, r: nat)
    ensures KindOf(t + r) == KindOf(t) <==> r % 3 == 0
    ensures r % 3 == 0 ==> (t + r) % 3 == t % 3
  {
    KindOfIs(t);
    KindOfIs(t + r);
  }

  lemma CycleMod(n: nat, t: nat, t': nat)
    requires t % 3 == t' % 3
    ensures Cycle(n, t) == Cycle(n, t')
  {
    forall j | 0 <= j < n ensures Cycle(n, t)[j] == Cycle(n, t')[j] {
      SameTurn(t, t', j);
    }
  }

  lemma SameTurn(t: nat, t': nat, j: nat)
    requires t % 3 == t' % 3
    ensures KindOf(t + j) == KindOf(t' + j)
  {
    KindOfIs(t + j);
    KindOfIs(t' + j);
    assert (t + j) % 3 == (t' + j) % 3;
  }

  lemma CycleTail(n: nat, t: nat)
    requires n > 0
    ensures Cycle(n, t) == [KindOf(t)] + Cycle(n - 1, t + 1)
  {
    var tail := [KindOf(t)] + Cycle(n - 1, t + 1);
    forall j | 0 <= j < n ensures Cycle(n, t)[j] == tail[j] {
      assert j > 0 ==> t + j == t + 1 + (j - 1);
    }
  }

  ghost predicate InThrees(refusals: seq<nat>) {
    forall j :: 0 <= j < |refusals| ==> refusals[j] % 3 == 0
  }

  lemma FirstOfCycle(refusals: seq<nat>, t: nat)
    requires refusals != []
    ensures KindsAfter(refusals, t) == Cycle(|refusals|, t) <==>
      && KindOf(t + refusals[0]) == KindOf(t)
      && KindsAfter(refusals[1..], t + refusals[0] + 1) == Cycle(|refusals| - 1, t + 1)
    ensures InThrees(refusals) <==> refusals[0] % 3 == 0 && InThrees(refusals[1..])
  {
    var kinds, cycle := KindsAfter(refusals, t), Cycle(|refusals|, t);
    CycleTail(|refusals|, t);
    assert kinds[1..] == KindsAfter(refusals[1..], t + refusals[0] + 1) && cycle[1..] == Cycle(|refusals| - 1, t + 1);
    assert kinds == [kinds[0]] + kinds[1..] && cycle == [cycle[0]] + cycle[1..];
  }

  lemma NextThird(t: nat, r: nat)
    requires r % 3 == 0
    ensures (t + 1) % 3 == (t + r + 1) % 3
  {
  }

  lemma {:induction false} CyclesIff(refusals: seq<nat>, t: nat)
    ensures KindsAfter(refusals, t) == Cycle(|refusals|, t) <==> InThrees(refusals)
    decreases |refusals|
  {
    if refusals != [] {
      var r, rest := refusals[0], refusals[1..];
      FirstOfCycle(refusals, t);
      KindOfSum(t, r);
      CyclesIff(rest, t + r + 1);
      if r % 3 == 0 {
        NextThird(t, r);
        CycleMod(|rest|, t + 1, t + r + 1);
      }
    }
  }

  /** Add, Trade, Delete, and again. */
  predicate InTurn(kind: MessageType, j: nat) {
    (j % 3 == 0 && kind == Add) || (j % 3 == 1 && kind == Trade) || (j % 3 == 2 && kind == Delete)
  }

  lemma InTurnIs(kind: MessageType, j: nat)
    ensures InTurn(kind, j) <==> kind == KindOf(j)
  {
    KindOfIs(j);
  }

  /** What got in goes Add, Trade, Delete, as the program announces. */
  ghost predicate InCycle(sent: seq<Message<nat>>) {
    forall j :: 0 <= j < |sent| ==> InTurn(sent[j].kind, j)
  }

  ghost predicate ByTurns(sent: seq<Message<nat>>) {
    forall j :: 0 <= j < |sent| ==> sent[j].kind == KindOf(j)
  }

  lemma ByTurnsIsInCycle(sent: seq<Message<nat>>)
    ensures InCycle(sent) <==> ByTurns(sent)
  {
    forall j | 0 <= j < |sent| ensures InTurn(sent[j].kind, j) <==> sent[j].kind == KindOf(j) {
      InTurnIs(sent[j].kind, j);
    }
  }

  lemma ByTurnsIsCycle(sent: seq<Message<nat>>)
    ensures ByTurns(sent) <==> KindsOf(sent) == Cycle(|sent|, 0)
  {
    var kinds, cycle := KindsOf(sent), Cycle(|sent|, 0);
    assert forall j :: 0 <= j < |sent| ==> cycle[j] == KindOf(0 + j);
    assert kinds == cycle <==> forall j :: 0 <= j < |sent| ==> kinds[j] == cycle[j];
  }

  lemma InCycleIs(sent: seq<Message<nat>>)
    ensures InCycle(sent) <==> KindsOf(sent) == Cycle(|sent|, 0)
  {
    ByTurnsIsInCycle(sent);
    ByTurnsIsCycle(sent);
  }

  /** It does if and only if the queue refused every message a multiple of three times. */
  lemma TypesCycleIff(q: QueueState<Message<nat>>, moves: seq<seq<int>>, total: nat)
    requires WellSized(q)
    ensures var d := Drive(q, moves, 1, 0, 0, total);
      InCycle(d.sent) <==> forall j :: 0 <= j < |d.refusals| ==> d.refusals[j] % 3 == 0
  {
    var d := Drive(q, moves, 1, 0, 0, total);
    SentInOrder(q, moves, 1, 0, 0, total);
    DriveByAnswers(q, moves, 1, 0, 0, total);
    SentKinds(Answers(q, moves, 1, 0, total), 1, 0, 0);
    CyclesIff(d.refusals, 0);
    InCycleIs(d.sent);
  }

  // ---------- when callers may rely on the cycle ----------

  lemma {:induction false} ConsumeAllKeeps<T>(q: QueueState<T>, log: seq<T>, ids: seq<int>)
    requires Inv(q, log)
    ensures Inv(ConsumeAll(q, ids), log)
    ensures SomeActive(q) ==> SomeActive(ConsumeAll(q, ids))
    decreases |ids|
  {
    if ids != [] {
      var q' := QueueSpec.Consume(q, ids[0]).0;
      ConsumeExact(q, log, ids[0]);
      if i :| 0 <= i < MAX_CONSUMERS && q.consumers[i].active {
        assert q'.consumers[i].active;
      }
      ConsumeAllKeeps(q', log, ids[1..]);
    }
  }

  lemma RoomInTheRing<T>(q: QueueState<T>, log: seq<T>, item: T)
    requires Inv(q, log) && SomeActive(q) && q.next < RING_SIZE
    ensures QueueSpec.Publish(q, item).1
    ensures Inv(QueueSpec.Publish(q, item).0, log + [item])
    ensures QueueSpec.Publish(q, item).0.consumers == q.consumers
  {
    PublishExact(q, log, item);
  }

  /** The first 1024 messages are never refused while somebody is registered. */
  lemma {:induction false} NeverRefused(
      q: QueueState<Message<nat>>, log: seq<Message<nat>>, moves: seq<seq<int>>, i: nat, t: nat, total: nat)
    requires Inv(q, log) && SomeActive(q) && i == q.next + 1 && total <= RING_SIZE
    ensures forall j :: 0 <= j < |Drive(q, moves, i, t, 0, total).refusals| ==>
      Drive(q, moves, i, t, 0, total).refusals[j] == 0
    decreases |moves|
  {
    if i <= total && moves != [] {
      var q1, m := ConsumeAll(q, moves[0]), Message(KindOf(t), i);
      ConsumersLeaveNext(q, moves[0]);
      ConsumeAllKeeps(q, log, moves[0]);
      RoomInTheRing(q1, log, m);
      NeverRefused(QueueSpec.Publish(q1, m).0, log + [m], moves[1..], i + 1, t + 1, total);
    }
  }

  /** Whoever is registered waits for message number s. */
  predicate AllAt<T>(q: QueueState<T>, s: nat)
    requires WellSized(q)
  {
    forall c :: 0 <= c < MAX_CONSUMERS && q.consumers[c].active ==> q.consumers[c].sequence == s
  }

  /** Consumers k .. 63. */
  function From(k: nat): seq<int>
    requires k <= MAX_CONSUMERS
    decreases MAX_CONSUMERS - k
  {
    if k == MAX_CONSUMERS then [] else [k] + From(k + 1)
  }

  /** Everybody takes one message. */
  lemma {:induction false} EverybodyTakesOne<T>(q: QueueState<T>, log: seq<T>, k: nat)
    requires Inv(q, log) && |log| >= 1 && k <= MAX_CONSUMERS
    requires forall c :: 0 <= c < MAX_CONSUMERS && q.consumers[c].active ==>
      q.consumers[c].sequence == if c < k then 2 else 1
    ensures AllAt(ConsumeAll(q, From(k)), 2)
    decreases MAX_CONSUMERS - k
  {
    if k < MAX_CONSUMERS {
      ConsumeExact(q, log, k);
      assert From(k)[1..] == From(k + 1);
      EverybodyTakesOne(QueueSpec.Consume(q, k).0, log, k + 1);
    }
  }

  lemma FullAtOne<T>(q: QueueState<T>, log: seq<T>, item: T)
    requires Inv(q, log) && SomeActive(q) && AllAt(q, 1) && q.next == RING_SIZE
    ensures !QueueSpec.Publish(q, item).1
    ensures Inv(QueueSpec.Publish(q, item).0, log) && QueueSpec.Publish(q, item).0.consumers == q.consumers
    ensures QueueSpec.Publish(q, item).0.next == q.next
  {
    PublishExact(q, log, item);
    var c :| 0 <= c < MAX_CONSUMERS && q.consumers[c].active;
    assert q.next + 1 - q.consumers[c].sequence == RING_SIZE;
  }

  lemma RoomAtTwo<T>(q: QueueState<T>, log: seq<T>, item: T)
    requires Inv(q, log) && SomeActive(q) && AllAt(q, 2) && q.next == RING_SIZE
    ensures QueueSpec.Publish(q, item).1
  {
    PublishExact(q, log, item);
  }

  /** Nobody moves before n attempts; then everybody takes one message, once. */
  function Wait(n: nat): (moves: seq<seq<int>>)
    ensures |moves| == n + 1
  {
    if n == 0 then [From(0)] else [[]] + Wait(n - 1)
  }

  /** The refusal: with everybody still at 1, message 1025 gets in at the second attempt,
      which has the type of message 1026. */
  lemma RefusedOnce(q: QueueState<Message<nat>>, log: seq<Message<nat>>, total: nat)
    requires Inv(q, log) && SomeActive(q) && AllAt(q, 1) && q.next == RING_SIZE < total
    ensures Drive(q, Wait(1), RING_SIZE + 1, RING_SIZE, 0, total).refusals == [1]
  {
    var n := RING_SIZE;
    var first, second := Message(KindOf(n), n + 1), Message(KindOf(n + 1), n + 1);
    assert Wait(1)[1..] == Wait(0) && Wait(0)[1..] == [];
    assert ConsumeAll(q, []) == q;
    FullAtOne(q, log, first);
    var q1 := QueueSpec.Publish(q, first).0;
    var q2 := ConsumeAll(q1, From(0));
    EverybodyTakesOne(q1, log, 0);
    ConsumeAllKeeps(q1, log, From(0));
    ConsumersLeaveNext(q1, From(0));
    RoomAtTwo(q2, log, second);
    var q3 := QueueSpec.Publish(q2, second).0;
    assert Drive(q3, [], n + 2, n + 2, 0, total).refusals == [];
    assert Drive(q1, Wait(0), n + 1, n + 1, 1, total).refusals == [1];
  }

  /** Below 1024 the next message gets in at once, though nobody moves. */
  lemma WaitingGetsIn(q: QueueState<Message<nat>>, log: seq<Message<nat>>, t: nat, total: nat)
      returns (q': QueueState<Message<nat>>, log': seq<Message<nat>>, rest: seq<nat>)
    requires Inv(q, log) && SomeActive(q) && AllAt(q, 1) && q.next == t < RING_SIZE < total
    ensures Inv(q', log') && SomeActive(q') && AllAt(q', 1) && q'.next == t + 1
    ensures rest == Drive(q', Wait(RING_SIZE - t), t + 2, t + 1, 0, total).refusals
    ensures Drive(q, Wait(RING_SIZE + 1 - t), t + 1, t, 0, total).refusals == [0] + rest
  {
    var moves := Wait(RING_SIZE + 1 - t);
    var m: Message<nat> := Message(KindOf(t), t + 1);
    assert moves[0] == [] && moves[1..] == Wait(RING_SIZE - t);
    RoomInTheRing(q, log, m);
    q', log' := QueueSpec.Publish(q, m).0, log + [m];
    assert ConsumeAll(q, moves[0]) == q;
    rest := Drive(q', moves[1..], t + 2, t + 1, 0, total).refusals;
    assert Drive(q, moves, t + 1, t, 0, total).refusals == [0] + rest;
  }

  ghost predicate EndsInOne(refusals: seq<nat>) {
    refusals != [] && refusals[|refusals| - 1] == 1
  }

  lemma LastStays(rest: seq<nat>)
    requires EndsInOne(rest)
    ensures EndsInOne([0] + rest)
  {
  }

  lemma {:induction false} WaitingIsRefused(
      q: QueueState<Message<nat>>, log: seq<Message<nat>>, t: nat, total: nat)
    requires Inv(q, log) && SomeActive(q) && AllAt(q, 1) && q.next == t <= RING_SIZE < total
    ensures EndsInOne(Drive(q, Wait(RING_SIZE + 1 - t), t + 1, t, 0, total).refusals)
    decreases RING_SIZE - t
  {
    if t == RING_SIZE {
      RefusedOnce(q, log, total);
    } else {
      var q', log', rest := WaitingGetsIn(q, log, t, total);
      WaitingIsRefused(q', log', t + 1, total);
      LastStays(rest);
    }
  }

  /** With consumers waiting at 1 on a queue without messages, the types of what gets in
      go Add, Trade, Delete however the consumers move, if and only if there are no more
      than 1024 messages. */
  lemma CycleGuaranteedIff(q: QueueState<Message<nat>>, total: nat)
    requires Inv(q, []) && SomeActive(q) && AllAt(q, 1)
    ensures (forall moves :: InCycle(Drive(q, moves, 1, 0, 0, total).sent)) <==> total <= RING_SIZE
  {
    if total <= RING_SIZE {
      forall moves ensures InCycle(Drive(q, moves, 1, 0, 0, total).sent) {
        NeverRefused(q, [], moves, 1, 0, total);
        TypesCycleIff(q, moves, total);
      }
    } else {
      var moves := Wait(RING_SIZE + 1);
      WaitingIsRefused(q, [], 0, total);
      TypesCycleIff(q, moves, total);
      assert !InCycle(Drive(q, moves, 1, 0, 0, total).sent);
    }
  }
}
