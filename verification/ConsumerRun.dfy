/** The consumer's loop and the drain at shutdown, with the producer at work in
    between: before each look at the queue or the flag any number of messages may have
    come, and shutdown after them. */
module ConsumerRun {
  import opened RingLayout
  import opened QueueSpec
  import opened Schedules

  datatype MessageType = Add | Trade | Delete

  datatype Message<P> = Message(kind: MessageType, payload: P)

  function Count<P>(ms: seq<Message<P>>, kind: MessageType): nat {
    if ms == [] then 0
    else Count(ms[..|ms| - 1], kind) + (if ms[|ms| - 1].kind == kind then 1 else 0)
  }

  lemma {:induction false} CountsAddUp<P>(ms: seq<Message<P>>)
    ensures Count(ms, Add) + Count(ms, Trade) + Count(ms, Delete) == |ms|
    decreases |ms|
  {
    if ms != [] {
      CountsAddUp(ms[..|ms| - 1]);
    }
  }

  /** Count counts: the places with that type. */
  lemma {:induction false} CountIsCardinality<P>(ms: seq<Message<P>>, kind: MessageType)
    ensures Count(ms, kind) == |set j | 0 <= j < |ms| && ms[j].kind == kind|
    decreases |ms|
  {
    var places := set j | 0 <= j < |ms| && ms[j].kind == kind;
    if ms != [] {
      var n := |ms| - 1;
      var before := set j | 0 <= j < n && ms[..n][j].kind == kind;
      CountIsCardinality(ms[..n], kind);
      assert places == if ms[n].kind == kind then before + {n} else before;
    } else {
      assert places == {};
    }
  }

  lemma CountOneMore<P>(ms: seq<Message<P>>, m: Message<P>, kind: MessageType)
    ensures Count(ms + [m], kind) == Count(ms, kind) + (if m.kind == kind then 1 else 0)
  {
    assert (ms + [m])[..|ms|] == ms;
  }

  lemma CountsOneMore<P>(ms: seq<Message<P>>, m: Message<P>)
    ensures Count(ms + [m], Add) == Count(ms, Add) + (if m.kind.Add? then 1 else 0)
    ensures Count(ms + [m], Trade) == Count(ms, Trade) + (if m.kind.Trade? then 1 else 0)
    ensures Count(ms + [m], Delete) == Count(ms, Delete) + (if m.kind.Delete? then 1 else 0)
  {
    CountOneMore(ms, m, Add);
    CountOneMore(ms, m, Trade);
    CountOneMore(ms, m, Delete);
  }

  /** The queue as one registered consumer sees it, and the shutdown flag. */
  class Feed<P> {
    /** Every message there will ever be, in order. */
    ghost const all: seq<Message<P>>
    var log: seq<Message<P>>
    var cursor: nat
    var flag: bool
    var plan: seq<Turn<Message<P>>>

    ghost predicate Valid()
      reads this
    {
      1 <= cursor <= |log| + 1 && log + Coming(plan) == all && Orderly(plan, flag)
    }

    ghost function Unread(): nat
      reads this
      requires Valid()
    {
      |log| + 1 - cursor
    }

    /** How a loop with this budget ends from here, about to consume. */
    ghost function EndsBy(budget: int): Ending
      reads this
      requires Valid()
    {
      FromConsume(plan, Unread(), flag, budget)
    }

    constructor (plan: seq<Turn<Message<P>>>)
      requires Orderly(plan, false)
      ensures Valid() && cursor == 1 && log == [] && !flag && this.plan == plan && all == Coming(plan)
    {
      log, cursor, flag, this.plan := [], 1, false, plan;
      all := Coming(plan);
    }

    /** One turn of the world goes by. */
    method Interfere()
      requires Valid()
      modifies this
      ensures Valid() && cursor == old(cursor)
      ensures old(plan) == [] ==> plan == [] && log == old(log) && flag == old(flag)
      ensures old(plan) != [] ==>
        && plan == old(plan)[1..] && log == old(log) + old(plan)[0].messages
        && flag == (old(flag) || old(plan)[0].shutsDown)
      ensures flag || plan == [] ==> log == all
    {
      if plan != [] {
        log := log + plan[0].messages;
        flag := flag || plan[0].shutsDown;
        plan := plan[1..];
      }
      if flag {
        NothingAfterShutdown(plan);
      }
    }

    /** consume, at whatever moment it takes place. `budget` is the caller's. */
    method Consume(ghost budget: int) returns (out: Option<Message<P>>)
      requires Valid()
      modifies this
      ensures Valid() && |plan| <= |old(plan)| && (old(flag) ==> flag)
      ensures flag || plan == [] ==> log == all
      ensures out.Some? ==>
        && cursor == old(cursor) + 1 <= |all| + 1 && out.value == all[old(cursor) - 1]
        && (budget != 0 ==> old(EndsBy(budget)) == EndsBy(budget - 1))
      ensures out.None? ==>
        && cursor == old(cursor) == |log| + 1 && (plan == [] || |plan| < |old(plan)|)
        && (budget != 0 ==> old(EndsBy(budget)) == FromFlag(plan, flag, budget))
    {
      Interfere();
      if cursor <= |log| {
        out := Some(log[cursor - 1]);
        cursor := cursor + 1;
      } else {
        out := None;
      }
    }

    method LoadFlag(ghost budget: int) returns (f: bool)
      requires Valid() && cursor == |log| + 1
      modifies this
      ensures Valid() && cursor == old(cursor) && f == flag
      ensures plan == [] || |plan| < |old(plan)|
      ensures f ==> log == all && FromFlag(old(plan), old(flag), budget) == ByFlag(|all| + 1 - cursor)
      ensures !f ==>
        FromFlag(old(plan), old(flag), budget) == if old(plan) == [] then Starved else EndsBy(budget)
    {
      Interfere();
      f := flag;
    }
  }

  /** Messages unread, now or later, and turns of the world to come. */
  ghost function Measure<P>(feed: Feed<P>): int
    reads feed
  {
    |feed.all| + 1 - feed.cursor + |feed.plan|
  }

  /** LoggingConsumer with its run loop. */
  class LoggingConsumer<P> {
    const feed: Feed<P>
    var addCount: nat
    var tradeCount: nat
    var deleteCount: nat
    var consumedCount: nat
    ghost var handled: seq<Message<P>>

    ghost predicate Tallied()
      reads this
    {
      && addCount == Count(handled, Add)
      && tradeCount == Count(handled, Trade)
      && deleteCount == Count(handled, Delete)
    }

    constructor (feed: Feed<P>)
      ensures this.feed == feed && handled == [] && Tallied() && consumedCount == 0
    {
      this.feed := feed;
      addCount, tradeCount, deleteCount, consumedCount := 0, 0, 0, 0;
      handled := [];
    }

    method OnMessage(msg: Message<P>)
      requires Tallied()
      modifies this
      ensures Tallied() && handled == old(handled) + [msg] && consumedCount == old(consumedCount)
    {
      match msg.kind {
        case Add => addCount := addCount + 1;
        case Trade => tradeCount := tradeCount + 1;
        case Delete => deleteCount := deleteCount + 1;
      }
      CountsOneMore(handled, msg);
      handled := handled + [msg];
    }

    /** Everything consumed since `start` has been handled, in order. */
    ghost predicate UpToDate(start: nat)
      reads this, feed
    {
      && feed.Valid() && Tallied()
      && 1 <= start <= feed.cursor <= |feed.all| + 1
      && handled == feed.all[start - 1..feed.cursor - 1]
    }

    /** Consume one message and hand it to the subclass, if there is one. */
    method HandleNext(ghost start: nat, ghost budget: int) returns (got: bool)
      requires UpToDate(start)
      modifies this, feed
      ensures UpToDate(start) && consumedCount == old(consumedCount)
      ensures |feed.plan| <= |old(feed.plan)| && (old(feed.flag) ==> feed.flag)
      ensures feed.flag || feed.plan == [] ==> feed.log == feed.all
      ensures got ==>
        && feed.cursor == old(feed.cursor) + 1
        && (budget != 0 ==> old(feed.EndsBy(budget)) == feed.EndsBy(budget - 1))
      ensures !got ==>
        && feed.cursor == old(feed.cursor) == |feed.log| + 1
        && (feed.plan == [] || |feed.plan| < |old(feed.plan)|)
        && (budget != 0 ==> old(feed.EndsBy(budget)) == FromFlag(feed.plan, feed.flag, budget))
    {
      var msg := feed.Consume(budget);
      got := msg.Some?;
      if got {
        OnMessage(msg.value);
      }
    }

    /** One time round the loop: a message handled, or a look at the flag. */
    method Round(ghost start: nat, ghost budget: int) returns (got: bool, stop: bool)
      requires UpToDate(start) && budget != 0 && !feed.EndsBy(budget).Starved?
      modifies this, feed
      ensures UpToDate(start) && consumedCount == old(consumedCount)
      ensures got ==> !stop
      ensures feed.cursor == old(feed.cursor) + (if got then 1 else 0)
      ensures stop ==> feed.flag && old(feed.EndsBy(budget)) == ByFlag(|feed.all| + 1 - feed.cursor)
      ensures !stop ==>
        && Measure(feed) < old(Measure(feed))
        && feed.EndsBy(if got then budget - 1 else budget) == old(feed.EndsBy(budget))
    {
      stop := false;
      got := HandleNext(start, budget);
      if !got {
        // wait_for_data leaves the queue and the flag alone
        stop := feed.LoadFlag(budget);
      }
    }

    /** The drain: consume until nothing is left. It makes one call more than there are
        unread messages. */
    method DrainRemaining(count: nat, ghost start: nat) returns (total: nat, ghost calls: nat)
      requires UpToDate(start) && feed.flag && feed.cursor == start + count
      modifies this, feed
      ensures UpToDate(start) && feed.flag && feed.cursor == start + total == |feed.all| + 1
      ensures consumedCount == old(consumedCount)
      ensures calls == |feed.all| + 1 - old(feed.cursor) + 1
    {
      total, calls := count, 0;
      while true
        invariant UpToDate(start) && feed.flag && feed.cursor == start + total
        invariant consumedCount == old(consumedCount)
        invariant calls == feed.cursor - old(feed.cursor)
        decreases |feed.all| + 1 - feed.cursor
      {
        var got := HandleNext(start, 0);
        calls := calls + 1;
        if !got {
          break;
        }
        total := total + 1;
      }
    }

    /** The loop up to its limit or to the sight of the flag. */
    method Loop(maxMessages: nat) returns (count: nat, stop: bool)
      requires UpToDate(feed.cursor)
      requires EnoughToEnd(feed.plan, feed.Unread(), feed.flag, Budget(maxMessages))
      modifies this, feed
      ensures UpToDate(old(feed.cursor)) && feed.cursor == old(feed.cursor) + count
      ensures stop ==> feed.flag && old(feed.EndsBy(Budget(maxMessages))) == ByFlag(|feed.all| + 1 - feed.cursor)
      ensures !stop ==> maxMessages > 0 && count == maxMessages && old(feed.EndsBy(Budget(maxMessages))) == ByLimit
    {
      count, stop := 0, false;
      ghost var start := feed.cursor;
      EndsIff(feed.plan, feed.Unread(), feed.flag, Budget(maxMessages));
      while !stop
        invariant UpToDate(start) && feed.cursor == start + count
        invariant maxMessages > 0 ==> count <= maxMessages
        invariant !old(feed.EndsBy(Budget(maxMessages))).Starved?
        invariant !stop ==> old(feed.EndsBy(Budget(maxMessages))) == feed.EndsBy(Budget(maxMessages) - count)
        invariant stop ==> feed.flag && old(feed.EndsBy(Budget(maxMessages))) == ByFlag(|feed.all| + 1 - feed.cursor)
        decreases !stop, Measure(feed)
      {
        if maxMessages > 0 && count >= maxMessages {
          break;
        }
        var got;
        got, stop := Round(start, Budget(maxMessages) - count);
        if got {
          count := count + 1;
        }
      }
    }

    /** The loop, and the drain when the flag was seen. */
    method LoopAndDrain(maxMessages: nat) returns (count: nat, viaFlag: bool, ghost drained: nat)
      requires UpToDate(feed.cursor)
      requires EnoughToEnd(feed.plan, feed.Unread(), feed.flag, Budget(maxMessages))
      modifies this, feed
      ensures UpToDate(old(feed.cursor)) && feed.cursor == old(feed.cursor) + count
      ensures old(feed.EndsBy(Budget(maxMessages))) == if viaFlag then ByFlag(drained) else ByLimit
      ensures viaFlag ==> feed.flag && feed.cursor == |feed.all| + 1
      ensures !viaFlag ==> maxMessages > 0 && count == maxMessages
    {
      ghost var start := feed.cursor;
      count, viaFlag := Loop(maxMessages);
      drained := |feed.all| + 1 - feed.cursor;
      if viaFlag {
        ghost var calls: nat;
        count, calls := DrainRemaining(count, start);
      }
    }

    /** Consumer::run. It returns through the flag or through its limit as the schedule
        of the producer decides. Through the flag it has handled everything from its
        start to the last message ever, however many more than maxMessages that is, and
        `drained` of them in the drain; through the limit, exactly the first maxMessages. */
    method Run(maxMessages: nat) returns (viaFlag: bool, ghost drained: nat)
      requires feed.Valid() && handled == [] && Tallied()
      requires EnoughToEnd(feed.plan, feed.Unread(), feed.flag, Budget(maxMessages))
      modifies this, feed
      ensures feed.Valid() && Tallied()
      ensures consumedCount == |handled| && feed.cursor == old(feed.cursor) + |handled|
      ensures old(feed.EndsBy(Budget(maxMessages))) == if viaFlag then ByFlag(drained) else ByLimit
      ensures viaFlag ==> feed.flag && handled == feed.all[old(feed.cursor) - 1..]
      ensures !viaFlag ==>
        && maxMessages > 0 && old(feed.cursor) - 1 + maxMessages <= |feed.all|
        && handled == feed.all[old(feed.cursor) - 1..old(feed.cursor) - 1 + maxMessages]
    {
      assert handled == feed.all[feed.cursor - 1..feed.cursor - 1];
      ghost var start := feed.cursor;
      var count;
      count, viaFlag, drained := LoopAndDrain(maxMessages);
      consumedCount := count;
    }
  }

  /** The limit as a budget: 0 stands for none. */
  function Budget(maxMessages: nat): int {
    if maxMessages > 0 then maxMessages else -1
  }

  /** Two messages and shutdown come between a failed consume and the look at the flag:
      a consumer that was told to stop after one message handles both. */
  method OverrunsItsLimit<P>(m: Message<P>) returns (consumer: LoggingConsumer<P>, ghost drained: nat)
    ensures fresh(consumer) && consumer.consumedCount == 2 > 1
    ensures consumer.handled == [m, m] && drained == 2
  {
    ghost var all := [m, m];
    LateAndQuickEnds(all, 0, 1);
    var feed := new Feed(LateAndQuick([m, m], 0));
    consumer := new LoggingConsumer(feed);
    EndsIff(feed.plan, 0, false, 1);
    var viaFlag;
    viaFlag, drained := consumer.Run(1);
    assert feed.all[0..] == all;
  }

  /** The demo's per-thread result: three tallies and a total. */
  class ConsumerResult<P> {
    var addCount: nat
    var tradeCount: nat
    var deleteCount: nat
    var total: nat
    ghost var counted: seq<Message<P>>

    ghost predicate Valid()
      reads this
    {
      && addCount == Count(counted, Add)
      && tradeCount == Count(counted, Trade)
      && deleteCount == Count(counted, Delete)
    }

    constructor ()
      ensures Valid() && total == 0 && counted == []
    {
      addCount, tradeCount, deleteCount, total := 0, 0, 0, 0;
      counted := [];
    }

    method CountMessage(msg: Message<P>)
      requires Valid()
      modifies this
      ensures Valid() && counted == old(counted) + [msg] && total == old(total) + 1
    {
      match msg.kind {
        case Add => addCount := addCount + 1;
        case Trade => tradeCount := tradeCount + 1;
        case Delete => deleteCount := deleteCount + 1;
      }
      total := total + 1;
      CountsOneMore(counted, msg);
      counted := counted + [msg];
    }
  }

  /** The demo's drain: the messages are taken and added to the total, not looked at. */
  method DrainUncounted<P>(feed: Feed<P>, result: ConsumerResult<P>) returns (ghost drained: nat)
    requires feed.Valid() && feed.flag && result.Valid()
    modifies feed, result
    ensures feed.Valid() && feed.flag && result.Valid()
    ensures feed.cursor == old(feed.cursor) + drained == |feed.all| + 1
    ensures result.total == old(result.total) + drained && result.counted == old(result.counted)
  {
    drained := 0;
    while true
      invariant feed.Valid() && feed.flag && result.Valid()
      invariant feed.cursor == old(feed.cursor) + drained
      invariant result.total == old(result.total) + drained && result.counted == old(result.counted)
      decreases |feed.all| + 1 - feed.cursor
    {
      var remaining := feed.Consume(0);
      if remaining.None? {
        break;
      }
      result.total := result.total + 1;
      drained := drained + 1;
    }
  }

  /** The demo's thread takes and counts one message, if there is one. */
  method CountNext<P>(feed: Feed<P>, result: ConsumerResult<P>, ghost start: nat, ghost budget: int)
      returns (got: bool)
    requires Counted(feed, result, start)
    modifies feed, result
    ensures Counted(feed, result, start) && result.total == old(result.total) + (if got then 1 else 0)
    ensures |feed.plan| <= |old(feed.plan)|
    ensures got && budget != 0 ==> old(feed.EndsBy(budget)) == feed.EndsBy(budget - 1)
    ensures !got ==>
      && feed.cursor == |feed.log| + 1 && (feed.plan == [] || |feed.plan| < |old(feed.plan)|)
      && (budget != 0 ==> old(feed.EndsBy(budget)) == FromFlag(feed.plan, feed.flag, budget))
  {
    var msg := feed.Consume(budget);
    got := msg.Some?;
    if got {
      result.CountMessage(msg.value);
    }
  }

  /** One time round the loop of the demo's thread. */
  method CountRound<P>(feed: Feed<P>, result: ConsumerResult<P>, ghost start: nat, ghost budget: int)
      returns (got: bool, stop: bool)
    requires Counted(feed, result, start) && budget != 0 && !feed.EndsBy(budget).Starved?
    modifies feed, result
    ensures Counted(feed, result, start)
    ensures result.total == old(result.total) + (if got then 1 else 0) && (got ==> !stop)
    ensures stop ==> feed.flag && old(feed.EndsBy(budget)) == ByFlag(|feed.all| + 1 - feed.cursor)
    ensures !stop ==>
      && Measure(feed) < old(Measure(feed))
      && feed.EndsBy(if got then budget - 1 else budget) == old(feed.EndsBy(budget))
  {
    stop := false;
    got := CountNext(feed, result, start, budget);
    if !got {
      stop := feed.LoadFlag(budget);
    }
  }

  /** The demo's loop up to its target or to the sight of the flag. */
  method CountLoop<P>(feed: Feed<P>, wanted: nat, result: ConsumerResult<P>) returns (stop: bool)
    requires Counted(feed, result, feed.cursor)
    requires EnoughToEnd(feed.plan, feed.Unread(), feed.flag, wanted)
    modifies feed, result
    ensures Counted(feed, result, old(feed.cursor))
    ensures stop ==> feed.flag && old(feed.EndsBy(wanted)) == ByFlag(|feed.all| + 1 - feed.cursor)
    ensures !stop ==> result.total == wanted && old(feed.EndsBy(wanted)) == ByLimit
  {
    stop := false;
    ghost var start := feed.cursor;
    EndsIff(feed.plan, feed.Unread(), feed.flag, wanted);
    while !stop && result.total < wanted
      invariant Counted(feed, result, start) && result.total <= wanted
      invariant !old(feed.EndsBy(wanted)).Starved?
      invariant !stop ==> old(feed.EndsBy(wanted)) == feed.EndsBy(wanted - result.total)
      invariant stop ==> feed.flag && old(feed.EndsBy(wanted)) == ByFlag(|feed.all| + 1 - feed.cursor)
      decreases !stop, Measure(feed)
    {
      var got;
      got, stop := CountRound(feed, result, start, wanted - result.total);
    }
  }

  ghost predicate Counted<P>(feed: Feed<P>, result: ConsumerResult<P>, start: nat)
    reads feed, result
  {
    && feed.Valid() && result.Valid()
    && 1 <= start <= feed.cursor <= |feed.all| + 1
    && result.total == feed.cursor - start
    && result.counted == feed.all[start - 1..feed.cursor - 1]
  }

  /** The single-process demo's consumer: the same loop, but what the drain handles is
      counted in the total only, so the tallies add up iff the schedule leaves nothing
      to the drain. */
  method ConsumerThread<P>(feed: Feed<P>, wanted: nat, result: ConsumerResult<P>)
    requires feed.Valid() && result.Valid() && result.total == 0 && result.counted == []
    requires EnoughToEnd(feed.plan, feed.Unread(), feed.flag, wanted)
    modifies feed, result
    ensures feed.Valid() && result.Valid()
    ensures feed.cursor == old(feed.cursor) + result.total
    ensures var e := old(feed.EndsBy(wanted));
      && (e.ByLimit? ==> result.total == wanted)
      && (e.ByFlag? ==> feed.flag && feed.cursor == |feed.all| + 1)
      && result.total == |result.counted| + (if e.ByFlag? then e.drained else 0)
    ensures result.counted <= feed.all[old(feed.cursor) - 1..]
    ensures result.addCount + result.tradeCount + result.deleteCount == result.total <==>
      old(feed.EndsBy(wanted)) in {ByLimit, ByFlag(0)}
  {
    ghost var start := feed.cursor;
    assert result.counted == feed.all[start - 1..start - 1];
    var stop := CountLoop(feed, wanted, result);
    if stop {
      ghost var drained := DrainUncounted(feed, result);
    }
    CountsAddUp(result.counted);
  }

  /** The demo wants as many messages as there are. A schedule that leaves as many of
      them to the drain as any can: the total counts them all, the tallies lack 1024, or
      all of them where there are no more. */
  method TalliesLeast<P>(all: seq<Message<P>>) returns (result: ConsumerResult<P>)
    requires all != []
    ensures fresh(result) && result.Valid() && result.total == |all|
    ensures result.addCount + result.tradeCount + result.deleteCount == |all| - MostDrained(|all|, |all|)
    ensures MostDrained(|all|, |all|) == if |all| <= RING_SIZE then |all| else RING_SIZE
  {
    var k := |all| - MostDrained(|all|, |all|);
    LateAndQuickEnds(all, k, |all|);
    var feed := new Feed(LateAndQuick(all, k));
    result := new ConsumerResult();
    EndsIff(feed.plan, 0, false, |all|);
    ConsumerThread(feed, |all|, result);
    CountsAddUp(result.counted);
  }

  /** And no schedule makes the demo tally less. */
  method TalliesAtLeast<P>(plan: seq<Turn<Message<P>>>, ghost all: seq<Message<P>>, wanted: nat)
      returns (result: ConsumerResult<P>)
    requires Scheduled(plan, all, wanted) && wanted == |all|
    ensures fresh(result) && result.Valid() && result.total == |all|
    ensures result.addCount + result.tradeCount + result.deleteCount >= |all| - RING_SIZE
  {
    var feed := new Feed(plan);
    result := new ConsumerResult();
    EndsIff(feed.plan, 0, false, wanted);
    DrainBounds(feed.plan, 0, false, wanted);
    ConsumerThread(feed, wanted, result);
    CountsAddUp(result.counted);
  }
}
