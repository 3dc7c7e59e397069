/** How a consumer's loop ends, as a function of what the producer does between two of
    its looks at the queue or the flag; and which endings a producer can bring about. */
module Schedules {
  import opened RingLayout

  /** What happens between two looks: any number of messages, and possibly shutdown
      after them. */
  datatype Turn<M> = Turn(messages: seq<M>, shutsDown: bool)

  /** All messages still to be published. */
  function Coming<M>(plan: seq<Turn<M>>): seq<M> {
    if plan == [] then [] else plan[0].messages + Coming(plan[1..])
  }

  /** Nothing is published after shutdown. */
  predicate Orderly<M>(plan: seq<Turn<M>>, flag: bool) {
    plan != [] ==>
      && (flag ==> |plan[0].messages| == 0)
      && Orderly(plan[1..], flag || plan[0].shutsDown)
  }

  predicate ShutsDownIn<M>(plan: seq<Turn<M>>) {
    exists i :: 0 <= i < |plan| && plan[i].shutsDown
  }

  /** How the loop ends: never; through its limit; or through the flag, with so many
      messages left to the drain. */
  datatype Ending = Starved | ByLimit | ByFlag(drained: nat)

  /** The ending of a loop that is about to consume, with `unread` messages waiting.
      `budget` counts down to the limit; it is negative when there is none. A turn goes
      by before every look; when the plan is used up nothing more ever happens. */
  function FromConsume<M>(plan: seq<Turn<M>>, unread: nat, flag: bool, budget: int): Ending
    decreases |plan|
  {
    if budget == 0 then ByLimit
    else if plan == [] then
      if 0 < budget <= unread then ByLimit else if flag then ByFlag(0) else Starved
    else
      var unread', flag' := unread + |plan[0].messages|, flag || plan[0].shutsDown;
      if unread' > 0 then FromConsume(plan[1..], unread' - 1, flag', budget - 1)
      else FromFlag(plan[1..], flag', budget)
  }

  /** The same for a loop that found nothing and is about to look at the flag. */
  function FromFlag<M>(plan: seq<Turn<M>>, flag: bool, budget: int): Ending
    decreases |plan|
  {
    if plan == [] then if flag then ByFlag(0) else Starved
    else if flag || plan[0].shutsDown then ByFlag(|plan[0].messages|)
    else FromConsume(plan[1..], |plan[0].messages|, false, budget)
  }

  // ---------- when the loop ends ----------

  /** Shutdown comes, or messages enough for the limit. */
  predicate EnoughToEnd<M>(plan: seq<Turn<M>>, unread: nat, flag: bool, budget: int) {
    flag || ShutsDownIn(plan) || 0 <= budget <= unread + |Coming(plan)|
  }

  lemma ShutsDownSplit<M>(plan: seq<Turn<M>>)
    requires plan != []
    ensures ShutsDownIn(plan) <==> plan[0].shutsDown || ShutsDownIn(plan[1..])
  {
    if i :| 0 <= i < |plan| && plan[i].shutsDown {
      assert i > 0 ==> plan[1..][i - 1].shutsDown;
    }
    if i :| 0 <= i < |plan| - 1 && plan[1..][i].shutsDown {
      assert plan[i + 1].shutsDown;
    }
  }

  /** The loop ends if and only if shutdown or enough messages come. */
  lemma {:induction false} EndsIff<M>(plan: seq<Turn<M>>, unread: nat, flag: bool, budget: int)
    ensures !FromConsume(plan, unread, flag, budget).Starved? <==> EnoughToEnd(plan, unread, flag, budget)
    ensures budget != 0 ==>
      (!FromFlag(plan, flag, budget).Starved? <==> EnoughToEnd(plan, 0, flag, budget))
    decreases |plan|
  {
    if plan != [] {
      ShutsDownSplit(plan);
      var more, flag' := |plan[0].messages|, flag || plan[0].shutsDown;
      EndsIff(plan[1..], if unread + more > 0 then unread + more - 1 else 0, flag', budget - 1);
      EndsIff(plan[1..], more, flag', budget);
      EndsIff(plan[1..], 0, flag', budget);
    }
  }

  // ---------- what is left to the drain ----------

  /** The ring holds: never more than 1024 messages wait while the loop goes on. */
  predicate FitsConsume<M>(plan: seq<Turn<M>>, unread: nat, flag: bool, budget: int)
    decreases |plan|
  {
    budget != 0 && plan != [] ==>
      var unread', flag' := unread + |plan[0].messages|, flag || plan[0].shutsDown;
      && unread' <= RING_SIZE
      && if unread' > 0 then FitsConsume(plan[1..], unread' - 1, flag', budget - 1)
         else FitsFlag(plan[1..], flag', budget)
  }

  predicate FitsFlag<M>(plan: seq<Turn<M>>, flag: bool, budget: int)
    decreases |plan|
  {
    plan != [] ==>
      && |plan[0].messages| <= RING_SIZE
      && (!flag && !plan[0].shutsDown ==> FitsConsume(plan[1..], |plan[0].messages|, false, budget))
  }

  lemma {:induction false} NothingAfterShutdown<M>(plan: seq<Turn<M>>)
    requires Orderly(plan, true)
    ensures Coming(plan) == []
  {
    if plan != [] {
      NothingAfterShutdown(plan[1..]);
    }
  }

  /** Going through the flag, the loop itself has handled fewer messages than its limit,
      and the drain handles at most one ring. */
  lemma {:induction false} DrainBounds<M>(plan: seq<Turn<M>>, unread: nat, flag: bool, budget: int)
    requires Orderly(plan, flag)
    ensures var e := FromConsume(plan, unread, flag, budget);
      e.ByFlag? ==>
        && e.drained <= unread + |Coming(plan)|
        && (budget >= 0 ==> unread + |Coming(plan)| - e.drained < budget)
        && (FitsConsume(plan, unread, flag, budget) ==> e.drained <= RING_SIZE)
    ensures var e := FromFlag(plan, flag, budget);
      e.ByFlag? ==>
        && e.drained <= |Coming(plan)|
        && (budget > 0 ==> |Coming(plan)| - e.drained < budget)
        && (FitsFlag(plan, flag, budget) ==> e.drained <= RING_SIZE)
    decreases |plan|
  {
    if plan != [] {
      var more, flag' := |plan[0].messages|, flag || plan[0].shutsDown;
      DrainBounds(plan[1..], if unread + more > 0 then unread + more - 1 else 0, flag', budget - 1);
      DrainBounds(plan[1..], more, flag', budget);
      DrainBounds(plan[1..], 0, flag', budget);
      if flag' {
        NothingAfterShutdown(plan[1..]);
      }
    }
  }

  // ---------- a producer that is late, and then quick ----------

  /** The first k messages come one by one as they are consumed; when the consumer has
      found nothing, all others arrive together with shutdown, before it looks at the
      flag. */
  function LateAndQuick<M>(all: seq<M>, k: nat): seq<Turn<M>>
    requires k <= |all|
    decreases k
  {
    if k == 0 then [Turn([], false), Turn(all, true)]
    else [Turn([all[0]], false)] + LateAndQuick(all[1..], k - 1)
  }

  lemma {:induction false} LateAndQuickEnds<M>(all: seq<M>, k: nat, budget: int)
    requires k <= |all| && (budget >= 0 ==> k < budget)
    ensures var plan := LateAndQuick(all, k);
      && Coming(plan) == all && Orderly(plan, false)
      && FromConsume(plan, 0, false, budget) == ByFlag(|all| - k)
      && (|all| <= k + RING_SIZE ==> FitsConsume(plan, 0, false, budget))
    decreases k
  {
    var plan := LateAndQuick(all, k);
    if k == 0 {
      var last := plan[1..];
      assert last == [Turn(all, true)] && last[1..] == [];
      assert Coming(last) == all + Coming(last[1..]) == all;
      assert FromFlag(last, false, budget) == ByFlag(|all|);
    } else {
      LateAndQuickEnds(all[1..], k - 1, budget - 1);
      assert plan[0] == Turn([all[0]], false) && plan[1..] == LateAndQuick(all[1..], k - 1);
      assert [all[0]] + all[1..] == all;
    }
  }

  // ---------- what callers may rely on ----------

  /** A schedule for these messages: shutdown last, the ring respected, an end. */
  ghost predicate Scheduled<M>(plan: seq<Turn<M>>, all: seq<M>, budget: int) {
    && Coming(plan) == all && Orderly(plan, false) && FitsConsume(plan, 0, false, budget)
    && !FromConsume(plan, 0, false, budget).Starved?
  }

  /** Messages that only the drain gets to see. */
  function LeftToDrain<M>(plan: seq<Turn<M>>, budget: int): nat {
    var e := FromConsume(plan, 0, false, budget);
    if e.ByFlag? then e.drained else 0
  }

  /** Messages handled in all: the limit, or everything. */
  function Handled<M>(plan: seq<Turn<M>>, budget: nat): nat {
    if FromConsume(plan, 0, false, budget).ByFlag? then |Coming(plan)| else budget
  }

  /** The most that any schedule of n messages can leave to the drain. */
  function MostDrained(n: nat, wanted: nat): (m: nat)
    ensures m <= n && m <= RING_SIZE
  {
    if wanted == 0 || n >= wanted + RING_SIZE then 0 else if n <= RING_SIZE then n else RING_SIZE
  }

  /** No schedule leaves more than that to the drain, and one leaves exactly that. */
  lemma MostLeftToDrain<M(!new)>(all: seq<M>, wanted: nat)
    ensures forall plan: seq<Turn<M>> :: Scheduled(plan, all, wanted) ==>
      LeftToDrain(plan, wanted) <= MostDrained(|all|, wanted)
    ensures MostDrained(|all|, wanted) > 0 ==>
      exists plan: seq<Turn<M>> :: Scheduled(plan, all, wanted) && LeftToDrain(plan, wanted) == MostDrained(|all|, wanted)
  {
    forall plan: seq<Turn<M>> | Scheduled(plan, all, wanted)
      ensures LeftToDrain(plan, wanted) <= MostDrained(|all|, wanted)
    {
      DrainBounds(plan, 0, false, wanted);
    }
    if MostDrained(|all|, wanted) > 0 {
      var k := |all| - MostDrained(|all|, wanted);
      LateAndQuickEnds(all, k, wanted);
      assert Scheduled(LateAndQuick(all, k), all, wanted);
      assert LeftToDrain(LateAndQuick(all, k), wanted) == MostDrained(|all|, wanted);
    }
  }

  /** The loop itself sees every message it handles, in every schedule, if and only if
      there are no messages, it wants none, or there are at least 1024 more than it
      wants. */
  lemma NothingLeftToDrainIff<M(!new)>(all: seq<M>, wanted: nat)
    ensures (forall plan: seq<Turn<M>> :: Scheduled(plan, all, wanted) ==> LeftToDrain(plan, wanted) == 0) <==>
      all == [] || wanted == 0 || |all| >= wanted + RING_SIZE
  {
    MostLeftToDrain(all, wanted);
  }

  /** A limit is kept in every schedule if and only if there are not more messages, or
      at least 1024 more; and it is never overrun by more than 1023. */
  lemma LimitKeptIff<M(!new)>(all: seq<M>, limit: nat)
    requires limit > 0
    ensures (forall plan: seq<Turn<M>> :: Scheduled(plan, all, limit) ==> Handled(plan, limit) <= limit) <==>
      |all| <= limit || |all| >= limit + RING_SIZE
    ensures forall plan: seq<Turn<M>> :: Scheduled(plan, all, limit) ==> Handled(plan, limit) < limit + RING_SIZE
  {
    forall plan: seq<Turn<M>> | Scheduled(plan, all, limit)
      ensures Handled(plan, limit) < limit + RING_SIZE
      ensures Handled(plan, limit) > limit ==> limit < |all| < limit + RING_SIZE
    {
      DrainBounds(plan, 0, false, limit);
    }
    if limit < |all| < limit + RING_SIZE {
      var k := if |all| <= RING_SIZE then 0 else |all| - RING_SIZE;
      LateAndQuickEnds(all, k, limit);
      assert Scheduled(LateAndQuick(all, k), all, limit);
      assert Handled(LateAndQuick(all, k), limit) == |all|;
    }
  }
}
