/** The blocking wait strategy over an eventfd in semaphore, non-blocking mode. */
module WaitStrategy {
  import opened Arithmetic64

  const EVENTFD_MAX: int := U64_MAX - 1

  /** write() of 1: adds 1, or fails with EAGAIN when the counter cannot take it. */
  function AfterWrite(counter: nat): nat {
    if counter < EVENTFD_MAX then counter + 1 else counter
  }

  /** read(): takes 1, or fails with EAGAIN on an empty counter. */
  function AfterRead(counter: nat): nat {
    if counter > 0 then counter - 1 else 0
  }

  // ---------- the counter and its history ----------

  /** A write that was accepted, or an attempt to read. */
  datatype Use = Wrote | TriedToRead

  function CounterAfter(uses: seq<Use>): nat {
    if uses == [] then 0
    else
      var c := CounterAfter(uses[..|uses| - 1]);
      if uses[|uses| - 1].Wrote? then c + 1 else AfterRead(c)
  }

  /** By how much writes outnumber attempts to read. */
  function Surplus(uses: seq<Use>): int {
    if uses == [] then 0
    else Surplus(uses[..|uses| - 1]) + (if uses[|uses| - 1].Wrote? then 1 else -1)
  }

  /** Since some moment in the past, writes outnumber attempts to read. */
  ghost predicate SomeSurplus(uses: seq<Use>) {
    exists k :: 0 <= k <= |uses| && Surplus(uses[k..]) > 0
  }

  lemma SurplusOfTail(uses: seq<Use>, k: nat)
    requires k < |uses|
    ensures Surplus(uses[k..]) == Surplus(uses[..|uses| - 1][k..]) + (if uses[|uses| - 1].Wrote? then 1 else -1)
  {
    var tail := uses[k..];
    assert tail[..|tail| - 1] == uses[..|uses| - 1][k..];
  }

  /** The counter is the largest surplus that writes have had over attempts to read
      since any moment in the past, the present included. */
  lemma {:induction false} CounterIsLargestSurplus(uses: seq<Use>)
    ensures forall k :: 0 <= k <= |uses| ==> Surplus(uses[k..]) <= CounterAfter(uses)
    ensures exists k :: 0 <= k <= |uses| && Surplus(uses[k..]) == CounterAfter(uses)
    decreases |uses|
  {
    var n := |uses|;
    assert Surplus(uses[n..]) == 0;
    if n > 0 {
      var front := uses[..n - 1];
      CounterIsLargestSurplus(front);
      forall k | 0 <= k < n ensures Surplus(uses[k..]) <= CounterAfter(uses) {
        SurplusOfTail(uses, k);
      }
      var k :| 0 <= k <= |front| && Surplus(front[k..]) == CounterAfter(front);
      SurplusOfTail(uses, k);
      assert Surplus(uses[k..]) == CounterAfter(uses) || (CounterAfter(uses) == 0 && Surplus(uses[n..]) == 0);
    }
  }

  /** poll() reports, and read() finds, a unit. */
  predicate Ready(uses: seq<Use>) {
    CounterAfter(uses) > 0
  }

  /** There is a unit iff since some moment writes outnumber attempts to read. */
  lemma ReadyIff(uses: seq<Use>)
    ensures Ready(uses) <==> SomeSurplus(uses)
  {
    CounterIsLargestSurplus(uses);
    if CounterAfter(uses) > 0 {
      var k :| 0 <= k <= |uses| && Surplus(uses[k..]) == CounterAfter(uses);
      assert Surplus(uses[k..]) > 0;
    }
  }

  lemma OneMoreUse(uses: seq<Use>, u: Use)
    ensures CounterAfter(uses + [u]) == if u.Wrote? then CounterAfter(uses) + 1 else AfterRead(CounterAfter(uses))
  {
    assert (uses + [u])[..|uses|] == uses;
  }

  class EventFd {
    var counter: nat
    ghost var uses: seq<Use>

    ghost predicate Valid()
      reads this
    {
      counter == CounterAfter(uses) <= EVENTFD_MAX
    }

    constructor ()
      ensures Valid() && counter == 0 && uses == []
    {
      counter, uses := 0, [];
    }

    /** Whatever came before, a reader finds something afterwards. */
    method Write()
      requires Valid()
      modifies this
      ensures Valid() && Ready(uses)
      ensures counter == AfterWrite(old(counter))
      ensures old(counter) < 0xFFFF_FFFF_FFFF_FFFE ==> counter == old(counter) + 1
      ensures uses == if old(counter) < EVENTFD_MAX then old(uses) + [Wrote] else old(uses)
    {
      if counter < 0xFFFF_FFFF_FFFF_FFFE {
        OneMoreUse(uses, Wrote);
        counter, uses := counter + 1, uses + [Wrote];
      }
    }

    /** Succeeds iff there is a unit, and takes it. */
    method Read() returns (ok: bool)
      requires Valid()
      modifies this
      ensures Valid() && uses == old(uses) + [TriedToRead]
      ensures ok <==> Ready(old(uses))
      ensures counter == if ok then old(counter) - 1 else 0
    {
      OneMoreUse(uses, TriedToRead);
      ok := counter > 0;
      if ok {
        counter := counter - 1;
      }
      uses := uses + [TriedToRead];
    }
  }

  // ---------- the two phases ----------

  datatype Call = Waited | WasReset

  /** Calls of wait_for_data since the last reset, or since the start. */
  function WaitsSinceReset(calls: seq<Call>): nat {
    if calls == [] || calls[|calls| - 1].WasReset? then 0
    else WaitsSinceReset(calls[..|calls| - 1]) + 1
  }

  lemma OneMoreCall(calls: seq<Call>, c: Call)
    ensures WaitsSinceReset(calls + [c]) == if c.Waited? then WaitsSinceReset(calls) + 1 else 0
  {
    assert (calls + [c])[..|calls|] == calls;
  }

  class BlockingWaitStrategy {
    const eventFd: EventFd
    const spinLimit: nat
    var spinCount: nat
    ghost var calls: seq<Call>

    ghost predicate Valid()
      reads this, eventFd
    {
      && eventFd.Valid()
      && spinCount == if WaitsSinceReset(calls) < spinLimit then WaitsSinceReset(calls) else spinLimit
    }

    constructor (eventFd: EventFd, spinLimit: nat)
      requires eventFd.Valid()
      ensures Valid() && this.eventFd == eventFd && this.spinLimit == spinLimit && calls == []
    {
      this.eventFd := eventFd;
      this.spinLimit := spinLimit;
      spinCount, calls := 0, [];
    }

    /** poll() returns at once when there is a unit; otherwise it sleeps until somebody's
        write `arrives`, or times out. */
    method Poll(arrives: bool) returns (signalled: bool)
      requires Valid()
      modifies eventFd
      ensures Valid()
      ensures signalled <==> Ready(old(eventFd.uses)) || arrives
      ensures eventFd.uses ==
        old(eventFd.uses) + (if arrives && !Ready(old(eventFd.uses)) then [Wrote] else [])
      ensures eventFd.counter == if old(eventFd.counter) == 0 && arrives then 1 else old(eventFd.counter)
    {
      if eventFd.counter == 0 && arrives {
        eventFd.Write();
      }
      assert old(eventFd.uses) + [] == old(eventFd.uses);
      signalled := eventFd.counter > 0;
    }

    /** n attempts to read. */
    method ReadOften(n: nat)
      requires Valid()
      modifies eventFd
      ensures Valid() && eventFd.uses == old(eventFd.uses) + Tries(n)
      ensures eventFd.counter == LeftAfter(old(eventFd.counter), n)
    {
      var i := 0;
      while i < n
        invariant 0 <= i <= n && Valid() && eventFd.uses == old(eventFd.uses) + Tries(i)
        invariant eventFd.counter == LeftAfter(old(eventFd.counter), i)
      {
        var _ := eventFd.Read();
        i := i + 1;
        assert Tries(i) == Tries(i - 1) + [TriedToRead];
      }
    }

    /** The second phase: poll, and take a unit if poll reported one. */
    method Sleep(arrives: bool, stolen: nat)
      requires Valid()
      modifies eventFd
      ensures Valid() && eventFd.counter == LeftAfter(old(eventFd.counter), stolen + 1)
      ensures eventFd.uses == old(eventFd.uses) + UsesOfSleep(Ready(old(eventFd.uses)), arrives, stolen)
    {
      var signalled := Poll(arrives);
      if signalled {
        ReadOften(stolen);
        var _ := eventFd.Read();
        assert Tries(stolen + 1) == Tries(stolen) + [TriedToRead];
      }
    }

    /** The first spinLimit calls since the last reset leave the eventfd alone. Each later
        one polls, and tries to take a unit when poll reported one, after others have
        tried `stolen` times in between; a unit that woke it is not left there. */
    method WaitForData(arrives: bool, stolen: nat)
      requires Valid()
      modifies this, eventFd
      ensures Valid() && calls == old(calls) + [Waited]
      ensures WaitsSinceReset(old(calls)) < spinLimit ==>
        eventFd.uses == old(eventFd.uses) && eventFd.counter == old(eventFd.counter)
      ensures WaitsSinceReset(old(calls)) >= spinLimit ==>
        eventFd.counter ==
          if old(eventFd.counter) > stolen + 1 then old(eventFd.counter) - (stolen + 1) else 0
      ensures WaitsSinceReset(old(calls)) >= spinLimit && old(eventFd.counter) == 0 && !arrives ==>
        eventFd.uses == old(eventFd.uses)
      ensures WaitsSinceReset(old(calls)) >= spinLimit && (old(eventFd.counter) > 0 || arrives) ==>
        |eventFd.uses| == |old(eventFd.uses)| + stolen + (if old(eventFd.counter) == 0 then 2 else 1)
        && eventFd.uses[|eventFd.uses| - 1] == TriedToRead
      ensures WaitsSinceReset(old(calls)) >= spinLimit ==>
        eventFd.uses == old(eventFd.uses) + UsesOfSleep(Ready(old(eventFd.uses)), arrives, stolen)
    {
      OneMoreCall(calls, Waited);
      calls := calls + [Waited];
      if spinCount < spinLimit {
        spinCount := spinCount + 1;
      } else {
        Sleep(arrives, stolen);
      }
    }

    /** Whatever came before, whoever polls next is signalled. */
    method NotifyAll()
      requires Valid()
      modifies eventFd
      ensures Valid() && Ready(eventFd.uses)
      ensures eventFd.counter == AfterWrite(old(eventFd.counter))
      ensures old(eventFd.counter) < 0xFFFF_FFFF_FFFF_FFFE ==> eventFd.counter == old(eventFd.counter) + 1
    {
      eventFd.Write();
    }

    /** The next spinLimit calls will spin again. */
    method Reset()
      requires Valid()
      modifies this
      ensures Valid() && calls == old(calls) + [WasReset] && WaitsSinceReset(calls) == 0
    {
      OneMoreCall(calls, WasReset);
      spinCount, calls := 0, calls + [WasReset];
    }
  }

  /** What n attempts to read leave of so many units. */
  function LeftAfter(units: nat, n: nat): nat {
    if units > n then units - n else 0
  }

  function Tries(n: nat): seq<Use> {
    seq(n, _ => TriedToRead)
  }

  /** What happens at the eventfd during one call that sleeps: nothing when poll times
      out, and otherwise attempts to read, after a write if there was no unit before. */
  function UsesOfSleep(ready: bool, arrives: bool, stolen: nat): seq<Use> {
    if ready then Tries(stolen + 1)
    else if arrives then [Wrote] + Tries(stolen + 1)
    else []
  }

  /** With a unit there all the time, the strategy leaves it alone for exactly spinLimit
      calls after a reset, and takes it in the next one. */
  method SpinThenTake(strategy: BlockingWaitStrategy)
    requires strategy.Valid() && Ready(strategy.eventFd.uses)
    modifies strategy, strategy.eventFd
    ensures strategy.Valid()
    ensures strategy.eventFd.uses == old(strategy.eventFd.uses) + [TriedToRead]
    ensures WaitsSinceReset(strategy.calls) == strategy.spinLimit + 1
  {
    strategy.Reset();
    var i := 0;
    while i < strategy.spinLimit
      invariant 0 <= i <= strategy.spinLimit && strategy.Valid() && WaitsSinceReset(strategy.calls) == i
      invariant strategy.eventFd.uses == old(strategy.eventFd.uses)
    {
      OneMoreCall(strategy.calls, Waited);
      strategy.WaitForData(true, 0);
      i := i + 1;
    }
    OneMoreCall(strategy.calls, Waited);
    strategy.WaitForData(true, 0);
    assert Tries(1) == [TriedToRead];
  }
}
