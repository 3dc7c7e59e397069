/** Sleep and wake: consumers, some of them blocking, share one eventfd with the
    producer. The ring is a count of committed messages and a cursor per consumer;
    WholeSystem shows that the queue with its loops, at every shared access, refines
    this. */
module Wakeup {
  import opened QueueSpec
  import opened WaitStrategy

  /** Spin a while and then sleep on the eventfd; or never sleep. */
  datatype Strategy = Blocking(spinLimit: nat) | Polling

  /** A consumer's strategy, and after how many messages its loop ends, if ever. */
  datatype Setup = Setup(strategy: Strategy, limit: Option<nat>)

  datatype Pc =
    | AtConsume
      // consume has just failed, wait_for_data is being entered
    | AtWait
    | AtPoll
      // poll reported POLLIN, the read is still to come
    | AtRead
      // wait_for_data has returned
    | AtFlag
    | Draining
      // left through the flag
    | Done
      // left through the limit
    | Stopped

  datatype Consumer = Consumer(setup: Setup, next: nat, spins: nat, pc: Pc)

  /** `mustNotify`: the producer is between its commit, or its store of the flag, and
      the write to the eventfd that follows. */
  datatype State = State(
    committed: nat,
    flag: bool,
    mustNotify: bool,
    counter: nat,
    consumers: seq<Consumer>)

  datatype Action =
    | Publish
    | Notify
    | Shutdown
    | Consume(c: nat)
    | Leave(c: nat)
    | Spin(c: nat)
    | EnterPoll(c: nat)
    | Wake(c: nat)
    | TimeOut(c: nat)
    | Read(c: nat)
    | CheckFlag(c: nat)
    | Drain(c: nat)

  function Start(setups: seq<Setup>): (s: State)
    ensures |s.consumers| == |setups|
    ensures forall c :: 0 <= c < |setups| ==> s.consumers[c] == Consumer(setups[c], 1, 0, AtConsume)
  {
    State(0, false, false, 0,
      seq(|setups|, c requires 0 <= c < |setups| => Consumer(setups[c], 1, 0, AtConsume)))
  }

  predicate At(s: State, c: nat, pc: Pc) {
    c < |s.consumers| && s.consumers[c].pc == pc
  }

  /** The loop has had its number of messages. */
  predicate Sated(setup: Setup, next: nat) {
    setup.limit.Some? && next > setup.limit.value
  }

  predicate SpinsOn(setup: Setup, spins: nat) {
    setup.strategy.Polling? || spins < setup.strategy.spinLimit
  }

  predicate Enabled(s: State, a: Action) {
    match a
    case Publish => !s.mustNotify && !s.flag
    case Notify => s.mustNotify
    case Shutdown => !s.mustNotify && !s.flag
    case Consume(c) => At(s, c, AtConsume) && !Sated(s.consumers[c].setup, s.consumers[c].next)
    case Leave(c) => At(s, c, AtConsume) && Sated(s.consumers[c].setup, s.consumers[c].next)
    case Spin(c) => At(s, c, AtWait) && SpinsOn(s.consumers[c].setup, s.consumers[c].spins)
    case EnterPoll(c) => At(s, c, AtWait) && !SpinsOn(s.consumers[c].setup, s.consumers[c].spins)
    case Wake(c) => At(s, c, AtPoll) && s.counter > 0
    case TimeOut(c) => At(s, c, AtPoll)
    case Read(c) => At(s, c, AtRead)
    case CheckFlag(c) => At(s, c, AtFlag)
    case Drain(c) => At(s, c, Draining)
  }

  function Set(s: State, c: nat, z: Consumer): State
    requires c < |s.consumers|
  {
    s.(consumers := s.consumers[c := z])
  }

  function Apply(s: State, a: Action): State
    requires Enabled(s, a)
  {
    match a
    case Publish => s.(committed := s.committed + 1, mustNotify := true)
    case Notify => s.(counter := AfterWrite(s.counter), mustNotify := false)
    case Shutdown => s.(flag := true, mustNotify := true)
    case Consume(c) =>
      var z := s.consumers[c];
      Set(s, c, if z.next <= s.committed then z.(next := z.next + 1, spins := 0) else z.(pc := AtWait))
    case Leave(c) => Set(s, c, s.consumers[c].(pc := Stopped))
    case Spin(c) => Set(s, c, s.consumers[c].(spins := s.consumers[c].spins + 1, pc := AtFlag))
    case EnterPoll(c) => Set(s, c, s.consumers[c].(pc := AtPoll))
    case Wake(c) => Set(s, c, s.consumers[c].(pc := AtRead))
    case TimeOut(c) => Set(s, c, s.consumers[c].(pc := AtFlag))
    case Read(c) => Set(s, c, s.consumers[c].(pc := AtFlag)).(counter := AfterRead(s.counter))
    case CheckFlag(c) => Set(s, c, s.consumers[c].(pc := if s.flag then Draining else AtConsume))
    case Drain(c) =>
      var z := s.consumers[c];
      Set(s, c, if z.next <= s.committed then z.(next := z.next + 1) else z.(pc := Done))
  }

  predicate Runs(s: State, acts: seq<Action>)
    decreases |acts|, 0
  {
    acts != [] ==>
      var front := acts[..|acts| - 1];
      Runs(s, front) && Enabled(After(s, front), acts[|acts| - 1])
  }

  function After(s: State, acts: seq<Action>): State
    requires Runs(s, acts)
    decreases |acts|, 1
  {
    if acts == [] then s else Apply(After(s, acts[..|acts| - 1]), acts[|acts| - 1])
  }

  ghost predicate Reaches(s0: State, s: State) {
    exists acts: seq<Action> :: Runs(s0, acts) && After(s0, acts) == s
  }

  /** Consumer c is in poll, or about to enter it, although there is a message for it
      or the shutdown flag is up; the counter is 0 and no write is on its way. */
  predicate SleepsThrough(s: State, c: nat) {
    && c < |s.consumers|
    && var z := s.consumers[c];
    && (z.pc.AtPoll? || (z.pc.AtWait? && !SpinsOn(z.setup, z.spins)))
    && (z.next <= s.committed || s.flag)
    && s.counter == 0 && !s.mustNotify
  }

  ghost predicate LostWakeup(s: State) {
    exists c :: SleepsThrough(s, c)
  }

  // ---------- one consumer that sleeps, among any others ----------

  /** It blocks, and wants something at all. */
  predicate MaySleep(setup: Setup) {
    setup.strategy.Blocking? && setup.limit != Some(0)
  }

  ghost predicate AtMostOneSleeps(setups: seq<Setup>) {
    forall c, d :: 0 <= c < d < |setups| && MaySleep(setups[c]) ==> !MaySleep(setups[d])
  }

  ghost predicate OneSleeper(s: State) {
    forall c, d :: 0 <= c < d < |s.consumers| && MaySleep(s.consumers[c].setup) ==> !MaySleep(s.consumers[d].setup)
  }

  /** Who cannot sleep is never at poll. For who can: from the failed consume to the
      read, news is matched by a unit in the counter or a write on its way; for the
      flag, from the last look at it. */
  predicate CoveredAt(s: State, c: nat)
    requires c < |s.consumers|
  {
    var z := s.consumers[c];
    && (z.setup.limit == Some(0) ==> z.next >= 1 && (z.pc.AtConsume? || z.pc.Stopped?))
    && (z.setup.strategy.Polling? ==> !z.pc.AtPoll? && !z.pc.AtRead?)
    && (MaySleep(z.setup) && (z.pc.AtWait? || z.pc.AtPoll? || z.pc.AtRead?) ==>
          z.next <= s.committed ==> s.counter > 0 || s.mustNotify)
    && (MaySleep(z.setup) && (z.pc.AtConsume? || z.pc.AtWait? || z.pc.AtPoll? || z.pc.AtRead?) ==>
          s.flag ==> s.counter > 0 || s.mustNotify)
  }

  ghost predicate Covered(s: State) {
    OneSleeper(s) && forall c :: 0 <= c < |s.consumers| ==> CoveredAt(s, c)
  }

  lemma ReadCoversAt(s: State, d: nat, c: nat)
    requires Covered(s) && Enabled(s, Read(d)) && c < |s.consumers|
    ensures CoveredAt(Apply(s, Read(d)), c)
  {
    assert CoveredAt(s, c) && CoveredAt(s, d);
    assert MaySleep(s.consumers[d].setup);
  }

  lemma OwnActionCoversAt(s: State, a: Action, c: nat)
    requires c < |s.consumers| && CoveredAt(s, c) && Enabled(s, a) && IsActionOf(a, c) && !a.Read?
    ensures CoveredAt(Apply(s, a), c)
  {
  }

  lemma OtherActionCoversAt(s: State, a: Action, c: nat)
    requires c < |s.consumers| && CoveredAt(s, c) && Enabled(s, a) && !IsActionOf(a, c) && !a.Read?
    ensures CoveredAt(Apply(s, a), c)
  {
  }

  lemma StepCoversAt(s: State, a: Action, c: nat)
    requires Covered(s) && Enabled(s, a) && c < |s.consumers|
    ensures |Apply(s, a).consumers| == |s.consumers| && CoveredAt(Apply(s, a), c)
    ensures Apply(s, a).consumers[c].setup == s.consumers[c].setup
  {
    if a.Read? {
      ReadCoversAt(s, a.c, c);
    } else if IsActionOf(a, c) {
      OwnActionCoversAt(s, a, c);
    } else {
      OtherActionCoversAt(s, a, c);
    }
  }

  lemma StepKeepsCovered(s: State, a: Action)
    requires Covered(s) && Enabled(s, a)
    ensures Covered(Apply(s, a))
  {
    forall c | 0 <= c < |s.consumers|
      ensures |Apply(s, a).consumers| == |s.consumers| && CoveredAt(Apply(s, a), c)
      ensures Apply(s, a).consumers[c].setup == s.consumers[c].setup
    {
      StepCoversAt(s, a, c);
    }
  }

  lemma StartCovered(setups: seq<Setup>)
    requires AtMostOneSleeps(setups)
    ensures Covered(Start(setups))
  {
    var s := Start(setups);
    forall c | 0 <= c < |s.consumers| ensures CoveredAt(s, c) {
      assert s.consumers[c] == Consumer(setups[c], 1, 0, AtConsume);
    }
  }

  lemma {:induction false} OneSleeperCovered(s: State, acts: seq<Action>)
    requires Covered(s) && Runs(s, acts)
    ensures Covered(After(s, acts))
    decreases |acts|
  {
    if acts != [] {
      var front := acts[..|acts| - 1];
      OneSleeperCovered(s, front);
      StepKeepsCovered(After(s, front), acts[|acts| - 1]);
    }
  }

  lemma CoveredSleepsSoundly(s: State)
    requires Covered(s)
    ensures !LostWakeup(s)
  {
    forall c: nat ensures !SleepsThrough(s, c) {
      assert c < |s.consumers| ==> CoveredAt(s, c);
    }
  }

  // ---------- two or more ----------

  /** Every action leads from a state of the set to a state of the set. */
  ghost predicate Closed(r: iset<State>) {
    forall s, a :: s in r && Enabled(s, a) ==> Apply(s, a) in r
  }

  lemma ReachesMore(s0: State, s: State, a: Action)
    requires Reaches(s0, s) && Enabled(s, a)
    ensures Reaches(s0, Apply(s, a))
  {
    var acts: seq<Action> :| Runs(s0, acts) && After(s0, acts) == s;
    var acts' := acts + [a];
    assert acts'[..|acts|] == acts;
    assert Runs(s0, acts') && After(s0, acts') == Apply(s, a);
  }

  ghost function Reachable(s0: State): iset<State> {
    iset s: State | Reaches(s0, s)
  }

  lemma ReachableClosed(s0: State)
    ensures s0 in Reachable(s0) && Closed(Reachable(s0))
  {
    var none: seq<Action> := [];
    assert Runs(s0, none) && After(s0, none) == s0;
    forall s, a | s in Reachable(s0) && Enabled(s, a) ensures Apply(s, a) in Reachable(s0) {
      ReachesMore(s0, s, a);
    }
  }

  lemma GoOn(r: iset<State>, s: State, a: Action) returns (t: State)
    requires Closed(r) && s in r && Enabled(s, a)
    ensures t in r && t == Apply(s, a)
  {
    t := Apply(s, a);
  }

  /** One idle round on an empty queue: a failed consume, a spin, a look at the flag. */
  lemma SpinRound(r: iset<State>, s: State, c: nat) returns (t: State)
    requires Closed(r) && s in r && At(s, c, AtConsume) && s.committed == 0 && !s.flag
    requires s.consumers[c].next == 1 && !Sated(s.consumers[c].setup, 1)
    requires SpinsOn(s.consumers[c].setup, s.consumers[c].spins)
    ensures t in r && t == Set(s, c, s.consumers[c].(spins := s.consumers[c].spins + 1))
  {
    t := GoOn(r, s, Consume(c));
    t := GoOn(r, t, Spin(c));
    t := GoOn(r, t, CheckFlag(c));
    assert t.consumers == s.consumers[c := s.consumers[c].(spins := s.consumers[c].spins + 1)];
  }

  /** On an empty queue a blocking consumer can use up its spins and stop short of poll. */
  lemma {:induction false} SpinsUsedUp(r: iset<State>, s: State, c: nat) returns (t: State)
    requires Closed(r) && s in r && At(s, c, AtConsume) && s.committed == 0 && !s.flag
    requires s.consumers[c].next == 1 && MaySleep(s.consumers[c].setup)
    requires s.consumers[c].spins <= s.consumers[c].setup.strategy.spinLimit
    ensures t in r
    ensures t == Set(s, c, s.consumers[c].(spins := s.consumers[c].setup.strategy.spinLimit, pc := AtWait))
    decreases s.consumers[c].setup.strategy.spinLimit - s.consumers[c].spins
  {
    var z := s.consumers[c];
    if z.spins == z.setup.strategy.spinLimit {
      t := GoOn(r, s, Consume(c));
    } else {
      var u := SpinRound(r, s, c);
      t := SpinsUsedUp(r, u, c);
      assert t.consumers == s.consumers[c := z.(spins := z.setup.strategy.spinLimit, pc := AtWait)];
    }
  }

  lemma TwoRunOutOfSpins(setups: seq<Setup>, c: nat, d: nat) returns (s: State)
    requires c < d < |setups| && MaySleep(setups[c]) && MaySleep(setups[d])
    ensures s in Reachable(Start(setups)) && |s.consumers| == |setups|
    ensures s.committed == 0 && !s.flag && !s.mustNotify && s.counter == 0
    ensures s.consumers[c] == Consumer(setups[c], 1, setups[c].strategy.spinLimit, AtWait)
    ensures s.consumers[d] == Consumer(setups[d], 1, setups[d].strategy.spinLimit, AtWait)
  {
    s := Start(setups);
    var r := Reachable(s);
    ReachableClosed(s);
    s := SpinsUsedUp(r, s, d);
    s := SpinsUsedUp(r, s, c);
  }

  /** One message comes, and the first one's read takes the only unit before the second
      one polls. */
  lemma SecondSleeperMissesIt(setups: seq<Setup>, c: nat, d: nat) returns (s: State)
    requires c < d < |setups| && MaySleep(setups[c]) && MaySleep(setups[d])
    ensures s in Reachable(Start(setups)) && SleepsThrough(s, d)
  {
    s := TwoRunOutOfSpins(setups, c, d);
    var r := Reachable(Start(setups));
    ReachableClosed(Start(setups));
    s := GoOn(r, s, EnterPoll(c));
    s := GoOn(r, s, Publish);
    s := GoOn(r, s, Notify);
    s := GoOn(r, s, Wake(c));
    s := GoOn(r, s, Read(c));
  }

  /** No wake-up is ever lost if and only if at most one blocking consumer that wants
      anything uses the eventfd, however many others there are, whatever the spin limits
      and targets. */
  lemma NoLostWakeupIffOneSleeper(setups: seq<Setup>)
    ensures (forall s :: Reaches(Start(setups), s) ==> !LostWakeup(s)) <==> AtMostOneSleeps(setups)
  {
    if AtMostOneSleeps(setups) {
      forall s | Reaches(Start(setups), s) ensures !LostWakeup(s) {
        ReachedCovered(setups, s);
        CoveredSleepsSoundly(s);
      }
    } else {
      var c, d :| 0 <= c < d < |setups| && MaySleep(setups[c]) && MaySleep(setups[d]);
      var s := SecondSleeperMissesIt(setups, c, d);
      assert LostWakeup(s);
    }
  }

  lemma ReachedCovered(setups: seq<Setup>, s: State)
    requires AtMostOneSleeps(setups) && Reaches(Start(setups), s)
    ensures Covered(s)
  {
    var acts: seq<Action> :| Runs(Start(setups), acts) && After(Start(setups), acts) == s;
    StartCovered(setups);
    OneSleeperCovered(Start(setups), acts);
  }

  /** With one such consumer, sleeping on news never needs the timeout: the write is
      pending or the wake-up is there. */
  lemma NewsWakesTheSleeper(setups: seq<Setup>, s: State, c: nat)
    requires AtMostOneSleeps(setups) && Reaches(Start(setups), s) && At(s, c, AtPoll)
    requires s.consumers[c].next <= s.committed || s.flag
    ensures Enabled(s, Wake(c)) || (Enabled(s, Notify) && Enabled(Apply(s, Notify), Wake(c)))
  {
    ReachedCovered(setups, s);
    assert CoveredAt(s, c);
  }

  // ---------- what a consumer has when it ends ----------

  /** Done: everything committed, and nothing more will be. Stopped: as many as wanted. */
  predicate EndOk(s: State, c: nat)
    requires c < |s.consumers|
  {
    var z := s.consumers[c];
    && 1 <= z.next <= s.committed + 1
    && (z.pc.Draining? || z.pc.Done? ==> s.flag)
    && (z.pc.Done? ==> z.next == s.committed + 1)
    && (z.setup.limit.Some? && !z.pc.Draining? && !z.pc.Done? ==> z.next <= z.setup.limit.value + 1)
    && (z.pc.Stopped? ==> z.setup.limit.Some? && z.next == z.setup.limit.value + 1)
  }

  lemma StepKeepsEndOk(s: State, a: Action, c: nat)
    requires c < |s.consumers| && EndOk(s, c) && Enabled(s, a)
    ensures |Apply(s, a).consumers| == |s.consumers| && EndOk(Apply(s, a), c)
  {
  }

  lemma {:induction false} EndsWithEverything(setups: seq<Setup>, acts: seq<Action>, c: nat)
    requires Runs(Start(setups), acts) && c < |setups|
    ensures |After(Start(setups), acts).consumers| == |setups| && EndOk(After(Start(setups), acts), c)
    decreases |acts|
  {
    if acts != [] {
      var front := acts[..|acts| - 1];
      EndsWithEverything(setups, front, c);
      StepKeepsEndOk(After(Start(setups), front), acts[|acts| - 1], c);
    }
  }

  lemma {:induction false} SetupsStay(setups: seq<Setup>, acts: seq<Action>, c: nat)
    requires Runs(Start(setups), acts) && c < |setups|
    ensures |After(Start(setups), acts).consumers| == |setups|
    ensures After(Start(setups), acts).consumers[c].setup == setups[c]
    decreases |acts|
  {
    if acts != [] {
      SetupsStay(setups, acts[..|acts| - 1], c);
    }
  }

  // ---------- that a consumer gets there ----------

  predicate IsActionOf(a: Action, c: nat) {
    match a
    case Publish => false
    case Notify => false
    case Shutdown => false
    case Consume(d) => d == c
    case Leave(d) => d == c
    case Spin(d) => d == c
    case EnterPoll(d) => d == c
    case Wake(d) => d == c
    case TimeOut(d) => d == c
    case Read(d) => d == c
    case CheckFlag(d) => d == c
    case Drain(d) => d == c
  }

  predicate Ended(s: State, c: nat) {
    At(s, c, Done) || At(s, c, Stopped)
  }

  /** Actions of its own until a message that is there is consumed. */
  function MessageRank(pc: Pc): nat {
    match pc
    case AtConsume => 1
    case AtWait => 5
    case AtPoll => 4
    case AtRead => 3
    case AtFlag => 2
    case Draining => 1
    case Done => 0
    case Stopped => 0
  }

  /** In every state a consumer that has not ended can act, whatever its strategy, and
      nobody else's action changes its place. */
  lemma CanAct(s: State, c: nat) returns (a: Action)
    requires c < |s.consumers| && !Ended(s, c)
    ensures IsActionOf(a, c) && Enabled(s, a)
    ensures forall b :: Enabled(s, b) && !IsActionOf(b, c) ==>
      |Apply(s, b).consumers| == |s.consumers| && Apply(s, b).consumers[c] == s.consumers[c]
  {
    var z := s.consumers[c];
    a := match z.pc {
      case AtConsume => if Sated(z.setup, z.next) then Leave(c) else Consume(c)
      case AtWait => if SpinsOn(z.setup, z.spins) then Spin(c) else EnterPoll(c)
      case AtPoll => TimeOut(c)
      case AtRead => Read(c)
      case AtFlag => CheckFlag(c)
      case _ => Drain(c)
    };
  }

  /** While a message is there, each action of its own either consumes it, or leaves the
      loop for having enough, or brings it nearer. */
  lemma MessageSoon(s: State, a: Action, c: nat)
    requires c < |s.consumers| && !Ended(s, c) && s.consumers[c].next <= s.committed
    requires Enabled(s, a) && IsActionOf(a, c)
    ensures |Apply(s, a).consumers| == |s.consumers|
    ensures var z, z' := s.consumers[c], Apply(s, a).consumers[c];
      || z'.next == z.next + 1
      || (z'.pc.Stopped? && Sated(z.setup, z.next))
      || (z'.next == z.next && MessageRank(z'.pc) < MessageRank(z.pc))
  {
  }

  /** Actions of its own until the loop has ended, once the flag is up. */
  function EndRank(s: State, c: nat): int
    requires c < |s.consumers|
  {
    9 * (s.committed + 1 - s.consumers[c].next) +
    match s.consumers[c].pc
    case AtConsume => 7
    case AtWait => 6
    case AtPoll => 5
    case AtRead => 4
    case AtFlag => 3
    case Draining => 1
    case Done => 0
    case Stopped => 0
  }

  /** Once the flag is up, each action of its own brings the consumer nearer its end,
      whatever its strategy and limit, and nobody else sets it back. */
  lemma EndIsNearer(s: State, a: Action, c: nat)
    requires c < |s.consumers| && EndOk(s, c) && s.flag && Enabled(s, a)
    ensures |Apply(s, a).consumers| == |s.consumers| && Apply(s, a).flag
    ensures 0 <= EndRank(Apply(s, a), c)
    ensures EndRank(Apply(s, a), c) + (if IsActionOf(a, c) then 1 else 0) <= EndRank(s, c)
  {
  }

  function ActionsBy(acts: seq<Action>, c: nat): nat {
    if acts == [] then 0
    else ActionsBy(acts[..|acts| - 1], c) + (if IsActionOf(acts[|acts| - 1], c) then 1 else 0)
  }

  /** So after at most EndRank actions of its own it has ended. */
  lemma {:induction false} FlagEndsLoop(s: State, acts: seq<Action>, c: nat)
    requires c < |s.consumers| && EndOk(s, c) && s.flag && Runs(s, acts)
    ensures var t := After(s, acts);
      && c < |t.consumers| && EndOk(t, c) && t.flag && 0 <= EndRank(t, c)
      && ActionsBy(acts, c) + EndRank(t, c) <= EndRank(s, c)
      && (ActionsBy(acts, c) == EndRank(s, c) ==> Ended(t, c))
    decreases |acts|
  {
    if acts != [] {
      var front := acts[..|acts| - 1];
      FlagEndsLoop(s, front, c);
      StepKeepsEndOk(After(s, front), acts[|acts| - 1], c);
      EndIsNearer(After(s, front), acts[|acts| - 1], c);
    }
    EndedAtZero(After(s, acts), c);
  }

  lemma EndedAtZero(s: State, c: nat)
    requires c < |s.consumers| && EndOk(s, c)
    ensures EndRank(s, c) == 0 ==> Ended(s, c)
  {
  }

  // ---------- one unit for each message ----------

  /** Reads among the actions that found a unit. */
  function UnitsTaken(s: State, acts: seq<Action>): nat
    requires Runs(s, acts)
  {
    if acts == [] then 0
    else
      var front, last := acts[..|acts| - 1], acts[|acts| - 1];
      UnitsTaken(s, front) + (if last.Read? && After(s, front).counter > 0 then 1 else 0)
  }

  /** Short of saturation, every message and the flag have put one unit in the eventfd,
      or have its write still to come, and only reads have taken any. */
  lemma {:induction false} UnitsAreAccounted(setups: seq<Setup>, acts: seq<Action>)
    requires Runs(Start(setups), acts) && After(Start(setups), acts).committed < 0xFFFF_FFFF_FFFF_FFFE
    ensures var t := After(Start(setups), acts);
      t.counter + UnitsTaken(Start(setups), acts) + (if t.mustNotify then 1 else 0)
        == t.committed + (if t.flag then 1 else 0)
    decreases |acts|
  {
    if acts != [] {
      UnitsAreAccounted(setups, acts[..|acts| - 1]);
    }
  }

  /** A consumer looks at the flag after a spin, a timeout, or an attempt to read; and
      it attempts to read after being woken, and only then. */
  lemma WokenReads(s: State, a: Action, c: nat)
    requires c < |s.consumers| && Enabled(s, a) && IsActionOf(a, c)
    ensures |Apply(s, a).consumers| == |s.consumers|
    ensures Apply(s, a).consumers[c].pc.AtFlag? <==> a in {Spin(c), TimeOut(c), Read(c)}
    ensures Apply(s, a).consumers[c].pc.AtRead? <==> a == Wake(c)
    ensures s.consumers[c].pc.AtRead? <==> a == Read(c)
  {
  }

  // ---------- the spinning phase starts again after a message ----------

  function SpinsBy(acts: seq<Action>, c: nat): nat {
    if acts == [] then 0
    else SpinsBy(acts[..|acts| - 1], c) + (if acts[|acts| - 1] == Spin(c) then 1 else 0)
  }

  lemma SpinStep(s: State, a: Action, c: nat)
    requires c < |s.consumers| && Enabled(s, a)
    requires s.consumers[c].setup.strategy.Blocking? && s.consumers[c].spins <= s.consumers[c].setup.strategy.spinLimit
    ensures c < |Apply(s, a).consumers| && Apply(s, a).consumers[c].setup == s.consumers[c].setup
    ensures var z, z' := s.consumers[c], Apply(s, a).consumers[c];
      && z.next <= z'.next && z'.spins <= z.setup.strategy.spinLimit
      && (z'.next == z.next ==> z'.spins == z.spins + (if a == Spin(c) then 1 else 0))
  {
  }

  lemma {:induction false} SpinsAreCounted(s: State, acts: seq<Action>, c: nat)
    requires c < |s.consumers| && Runs(s, acts)
    requires s.consumers[c].setup.strategy.Blocking? && s.consumers[c].spins <= s.consumers[c].setup.strategy.spinLimit
    ensures c < |After(s, acts).consumers| && After(s, acts).consumers[c].setup == s.consumers[c].setup
    ensures var z, z' := s.consumers[c], After(s, acts).consumers[c];
      && z.next <= z'.next && z'.spins <= z.setup.strategy.spinLimit
      && (z'.next == z.next ==> z'.spins == z.spins + SpinsBy(acts, c))
    decreases |acts|
  {
    if acts != [] {
      var front := acts[..|acts| - 1];
      SpinsAreCounted(s, front, c);
      SpinStep(After(s, front), acts[|acts| - 1], c);
    }
  }

  /** After a message, and until the next one, a blocking consumer enters poll only when
      it has spun exactly spinLimit times, and until then each wait is a spin. */
  lemma SpinsBeforePoll(s: State, acts: seq<Action>, c: nat)
    requires Enabled(s, Consume(c)) && s.consumers[c].next <= s.committed
    requires s.consumers[c].setup.strategy.Blocking? && Runs(Apply(s, Consume(c)), acts)
    requires At(After(Apply(s, Consume(c)), acts), c, AtWait)
    requires After(Apply(s, Consume(c)), acts).consumers[c].next == s.consumers[c].next + 1
    ensures var t, limit := After(Apply(s, Consume(c)), acts), s.consumers[c].setup.strategy.spinLimit;
      && (Enabled(t, EnterPoll(c)) <==> SpinsBy(acts, c) == limit)
      && (Enabled(t, Spin(c)) <==> SpinsBy(acts, c) < limit)
  {
    SpinsAreCounted(Apply(s, Consume(c)), acts, c);
  }
}
