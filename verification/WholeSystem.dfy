/** Everything at once: the producer's thread and the consumers' loops over the queue at
    every shared access, with the shutdown flag, the eventfd, and for each consumer its
    strategy and its limit. Each run is a run of Wakeup, so what holds there holds here,
    down to the words delivered. */
module WholeSystem {
  import opened Arithmetic64
  import opened RingLayout
  import opened QueueSpec
  import B = Broadcast
  import opened StepMachine
  import T = StepTheorems
  import opened WaitStrategy
  import K = Wakeup

  /** One consumer's loop; `pc` says where it stands between its calls of consume. */
  datatype Loop = Loop(setup: K.Setup, spins: nat, pc: K.Pc)

  datatype System<W> = System(
    core: State<W>,
    flag: bool,
    mustNotify: bool,
    counter: nat,
    loops: seq<Loop>)

  datatype Move<W> =
    | Access(a: Action<W>)
    | Notify
    | Shutdown
    | Leave(c: nat)
    | Spin(c: nat)
    | EnterPoll(c: nat)
    | Wake(c: nat)
    | TimeOut(c: nat)
    | ReadUnit(c: nat)
    | CheckFlag(c: nat)

  /** The consumer whose consume the access belongs to, or none. */
  function ReaderOf<W>(a: Action<W>): Option<nat> {
    match a
    case CheckActive(c) => Some(c)
    case LoadOwn(c) => Some(c)
    case TestSlot(c) => Some(c)
    case CopyWord(c) => Some(c)
    case Finish(c) => Some(c)
    case _ => None
  }

  predicate At<W>(s: System<W>, c: nat, pc: K.Pc) {
    c < |s.loops| && s.loops[c].pc == pc
  }

  /** The loop has handled as many messages as it wants. */
  predicate Sated<W>(s: System<W>, c: nat)
    requires c < |s.loops| && c < |s.core.parties|
  {
    K.Sated(s.loops[c].setup, s.core.parties[c].sequence)
  }

  predicate MayAccess<W>(s: System<W>, a: Action<W>)
    requires Sized(s.core)
  {
    match a
    case JoinCas(_, _, _) => false
    case JoinSet(_) => false
    case Quit(_) => false
    case Begin(_) => !s.mustNotify && !s.flag
    case CheckActive(c) =>
      c < MAX_CONSUMERS && ((At(s, c, K.AtConsume) && !Sated(s, c)) || At(s, c, K.Draining))
    case _ =>
      match ReaderOf(a)
      case None => true
      case Some(c) => At(s, c, K.AtConsume) || At(s, c, K.Draining)
  }

  predicate CanMove<W>(s: System<W>, m: Move<W>) {
    && Sized(s.core)
    && match m
      case Access(a) => Enabled(s.core, a) && MayAccess(s, a)
      case Notify => s.mustNotify
      case Shutdown => s.core.producer.Ready? && !s.mustNotify && !s.flag
      case Leave(c) =>
        c < MAX_CONSUMERS && At(s, c, K.AtConsume) && s.core.parties[c].pc.Resting? && Sated(s, c)
      case Spin(c) => At(s, c, K.AtWait) && K.SpinsOn(s.loops[c].setup, s.loops[c].spins)
      case EnterPoll(c) => At(s, c, K.AtWait) && !K.SpinsOn(s.loops[c].setup, s.loops[c].spins)
      case Wake(c) => At(s, c, K.AtPoll) && s.counter > 0
      case TimeOut(c) => At(s, c, K.AtPoll)
      case ReadUnit(c) => At(s, c, K.AtRead)
      case CheckFlag(c) => At(s, c, K.AtFlag)
  }

  function SetLoop<W>(s: System<W>, c: nat, l: Loop): System<W>
    requires c < |s.loops|
  {
    s.(loops := s.loops[c := l])
  }

  /** What an access means for the loop of the consumer that made it. */
  function LoopAfter<W>(l: Loop, a: Action<W>, core': State<W>): Loop
    requires ReaderOf(a).Some? && ReaderOf(a).value < |core'.parties|
  {
    if a.TestSlot? && core'.parties[a.c].pc.Resting? then
      l.(pc := if l.pc.Draining? then K.Done else K.AtWait)
    else if a.Finish? && !l.pc.Draining? then l.(spins := 0)
    else l
  }

  function Moved<W>(s: System<W>, m: Move<W>): (s': System<W>)
    requires CanMove(s, m)
    ensures Sized(s'.core)
  {
    match m
    case Access(a) =>
      var core' := Apply(s.core, a);
      if ReaderOf(a).Some? then
        var c := ReaderOf(a).value;
        SetLoop(s, c, LoopAfter(s.loops[c], a, core')).(core := core')
      else s.(core := core', mustNotify := s.mustNotify || a.Commit?)
    case Notify => s.(counter := AfterWrite(s.counter), mustNotify := false)
    case Shutdown => s.(flag := true, mustNotify := true)
    case Leave(c) => SetLoop(s, c, s.loops[c].(pc := K.Stopped))
    case Spin(c) => SetLoop(s, c, s.loops[c].(spins := s.loops[c].spins + 1, pc := K.AtFlag))
    case EnterPoll(c) => SetLoop(s, c, s.loops[c].(pc := K.AtPoll))
    case Wake(c) => SetLoop(s, c, s.loops[c].(pc := K.AtRead))
    case TimeOut(c) => SetLoop(s, c, s.loops[c].(pc := K.AtFlag))
    case ReadUnit(c) => SetLoop(s, c, s.loops[c].(pc := K.AtFlag)).(counter := AfterRead(s.counter))
    case CheckFlag(c) => SetLoop(s, c, s.loops[c].(pc := if s.flag then K.Draining else K.AtConsume))
  }

  /** The consumers are registered at 1, one for each setup, and nothing has happened. */
  ghost predicate Started<W>(s: System<W>, setups: seq<K.Setup>) {
    var k := |setups|;
    && k <= MAX_CONSUMERS && Sized(s.core)
    && s.core.next == 0 && s.core.cachedMin == 0 && s.core.producer == Ready
    && s.core.everJoined == (k > 0) && s.core.log == []
    && (forall i :: 0 <= i < RING_SIZE ==> s.core.ring[i].sequence == 0)
    && (forall c :: 0 <= c < k ==> s.core.parties[c] == Party(true, 1, Resting, 1, []))
    && (forall c :: k <= c < MAX_CONSUMERS ==> s.core.parties[c] == Party(false, 0, Resting, 0, []))
    && !s.flag && !s.mustNotify && s.counter == 0
    && |s.loops| == k && forall c :: 0 <= c < k ==> s.loops[c] == Loop(setups[c], 0, K.AtConsume)
  }

  // ---------- the invariant ----------

  ghost predicate LoopOk<W>(s: System<W>, c: nat)
    requires Sized(s.core) && c < |s.loops| <= MAX_CONSUMERS
  {
    var p, l := s.core.parties[c], s.loops[c];
    && p.active && p.start == 1 && !p.pc.Joining?
    && (!l.pc.AtConsume? && !l.pc.Draining? ==> p.pc.Resting?)
    && (l.pc.AtConsume? && !p.pc.Resting? ==> !Sated(s, c))
    && LimitOk(l, p.sequence, |s.core.log|, s.flag)
  }

  /** A loop that has a limit is at most a message past it until it sees the flag; then
      less than a ring of messages can have come on top. */
  ghost predicate LimitOk(l: Loop, sequence: nat, committed: nat, flag: bool) {
    && (l.pc.AtWait? || l.pc.AtPoll? || l.pc.AtRead? || l.pc.AtFlag? ==> !K.Sated(l.setup, sequence))
    && (l.pc.Draining? || l.pc.Done? ==>
          flag && (l.setup.limit.Some? ==> committed < l.setup.limit.value + RING_SIZE))
  }

  ghost predicate SystemOk<W>(s: System<W>) {
    && Safe(s.core) && |s.loops| <= MAX_CONSUMERS
    && (forall c :: 0 <= c < MAX_CONSUMERS ==> !s.core.parties[c].pc.Joining?)
    && (!s.core.producer.Ready? ==> !s.mustNotify && !s.flag)
    && forall c :: 0 <= c < |s.loops| ==> LoopOk(s, c)
  }

  lemma StartedOk<W>(s: System<W>, setups: seq<K.Setup>)
    requires Started(s, setups)
    ensures SystemOk(s)
  {
    forall c | 0 <= c < MAX_CONSUMERS ensures PartyOk(s.core.parties[c], s.core.log, 0, 0, s.core.width) {
    }
  }

  lemma OwnAccessKeepsLoop<W>(s: System<W>, a: Action<W>, c: nat)
    requires SystemOk(s) && CanMove(s, Access(a)) && ReaderOf(a) == Some(c)
    ensures c < |Moved(s, Access(a)).loops| == |s.loops| && LoopOk(Moved(s, Access(a)), c)
  {
    assert LoopOk(s, c);
  }

  lemma OtherAccessKeepsLoop<W>(s: System<W>, a: Action<W>, c: nat)
    requires SystemOk(s) && CanMove(s, Access(a)) && ReaderOf(a) != Some(c) && c < |s.loops|
    ensures |Moved(s, Access(a)).loops| == |s.loops| && LoopOk(Moved(s, Access(a)), c)
  {
    assert LoopOk(s, c);
  }

  lemma AccessKeepsOk<W>(s: System<W>, a: Action<W>)
    requires SystemOk(s) && CanMove(s, Access(a))
    ensures SystemOk(Moved(s, Access(a)))
  {
    StepKeepsSafe(s.core, a);
    var s' := Moved(s, Access(a));
    forall c | 0 <= c < |s'.loops| ensures LoopOk(s', c) {
      if ReaderOf(a) == Some(c) {
        OwnAccessKeepsLoop(s, a, c);
      } else {
        OtherAccessKeepsLoop(s, a, c);
      }
    }
  }

  /** Seeing the flag, a loop short of its limit can have at most a ring to drain. */
  lemma LoopMoveKeepsLoop<W>(s: System<W>, m: Move<W>, c: nat)
    requires SystemOk(s) && CanMove(s, m) && !m.Access? && c < |s.loops|
    ensures |Moved(s, m).loops| == |s.loops| && LoopOk(Moved(s, m), c)
  {
    assert LoopOk(s, c);
    assert PartyOk(s.core.parties[c], s.core.log, s.core.next, s.core.cachedMin, s.core.width);
  }

  lemma MoveKeepsOk<W>(s: System<W>, m: Move<W>)
    requires SystemOk(s) && CanMove(s, m)
    ensures SystemOk(Moved(s, m))
  {
    if m.Access? {
      AccessKeepsOk(s, m.a);
    } else {
      var s' := Moved(s, m);
      forall c | 0 <= c < |s'.loops| ensures LoopOk(s', c) {
        LoopMoveKeepsLoop(s, m, c);
      }
    }
  }

  // ---------- refinement of Wakeup ----------

  /** The ring as a count of committed messages and a cursor per consumer. */
  function Abstract<W>(s: System<W>): K.State
    requires |s.loops| <= |s.core.parties|
  {
    K.State(|s.core.log|, s.flag, s.mustNotify, s.counter,
      seq(|s.loops|, c requires 0 <= c < |s.loops| =>
        K.Consumer(s.loops[c].setup, s.core.parties[c].sequence, s.loops[c].spins, s.loops[c].pc)))
  }

  /** The action of Wakeup that the move is, or none. */
  function ActionOf<W>(s: System<W>, m: Move<W>): Option<K.Action>
    requires CanMove(s, m)
  {
    match m
    case Access(a) =>
      if a.Commit? then Some(K.Publish)
      else if a.Finish? || (a.TestSlot? && Apply(s.core, a).parties[a.c].pc.Resting?) then
        Some(if At(s, a.c, K.Draining) then K.Drain(a.c) else K.Consume(a.c))
      else None
    case Notify => Some(K.Notify)
    case Shutdown => Some(K.Shutdown)
    case Leave(c) => Some(K.Leave(c))
    case Spin(c) => Some(K.Spin(c))
    case EnterPoll(c) => Some(K.EnterPoll(c))
    case Wake(c) => Some(K.Wake(c))
    case TimeOut(c) => Some(K.TimeOut(c))
    case ReadUnit(c) => Some(K.Read(c))
    case CheckFlag(c) => Some(K.CheckFlag(c))
  }

  /** The move is that action, or leaves Wakeup's state alone. */
  ghost predicate Refines<W>(s: System<W>, m: Move<W>)
    requires SystemOk(s) && CanMove(s, m)
  {
    SystemOk(Moved(s, m)) &&
    match ActionOf(s, m)
    case None => Abstract(Moved(s, m)) == Abstract(s)
    case Some(e) => K.Enabled(Abstract(s), e) && K.Apply(Abstract(s), e) == Abstract(Moved(s, m))
  }

  lemma TestRefines<W>(s: System<W>, c: nat)
    requires SystemOk(s) && CanMove(s, Access(TestSlot(c)))
    ensures Refines(s, Access(TestSlot(c)))
  {
    MoveKeepsOk(s, Access(TestSlot(c)));
    assert LoopOk(s, c);
    TestFindsExactly(s.core, c);
    var s' := Moved(s, Access(TestSlot(c)));
    assert Abstract(s').consumers == Abstract(s).consumers[c := Abstract(s').consumers[c]];
  }

  lemma FinishRefines<W>(s: System<W>, c: nat)
    requires SystemOk(s) && CanMove(s, Access(Finish(c)))
    ensures Refines(s, Access(Finish(c)))
  {
    MoveKeepsOk(s, Access(Finish(c)));
    assert LoopOk(s, c);
    assert PartyOk(s.core.parties[c], s.core.log, s.core.next, s.core.cachedMin, s.core.width);
    var s' := Moved(s, Access(Finish(c)));
    assert Abstract(s').consumers == Abstract(s).consumers[c := Abstract(s').consumers[c]];
  }

  lemma OtherAccessRefines<W>(s: System<W>, a: Action<W>)
    requires SystemOk(s) && CanMove(s, Access(a)) && !a.TestSlot? && !a.Finish?
    ensures Refines(s, Access(a))
  {
    MoveKeepsOk(s, Access(a));
    assert Abstract(Moved(s, Access(a))).consumers == Abstract(s).consumers;
  }

  lemma LoopMoveIs<W>(s: System<W>, m: Move<W>)
    requires |s.loops| <= |s.core.parties| && CanMove(s, m) && !m.Access?
    ensures Moved(s, m).core == s.core && |Moved(s, m).loops| == |s.loops|
    ensures ActionOf(s, m).Some? && K.Enabled(Abstract(s), ActionOf(s, m).value)
    ensures K.Apply(Abstract(s), ActionOf(s, m).value) == Abstract(Moved(s, m))
  {
    var e := ActionOf(s, m).value;
    assert K.Apply(Abstract(s), e).consumers == Abstract(Moved(s, m)).consumers;
  }

  lemma LoopMoveRefines<W>(s: System<W>, m: Move<W>)
    requires SystemOk(s) && CanMove(s, m) && !m.Access?
    ensures Refines(s, m)
  {
    MoveKeepsOk(s, m);
    LoopMoveIs(s, m);
  }

  lemma MoveRefines<W>(s: System<W>, m: Move<W>)
    requires SystemOk(s) && CanMove(s, m)
    ensures Refines(s, m)
  {
    if !m.Access? {
      LoopMoveRefines(s, m);
    } else if m.a.TestSlot? {
      TestRefines(s, m.a.c);
    } else if m.a.Finish? {
      FinishRefines(s, m.a.c);
    } else {
      OtherAccessRefines(s, m.a);
    }
  }

  // ---------- runs ----------

  predicate Runs<W>(s: System<W>, ms: seq<Move<W>>)
    decreases |ms|, 0
  {
    ms != [] ==>
      var front := ms[..|ms| - 1];
      Runs(s, front) && CanMove(After(s, front), ms[|ms| - 1])
  }

  function After<W>(s: System<W>, ms: seq<Move<W>>): System<W>
    requires Runs(s, ms)
    decreases |ms|, 1
  {
    if ms == [] then s else Moved(After(s, ms[..|ms| - 1]), ms[|ms| - 1])
  }

  function ActionsOf<W>(s: System<W>, ms: seq<Move<W>>): seq<K.Action>
    requires Runs(s, ms)
    decreases |ms|
  {
    if ms == [] then []
    else
      var front := ms[..|ms| - 1];
      var e := ActionOf(After(s, front), ms[|ms| - 1]);
      ActionsOf(s, front) + (if e.Some? then [e.value] else [])
  }

  /** Every run of the whole system is a run of Wakeup. */
  lemma {:induction false} SystemRefinesWakeup<W>(s: System<W>, ms: seq<Move<W>>)
    requires SystemOk(s) && Runs(s, ms)
    ensures SystemOk(After(s, ms))
    ensures K.Runs(Abstract(s), ActionsOf(s, ms))
    ensures K.After(Abstract(s), ActionsOf(s, ms)) == Abstract(After(s, ms))
    decreases |ms|
  {
    if ms != [] {
      var front, m := ms[..|ms| - 1], ms[|ms| - 1];
      SystemRefinesWakeup(s, front);
      MoveRefines(After(s, front), m);
      var es := ActionsOf(s, ms);
      if ActionOf(After(s, front), m).Some? {
        assert es[..|es| - 1] == ActionsOf(s, front);
      } else {
        assert es == ActionsOf(s, front);
      }
    }
  }

  lemma StartsAsWakeup<W>(s: System<W>, setups: seq<K.Setup>)
    requires Started(s, setups)
    ensures Abstract(s) == K.Start(setups)
  {
    assert Abstract(s).consumers == K.Start(setups).consumers;
  }

  /** With at most one consumer that may sleep, among any others, in no interleaving of
      all these accesses does it sleep, or is about to, while it has a message to read or
      the flag is up, with the counter at 0 and no write on its way. */
  lemma NoLostWakeup<W>(s: System<W>, ms: seq<Move<W>>, setups: seq<K.Setup>)
    requires Started(s, setups) && K.AtMostOneSleeps(setups) && Runs(s, ms)
    ensures SystemOk(After(s, ms)) && !K.LostWakeup(Abstract(After(s, ms)))
  {
    StartedOk(s, setups);
    SystemRefinesWakeup(s, ms);
    StartsAsWakeup(s, setups);
    K.StartCovered(setups);
    K.OneSleeperCovered(Abstract(s), ActionsOf(s, ms));
    K.CoveredSleepsSoundly(Abstract(After(s, ms)));
  }

  // ---------- how the loops end ----------

  lemma AccessBetweenPublishes<W>(core: State<W>, a: Action<W>)
    requires Enabled(core, a) && core.producer.Ready? && !a.Begin?
    ensures Apply(core, a).producer.Ready? && Apply(core, a).log == core.log
  {
  }

  lemma MoveAfterFlag<W>(s: System<W>, m: Move<W>)
    requires CanMove(s, m) && s.flag && s.core.producer.Ready?
    ensures Moved(s, m).flag && Moved(s, m).core.producer.Ready? && Moved(s, m).core.log == s.core.log
  {
    if m.Access? {
      AccessBetweenPublishes(s.core, m.a);
    }
  }

  lemma {:induction false} NothingAfterFlag<W>(s: System<W>, ms: seq<Move<W>>)
    requires Runs(s, ms) && s.flag && s.core.producer.Ready?
    ensures After(s, ms).flag && After(s, ms).core.producer.Ready? && After(s, ms).core.log == s.core.log
    decreases |ms|
  {
    if ms != [] {
      var front := ms[..|ms| - 1];
      NothingAfterFlag(s, front);
      MoveAfterFlag(After(s, front), ms[|ms| - 1]);
    }
  }

  lemma EndsOk<W>(s: System<W>, ms: seq<Move<W>>, setups: seq<K.Setup>, c: nat)
    requires Started(s, setups) && Runs(s, ms) && c < |setups|
    ensures var t := After(s, ms);
      && SystemOk(t) && |t.loops| == |setups| && t.loops[c].setup == setups[c]
      && K.EndOk(Abstract(t), c)
      && B.GivenExactly(t.core.log, 1, t.core.parties[c].sequence, t.core.parties[c].delivered)
  {
    StartedOk(s, setups);
    SystemRefinesWakeup(s, ms);
    StartsAsWakeup(s, setups);
    K.EndsWithEverything(setups, ActionsOf(s, ms), c);
    K.SetupsStay(setups, ActionsOf(s, ms), c);
    var t := After(s, ms);
    assert Abstract(t).consumers[c].setup == t.loops[c].setup;
    assert LoopOk(t, c);
    assert PartyOk(t.core.parties[c], t.core.log, t.core.next, t.core.cachedMin, t.core.width);
  }

  /** A consumer that has left through the flag has been given the whole log, word for
      word and in order, and the log stays what it is whatever follows. If it had a
      limit, the log is less than a ring longer than that. */
  lemma DoneHasWholeLog<W>(s: System<W>, ms: seq<Move<W>>, setups: seq<K.Setup>, c: nat, later: seq<Move<W>>)
    requires Started(s, setups) && Runs(s, ms) && c < |setups|
    requires At(After(s, ms), c, K.Done) && Runs(After(s, ms), later)
    ensures var t := After(s, ms);
      && Sized(t.core) && t.core.parties[c].delivered == t.core.log
      && After(t, later).core.log == t.core.log
      && (setups[c].limit.Some? ==> |t.core.log| < setups[c].limit.value + RING_SIZE)
  {
    EndsOk(s, ms, setups, c);
    var t := After(s, ms);
    assert Abstract(t).consumers[c].pc == K.Done;
    assert LoopOk(t, c);
    assert t.core.log[0..|t.core.log|] == t.core.log;
    NothingAfterFlag(t, later);
  }

  /** A consumer that has left through its limit has been given exactly the first so
      many messages, word for word and in order. */
  lemma StoppedHasFirst<W>(s: System<W>, ms: seq<Move<W>>, setups: seq<K.Setup>, c: nat)
    requires Started(s, setups) && Runs(s, ms) && c < |setups|
    requires At(After(s, ms), c, K.Stopped)
    ensures var t := After(s, ms);
      && Sized(t.core) && setups[c].limit.Some? && setups[c].limit.value <= |t.core.log|
      && t.core.parties[c].delivered == t.core.log[..setups[c].limit.value]
  {
    EndsOk(s, ms, setups, c);
    var t := After(s, ms);
    assert Abstract(t).consumers[c].pc == K.Stopped;
    assert t.core.log[0..setups[c].limit.value] == t.core.log[..setups[c].limit.value];
  }

  // ---------- two or more that may sleep ----------

  ghost predicate Reaches<W(!new)>(s0: System<W>, s: System<W>) {
    exists ms: seq<Move<W>> :: Runs(s0, ms) && After(s0, ms) == s
  }

  /** Every move leads from a state of the set to a state of the set. */
  ghost predicate Closed<W(!new)>(r: iset<System<W>>) {
    forall s, m :: s in r && CanMove(s, m) ==> Moved(s, m) in r
  }

  lemma OneMoreMove<W(!new)>(s0: System<W>, s: System<W>, m: Move<W>)
    requires Reaches(s0, s) && CanMove(s, m)
    ensures Reaches(s0, Moved(s, m))
  {
    var ms: seq<Move<W>> :| Runs(s0, ms) && After(s0, ms) == s;
    var ms' := ms + [m];
    assert ms'[..|ms|] == ms;
    assert Runs(s0, ms') && After(s0, ms') == Moved(s, m);
  }

  ghost function Reachable<W(!new)>(s0: System<W>): iset<System<W>> {
    iset s: System<W> | Reaches(s0, s)
  }

  lemma ReachableClosed<W(!new)>(s0: System<W>)
    ensures s0 in Reachable(s0) && Closed(Reachable(s0))
  {
    var none: seq<Move<W>> := [];
    assert Runs(s0, none) && After(s0, none) == s0;
    forall s, m | s in Reachable(s0) && CanMove(s, m) ensures Moved(s, m) in Reachable(s0) {
      OneMoreMove(s0, s, m);
    }
  }

  lemma GoOn<W(!new)>(r: iset<System<W>>, s: System<W>, m: Move<W>) returns (t: System<W>)
    requires Closed(r) && s in r && CanMove(s, m)
    ensures t in r && t == Moved(s, m)
  {
    t := Moved(s, m);
  }

  /** Nothing has been published, and consumer c is between its calls. */
  ghost predicate Idle<W>(s: System<W>, c: nat) {
    && Sized(s.core) && c < |s.loops| <= MAX_CONSUMERS && !s.flag
    && s.core.ring[RingIndex(1)].sequence == 0
    && s.core.parties[c] == Party(true, 1, Resting, 1, [])
    && K.MaySleep(s.loops[c].setup)
  }

  function WithPc<W>(core: State<W>, c: nat, pc: ReaderPc<W>): State<W>
    requires Sized(core) && c < MAX_CONSUMERS
  {
    SetParty(core, c, core.parties[c].(pc := pc))
  }

  lemma FailingLook<W>(core: State<W>, c: nat)
    requires Sized(core) && c < MAX_CONSUMERS && core.ring[RingIndex(1)].sequence == 0
    requires core.parties[c] == Party(true, 1, Resting, 1, [])
    ensures var u, v := WithPc(core, c, SawActive), WithPc(core, c, SawSequence(1));
      && Enabled(core, CheckActive(c)) && Apply(core, CheckActive(c)) == u
      && Enabled(u, LoadOwn(c)) && Apply(u, LoadOwn(c)) == v
      && Enabled(v, TestSlot(c)) && Apply(v, TestSlot(c)) == core
  {
  }

  lemma LookOn<W(!new)>(r: iset<System<W>>, s: System<W>, a: Action<W>, c: nat) returns (t: System<W>)
    requires Closed(r) && s in r && CanMove(s, Access(a)) && ReaderOf(a) == Some(c)
    requires a.CheckActive? || a.LoadOwn?
    ensures t in r && t == s.(core := Apply(s.core, a))
  {
    t := GoOn(r, s, Access(a));
    assert t.loops == s.loops;
  }

  /** Its consume fails and leaves the queue as it was. */
  lemma ConsumeFails<W(!new)>(r: iset<System<W>>, s: System<W>, c: nat) returns (t: System<W>)
    requires Closed(r) && s in r && Idle(s, c) && At(s, c, K.AtConsume)
    ensures t in r && t == SetLoop(s, c, s.loops[c].(pc := K.AtWait))
  {
    FailingLook(s.core, c);
    t := LookOn(r, s, CheckActive(c), c);
    t := LookOn(r, t, LoadOwn(c), c);
    t := GoOn(r, t, Access(TestSlot(c)));
  }

  lemma SetLoopTwice<W>(s: System<W>, c: nat, l: Loop, l': Loop)
    requires c < |s.loops|
    ensures SetLoop(SetLoop(s, c, l), c, l') == SetLoop(s, c, l')
  {
    assert s.loops[c := l][c := l'] == s.loops[c := l'];
  }

  lemma SpinOnce<W(!new)>(r: iset<System<W>>, s: System<W>, c: nat) returns (t: System<W>)
    requires Closed(r) && s in r && Sized(s.core) && At(s, c, K.AtWait) && !s.flag
    requires K.SpinsOn(s.loops[c].setup, s.loops[c].spins)
    ensures t in r && t == SetLoop(s, c, s.loops[c].(spins := s.loops[c].spins + 1, pc := K.AtConsume))
  {
    var l := s.loops[c];
    SetLoopTwice(s, c, l.(spins := l.spins + 1, pc := K.AtFlag), l.(spins := l.spins + 1, pc := K.AtConsume));
    t := GoOn(r, s, Spin(c));
    t := GoOn(r, t, CheckFlag(c));
  }

  /** Consumer c uses up its spins and stops short of poll. */
  lemma {:induction false} SpinsUsedUp<W(!new)>(r: iset<System<W>>, s: System<W>, c: nat) returns (t: System<W>)
    requires Closed(r) && s in r && Idle(s, c) && At(s, c, K.AtConsume)
    requires s.loops[c].spins <= s.loops[c].setup.strategy.spinLimit
    ensures t in r
    ensures t == SetLoop(s, c, s.loops[c].(spins := s.loops[c].setup.strategy.spinLimit, pc := K.AtWait))
    decreases s.loops[c].setup.strategy.spinLimit - s.loops[c].spins
  {
    var l := s.loops[c];
    t := ConsumeFails(r, s, c);
    if l.spins < l.setup.strategy.spinLimit {
      var l' := l.(spins := l.spins + 1);
      SetLoopTwice(s, c, l.(pc := K.AtWait), l');
      SetLoopTwice(s, c, l', l.(spins := l.setup.strategy.spinLimit, pc := K.AtWait));
      t := SpinOnce(r, t, c);
      t := SpinsUsedUp(r, t, c);
    }
  }

  /** A fresh queue for messages without words, and a consumer at 1 for each setup. */
  function Fresh<W>(setups: seq<K.Setup>): System<W>
    requires |setups| <= MAX_CONSUMERS
  {
    var parties := seq(MAX_CONSUMERS, c =>
      if c < |setups| then Party(true, 1, Resting, 1, []) else Party(false, 0, Resting, 0, []));
    var core := State(0, OnlyFront, seq(RING_SIZE, _ => Cell(0, [])), parties, 0, 0, Ready, |setups| > 0, []);
    System(core, false, false, 0,
      seq(|setups|, c requires 0 <= c < |setups| => Loop(setups[c], 0, K.AtConsume)))
  }

  /** One message goes out, and the producer notifies. */
  lemma OneMessage<W(!new)>(r: iset<System<W>>, s: System<W>) returns (t: System<W>)
    requires Closed(r) && s in r && Sized(s.core) && s.core.width == 0
    requires s.core.producer.Ready? && s.core.next == 0 && s.core.cachedMin == 0 && s.core.log == []
    requires !s.flag && !s.mustNotify && s.counter == 0 && !JoinPending(s.core, Between)
    ensures t in r && Sized(t.core) && |t.core.log| == 1 && t.core.parties == s.core.parties
    ensures t.loops == s.loops && t.counter == 1 && !t.mustNotify && !t.flag
  {
    t := GoOn(r, s, Access(Begin([])));
    assert t.core.producer == Writing([], 0);
    t := GoOn(r, t, Access(Commit));
    t := GoOn(r, t, Notify);
  }

  lemma TwoRunOutOfSpins<W(!new)>(setups: seq<K.Setup>, c: nat, d: nat) returns (s0: System<W>, s: System<W>)
    requires c < d < |setups| <= MAX_CONSUMERS && K.MaySleep(setups[c]) && K.MaySleep(setups[d])
    ensures s0 == Fresh(setups) && Started(s0, setups) && s in Reachable(s0)
    ensures s == s0.(loops := s.loops) && |s.loops| == |setups|
    ensures s.loops[c] == Loop(setups[c], setups[c].strategy.spinLimit, K.AtWait)
    ensures s.loops[d] == Loop(setups[d], setups[d].strategy.spinLimit, K.AtWait)
  {
    s0 := Fresh(setups);
    ReachableClosed(s0);
    s := SpinsUsedUp(Reachable(s0), s0, d);
    s := SpinsUsedUp(Reachable(s0), s, c);
  }

  /** The first one polls and takes the only unit before the second one polls. */
  lemma SecondSleeperMissesIt<W(!new)>(setups: seq<K.Setup>, c: nat, d: nat)
      returns (s0: System<W>, s: System<W>)
    requires c < d < |setups| <= MAX_CONSUMERS && K.MaySleep(setups[c]) && K.MaySleep(setups[d])
    ensures Started(s0, setups) && s in Reachable(s0)
    ensures |s.loops| <= |s.core.parties| && K.SleepsThrough(Abstract(s), d)
  {
    s0, s := TwoRunOutOfSpins(setups, c, d);
    ReachableClosed(s0);
    var r := Reachable(s0);
    s := GoOn(r, s, EnterPoll(c));
    s := OneMessage(r, s);
    s := GoOn(r, s, Wake(c));
    s := GoOn(r, s, ReadUnit(c));
  }

  /** At every shared access too: for any consumers, with any strategies, spin limits and
      limits, no wake-up is ever lost if and only if at most one of them may sleep. */
  lemma NoLostWakeupIff<W(!new)>(setups: seq<K.Setup>)
    requires |setups| <= MAX_CONSUMERS
    ensures (forall s0: System<W>, s: System<W> ::
        Started(s0, setups) && Reaches(s0, s) && |s.loops| <= |s.core.parties| ==> !K.LostWakeup(Abstract(s)))
      <==> K.AtMostOneSleeps(setups)
  {
    if K.AtMostOneSleeps(setups) {
      forall s0: System<W>, s: System<W> |
        Started(s0, setups) && Reaches(s0, s) && |s.loops| <= |s.core.parties|
        ensures !K.LostWakeup(Abstract(s))
      {
        var ms: seq<Move<W>> :| Runs(s0, ms) && After(s0, ms) == s;
        NoLostWakeup(s0, ms, setups);
      }
    } else {
      var c, d :| 0 <= c < d < |setups| && K.MaySleep(setups[c]) && K.MaySleep(setups[d]);
      var s0: System<W>, s := SecondSleeperMissesIt(setups, c, d);
      assert K.LostWakeup(Abstract(s));
    }
  }

  // ---------- that everybody gets there ----------

  /** The producer's thread can always go on: inside publish, to the notification that is
      due, to the next message, or to shutdown. */
  lemma ProducerCanMove<W>(s: System<W>, item: seq<W>)
    requires SystemOk(s) && |item| == s.core.width && s.core.next < U64_MAX - 2
    ensures s.mustNotify ==> CanMove(s, Notify)
    ensures !s.core.producer.Ready? ==> exists a :: T.IsProducerStep(a) && CanMove(s, Access(a))
    ensures s.core.producer.Ready? && !s.mustNotify && !s.flag ==>
      CanMove(s, Access(Begin(item))) && CanMove(s, Shutdown)
  {
    if !s.core.producer.Ready? {
      var a := T.ProducerIsWaitFree(s.core);
      assert T.IsProducerStep(a) && CanMove(s, Access(a));
    }
  }

  predicate IsMoveOf<W>(m: Move<W>, c: nat) {
    match m
    case Access(a) => ReaderOf(a) == Some(c)
    case Notify => false
    case Shutdown => false
    case Leave(d) => d == c
    case Spin(d) => d == c
    case EnterPoll(d) => d == c
    case Wake(d) => d == c
    case TimeOut(d) => d == c
    case ReadUnit(d) => d == c
    case CheckFlag(d) => d == c
  }

  predicate Ended<W>(s: System<W>, c: nat) {
    At(s, c, K.Done) || At(s, c, K.Stopped)
  }

  /** Accesses left of one consume. */
  function ConsumeRank<W>(p: Party<W>, width: nat): int {
    if p.pc.Resting? then width + 4 else T.ReaderRank(p, width)
  }

  /** Wherever a consumer stands that has not ended, it can move, whatever its strategy. */
  lemma ConsumerCanMove<W>(s: System<W>, c: nat) returns (m: Move<W>)
    requires SystemOk(s) && c < |s.loops| && !Ended(s, c)
    ensures IsMoveOf(m, c) && CanMove(s, m)
  {
    var p, l := s.core.parties[c], s.loops[c];
    assert LoopOk(s, c);
    assert PartyOk(p, s.core.log, s.core.next, s.core.cachedMin, s.core.width);
    m := match l.pc {
      case AtConsume =>
        if p.pc.Resting? then (if Sated(s, c) then Leave(c) else Access(CheckActive(c))) else Access(NextAccess(p, c, s.core.width))
      case AtWait => if K.SpinsOn(l.setup, l.spins) then Spin(c) else EnterPoll(c)
      case AtPoll => TimeOut(c)
      case AtRead => ReadUnit(c)
      case AtFlag => CheckFlag(c)
      case _ => Access(NextAccess(p, c, s.core.width))
    };
  }

  function NextAccess<W>(p: Party<W>, c: nat, width: nat): Action<W> {
    match p.pc
    case Resting => CheckActive(c)
    case SawActive => LoadOwn(c)
    case SawSequence(_) => TestSlot(c)
    case Copying(_, buffer) => if |buffer| < width then CopyWord(c) else Finish(c)
    case Joining(_, _) => JoinSet(c)
  }

  /** Moves of its own until a message that is there is consumed. */
  function MessageRank<W>(s: System<W>, c: nat): int
    requires c < |s.loops| && c < |s.core.parties|
  {
    var own, width := ConsumeRank(s.core.parties[c], s.core.width), s.core.width;
    match s.loops[c].pc
    case AtConsume => own
    case AtWait => width + 8
    case AtPoll => width + 7
    case AtRead => width + 6
    case AtFlag => width + 5
    case Draining => own
    case Done => 0
    case Stopped => 0
  }

  lemma AccessAdvances<W>(s: System<W>, a: Action<W>, c: nat)
    requires SystemOk(s) && CanMove(s, Access(a)) && ReaderOf(a) == Some(c)
    ensures var s', p := Moved(s, Access(a)), s.core.parties[c];
      && |s'.loops| == |s.loops| && s'.core.width == s.core.width && s'.core.log == s.core.log
      && s'.flag == s.flag
      && if a.Finish? then
           s'.core.parties[c].sequence == p.sequence + 1 && s'.core.parties[c].pc.Resting? && s'.loops[c].pc == s.loops[c].pc
         else if a.TestSlot? && p.sequence > |s.core.log| then
           s'.core.parties[c].sequence == p.sequence && s'.core.parties[c].pc.Resting?
           && s'.loops[c].pc == (if s.loops[c].pc.Draining? then K.Done else K.AtWait)
         else
           s'.core.parties[c].sequence == p.sequence && s'.loops[c].pc == s.loops[c].pc
           && 0 < ConsumeRank(s'.core.parties[c], s.core.width) < ConsumeRank(p, s.core.width)
  {
    assert LoopOk(s, c);
    assert PartyOk(s.core.parties[c], s.core.log, s.core.next, s.core.cachedMin, s.core.width);
    if a.TestSlot? {
      TestFindsExactly(s.core, c);
    }
  }

  /** While a message is there, each move of its own consumes it, or leaves the loop for
      having enough, or brings it nearer. */
  lemma MessageSoon<W>(s: System<W>, m: Move<W>, c: nat)
    requires SystemOk(s) && c < |s.loops| && !Ended(s, c) && s.core.parties[c].sequence <= |s.core.log|
    requires CanMove(s, m) && IsMoveOf(m, c)
    ensures |Moved(s, m).loops| == |s.loops|
    ensures var s' := Moved(s, m);
      || s'.core.parties[c].sequence == s.core.parties[c].sequence + 1
      || (At(s', c, K.Stopped) && Sated(s, c))
      || (s'.core.parties[c].sequence == s.core.parties[c].sequence
          && 0 <= MessageRank(s', c) < MessageRank(s, c) <= s.core.width + 8)
  {
    assert LoopOk(s, c);
    assert PartyOk(s.core.parties[c], s.core.log, s.core.next, s.core.cachedMin, s.core.width);
    if m.Access? {
      AccessAdvances(s, m.a, c);
    }
  }

  // ---------- the end, once the flag is up ----------

  /** Where it stands in its loop, with `own` accesses left of its consume. */
  function Place(pc: K.Pc, own: int, width: nat): int {
    match pc
    case AtConsume => width + 8 + own
    case AtWait => width + 8
    case AtPoll => width + 7
    case AtRead => width + 6
    case AtFlag => width + 5
    case Draining => own
    case Done => 0
    case Stopped => 0
  }

  function Times(n: int, b: nat): nat
    decreases n
  {
    if n <= 0 then 0 else Times(n - 1, b) + b
  }

  /** A round for each unread message, and what is left of this one. */
  function RankOf(unread: int, pc: K.Pc, own: int, width: nat): int {
    Times(unread, 2 * width + 13) + Place(pc, own, width)
  }

  /** Moves of its own until the loop has ended. */
  function EndRank<W>(s: System<W>, c: nat): int
    requires c < |s.loops| && c < |s.core.parties|
  {
    RankOf(|s.core.log| + 1 - s.core.parties[c].sequence, s.loops[c].pc,
      ConsumeRank(s.core.parties[c], s.core.width), s.core.width)
  }

  /** One message less to read; or a consume that found nothing; or one access less, or
      a step round the loop. */
  ghost predicate Nearer<W>(s: System<W>, s': System<W>, c: nat) {
    && c < |s.loops| == |s'.loops| && c < |s.core.parties| && c < |s'.core.parties|
    && |s'.core.log| == |s.core.log| && s'.core.width == s.core.width
    && var p, p', pc, pc' := s.core.parties[c], s'.core.parties[c], s.loops[c].pc, s'.loops[c].pc;
    var own, own', width := ConsumeRank(p, s.core.width), ConsumeRank(p', s.core.width), s.core.width;
    && 1 <= own <= width + 4 && 1 <= own' <= width + 4
    && (|| (p'.sequence == p.sequence + 1 <= |s.core.log| + 1 && pc' == pc && (pc.AtConsume? || pc.Draining?))
        || (p'.sequence == p.sequence && Place(pc', own', width) < Place(pc, own, width)))
  }

  lemma OneMessageLess(unread: int, pc: K.Pc, own: int, own': int, width: nat)
    requires unread > 0 && (pc.AtConsume? || pc.Draining?) && own >= 1 && own' <= width + 4
    ensures RankOf(unread - 1, pc, own', width) < RankOf(unread, pc, own, width)
  {
    var b := 2 * width + 13;
    assert Times(unread, b) == Times(unread - 1, b) + b;
  }

  lemma RankDrops<W>(s: System<W>, s': System<W>, c: nat)
    requires Nearer(s, s', c)
    ensures EndRank(s', c) < EndRank(s, c)
  {
    var p, p', width := s.core.parties[c], s'.core.parties[c], s.core.width;
    if p'.sequence == p.sequence + 1 {
      OneMessageLess(|s.core.log| + 1 - p.sequence, s.loops[c].pc, ConsumeRank(p, width), ConsumeRank(p', width), width);
    }
  }

  lemma OwnRank<W>(s: System<W>, c: nat)
    requires SystemOk(s) && c < |s.loops|
    ensures 1 <= ConsumeRank(s.core.parties[c], s.core.width) <= s.core.width + 4
  {
    assert LoopOk(s, c);
    assert PartyOk(s.core.parties[c], s.core.log, s.core.next, s.core.cachedMin, s.core.width);
  }

  lemma AccessIsNearer<W>(s: System<W>, a: Action<W>, c: nat)
    requires SystemOk(s) && c < |s.loops| && CanMove(s, Access(a)) && ReaderOf(a) == Some(c)
    requires a.Finish? ==> s.core.parties[c].sequence <= |s.core.log|
    ensures Nearer(s, Moved(s, Access(a)), c)
  {
    AccessAdvances(s, a, c);
    OwnRank(s, c);
  }

  lemma FinishHasMessage<W>(s: System<W>, c: nat)
    requires SystemOk(s) && CanMove(s, Access(Finish(c)))
    ensures s.core.parties[c].sequence <= |s.core.log|
  {
    assert PartyOk(s.core.parties[c], s.core.log, s.core.next, s.core.cachedMin, s.core.width);
  }

  lemma LoopMoveIsNearer<W>(s: System<W>, m: Move<W>, c: nat)
    requires SystemOk(s) && c < |s.loops| && s.flag && CanMove(s, m) && IsMoveOf(m, c) && !m.Access?
    ensures Nearer(s, Moved(s, m), c)
  {
    OwnRank(s, c);
  }

  /** Once the flag is up, each move of its own brings the consumer nearer its end. */
  lemma EndIsNearer<W>(s: System<W>, m: Move<W>, c: nat)
    requires SystemOk(s) && c < |s.loops| && s.flag && CanMove(s, m) && IsMoveOf(m, c)
    ensures |Moved(s, m).loops| == |s.loops| && c < |Moved(s, m).core.parties|
    ensures EndRank(Moved(s, m), c) < EndRank(s, c)
  {
    if m.Access? {
      if m.a.Finish? {
        FinishHasMessage(s, c);
      }
      AccessIsNearer(s, m.a, c);
    } else {
      LoopMoveIsNearer(s, m, c);
    }
    RankDrops(s, Moved(s, m), c);
  }

  lemma OthersLeaveRecord<W>(s: System<W>, m: Move<W>, c: nat)
    requires SystemOk(s) && c < |s.loops| && s.flag && CanMove(s, m) && !IsMoveOf(m, c)
    ensures var s' := Moved(s, m);
      && |s'.loops| == |s.loops| && s'.loops[c] == s.loops[c] && s'.flag
      && s'.core.parties[c] == s.core.parties[c]
      && s'.core.log == s.core.log && s'.core.width == s.core.width
  {
    if m.Access? {
      AccessBetweenPublishes(s.core, m.a);
      T.OthersLeaveReaderAlone(s.core, c);
    }
  }

  /** And nobody else sets it back. */
  lemma OthersLeaveEnd<W>(s: System<W>, m: Move<W>, c: nat)
    requires SystemOk(s) && c < |s.loops| && s.flag && CanMove(s, m) && !IsMoveOf(m, c)
    ensures |Moved(s, m).loops| == |s.loops| && EndRank(Moved(s, m), c) == EndRank(s, c)
  {
    OthersLeaveRecord(s, m, c);
  }

  function MovesBy<W>(ms: seq<Move<W>>, c: nat): nat {
    if ms == [] then 0
    else MovesBy(ms[..|ms| - 1], c) + (if IsMoveOf(ms[|ms| - 1], c) then 1 else 0)
  }

  lemma EndedAtZero<W>(s: System<W>, c: nat)
    requires SystemOk(s) && c < |s.loops|
    ensures EndRank(s, c) >= 0
    ensures EndRank(s, c) == 0 ==> Ended(s, c)
  {
    assert LoopOk(s, c);
    assert PartyOk(s.core.parties[c], s.core.log, s.core.next, s.core.cachedMin, s.core.width);
  }

  lemma EndStep<W>(s: System<W>, m: Move<W>, c: nat)
    requires SystemOk(s) && c < |s.loops| && s.flag && CanMove(s, m)
    ensures var t := Moved(s, m);
      && SystemOk(t) && t.flag && c < |t.loops|
      && EndRank(t, c) + (if IsMoveOf(m, c) then 1 else 0) <= EndRank(s, c)
  {
    MoveKeepsOk(s, m);
    if IsMoveOf(m, c) {
      EndIsNearer(s, m, c);
    } else {
      OthersLeaveEnd(s, m, c);
    }
  }

  /** Once the flag is up, every consumer, blocking or not, with a limit or without, has
      ended after at most EndRank moves of its own, however all others move. */
  lemma {:induction false} FlagEndsLoop<W>(s: System<W>, ms: seq<Move<W>>, c: nat)
    requires SystemOk(s) && c < |s.loops| && s.flag && Runs(s, ms)
    ensures var t := After(s, ms);
      && SystemOk(t) && t.flag && c < |t.loops|
      && MovesBy(ms, c) + EndRank(t, c) <= EndRank(s, c)
      && (MovesBy(ms, c) == EndRank(s, c) ==> Ended(t, c))
    decreases |ms|
  {
    if ms != [] {
      var front := ms[..|ms| - 1];
      FlagEndsLoop(s, front, c);
      EndStep(After(s, front), ms[|ms| - 1], c);
    }
    EndedAtZero(After(s, ms), c);
  }
}
