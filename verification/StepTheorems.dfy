/** What every interleaving of StepMachine guarantees. */
module StepTheorems {
  import opened Arithmetic64
  import opened RingLayout
  import opened QueueSpec
  import opened Broadcast
  import opened StepMachine

  // ---------- runs ----------

  /** Any interleaving at all, from s. */
  predicate Runs<W>(s: State<W>, acts: seq<Action<W>>)
    decreases |acts|, 0
  {
    acts != [] ==>
      var front := acts[..|acts| - 1];
      Runs(s, front) && Enabled(After(s, front), acts[|acts| - 1])
  }

  function After<W>(s: State<W>, acts: seq<Action<W>>): State<W>
    requires Runs(s, acts)
    decreases |acts|, 1
  {
    if acts == [] then s else Apply(After(s, acts[..|acts| - 1]), acts[|acts| - 1])
  }

  lemma {:induction false} RunKeepsSafe<W>(s: State<W>, acts: seq<Action<W>>)
    requires Safe(s) && Runs(s, acts)
    ensures Safe(After(s, acts))
    decreases |acts|
  {
    if acts != [] {
      var front := acts[..|acts| - 1];
      RunKeepsSafe(s, front);
      StepKeepsSafe(After(s, front), acts[|acts| - 1]);
    }
  }

  // ---------- refinement of the broadcast log ----------

  function ReaderOf<W>(p: Party<W>): Option<Reader<seq<W>>> {
    if Registered(p) then Some(Reader(p.start, p.sequence, p.delivered)) else None
  }

  function BoardOf<W>(s: State<W>): Board<seq<W>>
    requires Sized(s)
  {
    Board(s.log, seq(MAX_CONSUMERS, c requires 0 <= c < MAX_CONSUMERS => ReaderOf(s.parties[c])))
  }

  /** Where each call takes effect: publish at its store of the slot's sequence,
      consume at its store of seq + 1, joining at the store of the start. */
  function EventOf<W>(s: State<W>, a: Action<W>): Event<seq<W>>
    requires Possible(s, a)
  {
    match a
    case Commit => Append(s.producer.item)
    case Finish(c) => Deliver(c)
    case JoinSet(c) => Join(c, s.parties[c].pc.from)
    case Quit(c) => Leave(c)
    case _ => Stutter
  }

  function EventsOf<W>(s: State<W>, acts: seq<Action<W>>): seq<Event<seq<W>>>
    requires Runs(s, acts)
    decreases |acts|
  {
    if acts == [] then []
    else
      var front := acts[..|acts| - 1];
      EventsOf(s, front) + [EventOf(After(s, front), acts[|acts| - 1])]
  }

  lemma CommitRefines<W>(s: State<W>)
    requires Safe(s) && Enabled(s, Commit)
    ensures CanHappen(BoardOf(s), Append(s.producer.item))
    ensures Happen(BoardOf(s), Append(s.producer.item)) == BoardOf(Apply(s, Commit))
  {
    forall c | 0 <= c < MAX_CONSUMERS && BoardOf(s).readers[c].Some?
      ensures |s.log| + 1 < BoardOf(s).readers[c].value.next + RING_SIZE
    {
      assert PartyOk(s.parties[c], s.log, s.next, s.cachedMin, s.width);
    }
    assert BoardOf(Apply(s, Commit)).readers == BoardOf(s).readers;
  }

  lemma FinishRefines<W>(s: State<W>, c: nat)
    requires Safe(s) && Enabled(s, Finish(c))
    ensures CanHappen(BoardOf(s), Deliver(c))
    ensures Happen(BoardOf(s), Deliver(c)) == BoardOf(Apply(s, Finish(c)))
  {
    assert PartyOk(s.parties[c], s.log, s.next, s.cachedMin, s.width);
    FinishKeepsSafe(s, c);
    var b' := BoardOf(Apply(s, Finish(c)));
    assert BoardOf(s).readers[c] == ReaderOf(s.parties[c]);
    assert b'.readers == Happen(BoardOf(s), Deliver(c)).readers;
  }

  lemma MembershipRefines<W>(s: State<W>, a: Action<W>)
    requires Safe(s) && Enabled(s, a) && (a.JoinCas? || a.JoinSet? || a.Quit?)
    ensures CanHappen(BoardOf(s), EventOf(s, a))
    ensures Happen(BoardOf(s), EventOf(s, a)) == BoardOf(Apply(s, a))
  {
    assert BoardOf(s).readers[a.c] == ReaderOf(s.parties[a.c]);
    assert BoardOf(Apply(s, a)).readers == Happen(BoardOf(s), EventOf(s, a)).readers;
  }

  lemma OtherStepsStutter<W>(s: State<W>, a: Action<W>)
    requires Safe(s) && Enabled(s, a)
    requires !(a.Commit? || a.Finish? || a.JoinCas? || a.JoinSet? || a.Quit?)
    ensures BoardOf(Apply(s, a)) == BoardOf(s)
  {
    assert BoardOf(Apply(s, a)).readers == BoardOf(s).readers;
  }

  /** Each step is one event on the board, or none. */
  lemma StepRefines<W>(s: State<W>, a: Action<W>)
    requires Safe(s) && Enabled(s, a)
    ensures CanHappen(BoardOf(s), EventOf(s, a))
    ensures Happen(BoardOf(s), EventOf(s, a)) == BoardOf(Apply(s, a))
  {
    match a
    case Commit => CommitRefines(s);
    case Finish(c) => FinishRefines(s, c);
    case JoinCas(_, _, _) => MembershipRefines(s, a);
    case JoinSet(_) => MembershipRefines(s, a);
    case Quit(_) => MembershipRefines(s, a);
    case _ => OtherStepsStutter(s, a);
  }

  /** Every run of the machine is a run of the broadcast log. */
  lemma {:induction false} RunRefines<W>(s: State<W>, acts: seq<Action<W>>)
    requires Safe(s) && Runs(s, acts)
    ensures Safe(After(s, acts))
    ensures CanAll(BoardOf(s), EventsOf(s, acts))
    ensures HappenAll(BoardOf(s), EventsOf(s, acts)) == BoardOf(After(s, acts))
    decreases |acts|
  {
    RunKeepsSafe(s, acts);
    if acts != [] {
      var front := acts[..|acts| - 1];
      RunKeepsSafe(s, front);
      RunRefines(s, front);
      StepRefines(After(s, front), acts[|acts| - 1]);
      var es := EventsOf(s, acts);
      assert es[..|es| - 1] == EventsOf(s, front);
    }
  }

  /** From a fresh queue, in every interleaving: each registered consumer has been
      given exactly log[start .. seq - 1], and is at most 1024 messages behind. */
  lemma DeliveryIsExact<W>(s: State<W>, acts: seq<Action<W>>, c: nat)
    requires Initial(s) && Runs(s, acts) && c < MAX_CONSUMERS
    requires Registered(After(s, acts).parties[c])
    ensures var t := After(s, acts);
      var p := t.parties[c];
      && 1 <= p.start <= p.sequence <= t.next + 1 <= p.sequence + RING_SIZE
      && GivenExactly(t.log, p.start, p.sequence, p.delivered)
  {
    InitialSafe(s);
    RunKeepsSafe(s, acts);
    RunRefines(s, acts);
    assert forall d :: 0 <= d < MAX_CONSUMERS ==> BoardOf(s).readers[d].None?;
    HistoryKeepsExact(BoardOf(s), EventsOf(s, acts));
    var t := After(s, acts);
    assert PartyOk(t.parties[c], t.log, t.next, t.cachedMin, t.width);
    assert BoardOf(t).readers[c] == Some(Reader(t.parties[c].start, t.parties[c].sequence, t.parties[c].delivered));
  }

  /** In no reachable state is the producer part-way through writing a slot while a
      consumer is part-way through copying it; the copy so far is of one message. */
  lemma NoTornRead<W>(s: State<W>, acts: seq<Action<W>>, c: nat)
    requires Initial(s) && Runs(s, acts) && c < MAX_CONSUMERS
    requires After(s, acts).parties[c].pc.Copying?
    ensures CopiesCleanly(After(s, acts), c)
  {
    InitialSafe(s);
    RunKeepsSafe(s, acts);
    CopiedSlotIsStable(After(s, acts), c);
  }

  /** When a slot is tested the answer is exact at that instant: not ready means the
      consumer has read everything committed. */
  lemma EmptyIsExact<W>(s: State<W>, acts: seq<Action<W>>, c: nat)
    requires Initial(s) && Runs(s, acts) && Enabled(After(s, acts), TestSlot(c))
    ensures var t := After(s, acts);
      Apply(t, TestSlot(c)).parties[c].pc.Resting? <==> t.parties[c].sequence > |t.log|
  {
    InitialSafe(s);
    RunKeepsSafe(s, acts);
    TestFindsExactly(After(s, acts), c);
  }

  // ---------- the scan ----------

  predicate InScan<W>(s: State<W>) {
    s.producer.Scanning? || s.producer.ScanningSequence?
  }

  lemma CursorStep<W>(s: State<W>, a: Action<W>, c: nat)
    requires Safe(s) && Enabled(s, a) && c < MAX_CONSUMERS && Registered(s.parties[c])
    ensures s.parties[c].sequence <= Apply(s, a).parties[c].sequence
  {
    assert PartyOk(s.parties[c], s.log, s.next, s.cachedMin, s.width);
  }

  /** Consumer c is registered in every state of the run, the first and last included. */
  predicate StaysRegistered<W>(s: State<W>, acts: seq<Action<W>>, c: nat)
    requires Runs(s, acts)
    decreases |acts|
  {
    && c < |After(s, acts).parties| && Registered(After(s, acts).parties[c])
    && (acts != [] ==> StaysRegistered(s, acts[..|acts| - 1], c))
  }

  lemma {:induction false} CursorsOnlyGrow<W>(s: State<W>, acts: seq<Action<W>>, c: nat)
    requires Safe(s) && Runs(s, acts) && c < MAX_CONSUMERS && StaysRegistered(s, acts, c)
    ensures Sized(After(s, acts)) && s.parties[c].sequence <= After(s, acts).parties[c].sequence
    decreases |acts|
  {
    if acts != [] {
      var front := acts[..|acts| - 1];
      RunKeepsSafe(s, front);
      CursorsOnlyGrow(s, front, c);
      CursorStep(After(s, front), acts[|acts| - 1], c);
    }
  }

  /** A minimum that a scan took from somebody is a lower bound, when the scan ends and
      in every later state, on each consumer that stays registered: `before` leads to
      the end of the scan, `later` is anything that follows. */
  lemma ScanBoundsForever<W>(s: State<W>, before: seq<Action<W>>, later: seq<Action<W>>, c: nat)
    requires Initial(s) && Runs(s, before) && c < MAX_CONSUMERS
    requires Enabled(After(s, before), Decide) && After(s, before).producer.min != U64_MAX
    requires Runs(After(s, before), later) && StaysRegistered(After(s, before), later, c)
    ensures Sized(After(After(s, before), later))
    ensures After(s, before).producer.min <= After(After(s, before), later).parties[c].sequence
  {
    InitialSafe(s);
    RunKeepsSafe(s, before);
    var t := After(s, before);
    RegisteredAtStart(t, later, c);
    CursorsOnlyGrow(t, later, c);
    ScannedMinimum(t);
  }

  lemma {:induction false} RegisteredAtStart<W>(s: State<W>, acts: seq<Action<W>>, c: nat)
    requires Runs(s, acts) && StaysRegistered(s, acts, c)
    ensures c < |s.parties| && Registered(s.parties[c])
    decreases |acts|
  {
    if acts != [] {
      RegisteredAtStart(s, acts[..|acts| - 1], c);
    }
  }

  lemma PassedUnseen<W>(t: State<W>, c: nat)
    requires Safe(t) && t.producer.Scanning? && t.producer.i == MAX_CONSUMERS && t.producer.min == U64_MAX
    requires c < MAX_CONSUMERS && Registered(t.parties[c])
    ensures
      || (t.overlap.OnlyFront? && t.parties[c].sequence == t.next + 1)
      || (t.overlap.OnlyFirst? && t.next == RING_SIZE - 1
          && forall d :: 0 <= d < MAX_CONSUMERS && d != c ==> !t.parties[d].active)
  {
    assert PassedOk(t, c, U64_MAX);
    assert PartyOk(t.parties[c], t.log, t.next, t.cachedMin, t.width);
  }

  lemma RefusesUnseen<W>(t: State<W>)
    requires Safe(t) && t.producer.Scanning? && t.producer.i == MAX_CONSUMERS && t.producer.min == U64_MAX
    ensures Enabled(t, Decide) && Apply(t, Decide).producer.Ready?
  {
    DistanceTest(t.next, U64_MAX);
  }

  /** A scan that found nobody can only refuse. If somebody is registered at its end
      all the same, that one joined during the scan: at the front, with nothing behind
      it to lose, or as the first consumer ever, alone, with the producer at 1023. */
  lemma ScanOfNobody<W>(s: State<W>, acts: seq<Action<W>>, c: nat)
    requires Initial(s) && Runs(s, acts) && c < MAX_CONSUMERS
    requires After(s, acts).producer.Scanning? && After(s, acts).producer.i == MAX_CONSUMERS
    requires After(s, acts).producer.min == U64_MAX
    requires Sized(After(s, acts)) && Registered(After(s, acts).parties[c])
    ensures var t := After(s, acts);
      || (t.overlap.OnlyFront? && t.parties[c].sequence == t.next + 1)
      || (t.overlap.OnlyFirst? && t.next == RING_SIZE - 1
          && forall d :: 0 <= d < MAX_CONSUMERS && d != c ==> !t.parties[d].active)
    ensures Enabled(After(s, acts), Decide) && Apply(After(s, acts), Decide).producer.Ready?
  {
    InitialSafe(s);
    RunKeepsSafe(s, acts);
    RefusesUnseen(After(s, acts));
    PassedUnseen(After(s, acts), c);
  }

  /** The slowest registered consumer has 1024 committed messages unread. */
  ghost predicate Full<W>(s: State<W>)
    requires Sized(s)
  {
    exists c :: 0 <= c < MAX_CONSUMERS && Registered(s.parties[c]) && Slowest(s, c)
      && s.parties[c].sequence + RING_SIZE == |s.log| + 1
  }

  ghost predicate Slowest<W>(s: State<W>, c: nat)
    requires Sized(s) && c < MAX_CONSUMERS
  {
    forall d :: 0 <= d < MAX_CONSUMERS && Registered(s.parties[d]) ==>
      s.parties[c].sequence <= s.parties[d].sequence
  }

  /** A newcomer is between its CAS and the store of its start, and what still stands in
      its record looks a whole ring behind. */
  predicate StaleRecord<W>(s: State<W>)
    requires Sized(s)
  {
    exists c :: 0 <= c < MAX_CONSUMERS && s.parties[c].pc.Joining?
      && s.parties[c].sequence + RING_SIZE <= s.next + 1
  }

  /** At some instant since the scan that is still on began, the ring was full, or
      a newcomer's record was stale by a ring. */
  ghost predicate Justified<W>(s: State<W>, acts: seq<Action<W>>)
    requires Runs(s, acts)
    decreases |acts|
  {
    var t := After(s, acts);
    && Sized(t) && InScan(t)
    && (Full(t) || StaleRecord(t) || (acts != [] && Justified(s, acts[..|acts| - 1])))
  }

  /** An active consumer that looks a whole ring behind really is the slowest. */
  lemma LaggardIsFull<W>(s: State<W>, c: nat)
    requires Safe(s) && c < MAX_CONSUMERS && s.parties[c].active && InScan(s)
    requires s.parties[c].sequence + RING_SIZE <= s.next + 1
    ensures Full(s) || StaleRecord(s)
  {
    if !s.parties[c].pc.Joining? {
      forall d | 0 <= d < MAX_CONSUMERS && Registered(s.parties[d])
        ensures s.next < s.parties[d].sequence + RING_SIZE
      {
        assert PartyOk(s.parties[d], s.log, s.next, s.cachedMin, s.width);
      }
      assert Slowest(s, c);
    }
  }

  /** A value small enough to refuse has been read, or is about to be read. */
  predicate SmallValueSeen<W>(s: State<W>)
    requires Sized(s)
  {
    && InScan(s)
    && (s.producer.min + RING_SIZE <= s.next + 1
        || (s.producer.ScanningSequence? && s.producer.i < MAX_CONSUMERS
            && s.parties[s.producer.i].sequence + RING_SIZE <= s.next + 1))
  }

  /** Such a value first comes in sight at an instant that justifies it. */
  lemma SmallValueAppears<W>(s: State<W>, a: Action<W>)
    requires Safe(s) && Enabled(s, a) && Safe(Apply(s, a))
    requires SmallValueSeen(Apply(s, a)) && !SmallValueSeen(s)
    ensures Full(Apply(s, a)) || StaleRecord(Apply(s, a))
  {
    var t := Apply(s, a);
    if a.LoadActive? {
      LaggardIsFull(t, t.producer.i);
    }
  }

  lemma {:induction false} ScanIsJustified<W>(s: State<W>, acts: seq<Action<W>>)
    requires Initial(s) && Runs(s, acts) && Sized(After(s, acts)) && SmallValueSeen(After(s, acts))
    ensures Justified(s, acts)
    decreases |acts|
  {
    InitialSafe(s);
    if acts != [] {
      var front := acts[..|acts| - 1];
      RunKeepsSafe(s, front);
      RunKeepsSafe(s, acts);
      if SmallValueSeen(After(s, front)) {
        ScanIsJustified(s, front);
      } else {
        SmallValueAppears(After(s, front), acts[|acts| - 1]);
      }
    }
  }

  lemma RefusalSawSmallValue<W>(s: State<W>)
    requires Safe(s) && Enabled(s, Decide)
    requires Apply(s, Decide).producer.Ready? && s.producer.min != U64_MAX
    ensures SmallValueSeen(s)
  {
    ScannedMinimum(s);
    DecideIs(s);
  }

  /** A rejected publish is justified in time: if the scan read anybody's sequence,
      then at some instant of that call the slowest consumer had exactly 1024 unread
      messages, or a newcomer was between its CAS and its store and its record still held a
      number a ring behind. */
  lemma RejectionIsJustified<W>(s: State<W>, acts: seq<Action<W>>)
    requires Initial(s) && Runs(s, acts) && Enabled(After(s, acts), Decide)
    requires Apply(After(s, acts), Decide).producer.Ready?
    requires After(s, acts).producer.min != U64_MAX
    ensures Justified(s, acts)
  {
    InitialSafe(s);
    RunKeepsSafe(s, acts);
    RefusalSawSmallValue(After(s, acts));
    ScanIsJustified(s, acts);
  }

  // ---------- the first consumer, however late ----------

  lemma UncontestedSlotKeeps<W>(s: State<W>, i: nat)
    requires Safe(s) && 1 <= i <= |s.log| && s.next < RING_SIZE
    ensures s.ring[RingIndex(i)] == Cell(i + 1, s.log[i - 1])
  {
    LastInOf(|s.log|, i);
    if s.producer.Writing? {
      DistinctSlots(i, s.next);
    }
    assert CellOk(s.ring[RingIndex(i)], s.log, RingIndex(i), false);
  }

  /** While nobody has ever joined, and while the first one joins at whatever moment,
      the producer is not past 1023 and nothing has been overwritten. */
  lemma FirstConsumerMissesNothing<W>(s: State<W>, acts: seq<Action<W>>, i: nat)
    requires Initial(s) && Runs(s, acts) && Sized(After(s, acts))
    requires !After(s, acts).everJoined || JoinPending(After(s, acts), First)
    requires 1 <= i <= |After(s, acts).log|
    ensures var t := After(s, acts);
      && t.next < RING_SIZE
      && t.ring[RingIndex(i)] == Cell(i + 1, t.log[i - 1])
  {
    InitialSafe(s);
    RunKeepsSafe(s, acts);
    UncontestedSlotKeeps(After(s, acts), i);
  }

  /** A scan that ends while the first consumer is still joining can only refuse, and
      leaves a cache that is harmless for a start at 1. */
  lemma ScanDuringFirstJoinRefuses<W>(s: State<W>, acts: seq<Action<W>>)
    requires Initial(s) && Runs(s, acts) && Enabled(After(s, acts), Decide)
    requires JoinPending(After(s, acts), First)
    ensures var t := Apply(After(s, acts), Decide);
      t.producer.Ready? && (t.cachedMin == 0 || t.cachedMin == U64_MAX) && t.log == After(s, acts).log
  {
    InitialSafe(s);
    RunKeepsSafe(s, acts);
    var u := After(s, acts);
    var c :| 0 <= c < MAX_CONSUMERS && u.parties[c].pc.Joining? && u.parties[c].pc.kind == First;
    assert Untouched(u, c);
    ScannedMinimum(u);
    DecideIs(u);
  }

  // ---------- bounded calls ----------

  /** Steps of its own that the producer still has before publish returns. */
  function ProducerRank<W>(s: State<W>): int {
    match s.producer
    case Ready => 0
    case Scanning(_, i, _) => 2 * (MAX_CONSUMERS - i) + s.width + 2
    case ScanningSequence(_, i, _) => 2 * (MAX_CONSUMERS - i) + s.width + 1
    case Writing(_, j) => s.width - j + 1
  }

  predicate IsProducerStep<W>(a: Action<W>) {
    a.Begin? || a.LoadActive? || a.LoadSequence? || a.Decide? || a.WriteWord? || a.Commit?
  }

  /** The next step of a call under way can always be taken, brings the call nearer
      its end, and is never set back by anybody else. */
  lemma ProducerIsWaitFree<W>(s: State<W>) returns (a: Action<W>)
    requires Safe(s) && !s.producer.Ready?
    ensures ProducerRank(s) > 0
    ensures IsProducerStep(a) && Enabled(s, a) && ProducerRank(Apply(s, a)) < ProducerRank(s)
    ensures forall b :: Enabled(s, b) && !IsProducerStep(b) ==> ProducerRank(Apply(s, b)) == ProducerRank(s)
  {
    a := match s.producer {
      case Scanning(_, i, _) => if i < MAX_CONSUMERS then LoadActive else Decide
      case ScanningSequence(_, _, _) => LoadSequence
      case Writing(_, j) => if j < s.width then WriteWord else Commit
      case Ready => Commit
    };
  }

  function ProducerSteps<W>(acts: seq<Action<W>>): nat {
    if acts == [] then 0
    else ProducerSteps(acts[..|acts| - 1]) + (if IsProducerStep(acts[|acts| - 1]) then 1 else 0)
  }

  lemma RankStep<W>(s: State<W>, a: Action<W>)
    requires Safe(s) && Enabled(s, a) && !s.producer.Ready?
    ensures ProducerRank(Apply(s, a)) + (if IsProducerStep(a) then 1 else 0) <= ProducerRank(s)
  {
  }

  lemma RankBound<W>(s: State<W>)
    requires Safe(s)
    ensures 0 <= ProducerRank(s) <= 130 + s.width
  {
  }

  /** The producer is inside publish in every state but possibly the last. */
  predicate WithinOneCall<W>(s: State<W>, acts: seq<Action<W>>)
    requires Runs(s, acts)
    decreases |acts|
  {
    acts != [] ==>
      var front := acts[..|acts| - 1];
      !After(s, front).producer.Ready? && WithinOneCall(s, front)
  }

  /** As long as one publish lasts, the producer takes no more than 130 + width further
      steps, however the consumers' steps are mixed in. */
  lemma {:induction false} PublishIsBounded<W>(s: State<W>, acts: seq<Action<W>>)
    requires Safe(s) && Runs(s, acts) && WithinOneCall(s, acts)
    ensures Safe(After(s, acts))
    ensures ProducerSteps(acts) + ProducerRank(After(s, acts)) <= ProducerRank(s)
    ensures ProducerSteps(acts) <= 130 + s.width
    decreases |acts|
  {
    RankBound(s);
    RunKeepsSafe(s, acts);
    RankBound(After(s, acts));
    if acts != [] {
      var front := acts[..|acts| - 1];
      PublishIsBounded(s, front);
      RankStep(After(s, front), acts[|acts| - 1]);
    }
  }

  function ReaderRank<W>(p: Party<W>, width: nat): int {
    match p.pc
    case Resting => 0
    case Joining(_, _) => 1
    case SawActive => width + 3
    case SawSequence(_) => width + 2
    case Copying(_, buffer) => width - |buffer| + 1
  }

  predicate IsStepOf<W>(a: Action<W>, c: nat) {
    match a
    case JoinCas(d, _, _) => d == c
    case JoinSet(d) => d == c
    case Quit(d) => d == c
    case CheckActive(d) => d == c
    case LoadOwn(d) => d == c
    case TestSlot(d) => d == c
    case CopyWord(d) => d == c
    case Finish(d) => d == c
    case _ => false
  }

  lemma OthersLeaveReaderAlone<W>(s: State<W>, c: nat)
    requires Sized(s) && c < MAX_CONSUMERS
    ensures forall b :: Enabled(s, b) && !IsStepOf(b, c) ==> Apply(s, b).parties[c] == s.parties[c]
  {
  }

  lemma NextReaderStep<W>(s: State<W>, c: nat) returns (a: Action<W>)
    requires Safe(s) && c < MAX_CONSUMERS && !s.parties[c].pc.Resting?
    ensures ReaderRank(s.parties[c], s.width) > 0
    ensures IsStepOf(a, c) && Enabled(s, a)
    ensures ReaderRank(Apply(s, a).parties[c], s.width) < ReaderRank(s.parties[c], s.width)
  {
    assert PartyOk(s.parties[c], s.log, s.next, s.cachedMin, s.width);
    a := match s.parties[c].pc {
      case Joining(_, _) => JoinSet(c)
      case SawActive => LoadOwn(c)
      case SawSequence(_) => TestSlot(c)
      case Copying(_, buffer) => if |buffer| < s.width then CopyWord(c) else Finish(c)
      case Resting => Quit(c)
    };
  }

  /** The next step of a call under way can always be taken, brings the call nearer its
      end, and nobody else's step touches the consumer's record or sets the call back. */
  lemma ReaderIsWaitFree<W>(s: State<W>, c: nat) returns (a: Action<W>)
    requires Safe(s) && c < MAX_CONSUMERS && !s.parties[c].pc.Resting?
    ensures ReaderRank(s.parties[c], s.width) > 0
    ensures IsStepOf(a, c) && Enabled(s, a)
    ensures ReaderRank(Apply(s, a).parties[c], s.width) < ReaderRank(s.parties[c], s.width)
    ensures forall b :: Enabled(s, b) && !IsStepOf(b, c) ==> Apply(s, b).parties[c] == s.parties[c]
  {
    a := NextReaderStep(s, c);
    OthersLeaveReaderAlone(s, c);
  }

  /** Between calls nothing holds a consumer up, wherever the producer and the others
      stand: it may consume or, if active, leave, which frees its record alone. */
  lemma RestingReaderIsFree<W>(s: State<W>, c: nat)
    requires Safe(s) && c < MAX_CONSUMERS && s.parties[c].pc.Resting?
    ensures Enabled(s, CheckActive(c))
    ensures s.parties[c].active ==>
      && Enabled(s, Quit(c))
      && Apply(s, Quit(c)) == s.(parties := s.parties[c := s.parties[c].(active := false)])
  {
  }

  /** Nor does the producer hold up a newcomer who is the first one ever, at 1, or joins
      at the front; another start inside the window waits only for the call under way. */
  lemma NewcomerIsFree<W>(s: State<W>, c: nat, from: nat)
    requires Safe(s) && c < MAX_CONSUMERS && !s.parties[c].active
    ensures s.overlap.OnlyFirst? && !s.everJoined ==> Enabled(s, JoinCas(c, 1, First))
    ensures s.overlap.OnlyFront? ==> Enabled(s, JoinCas(c, s.next + 1, Front))
    ensures s.producer.Ready? && from <= U64_MAX && !JoinPending(s, First) ==>
      (Enabled(s, JoinCas(c, from, Between)) <==> RegistrationContract(from, s.next, s.cachedMin))
  {
    assert PartyOk(s.parties[c], s.log, s.next, s.cachedMin, s.width);
  }
}
