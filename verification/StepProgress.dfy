/** No deadlock, at every shared access: from any reachable state in which somebody is
    registered and something is left to do, a bounded continuation publishes or
    delivers a message. */
module StepProgress {
  import opened Arithmetic64
  import opened RingLayout
  import opened StepMachine
  import opened StepTheorems

  lemma Extend<W>(s: State<W>, acts: seq<Action<W>>, a: Action<W>)
    requires Runs(s, acts) && Enabled(After(s, acts), a)
    ensures Runs(s, acts + [a]) && After(s, acts + [a]) == Apply(After(s, acts), a)
  {
    var acts' := acts + [a];
    assert acts'[..|acts'| - 1] == acts;
  }

  /** The continuation ends with a message published or delivered. */
  predicate EndsWithMessage<W>(acts: seq<Action<W>>) {
    acts != [] && (acts[|acts| - 1].Commit? || acts[|acts| - 1].Finish?)
  }

  // ---------- a reader with something to read ----------

  predicate HasUnread<W>(s: State<W>, c: nat)
    requires Sized(s)
  {
    c < MAX_CONSUMERS && Registered(s.parties[c]) && s.parties[c].sequence <= |s.log|
  }

  /** Steps of its own until the reader has its next message. */
  function ReadRank<W>(p: Party<W>, width: nat): int {
    if p.pc.Resting? then width + 4 else ReaderRank(p, width)
  }

  lemma ReadStep<W>(s: State<W>, c: nat) returns (a: Action<W>)
    requires Safe(s) && HasUnread(s, c)
    ensures Enabled(s, a) && Safe(Apply(s, a))
    ensures 0 < ReadRank(s.parties[c], s.width) <= s.width + 4
    ensures a == Finish(c) ||
      (HasUnread(Apply(s, a), c) && ReadRank(Apply(s, a).parties[c], s.width) < ReadRank(s.parties[c], s.width))
  {
    assert PartyOk(s.parties[c], s.log, s.next, s.cachedMin, s.width);
    if s.parties[c].pc.Resting? {
      a := CheckActive(c);
    } else {
      a := NextReaderStep(s, c);
      if a.TestSlot? {
        TestFindsExactly(s, c);
      }
    }
    StepKeepsSafe(s, a);
  }

  lemma ReadOne<W>(s: State<W>, before: seq<Action<W>>, c: nat) returns (acts: seq<Action<W>>)
    requires Runs(s, before) && Safe(After(s, before)) && HasUnread(After(s, before), c)
    ensures Runs(s, acts) && EndsWithMessage(acts)
    ensures |acts| <= |before| + After(s, before).width + 4
  {
    acts := before;
    var t := After(s, before);
    var width := t.width;
    while true
      invariant Runs(s, acts) && t == After(s, acts) && t.width == width && Safe(t) && HasUnread(t, c)
      invariant 0 <= ReadRank(t.parties[c], width) <= width + 4
      invariant |acts| + ReadRank(t.parties[c], width) <= |before| + width + 4
      decreases ReadRank(t.parties[c], width)
    {
      var a := ReadStep(t, c);
      Extend(s, acts, a);
      acts, t := acts + [a], Apply(t, a);
      if a.Finish? {
        return;
      }
    }
  }

  // ---------- the producer, when everybody has read everything ----------

  /** Nobody is joining, and every position is the front. */
  ghost predicate CaughtUp<W>(s: State<W>)
    requires Sized(s)
  {
    && (forall c :: 0 <= c < MAX_CONSUMERS ==> !s.parties[c].pc.Joining?)
    && (forall c :: 0 <= c < MAX_CONSUMERS && s.parties[c].active ==> s.parties[c].sequence > |s.log|)
    && (exists c :: 0 <= c < MAX_CONSUMERS && s.parties[c].active)
  }

  /** What the scan has seen so far is the front, or nobody. */
  ghost predicate SeesFront<W>(s: State<W>, i: nat, min: nat)
    requires Sized(s) && i <= MAX_CONSUMERS
  {
    && (min == U64_MAX || min == s.next + 1)
    && forall d :: 0 <= d < i && s.parties[d].active ==> min == s.next + 1
  }

  ghost predicate WillAccept<W>(s: State<W>)
    requires Sized(s)
  {
    CaughtUp(s) &&
    match s.producer
    case Ready => false
    case Scanning(_, i, min) => i <= MAX_CONSUMERS && SeesFront(s, i, min)
    case ScanningSequence(_, i, min) => i < MAX_CONSUMERS && SeesFront(s, i, min) && s.parties[i].active
    case Writing(_, _) => true
  }

  lemma AcceptDecide<W>(s: State<W>)
    requires Safe(s) && WillAccept(s) && Enabled(s, Decide)
    ensures WillAccept(Apply(s, Decide))
  {
    ScannedMinimum(s);
    DecideIs(s);
  }

  lemma AcceptLoadActive<W>(s: State<W>)
    requires Safe(s) && WillAccept(s) && Enabled(s, LoadActive)
    ensures WillAccept(Apply(s, LoadActive))
  {
  }

  lemma AcceptLoadSequence<W>(s: State<W>)
    requires Safe(s) && WillAccept(s) && Enabled(s, LoadSequence)
    ensures WillAccept(Apply(s, LoadSequence))
  {
    assert PartyOk(s.parties[s.producer.i], s.log, s.next, s.cachedMin, s.width);
  }

  lemma AcceptStep<W>(s: State<W>, a: Action<W>)
    requires Safe(s) && WillAccept(s) && Enabled(s, a) && IsProducerStep(a)
    ensures a.Commit? || WillAccept(Apply(s, a))
  {
    match a
    case Decide => AcceptDecide(s);
    case LoadActive => AcceptLoadActive(s);
    case LoadSequence => AcceptLoadSequence(s);
    case _ =>
  }

  lemma BeginAccepts<W>(s: State<W>, item: seq<W>)
    requires Safe(s) && CaughtUp(s) && Enabled(s, Begin(item))
    ensures WillAccept(Apply(s, Begin(item)))
  {
    BeginIs(s, item);
  }

  lemma ProducerStepKeeps<W>(s: State<W>, a: Action<W>)
    requires Enabled(s, a) && IsProducerStep(a)
    ensures Apply(s, a).parties == s.parties
    ensures !a.Commit? ==> Apply(s, a).log == s.log
  {
  }

  ghost predicate Refused<W>(s: State<W>, t: State<W>) {
    t.producer.Ready? && t.log == s.log && t.parties == s.parties && t.width == s.width
  }

  lemma NextPublishStep<W>(s: State<W>) returns (a: Action<W>)
    requires Safe(s) && !s.producer.Ready?
    ensures Enabled(s, a) && Safe(Apply(s, a)) && Apply(s, a).parties == s.parties
    ensures 0 <= ProducerRank(Apply(s, a)) < ProducerRank(s)
    ensures a.Commit? || (Apply(s, a).log == s.log && (WillAccept(s) ==> WillAccept(Apply(s, a))))
  {
    a := ProducerIsWaitFree(s);
    StepKeepsSafe(s, a);
    RankBound(Apply(s, a));
    ProducerStepKeeps(s, a);
    if WillAccept(s) {
      AcceptStep(s, a);
    }
  }

  /** The publish under way comes to its end: with a message out, or refused; not
      refused when everybody was at the front all along. */
  lemma FinishPublish<W>(s: State<W>, before: seq<Action<W>>) returns (acts: seq<Action<W>>)
    requires Runs(s, before) && Safe(After(s, before)) && !After(s, before).producer.Ready?
    ensures Runs(s, acts) && Safe(After(s, acts)) && |acts| <= |before| + 130 + After(s, before).width
    ensures EndsWithMessage(acts) || Refused(After(s, before), After(s, acts))
    ensures WillAccept(After(s, before)) ==> EndsWithMessage(acts)
  {
    acts := before;
    var u, t := After(s, before), After(s, before);
    RankBound(u);
    while !t.producer.Ready?
      invariant Runs(s, acts) && t == After(s, acts) && Safe(t)
      invariant t.log == u.log && t.parties == u.parties && t.width == u.width
      invariant WillAccept(u) ==> WillAccept(t)
      invariant 0 <= ProducerRank(t) && |acts| + ProducerRank(t) <= |before| + ProducerRank(u)
      decreases ProducerRank(t)
    {
      var a := NextPublishStep(t);
      Extend(s, acts, a);
      acts, t := acts + [a], Apply(t, a);
      if a.Commit? {
        return;
      }
    }
  }

  /** t is s with the registrations of records below i stored. */
  ghost predicate JoinsStored<W>(s: State<W>, t: State<W>, i: nat)
    requires Sized(s) && Sized(t)
  {
    && t.log == s.log && t.width == s.width && t.next == s.next
    && (forall c :: 0 <= c < MAX_CONSUMERS ==> t.parties[c].active == s.parties[c].active)
    && (forall c :: 0 <= c < MAX_CONSUMERS && c < i ==> !t.parties[c].pc.Joining?)
    && forall c :: 0 <= c < MAX_CONSUMERS && Registered(s.parties[c]) ==> t.parties[c] == s.parties[c]
  }

  lemma StoreOneJoin<W>(s: State<W>, t: State<W>, i: nat)
    requires Sized(s) && Safe(t) && i < MAX_CONSUMERS && JoinsStored(s, t, i) && t.parties[i].pc.Joining?
    ensures Enabled(t, JoinSet(i)) && Safe(Apply(t, JoinSet(i)))
    ensures JoinsStored(s, Apply(t, JoinSet(i)), i + 1)
  {
    StepKeepsSafe(t, JoinSet(i));
  }

  lemma JoinOne<W>(s: State<W>, before: seq<Action<W>>, i: nat) returns (acts: seq<Action<W>>)
    requires Sized(s) && Runs(s, before) && Safe(After(s, before)) && i < MAX_CONSUMERS
    requires JoinsStored(s, After(s, before), i)
    ensures Runs(s, acts) && |acts| <= |before| + 1 && Safe(After(s, acts))
    ensures JoinsStored(s, After(s, acts), i + 1)
  {
    acts := before;
    var t := After(s, before);
    if t.parties[i].pc.Joining? {
      StoreOneJoin(s, t, i);
      Extend(s, before, JoinSet(i));
      acts := before + [JoinSet(i)];
    }
  }

  /** Every registration under way stores its start. */
  lemma FinishJoins<W>(s: State<W>) returns (acts: seq<Action<W>>)
    requires Safe(s)
    ensures Runs(s, acts) && |acts| <= MAX_CONSUMERS && Safe(After(s, acts))
    ensures JoinsStored(s, After(s, acts), MAX_CONSUMERS)
  {
    acts := [];
    var i := 0;
    while i < MAX_CONSUMERS
      invariant 0 <= i <= MAX_CONSUMERS && |acts| <= i
      invariant Runs(s, acts) && Safe(After(s, acts)) && JoinsStored(s, After(s, acts), i)
    {
      acts := JoinOne(s, acts, i);
      i := i + 1;
    }
  }

  /** Publish, with everybody at the front and nobody joining. */
  lemma PublishNow<W>(s: State<W>, before: seq<Action<W>>, item: seq<W>) returns (acts: seq<Action<W>>)
    requires Runs(s, before) && Safe(After(s, before)) && CaughtUp(After(s, before))
    requires After(s, before).producer.Ready? && |item| == After(s, before).width
    requires |After(s, before).log| < U64_MAX - 2
    ensures Runs(s, acts) && EndsWithMessage(acts)
    ensures |acts| <= |before| + 131 + |item|
  {
    var t := After(s, before);
    Extend(s, before, Begin(item));
    StepKeepsSafe(t, Begin(item));
    BeginAccepts(t, item);
    acts := FinishPublish(s, before + [Begin(item)]);
  }

  /** Somebody is registered or about to be, and a message is unread or still to come. */
  ghost predicate WorkLeft<W>(s: State<W>, total: nat)
    requires Sized(s)
  {
    && (exists c :: 0 <= c < MAX_CONSUMERS && s.parties[c].active)
    && (|s.log| < total || exists c :: HasUnread(s, c))
  }

  lemma CatchesUp<W>(s: State<W>)
    requires Safe(s) && (forall c :: 0 <= c < MAX_CONSUMERS ==> !s.parties[c].pc.Joining?)
    requires (exists c :: 0 <= c < MAX_CONSUMERS && s.parties[c].active) && !exists c :: HasUnread(s, c)
    ensures CaughtUp(s)
  {
    forall c | 0 <= c < MAX_CONSUMERS && s.parties[c].active ensures s.parties[c].sequence > |s.log| {
      assert !HasUnread(s, c);
    }
  }

  /** From every state that satisfies the invariant, wherever producer and consumers
      stand inside their calls: while work is left, at most 326 + 2 * width further
      steps suffice to publish or deliver a message. */
  lemma NeverStuck<W>(s: State<W>, item: seq<W>, total: nat) returns (acts: seq<Action<W>>)
    requires Safe(s) && WorkLeft(s, total) && total <= U64_MAX - 2 && |item| == s.width
    ensures Runs(s, acts) && EndsWithMessage(acts) && |acts| <= 326 + 2 * s.width
  {
    acts := FinishJoins(s);
    var t := After(s, acts);
    if c :| HasUnread(t, c) {
      acts := ReadOne(s, acts, c);
      return;
    }
    assert forall c :: HasUnread(s, c) ==> HasUnread(t, c);
    assert exists c :: 0 <= c < MAX_CONSUMERS && t.parties[c].active by {
      var c :| 0 <= c < MAX_CONSUMERS && s.parties[c].active;
      assert t.parties[c].active;
    }
    CatchesUp(t);
    if !t.producer.Ready? {
      acts := FinishPublish(s, acts);
      if EndsWithMessage(acts) {
        return;
      }
    }
    acts := PublishNow(s, acts, item);
  }
}
