/** The two views agree: a call whose steps nobody interrupts does to the step
    machine's memory exactly what the one-call view says. */
module SoloRuns {
  import opened Arithmetic64
  import opened RingLayout
  import opened QueueSpec
  import opened StepMachine
  import opened StepTheorems

  /** The consumer records as the scan reads them. */
  ghost predicate SameRecords<W>(ps: seq<Party<W>>, cs: seq<ConsumerSlot>) {
    && |ps| == |cs| == MAX_CONSUMERS
    && forall c :: 0 <= c < MAX_CONSUMERS ==> ps[c].active == cs[c].active && ps[c].sequence == cs[c].sequence
  }

  /** Same memory, a slot's words being its message. */
  ghost predicate Matches<W>(s: State<W>, q: QueueState<seq<W>>) {
    && Sized(s) && WellSized(q)
    && s.next == q.next && s.cachedMin == q.cachedMin
    && (forall i :: 0 <= i < RING_SIZE ==> s.ring[i] == Cell(q.ring[i].sequence, q.ring[i].data))
    && SameRecords(s.parties, q.consumers)
  }

  /** Whose steps: publish's, or those of one consumer's consume. */
  datatype Actor = Producer | Owner(c: nat)

  predicate StepBy<W>(who: Actor, a: Action<W>) {
    if who.Producer? then IsProducerStep(a)
    else IsStepOf(a, who.c) && !a.JoinCas? && !a.JoinSet? && !a.Quit?
  }

  predicate StepsBy<W>(who: Actor, acts: seq<Action<W>>) {
    forall k :: 0 <= k < |acts| ==> StepBy(who, acts[k])
  }

  /** From s, steps of one actor alone lead to t. */
  ghost predicate Alone<W(!new)>(who: Actor, s: State<W>, t: State<W>) {
    exists acts: seq<Action<W>> :: StepsBy(who, acts) && Runs(s, acts) && After(s, acts) == t
  }

  lemma AloneStart<W(!new)>(who: Actor, s: State<W>)
    ensures Alone(who, s, s)
  {
    var acts: seq<Action<W>> := [];
    assert StepsBy(who, acts) && Runs(s, acts) && After(s, acts) == s;
  }

  lemma AloneStep<W(!new)>(who: Actor, s: State<W>, t: State<W>, a: Action<W>)
    requires Alone(who, s, t) && Enabled(t, a) && StepBy(who, a)
    ensures Alone(who, s, Apply(t, a))
  {
    var acts: seq<Action<W>> :| StepsBy(who, acts) && Runs(s, acts) && After(s, acts) == t;
    var acts' := acts + [a];
    assert acts'[..|acts|] == acts;
    assert StepsBy(who, acts') && Runs(s, acts') && After(s, acts') == Apply(t, a);
  }

  /** The actor's call leaves everybody else's part of the memory alone. */
  ghost predicate OthersSame<W>(who: Actor, s: State<W>, t: State<W>) {
    && t.width == s.width && t.overlap == s.overlap && t.everJoined == s.everJoined
    && match who
      case Producer => t.parties == s.parties
      case Owner(c) =>
        && t == s.(parties := t.parties) && c < |s.parties| == |t.parties|
        && t.parties[c].start == s.parties[c].start && t.parties[c].active == s.parties[c].active
        && forall d :: 0 <= d < |s.parties| && d != c ==> t.parties[d] == s.parties[d]
  }

  lemma OneStepLeavesOthers<W>(who: Actor, s: State<W>, a: Action<W>)
    requires Enabled(s, a) && StepBy(who, a)
    ensures OthersSame(who, s, Apply(s, a))
  {
  }

  lemma {:induction false} StepsLeaveOthers<W>(who: Actor, s: State<W>, acts: seq<Action<W>>)
    requires StepsBy(who, acts) && Runs(s, acts) && Sized(s) && (who.Owner? ==> who.c < MAX_CONSUMERS)
    ensures OthersSame(who, s, After(s, acts))
    decreases |acts|
  {
    if acts != [] {
      var front := acts[..|acts| - 1];
      StepsLeaveOthers(who, s, front);
      OneStepLeavesOthers(who, After(s, front), acts[|acts| - 1]);
    }
  }

  lemma AloneLeavesOthers<W(!new)>(who: Actor, s: State<W>, t: State<W>)
    requires Alone(who, s, t) && Sized(s) && (who.Owner? ==> who.c < MAX_CONSUMERS)
    ensures OthersSame(who, s, t)
  {
    var acts: seq<Action<W>> :| StepsBy(who, acts) && Runs(s, acts) && After(s, acts) == t;
    StepsLeaveOthers(who, s, acts);
  }

  lemma ScanOne<W(!new)>(s0: State<W>, s: State<W>, item: seq<W>, i: nat, m: u64)
    requires Sized(s) && i < MAX_CONSUMERS && s.producer == Scanning(item, i, m)
    requires Alone(Producer, s0, s)
    ensures var p := s.parties[i];
      Alone(Producer, s0, s.(producer := Scanning(item, i + 1, if p.active && p.sequence < m then p.sequence else m)))
  {
    AloneStep(Producer, s0, s, LoadActive);
    if s.parties[i].active {
      var t := s.(producer := ScanningSequence(item, i, m));
      AloneStep(Producer, s0, t, LoadSequence);
    }
  }

  /** The records from i on, as the rest of a scan reads them. */
  ghost predicate SameFrom<W>(ps: seq<Party<W>>, cs: seq<ConsumerSlot>, i: nat) {
    && |ps| == |cs| == MAX_CONSUMERS
    && forall c :: i <= c < MAX_CONSUMERS ==> ps[c].active == cs[c].active && ps[c].sequence == cs[c].sequence
  }

  /** The rest of a scan, undisturbed, computes ScanMin. */
  lemma {:induction false} SoloScan<W(!new)>(
      s0: State<W>, s: State<W>, item: seq<W>, i: nat, cs: seq<ConsumerSlot>)
    requires Sized(s) && SameFrom(s.parties, cs, i) && i <= MAX_CONSUMERS
    requires s.producer == Scanning(item, i, ScanMin(cs[..i]))
    requires Alone(Producer, s0, s)
    ensures Alone(Producer, s0, s.(producer := Scanning(item, MAX_CONSUMERS, ScanMin(cs))))
    decreases MAX_CONSUMERS - i
  {
    if i == MAX_CONSUMERS {
      assert cs[..i] == cs;
      assert s.(producer := Scanning(item, MAX_CONSUMERS, ScanMin(cs))) == s;
    } else {
      assert cs[..i + 1][..i] == cs[..i];
      ScanOne(s0, s, item, i, ScanMin(cs[..i]));
      var t := s.(producer := Scanning(item, i + 1, ScanMin(cs[..i + 1])));
      SoloScan(s0, t, item, i + 1, cs);
    }
  }

  function WroteOne<W>(s: State<W>, item: seq<W>, j: nat): State<W>
    requires Sized(s) && j < s.width == |item|
  {
    var i := RingIndex(s.next);
    s.(ring := s.ring[i := s.ring[i].(words := s.ring[i].words[j := item[j]])], producer := Writing(item, j + 1))
  }

  function Written<W>(s: State<W>, item: seq<W>): State<W>
    requires Sized(s)
  {
    s.(ring := s.ring[RingIndex(s.next) := Cell(s.next + 1, item)], producer := Ready, log := s.log + [item])
  }

  lemma WriteOne<W>(s: State<W>, item: seq<W>, j: nat)
    requires Sized(s) && s.producer == Writing(item, j) && j < s.width
    ensures Enabled(s, WriteWord) && Apply(s, WriteWord) == WroteOne(s, item, j)
    ensures Written(WroteOne(s, item, j), item) == Written(s, item)
    ensures s.ring[RingIndex(s.next)].words[..j] == item[..j] ==>
      WroteOne(s, item, j).ring[RingIndex(s.next)].words[..j + 1] == item[..j + 1]
  {
    var i, t := RingIndex(s.next), WroteOne(s, item, j);
    assert t.ring[i := Cell(s.next + 1, item)] == s.ring[i := Cell(s.next + 1, item)];
  }

  lemma CommitOne<W>(s: State<W>, item: seq<W>)
    requires Sized(s) && s.producer == Writing(item, s.width) && s.ring[RingIndex(s.next)].words == item
    ensures Enabled(s, Commit) && Apply(s, Commit) == Written(s, item)
  {
  }

  /** Writing word by word and committing leaves the whole message in the slot. */
  lemma {:induction false} SoloWrite<W(!new)>(s0: State<W>, s: State<W>, item: seq<W>, j: nat)
    requires Sized(s) && s.producer == Writing(item, j) && j <= s.width
    requires s.ring[RingIndex(s.next)].words[..j] == item[..j]
    requires Alone(Producer, s0, s)
    ensures Alone(Producer, s0, Written(s, item))
    decreases s.width - j
  {
    if j == s.width {
      var words := s.ring[RingIndex(s.next)].words;
      assert words == words[..j] && item == item[..j];
      CommitOne(s, item);
      AloneStep(Producer, s0, s, Commit);
    } else {
      WriteOne(s, item, j);
      AloneStep(Producer, s0, s, WriteWord);
      SoloWrite(s0, WroteOne(s, item, j), item, j + 1);
    }
  }

  /** The state in which publish has made up its mind. */
  function Verdict<W>(s: State<W>, q: QueueState<seq<W>>, item: seq<W>): State<W>
    requires WellSized(q)
  {
    if Publish(q, item).1
    then s.(cachedMin := RefreshedMin(q), next := s.next + 1, producer := Writing(item, 0))
    else s.(cachedMin := RefreshedMin(q), producer := Ready)
  }

  /** The state after the decision on a scanned minimum m. */
  function Decided<W>(s: State<W>, item: seq<W>, m: u64): State<W>
    requires s.next < U64_MAX
  {
    if SeemsFull(s.next + 1, m) then s.(cachedMin := m, producer := Ready)
    else s.(cachedMin := m, next := s.next + 1, producer := Writing(item, 0))
  }

  lemma SoloDecide<W(!new)>(s0: State<W>, s: State<W>, item: seq<W>, m: u64)
    requires Sized(s) && s.producer == Scanning(item, MAX_CONSUMERS, m) && s.next < U64_MAX
    requires Alone(Producer, s0, s)
    ensures Alone(Producer, s0, Decided(s, item, m))
  {
    AloneStep(Producer, s0, s, Decide);
  }

  lemma BeginOne<W(!new)>(s: State<W>, item: seq<W>)
    requires Enabled(s, Begin(item))
    ensures Apply(s, Begin(item)) ==
      if SeemsFull(s.next + 1, s.cachedMin) then s.(producer := Scanning(item, 0, U64_MAX))
      else s.(next := s.next + 1, producer := Writing(item, 0))
  {
  }

  lemma SoloBegin<W(!new)>(s: State<W>, item: seq<W>)
    requires Enabled(s, Begin(item))
    ensures Alone(Producer, s, Apply(s, Begin(item)))
  {
    AloneStart(Producer, s);
    AloneStep(Producer, s, s, Begin(item));
  }

  lemma SoloSlowPath<W(!new)>(s: State<W>, item: seq<W>, cs: seq<ConsumerSlot>)
    requires Enabled(s, Begin(item)) && SeemsFull(s.next + 1, s.cachedMin)
    requires SameRecords(s.parties, cs)
    ensures Alone(Producer, s, s.(producer := Scanning(item, MAX_CONSUMERS, ScanMin(cs))))
  {
    SoloBegin(s, item);
    BeginOne(s, item);
    assert cs[..0] == [];
    SoloScan(s, s.(producer := Scanning(item, 0, U64_MAX)), item, 0, cs);
  }

  lemma VerdictBySlowPath<W>(s: State<W>, q: QueueState<seq<W>>, item: seq<W>)
    requires Matches(s, q) && q.next < U64_MAX - 2 && SeemsFull(s.next + 1, s.cachedMin)
    ensures var m := ScanMin(q.consumers);
      Verdict(s, q, item) == Decided(s.(producer := Scanning(item, MAX_CONSUMERS, m)), item, m)
  {
    assert Add64(q.next, 1) == s.next + 1;
  }

  lemma VerdictByFastPath<W>(s: State<W>, q: QueueState<seq<W>>, item: seq<W>)
    requires Matches(s, q) && q.next < U64_MAX - 2 && !SeemsFull(s.next + 1, s.cachedMin)
    ensures Verdict(s, q, item) == s.(next := s.next + 1, producer := Writing(item, 0))
  {
    assert Add64(q.next, 1) == s.next + 1;
  }

  lemma SoloVerdict<W(!new)>(s: State<W>, q: QueueState<seq<W>>, item: seq<W>)
    requires Matches(s, q) && Enabled(s, Begin(item))
    ensures Alone(Producer, s, Verdict(s, q, item))
  {
    if SeemsFull(s.next + 1, s.cachedMin) {
      var m := ScanMin(q.consumers);
      SoloSlowPath(s, item, q.consumers);
      var t := s.(producer := Scanning(item, MAX_CONSUMERS, m));
      SoloDecide(s, t, item, m);
      VerdictBySlowPath(s, q, item);
    } else {
      SoloBegin(s, item);
      BeginOne(s, item);
      VerdictByFastPath(s, q, item);
    }
  }

  lemma StoreMatches<W>(s: State<W>, q: QueueState<seq<W>>, item: seq<W>)
    requires Matches(s, q) && Publish(q, item).1 && q.next < U64_MAX - 2 && |item| == s.width
    ensures Matches(Written(Verdict(s, q, item), item), Publish(q, item).0)
  {
  }

  /** publish, run step by step without interruption. */
  lemma SoloPublish<W(!new)>(s: State<W>, q: QueueState<seq<W>>, item: seq<W>) returns (t: State<W>)
    requires Matches(s, q) && Enabled(s, Begin(item))
    ensures Alone(Producer, s, t) && t.producer.Ready?
    ensures Matches(t, Publish(q, item).0)
    ensures t.log == if Publish(q, item).1 then s.log + [item] else s.log
  {
    SoloVerdict(s, q, item);
    var v := Verdict(s, q, item);
    if Publish(q, item).1 {
      SoloWrite(s, v, item, 0);
      StoreMatches(s, q, item);
      t := Written(v, item);
    } else {
      t := v;
    }
  }

  function CopiedOne<W>(s: State<W>, c: nat, x: nat, j: nat): State<W>
    requires Sized(s) && c < MAX_CONSUMERS && j < s.width
  {
    SetParty(s, c, s.parties[c].(pc := Copying(x, s.ring[RingIndex(x)].words[..j + 1])))
  }

  function Copied<W>(s: State<W>, c: nat, x: nat): State<W>
    requires Sized(s) && c < MAX_CONSUMERS
  {
    var p := s.parties[c];
    SetParty(s, c, p.(
      sequence := x + 1,
      pc := Resting,
      delivered := p.delivered + [s.ring[RingIndex(x)].words]))
  }

  lemma CopyOne<W>(s: State<W>, c: nat, x: nat, j: nat)
    requires Sized(s) && c < MAX_CONSUMERS && j < s.width
    requires s.parties[c].pc == Copying(x, s.ring[RingIndex(x)].words[..j])
    ensures Enabled(s, CopyWord(c)) && Apply(s, CopyWord(c)) == CopiedOne(s, c, x, j)
  {
    var words := s.ring[RingIndex(x)].words;
    assert words[..j + 1] == words[..j] + [words[j]];
  }

  lemma CopiedAgain<W>(s: State<W>, c: nat, x: nat, j: nat)
    requires Sized(s) && c < MAX_CONSUMERS && j < s.width
    ensures Sized(CopiedOne(s, c, x, j)) && Copied(CopiedOne(s, c, x, j), c, x) == Copied(s, c, x)
  {
  }

  lemma FinishOne<W>(s: State<W>, c: nat, x: nat)
    requires Sized(s) && c < MAX_CONSUMERS
    requires s.parties[c].pc == Copying(x, s.ring[RingIndex(x)].words)
    ensures Enabled(s, Finish(c)) && Apply(s, Finish(c)) == Copied(s, c, x)
  {
  }

  /** Copying word by word, undisturbed, yields the slot's message. */
  lemma {:induction false} SoloCopy<W(!new)>(s0: State<W>, s: State<W>, c: nat, x: nat, j: nat)
    requires Sized(s) && c < MAX_CONSUMERS && j <= s.width
    requires s.parties[c].pc == Copying(x, s.ring[RingIndex(x)].words[..j])
    requires Alone(Owner(c), s0, s)
    ensures Alone(Owner(c), s0, Copied(s, c, x))
    decreases s.width - j
  {
    if j == s.width {
      var words := s.ring[RingIndex(x)].words;
      assert words[..j] == words;
      FinishOne(s, c, x);
      AloneStep(Owner(c), s0, s, Finish(c));
    } else {
      CopyOne(s, c, x, j);
      AloneStep(Owner(c), s0, s, CopyWord(c));
      CopiedAgain(s, c, x, j);
      SoloCopy(s0, CopiedOne(s, c, x, j), c, x, j + 1);
    }
  }

  /** The state in which consume has tested the slot. */
  function Tested<W>(s: State<W>, c: nat): State<W>
    requires Sized(s) && c < MAX_CONSUMERS
  {
    var p := s.parties[c];
    var ready := p.active && s.ring[RingIndex(p.sequence)].sequence > p.sequence;
    SetParty(s, c, p.(pc := if ready then Copying(p.sequence, []) else Resting))
  }

  lemma SoloTest<W(!new)>(s: State<W>, c: nat)
    requires Sized(s) && c < MAX_CONSUMERS && s.parties[c].pc.Resting?
    ensures Alone(Owner(c), s, Tested(s, c))
  {
    var p := s.parties[c];
    AloneStart(Owner(c), s);
    AloneStep(Owner(c), s, s, CheckActive(c));
    if p.active {
      var t := SetParty(s, c, p.(pc := SawActive));
      AloneStep(Owner(c), s, t, LoadOwn(c));
      var u := SetParty(s, c, p.(pc := SawSequence(p.sequence)));
      assert Apply(t, LoadOwn(c)) == u;
      AloneStep(Owner(c), s, u, TestSlot(c));
      assert Apply(u, TestSlot(c)) == Tested(s, c);
    }
  }

  lemma TestedMatches<W>(s: State<W>, q: QueueState<seq<W>>, c: nat)
    requires Matches(s, q) && c < MAX_CONSUMERS && s.parties[c].pc.Resting?
    ensures Matches(Tested(s, c), q)
    ensures Tested(s, c).parties[c].pc ==
      if Consume(q, c).1.Some? then Copying(q.consumers[c].sequence, []) else Resting
    ensures Consume(q, c).1.None? ==> Consume(q, c).0 == q
  {
    var i := RingIndex(q.consumers[c].sequence);
    assert s.ring[i] == Cell(q.ring[i].sequence, q.ring[i].data);
  }

  lemma CopiedMatches<W>(s: State<W>, q: QueueState<seq<W>>, c: nat)
    requires Matches(s, q) && c < MAX_CONSUMERS && q.consumers[c].sequence < U64_MAX
    requires Consume(q, c).1.Some?
    ensures Matches(Copied(s, c, q.consumers[c].sequence), Consume(q, c).0)
    ensures s.ring[RingIndex(q.consumers[c].sequence)].words == Consume(q, c).1.value
  {
    var i := RingIndex(q.consumers[c].sequence);
    assert s.ring[i] == Cell(q.ring[i].sequence, q.ring[i].data);
  }

  /** consume, run step by step without interruption. */
  lemma SoloConsume<W(!new)>(s: State<W>, q: QueueState<seq<W>>, c: nat) returns (t: State<W>)
    requires Matches(s, q) && c < MAX_CONSUMERS && s.parties[c].pc.Resting?
    requires q.consumers[c].sequence < U64_MAX
    ensures Alone(Owner(c), s, t) && Sized(t) && t.parties[c].pc.Resting?
    ensures Matches(t, Consume(q, c).0)
    ensures t.parties[c].delivered == s.parties[c].delivered
      + (if Consume(q, c).1.Some? then [Consume(q, c).1.value] else [])
  {
    SoloTest(s, c);
    TestedMatches(s, q, c);
    var x := q.consumers[c].sequence;
    t := Tested(s, c);
    if t.parties[c].pc.Copying? {
      CopiedMatches(t, q, c);
      assert t.ring[RingIndex(x)].words[..0] == [];
      SoloCopy(s, t, c, x, 0);
      t := Copied(t, c, x);
    }
  }

  // ---------- between calls ----------

  /** Nobody is inside a call. */
  predicate AtRest<W>(s: State<W>)
    requires Sized(s)
  {
    s.producer.Ready? && forall c :: 0 <= c < MAX_CONSUMERS ==> s.parties[c].pc.Resting?
  }

  lemma StampsFit<W>(s: State<W>)
    requires Safe(s)
    ensures forall i :: 0 <= i < RING_SIZE ==> s.ring[i].sequence <= U64_MAX
    ensures forall c :: 0 <= c < MAX_CONSUMERS ==> s.parties[c].sequence <= U64_MAX
  {
    forall i | 0 <= i < RING_SIZE ensures s.ring[i].sequence <= U64_MAX {
      assert CellOk(s.ring[i], s.log, i, i == BusySlot(s));
    }
    forall c | 0 <= c < MAX_CONSUMERS ensures s.parties[c].sequence <= U64_MAX {
      assert PartyOk(s.parties[c], s.log, s.next, s.cachedMin, s.width);
    }
  }

  /** The memory of the machine as the one-call view holds it. */
  function Flat<W>(s: State<W>): (q: QueueState<seq<W>>)
    requires Sized(s) && s.next <= U64_MAX && s.cachedMin <= U64_MAX
    requires forall i :: 0 <= i < RING_SIZE ==> s.ring[i].sequence <= U64_MAX
    requires forall c :: 0 <= c < MAX_CONSUMERS ==> s.parties[c].sequence <= U64_MAX
    ensures WellSized(q)
  {
    QueueState(
      seq(RING_SIZE, i requires 0 <= i < RING_SIZE => Slot(s.ring[i].sequence as u64, s.ring[i].words)),
      seq(MAX_CONSUMERS, c requires 0 <= c < MAX_CONSUMERS =>
        ConsumerSlot(s.parties[c].active, s.parties[c].sequence as u64)),
      s.next,
      s.cachedMin)
  }

  /** Whatever interleaving led there, a queue at rest satisfies the invariant of the
      one-call view, so all that Histories proves holds from there on. */
  lemma AtRestMeansInv<W>(s: State<W>) returns (q: QueueState<seq<W>>)
    requires Safe(s) && AtRest(s)
    ensures Matches(s, q) && Inv(q, s.log)
  {
    StampsFit(s);
    q := Flat(s);
    forall i | 0 <= i < RING_SIZE ensures SlotHolds(q.ring[i], s.log, i) {
      assert CellOk(s.ring[i], s.log, i, false);
    }
    forall c | 0 <= c < MAX_CONSUMERS && q.consumers[c].active
      ensures InWindow(q.consumers[c].sequence, q.next, q.cachedMin)
    {
      assert PartyOk(s.parties[c], s.log, s.next, s.cachedMin, s.width);
    }
  }
}
