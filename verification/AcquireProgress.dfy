/** What the calls achieve under release/acquire: loads are free to be stale, a ready
    stamp is acted upon, and whoever loads the latest entries gets on, to the next
    message, to the end after the flag, and to a publish when there is room. */
module AcquireProgress {
  import opened RingLayout
  import opened QueueSpec
  import opened Views
  import opened ReleaseAcquire

  lemma ReaderIs<W>(s: State<W>, c: nat)
    requires Safe(s) && c < |s.readers|
    ensures ReaderOk(s.readers[c], c, |s.readers|, s.log, s.producer.pc.Stopped?, Latest(s.cells), s.width)
    ensures |s.readers[c].delivered| == |s.readers[c].cursor| - 1 <= |s.log|
  {
    assert ReaderOk(s.readers[c], c, |s.readers|, s.log, s.producer.pc.Stopped?, Latest(s.cells), s.width);
  }

  lemma Extend<W>(s: State<W>, acts: seq<Action<W>>, a: Action<W>)
    requires Runs(s, acts) && Enabled(After(s, acts), a)
    ensures Runs(s, acts + [a]) && After(s, acts + [a]) == Apply(After(s, acts), a)
  {
    var acts' := acts + [a];
    assert acts'[..|acts'| - 1] == acts;
  }

  // ---------- loads are as free as coherence allows ----------

  /** A load may return any entry from the one last known on, the latest included. */
  lemma LoadsAreFree<W>(s: State<W>, c: nat)
    requires Safe(s) && c < |s.readers|
    ensures s.readers[c].pc.Resting? ==> Enabled(s, LoadOwn(c, |s.readers[c].cursor| - 1))
    ensures s.readers[c].pc.Loaded? ==>
      var i := RingIndex(s.readers[c].pc.expected);
      && Enabled(s, TestSlot(c, |s.cells[i].history| - 1))
      && forall idx :: s.readers[c].view.slotFloor[i] <= idx < |s.cells[i].history| ==> Enabled(s, TestSlot(c, idx))
    ensures s.readers[c].pc.AtFlag? ==>
      && Enabled(s, CheckFlag(c, |s.flag| - 1))
      && forall idx :: s.readers[c].view.flagFloor <= idx < |s.flag| ==> Enabled(s, CheckFlag(c, idx))
    ensures s.producer.pc.Scanning? && s.producer.pc.i == c ==>
      && Enabled(s, LoadCursor(|s.readers[c].cursor| - 1))
      && forall idx :: s.producer.view.cursorFloor[c] <= idx < |s.readers[c].cursor| ==> Enabled(s, LoadCursor(idx))
  {
    ReaderIs(s, c);
    var k := |s.readers|;
    assert Leq(s.readers[c].view, Top(s), k) && Leq(s.producer.view, Top(s), k);
  }

  lemma BeginFirst<W>(s: State<W>)
    requires Initial(s) && s.width == 0
    ensures Enabled(s, Begin([]))
    ensures Apply(s, Begin([])) == s.(producer := s.producer.(next := 1, pc := Writing([], 0)))
  {
    assert !SeemsFull(1, 0);
  }

  lemma CommitFirst<W>(s: State<W>)
    requires Sized(s) && s.width == 0 && s.producer.pc == Writing([], 0) && s.producer.next == 1 && s.log == []
    ensures Enabled(s, Commit)
    ensures var t := Apply(s, Commit);
      t.log == [[]] && t.readers == s.readers && |t.cells| == |s.cells| && t.cells[1].history[0] == s.cells[1].history[0]
  {
  }

  lemma FirstMessageOut<W>(s: State<W>) returns (acts: seq<Action<W>>)
    requires Initial(s) && s.width == 0
    ensures Runs(s, acts)
    ensures var t := After(s, acts);
      Safe(t) && t.log == [[]] && t.readers == s.readers && t.cells[1].history[0] == s.cells[1].history[0]
  {
    BeginFirst(s);
    Extend(s, [], Begin([]));
    acts := [Begin([])];
    CommitFirst(After(s, acts));
    Extend(s, acts, Commit);
    acts := acts + [Commit];
    RunKeepsSafe(s, acts);
  }

  lemma OldStampSeen<W>(s: State<W>)
    requires Sized(s) && s.readers[0] == Reader([Entry(1, Zero(|s.readers|))], 1, Zero(|s.readers|), Resting, false, [])
    requires s.cells[1].history[0] == Entry(0, Zero(|s.readers|))
    ensures Enabled(s, LoadOwn(0, 0)) && Enabled(Apply(s, LoadOwn(0, 0)), TestSlot(0, 0))
    ensures var t := Apply(Apply(s, LoadOwn(0, 0)), TestSlot(0, 0));
      t.log == s.log && |t.readers| == |s.readers| && t.readers[0].pc.AtFlag? && t.readers[0].delivered == []
  {
    var t := Apply(s, LoadOwn(0, 0));
    assert t.readers[0].pc == Loaded(1) && RingIndex(1) == 1;
    assert t.readers[0].view.slotFloor[1] == 0;
  }

  /** And stale entries do come back: message 1 is committed, and the consumer's first
      look still finds the slot empty. */
  lemma StaleStampIsPossible<W>(s: State<W>) returns (acts: seq<Action<W>>)
    requires Initial(s) && s.width == 0
    ensures Runs(s, acts) && After(s, acts).log == [[]] && 0 < |After(s, acts).readers|
    ensures After(s, acts).readers[0].pc.AtFlag? && After(s, acts).readers[0].delivered == []
  {
    acts := FirstMessageOut(s);
    OldStampSeen(After(s, acts));
    Extend(s, acts, LoadOwn(0, 0));
    Extend(s, acts + [LoadOwn(0, 0)], TestSlot(0, 0));
    acts := acts + [LoadOwn(0, 0)] + [TestSlot(0, 0)];
  }

  // ---------- what the test of a slot leads to ----------

  /** Whatever stamp is loaded: "ready" is acted upon, and says that there is a message;
      "not ready" means that the stamp was not the latest, or that the consumer has
      everything. With the latest stamp the answer is exact. */
  lemma TestIsExact<W>(s: State<W>, c: nat, idx: nat)
    requires Safe(s) && Enabled(s, TestSlot(c, idx))
    ensures var r, t := s.readers[c], Apply(s, TestSlot(c, idx));
      var x := r.pc.expected;
      var h := s.cells[RingIndex(x)].history;
      && |t.readers| == |s.readers|
      && (h[idx].value > x ==> t.readers[c].pc == Copying(|r.delivered| + 1, []))
      && (t.readers[c].pc.Copying? ==> |r.delivered| < |s.log|)
      && (!t.readers[c].pc.Copying? ==>
            && t.readers[c].pc == (if r.draining then Finished else AtFlag)
            && (idx < |h| - 1 || r.delivered == s.log))
      && (idx == |h| - 1 ==> (t.readers[c].pc.Copying? <==> |r.delivered| < |s.log|))
  {
    ReaderIs(s, c);
    StampIsExact(s, c, idx);
    assert s.readers[c].delivered == s.log[..|s.readers[c].delivered|];
  }

  /** With the latest stamp loaded. */
  lemma LatestTest<W>(s: State<W>, c: nat, idx: nat, t: State<W>)
    requires Safe(s) && Enabled(s, TestSlot(c, idx)) && t == Apply(s, TestSlot(c, idx))
    requires idx == |s.cells[RingIndex(s.readers[c].pc.expected)].history| - 1
    ensures |t.readers| == |s.readers| && t.log == s.log && t.width == s.width && t.producer == s.producer
    ensures t.readers[c].delivered == s.readers[c].delivered && t.readers[c].draining == s.readers[c].draining
    ensures t.readers[c].pc ==
      if |s.readers[c].delivered| < |s.log| then Copying(|s.readers[c].delivered| + 1, [])
      else if s.readers[c].draining then Finished else AtFlag
  {
    TestIsExact(s, c, idx);
  }

  // ---------- a consumer that loads the latest entries ----------

  /** The next step of consumer c, with the latest entry where it loads. */
  function OwnStep<W>(s: State<W>, c: nat): Action<W>
    requires Sized(s) && c < |s.readers| && !s.readers[c].pc.Finished?
  {
    var r := s.readers[c];
    match r.pc
    case Resting => LoadOwn(c, |r.cursor| - 1)
    case Loaded(x) => TestSlot(c, |s.cells[RingIndex(x)].history| - 1)
    case Copying(_, buffer) => if |buffer| < s.width then CopyWord(c) else Finish(c)
    case AtFlag => CheckFlag(c, |s.flag| - 1)
    case Finished => Finish(c)
  }

  /** Steps of its own until it has its next message, if there is one. */
  function MessageRank<W>(r: Reader<W>, width: nat): int {
    match r.pc
    case AtFlag => width + 4
    case Resting => width + 3
    case Loaded(_) => width + 2
    case Copying(_, buffer) => width - |buffer| + 1
    case Finished => 0
  }

  lemma OwnStepEnabled<W>(s: State<W>, c: nat)
    requires Safe(s) && c < |s.readers| && !s.readers[c].pc.Finished?
    ensures Enabled(s, OwnStep(s, c))
  {
    ReaderIs(s, c);
    LoadsAreFree(s, c);
  }

  /** The step leaves log and deliveries alone and is one step on. */
  ghost predicate Nearer<W>(s: State<W>, t: State<W>, c: nat)
    requires c < |s.readers|
  {
    && |t.readers| == |s.readers| && t.log == s.log && t.width == s.width
    && t.readers[c].delivered == s.readers[c].delivered && !t.readers[c].pc.Finished?
    && 0 < MessageRank(t.readers[c], s.width) < MessageRank(s.readers[c], s.width) <= s.width + 4
  }

  lemma LookIsNearer<W>(s: State<W>, c: nat)
    requires Safe(s) && c < |s.readers| && (s.readers[c].pc.Resting? || s.readers[c].pc.AtFlag?)
    requires Enabled(s, OwnStep(s, c))
    ensures Nearer(s, Apply(s, OwnStep(s, c)), c)
  {
  }

  lemma TestIsNearer<W>(s: State<W>, c: nat)
    requires Safe(s) && c < |s.readers| && s.readers[c].pc.Loaded? && |s.readers[c].delivered| < |s.log|
    requires Enabled(s, OwnStep(s, c))
    ensures Nearer(s, Apply(s, OwnStep(s, c)), c)
  {
    LatestTest(s, c, OwnStep(s, c).idx, Apply(s, OwnStep(s, c)));
  }

  lemma CopyIsNearer<W>(s: State<W>, c: nat)
    requires Safe(s) && Enabled(s, CopyWord(c))
    ensures Nearer(s, Apply(s, CopyWord(c)), c)
  {
  }

  lemma FinishDelivers<W>(s: State<W>, c: nat)
    requires Safe(s) && Enabled(s, Finish(c))
    ensures var t := Apply(s, Finish(c));
      && |t.readers| == |s.readers| && t.log == s.log && t.width == s.width
      && |s.readers[c].delivered| < |s.log|
      && t.readers[c].delivered == s.readers[c].delivered + [s.log[|s.readers[c].delivered|]]
  {
    ReaderIs(s, c);
    var m := s.log[s.readers[c].pc.expected - 1];
    assert m[..s.width] == m;
  }

  /** While a message is there, the consumer's next step delivers it or brings it nearer. */
  lemma MessageSoon<W>(s: State<W>, c: nat)
    requires Safe(s) && c < |s.readers| && !s.readers[c].pc.Finished? && |s.readers[c].delivered| < |s.log|
    ensures Enabled(s, OwnStep(s, c)) && Safe(Apply(s, OwnStep(s, c)))
    ensures OwnStep(s, c) == Finish(c) || Nearer(s, Apply(s, OwnStep(s, c)), c)
  {
    OwnStepEnabled(s, c);
    StepKeepsSafe(s, OwnStep(s, c));
    match s.readers[c].pc
    case Loaded(_) => TestIsNearer(s, c);
    case Copying(_, buffer) =>
      if |buffer| < s.width {
        CopyIsNearer(s, c);
      }
    case _ => LookIsNearer(s, c);
  }

  /** Nothing has changed for consumer c but its place, `left` steps from its message. */
  ghost predicate OnTheWay<W>(u: State<W>, t: State<W>, c: nat, left: int)
    requires c < |u.readers|
  {
    && Safe(t) && |t.readers| == |u.readers| && t.width == u.width && t.log == u.log
    && t.readers[c].delivered == u.readers[c].delivered && |u.readers[c].delivered| < |u.log|
    && !t.readers[c].pc.Finished? && left == MessageRank(t.readers[c], u.width)
  }

  lemma OnTheWayStep<W>(u: State<W>, t: State<W>, c: nat, left: int)
    requires c < |u.readers| && OnTheWay(u, t, c, left)
    ensures Enabled(t, OwnStep(t, c)) && Safe(Apply(t, OwnStep(t, c)))
    ensures OwnStep(t, c) == Finish(c) ==> Delivers(u, Apply(t, OwnStep(t, c)), c)
    ensures OwnStep(t, c) != Finish(c) ==>
      && c < |Apply(t, OwnStep(t, c)).readers|
      && 0 < MessageRank(Apply(t, OwnStep(t, c)).readers[c], u.width) < left
      && OnTheWay(u, Apply(t, OwnStep(t, c)), c, MessageRank(Apply(t, OwnStep(t, c)).readers[c], u.width))
  {
    MessageSoon(t, c);
    if OwnStep(t, c) == Finish(c) {
      FinishDelivers(t, c);
    }
  }

  ghost predicate Delivers<W>(u: State<W>, t: State<W>, c: nat)
    requires c < |u.readers|
  {
    && |t.readers| == |u.readers| && t.log == u.log && |u.readers[c].delivered| < |u.log|
    && t.readers[c].delivered == u.readers[c].delivered + [u.log[|u.readers[c].delivered|]]
  }

  /** A committed message is delivered within width + 4 steps of the reader's own. */
  lemma {:induction false} ReadsNext<W>(s: State<W>, before: seq<Action<W>>, u: State<W>, c: nat, left: int)
      returns (acts: seq<Action<W>>)
    requires Runs(s, before) && c < |u.readers| && OnTheWay(u, After(s, before), c, left) && left > 0
    ensures Runs(s, acts) && |acts| <= |before| + left && Safe(After(s, acts)) && Delivers(u, After(s, acts), c)
    ensures acts != [] && acts[|acts| - 1] == Finish(c)
    decreases left
  {
    var t := After(s, before);
    var a := OwnStep(t, c);
    OnTheWayStep(u, t, c, left);
    Extend(s, before, a);
    acts := before + [a];
    if a != Finish(c) {
      acts := ReadsNext(s, acts, u, c, MessageRank(Apply(t, a).readers[c], u.width));
    }
  }

  lemma DeliveredSoon<W>(s: State<W>, before: seq<Action<W>>, c: nat) returns (acts: seq<Action<W>>)
    requires Runs(s, before) && Safe(After(s, before)) && c < |After(s, before).readers|
    requires !After(s, before).readers[c].pc.Finished?
    requires |After(s, before).readers[c].delivered| < |After(s, before).log|
    ensures Runs(s, acts) && |acts| <= |before| + After(s, before).width + 4
    ensures Safe(After(s, acts)) && Delivers(After(s, before), After(s, acts), c)
    ensures acts != [] && acts[|acts| - 1] == Finish(c)
  {
    var t := After(s, before);
    ReaderIs(t, c);
    acts := ReadsNext(s, before, t, c, MessageRank(t.readers[c], t.width));
  }

  predicate IsStepOf<W>(a: Action<W>, c: nat) {
    match a
    case LoadOwn(d, _) => c == d
    case TestSlot(d, _) => c == d
    case CopyWord(d) => c == d
    case Finish(d) => c == d
    case CheckFlag(d, _) => c == d
    case _ => false
  }

  /** Nobody else's step moves the consumer, unpublishes anything, or, once the flag is
      up, publishes anything: its ranks count its own steps in any interleaving. */
  lemma OthersLeaveReader<W>(s: State<W>, a: Action<W>, c: nat)
    requires Enabled(s, a) && c < |s.readers| && !IsStepOf(a, c)
    ensures var t := Apply(s, a);
      && |t.readers| == |s.readers| && t.readers[c] == s.readers[c] && t.width == s.width
      && s.log <= t.log && (s.producer.pc.Stopped? ==> t.log == s.log && t.producer == s.producer)
  {
  }

  // ---------- the end, once the flag is up ----------

  /** Where the consumer stands, counted from its end. */
  function Place<W>(r: Reader<W>): int {
    match r.pc
    case Resting => if r.draining then 2 else 5
    case Loaded(_) => if r.draining then 1 else 4
    case AtFlag => 3
    case Copying(_, buffer) => -|buffer|
    case Finished => 0
  }

  function Times(n: nat, b: nat): nat {
    if n == 0 then 0 else Times(n - 1, b) + b
  }

  /** Steps of its own, loading the latest entries, until the consumer has finished: a
      round for each unread message, and what is left of this one. */
  function EndRank<W>(s: State<W>, c: nat): int
    requires c < |s.readers| && |s.readers[c].delivered| <= |s.log|
  {
    Times(|s.log| - |s.readers[c].delivered|, s.width + 6) + Place(s.readers[c])
  }

  /** The step leaves everything alone but the consumer's place, one step nearer the end. */
  ghost predicate Advances<W>(s: State<W>, t: State<W>, c: nat)
    requires c < |s.readers|
  {
    && |t.readers| == |s.readers| && t.log == s.log && t.width == s.width && t.producer == s.producer
    && t.readers[c].delivered == s.readers[c].delivered && Place(t.readers[c]) < Place(s.readers[c])
  }

  lemma LoadOwnAdvances<W>(s: State<W>, c: nat)
    requires Safe(s) && c < |s.readers| && s.readers[c].pc.Resting? && Enabled(s, OwnStep(s, c))
    ensures Advances(s, Apply(s, OwnStep(s, c)), c)
  {
  }

  lemma LatestTestAdvances<W>(s: State<W>, c: nat)
    requires Safe(s) && c < |s.readers| && s.readers[c].pc.Loaded? && Enabled(s, OwnStep(s, c))
    ensures Advances(s, Apply(s, OwnStep(s, c)), c)
  {
    LatestTest(s, c, OwnStep(s, c).idx, Apply(s, OwnStep(s, c)));
  }

  lemma CopyAdvances<W>(s: State<W>, c: nat)
    requires Safe(s) && Enabled(s, CopyWord(c))
    ensures Advances(s, Apply(s, CopyWord(c)), c)
  {
  }

  lemma LatestFlagAdvances<W>(s: State<W>, c: nat)
    requires Safe(s) && s.producer.pc.Stopped? && c < |s.readers| && s.readers[c].pc.AtFlag?
    requires Enabled(s, OwnStep(s, c))
    ensures Advances(s, Apply(s, OwnStep(s, c)), c)
  {
  }

  lemma OneMessageLess(unread: nat, b: nat, place: int, place': int)
    requires unread > 0 && place' < place + b
    ensures Times(unread - 1, b) + place' < Times(unread, b) + place
  {
  }

  lemma FinishIsNearerEnd<W>(s: State<W>, c: nat)
    requires Safe(s) && Enabled(s, Finish(c))
    ensures |s.readers[c].delivered| < |s.log| && NearerEnd(s, Apply(s, Finish(c)), c)
  {
    FinishDelivers(s, c);
    var unread := |s.log| - |s.readers[c].delivered|;
    OneMessageLess(unread, s.width + 6, Place(s.readers[c]), Place(Apply(s, Finish(c)).readers[c]));
  }

  lemma OtherStepAdvances<W>(s: State<W>, c: nat)
    requires Safe(s) && s.producer.pc.Stopped? && c < |s.readers| && !s.readers[c].pc.Finished?
    requires Enabled(s, OwnStep(s, c)) && OwnStep(s, c) != Finish(c)
    ensures Advances(s, Apply(s, OwnStep(s, c)), c)
  {
    match s.readers[c].pc
    case Resting => LoadOwnAdvances(s, c);
    case Loaded(_) => LatestTestAdvances(s, c);
    case AtFlag => LatestFlagAdvances(s, c);
    case _ => CopyAdvances(s, c);
  }

  /** Nothing is published, and the consumer is nearer its end. */
  ghost predicate NearerEnd<W>(s: State<W>, t: State<W>, c: nat)
    requires c < |s.readers| && |s.readers[c].delivered| <= |s.log|
  {
    && |t.readers| == |s.readers| && t.log == s.log && t.producer == s.producer
    && |t.readers[c].delivered| <= |t.log| && EndRank(t, c) < EndRank(s, c)
  }

  lemma AdvanceIsNearerEnd<W>(s: State<W>, t: State<W>, c: nat)
    requires c < |s.readers| && |s.readers[c].delivered| <= |s.log| && Advances(s, t, c)
    ensures NearerEnd(s, t, c)
  {
  }

  /** Once the flag is up, each such step brings the consumer nearer its end. */
  lemma EndIsNearer<W>(s: State<W>, c: nat)
    requires Safe(s) && s.producer.pc.Stopped? && c < |s.readers| && !s.readers[c].pc.Finished?
    ensures Enabled(s, OwnStep(s, c)) && Safe(Apply(s, OwnStep(s, c)))
    ensures |s.readers[c].delivered| <= |s.log| && NearerEnd(s, Apply(s, OwnStep(s, c)), c)
  {
    OwnStepEnabled(s, c);
    ReaderIs(s, c);
    StepKeepsSafe(s, OwnStep(s, c));
    if OwnStep(s, c) == Finish(c) {
      FinishIsNearerEnd(s, c);
    } else {
      OtherStepAdvances(s, c);
      AdvanceIsNearerEnd(s, Apply(s, OwnStep(s, c)), c);
    }
  }

  lemma EndRankBound<W>(s: State<W>, c: nat)
    requires Safe(s) && c < |s.readers|
    ensures |s.readers[c].delivered| <= |s.log|
    ensures EndRank(s, c) >= 0
  {
    ReaderIs(s, c);
    if |s.log| > |s.readers[c].delivered| {
      assert Times(|s.log| - |s.readers[c].delivered|, s.width + 6) >= s.width + 6;
    }
  }

  /** So, once the flag is up, within EndRank steps of its own a consumer that loads the
      latest entries has finished, with the whole log. */
  lemma {:induction false} FinishesAfterFlag<W>(s: State<W>, before: seq<Action<W>>, c: nat) returns (acts: seq<Action<W>>)
    requires Runs(s, before) && Safe(After(s, before)) && After(s, before).producer.pc.Stopped?
    requires c < |After(s, before).readers| && |After(s, before).readers[c].delivered| <= |After(s, before).log|
    ensures Runs(s, acts) && |acts| <= |before| + EndRank(After(s, before), c) && Safe(After(s, acts))
    ensures var t, t' := After(s, before), After(s, acts);
      && |t'.readers| == |t.readers| && t'.log == t.log
      && t'.readers[c].pc.Finished? && t'.readers[c].delivered == t.log
    decreases EndRank(After(s, before), c)
  {
    var t := After(s, before);
    EndRankBound(t, c);
    if t.readers[c].pc.Finished? {
      ReaderIs(t, c);
      assert t.log[..|t.log|] == t.log;
      acts := before;
    } else {
      var a := OwnStep(t, c);
      EndIsNearer(t, c);
      EndRankBound(Apply(t, a), c);
      Extend(s, before, a);
      acts := FinishesAfterFlag(s, before + [a], c);
    }
  }
}
