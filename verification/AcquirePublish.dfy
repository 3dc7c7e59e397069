/** The producer under release/acquire: a publish takes a bounded number of its steps,
    is let through only when there is room, and is refused only by a cursor that its own
    scan was given; so producer and consumers never block each other for good. */
module AcquirePublish {
  import opened Arithmetic64
  import opened RingLayout
  import opened Views
  import opened ReleaseAcquire
  import opened AcquireProgress

  // ---------- bounded, in any interleaving ----------

  /** Steps of its own until the publish under way is over. */
  function PublishRank<W>(s: State<W>): int {
    match s.producer.pc
    case Scanning(_, i, _) => |s.readers| - i + s.width + 2
    case Writing(_, j) => s.width - j + 1
    case _ => 0
  }

  /** The producer's next step, with the latest entry where it loads. */
  function PublishStep<W>(s: State<W>): Action<W>
    requires Sized(s)
  {
    match s.producer.pc
    case Scanning(_, i, _) => if i < |s.readers| then LoadCursor(|s.readers[i].cursor| - 1) else Decide
    case Writing(_, j) => if j < s.width then WriteWord else Commit
    case _ => StoreFlag
  }

  predicate OfProducer<W>(a: Action<W>) {
    a.Begin? || a.LoadCursor? || a.Decide? || a.WriteWord? || a.Commit? || a.StoreFlag?
  }

  predicate InPublish<W>(s: State<W>) {
    s.producer.pc.Scanning? || s.producer.pc.Writing?
  }

  lemma RankBound<W>(s: State<W>)
    requires Safe(s)
    ensures 0 <= PublishRank(s) <= |s.readers| + s.width + 2
    ensures InPublish(s) <==> PublishRank(s) > 0
  {
  }

  lemma PublishStepEnabled<W>(s: State<W>)
    requires Safe(s) && InPublish(s)
    ensures Enabled(s, PublishStep(s)) && OfProducer(PublishStep(s)) && PublishStep(s) != StoreFlag
  {
    if s.producer.pc.Scanning? && s.producer.pc.i < |s.readers| {
      LoadsAreFree(s, s.producer.pc.i);
    }
  }

  lemma ProducerStepLowers<W>(s: State<W>, a: Action<W>)
    requires Safe(s) && InPublish(s) && Enabled(s, a) && OfProducer(a)
    ensures PublishRank(Apply(s, a)) < PublishRank(s)
  {
  }

  /** Somewhere inside publish the producer always has a step, each step it takes,
      whatever the loads return, brings the end nearer, and the consumers' steps leave
      its place alone. */
  lemma ProducerIsWaitFree<W>(s: State<W>, a: Action<W>)
    requires Safe(s) && InPublish(s) && Enabled(s, a)
    ensures Enabled(s, PublishStep(s)) && OfProducer(PublishStep(s))
    ensures OfProducer(a) ==> 0 <= PublishRank(Apply(s, a)) < PublishRank(s) <= |s.readers| + s.width + 2
    ensures !OfProducer(a) ==> PublishRank(Apply(s, a)) == PublishRank(s) && Apply(s, a).producer == s.producer
  {
    PublishStepEnabled(s);
    StepKeepsSafe(s, a);
    RankBound(s);
    RankBound(Apply(s, a));
    if OfProducer(a) {
      ProducerStepLowers(s, a);
    }
  }

  // ---------- what lets a publish through ----------

  /** Nobody has a whole ring of messages unread. */
  ghost predicate Room<W>(s: State<W>) {
    forall c :: 0 <= c < |s.readers| ==> |s.log| < |s.readers[c].delivered| + RING_SIZE
  }

  /** A publish that is let through, on however stale cursors, has room. */
  lemma AcceptedMeansRoom<W>(s: State<W>, a: Action<W>)
    requires Safe(s) && Enabled(s, a) && (a.Begin? || a.Decide?) && Apply(s, a).producer.pc.Writing?
    ensures Room(s)
  {
    StepKeepsSafe(s, a);
    var t := Apply(s, a);
    forall c | 0 <= c < |s.readers| ensures |s.log| < |s.readers[c].delivered| + RING_SIZE {
      ReaderIs(s, c);
      CursorWindow(t, c);
    }
  }

  /** There is room, and what the scan has been given so far shows it. */
  ghost predicate WillAccept<W>(s: State<W>) {
    Room(s) &&
    match s.producer.pc
    case Scanning(_, i, min) => i == 0 || |s.log| + 1 < min + RING_SIZE
    case Writing(_, _) => true
    case _ => false
  }

  lemma AcceptLatestCursor<W>(s: State<W>)
    requires Safe(s) && WillAccept(s) && s.producer.pc.Scanning? && s.producer.pc.i < |s.readers|
    requires Enabled(s, PublishStep(s))
    ensures WillAccept(Apply(s, PublishStep(s)))
  {
    ReaderIs(s, s.producer.pc.i);
  }

  lemma AcceptDecide<W>(s: State<W>)
    requires Safe(s) && WillAccept(s) && Enabled(s, Decide)
    ensures WillAccept(Apply(s, Decide))
  {
    ScannedMinimum(s);
    DecideIs(s);
  }

  lemma AcceptStep<W>(s: State<W>)
    requires Safe(s) && WillAccept(s) && Enabled(s, PublishStep(s))
    ensures PublishStep(s) == Commit || WillAccept(Apply(s, PublishStep(s)))
  {
    match s.producer.pc
    case Scanning(_, i, _) =>
      if i < |s.readers| {
        AcceptLatestCursor(s);
      } else {
        AcceptDecide(s);
      }
    case _ =>
  }

  lemma BeginAccepts<W>(s: State<W>, item: seq<W>)
    requires Safe(s) && Room(s) && Enabled(s, Begin(item))
    ensures WillAccept(Apply(s, Begin(item)))
  {
    BeginIs(s, item);
  }

  lemma BeginKeeps<W>(s: State<W>, item: seq<W>)
    requires Safe(s) && s.producer.pc.Ready? && |item| == s.width && |s.log| < U64_MAX - 2
    ensures Enabled(s, Begin(item))
    ensures var t := Apply(s, Begin(item));
      && InPublish(t) && t.producer.pc.item == item
      && t.log == s.log && t.readers == s.readers && t.width == s.width && t.flag == s.flag
  {
    BeginIs(s, item);
  }

  /** A step inside publish touches neither consumers nor flag, and the log grows by the
      item at the commit alone. */
  lemma PublishStepIs<W>(s: State<W>, t: State<W>)
    requires Safe(s) && InPublish(s) && Enabled(s, PublishStep(s)) && t == Apply(s, PublishStep(s))
    ensures t.readers == s.readers && t.width == s.width && t.flag == s.flag && !t.producer.pc.Stopped?
    ensures PublishStep(s) == Commit ==> t.log == s.log + [s.producer.pc.item] && t.producer.pc.Ready?
    ensures PublishStep(s) != Commit ==> t.log == s.log && (InPublish(t) ==> t.producer.pc.item == s.producer.pc.item)
  {
  }

  lemma WritingMeansRoom<W>(s: State<W>)
    requires Safe(s) && s.producer.pc.Writing?
    ensures Room(s)
  {
    forall c | 0 <= c < |s.readers| ensures |s.log| < |s.readers[c].delivered| + RING_SIZE {
      ReaderIs(s, c);
      CursorWindow(s, c);
    }
  }

  /** The publish under way in u has got to t. */
  ghost predicate Underway<W>(u: State<W>, t: State<W>) {
    && Safe(t) && InPublish(t) && InPublish(u) && t.producer.pc.item == u.producer.pc.item
    && t.log == u.log && t.readers == u.readers && t.width == u.width && t.flag == u.flag
  }

  /** The publish under way in u is over in t: its item is out, for which there was
      room, or it has been refused. */
  ghost predicate Over<W>(u: State<W>, t: State<W>, accepted: bool)
    requires InPublish(u)
  {
    && Safe(t) && t.producer.pc.Ready? && t.readers == u.readers && t.width == u.width && t.flag == u.flag
    && t.log == (if accepted then u.log + [u.producer.pc.item] else u.log)
    && (accepted ==> Room(u))
  }

  lemma UnderwayStep<W>(u: State<W>, t: State<W>, t': State<W>)
    requires Underway(u, t) && Enabled(t, PublishStep(t)) && t' == Apply(t, PublishStep(t))
    ensures 0 <= PublishRank(t') < PublishRank(t)
    ensures if InPublish(t') then Underway(u, t') else Over(u, t', PublishStep(t) == Commit)
    ensures PublishStep(t) == Commit ==> !InPublish(t')
    ensures WillAccept(t) ==> PublishStep(t) == Commit || WillAccept(t')
  {
    ProducerIsWaitFree(t, PublishStep(t));
    StepKeepsSafe(t, PublishStep(t));
    PublishStepIs(t, t');
    if WillAccept(t) {
      AcceptStep(t);
    }
    if PublishStep(t) == Commit {
      WritingMeansRoom(t);
    }
  }

  /** The publish under way, with the latest cursors from here on, comes to its end:
      with its message out when there is room and it has not been told otherwise. */
  lemma {:induction false} FinishPublish<W>(s: State<W>, before: seq<Action<W>>, u: State<W>)
      returns (acts: seq<Action<W>>, accepted: bool)
    requires Runs(s, before) && Underway(u, After(s, before))
    ensures Runs(s, acts) && |acts| <= |before| + PublishRank(After(s, before))
    ensures Over(u, After(s, acts), accepted) && (accepted ==> acts != [] && acts[|acts| - 1] == Commit)
    ensures WillAccept(After(s, before)) ==> accepted
    decreases PublishRank(After(s, before))
  {
    var t := After(s, before);
    var a := PublishStep(t);
    PublishStepEnabled(t);
    UnderwayStep(u, t, Apply(t, a));
    Extend(s, before, a);
    if InPublish(Apply(t, a)) {
      acts, accepted := FinishPublish(s, before + [a], u);
    } else {
      acts, accepted := before + [a], a == Commit;
    }
  }

  lemma StartPublish<W>(s: State<W>, before: seq<Action<W>>, item: seq<W>) returns (t: State<W>)
    requires Runs(s, before) && Safe(After(s, before)) && After(s, before).producer.pc.Ready?
    requires |item| == After(s, before).width && |After(s, before).log| < U64_MAX - 2
    ensures Runs(s, before + [Begin(item)]) && t == After(s, before + [Begin(item)])
    ensures Underway(t, t) && t.producer.pc.item == item
    ensures var u := After(s, before);
      && t.log == u.log && t.readers == u.readers && t.width == u.width && t.flag == u.flag
      && (Room(u) ==> WillAccept(t))
  {
    var u := After(s, before);
    BeginKeeps(u, item);
    StepKeepsSafe(u, Begin(item));
    Extend(s, before, Begin(item));
    t := Apply(u, Begin(item));
    if Room(u) {
      BeginAccepts(u, item);
    }
  }

  /** A whole publish that loads the latest cursors succeeds if and only if nobody has a
      whole ring unread, within width + k + 3 steps. */
  lemma LatestPublish<W>(s: State<W>, before: seq<Action<W>>, item: seq<W>) returns (acts: seq<Action<W>>)
    requires Runs(s, before) && Safe(After(s, before)) && After(s, before).producer.pc.Ready?
    requires |item| == After(s, before).width && |After(s, before).log| < U64_MAX - 2
    ensures Runs(s, acts) && |acts| <= |before| + |item| + |After(s, before).readers| + 3
    ensures var u, t := After(s, before), After(s, acts);
      && Safe(t) && t.readers == u.readers && t.flag == u.flag && t.producer.pc.Ready?
      && t.log == (if Room(u) then u.log + [item] else u.log)
      && (Room(u) ==> acts != [] && acts[|acts| - 1] == Commit)
  {
    var t := StartPublish(s, before, item);
    RankBound(t);
    var accepted;
    acts, accepted := FinishPublish(s, before + [Begin(item)], t);
    assert Room(t) == Room(After(s, before));
  }

  /** Between two publishes the flag can go up at once. */
  lemma ShutdownIsOneStep<W>(s: State<W>)
    requires Safe(s) && s.producer.pc.Ready?
    ensures Enabled(s, StoreFlag)
    ensures var t := Apply(s, StoreFlag);
      && Safe(t) && t.producer.pc.Stopped? && t.flag[|t.flag| - 1].value == 1
      && t.log == s.log && t.readers == s.readers && t.cells == s.cells
  {
    StepKeepsSafe(s, StoreFlag);
  }

  // ---------- what a refusal rests on ----------

  /** The smallest number a scan has been given so far is what a cursor held at some
      point, no older than what the producer knew of it when the scan began. */
  ghost predicate ScanSaw<W>(s: State<W>, floors: seq<nat>)
    requires Sized(s)
  {
    && s.producer.pc.Scanning? && s.producer.pc.i <= |floors| == |s.readers|
    && (forall c :: 0 <= c < |floors| ==> floors[c] <= s.producer.view.cursorFloor[c])
    && (s.producer.pc.i > 0 ==> GivenBySome(s, floors, s.producer.pc.min))
  }

  ghost predicate GivenBySome<W>(s: State<W>, floors: seq<nat>, min: nat)
    requires |floors| == |s.readers|
  {
    exists c, idx :: 0 <= c < |s.readers| && floors[c] <= idx < |s.readers[c].cursor| && s.readers[c].cursor[idx].value == min
  }

  lemma LoadKeepsScanSaw<W>(s: State<W>, idx: nat, floors: seq<nat>)
    requires Safe(s) && ScanSaw(s, floors) && Enabled(s, LoadCursor(idx))
    requires Safe(Apply(s, LoadCursor(idx)))
    ensures ScanSaw(Apply(s, LoadCursor(idx)), floors)
  {
    var i, t := s.producer.pc.i, Apply(s, LoadCursor(idx));
    ReaderIs(s, i);
    assert floors[i] <= idx && t.readers[i].cursor[idx] == s.readers[i].cursor[idx];
    if t.producer.pc.min == s.producer.pc.min && i > 0 {
      assert GivenBySome(s, floors, s.producer.pc.min);
    }
  }

  /** A cursor only grows. */
  ghost predicate Grown(h: seq<Entry>, h': seq<Entry>) {
    |h| <= |h'| && forall j :: 0 <= j < |h| ==> h'[j] == h[j]
  }

  lemma ReaderStepGrows<W>(s: State<W>, a: Action<W>)
    requires Enabled(s, a) && !OfProducer(a)
    ensures var t := Apply(s, a);
      && t.producer == s.producer && |t.readers| == |s.readers|
      && forall c :: 0 <= c < |s.readers| ==> Grown(s.readers[c].cursor, t.readers[c].cursor)
  {
  }

  lemma GivenStays<W>(s: State<W>, t: State<W>, floors: seq<nat>, min: nat)
    requires |t.readers| == |s.readers| == |floors| && GivenBySome(s, floors, min)
    requires forall c :: 0 <= c < |s.readers| ==> Grown(s.readers[c].cursor, t.readers[c].cursor)
    ensures GivenBySome(t, floors, min)
  {
    var c, idx :| 0 <= c < |s.readers| && floors[c] <= idx < |s.readers[c].cursor| && s.readers[c].cursor[idx].value == min;
    assert Grown(s.readers[c].cursor, t.readers[c].cursor);
    assert t.readers[c].cursor[idx].value == min;
  }

  lemma StepKeepsScanSaw<W>(s: State<W>, a: Action<W>, floors: seq<nat>)
    requires Safe(s) && ScanSaw(s, floors) && Enabled(s, a) && (a.LoadCursor? || !OfProducer(a))
    requires Safe(Apply(s, a))
    ensures ScanSaw(Apply(s, a), floors)
  {
    if a.LoadCursor? {
      LoadKeepsScanSaw(s, a.idx, floors);
    } else {
      ReaderStepGrows(s, a);
      if s.producer.pc.i > 0 {
        GivenStays(s, Apply(s, a), floors, s.producer.pc.min);
      }
    }
  }

  lemma StillScanning<W>(s: State<W>, a: Action<W>)
    requires Enabled(s, a) && Apply(s, a).producer.pc.Scanning?
    ensures a.Begin? || (s.producer.pc.Scanning? && (a.LoadCursor? || !OfProducer(a)))
  {
  }

  lemma BeginStartsScan<W>(s: State<W>, item: seq<W>)
    requires Enabled(s, Begin(item)) && Apply(s, Begin(item)).producer.pc.Scanning?
    ensures ScanSaw(Apply(s, Begin(item)), s.producer.view.cursorFloor)
  {
  }

  /** The scan under way after `acts` began with step n, and what it has been given was
      stored no earlier than what the producer knew then. */
  ghost predicate ScanFrom<W>(s: State<W>, acts: seq<Action<W>>, n: nat) {
    && Runs(s, acts) && Sized(After(s, acts))
    && n < |acts| && acts[n].Begin? && (forall m :: n < m < |acts| ==> !acts[m].Begin?)
    && Runs(s, acts[..n]) && ScanSaw(After(s, acts), After(s, acts[..n]).producer.view.cursorFloor)
  }

  lemma ScanGoesOn<W>(s: State<W>, acts: seq<Action<W>>, n: nat, a: Action<W>, t: State<W>)
    requires ScanFrom(s, acts, n) && !a.Begin?
    requires Runs(s, acts + [a]) && t == After(s, acts + [a]) && Sized(t)
    requires ScanSaw(t, After(s, acts[..n]).producer.view.cursorFloor)
    ensures ScanFrom(s, acts + [a], n)
  {
    assert (acts + [a])[..n] == acts[..n];
  }

  lemma ScanStep<W>(s: State<W>, acts: seq<Action<W>>, n: nat, a: Action<W>, t: State<W>)
    requires ScanFrom(s, acts, n) && (a.LoadCursor? || !OfProducer(a))
    requires Runs(s, acts + [a]) && Safe(After(s, acts)) && Enabled(After(s, acts), a)
    requires t == Apply(After(s, acts), a) == After(s, acts + [a]) && Safe(t)
    ensures ScanFrom(s, acts + [a], n)
  {
    StepKeepsScanSaw(After(s, acts), a, After(s, acts[..n]).producer.view.cursorFloor);
    ScanGoesOn(s, acts, n, a, t);
  }

  lemma ScanStarts<W>(s: State<W>, acts: seq<Action<W>>, a: Action<W>, t: State<W>)
    requires Runs(s, acts + [a]) && Runs(s, acts) && Enabled(After(s, acts), a)
    requires t == Apply(After(s, acts), a) == After(s, acts + [a]) && Sized(t)
    requires a.Begin? && t.producer.pc.Scanning?
    ensures ScanFrom(s, acts + [a], |acts|)
  {
    BeginStartsScan(After(s, acts), a.item);
    assert (acts + [a])[..|acts|] == acts;
  }

  lemma {:induction false} ScanBegan<W>(s: State<W>, acts: seq<Action<W>>) returns (n: nat)
    requires Initial(s) && Runs(s, acts) && After(s, acts).producer.pc.Scanning?
    ensures ScanFrom(s, acts, n)
    decreases |acts|
  {
    var front, a := acts[..|acts| - 1], acts[|acts| - 1];
    assert front + [a] == acts;
    RunKeepsSafe(s, front);
    RunKeepsSafe(s, acts);
    StillScanning(After(s, front), a);
    if a.Begin? {
      n := |front|;
      ScanStarts(s, front, a, After(s, acts));
    } else {
      n := ScanBegan(s, front);
      ScanStep(s, front, n, a, After(s, acts));
    }
  }

  lemma RefusedByRingBehind<W>(s: State<W>, floors: seq<nat>) returns (c: nat, read: nat)
    requires Safe(s) && ScanSaw(s, floors) && Enabled(s, Decide) && Apply(s, Decide).producer.pc.Ready?
    ensures c < |s.readers| && floors[c] <= read <= |s.readers[c].delivered| && read + RING_SIZE <= |s.log|
  {
    ScannedMinimum(s);
    DecideIs(s);
    c, read :| 0 <= c < |s.readers| && floors[c] <= read < |s.readers[c].cursor|
      && s.readers[c].cursor[read].value == s.producer.pc.min;
    ReaderIs(s, c);
  }

  /** A refused publish was given, in its own scan, a consumer's cursor a whole ring
      behind, and one no older than what the producer knew when the call began. */
  lemma RefusalIsJustified<W>(s: State<W>, acts: seq<Action<W>>) returns (n: nat, c: nat, read: nat)
    requires Initial(s) && Runs(s, acts) && Enabled(After(s, acts), Decide)
    requires Apply(After(s, acts), Decide).producer.pc.Ready?
    ensures ScanFrom(s, acts, n) && c < |After(s, acts).readers|
    ensures After(s, acts[..n]).producer.view.cursorFloor[c] <= read <= |After(s, acts).readers[c].delivered|
    ensures read + RING_SIZE <= |After(s, acts).log|
  {
    RunKeepsSafe(s, acts);
    n := ScanBegan(s, acts);
    c, read := RefusedByRingBehind(After(s, acts), After(s, acts[..n]).producer.view.cursorFloor);
  }

  // ---------- no deadlock ----------

  ghost predicate HasUnread<W>(s: State<W>, c: nat) {
    c < |s.readers| && |s.readers[c].delivered| < |s.log|
  }

  lemma UnreadNotFinished<W>(s: State<W>, c: nat)
    requires Safe(s) && HasUnread(s, c)
    ensures !s.readers[c].pc.Finished?
  {
    ReaderIs(s, c);
  }

  lemma NothingUnreadMeansRoom<W>(s: State<W>)
    requires Safe(s) && !exists c :: HasUnread(s, c)
    ensures Room(s)
  {
    forall c | 0 <= c < |s.readers| ensures |s.log| < |s.readers[c].delivered| + RING_SIZE {
      assert !HasUnread(s, c);
    }
  }

  predicate EndsWithMessage<W>(acts: seq<Action<W>>) {
    acts != [] && (acts[|acts| - 1].Commit? || acts[|acts| - 1].Finish?)
  }

  /** With everything read, the next publish gets through, if not the one under way. */
  lemma PublishSoon<W>(s: State<W>, item: seq<W>) returns (acts: seq<Action<W>>)
    requires Safe(s) && Room(s) && !s.producer.pc.Stopped? && |item| == s.width && |s.log| < U64_MAX - 2
    ensures Runs(s, acts) && EndsWithMessage(acts) && |acts| <= 2 * |s.readers| + 2 * s.width + 5
  {
    acts := [];
    if InPublish(s) {
      RankBound(s);
      var accepted;
      acts, accepted := FinishPublish(s, acts, s);
      if accepted {
        return;
      }
    }
    acts := LatestPublish(s, acts, item);
  }

  /** In every state of the invariant, wherever producer and consumers stand in their
      calls and whatever stale entries they have been given: while a message is unread or
      still to come, 2 * k + 2 * width + 5 further steps suffice to publish or deliver one. */
  lemma NeverStuck<W>(s: State<W>, item: seq<W>, total: nat) returns (acts: seq<Action<W>>)
    requires Safe(s) && |item| == s.width && total <= U64_MAX - 2
    requires (exists c :: HasUnread(s, c)) || (|s.log| < total && !s.producer.pc.Stopped?)
    ensures Runs(s, acts) && EndsWithMessage(acts) && |acts| <= 2 * |s.readers| + 2 * s.width + 5
  {
    if c :| HasUnread(s, c) {
      UnreadNotFinished(s, c);
      acts := DeliveredSoon(s, [], c);
    } else {
      NothingUnreadMeansRoom(s);
      acts := PublishSoon(s, item);
    }
  }
}
