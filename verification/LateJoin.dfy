/** Registration while publish is under way. A caller reads the producer's position and
    registers from there: that is safe if it registers one past what it read and nobody
    publishes in between, and not otherwise; nor is it safe to mix the two kinds of
    overlapping registration that StepMachine keeps apart. Each negative answer is a run
    from a fresh queue that ends in a wrong delivery. */
module LateJoin {
  import opened Arithmetic64
  import opened RingLayout
  import opened QueueSpec
  import opened Broadcast
  import opened StepMachine
  import opened StepTheorems
  import opened SoloRuns
  import H = Histories

  // ---------- runs with registrations at any moment ----------

  /** What callers do. Reading: look at current_sequence(), and register at what was seen
      plus `offset`, at any moment, when `claims` publishes have claimed a number since.
      Mixed: register at the front, next_ + 1, while the very first one registers at 1. */
  datatype Habit = Reading(offset: nat, claims: nat) | Mixed

  /** The queue, and what each caller saw when it last looked. The caller that will take
      record c goes by the number c. */
  datatype Scene<W> = Scene(queue: State<W>, seen: map<nat, nat>)

  datatype Deed<W> = Do(a: Action<W>) | Look(c: nat)

  predicate JoinsBy<W>(s: State<W>, c: nat, from: nat, kind: JoinKind, habit: Habit, seen: map<nat, nat>)
    requires Sized(s)
  {
    match kind
    case Between => MayJoin(s, from, Between)
    case First => habit.Mixed? && !s.everJoined && from == 1
    case Front =>
      && !JoinPending(s, First)
      && from <= U64_MAX && s.next <= U64_MAX && s.cachedMin <= U64_MAX
      && RegistrationContract(from, s.next, s.cachedMin)
      && match habit
         case Mixed => from == s.next + 1
         case Reading(offset, claims) => c in seen && from == seen[c] + offset && s.next == seen[c] + claims
  }

  predicate Allowed<W>(s: Scene<W>, d: Deed<W>, habit: Habit) {
    match d
    case Look(_) => true
    case Do(a) =>
      && Possible(s.queue, a)
      && (a.JoinCas? ==> JoinsBy(s.queue, a.c, a.from, a.kind, habit, s.seen))
      && (a.Begin? ==> !JoinPending(s.queue, Between))
  }

  function Next<W>(s: Scene<W>, d: Deed<W>, habit: Habit): Scene<W>
    requires Allowed(s, d, habit)
  {
    match d
    case Look(c) => s.(seen := s.seen[c := s.queue.next])
    case Do(a) => s.(queue := Apply(s.queue, a))
  }

  predicate RunsBy<W>(s: Scene<W>, deeds: seq<Deed<W>>, habit: Habit)
    decreases |deeds|, 0
  {
    deeds != [] ==>
      var front := deeds[..|deeds| - 1];
      RunsBy(s, front, habit) && Allowed(AfterBy(s, front, habit), deeds[|deeds| - 1], habit)
  }

  function AfterBy<W>(s: Scene<W>, deeds: seq<Deed<W>>, habit: Habit): Scene<W>
    requires RunsBy(s, deeds, habit)
    decreases |deeds|, 1
  {
    if deeds == [] then s else Next(AfterBy(s, deeds[..|deeds| - 1], habit), deeds[|deeds| - 1], habit)
  }

  /** Whoever is registered has been given exactly the messages from its start on. */
  ghost predicate ExactAt<W>(t: State<W>) {
    Sized(t) && forall c :: 0 <= c < MAX_CONSUMERS && Registered(t.parties[c]) ==>
      GivenExactly(t.log, t.parties[c].start, t.parties[c].sequence, t.parties[c].delivered)
  }

  /** In every interleaving, from a fresh queue, of callers with this habit. */
  ghost predicate AlwaysExact<W(!new)>(habit: Habit) {
    forall s: State<W>, deeds: seq<Deed<W>> ::
      Initial(s) && s.overlap == OnlyFront && RunsBy(Scene(s, map[]), deeds, habit) ==>
        ExactAt(AfterBy(Scene(s, map[]), deeds, habit).queue)
  }

  // ---------- at the front ----------

  /** The steps of the queue among the deeds. */
  function StepsAmong<W>(deeds: seq<Deed<W>>): seq<Action<W>> {
    if deeds == [] then []
    else
      var last := deeds[|deeds| - 1];
      StepsAmong(deeds[..|deeds| - 1]) + (if last.Do? then [last.a] else [])
  }

  lemma FrontDeedIsStep<W>(s: Scene<W>, a: Action<W>)
    requires s.queue.overlap == OnlyFront && Allowed(s, Do(a), Reading(1, 0))
    ensures Enabled(s.queue, a)
  {
  }

  lemma {:induction false} FrontRunsAreRuns<W>(s: Scene<W>, deeds: seq<Deed<W>>)
    requires s.queue.overlap == OnlyFront && RunsBy(s, deeds, Reading(1, 0))
    ensures Runs(s.queue, StepsAmong(deeds))
    ensures After(s.queue, StepsAmong(deeds)) == AfterBy(s, deeds, Reading(1, 0)).queue
    ensures After(s.queue, StepsAmong(deeds)).overlap == OnlyFront
    decreases |deeds|
  {
    if deeds != [] {
      var front, last := deeds[..|deeds| - 1], deeds[|deeds| - 1];
      FrontRunsAreRuns(s, front);
      if last.Do? {
        FrontDeedIsStep(AfterBy(s, front, Reading(1, 0)), last.a);
        assert StepsAmong(deeds)[..|StepsAmong(deeds)| - 1] == StepsAmong(front);
      } else {
        assert StepsAmong(deeds) == StepsAmong(front);
      }
    }
  }

  lemma FrontIsExact<W(!new)>()
    ensures AlwaysExact<W>(Reading(1, 0))
  {
    forall s: State<W>, deeds: seq<Deed<W>> |
      Initial(s) && s.overlap == OnlyFront && RunsBy(Scene(s, map[]), deeds, Reading(1, 0))
      ensures ExactAt(AfterBy(Scene(s, map[]), deeds, Reading(1, 0)).queue)
    {
      var acts := StepsAmong(deeds);
      FrontRunsAreRuns(Scene(s, map[]), deeds);
      InitialSafe(s);
      RunKeepsSafe(s, acts);
      var t := After(s, acts);
      forall c | 0 <= c < MAX_CONSUMERS && Registered(t.parties[c])
        ensures GivenExactly(t.log, t.parties[c].start, t.parties[c].sequence, t.parties[c].delivered)
      {
        DeliveryIsExact(s, acts, c);
      }
    }
  }

  // ---------- reaching a state ----------

  /** The callers' habit and what they have seen so far. */
  datatype Callers = Callers(habit: Habit, seen: map<nat, nat>)

  ghost predicate Reaches<W(!new)>(s: State<W>, t: State<W>, callers: Callers) {
    exists deeds: seq<Deed<W>> ::
      RunsBy(Scene(s, map[]), deeds, callers.habit) && AfterBy(Scene(s, map[]), deeds, callers.habit) == Scene(t, callers.seen)
  }

  lemma ReachesSelf<W(!new)>(s: State<W>, habit: Habit)
    ensures Reaches(s, s, Callers(habit, map[]))
  {
    var deeds: seq<Deed<W>> := [];
    assert RunsBy(Scene(s, map[]), deeds, habit) && AfterBy(Scene(s, map[]), deeds, habit) == Scene(s, map[]);
  }

  lemma ReachesDeed<W(!new)>(s: State<W>, t: State<W>, d: Deed<W>, callers: Callers)
    requires Reaches(s, t, callers) && Allowed(Scene(t, callers.seen), d, callers.habit)
    ensures var next := Next(Scene(t, callers.seen), d, callers.habit);
      Reaches(s, next.queue, callers.(seen := next.seen))
  {
    var s0, next := Scene(s, map[]), Next(Scene(t, callers.seen), d, callers.habit);
    var deeds: seq<Deed<W>> :| RunsBy(s0, deeds, callers.habit) && AfterBy(s0, deeds, callers.habit) == Scene(t, callers.seen);
    var deeds' := deeds + [d];
    assert deeds'[..|deeds|] == deeds;
    assert RunsBy(s0, deeds', callers.habit) && AfterBy(s0, deeds', callers.habit) == next;
  }

  lemma ReachesStep<W(!new)>(s: State<W>, t: State<W>, a: Action<W>, callers: Callers)
    requires Reaches(s, t, callers) && Allowed(Scene(t, callers.seen), Do(a), callers.habit)
    ensures Reaches(s, Apply(t, a), callers)
  {
    ReachesDeed(s, t, Do(a), callers);
  }

  lemma {:induction false} ReachesSteps<W(!new)>(
      s: State<W>, t: State<W>, who: Actor, acts: seq<Action<W>>, callers: Callers)
    requires Reaches(s, t, callers) && StepsBy(who, acts) && Runs(t, acts)
    ensures Reaches(s, After(t, acts), callers)
    decreases |acts|
  {
    if acts != [] {
      var front := acts[..|acts| - 1];
      ReachesSteps(s, t, who, front, callers);
      ReachesStep(s, After(t, front), acts[|acts| - 1], callers);
    }
  }

  lemma ReachesAlone<W(!new)>(s: State<W>, t: State<W>, who: Actor, u: State<W>, callers: Callers)
    requires Reaches(s, t, callers) && Alone(who, t, u)
    ensures Reaches(s, u, callers)
  {
    var acts: seq<Action<W>> :| StepsBy(who, acts) && Runs(t, acts) && After(t, acts) == u;
    ReachesSteps(s, t, who, acts, callers);
  }

  // ---------- one consumer in step with the producer, or none ----------

  /** Message k: all alike but the one numbered `odd`. */
  function Item<W>(k: nat, odd: nat, x: W, y: W): seq<W> {
    [if k == odd then y else x]
  }

  function Items<W>(k: nat, n: nat, odd: nat, x: W, y: W): (r: seq<seq<W>>)
    ensures |r| == n && forall i :: 0 <= i < n ==> r[i] == Item(k + 1 + i, odd, x, y)
  {
    seq(n, i requires 0 <= i < n => Item(k + 1 + i, odd, x, y))
  }

  predicate AllResting<W>(s: State<W>)
    requires Sized(s)
  {
    forall c :: 0 <= c < MAX_CONSUMERS ==> s.parties[c].pc.Resting?
  }

  /** n messages are out. The reader in record 0, if there is one, has read them all;
      nobody else has ever been here. */
  ghost predicate InStep<W>(s: State<W>, q: QueueState<seq<W>>, n: nat, reader: bool, odd: nat, x: W, y: W) {
    && Matches(s, q) && Inv(q, s.log) && s.producer.Ready? && AllResting(s)
    && s.width == 1 && s.everJoined == reader && s.next == n && s.log == Items(0, n, odd, x, y)
    && q.cachedMin == (if n < RING_SIZE then 0 else RING_SIZE)
    && q.consumers[0] == ConsumerSlot(reader, if reader then n + 1 else 0)
    && forall c :: 1 <= c < MAX_CONSUMERS ==> s.parties[c] == Party(false, 0, Resting, 0, [])
  }

  lemma OneReaderMin(cs: seq<ConsumerSlot>, v: u64)
    requires |cs| == MAX_CONSUMERS && cs[0] == ConsumerSlot(true, v)
    requires forall c :: 1 <= c < MAX_CONSUMERS ==> !cs[c].active
    ensures ScanMin(cs) == v
  {
    assert cs[0].active;
  }

  /** The next publish goes through, and where it leaves the cache. */
  lemma NextGoesThrough<W>(s: State<W>, q: QueueState<seq<W>>, n: nat, reader: bool, odd: nat, x: W, y: W)
    requires InStep(s, q, n, reader, odd, x, y)
    requires n < if reader then 2 * RING_SIZE - 1 else RING_SIZE - 1
    ensures Publish(q, Item(n + 1, odd, x, y)).1
    ensures RefreshedMin(q) == if n + 1 < RING_SIZE then 0 else RING_SIZE
  {
    DistanceTest(n, q.cachedMin);
    if reader {
      OneReaderMin(q.consumers, n + 1);
    }
    DistanceTest(n, ScanMin(q.consumers));
  }

  lemma OneMoreItem<W>(n: nat, odd: nat, x: W, y: W)
    ensures Items(0, n, odd, x, y) + [Item(n + 1, odd, x, y)] == Items(0, n + 1, odd, x, y)
  {
  }

  lemma PublishInStep<W(!new)>(s: State<W>, q: QueueState<seq<W>>, n: nat, reader: bool, odd: nat, x: W, y: W)
      returns (t: State<W>)
    requires InStep(s, q, n, reader, odd, x, y)
    requires n < if reader then 2 * RING_SIZE - 1 else RING_SIZE - 1
    ensures Alone(Producer, s, t) && OthersSame(Producer, s, t) && t.producer.Ready?
    ensures var item := Item(n + 1, odd, x, y);
      && Matches(t, Publish(q, item).0) && Inv(Publish(q, item).0, t.log)
      && t.log == Items(0, n + 1, odd, x, y) && t.next == n + 1
      && Publish(q, item).0.cachedMin == (if n + 1 < RING_SIZE then 0 else RING_SIZE)
      && Publish(q, item).0.consumers == q.consumers
  {
    var item := Item(n + 1, odd, x, y);
    NextGoesThrough(s, q, n, reader, odd, x, y);
    t := SoloPublish(s, q, item);
    AloneLeavesOthers(Producer, s, t);
    PublishExact(q, s.log, item);
    OneMoreItem(n, odd, x, y);
  }

  lemma ConsumeInStep<W(!new)>(s: State<W>, q: QueueState<seq<W>>) returns (t: State<W>)
    requires Matches(s, q) && Inv(q, s.log) && s.parties[0].pc.Resting?
    requires IsActive(q, 0) && q.consumers[0].sequence == |s.log|
    ensures Alone(Owner(0), s, t) && OthersSame(Owner(0), s, t) && Sized(t) && t.parties[0].pc.Resting?
    ensures Matches(t, Consume(q, 0).0) && Inv(Consume(q, 0).0, t.log)
    ensures Consume(q, 0).0 == SetCursor(q, 0, |s.log| + 1)
  {
    t := SoloConsume(s, q, 0);
    AloneLeavesOthers(Owner(0), s, t);
    ConsumeExact(q, s.log, 0);
  }

  lemma StepTogether<W(!new)>(
      s0: State<W>, s: State<W>, q: QueueState<seq<W>>, n: nat, reader: bool, odd: nat, x: W, y: W, callers: Callers)
      returns (t: State<W>, q': QueueState<seq<W>>)
    requires Reaches(s0, s, callers) && InStep(s, q, n, reader, odd, x, y)
    requires n < if reader then 2 * RING_SIZE - 1 else RING_SIZE - 1
    ensures Reaches(s0, t, callers) && InStep(t, q', n + 1, reader, odd, x, y)
    ensures t.overlap == s.overlap
  {
    var item := Item(n + 1, odd, x, y);
    t := PublishInStep(s, q, n, reader, odd, x, y);
    ReachesAlone(s0, s, Producer, t, callers);
    q' := Publish(q, item).0;
    if reader {
      var u, q1 := t, q';
      t := ConsumeInStep(u, q1);
      ReachesAlone(s0, u, Owner(0), t, callers);
      q' := Consume(q1, 0).0;
    }
  }

  lemma {:induction false} GoTogether<W(!new)>(
      s0: State<W>, s: State<W>, q: QueueState<seq<W>>, n: nat, m: nat, reader: bool, odd: nat, x: W, y: W, callers: Callers)
      returns (t: State<W>, q': QueueState<seq<W>>)
    requires Reaches(s0, s, callers) && InStep(s, q, n, reader, odd, x, y)
    requires n <= m <= if reader then 2 * RING_SIZE - 1 else RING_SIZE - 1
    ensures Reaches(s0, t, callers) && InStep(t, q', m, reader, odd, x, y)
    ensures t.overlap == s.overlap
    decreases m - n
  {
    t, q' := s, q;
    if n < m {
      t, q' := StepTogether(s0, s, q, n, reader, odd, x, y, callers);
      t, q' := GoTogether(s0, t, q', n + 1, m, reader, odd, x, y, callers);
    }
  }

  lemma FirstJoins<W(!new)>(s0: State<W>, habit: Habit) returns (s: State<W>)
    requires Initial(s0)
    ensures Reaches(s0, s, Callers(habit, map[]))
    ensures s == SetParty(s0, 0, Party(true, 1, Resting, 1, [])).(everJoined := true)
  {
    var callers := Callers(habit, map[]);
    ReachesSelf(s0, habit);
    ReachesStep(s0, s0, JoinCas(0, 1, Between), callers);
    s := Apply(s0, JoinCas(0, 1, Between));
    ReachesStep(s0, s, JoinSet(0), callers);
    s := Apply(s, JoinSet(0));
  }

  /** A fresh queue, and the first registration at 1 where one is wanted. */
  lemma FreshInStep<W(!new)>(reader: bool, odd: nat, x: W, y: W, habit: Habit)
      returns (s0: State<W>, s: State<W>, q: QueueState<seq<W>>)
    ensures Initial(s0) && s0.overlap == OnlyFront && Reaches(s0, s, Callers(habit, map[]))
    ensures InStep(s, q, 0, reader, odd, x, y)
  {
    var nobody: Party<W> := Party(false, 0, Resting, 0, []);
    s0 := State(1, OnlyFront, seq(RING_SIZE, _ => Cell(0, [x])), seq(MAX_CONSUMERS, _ => nobody), 0, 0, Ready, false, []);
    q := QueueState(seq(RING_SIZE, _ => Slot(0, [x])), seq(MAX_CONSUMERS, _ => ConsumerSlot(false, 0)), 0, 0);
    ReachesSelf(s0, habit);
    s := s0;
    FreshInv(q);
    if reader {
      s := FirstJoins(s0, habit);
      RegisterExact(q, [], 1);
      q := Register(q, 1).0;
    }
  }

  // ---------- accepted, and lapped ----------

  lemma FastPublish<W>(q: QueueState<seq<W>>, item: seq<W>)
    requires WellSized(q) && q.cachedMin <= q.next < q.cachedMin + RING_SIZE - 1 && q.next < U64_MAX - 2
    ensures Publish(q, item).1 && Publish(q, item).0.next == q.next + 1
    ensures Publish(q, item).0.cachedMin == q.cachedMin
  {
    WrappingDifference(q.next + 1, q.cachedMin);
  }

  lemma RestingMayBegin<W>(s: State<W>, q: QueueState<seq<W>>, item: seq<W>)
    requires Matches(s, q) && s.producer.Ready? && AllResting(s) && |item| == s.width && q.next < U64_MAX - 2
    ensures Enabled(s, Begin(item))
  {
  }

  lemma SoloFast<W(!new)>(s0: State<W>, s: State<W>, q: QueueState<seq<W>>, item: seq<W>, callers: Callers)
      returns (t: State<W>, q': QueueState<seq<W>>)
    requires Reaches(s0, s, callers) && Matches(s, q) && s.producer.Ready? && AllResting(s) && |item| == s.width
    requires q.cachedMin <= q.next < q.cachedMin + RING_SIZE - 1 && q.next < U64_MAX - 2
    ensures Reaches(s0, t, callers) && Matches(t, q') && q' == Publish(q, item).0
    ensures q'.next == q.next + 1 && q'.cachedMin == q.cachedMin
    ensures t.producer.Ready? && t.parties == s.parties && t.width == s.width && t.log == s.log + [item]
  {
    FastPublish(q, item);
    RestingMayBegin(s, q, item);
    t := SoloPublish(s, q, item);
    q' := Publish(q, item).0;
    AloneLeavesOthers(Producer, s, t);
    ReachesAlone(s0, s, Producer, t, callers);
  }

  lemma PublishAllFrom<T>(q: QueueState<T>, log: seq<T>, items: seq<T>)
    requires WellSized(q) && items != []
    ensures WellSized(Publish(q, items[0]).0)
    ensures log + items == (log + [items[0]]) + items[1..]
    ensures H.PublishAll(q, items) == H.PublishAll(Publish(q, items[0]).0, items[1..])
  {
  }

  /** Publishes that need no scan, one after the other. */
  lemma {:induction false} SoloPublishAll<W(!new)>(
      s0: State<W>, s: State<W>, q: QueueState<seq<W>>, items: seq<seq<W>>, callers: Callers)
      returns (t: State<W>, q': QueueState<seq<W>>)
    requires Reaches(s0, s, callers) && Matches(s, q) && s.producer.Ready? && AllResting(s)
    requires forall i :: 0 <= i < |items| ==> |items[i]| == s.width
    requires q.cachedMin <= q.next && q.next + |items| < q.cachedMin + RING_SIZE < U64_MAX
    ensures Reaches(s0, t, callers) && Matches(t, q') && q' == H.PublishAll(q, items)
    ensures t.producer.Ready? && t.parties == s.parties && t.log == s.log + items
    decreases |items|
  {
    if items == [] {
      t, q' := s, q;
      assert s.log + items == s.log;
    } else {
      PublishAllFrom(q, s.log, items);
      var u, q1 := SoloFast(s0, s, q, items[0], callers);
      t, q' := SoloPublishAll(s0, u, q1, items[1..], callers);
    }
  }

  /** The scan is over, its minimum is the front, and a newcomer that it missed stands
      behind the front. */
  ghost predicate Missed<W>(
      s: State<W>, q: QueueState<seq<W>>, n: nat, c: nat, from: nat, odd: nat, x: W, y: W)
  {
    && Matches(s, q) && Stores(q, s.log) && AllResting(s)
    && s.width == 1 && s.next == n && s.log == Items(0, n, odd, x, y)
    && RING_SIZE <= n + 1 < U64_MAX - 2 * RING_SIZE
    && s.producer == Scanning(Item(n + 1, odd, x, y), MAX_CONSUMERS, n + 1)
    && c < MAX_CONSUMERS && 1 <= from <= n < from + RING_SIZE == odd
    && s.parties[c] == Party(true, from, Resting, from, [])
  }

  /** The publish goes through all the same. */
  lemma MissedIsAccepted<W(!new)>(
      s0: State<W>, s: State<W>, q: QueueState<seq<W>>, n: nat, c: nat, from: nat, odd: nat, x: W, y: W, callers: Callers)
      returns (t: State<W>, q': QueueState<seq<W>>)
    requires Reaches(s0, s, callers) && Missed(s, q, n, c, from, odd, x, y)
    ensures Reaches(s0, t, callers) && Matches(t, q') && Stores(q', t.log)
    ensures t.producer.Ready? && t.parties == s.parties && t.width == 1
    ensures q'.next == n + 1 == q'.cachedMin && t.log == Items(0, n + 1, odd, x, y)
  {
    var item := Item(n + 1, odd, x, y);
    WrappingDifference(n + 1, n + 1);
    AloneStart(Producer, s);
    SoloDecide(s, s, item, n + 1);
    var u := Decided(s, item, n + 1);
    assert u.ring[RingIndex(u.next)].words[..0] == item[..0];
    SoloWrite(s, u, item, 0);
    t := Written(u, item);
    ReachesAlone(s0, s, Producer, t, callers);
    var q1 := q.(cachedMin := n + 1);
    q' := Store(q1, item);
    assert Stores(q1, s.log);
    StoreExtendsLog(q1, s.log, item);
    OneMoreItem(n, odd, x, y);
  }

  /** Nothing stops the producer before it is a ring past the newcomer's start. */
  lemma MissedIsLapped<W(!new)>(
      s0: State<W>, s: State<W>, q: QueueState<seq<W>>, n: nat, c: nat, from: nat, odd: nat, x: W, y: W, callers: Callers)
      returns (t: State<W>, q': QueueState<seq<W>>)
    requires Reaches(s0, s, callers) && Missed(s, q, n, c, from, odd, x, y)
    ensures Reaches(s0, t, callers) && Matches(t, q') && t.parties == s.parties
    ensures t.log == Items(0, n + RING_SIZE, odd, x, y)
    ensures Consume(q', c).1 == Some(t.log[odd - 1])
  {
    var u, q1 := MissedIsAccepted(s0, s, q, n, c, from, odd, x, y, callers);
    var items := Items(n + 1, RING_SIZE - 1, odd, x, y);
    MoreItems(n + 1, RING_SIZE - 1, odd, x, y);
    t, q' := SoloPublishAll(s0, u, q1, items, callers);
    LappedGets(q1, u.log, items, c, odd);
  }

  lemma MoreItems<W>(n: nat, k: nat, odd: nat, x: W, y: W)
    ensures Items(0, n, odd, x, y) + Items(n, k, odd, x, y) == Items(0, n + k, odd, x, y)
  {
  }

  /** Which message the lapped reader gets. */
  lemma LappedGets<T>(q: QueueState<T>, log: seq<T>, items: seq<T>, c: nat, odd: nat)
    requires Stores(q, log) && q.next == q.cachedMin && IsActive(q, c) && |items| == RING_SIZE - 1
    requires RING_SIZE < odd < q.cachedMin + RING_SIZE <= U64_MAX - 2 && q.cachedMin <= odd
    requires q.consumers[c].sequence + RING_SIZE == odd
    ensures Consume(H.PublishAll(q, items), c).1 == Some((log + items)[odd - 1])
  {
    LastInOnceLapped(|log + items|, q.consumers[c].sequence);
    H.BelowTheCacheIsLapped(q, log, items, c);
  }

  /** The newcomer takes that message for the one it started at. */
  lemma MissedIsWrong<W(!new)>(
      s0: State<W>, s: State<W>, q: QueueState<seq<W>>, n: nat, c: nat, from: nat, odd: nat, x: W, y: W, callers: Callers)
      returns (t: State<W>)
    requires Reaches(s0, s, callers) && Missed(s, q, n, c, from, odd, x, y) && x != y
    ensures Reaches(s0, t, callers) && Sized(t) && Registered(t.parties[c])
    ensures |t.log| == n + RING_SIZE && t.parties[c].start == from
    ensures t.parties[c].delivered == [t.log[odd - 1]] != [t.log[from - 1]]
    ensures !ExactAt(t)
  {
    var u, q1 := MissedIsLapped(s0, s, q, n, c, from, odd, x, y, callers);
    t := NewcomerReads(u, q1, c, from, [y]);
    ReachesAlone(s0, u, Owner(c), t, callers);
    OneTooLate(t, c, from, [x], [y]);
  }

  lemma NewcomerReads<W(!new)>(s: State<W>, q: QueueState<seq<W>>, c: nat, from: nat, got: seq<W>)
      returns (t: State<W>)
    requires Matches(s, q) && c < MAX_CONSUMERS && s.parties[c] == Party(true, from, Resting, from, [])
    requires from < U64_MAX && Consume(q, c).1 == Some(got)
    ensures Alone(Owner(c), s, t) && Sized(t) && t.log == s.log
    ensures Registered(t.parties[c]) && t.parties[c].start == from && t.parties[c].sequence == from + 1
    ensures t.parties[c].delivered == [got]
  {
    t := SoloConsume(s, q, c);
    AloneLeavesOthers(Owner(c), s, t);
  }

  lemma OneTooLate<W>(t: State<W>, c: nat, from: nat, expected: seq<W>, got: seq<W>)
    requires Sized(t) && c < MAX_CONSUMERS && Registered(t.parties[c]) && 1 <= from <= |t.log|
    requires t.parties[c].start == from && t.parties[c].sequence == from + 1
    requires t.parties[c].delivered == [got] && t.log[from - 1] == expected != got
    ensures !ExactAt(t)
  {
    assert t.log[from - 1..from] == [expected];
  }

  lemma JoinsAtOnce<W(!new)>(s0: State<W>, s: State<W>, c: nat, from: nat, kind: JoinKind, callers: Callers)
      returns (t: State<W>)
    requires Reaches(s0, s, callers) && Sized(s) && AllResting(s) && c < MAX_CONSUMERS && !s.parties[c].active
    requires JoinsBy(s, c, from, kind, callers.habit, callers.seen)
    ensures Reaches(s0, t, callers) && Sized(t) && AllResting(t)
    ensures t == SetParty(s, c, Party(true, from, Resting, from, [])).(everJoined := true)
  {
    ReachesStep(s0, s, JoinCas(c, from, kind), callers);
    t := Apply(s, JoinCas(c, from, kind));
    ReachesStep(s0, t, JoinSet(c), callers);
    t := Apply(t, JoinSet(c));
  }

  // ---------- behind the front ----------

  /** Who registers at what it saw plus the offset, after so many claims, is so far
      behind next_ + 1. */
  function Distance(offset: nat, claims: nat): int {
    claims + 1 - offset
  }

  /** The producer has just scanned, for message 2048, when somebody takes record 1. */
  lemma JoinsAfterScan<W(!new)>(
      s0: State<W>, s: State<W>, q: QueueState<seq<W>>, distance: nat, odd: nat, x: W, y: W, callers: Callers)
      returns (t: State<W>, q': QueueState<seq<W>>)
    requires 1 <= distance <= RING_SIZE && odd == 3 * RING_SIZE - distance
    requires Reaches(s0, s, callers) && InStep(s, q, 2 * RING_SIZE - 1, true, odd, x, y)
    requires callers.habit.Reading? && 1 in callers.seen && distance == Distance(callers.habit.offset, callers.habit.claims)
    requires callers.seen[1] + callers.habit.claims == 2 * RING_SIZE - 1
    ensures Reaches(s0, t, callers)
    ensures Missed(t, q', 2 * RING_SIZE - 1, 1, 2 * RING_SIZE - distance, odd, x, y)
  {
    var n, from := 2 * RING_SIZE - 1, 2 * RING_SIZE - distance;
    var item := Item(n + 1, odd, x, y);
    OneReaderMin(q.consumers, n + 1);
    SoloSlowPath(s, item, q.consumers);
    t := s.(producer := Scanning(item, MAX_CONSUMERS, n + 1));
    ReachesAlone(s0, s, Producer, t, callers);
    t := JoinsAtOnce(s0, t, 1, from, Front, callers);
    q' := q.(consumers := q.consumers[1 := ConsumerSlot(true, from)]);
  }

  /** The caller looks in time for that many claims before message 2048. */
  lemma LooksEarlier<W(!new)>(offset: nat, claims: nat, odd: nat, x: W, y: W)
      returns (s0: State<W>, s: State<W>, q: QueueState<seq<W>>, callers: Callers)
    requires claims <= 2 * RING_SIZE - 1
    ensures Initial(s0) && s0.overlap == OnlyFront && Reaches(s0, s, callers)
    ensures InStep(s, q, 2 * RING_SIZE - 1, true, odd, x, y)
    ensures callers == Callers(Reading(offset, claims), map[1 := 2 * RING_SIZE - 1 - claims])
  {
    var n := 2 * RING_SIZE - 1 - claims;
    callers := Callers(Reading(offset, claims), map[]);
    s0, s, q := FreshInStep(true, odd, x, y, callers.habit);
    s, q := GoTogether(s0, s, q, 0, n, true, odd, x, y, callers);
    ReachesDeed(s0, s, Look(1), callers);
    callers := callers.(seen := callers.seen[1 := n]);
    s, q := GoTogether(s0, s, q, n, 2 * RING_SIZE - 1, true, odd, x, y, callers);
  }

  /** The run that goes wrong: 2047 messages are read as they come, the caller looks on
      the way, registers once the scan for message 2048 is over, and is handed a message
      1024 numbers after the one it starts at. */
  lemma BehindIsWrong<W(!new)>(offset: nat, claims: nat, x: W, y: W) returns (s0: State<W>, t: State<W>, callers: Callers)
    requires offset <= 1 && 1 <= Distance(offset, claims) <= RING_SIZE && x != y
    ensures Initial(s0) && s0.overlap == OnlyFront && callers.habit == Reading(offset, claims)
    ensures Reaches(s0, t, callers) && !ExactAt(t)
    ensures var start := 2 * RING_SIZE - Distance(offset, claims);
      && Sized(t) && Registered(t.parties[1]) && t.parties[1].start == start
      && |t.log| == 3 * RING_SIZE - 1 && t.parties[1].delivered == [t.log[start + RING_SIZE - 1]]
  {
    var distance := Distance(offset, claims);
    var odd := 3 * RING_SIZE - distance;
    var s, q;
    s0, s, q, callers := LooksEarlier(offset, claims, odd, x, y);
    s, q := JoinsAfterScan(s0, s, q, distance, odd, x, y, callers);
    t := MissedIsWrong(s0, s, q, 2 * RING_SIZE - 1, 1, 2 * RING_SIZE - distance, odd, x, y, callers);
  }

  /** Callers that look at the producer's position and register there, or one past it,
      inside the contract but at any moment: deliveries stay exact in every interleaving
      if and only if they register one past it and no publish claims a number between
      the look and the compare-and-swap. */
  lemma OverlappingJoinExactIff<W(!new)>(offset: nat, claims: nat, x: W, y: W)
    requires offset <= 1 && Distance(offset, claims) <= RING_SIZE && x != y
    ensures AlwaysExact<W>(Reading(offset, claims)) <==> offset == 1 && claims == 0
  {
    FrontIsExact<W>();
    if offset == 0 || claims > 0 {
      var s0, t, callers := BehindIsWrong(offset, claims, x, y);
      var deeds: seq<Deed<W>> :|
        RunsBy(Scene(s0, map[]), deeds, callers.habit) && AfterBy(Scene(s0, map[]), deeds, callers.habit) == Scene(t, callers.seen);
    }
  }

  // ---------- the first one and one at the front, in one publish ----------

  const MIXED := Callers(Mixed, map[])

  /** The scan for message 1024 has passed record 0, the first consumer ever takes it
      at 1, and another one takes record 1 at the front. */
  lemma BothJoinInScan<W(!new)>(s0: State<W>, s: State<W>, q: QueueState<seq<W>>, odd: nat, x: W, y: W)
      returns (t: State<W>)
    requires Reaches(s0, s, MIXED) && InStep(s, q, RING_SIZE - 1, false, odd, x, y)
    ensures var item := Item(RING_SIZE, odd, x, y);
      && Reaches(s0, t, MIXED) && Sized(t) && AllResting(t)
      && t == SetParty(SetParty(s, 0, Party(true, 1, Resting, 1, [])), 1, Party(true, RING_SIZE, Resting, RING_SIZE, []))
           .(producer := Scanning(item, 1, U64_MAX), everJoined := true)
  {
    var item := Item(RING_SIZE, odd, x, y);
    ReachesStep(s0, s, Begin(item), MIXED);
    t := Apply(s, Begin(item));
    assert t == s.(producer := Scanning(item, 0, U64_MAX));
    ReachesStep(s0, t, LoadActive, MIXED);
    t := Apply(t, LoadActive);
    t := JoinsAtOnce(s0, t, 0, 1, First, MIXED);
    t := JoinsAtOnce(s0, t, 1, RING_SIZE, Front, MIXED);
  }

  lemma RestOfScan<W(!new)>(s0: State<W>, s: State<W>, item: seq<W>, v: u64) returns (t: State<W>)
    requires Reaches(s0, s, MIXED) && Sized(s) && s.producer == Scanning(item, 1, U64_MAX)
    requires s.parties[1].active && s.parties[1].sequence == v
    requires forall c :: 2 <= c < MAX_CONSUMERS ==> !s.parties[c].active && s.parties[c].sequence == 0
    ensures Reaches(s0, t, MIXED) && t == s.(producer := Scanning(item, MAX_CONSUMERS, v))
  {
    var cs := seq(MAX_CONSUMERS, c => if c == 1 then ConsumerSlot(true, v) else ConsumerSlot(false, 0));
    assert cs[..1][..0] == [] && !cs[..1][0].active;
    assert ScanMin(cs) == v by {
      assert cs[1].active;
    }
    AloneStart(Producer, s);
    SoloScan(s, s, item, 1, cs);
    t := s.(producer := Scanning(item, MAX_CONSUMERS, v));
    ReachesAlone(s0, s, Producer, t, MIXED);
  }

  /** The two kinds of registration that may overlap a publish must not meet: then the
      first consumer can lose message 1 to message 1025. */
  lemma MixedIsWrong<W(!new)>(x: W, y: W) returns (s0: State<W>, t: State<W>)
    requires x != y
    ensures Initial(s0) && s0.overlap == OnlyFront && Reaches(s0, t, MIXED) && !ExactAt(t)
    ensures Sized(t) && Registered(t.parties[0]) && t.parties[0].start == 1
    ensures |t.log| == 2 * RING_SIZE - 1 && t.parties[0].delivered == [t.log[RING_SIZE]]
    ensures !AlwaysExact<W>(Mixed)
  {
    var odd, n := RING_SIZE + 1, RING_SIZE - 1;
    var s, q;
    s0, s, q := FreshInStep(false, odd, x, y, Mixed);
    s, q := GoTogether(s0, s, q, 0, n, false, odd, x, y, MIXED);
    t := BothJoinInScan(s0, s, q, odd, x, y);
    t := RestOfScan(s0, t, Item(n + 1, odd, x, y), RING_SIZE);
    q := q.(consumers := q.consumers[0 := ConsumerSlot(true, 1)][1 := ConsumerSlot(true, RING_SIZE)]);
    t := MissedIsWrong(s0, t, q, n, 0, 1, odd, x, y, MIXED);
    var deeds: seq<Deed<W>> :|
      RunsBy(Scene(s0, map[]), deeds, Mixed) && AfterBy(Scene(s0, map[]), deeds, Mixed) == Scene(t, map[]);
  }
}
