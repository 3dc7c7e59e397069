/** The queue as a machine that stops at every shared access, so that one producer
    and 64 consumers interleave freely. A message is `width` words, each written
    and copied by a step of its own. Loads and stores are sequentially consistent
    here; ReleaseAcquire weakens them. */
module StepMachine {
  import opened Arithmetic64
  import opened RingLayout
  import opened QueueSpec
  import opened Broadcast

  datatype Cell<W> = Cell(sequence: nat, words: seq<W>)

  /** Where the producer stands inside publish. */
  datatype ProducerPc<W> =
    | Ready
      // about to load consumers_[i].active, or to decide once i is 64
    | Scanning(item: seq<W>, i: nat, min: nat)
      // found consumers_[i] active, about to load its sequence
    | ScanningSequence(item: seq<W>, i: nat, min: nat)
      // next_ claimed, words 0 .. j-1 of the slot written
    | Writing(item: seq<W>, j: nat)

  /** When a registration takes place: with the producer between calls; as the very
      first one, at 1, at any moment; or at the front, next_ + 1, at any moment. */
  datatype JoinKind = Between | First | Front

  /** Which registrations may overlap a publish. */
  datatype Overlap = OnlyFirst | OnlyFront

  /** Where a consumer's owner stands. */
  datatype ReaderPc<W> =
    | Resting
      // won the CAS, about to store the start
    | Joining(from: nat, kind: JoinKind)
    | SawActive
    | SawSequence(expected: nat)
      // the slot tested ready; `buffer` holds the words copied so far
    | Copying(expected: nat, buffer: seq<W>)

  /** One consumer record with its owner; `start` and `delivered` are history. */
  datatype Party<W> = Party(
    active: bool,
    sequence: nat,
    pc: ReaderPc<W>,
    start: nat,
    delivered: seq<seq<W>>)

  datatype State<W> = State(
    width: nat,
    overlap: Overlap,
    ring: seq<Cell<W>>,
    parties: seq<Party<W>>,
    next: nat,
    cachedMin: nat,
    producer: ProducerPc<W>,
    everJoined: bool,
    log: seq<seq<W>>)

  datatype Action<W> =
    | Begin(item: seq<W>)
    | LoadActive
    | LoadSequence
    | Decide
    | WriteWord
    | Commit
    | JoinCas(c: nat, from: nat, kind: JoinKind)
    | JoinSet(c: nat)
    | Quit(c: nat)
    | CheckActive(c: nat)
    | LoadOwn(c: nat)
    | TestSlot(c: nat)
    | CopyWord(c: nat)
    | Finish(c: nat)

  predicate Sized<W>(s: State<W>) {
    && |s.ring| == RING_SIZE
    && |s.parties| == MAX_CONSUMERS
    && (forall i :: 0 <= i < RING_SIZE ==> |s.ring[i].words| == s.width)
    && (!s.producer.Ready? ==> |s.producer.item| == s.width)
  }

  predicate Initial<W>(s: State<W>) {
    && Sized(s)
    && s.next == 0 && s.cachedMin == 0 && s.producer == Ready && !s.everJoined && s.log == []
    && (forall i :: 0 <= i < RING_SIZE ==> s.ring[i].sequence == 0)
    && (forall c :: 0 <= c < MAX_CONSUMERS ==> s.parties[c] == Party(false, 0, Resting, 0, []))
  }

  // ---------- steps ----------

  /** What the code can do, whether or not its callers keep to any contract. */
  predicate Possible<W>(s: State<W>, a: Action<W>) {
    && Sized(s)
    && match a
      case Begin(item) =>
        s.producer.Ready? && |item| == s.width && s.next < U64_MAX - 2 && s.cachedMin <= U64_MAX
      case LoadActive => s.producer.Scanning? && s.producer.i < MAX_CONSUMERS
      case LoadSequence => s.producer.ScanningSequence? && s.producer.i < MAX_CONSUMERS
      case Decide =>
        s.producer.Scanning? && s.producer.i == MAX_CONSUMERS
        && s.next < U64_MAX && s.producer.min <= U64_MAX
      case WriteWord => s.producer.Writing? && s.producer.j < s.width
      case Commit => s.producer.Writing? && s.producer.j == s.width
      case JoinCas(c, _, _) => c < MAX_CONSUMERS && s.parties[c].pc.Resting? && !s.parties[c].active
      case JoinSet(c) => c < MAX_CONSUMERS && s.parties[c].pc.Joining?
      case Quit(c) => c < MAX_CONSUMERS && s.parties[c].pc.Resting? && s.parties[c].active
      case CheckActive(c) => c < MAX_CONSUMERS && s.parties[c].pc.Resting?
      case LoadOwn(c) => c < MAX_CONSUMERS && s.parties[c].pc.SawActive?
      case TestSlot(c) => c < MAX_CONSUMERS && s.parties[c].pc.SawSequence?
      case CopyWord(c) =>
        c < MAX_CONSUMERS && s.parties[c].pc.Copying? && |s.parties[c].pc.buffer| < s.width
      case Finish(c) =>
        c < MAX_CONSUMERS && s.parties[c].pc.Copying? && |s.parties[c].pc.buffer| == s.width
  }

  predicate JoinPending<W>(s: State<W>, kind: JoinKind)
    requires Sized(s)
  {
    exists d :: 0 <= d < MAX_CONSUMERS && s.parties[d].pc.Joining? && s.parties[d].pc.kind == kind
  }

  predicate MayJoin<W>(s: State<W>, from: nat, kind: JoinKind)
    requires Sized(s)
  {
    && !JoinPending(s, First)
    && match kind
      case Between =>
        && s.producer.Ready? && from <= U64_MAX && s.next <= U64_MAX && s.cachedMin <= U64_MAX
        && RegistrationContract(from, s.next, s.cachedMin)
      case First => s.overlap.OnlyFirst? && !s.everJoined && from == 1
      case Front => s.overlap.OnlyFront? && from == s.next + 1
  }

  /** A step within the contract of registration: a start that is neither the first nor
      at the front is stored before the next publish begins. */
  predicate Enabled<W>(s: State<W>, a: Action<W>) {
    && Possible(s, a)
    && (a.JoinCas? ==> MayJoin(s, a.from, a.kind))
    && (a.Begin? ==> !JoinPending(s, Between))
  }

  function SetParty<W>(s: State<W>, c: nat, p: Party<W>): State<W>
    requires Sized(s) && c < MAX_CONSUMERS
  {
    s.(parties := s.parties[c := p])
  }

  function SetCell<W>(s: State<W>, i: nat, cell: Cell<W>): State<W>
    requires Sized(s) && i < RING_SIZE
  {
    s.(ring := s.ring[i := cell])
  }

  function Apply<W>(s: State<W>, a: Action<W>): (s': State<W>)
    requires Possible(s, a)
    ensures Sized(s') && s'.width == s.width && s'.overlap == s.overlap
  {
    match a
    case Begin(item) =>
      if SeemsFull(s.next + 1, s.cachedMin) then s.(producer := Scanning(item, 0, U64_MAX))
      else s.(next := s.next + 1, producer := Writing(item, 0))
    case LoadActive =>
      var p := s.producer;
      if s.parties[p.i].active then s.(producer := ScanningSequence(p.item, p.i, p.min))
      else s.(producer := Scanning(p.item, p.i + 1, p.min))
    case LoadSequence =>
      var p := s.producer;
      var v := s.parties[p.i].sequence;
      s.(producer := Scanning(p.item, p.i + 1, if v < p.min then v else p.min))
    case Decide =>
      var p := s.producer;
      if SeemsFull(s.next + 1, p.min) then s.(cachedMin := p.min, producer := Ready)
      else s.(cachedMin := p.min, next := s.next + 1, producer := Writing(p.item, 0))
    case WriteWord =>
      var p, i := s.producer, RingIndex(s.next);
      var cell := s.ring[i];
      SetCell(s, i, cell.(words := cell.words[p.j := p.item[p.j]])).(producer := Writing(p.item, p.j + 1))
    case Commit =>
      var p, i := s.producer, RingIndex(s.next);
      SetCell(s, i, s.ring[i].(sequence := s.next + 1)).(producer := Ready, log := s.log + [p.item])
    case JoinCas(c, from, kind) =>
      SetParty(s, c, s.parties[c].(active := true, pc := Joining(from, kind))).(everJoined := true)
    case JoinSet(c) =>
      var from := s.parties[c].pc.from;
      SetParty(s, c, s.parties[c].(sequence := from, pc := Resting, start := from, delivered := []))
    case Quit(c) =>
      SetParty(s, c, s.parties[c].(active := false))
    case CheckActive(c) =>
      SetParty(s, c, s.parties[c].(pc := if s.parties[c].active then SawActive else Resting))
    case LoadOwn(c) =>
      SetParty(s, c, s.parties[c].(pc := SawSequence(s.parties[c].sequence)))
    case TestSlot(c) =>
      var x := s.parties[c].pc.expected;
      var ready := s.ring[RingIndex(x)].sequence > x;
      SetParty(s, c, s.parties[c].(pc := if ready then Copying(x, []) else Resting))
    case CopyWord(c) =>
      var p := s.parties[c].pc;
      var word := s.ring[RingIndex(p.expected)].words[|p.buffer|];
      SetParty(s, c, s.parties[c].(pc := Copying(p.expected, p.buffer + [word])))
    case Finish(c) =>
      var p := s.parties[c];
      SetParty(s, c, p.(sequence := p.pc.expected + 1, pc := Resting, delivered := p.delivered + [p.pc.buffer]))
  }

  // ---------- the invariant ----------

  /** Registered: past the store that sets the start. */
  predicate Registered<W>(p: Party<W>) {
    p.active && !p.pc.Joining?
  }

  /** A position the producer must not run away from: that of a registered consumer,
      or the start that one joining at the front has still to store. */
  predicate Holds<W>(p: Party<W>) {
    p.active && (p.pc.Joining? ==> p.pc.kind.Front?)
  }

  function Position<W>(p: Party<W>): nat {
    if p.pc.Joining? then p.pc.from else p.sequence
  }

  /** The slot holds its latest committed message; its words may be in flux only
      while the producer is overwriting it. */
  ghost predicate CellOk<W>(cell: Cell<W>, log: seq<seq<W>>, i: nat, overwriting: bool) {
    var l := LastIn(|log|, i);
    if l == 0 then cell.sequence == 0
    else cell.sequence == l + 1 && (!overwriting ==> cell.words == log[l - 1])
  }

  /** The slot being overwritten, or 1024 for none. */
  function BusySlot<W>(s: State<W>): nat {
    if s.producer.Writing? then RingIndex(s.next) else RING_SIZE
  }

  ghost predicate RingOk<W>(ring: seq<Cell<W>>, log: seq<seq<W>>, width: nat, busy: nat) {
    && |ring| == RING_SIZE
    && (forall i :: 0 <= i < RING_SIZE ==> CellOk(ring[i], log, i, i == busy))
    && (forall m :: 0 <= m < |log| ==> |log[m]| == width)
  }

  ghost predicate ProducerOk<W>(s: State<W>)
    requires Sized(s)
  {
    && s.next == |s.log| + (if s.producer.Writing? then 1 else 0)
    && s.next <= U64_MAX - 2
    && 0 <= s.cachedMin <= U64_MAX
    && CacheSound(s.next, s.cachedMin)
    && match s.producer
      case Ready => true
      case Scanning(_, i, min) => i <= MAX_CONSUMERS && s.next < U64_MAX - 2 && ScanOk(s, i, min)
      case ScanningSequence(_, i, min) => i < MAX_CONSUMERS && s.next < U64_MAX - 2 && ScanOk(s, i, min)
      case Writing(item, j) => j <= s.width && s.ring[RingIndex(s.next)].words[..j] == item[..j]
  }

  /** The running minimum bounds every position passed so far. While it is still the
      sentinel, only those can have slipped past that joined during this scan. */
  ghost predicate ScanOk<W>(s: State<W>, i: nat, min: nat)
    requires Sized(s) && i <= MAX_CONSUMERS
  {
    && s.next >= RING_SIZE - 1
    && (min == U64_MAX || min <= s.next + 1)
    && forall d :: 0 <= d < i && Holds(s.parties[d]) ==> PassedOk(s, d, min)
  }

  ghost predicate PassedOk<W>(s: State<W>, d: nat, min: nat)
    requires Sized(s) && d < MAX_CONSUMERS
  {
    if min != U64_MAX then min <= Position(s.parties[d])
    else if s.overlap.OnlyFirst? then s.next < RING_SIZE && OnlyOneEver(s, d)
    else Position(s.parties[d]) > s.next
  }

  ghost predicate OnlyOneEver<W>(s: State<W>, c: nat)
    requires Sized(s)
  {
    forall d :: 0 <= d < MAX_CONSUMERS && d != c ==> !s.parties[d].active && s.parties[d].sequence == 0
  }

  /** The window of a position, seen from the producer's claimed number and its cache. */
  ghost predicate WindowOk(position: nat, next: nat, cachedMin: nat) {
    && 1 <= position <= next + 1
    && next < position + RING_SIZE
    && (cachedMin == U64_MAX || cachedMin <= position)
  }

  ghost predicate DeliveredOk<W>(p: Party<W>, log: seq<seq<W>>) {
    !p.pc.Joining? && p.start >= 1 ==> GivenExactly(log, p.start, p.sequence, p.delivered)
  }

  ghost predicate PcOk<W>(p: Party<W>, log: seq<seq<W>>, width: nat) {
    match p.pc
    case SawSequence(x) => x == p.sequence
    case Copying(x, buffer) =>
      && 1 <= x == p.sequence <= |log|
      && |buffer| <= width == |log[x - 1]| && buffer == log[x - 1][..|buffer|]
    case _ => true
  }

  ghost predicate PartyOk<W>(p: Party<W>, log: seq<seq<W>>, next: nat, cachedMin: nat, width: nat) {
    && (Registered(p) ==> p.start >= 1)
    && (Holds(p) ==> WindowOk(Position(p), next, cachedMin) && p.sequence <= Position(p))
    && p.sequence <= next + 1
    && (!p.active ==> p.pc.Resting?)
    && DeliveredOk(p, log)
    && PcOk(p, log, width)
  }

  ghost predicate PartiesOk<W>(s: State<W>)
    requires Sized(s)
  {
    forall c :: 0 <= c < MAX_CONSUMERS ==> PartyOk(s.parties[c], s.log, s.next, s.cachedMin, s.width)
  }

  /** A registration made between calls still meets the contract when it is stored. */
  ghost predicate LateOk<W>(s: State<W>, from: nat) {
    && s.producer.Ready?
    && 1 <= from <= s.next + 1 <= from + RING_SIZE
    && (s.cachedMin == U64_MAX || s.cachedMin <= from)
  }

  /** Nobody but possibly c has ever joined, and c's sequence still reads 0: the
      producer cannot be past 1023 and any scan can only refuse. */
  ghost predicate Untouched<W>(s: State<W>, c: nat)
    requires Sized(s)
  {
    && s.next < RING_SIZE
    && (s.cachedMin == 0 || s.cachedMin == U64_MAX)
    && (s.producer.Scanning? || s.producer.ScanningSequence? ==> s.producer.min == 0 || s.producer.min == U64_MAX)
    && (c < MAX_CONSUMERS ==> s.parties[c].sequence == 0)
    && OnlyOneEver(s, c)
  }

  ghost predicate JoinOk<W>(s: State<W>, c: nat, from: nat, kind: JoinKind)
    requires Sized(s)
  {
    match kind
    case Between => LateOk(s, from)
    case First => s.overlap.OnlyFirst? && s.everJoined && from == 1 && Untouched(s, c)
    case Front => s.overlap.OnlyFront? && s.everJoined
  }

  ghost predicate JoiningOk<W>(s: State<W>)
    requires Sized(s)
  {
    && (!s.everJoined ==> Untouched(s, MAX_CONSUMERS))
    && (forall c :: 0 <= c < MAX_CONSUMERS && s.parties[c].pc.Joining? ==>
          JoinOk(s, c, s.parties[c].pc.from, s.parties[c].pc.kind))
  }

  ghost predicate Safe<W>(s: State<W>) {
    && Sized(s)
    && RingOk(s.ring, s.log, s.width, BusySlot(s))
    && ProducerOk(s) && PartiesOk(s) && JoiningOk(s)
  }

  lemma InitialSafe<W>(s: State<W>)
    requires Initial(s)
    ensures Safe(s)
  {
  }

  // ---------- every step keeps the invariant ----------

  lemma BusyIsWeaker<W>(ring: seq<Cell<W>>, log: seq<seq<W>>, width: nat, busy: nat)
    requires RingOk(ring, log, width, RING_SIZE)
    ensures RingOk(ring, log, width, busy)
  {
    forall i | 0 <= i < RING_SIZE ensures CellOk(ring[i], log, i, i == busy) {
      assert CellOk(ring[i], log, i, i == RING_SIZE);
    }
  }

  ghost predicate BoundsAll<W>(s: State<W>, min: nat)
    requires Sized(s)
  {
    forall c :: 0 <= c < MAX_CONSUMERS && Holds(s.parties[c]) ==> min <= Position(s.parties[c])
  }

  /** Claiming a number is safe once it is within a ring of a bound on all cursors. */
  lemma ClaimKeepsParties<W>(s: State<W>, min: nat)
    requires Sized(s) && PartiesOk(s) && min < U64_MAX && s.next + 1 < min + RING_SIZE
    requires BoundsAll(s, min)
    ensures forall c :: 0 <= c < MAX_CONSUMERS ==>
      PartyOk(s.parties[c], s.log, s.next + 1, min, s.width)
  {
    forall c | 0 <= c < MAX_CONSUMERS
      ensures PartyOk(s.parties[c], s.log, s.next + 1, min, s.width)
    {
      assert PartyOk(s.parties[c], s.log, s.next, s.cachedMin, s.width);
    }
  }

  lemma CacheBoundsAll<W>(s: State<W>)
    requires Sized(s) && PartiesOk(s) && s.cachedMin != U64_MAX
    ensures BoundsAll(s, s.cachedMin)
  {
    forall c | 0 <= c < MAX_CONSUMERS && Holds(s.parties[c])
      ensures s.cachedMin <= Position(s.parties[c])
    {
      assert PartyOk(s.parties[c], s.log, s.next, s.cachedMin, s.width);
    }
  }

  /** Entering the write phase, on the strength of a bound on all cursors. */
  lemma ClaimKeepsSafe<W>(s: State<W>, item: seq<W>, min: nat)
    requires Safe(s) && !s.producer.Writing? && |item| == s.width && s.next < U64_MAX - 2
    requires min <= s.next + 1 < min + RING_SIZE && min < U64_MAX
    requires BoundsAll(s, min) && !JoinPending(s, Between)
    requires JoinPending(s, First) ==> s.next + 1 < RING_SIZE && min == 0
    requires !s.everJoined ==> s.next + 1 < RING_SIZE && min == 0
    ensures Safe(s.(cachedMin := min, next := s.next + 1, producer := Writing(item, 0)))
  {
    ClaimKeepsParties(s, min);
    BusyIsWeaker(s.ring, s.log, s.width, RingIndex(s.next + 1));
  }

  lemma SlowPathKeepsSafe<W>(s: State<W>, item: seq<W>)
    requires Safe(s) && s.producer.Ready? && |item| == s.width
    requires s.next < U64_MAX - 2 && s.next >= RING_SIZE - 1 && !JoinPending(s, Between)
    ensures Safe(s.(producer := Scanning(item, 0, U64_MAX)))
  {
  }

  /** The fast check in integers: refuse when a ring ahead of the cache, or when the
      cache is the sentinel. */
  lemma BeginIs<W>(s: State<W>, item: seq<W>)
    requires Enabled(s, Begin(item)) && CacheSound(s.next, s.cachedMin)
    ensures Apply(s, Begin(item)) ==
      if s.cachedMin == U64_MAX || s.next + 1 >= s.cachedMin + RING_SIZE
      then s.(producer := Scanning(item, 0, U64_MAX))
      else s.(cachedMin := s.cachedMin, next := s.next + 1, producer := Writing(item, 0))
  {
    DistanceTest(s.next, s.cachedMin);
    DistanceTest(s.next, U64_MAX);
  }

  lemma BeginKeepsSafe<W>(s: State<W>, item: seq<W>)
    requires Safe(s) && Enabled(s, Begin(item))
    ensures Safe(Apply(s, Begin(item)))
  {
    BeginIs(s, item);
    if s.cachedMin == U64_MAX || s.next + 1 >= s.cachedMin + RING_SIZE {
      SlowPathKeepsSafe(s, item);
    } else {
      CacheBoundsAll(s);
      ClaimKeepsSafe(s, item, s.cachedMin);
    }
  }

  lemma LoadActiveKeepsSafe<W>(s: State<W>)
    requires Safe(s) && Enabled(s, LoadActive)
    ensures Safe(Apply(s, LoadActive))
  {
    assert PartyOk(s.parties[s.producer.i], s.log, s.next, s.cachedMin, s.width);
  }

  lemma LoadSequenceKeepsSafe<W>(s: State<W>)
    requires Safe(s) && Enabled(s, LoadSequence)
    ensures Safe(Apply(s, LoadSequence))
  {
  }

  /** A refusal only replaces the cache, by the scanned minimum. */
  lemma RefreshKeepsParties<W>(s: State<W>, min: nat)
    requires Sized(s) && PartiesOk(s)
    requires min == U64_MAX || BoundsAll(s, min)
    ensures forall c :: 0 <= c < MAX_CONSUMERS ==>
      PartyOk(s.parties[c], s.log, s.next, min, s.width)
  {
    forall c | 0 <= c < MAX_CONSUMERS
      ensures PartyOk(s.parties[c], s.log, s.next, min, s.width)
    {
      assert PartyOk(s.parties[c], s.log, s.next, s.cachedMin, s.width);
    }
  }

  lemma RefuseKeepsSafe<W>(s: State<W>, min: nat)
    requires Safe(s) && s.producer.Scanning? && min <= U64_MAX && CacheSound(s.next, min)
    requires min == U64_MAX || BoundsAll(s, min)
    requires s.producer.min == min
    ensures Safe(s.(cachedMin := min, producer := Ready))
  {
    RefreshKeepsParties(s, min);
  }

  /** What the scan has established when it ends. */
  lemma ScannedMinimum<W>(s: State<W>)
    requires Safe(s) && Enabled(s, Decide)
    ensures var min := s.producer.min;
      && RING_SIZE - 1 <= s.next < U64_MAX - 2
      && (min == U64_MAX || (min <= s.next + 1 && BoundsAll(s, min)))
  {
  }

  lemma DecideIs<W>(s: State<W>)
    requires Enabled(s, Decide) && RING_SIZE - 1 <= s.next < U64_MAX - 2
    requires s.producer.min == U64_MAX || s.producer.min <= s.next + 1
    ensures Apply(s, Decide) ==
      if s.producer.min == U64_MAX || s.next + 1 >= s.producer.min + RING_SIZE
      then s.(cachedMin := s.producer.min, producer := Ready)
      else s.(cachedMin := s.producer.min, next := s.next + 1, producer := Writing(s.producer.item, 0))
  {
    DistanceTest(s.next, s.producer.min);
    DistanceTest(s.next, U64_MAX);
  }

  lemma DecideKeepsSafe<W>(s: State<W>)
    requires Safe(s) && Enabled(s, Decide)
    ensures Safe(Apply(s, Decide))
  {
    ScannedMinimum(s);
    DecideIs(s);
    if s.producer.min == U64_MAX || s.next + 1 >= s.producer.min + RING_SIZE {
      RefuseKeepsSafe(s, s.producer.min);
    } else {
      ClaimKeepsSafe(s, s.producer.item, s.producer.min);
    }
  }

  /** Consumer c copies from a slot that nobody is writing and that holds the expected
      message; what it has copied so far is the beginning of that message. */
  ghost predicate CopiesCleanly<W>(s: State<W>, c: nat)
    requires Sized(s) && c < MAX_CONSUMERS && s.parties[c].pc.Copying?
  {
    var x, buffer := s.parties[c].pc.expected, s.parties[c].pc.buffer;
    && 1 <= x <= |s.log| && RingIndex(x) != BusySlot(s)
    && s.ring[RingIndex(x)] == Cell(x + 1, s.log[x - 1])
    && |buffer| <= s.width && buffer == s.log[x - 1][..|buffer|]
  }

  /** While a slot is overwritten, nobody is copying from it. */
  lemma CopiedSlotIsStable<W>(s: State<W>, c: nat)
    requires Safe(s) && c < MAX_CONSUMERS && s.parties[c].pc.Copying?
    ensures CopiesCleanly(s, c)
  {
    var x := s.parties[c].pc.expected;
    assert PartyOk(s.parties[c], s.log, s.next, s.cachedMin, s.width);
    LastInOf(|s.log|, x);
    if s.producer.Writing? {
      DistinctSlots(x, s.next);
    }
    assert CellOk(s.ring[RingIndex(x)], s.log, RingIndex(x), false);
  }

  lemma WriteKeepsRing<W>(ring: seq<Cell<W>>, log: seq<seq<W>>, width: nat, busy: nat, cell: Cell<W>)
    requires RingOk(ring, log, width, busy) && busy < RING_SIZE
    requires cell.sequence == ring[busy].sequence
    ensures RingOk(ring[busy := cell], log, width, busy)
  {
    var ring' := ring[busy := cell];
    forall i | 0 <= i < RING_SIZE ensures CellOk(ring'[i], log, i, i == busy) {
      assert CellOk(ring[i], log, i, i == busy);
    }
  }

  lemma WriteKeepsSafe<W>(s: State<W>)
    requires Safe(s) && Enabled(s, WriteWord)
    ensures Safe(Apply(s, WriteWord))
  {
    var i := RingIndex(s.next);
    WriteKeepsRing(s.ring, s.log, s.width, i, Apply(s, WriteWord).ring[i]);
  }

  lemma CommitKeepsRing<W>(ring: seq<Cell<W>>, log: seq<seq<W>>, width: nat, item: seq<W>)
    requires |item| == width
    requires RingOk(ring, log, width, RingIndex(|log| + 1))
    ensures RingOk(ring[RingIndex(|log| + 1) := Cell(|log| + 2, item)], log + [item], width, RING_SIZE)
  {
    var busy, log' := RingIndex(|log| + 1), log + [item];
    var ring' := ring[busy := Cell(|log| + 2, item)];
    forall i | 0 <= i < RING_SIZE ensures CellOk(ring'[i], log', i, false) {
      assert CellOk(ring[i], log, i, i == busy);
      if i != busy {
        assert LastIn(|log'|, i) == LastIn(|log|, i);
      }
    }
  }

  lemma LongerLogKeepsParty<W>(p: Party<W>, log: seq<seq<W>>, item: seq<W>, next: nat, cachedMin: nat, width: nat)
    requires PartyOk(p, log, next, cachedMin, width)
    ensures PartyOk(p, log + [item], next, cachedMin, width)
  {
    if !p.pc.Joining? && p.start >= 1 && p.start < p.sequence {
      assert (log + [item])[p.start - 1..p.sequence - 1] == log[p.start - 1..p.sequence - 1];
    }
  }

  lemma CommitKeepsSafe<W>(s: State<W>)
    requires Safe(s) && Enabled(s, Commit)
    ensures Safe(Apply(s, Commit))
  {
    var s', i := Apply(s, Commit), RingIndex(s.next);
    assert s'.ring[i] == Cell(s.next + 1, s.producer.item) by {
      assert s.ring[i].words[..s.width] == s.ring[i].words;
    }
    CommitKeepsRing(s.ring, s.log, s.width, s.producer.item);
    forall c | 0 <= c < MAX_CONSUMERS
      ensures PartyOk(s'.parties[c], s'.log, s'.next, s'.cachedMin, s'.width)
    {
      LongerLogKeepsParty(s.parties[c], s.log, s.producer.item, s.next, s.cachedMin, s.width);
    }
  }

  lemma JoinCasKeepsSafe<W>(s: State<W>, c: nat, from: nat, kind: JoinKind)
    requires Safe(s) && Enabled(s, JoinCas(c, from, kind))
    ensures Safe(Apply(s, JoinCas(c, from, kind)))
  {
    var s' := Apply(s, JoinCas(c, from, kind));
    assert PartyOk(s.parties[c], s.log, s.next, s.cachedMin, s.width);
    assert PartiesOk(s');
    assert ProducerOk(s');
  }

  lemma JoinSetKeepsProducer<W>(s: State<W>, c: nat)
    requires Safe(s) && Enabled(s, JoinSet(c))
    ensures ProducerOk(Apply(s, JoinSet(c)))
  {
  }

  lemma JoinSetKeepsJoining<W>(s: State<W>, c: nat)
    requires Safe(s) && Enabled(s, JoinSet(c))
    ensures JoiningOk(Apply(s, JoinSet(c)))
  {
  }

  lemma JoinSetKeepsSafe<W>(s: State<W>, c: nat)
    requires Safe(s) && Enabled(s, JoinSet(c))
    ensures Safe(Apply(s, JoinSet(c)))
  {
    JoinSetKeepsProducer(s, c);
    JoinSetKeepsJoining(s, c);
  }

  lemma QuitKeepsSafe<W>(s: State<W>, c: nat)
    requires Safe(s) && Enabled(s, Quit(c))
    ensures Safe(Apply(s, Quit(c)))
  {
    var s' := Apply(s, Quit(c));
    assert PartyOk(s.parties[c], s.log, s.next, s.cachedMin, s.width);
    assert PartiesOk(s');
    assert ProducerOk(s');
  }

  /** What a party may do without joining or leaving. */
  ghost predicate MovesOn<W>(s: State<W>, c: nat, p: Party<W>)
    requires Sized(s) && c < MAX_CONSUMERS
  {
    && !s.parties[c].pc.Joining? && !p.pc.Joining?
    && p.active == s.parties[c].active
    && s.parties[c].sequence <= p.sequence
    && (!p.active ==> p == s.parties[c])
    && PartyOk(p, s.log, s.next, s.cachedMin, s.width)
  }

  lemma MovingOnKeepsProducer<W>(s: State<W>, c: nat, p: Party<W>)
    requires Safe(s) && c < MAX_CONSUMERS && MovesOn(s, c, p)
    ensures ProducerOk(SetParty(s, c, p))
  {
  }

  lemma MovingOnKeepsJoining<W>(s: State<W>, c: nat, p: Party<W>)
    requires Safe(s) && c < MAX_CONSUMERS && MovesOn(s, c, p)
    ensures JoiningOk(SetParty(s, c, p))
  {
  }

  /** A party that moves on disturbs nothing else. */
  lemma MovingOnKeepsSafe<W>(s: State<W>, c: nat, p: Party<W>)
    requires Safe(s) && c < MAX_CONSUMERS && MovesOn(s, c, p)
    ensures Safe(SetParty(s, c, p))
  {
    MovingOnKeepsProducer(s, c, p);
    MovingOnKeepsJoining(s, c, p);
  }

  lemma TestFindsExactly<W>(s: State<W>, c: nat)
    requires Safe(s) && Enabled(s, TestSlot(c))
    ensures var x := s.parties[c].pc.expected;
      && 1 <= x <= s.next + 1 && x == s.parties[c].sequence
      && (s.ring[RingIndex(x)].sequence > x <==> x <= |s.log|)
  {
    var x := s.parties[c].pc.expected;
    assert PartyOk(s.parties[c], s.log, s.next, s.cachedMin, s.width);
    LastInOf(|s.log|, x);
    assert CellOk(s.ring[RingIndex(x)], s.log, RingIndex(x), RingIndex(x) == BusySlot(s));
  }

  lemma LookKeepsSafe<W>(s: State<W>, a: Action<W>)
    requires Safe(s) && Enabled(s, a) && (a.CheckActive? || a.LoadOwn?)
    ensures Safe(Apply(s, a))
  {
    assert PartyOk(s.parties[a.c], s.log, s.next, s.cachedMin, s.width);
    MovingOnKeepsSafe(s, a.c, Apply(s, a).parties[a.c]);
  }

  lemma TestKeepsSafe<W>(s: State<W>, c: nat)
    requires Safe(s) && Enabled(s, TestSlot(c))
    ensures Safe(Apply(s, TestSlot(c)))
  {
    assert PartyOk(s.parties[c], s.log, s.next, s.cachedMin, s.width);
    TestFindsExactly(s, c);
    MovingOnKeepsSafe(s, c, Apply(s, TestSlot(c)).parties[c]);
  }

  lemma CopyKeepsSafe<W>(s: State<W>, c: nat)
    requires Safe(s) && Enabled(s, CopyWord(c))
    ensures Safe(Apply(s, CopyWord(c)))
  {
    assert PartyOk(s.parties[c], s.log, s.next, s.cachedMin, s.width);
    CopiedSlotIsStable(s, c);
    MovingOnKeepsSafe(s, c, Apply(s, CopyWord(c)).parties[c]);
  }

  lemma FinishKeepsSafe<W>(s: State<W>, c: nat)
    requires Safe(s) && Enabled(s, Finish(c))
    ensures Safe(Apply(s, Finish(c)))
    ensures s.parties[c].pc.buffer == s.log[s.parties[c].pc.expected - 1]
  {
    var p := s.parties[c];
    assert PartyOk(p, s.log, s.next, s.cachedMin, s.width);
    var message := s.log[p.pc.expected - 1];
    assert message[..s.width] == message;
    assert s.log[p.start - 1..p.sequence] == s.log[p.start - 1..p.sequence - 1] + [message];
    MovingOnKeepsSafe(s, c, Apply(s, Finish(c)).parties[c]);
  }

  lemma StepKeepsSafe<W>(s: State<W>, a: Action<W>)
    requires Safe(s) && Enabled(s, a)
    ensures Safe(Apply(s, a))
  {
    match a
    case Begin(item) => BeginKeepsSafe(s, item);
    case LoadActive => LoadActiveKeepsSafe(s);
    case LoadSequence => LoadSequenceKeepsSafe(s);
    case Decide => DecideKeepsSafe(s);
    case WriteWord => WriteKeepsSafe(s);
    case Commit => CommitKeepsSafe(s);
    case JoinCas(c, from, kind) => JoinCasKeepsSafe(s, c, from, kind);
    case JoinSet(c) => JoinSetKeepsSafe(s, c);
    case Quit(c) => QuitKeepsSafe(s, c);
    case TestSlot(c) => TestKeepsSafe(s, c);
    case CopyWord(c) => CopyKeepsSafe(s, c);
    case Finish(c) => FinishKeepsSafe(s, c);
    case _ => LookKeepsSafe(s, a);
  }
}
