/** The queue under release/acquire, with a fixed set of k >= 1 consumers that all
    start at message 1. An acquire load may return any entry of its location's
    modification order that the thread's view does not rule out; data words are
    plain memory, so a data race is an access not ordered after the last one. */
module ReleaseAcquire {
  import opened Arithmetic64
  import opened RingLayout
  import opened QueueSpec
  import opened Views

  /** A slot: the modification order of its sequence, the plain words, and the epochs
      of the last write and of each consumer's last read of those words. */
  datatype Cell<W> = Cell(history: seq<Entry>, words: seq<W>, lastWrite: nat, lastRead: seq<nat>)

  datatype ProducerPc<W> =
    | Ready
    | Scanning(item: seq<W>, i: nat, min: nat)
    | Writing(item: seq<W>, j: nat)
    | Stopped

  datatype ProducerThread<W> = ProducerThread(
    epoch: nat,
    view: View,
    next: nat,
    cachedMin: nat,
    pc: ProducerPc<W>)

  datatype ReaderPc<W> =
    | Resting
    | Loaded(expected: nat)
    | Copying(expected: nat, buffer: seq<W>)
    | AtFlag
    | Finished

  /** A consumer thread with the modification order of its cursor. */
  datatype Reader<W> = Reader(
    cursor: seq<Entry>,
    epoch: nat,
    view: View,
    pc: ReaderPc<W>,
    draining: bool,
    delivered: seq<seq<W>>)

  datatype State<W> = State(
    width: nat,
    cells: seq<Cell<W>>,
    readers: seq<Reader<W>>,
    flag: seq<Entry>,
    producer: ProducerThread<W>,
    log: seq<seq<W>>)

  /** The loads carry the position of the entry they happen to return. */
  datatype Action<W> =
    | Begin(item: seq<W>)
    | LoadCursor(idx: nat)
    | Decide
    | WriteWord
    | Commit
    | StoreFlag
    | LoadOwn(c: nat, idx: nat)
    | TestSlot(c: nat, idx: nat)
    | CopyWord(c: nat)
    | Finish(c: nat)
    | CheckFlag(c: nat, idx: nat)

  predicate EntriesShaped(h: seq<Entry>, k: nat) {
    h != [] && forall j :: 0 <= j < |h| ==> Shaped(h[j].view, k)
  }

  predicate CellShaped<W>(cell: Cell<W>, width: nat, k: nat) {
    EntriesShaped(cell.history, k) && |cell.words| == width && |cell.lastRead| == k
  }

  predicate ReaderShaped<W>(r: Reader<W>, k: nat) {
    EntriesShaped(r.cursor, k) && Shaped(r.view, k)
  }

  predicate Sized<W>(s: State<W>) {
    var k := |s.readers|;
    && 1 <= k <= MAX_CONSUMERS
    && |s.cells| == RING_SIZE
    && (forall i :: 0 <= i < RING_SIZE ==> CellShaped(s.cells[i], s.width, k))
    && (forall c :: 0 <= c < k ==> ReaderShaped(s.readers[c], k))
    && EntriesShaped(s.flag, k)
    && Shaped(s.producer.view, k)
    && (s.producer.pc.Scanning? || s.producer.pc.Writing? ==> |s.producer.pc.item| == s.width)
  }

  predicate Initial<W>(s: State<W>) {
    var z := Zero(|s.readers|);
    && Sized(s)
    && s.producer == ProducerThread(1, z, 0, 0, Ready)
    && s.flag == [Entry(0, z)]
    && s.log == []
    && (forall i :: 0 <= i < RING_SIZE ==>
          && s.cells[i].history == [Entry(0, z)] && s.cells[i].lastWrite == 0
          && forall c :: 0 <= c < |s.readers| ==> s.cells[i].lastRead[c] == 0)
    && (forall c :: 0 <= c < |s.readers| ==> s.readers[c] == Reader([Entry(1, z)], 1, z, Resting, false, []))
  }

  // ---------- steps ----------

  predicate Enabled<W>(s: State<W>, a: Action<W>) {
    && Sized(s)
    && var p := s.producer;
    match a
    case Begin(item) =>
      p.pc.Ready? && |item| == s.width && p.next < U64_MAX - 2 && p.cachedMin <= U64_MAX
    case LoadCursor(idx) =>
      p.pc.Scanning? && p.pc.i < |s.readers| && p.view.cursorFloor[p.pc.i] <= idx < |s.readers[p.pc.i].cursor|
    case Decide => p.pc.Scanning? && p.pc.i == |s.readers| && p.next < U64_MAX && p.pc.min <= U64_MAX
    case WriteWord => p.pc.Writing? && p.pc.j < s.width
    case Commit => p.pc.Writing? && p.pc.j == s.width
    case StoreFlag => p.pc.Ready?
    case LoadOwn(c, idx) =>
      c < |s.readers| && s.readers[c].pc.Resting? && s.readers[c].view.cursorFloor[c] <= idx < |s.readers[c].cursor|
    case TestSlot(c, idx) =>
      && c < |s.readers| && s.readers[c].pc.Loaded?
      && var i := RingIndex(s.readers[c].pc.expected);
      s.readers[c].view.slotFloor[i] <= idx < |s.cells[i].history|
    case CopyWord(c) =>
      c < |s.readers| && s.readers[c].pc.Copying? && |s.readers[c].pc.buffer| < s.width
    case Finish(c) =>
      c < |s.readers| && s.readers[c].pc.Copying? && |s.readers[c].pc.buffer| == s.width
    case CheckFlag(c, idx) =>
      c < |s.readers| && s.readers[c].pc.AtFlag? && s.readers[c].view.flagFloor <= idx < |s.flag|
  }

  /** Acquire loads of a cursor, a slot's sequence, the flag. */
  function SeeCursor(v: View, e: Entry, c: nat, idx: nat, k: nat): (r: View)
    requires Shaped(v, k) && Shaped(e.view, k) && c < k
    ensures Shaped(r, k)
  {
    var j := Join(v, e.view, k);
    j.(cursorFloor := j.cursorFloor[c := Max(j.cursorFloor[c], idx)])
  }

  function SeeSlot(v: View, e: Entry, i: nat, idx: nat, k: nat): (r: View)
    requires Shaped(v, k) && Shaped(e.view, k) && i < RING_SIZE
    ensures Shaped(r, k)
  {
    var j := Join(v, e.view, k);
    j.(slotFloor := j.slotFloor[i := Max(j.slotFloor[i], idx)])
  }

  function SeeFlag(v: View, e: Entry, idx: nat, k: nat): (r: View)
    requires Shaped(v, k) && Shaped(e.view, k)
    ensures Shaped(r, k)
  {
    var j := Join(v, e.view, k);
    j.(flagFloor := Max(j.flagFloor, idx))
  }

  function SetReader<W>(s: State<W>, c: nat, r: Reader<W>): State<W>
    requires c < |s.readers|
  {
    s.(readers := s.readers[c := r])
  }

  function SetCell<W>(s: State<W>, i: nat, cell: Cell<W>): State<W>
    requires i < |s.cells|
  {
    s.(cells := s.cells[i := cell])
  }

  function Apply<W>(s: State<W>, a: Action<W>): State<W>
    requires Enabled(s, a)
  {
    var p, k := s.producer, |s.readers|;
    match a
    case Begin(item) =>
      if SeemsFull(p.next + 1, p.cachedMin) then s.(producer := p.(pc := Scanning(item, 0, U64_MAX)))
      else s.(producer := p.(next := p.next + 1, pc := Writing(item, 0)))
    case LoadCursor(idx) =>
      var i, e := p.pc.i, s.readers[p.pc.i].cursor[idx];
      var min := if e.value < p.pc.min then e.value else p.pc.min;
      s.(producer := p.(view := SeeCursor(p.view, e, i, idx, k), pc := Scanning(p.pc.item, i + 1, min)))
    case Decide =>
      if SeemsFull(p.next + 1, p.pc.min) then s.(producer := p.(cachedMin := p.pc.min, pc := Ready))
      else s.(producer := p.(cachedMin := p.pc.min, next := p.next + 1, pc := Writing(p.pc.item, 0)))
    case WriteWord =>
      var i := RingIndex(p.next);
      var cell := s.cells[i];
      SetCell(s, i, cell.(words := cell.words[p.pc.j := p.pc.item[p.pc.j]], lastWrite := p.epoch))
        .(producer := p.(pc := Writing(p.pc.item, p.pc.j + 1)))
    case Commit =>
      var i := RingIndex(p.next);
      var cell := s.cells[i];
      var v := p.view.(written := p.epoch, slotFloor := p.view.slotFloor[i := |cell.history|]);
      SetCell(s, i, cell.(history := cell.history + [Entry(p.next + 1, v)]))
        .(producer := p.(epoch := p.epoch + 1, view := v, pc := Ready), log := s.log + [p.pc.item])
    case StoreFlag =>
      var v := p.view.(written := p.epoch, flagFloor := |s.flag|);
      s.(flag := s.flag + [Entry(1, v)], producer := p.(epoch := p.epoch + 1, view := v, pc := Stopped))
    case LoadOwn(c, idx) =>
      var r := s.readers[c];
      var e := r.cursor[idx];
      SetReader(s, c, r.(view := SeeCursor(r.view, e, c, idx, k), pc := Loaded(e.value)))
    case TestSlot(c, idx) =>
      var r := s.readers[c];
      var x := r.pc.expected;
      var e := s.cells[RingIndex(x)].history[idx];
      var pc := if e.value > x then Copying(x, []) else if r.draining then Finished else AtFlag;
      SetReader(s, c, r.(view := SeeSlot(r.view, e, RingIndex(x), idx, k), pc := pc))
    case CopyWord(c) =>
      var r := s.readers[c];
      var i := RingIndex(r.pc.expected);
      var cell := s.cells[i];
      var buffer := r.pc.buffer + [cell.words[|r.pc.buffer|]];
      SetCell(SetReader(s, c, r.(pc := Copying(r.pc.expected, buffer))),
        i, cell.(lastRead := cell.lastRead[c := r.epoch]))
    case Finish(c) =>
      var r := s.readers[c];
      var v := r.view.(readBy := r.view.readBy[c := r.epoch], cursorFloor := r.view.cursorFloor[c := |r.cursor|]);
      SetReader(s, c, r.(
        cursor := r.cursor + [Entry(r.pc.expected + 1, v)],
        epoch := r.epoch + 1,
        view := v,
        pc := Resting,
        delivered := r.delivered + [r.pc.buffer]))
    case CheckFlag(c, idx) =>
      var r := s.readers[c];
      var e := s.flag[idx];
      SetReader(s, c, r.(view := SeeFlag(r.view, e, idx, k), pc := Resting, draining := e.value == 1))
  }

  // ---------- data races ----------

  /** The producer's next write to the slot is ordered after every read of it so far. */
  predicate WriteOrdered<W>(s: State<W>)
    requires Sized(s)
  {
    forall c :: 0 <= c < |s.readers| ==>
      s.cells[RingIndex(s.producer.next)].lastRead[c] <= s.producer.view.readBy[c]
  }

  /** Consumer c's next read of slot i is ordered after the last write to it. */
  predicate ReadOrdered<W>(s: State<W>, c: nat, i: nat)
    requires Sized(s) && c < |s.readers| && i < RING_SIZE
  {
    s.cells[i].lastWrite <= s.readers[c].view.written
  }

  // ---------- the invariant ----------

  /** The position of the latest entry of every slot's sequence. */
  function Latest<W>(cells: seq<Cell<W>>): (t: seq<nat>)
    requires forall i :: 0 <= i < |cells| ==> cells[i].history != []
    ensures |t| == |cells|
    ensures forall i :: 0 <= i < |t| ==> t[i] == |cells[i].history| - 1
  {
    seq(|cells|, i requires 0 <= i < |cells| => |cells[i].history| - 1)
  }

  function CursorEnds<W>(readers: seq<Reader<W>>): (t: seq<nat>)
    requires forall c :: 0 <= c < |readers| ==> readers[c].cursor != []
    ensures |t| == |readers|
    ensures forall c :: 0 <= c < |t| ==> t[c] == |readers[c].cursor| - 1
  {
    seq(|readers|, c requires 0 <= c < |readers| => |readers[c].cursor| - 1)
  }

  /** Upper bound of everything released so far. */
  function Top<W>(s: State<W>): (t: View)
    requires Sized(s)
    ensures Shaped(t, |s.readers|)
  {
    View(s.producer.epoch, CursorEnds(s.readers), Latest(s.cells), CursorEnds(s.readers), |s.flag| - 1)
  }

  ghost predicate HistoryBelow(h: seq<Entry>, top: View, k: nat)
    requires EntriesShaped(h, k) && Shaped(top, k)
  {
    forall j :: 0 <= j < |h| ==> Leq(h[j].view, top, k)
  }

  /** Nobody knows of more than has been released. */
  ghost predicate AllBelow<W>(s: State<W>, top: View)
    requires Sized(s) && Shaped(top, |s.readers|)
  {
    var k := |s.readers|;
    && Leq(s.producer.view, top, k)
    && HistoryBelow(s.flag, top, k)
    && (forall i :: 0 <= i < RING_SIZE ==> HistoryBelow(s.cells[i].history, top, k))
    && (forall c :: 0 <= c < k ==> Leq(s.readers[c].view, top, k) && HistoryBelow(s.readers[c].cursor, top, k))
  }

  /** The j-th store to a cursor is of number j + 1, and whoever acquires it knows that
      the reads of messages 1 .. j happened before. */
  ghost predicate CursorOk(h: seq<Entry>, c: nat, k: nat)
    requires EntriesShaped(h, k) && c < k
  {
    forall j :: 0 <= j < |h| ==> h[j].value == j + 1 && h[j].view.readBy[c] >= j
  }

  /** A stamp s + 1 in slot i belongs to a committed message s of that slot, and whoever
      acquires it knows that the writes of messages 1 .. s happened before. */
  ghost predicate StampOk(e: Entry, committed: nat, i: nat) {
    e.value != 0 ==>
      && 2 <= e.value <= committed + 1 && RingIndex(e.value - 1) == i && e.view.written >= e.value - 1
  }

  ghost predicate CellOk<W>(cell: Cell<W>, log: seq<seq<W>>, i: nat, busy: bool) {
    var l := LastIn(|log|, i);
    && cell.history != []
    && cell.history[|cell.history| - 1].value == (if l == 0 then 0 else l + 1)
    && (forall j :: 0 <= j < |cell.history| ==> StampOk(cell.history[j], |log|, i))
    && cell.lastWrite <= (if busy then |log| + 1 else l)
    && (!busy && l > 0 ==> cell.words == log[l - 1])
  }

  /** A read of slot i was of a committed message of that slot. */
  ghost predicate LastReadOk(r: nat, i: nat, committed: nat) {
    r == 0 || (RingIndex(r) == i && r <= committed)
  }

  function BusySlot<W>(s: State<W>): nat {
    if s.producer.pc.Writing? then RingIndex(s.producer.next) else RING_SIZE
  }

  ghost predicate CellsOk<W>(s: State<W>)
    requires Sized(s)
  {
    forall i :: 0 <= i < RING_SIZE ==> CellOk(s.cells[i], s.log, i, i == BusySlot(s))
  }

  ghost predicate ReadsOk<W>(s: State<W>)
    requires Sized(s)
  {
    forall i, c :: 0 <= i < RING_SIZE && 0 <= c < |s.readers| ==>
      LastReadOk(s.cells[i].lastRead[c], i, |s.log|)
  }

  /** The producer may be at most 1024 past what it knows each consumer to have read. */
  ghost predicate ProducerOk<W>(s: State<W>)
    requires Sized(s)
  {
    var p := s.producer;
    && p.next == |s.log| + (if p.pc.Writing? then 1 else 0)
    && p.next <= U64_MAX - 2
    && p.epoch == |s.log| + 1 + (if p.pc.Stopped? then 1 else 0)
    && p.cachedMin <= p.next + 1
    && (forall c :: 0 <= c < |s.readers| ==>
          p.cachedMin <= p.view.readBy[c] + 1 && p.next <= p.view.readBy[c] + RING_SIZE)
    && p.view.slotFloor == Latest(s.cells)
    && match p.pc
      case Scanning(_, i, min) =>
        && i <= |s.readers| && p.next < U64_MAX - 2
        && (if i == 0 then min == U64_MAX else min <= p.next + 1)
        && forall c :: 0 <= c < i ==> min <= p.view.readBy[c] + 1
      case Writing(item, j) =>
        && j <= s.width
        && s.cells[RingIndex(p.next)].words[..j] == item[..j]
      case _ => true
  }

  /** Once the flag is up nothing more is published, and its view has seen all of it. */
  ghost predicate FlagOk<W>(s: State<W>)
    requires Sized(s)
  {
    && |s.flag| == (if s.producer.pc.Stopped? then 2 else 1)
    && s.flag[0].value == 0
    && (s.producer.pc.Stopped? ==> s.flag[1].value == 1 && s.flag[1].view.slotFloor == Latest(s.cells))
  }

  ghost predicate ReaderOk<W>(
      r: Reader<W>, c: nat, k: nat, log: seq<seq<W>>, stopped: bool, latest: seq<nat>, width: nat)
    requires ReaderShaped(r, k) && c < k
  {
    && CursorOk(r.cursor, c, k)
    && |r.cursor| <= |log| + 1
    && r.epoch == |r.cursor|
    && r.view.cursorFloor[c] == |r.cursor| - 1
    && r.delivered == log[..|r.cursor| - 1]
    && (r.draining ==> stopped && r.view.slotFloor == latest)
    && match r.pc
      case Loaded(x) => x == |r.cursor|
      case Copying(x, buffer) =>
        && x == |r.cursor| <= |log| && r.view.written >= x
        && |buffer| <= width == |log[x - 1]| && buffer == log[x - 1][..|buffer|]
      case Finished => r.draining && |r.cursor| == |log| + 1
      case _ => true
  }

  ghost predicate ReadersOk<W>(s: State<W>)
    requires Sized(s)
  {
    forall c :: 0 <= c < |s.readers| ==>
      ReaderOk(s.readers[c], c, |s.readers|, s.log, s.producer.pc.Stopped?, Latest(s.cells), s.width)
  }

  ghost predicate Safe<W>(s: State<W>) {
    && Sized(s)
    && AllBelow(s, Top(s))
    && CellsOk(s) && ReadsOk(s) && ProducerOk(s) && FlagOk(s)
    && ReadersOk(s)
    && (forall m :: 0 <= m < |s.log| ==> |s.log[m]| == s.width)
  }

  lemma InitialSafe<W>(s: State<W>)
    requires Initial(s)
    ensures Safe(s)
  {
    forall i | 0 <= i < RING_SIZE ensures CellOk(s.cells[i], s.log, i, i == BusySlot(s)) {
    }
  }

  // ---------- the producer's steps keep the invariant ----------

  lemma BusyIsWeaker<W>(cells: seq<Cell<W>>, log: seq<seq<W>>, busy: nat)
    requires |cells| == RING_SIZE
    requires forall i :: 0 <= i < RING_SIZE ==> CellOk(cells[i], log, i, i == RING_SIZE)
    ensures forall i :: 0 <= i < RING_SIZE ==> CellOk(cells[i], log, i, i == busy)
  {
    forall i | 0 <= i < RING_SIZE ensures CellOk(cells[i], log, i, i == busy) {
      assert CellOk(cells[i], log, i, i == RING_SIZE);
    }
  }

  function Claimed<W>(s: State<W>, item: seq<W>, min: nat): State<W> {
    s.(producer := s.producer.(cachedMin := min, next := s.producer.next + 1, pc := Writing(item, 0)))
  }

  function Refused<W>(s: State<W>, min: nat): State<W> {
    s.(producer := s.producer.(cachedMin := min, pc := Ready))
  }

  lemma ClaimKeepsSafe<W>(s: State<W>, item: seq<W>, min: nat)
    requires Safe(s) && (s.producer.pc.Ready? || s.producer.pc.Scanning?) && |item| == s.width
    requires s.producer.next < U64_MAX - 2 && min <= s.producer.next + 1 < min + RING_SIZE
    requires forall c :: 0 <= c < |s.readers| ==> min <= s.producer.view.readBy[c] + 1
    ensures Safe(Claimed(s, item, min))
  {
    BusyIsWeaker(s.cells, s.log, RingIndex(s.producer.next + 1));
  }

  lemma SlowPathKeepsSafe<W>(s: State<W>, item: seq<W>)
    requires Safe(s) && s.producer.pc.Ready? && |item| == s.width && s.producer.next < U64_MAX - 2
    ensures Safe(s.(producer := s.producer.(pc := Scanning(item, 0, U64_MAX))))
  {
  }

  lemma BeginIs<W>(s: State<W>, item: seq<W>)
    requires Enabled(s, Begin(item)) && s.producer.cachedMin <= s.producer.next + 1
    ensures Apply(s, Begin(item)) ==
      if s.producer.next + 1 < s.producer.cachedMin + RING_SIZE then Claimed(s, item, s.producer.cachedMin)
      else s.(producer := s.producer.(pc := Scanning(item, 0, U64_MAX)))
  {
    DistanceTest(s.producer.next, s.producer.cachedMin);
  }

  lemma BeginKeepsSafe<W>(s: State<W>, item: seq<W>)
    requires Safe(s) && Enabled(s, Begin(item))
    ensures Safe(Apply(s, Begin(item)))
  {
    BeginIs(s, item);
    if s.producer.next + 1 < s.producer.cachedMin + RING_SIZE {
      ClaimKeepsSafe(s, item, s.producer.cachedMin);
    } else {
      SlowPathKeepsSafe(s, item);
    }
  }

  lemma RefuseKeepsSafe<W>(s: State<W>, min: nat)
    requires Safe(s) && s.producer.pc.Scanning? && min <= s.producer.next + 1
    requires forall c :: 0 <= c < |s.readers| ==> min <= s.producer.view.readBy[c] + 1
    ensures Safe(Refused(s, min))
  {
  }

  /** What the decision knows of the scanned minimum. */
  lemma ScannedMinimum<W>(s: State<W>)
    requires Safe(s) && Enabled(s, Decide)
    ensures s.producer.next < U64_MAX - 2 && s.producer.pc.min <= s.producer.next + 1
    ensures forall c :: 0 <= c < |s.readers| ==> s.producer.pc.min <= s.producer.view.readBy[c] + 1
  {
  }

  lemma DecideIs<W>(s: State<W>)
    requires Enabled(s, Decide) && s.producer.next < U64_MAX - 2 && s.producer.pc.min <= s.producer.next + 1
    ensures Apply(s, Decide) ==
      if s.producer.next + 1 < s.producer.pc.min + RING_SIZE then Claimed(s, s.producer.pc.item, s.producer.pc.min)
      else Refused(s, s.producer.pc.min)
  {
    DistanceTest(s.producer.next, s.producer.pc.min);
  }

  lemma DecideKeepsSafe<W>(s: State<W>)
    requires Safe(s) && Enabled(s, Decide)
    ensures Safe(Apply(s, Decide))
  {
    var min := s.producer.pc.min;
    ScannedMinimum(s);
    DecideIs(s);
    if s.producer.next + 1 < min + RING_SIZE {
      ClaimKeepsSafe(s, s.producer.pc.item, min);
    } else {
      RefuseKeepsSafe(s, min);
    }
  }

  /** Acquiring an entry that lies below the top leaves the view below the top. */
  lemma SeeCursorBelow(v: View, e: Entry, c: nat, idx: nat, top: View, k: nat)
    requires Shaped(v, k) && Shaped(e.view, k) && Shaped(top, k) && c < k
    requires Leq(v, top, k) && Leq(e.view, top, k) && idx <= top.cursorFloor[c]
    ensures Leq(SeeCursor(v, e, c, idx, k), top, k)
    ensures v.slotFloor == top.slotFloor ==> SeeCursor(v, e, c, idx, k).slotFloor == top.slotFloor
  {
    JoinIsLub(v, e.view, top, k);
  }

  lemma LoadCursorKeepsSafe<W>(s: State<W>, idx: nat)
    requires Safe(s) && Enabled(s, LoadCursor(idx))
    ensures Safe(Apply(s, LoadCursor(idx)))
  {
    var i, k := s.producer.pc.i, |s.readers|;
    var e := s.readers[i].cursor[idx];
    assert ReaderOk(s.readers[i], i, k, s.log, false, Latest(s.cells), s.width);
    assert HistoryBelow(s.readers[i].cursor, Top(s), k);
    SeeCursorBelow(s.producer.view, e, i, idx, Top(s), k);
    assert Top(Apply(s, LoadCursor(idx))) == Top(s);
  }

  /** A plain access to a slot, which leaves its sequence alone, releases nothing. */
  lemma PlainAccess<W>(s: State<W>, i: nat, cell: Cell<W>)
    requires Sized(s) && i < RING_SIZE && AllBelow(s, Top(s))
    requires CellShaped(cell, s.width, |s.readers|) && cell.history == s.cells[i].history
    ensures var s' := SetCell(s, i, cell);
      Sized(s') && Latest(s'.cells) == Latest(s.cells) && Top(s') == Top(s) && AllBelow(s', Top(s'))
  {
    var s', k := SetCell(s, i, cell), |s.readers|;
    assert Latest(s'.cells) == Latest(s.cells);
    forall j | 0 <= j < RING_SIZE ensures HistoryBelow(s'.cells[j].history, Top(s), k) {
      assert HistoryBelow(s.cells[j].history, Top(s), k);
    }
  }

  lemma WriteKeepsCells<W>(s: State<W>, cell: Cell<W>)
    requires Safe(s) && s.producer.pc.Writing?
    requires cell.history == s.cells[RingIndex(s.producer.next)].history && cell.lastWrite == s.producer.epoch
    ensures var s' := SetCell(s, RingIndex(s.producer.next), cell);
      forall i :: 0 <= i < RING_SIZE ==> CellOk(s'.cells[i], s.log, i, i == BusySlot(s))
  {
    var busy := RingIndex(s.producer.next);
    var s' := SetCell(s, busy, cell);
    forall i | 0 <= i < RING_SIZE ensures CellOk(s'.cells[i], s.log, i, i == BusySlot(s)) {
      assert CellOk(s.cells[i], s.log, i, i == busy);
    }
  }

  lemma WriteKeepsProducer<W>(s: State<W>)
    requires Safe(s) && Enabled(s, WriteWord) && Sized(Apply(s, WriteWord))
    requires Latest(Apply(s, WriteWord).cells) == Latest(s.cells)
    ensures ProducerOk(Apply(s, WriteWord))
  {
  }

  lemma WriteKeepsSafe<W>(s: State<W>)
    requires Safe(s) && Enabled(s, WriteWord)
    ensures Safe(Apply(s, WriteWord))
  {
    var s', i := Apply(s, WriteWord), RingIndex(s.producer.next);
    assert CellShaped(s.cells[i], s.width, |s.readers|);
    PlainAccess(s, i, s'.cells[i]);
    WriteKeepsCells(s, s'.cells[i]);
    WriteKeepsProducer(s);
  }

  lemma RaiseTop<W>(s: State<W>, t: View)
    requires Sized(s) && AllBelow(s, Top(s)) && Shaped(t, |s.readers|) && Leq(Top(s), t, |s.readers|)
    ensures AllBelow(s, t)
  {
    var k, top := |s.readers|, Top(s);
    LeqTransitive(s.producer.view, top, t, k);
    RaiseHistory(s.flag, top, t, k);
    forall i | 0 <= i < RING_SIZE ensures HistoryBelow(s.cells[i].history, t, k) {
      RaiseHistory(s.cells[i].history, top, t, k);
    }
    forall c | 0 <= c < k ensures Leq(s.readers[c].view, t, k) && HistoryBelow(s.readers[c].cursor, t, k) {
      LeqTransitive(s.readers[c].view, top, t, k);
      RaiseHistory(s.readers[c].cursor, top, t, k);
    }
  }

  lemma RaiseHistory(h: seq<Entry>, top: View, t: View, k: nat)
    requires EntriesShaped(h, k) && Shaped(top, k) && Shaped(t, k)
    requires HistoryBelow(h, top, k) && Leq(top, t, k)
    ensures HistoryBelow(h, t, k)
  {
    forall j | 0 <= j < |h| ensures Leq(h[j].view, t, k) {
      LeqTransitive(h[j].view, top, t, k);
    }
  }

  lemma OtherCellsKeep<W>(cell: Cell<W>, log: seq<seq<W>>, item: seq<W>, i: nat)
    requires CellOk(cell, log, i, false) && i != RingIndex(|log| + 1)
    ensures CellOk(cell, log + [item], i, false)
  {
    assert LastIn(|log| + 1, i) == LastIn(|log|, i);
    forall j | 0 <= j < |cell.history| ensures StampOk(cell.history[j], |log| + 1, i) {
      assert StampOk(cell.history[j], |log|, i);
    }
  }

  lemma CommittedCellOk<W>(cell: Cell<W>, log: seq<seq<W>>, item: seq<W>, v: View)
    requires CellOk(cell, log, RingIndex(|log| + 1), true)
    requires cell.words == item && v.written >= |log| + 1
    ensures CellOk(cell.(history := cell.history + [Entry(|log| + 2, v)]), log + [item], RingIndex(|log| + 1), false)
  {
    var i := RingIndex(|log| + 1);
    var h := cell.history + [Entry(|log| + 2, v)];
    forall j | 0 <= j < |h| ensures StampOk(h[j], |log| + 1, i) {
      if j < |cell.history| {
        assert StampOk(cell.history[j], |log|, i);
      }
    }
  }

  lemma CommitKeepsCells<W>(s: State<W>)
    requires Safe(s) && Enabled(s, Commit)
    ensures Sized(Apply(s, Commit)) && CellsOk(Apply(s, Commit))
  {
    var s', busy := Apply(s, Commit), RingIndex(s.producer.next);
    assert CellShaped(s.cells[busy], s.width, |s.readers|);
    assert CellShaped(s'.cells[busy], s.width, |s.readers|);
    var words := s.cells[busy].words;
    assert words[..s.width] == words;
    CommittedCellOk(s.cells[busy], s.log, s.producer.pc.item, s'.producer.view);
    forall i | 0 <= i < RING_SIZE ensures CellOk(s'.cells[i], s'.log, i, i == BusySlot(s')) {
      assert CellOk(s.cells[i], s.log, i, i == busy);
      if i != busy {
        OtherCellsKeep(s.cells[i], s.log, s.producer.pc.item, i);
      }
    }
  }

  lemma CommitKeepsBelow<W>(s: State<W>)
    requires Safe(s) && Enabled(s, Commit) && Sized(Apply(s, Commit))
    ensures AllBelow(Apply(s, Commit), Top(Apply(s, Commit)))
  {
    var s', k := Apply(s, Commit), |s.readers|;
    var t := Top(s');
    assert Leq(Top(s), t, k);
    RaiseTop(s, t);
    assert Leq(s'.producer.view, t, k);
    forall i | 0 <= i < RING_SIZE ensures HistoryBelow(s'.cells[i].history, t, k) {
      assert HistoryBelow(s.cells[i].history, t, k);
    }
  }

  lemma LongerLogKeepsReader<W>(
      r: Reader<W>, c: nat, k: nat, log: seq<seq<W>>, item: seq<W>, latest: seq<nat>, latest': seq<nat>, width: nat)
    requires ReaderShaped(r, k) && c < k && ReaderOk(r, c, k, log, false, latest, width)
    ensures ReaderOk(r, c, k, log + [item], false, latest', width)
  {
    assert (log + [item])[..|r.cursor| - 1] == log[..|r.cursor| - 1];
  }

  lemma CommitKeepsProducer<W>(s: State<W>)
    requires Safe(s) && Enabled(s, Commit) && Sized(Apply(s, Commit))
    ensures ProducerOk(Apply(s, Commit)) && FlagOk(Apply(s, Commit))
  {
    var s' := Apply(s, Commit);
    assert s'.producer.view.slotFloor == Latest(s'.cells);
  }

  lemma CommitKeepsReads<W>(s: State<W>)
    requires Safe(s) && Enabled(s, Commit) && Sized(Apply(s, Commit))
    ensures ReadsOk(Apply(s, Commit))
  {
    var s' := Apply(s, Commit);
    forall i, c | 0 <= i < RING_SIZE && 0 <= c < |s.readers|
      ensures LastReadOk(s'.cells[i].lastRead[c], i, |s'.log|)
    {
      assert LastReadOk(s.cells[i].lastRead[c], i, |s.log|);
    }
  }

  lemma CommitKeepsSafe<W>(s: State<W>)
    requires Safe(s) && Enabled(s, Commit)
    ensures Safe(Apply(s, Commit))
  {
    CommitKeepsCells(s);
    CommitKeepsBelow(s);
    CommitKeepsProducer(s);
    CommitKeepsReads(s);
    var s', k := Apply(s, Commit), |s.readers|;
    forall c | 0 <= c < k
      ensures ReaderOk(s'.readers[c], c, k, s'.log, false, Latest(s'.cells), s'.width)
    {
      LongerLogKeepsReader(s.readers[c], c, k, s.log, s.producer.pc.item, Latest(s.cells), Latest(s'.cells), s.width);
    }
  }

  lemma StoreFlagKeepsSafe<W>(s: State<W>)
    requires Safe(s) && Enabled(s, StoreFlag)
    ensures Safe(Apply(s, StoreFlag))
  {
    var s', k := Apply(s, StoreFlag), |s.readers|;
    assert Leq(Top(s), Top(s'), k);
    RaiseTop(s, Top(s'));
    forall c | 0 <= c < k
      ensures ReaderOk(s'.readers[c], c, k, s'.log, true, Latest(s'.cells), s'.width)
    {
      assert ReaderOk(s.readers[c], c, k, s.log, false, Latest(s.cells), s.width);
    }
  }

  // ---------- the consumers' steps keep the invariant ----------

  /** What a consumer may do between stores: look, and carry on. */
  ghost predicate MovesOn<W>(s: State<W>, c: nat, r: Reader<W>)
    requires Sized(s) && c < |s.readers|
  {
    var k := |s.readers|;
    && ReaderShaped(r, k) && r.cursor == s.readers[c].cursor
    && Leq(r.view, Top(s), k)
    && ReaderOk(r, c, k, s.log, s.producer.pc.Stopped?, Latest(s.cells), s.width)
  }

  lemma MovingOnKeepsSafe<W>(s: State<W>, c: nat, r: Reader<W>)
    requires Safe(s) && c < |s.readers| && MovesOn(s, c, r)
    ensures Safe(SetReader(s, c, r))
  {
    var s' := SetReader(s, c, r);
    assert Sized(s');
    assert CursorEnds(s'.readers) == CursorEnds(s.readers);
    assert Top(s') == Top(s);
  }

  lemma LoadOwnKeepsSafe<W>(s: State<W>, c: nat, idx: nat)
    requires Safe(s) && Enabled(s, LoadOwn(c, idx))
    ensures Safe(Apply(s, LoadOwn(c, idx)))
  {
    var r, k := s.readers[c], |s.readers|;
    assert ReaderOk(r, c, k, s.log, s.producer.pc.Stopped?, Latest(s.cells), s.width);
    assert HistoryBelow(r.cursor, Top(s), k);
    SeeCursorBelow(r.view, r.cursor[idx], c, idx, Top(s), k);
    MovingOnKeepsSafe(s, c, Apply(s, LoadOwn(c, idx)).readers[c]);
  }

  lemma SeeSlotBelow(v: View, e: Entry, i: nat, idx: nat, top: View, k: nat)
    requires Shaped(v, k) && Shaped(e.view, k) && Shaped(top, k) && i < RING_SIZE
    requires Leq(v, top, k) && Leq(e.view, top, k) && idx <= top.slotFloor[i]
    ensures var w := SeeSlot(v, e, i, idx, k);
      && Leq(w, top, k) && w.written >= e.view.written
      && (v.slotFloor == top.slotFloor ==> w.slotFloor == top.slotFloor)
      && forall c :: 0 <= c < k && v.cursorFloor[c] == top.cursorFloor[c] ==> w.cursorFloor[c] == top.cursorFloor[c]
  {
    JoinIsLub(v, e.view, top, k);
  }

  /** A consumer is at most a ring behind, and the producer knows it. */
  lemma CursorWindow<W>(s: State<W>, c: nat)
    requires Safe(s) && c < |s.readers|
    ensures 1 <= |s.readers[c].cursor| <= |s.log| + 1
    ensures |s.log| <= s.producer.next < |s.readers[c].cursor| + RING_SIZE
    ensures s.producer.view.readBy[c] < |s.readers[c].cursor|
  {
    assert ReaderOk(s.readers[c], c, |s.readers|, s.log, s.producer.pc.Stopped?, Latest(s.cells), s.width);
    assert s.producer.view.readBy[c] <= Top(s).readBy[c];
  }

  /** A stale stamp can only say "not ready"; a stamp that says "ready" is the one of
      the very message expected. */
  lemma ReadyStampIsExact(e: Entry, committed: nat, x: nat)
    requires StampOk(e, committed, RingIndex(x)) && 1 <= x && committed < x + RING_SIZE
    ensures e.value > x ==> e.value == x + 1 && x <= committed && e.view.written >= x
  {
  }

  /** With the latest stamp in sight the test is exact both ways. */
  lemma StampIsExact<W>(s: State<W>, c: nat, idx: nat)
    requires Safe(s) && Enabled(s, TestSlot(c, idx))
    ensures var x := s.readers[c].pc.expected;
      var h := s.cells[RingIndex(x)].history;
      && x == |s.readers[c].cursor|
      && (h[idx].value > x ==> h[idx].value == x + 1 && x <= |s.log| && h[idx].view.written >= x)
      && (idx == |h| - 1 ==> (h[idx].value > x <==> x <= |s.log|))
  {
    var r := s.readers[c];
    var i := RingIndex(r.pc.expected);
    assert ReaderOk(r, c, |s.readers|, s.log, s.producer.pc.Stopped?, Latest(s.cells), s.width);
    CursorWindow(s, c);
    assert CellOk(s.cells[i], s.log, i, i == BusySlot(s));
    ReadyStampIsExact(s.cells[i].history[idx], |s.log|, r.pc.expected);
    LastInOf(|s.log|, r.pc.expected);
  }

  lemma TestKeepsSafe<W>(s: State<W>, c: nat, idx: nat)
    requires Safe(s) && Enabled(s, TestSlot(c, idx))
    ensures Safe(Apply(s, TestSlot(c, idx)))
  {
    var r, k := s.readers[c], |s.readers|;
    var i := RingIndex(r.pc.expected);
    StampIsExact(s, c, idx);
    assert ReaderOk(r, c, k, s.log, s.producer.pc.Stopped?, Latest(s.cells), s.width);
    assert HistoryBelow(s.cells[i].history, Top(s), k);
    SeeSlotBelow(r.view, s.cells[i].history[idx], i, idx, Top(s), k);
    MovingOnKeepsSafe(s, c, Apply(s, TestSlot(c, idx)).readers[c]);
  }

  /** The slot being copied is the expected message, and nobody is writing it. */
  lemma CopiedSlotIsStable<W>(s: State<W>, c: nat)
    requires Safe(s) && c < |s.readers| && s.readers[c].pc.Copying?
    ensures var x := s.readers[c].pc.expected;
      && 1 <= x <= |s.log| && BusySlot(s) != RingIndex(x)
      && s.cells[RingIndex(x)].words == s.log[x - 1]
      && s.cells[RingIndex(x)].lastWrite <= x <= s.readers[c].view.written
      && s.readers[c].epoch == x
  {
    var r, k := s.readers[c], |s.readers|;
    var x := r.pc.expected;
    assert ReaderOk(r, c, k, s.log, s.producer.pc.Stopped?, Latest(s.cells), s.width);
    CursorWindow(s, c);
    LastInOf(|s.log|, x);
    if s.producer.pc.Writing? {
      DistinctSlots(x, s.producer.next);
    }
    assert CellOk(s.cells[RingIndex(x)], s.log, RingIndex(x), false);
  }

  /** Recording who has read a slot, and when, touches nothing else. */
  lemma MarkReadKeepsCells<W>(s: State<W>, i: nat, cell: Cell<W>)
    requires Sized(s) && CellsOk(s) && i < RING_SIZE
    requires cell == s.cells[i].(lastRead := cell.lastRead)
    ensures forall j :: 0 <= j < RING_SIZE ==> CellOk(SetCell(s, i, cell).cells[j], s.log, j, j == BusySlot(s))
  {
    forall j | 0 <= j < RING_SIZE ensures CellOk(SetCell(s, i, cell).cells[j], s.log, j, j == BusySlot(s)) {
      assert CellOk(s.cells[j], s.log, j, j == BusySlot(s));
    }
  }

  lemma MarkReadKeepsSafe<W>(s: State<W>, c: nat, i: nat, epoch: nat)
    requires Safe(s) && c < |s.readers| && i < RING_SIZE
    requires LastReadOk(epoch, i, |s.log|)
    ensures |s.cells[i].lastRead| == |s.readers|
    ensures Safe(SetCell(s, i, s.cells[i].(lastRead := s.cells[i].lastRead[c := epoch])))
  {
    assert CellShaped(s.cells[i], s.width, |s.readers|);
    var cell := s.cells[i].(lastRead := s.cells[i].lastRead[c := epoch]);
    PlainAccess(s, i, cell);
    MarkReadKeepsCells(s, i, cell);
    assert ReadsOk(SetCell(s, i, cell));
  }

  lemma CopyKeepsReader<W>(s: State<W>, c: nat, r: Reader<W>)
    requires Safe(s) && Enabled(s, CopyWord(c))
    requires r == s.readers[c].(pc := Apply(s, CopyWord(c)).readers[c].pc)
    ensures MovesOn(s, c, r)
    ensures LastReadOk(s.readers[c].epoch, RingIndex(s.readers[c].pc.expected), |s.log|)
  {
    CopiedSlotIsStable(s, c);
    assert ReaderOk(s.readers[c], c, |s.readers|, s.log, s.producer.pc.Stopped?, Latest(s.cells), s.width);
  }

  lemma CopyKeepsSafe<W>(s: State<W>, c: nat)
    requires Safe(s) && Enabled(s, CopyWord(c))
    ensures Safe(Apply(s, CopyWord(c)))
  {
    var r, s' := s.readers[c], Apply(s, CopyWord(c));
    var r' := r.(pc := s'.readers[c].pc);
    CopyKeepsReader(s, c, r');
    MovingOnKeepsSafe(s, c, r');
    MarkReadKeepsSafe(SetReader(s, c, r'), c, RingIndex(r.pc.expected), r.epoch);
  }

  lemma FinishKeepsBelow<W>(s: State<W>, c: nat)
    requires Safe(s) && Enabled(s, Finish(c))
    ensures Sized(Apply(s, Finish(c))) && AllBelow(Apply(s, Finish(c)), Top(Apply(s, Finish(c))))
  {
    var s', k := Apply(s, Finish(c)), |s.readers|;
    assert ReaderShaped(s.readers[c], k);
    assert ReaderShaped(s'.readers[c], k);
    var t := Top(s');
    assert ReaderOk(s.readers[c], c, k, s.log, s.producer.pc.Stopped?, Latest(s.cells), s.width);
    assert Leq(Top(s), t, k);
    RaiseTop(s, t);
    assert Leq(s'.readers[c].view, t, k);
    assert HistoryBelow(s.readers[c].cursor, t, k);
  }

  lemma FinishKeepsReader<W>(s: State<W>, c: nat)
    requires Safe(s) && Enabled(s, Finish(c)) && Sized(Apply(s, Finish(c)))
    ensures ReaderOk(Apply(s, Finish(c)).readers[c], c, |s.readers|, s.log, s.producer.pc.Stopped?, Latest(s.cells), s.width)
  {
    var r, k := s.readers[c], |s.readers|;
    assert ReaderOk(r, c, k, s.log, s.producer.pc.Stopped?, Latest(s.cells), s.width);
    var m := s.log[r.pc.expected - 1];
    assert m[..s.width] == m;
    assert s.log[..|r.cursor|] == s.log[..|r.cursor| - 1] + [m];
  }

  lemma FinishKeepsSafe<W>(s: State<W>, c: nat)
    requires Safe(s) && Enabled(s, Finish(c))
    ensures Safe(Apply(s, Finish(c)))
  {
    FinishKeepsBelow(s, c);
    FinishKeepsReader(s, c);
  }

  lemma SeeFlagBelow(v: View, e: Entry, idx: nat, top: View, k: nat)
    requires Shaped(v, k) && Shaped(e.view, k) && Shaped(top, k)
    requires Leq(v, top, k) && Leq(e.view, top, k) && idx <= top.flagFloor
    ensures var w := SeeFlag(v, e, idx, k);
      && Leq(w, top, k)
      && (e.view.slotFloor == top.slotFloor ==> w.slotFloor == top.slotFloor)
      && forall c :: 0 <= c < k && v.cursorFloor[c] == top.cursorFloor[c] ==> w.cursorFloor[c] == top.cursorFloor[c]
  {
    JoinIsLub(v, e.view, top, k);
  }

  lemma CheckFlagKeepsSafe<W>(s: State<W>, c: nat, idx: nat)
    requires Safe(s) && Enabled(s, CheckFlag(c, idx))
    ensures Safe(Apply(s, CheckFlag(c, idx)))
  {
    var r, k := s.readers[c], |s.readers|;
    assert ReaderOk(r, c, k, s.log, s.producer.pc.Stopped?, Latest(s.cells), s.width);
    SeeFlagBelow(r.view, s.flag[idx], idx, Top(s), k);
    var r' := r.(view := SeeFlag(r.view, s.flag[idx], idx, k), pc := Resting, draining := s.flag[idx].value == 1);
    assert ReaderOk(r', c, k, s.log, s.producer.pc.Stopped?, Latest(s.cells), s.width);
    MovingOnKeepsSafe(s, c, r');
  }

  lemma StepKeepsSafe<W>(s: State<W>, a: Action<W>)
    requires Safe(s) && Enabled(s, a)
    ensures Safe(Apply(s, a))
  {
    match a
    case Begin(item) => BeginKeepsSafe(s, item);
    case LoadCursor(idx) => LoadCursorKeepsSafe(s, idx);
    case Decide => DecideKeepsSafe(s);
    case WriteWord => WriteKeepsSafe(s);
    case Commit => CommitKeepsSafe(s);
    case StoreFlag => StoreFlagKeepsSafe(s);
    case LoadOwn(c, idx) => LoadOwnKeepsSafe(s, c, idx);
    case TestSlot(c, idx) => TestKeepsSafe(s, c, idx);
    case CopyWord(c) => CopyKeepsSafe(s, c);
    case Finish(c) => FinishKeepsSafe(s, c);
    case CheckFlag(c, idx) => CheckFlagKeepsSafe(s, c, idx);
  }

  // ---------- every run ----------

  predicate Runs<W>(s: State<W>, acts: seq<Action<W>>)
    decreases |acts|, 0
  {
    acts != [] ==>
      var front := acts[..|acts| - 1];
      Runs(s, front) && Enabled(After(s, front), acts[|acts| - 1])
  }

  function After<W>(s: State<W>, acts: seq<Action<W>>): State<W>
    requires Runs(s, acts)
    decreases |acts|, 1
  {
    if acts == [] then s else Apply(After(s, acts[..|acts| - 1]), acts[|acts| - 1])
  }

  lemma {:induction false} RunKeepsSafe<W>(s: State<W>, acts: seq<Action<W>>)
    requires Initial(s) && Runs(s, acts)
    ensures Safe(After(s, acts))
    decreases |acts|
  {
    if acts == [] {
      InitialSafe(s);
    } else {
      var front := acts[..|acts| - 1];
      RunKeepsSafe(s, front);
      StepKeepsSafe(After(s, front), acts[|acts| - 1]);
    }
  }

  /** Whatever older values the loads return, each consumer has been given exactly the
      first messages of the log, as far as its own cursor. */
  lemma DeliveryIsExact<W>(s: State<W>, acts: seq<Action<W>>, c: nat)
    requires Initial(s) && Runs(s, acts) && c < |After(s, acts).readers|
    ensures var t := After(s, acts);
      var d := t.readers[c].delivered;
      && |d| == |t.readers[c].cursor| - 1
      && |d| <= |t.log| <= |d| + RING_SIZE
      && d == t.log[..|d|]
  {
    RunKeepsSafe(s, acts);
    var t := After(s, acts);
    assert ReaderOk(t.readers[c], c, |t.readers|, t.log, t.producer.pc.Stopped?, Latest(t.cells), t.width);
    CursorWindow(t, c);
  }

  /** A slot that tests ready, on however stale a stamp, is copied word for word. */
  lemma CopyIsExact<W>(s: State<W>, acts: seq<Action<W>>, c: nat)
    requires Initial(s) && Runs(s, acts) && Enabled(After(s, acts), CopyWord(c))
    ensures var t := After(s, acts);
      var r := t.readers[c];
      && 1 <= r.pc.expected <= |t.log|
      && ReadOrdered(t, c, RingIndex(r.pc.expected))
      && t.cells[RingIndex(r.pc.expected)].words == t.log[r.pc.expected - 1]
  {
    RunKeepsSafe(s, acts);
    CopiedSlotIsStable(After(s, acts), c);
  }

  /** Every write of a slot is ordered after every read of it before: each consumer has
      finished with the message being overwritten, and the producer knows it. */
  lemma OverwriteIsOrdered<W>(s: State<W>, acts: seq<Action<W>>)
    requires Initial(s) && Runs(s, acts) && Enabled(After(s, acts), WriteWord)
    ensures var t := After(s, acts);
      && WriteOrdered(t)
      && forall c :: 0 <= c < |t.readers| ==>
          t.producer.next <= t.producer.view.readBy[c] + RING_SIZE && t.producer.view.readBy[c] < |t.readers[c].cursor|
  {
    RunKeepsSafe(s, acts);
    var t := After(s, acts);
    var i := RingIndex(t.producer.next);
    forall c | 0 <= c < |t.readers|
      ensures t.cells[i].lastRead[c] <= t.producer.view.readBy[c]
      ensures t.producer.view.readBy[c] < |t.readers[c].cursor|
    {
      var r := t.cells[i].lastRead[c];
      assert LastReadOk(r, i, |t.log|);
      CursorWindow(t, c);
      if r != 0 {
        SameSlotApart(r, t.producer.next);
      }
    }
  }

  /** A consumer that drained after seeing the flag has been given the whole log, and
      the log is final: no stale load can make it stop early. */
  lemma DrainLosesNothing<W>(s: State<W>, acts: seq<Action<W>>, c: nat)
    requires Initial(s) && Runs(s, acts) && c < |After(s, acts).readers|
    requires After(s, acts).readers[c].pc.Finished?
    ensures After(s, acts).readers[c].delivered == After(s, acts).log
    ensures After(s, acts).producer.pc.Stopped?
  {
    RunKeepsSafe(s, acts);
    var t := After(s, acts);
    assert ReaderOk(t.readers[c], c, |t.readers|, t.log, t.producer.pc.Stopped?, Latest(t.cells), t.width);
  }
}
