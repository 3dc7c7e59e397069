/** Concurrent registration: any number of threads scan the 64 records with
    compare-and-swap, store their starts, and give their records back. */
module Registration {
  import opened RingLayout

  datatype Pc =
    | Idle
      // about to compare-and-swap record i, or to give up when i is 64
    | Trying(start: nat, i: nat)
      // won record id, about to store the start
    | Storing(start: nat, id: nat)
    | Holding(start: nat, id: nat)
    | Refused

  /** `foreign`: threads may give back any id, not only the one they hold. */
  datatype State = State(foreign: bool, active: seq<bool>, sequences: seq<nat>, threads: seq<Pc>)

  datatype Action =
    | Call(t: nat, start: nat)
    | Cas(t: nat)
    | Store(t: nat)
    | GiveUp(t: nat)
    | Unregister(t: nat)
    | UnregisterAny(t: nat, id: nat)

  predicate Sized(s: State) {
    |s.active| == |s.sequences| == MAX_CONSUMERS
  }

  predicate Initial(s: State) {
    && Sized(s)
    && (forall i :: 0 <= i < MAX_CONSUMERS ==> !s.active[i])
    && (forall t :: 0 <= t < |s.threads| ==> s.threads[t] == Idle)
  }

  predicate Enabled(s: State, a: Action) {
    && Sized(s) && a.t < |s.threads|
    && match a
      case Call(t, _) => s.threads[t].Idle? || s.threads[t].Refused?
      case Cas(t) => s.threads[t].Trying? && s.threads[t].i < MAX_CONSUMERS
      case Store(t) => s.threads[t].Storing? && s.threads[t].id < MAX_CONSUMERS
      case GiveUp(t) => s.threads[t].Trying? && s.threads[t].i >= MAX_CONSUMERS
      case Unregister(t) => s.threads[t].Holding? && s.threads[t].id < MAX_CONSUMERS
      case UnregisterAny(_, id) => s.foreign && id < MAX_CONSUMERS
  }

  function Apply(s: State, a: Action): (s': State)
    requires Enabled(s, a)
    ensures Sized(s') && |s'.threads| == |s.threads| && s'.foreign == s.foreign
  {
    match a
    case Call(t, start) => s.(threads := s.threads[t := Trying(start, 0)])
    case Cas(t) =>
      var p := s.threads[t];
      if s.active[p.i] then s.(threads := s.threads[t := Trying(p.start, p.i + 1)])
      else s.(active := s.active[p.i := true], threads := s.threads[t := Storing(p.start, p.i)])
    case Store(t) =>
      var p := s.threads[t];
      s.(sequences := s.sequences[p.id := p.start], threads := s.threads[t := Holding(p.start, p.id)])
    case GiveUp(t) => s.(threads := s.threads[t := Refused])
    case Unregister(t) => s.(active := s.active[s.threads[t].id := false], threads := s.threads[t := Idle])
    case UnregisterAny(_, id) => s.(active := s.active[id := false])
  }

  /** From its successful compare-and-swap until it gives the record back. */
  predicate Owns(p: Pc, i: nat) {
    (p.Storing? || p.Holding?) && p.id == i
  }

  ghost predicate SomeoneOwns(s: State, i: nat) {
    exists t :: 0 <= t < |s.threads| && Owns(s.threads[t], i)
  }

  ghost predicate Exclusive(s: State) {
    forall t, u, i :: 0 <= t < u < |s.threads| && Owns(s.threads[t], i) ==> !Owns(s.threads[u], i)
  }

  /** Owned records are active, owned once, and carry the start of their holder. */
  ghost predicate Safe(s: State) {
    && Sized(s) && !s.foreign
    && (forall t :: 0 <= t < |s.threads| && (s.threads[t].Storing? || s.threads[t].Holding?) ==>
          s.threads[t].id < MAX_CONSUMERS && s.active[s.threads[t].id])
    && Exclusive(s)
    && (forall i :: 0 <= i < MAX_CONSUMERS && s.active[i] ==> SomeoneOwns(s, i))
    && (forall t :: 0 <= t < |s.threads| && s.threads[t].Holding? ==>
          s.sequences[s.threads[t].id] == s.threads[t].start)
  }

  lemma InUseMeansOwned(s: State, a: Action)
    requires Safe(s) && Enabled(s, a)
    ensures var s' := Apply(s, a);
      forall i :: 0 <= i < MAX_CONSUMERS && s'.active[i] ==> SomeoneOwns(s', i)
  {
    var s' := Apply(s, a);
    forall i | 0 <= i < MAX_CONSUMERS && s'.active[i] ensures SomeoneOwns(s', i) {
      if s.active[i] {
        var t :| 0 <= t < |s.threads| && Owns(s.threads[t], i);
        assert Owns(s'.threads[t], i);
      } else {
        assert Owns(s'.threads[a.t], i);
      }
    }
  }

  lemma StartsStay(s: State, a: Action)
    requires Safe(s) && Enabled(s, a)
    ensures var s' := Apply(s, a);
      forall t :: 0 <= t < |s'.threads| && (s'.threads[t].Storing? || s'.threads[t].Holding?) ==>
        && s'.threads[t].id < MAX_CONSUMERS && s'.active[s'.threads[t].id]
        && (s'.threads[t].Holding? ==> s'.sequences[s'.threads[t].id] == s'.threads[t].start)
  {
    var s' := Apply(s, a);
    forall t | 0 <= t < |s'.threads| && (s'.threads[t].Storing? || s'.threads[t].Holding?)
      ensures s'.threads[t].id < MAX_CONSUMERS && s'.active[s'.threads[t].id]
      ensures s'.threads[t].Holding? ==> s'.sequences[s'.threads[t].id] == s'.threads[t].start
    {
      if t != a.t {
        assert s'.threads[t] == s.threads[t] && Owns(s.threads[t], s.threads[t].id);
        assert Owns(s.threads[a.t], s.threads[t].id) ==> false;
      }
    }
  }

  lemma OwnedOnce(s: State, a: Action)
    requires Safe(s) && Enabled(s, a)
    ensures Exclusive(Apply(s, a))
  {
    var s' := Apply(s, a);
    forall t, u, i | 0 <= t < u < |s'.threads| && Owns(s'.threads[t], i) ensures !Owns(s'.threads[u], i) {
      assert t != a.t ==> s'.threads[t] == s.threads[t];
      assert u != a.t ==> s'.threads[u] == s.threads[u];
    }
  }

  lemma StepKeepsSafe(s: State, a: Action)
    requires Safe(s) && Enabled(s, a)
    ensures Safe(Apply(s, a))
  {
    InUseMeansOwned(s, a);
    OwnedOnce(s, a);
    StartsStay(s, a);
  }

  predicate Runs(s: State, acts: seq<Action>)
    decreases |acts|, 0
  {
    acts != [] ==>
      var front := acts[..|acts| - 1];
      Runs(s, front) && Enabled(After(s, front), acts[|acts| - 1])
  }

  function After(s: State, acts: seq<Action>): State
    requires Runs(s, acts)
    decreases |acts|, 1
  {
    if acts == [] then s else Apply(After(s, acts[..|acts| - 1]), acts[|acts| - 1])
  }

  lemma {:induction false} RunKeepsSafe(s: State, acts: seq<Action>)
    requires Initial(s) && !s.foreign && Runs(s, acts)
    ensures Safe(After(s, acts))
    decreases |acts|
  {
    if acts != [] {
      var front := acts[..|acts| - 1];
      RunKeepsSafe(s, front);
      StepKeepsSafe(After(s, front), acts[|acts| - 1]);
    }
  }

  /** In every interleaving of threads that give back what they hold, no two own the same
      record, the records in use are exactly the ones owned, and the start that was
      stored there is the holder's. */
  lemma RegistrationIsExclusive(s: State, acts: seq<Action>, t: nat, u: nat, i: nat)
    requires Initial(s) && !s.foreign && Runs(s, acts) && i < MAX_CONSUMERS
    requires t < |After(s, acts).threads| && u < |After(s, acts).threads|
    ensures var s' := After(s, acts);
      && Sized(s')
      && (Owns(s'.threads[t], i) && Owns(s'.threads[u], i) ==> t == u)
      && (s'.active[i] <==> SomeoneOwns(s', i))
      && (s'.threads[t].Holding? && s'.threads[t].id == i ==> s'.sequences[i] == s'.threads[t].start)
  {
    RunKeepsSafe(s, acts);
  }

  // ---------- giving back somebody else's record ----------

  lemma GoOn(s: State, acts: seq<Action>, t: State, a: Action) returns (acts': seq<Action>, t': State)
    requires Runs(s, acts) && t == After(s, acts) && Enabled(t, a)
    ensures Runs(s, acts') && t' == After(s, acts') && t' == Apply(t, a)
  {
    acts', t' := acts + [a], Apply(t, a);
    assert acts'[..|acts'| - 1] == acts;
  }

  /** Thread 0 takes record 0; thread 1 gives it back, and takes it too. */
  lemma TakenTwice(s: State) returns (acts: seq<Action>)
    requires Initial(s) && s.foreign && |s.threads| >= 2
    ensures Runs(s, acts) && !Exclusive(After(s, acts))
  {
    var t;
    acts, t := GoOn(s, [], s, Call(0, 1));
    acts, t := GoOn(s, acts, t, Cas(0));
    acts, t := GoOn(s, acts, t, UnregisterAny(1, 0));
    acts, t := GoOn(s, acts, t, Call(1, 1));
    acts, t := GoOn(s, acts, t, Cas(1));
    assert Owns(t.threads[0], 0) && Owns(t.threads[1], 0);
  }

  /** Two or more threads never own one record, in any interleaving, if and only if each
      gives back only what it holds. */
  lemma ExclusiveIff(s: State)
    requires Initial(s) && |s.threads| >= 2
    ensures (forall acts :: Runs(s, acts) ==> Exclusive(After(s, acts))) <==> !s.foreign
  {
    if s.foreign {
      var acts := TakenTwice(s);
      assert !Exclusive(After(s, acts));
    } else {
      forall acts | Runs(s, acts) ensures Exclusive(After(s, acts)) {
        RunKeepsSafe(s, acts);
      }
    }
  }

  // ---------- which record a call takes, and when it takes none ----------

  /** In the call of thread t that is on, or has just ended, record i was in use at the
      instant it was tried. */
  ghost predicate FoundInUse(s: State, acts: seq<Action>, t: nat, i: nat)
    requires Runs(s, acts)
    decreases |acts|
  {
    acts != [] &&
    var front, a := acts[..|acts| - 1], acts[|acts| - 1];
    var before := After(s, front);
    || (a == Cas(t) && before.threads[t].i == i && before.active[i] && SomeoneOwns(before, i))
    || (a.t != t && FoundInUse(s, front, t, i))
    || ((a == Cas(t) || a == Store(t) || a == GiveUp(t)) && FoundInUse(s, front, t, i))
  }

  /** Records that the call has passed over. */
  function PassedOver(p: Pc): nat {
    match p
    case Trying(_, i) => if i <= MAX_CONSUMERS then i else MAX_CONSUMERS
    case Storing(_, id) => id
    case Holding(_, id) => id
    case Refused => MAX_CONSUMERS
    case Idle => 0
  }

  /** A call takes the first record that it does not find in use, and is refused only
      after it has found each of the 64 in use, at the instant it tried it. */
  lemma {:induction false} PassedOverInUse(s: State, acts: seq<Action>, t: nat, i: nat)
    requires Initial(s) && !s.foreign && Runs(s, acts) && t < |After(s, acts).threads|
    requires i < PassedOver(After(s, acts).threads[t])
    ensures FoundInUse(s, acts, t, i)
    decreases |acts|
  {
    if acts != [] {
      var front := acts[..|acts| - 1];
      RunKeepsSafe(s, front);
      if i < PassedOver(After(s, front).threads[t]) {
        PassedOverInUse(s, front, t, i);
      }
    }
  }

  /** A call needs at most 65 steps of its own, whatever the others do. */
  function Rank(p: Pc): int {
    match p
    case Trying(_, i) => if i < MAX_CONSUMERS then MAX_CONSUMERS - i + 1 else 1
    case Storing(_, _) => 1
    case _ => 0
  }

  lemma CallIsWaitFree(s: State, t: nat) returns (a: Action)
    requires Safe(s) && t < |s.threads| && (s.threads[t].Trying? || s.threads[t].Storing?)
    ensures a.t == t && Enabled(s, a) && 0 <= Rank(Apply(s, a).threads[t]) < Rank(s.threads[t]) <= 65
    ensures forall b :: Enabled(s, b) && b.t != t ==> Apply(s, b).threads[t] == s.threads[t]
  {
    a := if s.threads[t].Storing? then Store(t)
      else if s.threads[t].i < MAX_CONSUMERS then Cas(t)
      else GiveUp(t);
  }

  /** Between calls a thread may always start one, with any start, and whoever holds a
      record may always give it back: then nobody owns it, and its start stays there. */
  lemma BetweenCalls(s: State, t: nat, start: nat)
    requires Safe(s) && t < |s.threads|
    ensures s.threads[t].Idle? || s.threads[t].Refused? ==> Enabled(s, Call(t, start))
    ensures s.threads[t].Holding? ==>
      && Enabled(s, Unregister(t)) && Safe(Apply(s, Unregister(t)))
      && var s', id := Apply(s, Unregister(t)), s.threads[t].id;
      !s'.active[id] && !SomeoneOwns(s', id) && s'.sequences == s.sequences && s'.threads[t].Idle?
  {
    if s.threads[t].Holding? {
      StepKeepsSafe(s, Unregister(t));
      var s', id := Apply(s, Unregister(t)), s.threads[t].id;
      assert forall u :: 0 <= u < |s'.threads| && Owns(s'.threads[u], id) ==> s'.active[id];
    }
  }
}
