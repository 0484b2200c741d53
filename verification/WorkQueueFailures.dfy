/** Runs in which the work-stealing queue does what its users do not expect: at the end of
    the index range it refuses elements and hands one out twice, and anywhere it may
    fail to hand out the only element. */
module WorkQueueFailures {
  import Bits
  import opened Basics
  import opened WorkQueue
  import opened WorkQueueSafety
  import opened WorkQueueRuns
  import opened WorkQueueWidth
  import opened WorkQueueScripts

  // ---- states in which nothing goes on ----

  /** No call is running, and the elements are at h to t - 1. */
  ghost predicate Calm<E>(c: Config, s: State<E>, h: int, t: int) {
    && Resting(c, s) && (forall u :: s.At(u).ThiefIdle?)
    && 0 <= h == s.head <= s.tail == t <= h + c.Mask()
  }

  lemma CalmInv<E>(c: Config, s: State<E>, h: int, t: int)
    requires Calm(c, s, h, t)
    ensures Inv(Unbounded(c), s) && |Content(Unbounded(c), s)| == t - h
  {
  }

  lemma CalmPush<E(!new)>(c: Config, s0: State<E>, s: State<E>, n: nat, o: nat, h: nat, t: nat, v: E)
    returns (s': State<E>, n': nat)
    requires h <= t && Reaches(c, s0, s, n, o + t - h, o) && Calm(c, s, h, t)
    requires c.modulus > 0 && h + c.Mask() < c.modulus && t < h + c.Mask()
    ensures Reaches(c, s0, s', n', o + t + 1 - h, o) && Calm(c, s', h, t + 1)
    ensures s'.ring == s.ring[c.Slot(t) := v]
  {
    WrapSmall(c, h + c.Mask());
    WrapSmall(c, t + 1);
    hide Reaches, Config.Wrap;
    PushRuns(c, s0, s, n, o + t - h, o, v);
    s', n' := AfterPush(c, s, v), n + 6;
    forall u
      ensures s'.At(u).ThiefIdle?
    {
      assert s.At(u).ThiefIdle?;
    }
  }

  lemma CalmSteal<E(!new)>(c: Config, s0: State<E>, s: State<E>, n: nat, o: nat, h: nat, t: nat)
    returns (s': State<E>, n': nat)
    requires h < t < c.modulus && Reaches(c, s0, s, n, o + t - h, o) && Calm(c, s, h, t)
    ensures Reaches(c, s0, s', n', o + t - h, o + 1) && Calm(c, s', h + 1, t) && s'.ring == s.ring
  {
    WrapSmall(c, h + 1);
    hide Reaches, Config.Wrap;
    StealRuns(c, s0, s, n, o + t - h, o);
    s', n' := AfterSteal(c, s), n + 8;
    forall u
      ensures s'.At(u).ThiefIdle?
    {
      assert s.At(u).ThiefIdle?;
    }
  }

  // ---- reaching the end of the index range ----

  lemma {:induction false} PushMany<E(!new)>(c: Config, s0: State<E>, s: State<E>, n: nat, o: nat, h: nat, d: nat, v: E)
    returns (s': State<E>, n': nat)
    requires Reaches(c, s0, s, n, o, o) && Calm(c, s, h, h) && d <= c.Mask()
    requires c.modulus > 0 && h + c.Mask() < c.modulus
    ensures Reaches(c, s0, s', n', o + d, o) && Calm(c, s', h, h + d)
  {
    hide Reaches;
    if d == 0 {
      s', n' := s, n;
    } else {
      var s1, n1 := PushMany(c, s0, s, n, o, h, d - 1, v);
      s', n' := CalmPush(c, s0, s1, n1, o, h, h + d - 1, v);
    }
  }

  lemma {:induction false} StealAll<E(!new)>(c: Config, s0: State<E>, s: State<E>, n: nat, o: nat, h: nat, t: nat)
    returns (s': State<E>, n': nat)
    requires h <= t < c.modulus && Reaches(c, s0, s, n, o + t - h, o) && Calm(c, s, h, t)
    ensures Reaches(c, s0, s', n', o + t - h, o + t - h) && Calm(c, s', t, t) && s'.ring == s.ring
    decreases t - h
  {
    hide Reaches;
    if h == t {
      s', n' := s, n;
    } else {
      var s1, n1 := CalmSteal(c, s0, s, n, o, h, t);
      s', n' := StealAll(c, s0, s1, n1, o + 1, h + 1, t);
    }
  }

  /** Every index can be reached with an empty queue, by as many pushes as steals. */
  lemma {:induction false} Empties<E(!new)>(c: Config, s0: State<E>, h: nat, v: E)
    returns (s: State<E>, n: nat)
    requires Init(c, s0) && c.capacity > 1 && h < c.modulus
    ensures Reaches(c, s0, s, n, h, h) && Calm(c, s, h, h)
  {
    hide Reaches;
    if h == 0 {
      Here(c, s0);
      s, n := s0, 0;
    } else {
      var from := if h + c.Mask() <= c.modulus then h - 1 else c.modulus - c.capacity;
      var s1, n1 := Empties(c, s0, from, v);
      var s2, n2 := PushMany(c, s0, s1, n1, from, from, h - from, v);
      s, n := StealAll(c, s0, s2, n2, from, from, h);
    }
  }

  /** For every size and width of indices, an empty queue whose head has come within
      capacity - 1 of the end of the range can be reached, and it refuses every push. */
  lemma EmptyQueueRefuses<E(!new)>(c: Config, s0: State<E>, h: nat, v: E) returns (s: State<E>, n: nat)
    requires Init(c, s0) && c.capacity > 1 && h < c.modulus <= h + c.Mask()
    ensures Reaches(c, s0, s, n, h, h) && Calm(c, s, h, h) && Content(Unbounded(c), s) == []
    ensures OwnerStep(c, s.OwnerTo(PushLoadHead(v, h))).owner == PushDone(false)
    ensures OwnerStep(Unbounded(c), s.OwnerTo(PushLoadHead(v, h))).owner == PushWrite(v, h)
  {
    s, n := Empties(c, s0, h, v);
    hide Reaches;
    CalmInv(c, s, h, h);
    Bits.DivideByMultiple(1, c.modulus, h + c.Mask() - c.modulus);
  }

  // ---- an element handed out twice ----

  /** The head has wrapped to zero under a thief: the owner takes what it finds behind it. */
  lemma PullBehindHead<E(!new)>(c: Config, s0: State<E>, s: State<E>, n: nat, i: nat, o: nat, h: nat)
    returns (s': State<E>)
    requires Reaches(c, s0, s, n, i, o) && c.Valid() && |s.ring| == c.capacity
    requires s.owner.OwnerIdle? && s.head == 0 && s.tail == h && 0 < h < c.modulus
    ensures Reaches(c, s0, s', n + 7, i, o + 1)
    ensures s'.tail == h - 1 && s'.ring == s.ring && s'.owner.OwnerIdle?
  {
    WrapSmall(c, h - 1);
    hide Reaches, Config.Wrap, Config.Slot;
    assert 0 <= c.Slot(h - 1) < |s.ring| by { SlotInRing(c, h - 1); }
    Append(c, s0, s, n, i, o, Pull);
    Append(c, s0, s.OwnerTo(PullLoadTail), n + 1, i, o, OwnerMove);
    Append(c, s0, s.OwnerTo(PullLoadHead(h)), n + 2, i, o, OwnerMove);
    Append(c, s0, s.OwnerTo(PullStoreTail(h)), n + 3, i, o, OwnerMove);
    var s1 := s.(tail := h - 1);
    Append(c, s0, s1.OwnerTo(PullCheckHead(h - 1)), n + 4, i, o, OwnerMove);
    Append(c, s0, s1.OwnerTo(PullRead(h - 1, false)), n + 5, i, o, OwnerMove);
    var s2 := s1.OwnerTo(PullDone(Some(s.ring[c.Slot(h - 1)])));
    Append(c, s0, s2, n + 6, i, o, OwnerReturn);
    s' := Next(c, s2, OwnerReturn);
  }

  lemma SlotInRing(c: Config, i: int)
    requires c.capacity > 0
    ensures 0 <= c.Slot(i) < c.capacity
  {
  }

  /** For every size and width of indices there is a run in which more elements are
      handed out than were ever pushed: as many pushes as steals lead to the end of the
      index range, a thief's bump wraps the head to zero, and the owner then pulls an
      element from the empty queue. */
  lemma HandsOutTwice<E(!new)>(c: Config, s0: State<E>, v: E) returns (s: State<E>, n: nat)
    requires Init(c, s0) && c.capacity > 1 && c.modulus > 0
    ensures Reaches(c, s0, s, n, c.modulus - 1, c.modulus)
  {
    var h := c.modulus - 1;
    var s1, n1 := Empties(c, s0, h, v);
    WrapEdge(c, c.modulus);
    hide Reaches, Config.Wrap;
    BumpRuns(c, s0, s1, n1, h, h);
    var s2 := s1.(lock := ByThief(0), head := 0).ThiefTo(0, StealCheckTail(h));
    s := PullBehindHead(c, s0, s2, n1 + 4, h, h, h);
    n := n1 + 11;
  }

  // ---- the only element not handed out ----

  /** A thief finds the queue empty, and has not given the head back yet. */
  lemma ThiefFails<E(!new)>(c: Config, s0: State<E>, s: State<E>, n: nat, i: nat, o: nat)
    requires Reaches(c, s0, s, n, i, o) && Resting(c, s) && s.head == s.tail == 0
    ensures Reaches(c, s0, s.(lock := ByThief(0), head := 1).ThiefTo(0, StealRestore(0)), n + 5, i, o)
  {
    WrapSmall(c, 1);
    hide Reaches, Config.Wrap;
    BumpRuns(c, s0, s, n, i, o);
    var s1 := s.(lock := ByThief(0), head := 1).ThiefTo(0, StealCheckTail(0));
    Append(c, s0, s1, n + 4, i, o, ThiefMove(0, false));
    assert Next(c, s1, ThiefMove(0, false)).thieves == s.thieves[0 := StealRestore(0)];
  }

  /** The owner pushes under the raised head. */
  lemma PushUnderBump<E(!new)>(c: Config, s0: State<E>, s: State<E>, n: nat, i: nat, o: nat, v: E)
    requires Reaches(c, s0, s, n, i, o) && c.Valid() && |s.ring| == c.capacity > 1
    requires s.owner.OwnerIdle? && s.head == 1 && s.tail == 0
    ensures Reaches(c, s0, s.(ring := s.ring[0 := v], tail := 1), n + 6, i + 1, o)
  {
    WrapSmall(c, 1);
    WrapSmall(c, 1 + c.Mask());
    assert c.Slot(0) == 0;
    hide Reaches, Config.Wrap, Config.Slot;
    Append(c, s0, s, n, i, o, Push(v));
    Append(c, s0, s.OwnerTo(PushLoadTail(v)), n + 1, i, o, OwnerMove);
    Append(c, s0, s.OwnerTo(PushLoadHead(v, 0)), n + 2, i, o, OwnerMove);
    Append(c, s0, s.OwnerTo(PushWrite(v, 0)), n + 3, i, o, OwnerMove);
    var s1 := s.(ring := s.ring[0 := v]);
    Append(c, s0, s1.OwnerTo(PushStoreTail(v, 0)), n + 4, i, o, OwnerMove);
    Append(c, s0, s1.(tail := 1).OwnerTo(PushDone(true)), n + 5, i, o, OwnerReturn);
  }

  /** And pulls in vain. */
  lemma PullUnderBump<E(!new)>(c: Config, s0: State<E>, s: State<E>, n: nat, i: nat, o: nat)
    requires Reaches(c, s0, s, n, i, o) && c.Valid() && |s.ring| == c.capacity
    requires s.owner.OwnerIdle? && s.head == s.tail == 1
    ensures Reaches(c, s0, s.OwnerTo(PullDone(None)), n + 3, i, o)
  {
    hide Reaches;
    Append(c, s0, s, n, i, o, Pull);
    Append(c, s0, s.OwnerTo(PullLoadTail), n + 1, i, o, OwnerMove);
    Append(c, s0, s.OwnerTo(PullLoadHead(1)), n + 2, i, o, OwnerMove);
  }

  /** Only thief 0 is in a call. */
  lemma OnlyElement<E>(c: Config, s: State<E>, v: E)
    requires c.Valid() && |s.ring| == c.capacity > 1 && s.ring[0] == v
    requires s.head == s.tail == 1 && s.lock == ByThief(0) && s.owner == PullDone(None)
    requires forall t :: s.At(t) == if t == 0 then StealRestore(0) else ThiefIdle
    ensures Inv(Unbounded(c), s) && Content(Unbounded(c), s) == [v]
  {
    assert c.Slot(0) == 0;
  }

  /** A run, in a queue of any size and width, in which the owner's pull returns false
      although the deque holds the one element it has just pushed: the thief that holds
      the head up has already failed. */
  lemma PullMissesOnlyElement<E(!new)>(c: Config, s0: State<E>, v: E) returns (s: State<E>)
    requires Init(c, s0) && c.capacity > 1
    ensures Reaches(c, s0, s, 14, 1, 0)
    ensures s.owner == PullDone(None) && s.At(0).StealRestore?
    ensures Inv(Unbounded(c), s) && Content(Unbounded(c), s) == [v]
  {
    hide Reaches;
    Here(c, s0);
    ThiefFails(c, s0, s0, 0, 0, 0);
    var s1 := s0.(lock := ByThief(0), head := 1).ThiefTo(0, StealRestore(0));
    PushUnderBump(c, s0, s1, 5, 0, 0, v);
    var s2 := s1.(ring := s1.ring[0 := v], tail := 1);
    PullUnderBump(c, s0, s2, 11, 1, 0);
    s := s2.OwnerTo(PullDone(None));
    OnlyElement(c, s, v);
  }
}
