/** Stretches of a run of the work-stealing queue in which single calls go undisturbed,
    from which whole runs are put together. */
module WorkQueueScripts {
  import opened Basics
  import opened WorkQueue
  import opened WorkQueueSafety

  /** Elements that the returning call has put in. */
  function Pushes<E>(s: State<E>, a: Action<E>): nat {
    if a.OwnerReturn? && s.owner == PushDone(true) then 1 else 0
  }

  /** Elements that the returning call hands out. */
  function HandsOut<E>(s: State<E>, a: Action<E>): nat {
    match a
    case OwnerReturn => if s.owner.PullDone? && s.owner.result.Some? then 1 else 0
    case ThiefReturn(t) => if s.At(t).StealDone? && s.At(t).result.Some? then 1 else 0
    case _ => 0
  }

  /** Some n steps lead from s to s'; in them i elements were pushed and o handed out. */
  ghost predicate Reaches<E(!new)>(c: Config, s: State<E>, s': State<E>, n: nat, i: nat, o: nat)
    decreases n, 1
  {
    if n == 0 then s == s' && i == 0 && o == 0 else exists a :: Through(c, s, a, s', n, i, o)
  }

  /** The first of the n steps is a. */
  ghost predicate Through<E(!new)>(c: Config, s: State<E>, a: Action<E>, s': State<E>, n: nat, i: nat, o: nat)
    decreases n, 0
  {
    && n > 0 && Enabled(c, s, a) && Pushes(s, a) <= i && HandsOut(s, a) <= o
    && Reaches(c, Next(c, s, a), s', n - 1, i - Pushes(s, a), o - HandsOut(s, a))
  }

  lemma Here<E(!new)>(c: Config, s: State<E>)
    ensures Reaches(c, s, s, 0, 0, 0)
  {
  }

  lemma {:induction false} Append<E(!new)>(c: Config, s: State<E>, s': State<E>, n: nat, i: nat, o: nat, a: Action<E>)
    requires Reaches(c, s, s', n, i, o) && Enabled(c, s', a)
    ensures Reaches(c, s, Next(c, s', a), n + 1, i + Pushes(s', a), o + HandsOut(s', a))
    decreases n
  {
    hide Next, Enabled, Pushes, HandsOut;
    if n == 0 {
      Here(c, Next(c, s, a));
      assert Through(c, s, a, Next(c, s, a), 1, Pushes(s, a), HandsOut(s, a));
    } else {
      var b :| Through(c, s, b, s', n, i, o);
      Append(c, Next(c, s, b), s', n - 1, i - Pushes(s, b), o - HandsOut(s, b), a);
      assert Through(c, s, b, Next(c, s', a), n + 1, i + Pushes(s', a), o + HandsOut(s', a));
    }
  }

  /** The owner and thief 0 are in no call. */
  ghost predicate Resting<E>(c: Config, s: State<E>) {
    && c.Valid() && |s.ring| == c.capacity
    && s.owner.OwnerIdle? && s.lock == Free && s.At(0).ThiefIdle?
  }

  function AfterPush<E>(c: Config, s: State<E>, v: E): State<E>
    requires |s.ring| == c.capacity > 0
  {
    s.(ring := s.ring[c.Slot(s.tail) := v], tail := c.Wrap(s.tail + 1))
  }

  lemma PushRuns<E(!new)>(c: Config, s0: State<E>, s: State<E>, n: nat, i: nat, o: nat, v: E)
    requires Reaches(c, s0, s, n, i, o) && Resting(c, s) && s.tail < c.Wrap(s.head + c.Mask())
    ensures Reaches(c, s0, AfterPush(c, s, v), n + 6, i + 1, o)
  {
    assert 0 <= c.Slot(s.tail) < |s.ring|;
    hide Reaches, Config.Wrap, Config.Slot;
    Append(c, s0, s, n, i, o, Push(v));
    var s1 := s.OwnerTo(PushLoadTail(v));
    Append(c, s0, s1, n + 1, i, o, OwnerMove);
    var s2 := s.OwnerTo(PushLoadHead(v, s.tail));
    Append(c, s0, s2, n + 2, i, o, OwnerMove);
    var s3 := s.OwnerTo(PushWrite(v, s.tail));
    Append(c, s0, s3, n + 3, i, o, OwnerMove);
    var s4 := s.(ring := s.ring[c.Slot(s.tail) := v]).OwnerTo(PushStoreTail(v, s.tail));
    Append(c, s0, s4, n + 4, i, o, OwnerMove);
    var s5 := AfterPush(c, s, v).OwnerTo(PushDone(true));
    Append(c, s0, s5, n + 5, i, o, OwnerReturn);
    assert Next(c, s5, OwnerReturn) == AfterPush(c, s, v);
  }

  function AfterSteal<E>(c: Config, s: State<E>): State<E> {
    s.(head := c.Wrap(s.head + 1)).ThiefTo(0, ThiefIdle)
  }

  /** A thief gets the lock and raises the head. */
  lemma BumpRuns<E(!new)>(c: Config, s0: State<E>, s: State<E>, n: nat, i: nat, o: nat)
    requires Reaches(c, s0, s, n, i, o) && Resting(c, s)
    ensures Reaches(c, s0, s.(lock := ByThief(0), head := c.Wrap(s.head + 1)).ThiefTo(0, StealCheckTail(s.head)), n + 4, i, o)
  {
    hide Reaches, Config.Wrap, Config.Slot;
    var move := ThiefMove(0, false);
    Append(c, s0, s, n, i, o, Steal(0));
    var s1 := s.ThiefTo(0, StealLock);
    Append(c, s0, s1, n + 1, i, o, move);
    var s2 := s1.(lock := ByThief(0)).ThiefTo(0, StealLoadHead);
    Append(c, s0, s2, n + 2, i, o, move);
    var s3 := s2.ThiefTo(0, StealBump(s.head));
    Append(c, s0, s3, n + 3, i, o, move);
    assert Next(c, s3, move).thieves == s.thieves[0 := StealCheckTail(s.head)];
  }

  lemma StealRuns<E(!new)>(c: Config, s0: State<E>, s: State<E>, n: nat, i: nat, o: nat)
    requires Reaches(c, s0, s, n, i, o) && Resting(c, s) && s.head < s.tail
    ensures Reaches(c, s0, AfterSteal(c, s), n + 8, i, o + 1)
  {
    assert 0 <= c.Slot(s.head) < |s.ring|;
    hide Reaches, Config.Wrap, Config.Slot;
    var move := ThiefMove(0, false);
    BumpRuns(c, s0, s, n, i, o);
    var s4 := s.(lock := ByThief(0), head := c.Wrap(s.head + 1)).ThiefTo(0, StealCheckTail(s.head));
    Append(c, s0, s4, n + 4, i, o, move);
    var s5 := s4.ThiefTo(0, StealRead(s.head));
    Append(c, s0, s5, n + 5, i, o, move);
    var x := Some(s.ring[c.Slot(s.head)]);
    var s6 := s5.ThiefTo(0, StealUnlock(x));
    Append(c, s0, s6, n + 6, i, o, move);
    var s7 := s6.(lock := Free).ThiefTo(0, StealDone(x));
    Append(c, s0, s7, n + 7, i, o, ThiefReturn(0));
    assert Next(c, s7, ThiefReturn(0)).thieves == s.thieves[0 := ThiefIdle];
    assert Next(c, s7, ThiefReturn(0)) == AfterSteal(c, s);
  }
}
