/** Linearisability of the work-stealing queue and what follows from it. */
module WorkQueueTheorems {
  import opened Basics
  import Bits
  import opened WorkQueue
  import opened WorkQueueSafety
  import opened AtomicDeque

  // ---- the refinement ----

  ghost function OwnerCallOf<E>(c: Config, s: State<E>): OwnerCall<E>
    requires |s.ring| == c.capacity > 0
  {
    match s.owner
    case OwnerIdle => NoCall
    case PushLoadTail(v) => Pushing(v)
    case PushLoadHead(v, _) => Pushing(v)
    case PushWrite(v, _) => Pushing(v)
    case PushStoreTail(v, _) => Pushing(v)
    case PushDone(ok) => Pushed(ok)
    case PullRead(tail, _) => Pulled(Some(Cell(c, s.ring, tail)))
    case PullRestore(_) => Pulled(None)
    case PullUnlock(r) => Pulled(r)
    case PullDone(r) => Pulled(r)
    case _ => Pulling
  }

  ghost function ThiefCallOf<E>(c: Config, ring: seq<E>, pc: ThiefPc<E>): ThiefCall<E>
    requires |ring| == c.capacity > 0
  {
    match pc
    case ThiefIdle => NoSteal
    case StealRead(head) => Stolen(Some(Cell(c, ring, head)))
    case StealRestore(_) => Stolen(None)
    case StealUnlock(r) => Stolen(r)
    case StealDone(r) => Stolen(r)
    case _ => Stealing
  }

  ghost function ThiefCalls<E>(c: Config, ring: seq<E>, thieves: map<ThiefId, ThiefPc<E>>): map<ThiefId, ThiefCall<E>>
    requires |ring| == c.capacity > 0
  {
    map t | t in thieves :: ThiefCallOf(c, ring, thieves[t])
  }

  ghost function SpecOf<E>(c: Config, s: State<E>): Spec<E>
    requires Inv(c, s)
  {
    Spec(Content(c, s), OwnerCallOf(c, s), ThiefCalls(c, s.ring, s.thieves))
  }

  lemma ThiefCallsUpdate<E>(c: Config, ring: seq<E>, thieves: map<ThiefId, ThiefPc<E>>, t: ThiefId, pc: ThiefPc<E>)
    requires |ring| == c.capacity > 0
    ensures ThiefCalls(c, ring, thieves[t := pc]) == ThiefCalls(c, ring, thieves)[t := ThiefCallOf(c, ring, pc)]
    ensures t in thieves ==> ThiefCalls(c, ring, thieves)[t := ThiefCallOf(c, ring, thieves[t])] == ThiefCalls(c, ring, thieves)
  {
  }

  /** The event of a step, by the branch the code takes. */
  ghost function EventOf<E>(c: Config, s: State<E>, a: Action<E>): Event<E>
    requires Enabled(c, s, a)
  {
    match a
    case Push(v) => OwnerBegins(Pushing(v))
    case Pull => OwnerBegins(Pulling)
    case OwnerReturn => OwnerEnds
    case Steal(t) => ThiefBegins(t)
    case ThiefReturn(t) => ThiefEnds(t)
    case OwnerMove =>
      (match s.owner
       case PushLoadHead(v, tail) => if tail < s.head + c.Mask() then Silent else Refuse
       case PushStoreTail(v, _) => Append(v)
       case PullLoadHead(tail) => if s.head >= tail then PullNothing else Silent
       case PullCheckHead(tail) =>
         if s.head <= tail then TakeBack(Cell(c, s.ring, tail)) else Silent
       case PullRecheck(tail) =>
         if s.head <= tail then TakeBack(Cell(c, s.ring, tail)) else PullNothing
       case _ => Silent)
    case ThiefMove(t, timeout) =>
      match s.At(t)
      case StealLock => if timeout then StealNothing(t) else Silent
      case StealCheckTail(head) =>
        if head < s.tail then TakeFront(t, Cell(c, s.ring, head)) else StealNothing(t)
      case _ => Silent
  }

  lemma WindowPop<E>(c: Config, ring: seq<E>, from: int, to: int)
    requires |ring| == c.capacity > 0 && from <= to
    ensures Window(c, ring, from, to + 1) == Window(c, ring, from, to) + [Cell(c, ring, to)]
    ensures Window(c, ring, from - 1, to) == [Cell(c, ring, from - 1)] + Window(c, ring, from, to)
  {
  }

  lemma SlotsDiffer(c: Config, a: int, b: int)
    requires c.capacity > 0 && a < b < a + c.capacity
    ensures c.Slot(a) != c.Slot(b)
  {
    var n := c.capacity;
    var q, r := a / n, b / n;
    assert b - a == (r - q) * n + (b % n - a % n);
    Bits.MultipleGap(r - q, n);
  }

  /** Writing the slot of a newer index leaves the cell of an older one alone, as
      long as both fit into the ring. */
  lemma CellFrame<E>(c: Config, ring: seq<E>, index: int, written: int, v: E)
    requires |ring| == c.capacity > 0 && index < written < index + c.capacity
    ensures Cell(c, ring[c.Slot(written) := v], index) == Cell(c, ring, index)
  {
    SlotsDiffer(c, index, written);
  }

  lemma WindowFrame<E>(c: Config, ring: seq<E>, from: int, to: int, v: E)
    requires |ring| == c.capacity > 0 && from <= to < from + c.capacity
    ensures Window(c, ring[c.Slot(to) := v], from, to) == Window(c, ring, from, to)
  {
    var ring' := ring[c.Slot(to) := v];
    forall i: nat | i < to - from
      ensures Window(c, ring', from, to)[i] == Window(c, ring, from, to)[i]
    {
      CellFrame(c, ring, from + i, to, v);
    }
  }

  lemma OwnerRefines<E>(c: Config, s: State<E>)
    requires Inv(c, s) && c.modulus == 0 && Enabled(c, s, OwnerMove)
    ensures Inv(c, OwnerStep(c, s))
    ensures Allowed(c.capacity, SpecOf(c, s), EventOf(c, s, OwnerMove), SpecOf(c, OwnerStep(c, s)))
  {
    OwnerInv(c, s);
    if s.owner.PushWrite? {
      WriteRefines(c, s);
    } else if s.owner.PushStoreTail? {
      AppendRefines(c, s);
    } else if s.owner.PullCheckHead? || s.owner.PullRecheck? {
      TakeBackRefines(c, s);
    } else {
      OwnerOtherRefines(c, s);
    }
  }

  lemma AppendRefines<E>(c: Config, s: State<E>)
    requires Inv(c, s) && c.modulus == 0 && s.owner.PushStoreTail?
    requires Inv(c, OwnerStep(c, s))
    ensures Allowed(c.capacity, SpecOf(c, s), Append(s.owner.value), SpecOf(c, OwnerStep(c, s)))
  {
    WindowPop(c, s.ring, LogicalHead(s), s.tail);
  }

  lemma TakeBackRefines<E>(c: Config, s: State<E>)
    requires Inv(c, s) && c.modulus == 0 && (s.owner.PullCheckHead? || s.owner.PullRecheck?)
    requires Inv(c, OwnerStep(c, s))
    ensures Allowed(c.capacity, SpecOf(c, s), EventOf(c, s, OwnerMove), SpecOf(c, OwnerStep(c, s)))
  {
    if s.head <= s.tail {
      WindowPop(c, s.ring, LogicalHead(s), s.tail);
    }
  }

  lemma OwnerOtherRefines<E>(c: Config, s: State<E>)
    requires Inv(c, s) && c.modulus == 0 && OwnerEnabled(s)
    requires !s.owner.PushWrite? && !s.owner.PushStoreTail? && !s.owner.PullCheckHead? && !s.owner.PullRecheck?
    requires Inv(c, OwnerStep(c, s))
    ensures Allowed(c.capacity, SpecOf(c, s), EventOf(c, s, OwnerMove), SpecOf(c, OwnerStep(c, s)))
  {
    OwnerKeepsContent(c, s);
    OwnerAnswers(c, s);
    hide Inv, Content, OwnerStep, OwnerEnabled, OwnerCallOf, EventOf;
  }

  lemma OwnerKeepsContent<E>(c: Config, s: State<E>)
    requires Inv(c, s) && c.modulus == 0 && OwnerEnabled(s)
    requires !s.owner.PushWrite? && !s.owner.PushStoreTail? && !s.owner.PullCheckHead? && !s.owner.PullRecheck?
    requires Inv(c, OwnerStep(c, s))
    ensures var s' := OwnerStep(c, s);
            Content(c, s') == Content(c, s) && s'.ring == s.ring && s'.thieves == s.thieves
  {
    var s' := OwnerStep(c, s);
    assert s'.ring == s.ring && LogicalHead(s') == LogicalHead(s) && LogicalTail(s') == LogicalTail(s);
  }

  /** What the owner's call comes to in such a step, and the event this makes. */
  lemma OwnerAnswers<E>(c: Config, s: State<E>)
    requires Inv(c, s) && c.modulus == 0 && OwnerEnabled(s)
    requires !s.owner.PushWrite? && !s.owner.PushStoreTail? && !s.owner.PullCheckHead? && !s.owner.PullRecheck?
    requires |OwnerStep(c, s).ring| == c.capacity
    ensures var e, was, now := EventOf(c, s, OwnerMove), OwnerCallOf(c, s), OwnerCallOf(c, OwnerStep(c, s));
            || (e == Silent && now == was)
            || (e == Refuse && was.Pushing? && now == Pushed(false) && |Content(c, s)| >= c.capacity - 1)
            || (e == PullNothing && was == Pulling && now == Pulled(None) && |Content(c, s)| <= 1)
  {
  }

  lemma WriteRefines<E>(c: Config, s: State<E>)
    requires Inv(c, s) && c.modulus == 0 && s.owner.PushWrite?
    ensures Inv(c, OwnerStep(c, s)) && SpecOf(c, OwnerStep(c, s)) == SpecOf(c, s)
  {
    OwnerInv(c, s);
    var s' := OwnerStep(c, s);
    WindowFrame(c, s.ring, LogicalHead(s), s.tail, s.owner.value);
    forall t | t in s.thieves
      ensures ThiefCallOf(c, s'.ring, s.thieves[t]) == ThiefCallOf(c, s.ring, s.thieves[t])
    {
      if s.thieves[t].StealRead? {
        assert InCritical(s.At(t));
        CellFrame(c, s.ring, s.thieves[t].head, s.tail, s.owner.value);
      }
    }
  }

  lemma ThiefRefines<E>(c: Config, s: State<E>, t: ThiefId, timeout: bool)
    requires Inv(c, s) && c.modulus == 0 && Enabled(c, s, ThiefMove(t, timeout))
    ensures Inv(c, ThiefStep(c, s, t, timeout))
    ensures Allowed(c.capacity, SpecOf(c, s), EventOf(c, s, ThiefMove(t, timeout)),
                    SpecOf(c, ThiefStep(c, s, t, timeout)))
  {
    ThiefInv(c, s, t, timeout);
    ThiefSpec(c, s, t, timeout);
    ThiefAnswers(c, s, t, timeout);
    if s.At(t).StealCheckTail? && s.At(t).head < s.tail {
      TakeFrontRefines(c, s, t);
    } else {
      ThiefKeepsContent(c, s, t, timeout);
    }
    hide Inv, Content, ThiefStep, OwnerCallOf, ThiefCallOf, Enabled, EventOf;
  }

  /** What the thief's call comes to in a step, and the event this makes. */
  lemma ThiefAnswers<E>(c: Config, s: State<E>, t: ThiefId, timeout: bool)
    requires Inv(c, s) && c.modulus == 0 && Enabled(c, s, ThiefMove(t, timeout))
    ensures var e, pc := EventOf(c, s, ThiefMove(t, timeout)), s.At(t);
            var was, now := ThiefCallOf(c, s.ring, pc), ThiefCallOf(c, s.ring, ThiefStep(c, s, t, timeout).At(t));
            if pc.StealCheckTail? && pc.head < s.tail then
              was == Stealing && e == TakeFront(t, Cell(c, s.ring, pc.head)) && now == Stolen(Some(Cell(c, s.ring, pc.head)))
            else
              (e == Silent && now == was) || (e == StealNothing(t) && was == Stealing && now == Stolen(None))
  {
    hide Inv;
  }

  lemma ThiefSpec<E>(c: Config, s: State<E>, t: ThiefId, timeout: bool)
    requires Inv(c, s) && c.modulus == 0 && Enabled(c, s, ThiefMove(t, timeout))
    requires Inv(c, ThiefStep(c, s, t, timeout))
    ensures var s' := ThiefStep(c, s, t, timeout);
            var call := ThiefCallOf(c, s.ring, s'.At(t));
            && SpecOf(c, s').owner == SpecOf(c, s).owner
            && SpecOf(c, s').thieves == SpecOf(c, s).thieves[t := call]
            && SpecOf(c, s).At(t) == ThiefCallOf(c, s.ring, s.At(t))
            && (call == SpecOf(c, s).At(t) ==> SpecOf(c, s').thieves == SpecOf(c, s).thieves)
  {
    var s' := ThiefStep(c, s, t, timeout);
    assert s'.ring == s.ring && s'.thieves == s.thieves[t := s'.At(t)] && s'.owner == s.owner;
    ThiefCallsUpdate(c, s.ring, s.thieves, t, s'.At(t));
  }

  lemma TakeFrontRefines<E>(c: Config, s: State<E>, t: ThiefId)
    requires Inv(c, s) && c.modulus == 0 && s.At(t).StealCheckTail? && s.At(t).head < s.tail
    requires Inv(c, ThiefStep(c, s, t, false))
    ensures Content(c, s) == [Cell(c, s.ring, s.At(t).head)] + Content(c, ThiefStep(c, s, t, false))
  {
    assert InCritical(s.At(t));
    WindowPop(c, s.ring, s.head, LogicalTail(s));
  }

  lemma ThiefKeepsContent<E>(c: Config, s: State<E>, t: ThiefId, timeout: bool)
    requires Inv(c, s) && c.modulus == 0 && Enabled(c, s, ThiefMove(t, timeout))
    requires !(s.At(t).StealCheckTail? && s.At(t).head < s.tail)
    requires Inv(c, ThiefStep(c, s, t, timeout))
    ensures Content(c, ThiefStep(c, s, t, timeout)) == Content(c, s)
  {
    assert InCritical(s.At(t)) ==> s.lock == ByThief(t);
    var s' := ThiefStep(c, s, t, timeout);
    assert LogicalHead(s') == LogicalHead(s) && LogicalTail(s') == LogicalTail(s);
  }

  /** Linearisability: every step of every interleaving is a step of the deque. */
  lemma Refines<E>(c: Config, s: State<E>, a: Action<E>)
    requires Inv(c, s) && c.modulus == 0 && Enabled(c, s, a)
    ensures Inv(c, Next(c, s, a))
    ensures Allowed(c.capacity, SpecOf(c, s), EventOf(c, s, a), SpecOf(c, Next(c, s, a)))
  {
    if a.OwnerMove? {
      OwnerRefines(c, s);
      hide Inv, SpecOf, EventOf, Allowed, OwnerStep;
    } else if a.ThiefMove? {
      ThiefRefines(c, s, a.t, a.timeout);
      hide Inv, SpecOf, EventOf, Allowed, ThiefStep;
    } else {
      BoundaryRefines(c, s, a);
    }
  }

  /** Calls begin and return. */
  lemma BoundaryRefines<E>(c: Config, s: State<E>, a: Action<E>)
    requires Inv(c, s) && c.modulus == 0 && Enabled(c, s, a) && !a.OwnerMove? && !a.ThiefMove?
    ensures Inv(c, Next(c, s, a))
    ensures Allowed(c.capacity, SpecOf(c, s), EventOf(c, s, a), SpecOf(c, Next(c, s, a)))
  {
    NextInv(c, s, a);
  }
}
