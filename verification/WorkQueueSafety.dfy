/** The queue refines a deque. */
module WorkQueueSafety {
  import opened WorkQueue

  // ---- the abstract deque ----

  /** The thief in the critical section that has raised the head and either not
      decided yet or decided to give it back. */
  ghost predicate Bumped<E>(s: State<E>) {
    s.lock.ByThief? && (s.At(s.lock.t).StealCheckTail? || s.At(s.lock.t).StealRestore?)
  }

  ghost function LogicalHead<E>(s: State<E>): int {
    if Bumped(s) then s.head - 1 else s.head
  }

  /** The owner has lowered the tail and not decided yet, or not restored it. */
  ghost predicate Lowered<E>(s: State<E>) {
    s.owner.PullCheckHead? || s.owner.PullLock? || s.owner.PullRecheck? || s.owner.PullRestore?
  }

  ghost function LogicalTail<E>(s: State<E>): int {
    if Lowered(s) then s.tail + 1 else s.tail
  }

  /** The ring slot of an index. */
  ghost function Cell<E>(c: Config, ring: seq<E>, index: int): E
    requires |ring| == c.capacity > 0
  {
    ring[c.Slot(index)]
  }

  ghost function Window<E>(c: Config, ring: seq<E>, from: int, to: int): seq<E>
    requires |ring| == c.capacity > 0 && from <= to
  {
    seq(to - from, (i: nat) => Cell(c, ring, from + i))
  }

  ghost function Content<E>(c: Config, s: State<E>): seq<E>
    requires |s.ring| == c.capacity > 0 && LogicalHead(s) <= LogicalTail(s)
  {
    Window(c, s.ring, LogicalHead(s), LogicalTail(s))
  }

  /** The oldest index whose slot some thread still has to read. */
  ghost function Needed<E>(s: State<E>): int {
    if s.lock.ByThief? && (Bumped(s) || s.At(s.lock.t).StealRead?) then s.head - 1 else s.head
  }

  // ---- the invariant ----

  ghost predicate InCritical<E>(pc: ThiefPc<E>) {
    !pc.ThiefIdle? && !pc.StealLock? && !pc.StealDone?
  }

  ghost predicate OwnerInCritical<E>(pc: OwnerPc<E>) {
    pc.PullRecheck? || pc.PullRestore? || pc.PullUnlock? || (pc.PullRead? && pc.locked)
  }

  ghost predicate LockOk<E>(s: State<E>) {
    && (forall t :: InCritical(s.At(t)) <==> s.lock == ByThief(t))
    && (OwnerInCritical(s.owner) <==> s.lock == ByOwner)
  }

  ghost predicate OwnerOk<E>(c: Config, s: State<E>)
    requires |s.ring| == c.capacity > 0
  {
    match s.owner
    case PushLoadHead(_, tail) => tail == s.tail
    case PushWrite(_, tail) => tail == s.tail && tail - Needed(s) < c.capacity
    case PushStoreTail(v, tail) =>
      tail == s.tail && tail - Needed(s) < c.capacity && Cell(c, s.ring, tail) == v
    case PullLoadHead(tail) => tail == s.tail
    case PullStoreTail(tail) => tail == s.tail && tail > 0
    case PullCheckHead(tail) => tail == s.tail
    case PullLock(tail) => tail == s.tail
    case PullRecheck(tail) => tail == s.tail
    case PullRead(tail, _) => tail == s.tail
    case PullRestore(tail) => tail == s.tail && s.head == tail + 1
    case _ => true
  }

  ghost predicate ThiefOk<E>(s: State<E>, pc: ThiefPc<E>) {
    match pc
    case StealBump(head) => s.head == head
    case StealCheckTail(head) => s.head == head + 1
    case StealRead(head) => s.head == head + 1
    case StealRestore(head) => s.head == head + 1
    case _ => true
  }

  ghost predicate Inv<E>(c: Config, s: State<E>) {
    && c.Valid() && |s.ring| == c.capacity
    && LockOk(s)
    && 0 <= LogicalHead(s) <= LogicalTail(s) && 0 <= s.tail
    && LogicalTail(s) - Needed(s) <= c.capacity
    && OwnerOk(c, s)
    && (s.lock.ByThief? ==> ThiefOk(s, s.At(s.lock.t)))
  }

  lemma InitInv<E>(c: Config, s: State<E>)
    requires Init(c, s)
    ensures Inv(c, s) && Content(c, s) == []
  {
  }

  /** The part of the invariant about the indices. */
  ghost predicate IndicesOk<E>(c: Config, s: State<E>)
    requires |s.ring| == c.capacity > 0
  {
    && 0 <= LogicalHead(s) <= LogicalTail(s) && 0 <= s.tail
    && LogicalTail(s) - Needed(s) <= c.capacity
    && OwnerOk(c, s)
    && (s.lock.ByThief? ==> ThiefOk(s, s.At(s.lock.t)))
  }

  lemma OwnerLock<E>(c: Config, s: State<E>)
    requires LockOk(s) && c.capacity > 0 && |s.ring| == c.capacity && OwnerEnabled(s)
    ensures LockOk(OwnerStep(c, s))
  {
  }

  lemma OwnerIndices<E>(c: Config, s: State<E>)
    requires Inv(c, s) && c.modulus == 0 && OwnerEnabled(s)
    ensures |OwnerStep(c, s).ring| == c.capacity && IndicesOk(c, OwnerStep(c, s))
  {
    assert s.owner.PullLock? || s.owner.PullUnlock? ==> !s.lock.ByThief?;
    hide LockOk;
  }

  lemma OwnerInv<E>(c: Config, s: State<E>)
    requires Inv(c, s) && c.modulus == 0 && OwnerEnabled(s)
    ensures Inv(c, OwnerStep(c, s))
  {
    OwnerLock(c, s);
    OwnerIndices(c, s);
    hide LockOk, OwnerStep, OwnerEnabled, OwnerOk, ThiefOk;
  }

  lemma ThiefInv<E>(c: Config, s: State<E>, t: ThiefId, timeout: bool)
    requires Inv(c, s) && c.modulus == 0 && ThiefEnabled(s, t, timeout)
    ensures Inv(c, ThiefStep(c, s, t, timeout))
  {
    assert InCritical(s.At(t)) <==> s.lock == ByThief(t);
    ThiefLock(c, s, t, timeout);
    ThiefIndices(c, s, t, timeout);
    hide LockOk, ThiefStep, ThiefEnabled, OwnerOk, ThiefOk;
  }

  lemma ThiefLock<E>(c: Config, s: State<E>, t: ThiefId, timeout: bool)
    requires LockOk(s) && c.capacity > 0 && |s.ring| == c.capacity && ThiefEnabled(s, t, timeout)
    ensures LockOk(ThiefStep(c, s, t, timeout))
  {
    var s' := ThiefStep(c, s, t, timeout);
    forall u
      ensures InCritical(s'.At(u)) <==> s'.lock == ByThief(u)
    {
      assert InCritical(s.At(u)) <==> s.lock == ByThief(u);
      assert InCritical(s.At(t)) <==> s.lock == ByThief(t);
    }
  }

  lemma ThiefIndices<E>(c: Config, s: State<E>, t: ThiefId, timeout: bool)
    requires Inv(c, s) && c.modulus == 0 && ThiefEnabled(s, t, timeout)
    ensures |ThiefStep(c, s, t, timeout).ring| == c.capacity && IndicesOk(c, ThiefStep(c, s, t, timeout))
  {
    assert InCritical(s.At(t)) <==> s.lock == ByThief(t);
    hide LockOk;
  }

  lemma NextInv<E>(c: Config, s: State<E>, a: Action<E>)
    requires Inv(c, s) && c.modulus == 0 && Enabled(c, s, a)
    ensures Inv(c, Next(c, s, a))
  {
    if a.OwnerMove? {
      OwnerInv(c, s);
    } else if a.ThiefMove? {
      ThiefInv(c, s, a.t, a.timeout);
    }
  }
}
