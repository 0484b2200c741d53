/** The work-stealing queue as a transition system: one owner pushes and pulls at the
    tail without a lock, any number of thieves pull at the head one at a time. Each
    step is one access to a shared location. */
module WorkQueue {
  import opened Basics

  type ThiefId = nat

  /** `modulus` is the number of values of an index word; 0 stands for unbounded
      indices. The ring has `capacity` slots, of which `capacity - 1` are offered. */
  datatype Config = Config(capacity: nat, modulus: nat) {
    ghost predicate Valid() {
      capacity > 0 && (modulus == 0 || 2 * capacity <= modulus)
    }

    function Wrap(x: int): int {
      if modulus == 0 then x else x % modulus
    }

    function Slot(index: int): int
      requires capacity > 0
    {
      index % capacity
    }

    function Mask(): int {
      capacity - 1
    }
  }

  datatype OwnerPc<E> =
    | OwnerIdle
    | PushLoadTail(value: E)
    | PushLoadHead(value: E, tail: int)
    | PushWrite(value: E, tail: int)
    | PushStoreTail(value: E, tail: int)
    | PullLoadTail
    | PullLoadHead(tail: int)
    | PullStoreTail(tail: int)
    | PullCheckHead(tail: int)          // from here on the decremented tail
    | PullLock(tail: int)
    | PullRecheck(tail: int)
    | PullRead(tail: int, locked: bool)
    | PullRestore(tail: int)
    | PullUnlock(result: Option<E>)
    | PushDone(ok: bool)
    | PullDone(result: Option<E>)

  datatype ThiefPc<E> =
    | ThiefIdle
    | StealLock
    | StealLoadHead
    | StealBump(head: int)
    | StealCheckTail(head: int)
    | StealRead(head: int)
    | StealRestore(head: int)
    | StealUnlock(result: Option<E>)
    | StealDone(result: Option<E>)

  datatype Lock = Free | ByOwner | ByThief(t: ThiefId)

  datatype State<E> = State(
    head: int, tail: int, ring: seq<E>, lock: Lock,
    owner: OwnerPc<E>, thieves: map<ThiefId, ThiefPc<E>>)
  {
    function At(t: ThiefId): ThiefPc<E> {
      if t in thieves then thieves[t] else ThiefIdle
    }

    function OwnerTo(pc: OwnerPc<E>): State<E> {
      this.(owner := pc)
    }

    function ThiefTo(t: ThiefId, pc: ThiefPc<E>): State<E> {
      this.(thieves := thieves[t := pc])
    }
  }

  // ---- the owner ----

  predicate OwnerEnabled<E>(s: State<E>) {
    match s.owner
    case OwnerIdle => false
    case PushDone(_) => false
    case PullDone(_) => false
    case PullLock(_) => s.lock == Free
    case _ => true
  }

  function OwnerStep<E>(c: Config, s: State<E>): State<E>
    requires c.capacity > 0 && |s.ring| == c.capacity && OwnerEnabled(s)
  {
    match s.owner
    case PushLoadTail(v) => s.OwnerTo(PushLoadHead(v, s.tail))
    case PushLoadHead(v, tail) =>
      if tail < c.Wrap(s.head + c.Mask()) then s.OwnerTo(PushWrite(v, tail))
      else s.OwnerTo(PushDone(false))
    case PushWrite(v, tail) =>
      s.(ring := s.ring[c.Slot(tail) := v]).OwnerTo(PushStoreTail(v, tail))
    case PushStoreTail(v, tail) =>
      s.(tail := c.Wrap(tail + 1)).OwnerTo(PushDone(true))
    case PullLoadTail => s.OwnerTo(PullLoadHead(s.tail))
    case PullLoadHead(tail) =>
      if s.head >= tail then s.OwnerTo(PullDone(None)) else s.OwnerTo(PullStoreTail(tail))
    case PullStoreTail(tail) =>
      var tail' := c.Wrap(tail - 1);
      s.(tail := tail').OwnerTo(PullCheckHead(tail'))
    case PullCheckHead(tail) =>
      if s.head <= tail then s.OwnerTo(PullRead(tail, false)) else s.OwnerTo(PullLock(tail))
    case PullLock(tail) => s.(lock := ByOwner).OwnerTo(PullRecheck(tail))
    case PullRecheck(tail) =>
      if s.head <= tail then s.OwnerTo(PullRead(tail, true)) else s.OwnerTo(PullRestore(tail))
    case PullRead(tail, locked) =>
      var x := Some(s.ring[c.Slot(tail)]);
      if locked then s.OwnerTo(PullUnlock(x)) else s.OwnerTo(PullDone(x))
    case PullRestore(tail) => s.(tail := c.Wrap(tail + 1)).OwnerTo(PullUnlock(None))
    case PullUnlock(r) => s.(lock := Free).OwnerTo(PullDone(r))
  }

  // ---- the thieves ----

  /** With `timeout` a thief gives up waiting for the lock. */
  predicate ThiefEnabled<E>(s: State<E>, t: ThiefId, timeout: bool) {
    match s.At(t)
    case ThiefIdle => false
    case StealDone(_) => false
    case StealLock => timeout || s.lock == Free
    case _ => true
  }

  function ThiefStep<E>(c: Config, s: State<E>, t: ThiefId, timeout: bool): State<E>
    requires c.capacity > 0 && |s.ring| == c.capacity && ThiefEnabled(s, t, timeout)
  {
    match s.At(t)
    case StealLock =>
      if timeout then s.ThiefTo(t, StealDone(None))
      else s.(lock := ByThief(t)).ThiefTo(t, StealLoadHead)
    case StealLoadHead => s.ThiefTo(t, StealBump(s.head))
    case StealBump(head) => s.(head := c.Wrap(head + 1)).ThiefTo(t, StealCheckTail(head))
    case StealCheckTail(head) =>
      if head < s.tail then s.ThiefTo(t, StealRead(head)) else s.ThiefTo(t, StealRestore(head))
    case StealRead(head) => s.ThiefTo(t, StealUnlock(Some(s.ring[c.Slot(head)])))
    case StealRestore(head) => s.(head := head).ThiefTo(t, StealUnlock(None))
    case StealUnlock(r) => s.(lock := Free).ThiefTo(t, StealDone(r))
  }

  datatype Action<E> =
    | Push(value: E)
    | Pull
    | OwnerReturn
    | OwnerMove
    | Steal(t: ThiefId)
    | ThiefReturn(t: ThiefId)
    | ThiefMove(t: ThiefId, timeout: bool)

  predicate Enabled<E>(c: Config, s: State<E>, a: Action<E>) {
    && |s.ring| == c.capacity > 0
    && match a
       case Push(_) => s.owner.OwnerIdle?
       case Pull => s.owner.OwnerIdle?
       case OwnerReturn => s.owner.PushDone? || s.owner.PullDone?
       case OwnerMove => OwnerEnabled(s)
       case Steal(t) => s.At(t).ThiefIdle?
       case ThiefReturn(t) => s.At(t).StealDone?
       case ThiefMove(t, timeout) => ThiefEnabled(s, t, timeout)
  }

  function Next<E>(c: Config, s: State<E>, a: Action<E>): State<E>
    requires Enabled(c, s, a)
  {
    match a
    case Push(v) => s.OwnerTo(PushLoadTail(v))
    case Pull => s.OwnerTo(PullLoadTail)
    case OwnerReturn => s.OwnerTo(OwnerIdle)
    case OwnerMove => OwnerStep(c, s)
    case Steal(t) => s.ThiefTo(t, StealLock)
    case ThiefReturn(t) => s.ThiefTo(t, ThiefIdle)
    case ThiefMove(t, timeout) => ThiefStep(c, s, t, timeout)
  }

  ghost predicate Init<E>(c: Config, s: State<E>) {
    && c.Valid() && |s.ring| == c.capacity
    && s.head == 0 && s.tail == 0 && s.lock == Free
    && s.owner == OwnerIdle && s.thieves == map[]
  }

  /** `size()` as written: a subtraction of index words. */
  function Size<E>(c: Config, s: State<E>): int {
    c.Wrap(s.tail - s.head)
  }
}
