/** A call of the work-stealing queue that runs alone: wherever it stands, it finishes after
    a known number of steps, with the result that the deque owes it. */
module WorkQueueSolo {
  import opened Basics
  import opened WorkQueue
  import opened WorkQueueSafety
  import opened WorkQueueTheorems

  /** How a call ends: where it stands, and the deque. */
  datatype End<Pc, E> = End(pc: Pc, deque: seq<E>)

  // ---- the owner, while no thief holds the lock ----

  ghost predicate OwnerInCall<E>(pc: OwnerPc<E>) {
    !pc.OwnerIdle? && !pc.PushDone? && !pc.PullDone?
  }

  ghost predicate OwnerAble<E>(c: Config, s: State<E>) {
    Inv(c, s) && c.modulus == 0 && !s.lock.ByThief?
  }

  /** The state after n steps of the owner alone. */
  ghost function OwnerSolo<E>(c: Config, s: State<E>, n: nat): State<E>
    requires |s.ring| == c.capacity > 0
    decreases n
  {
    if n == 0 || !OwnerEnabled(s) then s else OwnerSolo(c, OwnerStep(c, s), n - 1)
  }

  ghost function OwnerLeft<E>(c: Config, s: State<E>): nat {
    match s.owner
    case PushLoadTail(_) => if s.tail < s.head + c.Mask() then 4 else 2
    case PushLoadHead(_, tail) => if tail < s.head + c.Mask() then 3 else 1
    case PushWrite(_, _) => 2
    case PushStoreTail(_, _) => 1
    case PullLoadTail => if s.head >= s.tail then 2 else 5
    case PullLoadHead(tail) => if s.head >= tail then 1 else 4
    case PullStoreTail(tail) => if s.head < tail then 3 else 6
    case PullCheckHead(tail) => if s.head <= tail then 2 else 5
    case PullLock(_) => 4
    case PullRecheck(_) => 3
    case PullRead(_, locked) => if locked then 2 else 1
    case PullRestore(_) => 2
    case PullUnlock(_) => 1
    case _ => 0
  }

  /** A push appends unless all places but one are taken. */
  ghost function PushEnd<E>(c: Config, deque: seq<E>, v: E): End<OwnerPc<E>, E> {
    if |deque| < c.capacity - 1 then End(PushDone(true), deque + [v]) else End(PushDone(false), deque)
  }

  /** A pull takes the last element if there is one. */
  ghost function PullEnd<E>(deque: seq<E>): End<OwnerPc<E>, E> {
    if deque == [] then End(PullDone(None), deque)
    else End(PullDone(Some(deque[|deque| - 1])), deque[..|deque| - 1])
  }

  /** What the owner's call promises from where it stands. */
  ghost function OwnerPromise<E>(c: Config, s: State<E>): End<OwnerPc<E>, E>
    requires Inv(c, s)
  {
    var deque := Content(c, s);
    match s.owner
    case PushLoadTail(v) => PushEnd(c, deque, v)
    case PushLoadHead(v, _) => PushEnd(c, deque, v)
    case PushWrite(v, _) => End(PushDone(true), deque + [v])
    case PushStoreTail(v, _) => End(PushDone(true), deque + [v])
    case PullRead(tail, _) => End(PullDone(Some(Cell(c, s.ring, tail))), deque)
    case PullRestore(_) => End(PullDone(None), deque)
    case PullUnlock(r) => End(PullDone(r), deque)
    case OwnerIdle => End(OwnerIdle, deque)
    case PushDone(ok) => End(PushDone(ok), deque)
    case PullDone(r) => End(PullDone(r), deque)
    case _ => PullEnd(deque)
  }

  lemma OwnerAbleStep<E>(c: Config, s: State<E>)
    requires OwnerAble(c, s) && OwnerInCall(s.owner)
    ensures OwnerEnabled(s) && OwnerAble(c, OwnerStep(c, s))
    ensures OwnerLeft(c, OwnerStep(c, s)) == OwnerLeft(c, s) - 1
  {
    assert s.owner.PullLock? ==> s.lock == Free;
    OwnerInv(c, s);
    hide LockOk;
  }

  lemma OwnerKeeps<E>(c: Config, s: State<E>)
    requires OwnerAble(c, s) && OwnerInCall(s.owner) && OwnerEnabled(s) && OwnerAble(c, OwnerStep(c, s))
    ensures OwnerPromise(c, OwnerStep(c, s)) == OwnerPromise(c, s)
  {
    var s' := OwnerStep(c, s);
    if s.owner.PushWrite? {
      WindowFrame(c, s.ring, s.head, s.owner.tail, s.owner.value);
    } else if s.owner.PushStoreTail? {
      WindowPop(c, s.ring, s.head, s.tail);
    } else if s.owner.PullCheckHead? || s.owner.PullRecheck? {
      if s.head <= s.tail {
        WindowPop(c, s.ring, s.head, s.tail);
      }
    } else {
      assert Content(c, s') == Content(c, s);
    }
  }

  /** The owner's call, alone, ends after at most six steps: a push has appended its value,
      or found all places but one taken; a pull has returned the last element, or found
      none. */
  lemma {:induction false} OwnerAlone<E>(c: Config, s: State<E>)
    requires OwnerAble(c, s)
    ensures OwnerLeft(c, s) <= 6
    ensures var end, s' := OwnerPromise(c, s), OwnerSolo(c, s, OwnerLeft(c, s));
      OwnerAble(c, s') && s'.owner == end.pc && !OwnerInCall(s'.owner) && Content(c, s') == end.deque
    decreases OwnerLeft(c, s)
  {
    if OwnerInCall(s.owner) {
      OwnerAbleStep(c, s);
      OwnerKeeps(c, s);
      hide Inv, OwnerPromise, OwnerStep;
      OwnerAlone(c, OwnerStep(c, s));
    }
  }

  // ---- a thief, while no other call holds the lock ----

  ghost predicate ThiefInCall<E>(pc: ThiefPc<E>) {
    !pc.ThiefIdle? && !pc.StealDone?
  }

  ghost predicate ThiefAble<E>(c: Config, s: State<E>, t: ThiefId) {
    Inv(c, s) && c.modulus == 0 && (s.lock == Free || s.lock == ByThief(t))
  }

  ghost function ThiefSolo<E>(c: Config, s: State<E>, t: ThiefId, n: nat): State<E>
    requires |s.ring| == c.capacity > 0
    decreases n
  {
    if n == 0 || !ThiefEnabled(s, t, false) then s else ThiefSolo(c, ThiefStep(c, s, t, false), t, n - 1)
  }

  ghost function ThiefLeft<E>(pc: ThiefPc<E>): nat {
    match pc
    case StealLock => 6
    case StealLoadHead => 5
    case StealBump(_) => 4
    case StealCheckTail(_) => 3
    case StealRead(_) => 2
    case StealRestore(_) => 2
    case StealUnlock(_) => 1
    case _ => 0
  }

  /** A steal takes the first element, unless the deque is empty or the owner has lowered
      the tail to it. */
  ghost function StealEnd<E>(c: Config, s: State<E>): End<ThiefPc<E>, E>
    requires Inv(c, s)
  {
    var deque := Content(c, s);
    if LogicalHead(s) < s.tail then End(StealDone(Some(deque[0])), deque[1..]) else End(StealDone(None), deque)
  }

  ghost function ThiefPromise<E>(c: Config, s: State<E>, t: ThiefId): End<ThiefPc<E>, E>
    requires Inv(c, s)
  {
    var deque := Content(c, s);
    match s.At(t)
    case ThiefIdle => End(ThiefIdle, deque)
    case StealRead(head) => End(StealDone(Some(Cell(c, s.ring, head))), deque)
    case StealRestore(_) => End(StealDone(None), deque)
    case StealUnlock(r) => End(StealDone(r), deque)
    case StealDone(r) => End(StealDone(r), deque)
    case _ => StealEnd(c, s)
  }

  lemma ThiefAbleStep<E>(c: Config, s: State<E>, t: ThiefId)
    requires ThiefAble(c, s, t) && ThiefInCall(s.At(t))
    ensures ThiefEnabled(s, t, false) && ThiefAble(c, ThiefStep(c, s, t, false), t)
    ensures ThiefLeft(ThiefStep(c, s, t, false).At(t)) == ThiefLeft(s.At(t)) - 1
  {
    assert InCritical(s.At(t)) <==> s.lock == ByThief(t);
    ThiefInv(c, s, t, false);
    hide LockOk;
  }

  lemma ThiefKeeps<E>(c: Config, s: State<E>, t: ThiefId)
    requires ThiefAble(c, s, t) && ThiefInCall(s.At(t)) && ThiefEnabled(s, t, false)
    requires ThiefAble(c, ThiefStep(c, s, t, false), t)
    ensures ThiefPromise(c, ThiefStep(c, s, t, false), t) == ThiefPromise(c, s, t)
  {
    assert InCritical(s.At(t)) <==> s.lock == ByThief(t);
    hide LockOk;
    var s' := ThiefStep(c, s, t, false);
    if s.At(t).StealCheckTail? && s.At(t).head < s.tail {
      WindowPop(c, s.ring, s.head, LogicalTail(s));
    } else {
      assert Content(c, s') == Content(c, s);
    }
  }

  /** A thief's call, alone, ends after at most six steps: it has taken the first element,
      or found none that the owner is not already pulling. */
  lemma {:induction false} ThiefAlone<E>(c: Config, s: State<E>, t: ThiefId)
    requires ThiefAble(c, s, t)
    ensures ThiefLeft(s.At(t)) <= 6
    ensures var end, s' := ThiefPromise(c, s, t), ThiefSolo(c, s, t, ThiefLeft(s.At(t)));
      ThiefAble(c, s', t) && s'.At(t) == end.pc && !ThiefInCall(s'.At(t)) && Content(c, s') == end.deque
    decreases ThiefLeft(s.At(t))
  {
    if ThiefInCall(s.At(t)) {
      ThiefAbleStep(c, s, t);
      ThiefKeeps(c, s, t);
      hide Inv, ThiefPromise, ThiefStep;
      ThiefAlone(c, ThiefStep(c, s, t, false), t);
    }
  }
}
