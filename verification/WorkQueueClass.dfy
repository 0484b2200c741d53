/** The work-stealing queue with the fields the program has: two index words that wrap,
    a ring reached through a mask, and a lock. `OwnerMove` and `ThiefMove` perform one
    access; the other methods are whole calls that no other call overlaps. */
module WorkQueueClass {
  import opened Basics
  import opened Bits
  import opened WorkQueue
  import opened WorkQueueSafety
  import opened WorkQueueTheorems
  import opened WorkQueueRuns
  import opened WorkQueueWidth

  /** A queue that no call is working on: the indices delimit its content. */
  ghost predicate Plain<E>(c: Config, s: State<E>, deque: seq<E>) {
    && c.Valid() && |s.ring| == c.capacity
    && s.lock == Free && 0 <= s.head <= s.tail <= s.head + c.capacity
    && deque == Window(c, s.ring, s.head, s.tail)
  }

  lemma QuietIsPlain<E>(c: Config, s: State<E>)
    requires Inv(c, s) && Quiet(s)
    ensures Plain(c, s, Content(c, s))
  {
    assert s.lock.ByThief? ==> InCritical(s.At(s.lock.t));
  }

  lemma PlainIsInv<E>(c: Config, was: State<E>, s: State<E>, deque: seq<E>)
    requires Plain(c, s, deque) && Quiet(was) && s.owner == was.owner && s.thieves == was.thieves
    ensures Inv(c, s) && Quiet(s) && Content(c, s) == deque
  {
    forall t
      ensures !InCritical(s.At(t))
    {
      assert !InCritical(was.At(t));
    }
  }

  /** A sum of two index words wraps at most once. */
  lemma WrapTwice(c: Config, x: nat)
    requires c.modulus > 0 && x < 2 * c.modulus
    ensures c.Wrap(x) == if x < c.modulus then x else x - c.modulus
  {
    if x < c.modulus {
      WrapSmall(c, x);
    } else {
      DivideByMultiple(1, c.modulus, x - c.modulus);
    }
  }

  class WorkStealingQueue<E> {
    const capacityBits: nat
    const sizeBits: nat
    var head: nat
    var tail: nat
    const elements: array<E>
    var lock: Lock
    var owner: OwnerPc<E>
    var thieves: map<ThiefId, ThiefPc<E>>

    function C(): Config {
      Config(Pow2(capacityBits), Pow2(sizeBits))
    }

    ghost function View(): State<E>
      reads this, elements
    {
      State(head, tail, elements[..], lock, owner, thieves)
    }

    /** An index word. */
    predicate Word(i: int) {
      0 <= i < C().modulus
    }

    predicate OwnerWords(pc: OwnerPc<E>) {
      match pc
      case PushLoadHead(_, tail) => Word(tail)
      case PushWrite(_, tail) => Word(tail)
      case PushStoreTail(_, tail) => Word(tail)
      case PullLoadHead(tail) => Word(tail)
      case PullStoreTail(tail) => Word(tail)
      case PullCheckHead(tail) => Word(tail)
      case PullLock(tail) => Word(tail)
      case PullRecheck(tail) => Word(tail)
      case PullRead(tail, _) => Word(tail)
      case PullRestore(tail) => Word(tail)
      case _ => true
    }

    predicate ThiefWords(pc: ThiefPc<E>) {
      match pc
      case StealBump(head) => Word(head)
      case StealCheckTail(head) => Word(head)
      case StealRead(head) => Word(head)
      case StealRestore(head) => Word(head)
      case _ => true
    }

    ghost predicate Valid()
      reads this
    {
      && capacityBits < sizeBits && C().Valid()
      && elements.Length == C().capacity
      && Word(head) && Word(tail)
      && OwnerWords(owner) && (forall t :: t in thieves ==> ThiefWords(thieves[t]))
    }

    constructor (capacityBits: nat, sizeBits: nat, blank: E)
      requires capacityBits < sizeBits
      ensures Valid() && Init(C(), View()) && fresh(elements)
      ensures this.capacityBits == capacityBits && this.sizeBits == sizeBits
    {
      Pow2Grows(capacityBits, sizeBits);
      this.capacityBits, this.sizeBits := capacityBits, sizeBits;
      head, tail, lock := 0, 0, Free;
      elements := new E[Pow2(capacityBits)](_ => blank);
      owner, thieves := OwnerIdle, map[];
    }

    /** The ring position of an index: the lowest bits of its word. */
    method Position(i: nat) returns (p: nat)
      requires Valid()
      ensures p == C().Slot(i) && p < elements.Length
    {
      MaskIsModulo(capacityBits, i);
      p := And(i, Pow2(capacityBits) - 1);
    }

    method OwnerMove()
      requires Valid() && OwnerEnabled(View())
      modifies this`tail, this`lock, this`owner, elements
      ensures Valid() && View() == OwnerStep(C(), old(View()))
    {
      match owner
      case PushLoadTail(v) => owner := PushLoadHead(v, tail);
      case PushLoadHead(v, mirror) =>
        owner := if mirror < C().Wrap(head + C().Mask()) then PushWrite(v, mirror) else PushDone(false);
      case PushWrite(v, mirror) =>
        var p := Position(mirror);
        elements[p] := v;
        owner := PushStoreTail(v, mirror);
      case PushStoreTail(v, mirror) =>
        tail := C().Wrap(mirror + 1);
        owner := PushDone(true);
      case PullLoadTail => owner := PullLoadHead(tail);
      case PullLoadHead(mirror) =>
        owner := if head >= mirror then PullDone(None) else PullStoreTail(mirror);
      case PullStoreTail(mirror) =>
        tail := C().Wrap(mirror - 1);
        owner := PullCheckHead(tail);
      case PullCheckHead(mirror) =>
        owner := if head <= mirror then PullRead(mirror, false) else PullLock(mirror);
      case PullLock(mirror) =>
        lock := ByOwner;
        owner := PullRecheck(mirror);
      case PullRecheck(mirror) =>
        owner := if head <= mirror then PullRead(mirror, true) else PullRestore(mirror);
      case PullRead(mirror, locked) =>
        var p := Position(mirror);
        owner := if locked then PullUnlock(Some(elements[p])) else PullDone(Some(elements[p]));
      case PullRestore(mirror) =>
        tail := C().Wrap(mirror + 1);
        owner := PullUnlock(None);
      case PullUnlock(r) =>
        lock := Free;
        owner := PullDone(r);
    }

    method ThiefMove(t: ThiefId, timeout: bool)
      requires Valid() && ThiefEnabled(View(), t, timeout)
      modifies this`head, this`lock, this`thieves
      ensures Valid() && View() == ThiefStep(C(), old(View()), t, timeout)
    {
      match thieves[t]
      case StealLock =>
        if timeout {
          thieves := thieves[t := StealDone(None)];
        } else {
          lock := ByThief(t);
          thieves := thieves[t := StealLoadHead];
        }
      case StealLoadHead => thieves := thieves[t := StealBump(head)];
      case StealBump(mirror) =>
        head := C().Wrap(mirror + 1);
        thieves := thieves[t := StealCheckTail(mirror)];
      case StealCheckTail(mirror) =>
        thieves := thieves[t := if mirror < tail then StealRead(mirror) else StealRestore(mirror)];
      case StealRead(mirror) =>
        var p := Position(mirror);
        thieves := thieves[t := StealUnlock(Some(elements[p]))];
      case StealRestore(mirror) =>
        head := mirror;
        thieves := thieves[t := StealUnlock(None)];
      case StealUnlock(r) =>
        lock := Free;
        thieves := thieves[t := StealDone(r)];
    }

    // ---- calls that run alone ----

    ghost predicate Alone()
      reads this, elements
    {
      Valid() && Inv(Unbounded(C()), View()) && Quiet(View())
    }

    ghost function Deque(): seq<E>
      reads this, elements
      requires Alone()
    {
      Content(Unbounded(C()), View())
    }

    lemma AloneIsPlain()
      requires Alone()
      ensures Plain(Unbounded(C()), View(), Deque()) && |Deque()| == tail - head
    {
      QuietIsPlain(Unbounded(C()), View());
    }

    /** Refuses a queue with all but one of its places taken, and any queue whose head is
        so close to the end of the index range that the sum it is compared with wraps. */
    method UniquePush(newValue: E) returns (ok: bool)
      requires Alone()
      modifies this`tail, elements
      ensures Alone() && head == old(head)
      ensures ok <==> |old(Deque())| < C().capacity - 1 && head + C().Mask() < C().modulus
      ensures Deque() == if ok then old(Deque()) + [newValue] else old(Deque())
    {
      AloneIsPlain();
      hide Inv, Content, Quiet, Window, Config.Wrap, Config.Slot, Pow2;
      ghost var was := View();
      ghost var ring, deque := elements[..], Deque();
      var mirror := tail;
      WrapTwice(C(), head + C().Mask());
      if mirror < C().Wrap(head + C().Mask()) {
        var p := Position(mirror);
        elements[p] := newValue;
        WindowFrame(Unbounded(C()), ring, head, mirror, newValue);
        WindowPop(Unbounded(C()), elements[..], head, mirror);
        WrapSmall(C(), mirror + 1);
        tail := C().Wrap(mirror + 1);
        PlainIsInv(Unbounded(C()), was, View(), deque + [newValue]);
        return true;
      } else {
        return false;
      }
    }

    method UniquePull() returns (result: Option<E>)
      requires Alone()
      modifies this`tail
      ensures Alone() && head == old(head)
      ensures if old(Deque()) == [] then result == None && Deque() == []
              else result.Some? && old(Deque()) == Deque() + [result.value]
    {
      AloneIsPlain();
      hide Inv, Content, Quiet, Window, Config.Wrap, Config.Slot, Pow2;
      ghost var was := View();
      var mirror := tail;
      if head >= mirror {
        return None;
      }
      mirror := mirror - 1;
      WindowPop(Unbounded(C()), elements[..], head, mirror);
      tail := mirror;
      PlainIsInv(Unbounded(C()), was, View(), Window(Unbounded(C()), elements[..], head, mirror));
      // Alone, the second look at the head cannot fail: only `OwnerMove` meets the lock.
      assert head <= mirror;
      var p := Position(mirror);
      return Some(elements[p]);
    }

    method SharedPull() returns (result: Option<E>)
      requires Alone()
      modifies this`head
      ensures Alone() && tail == old(tail)
      ensures if old(Deque()) == [] then result == None && Deque() == []
              else result.Some? && old(Deque()) == [result.value] + Deque()
    {
      AloneIsPlain();
      hide Inv, Content, Quiet, Window, Config.Wrap, Config.Slot, Pow2;
      ghost var was := View();
      var mirror := head;
      head := C().Wrap(mirror + 1);
      if mirror < tail {
        WrapSmall(C(), mirror + 1);
        WindowPop(Unbounded(C()), elements[..], mirror + 1, tail);
        PlainIsInv(Unbounded(C()), was, View(), Window(Unbounded(C()), elements[..], mirror + 1, tail));
        var p := Position(mirror);
        return Some(elements[p]);
      } else {
        head := mirror;
        return None;
      }
    }

    method Size() returns (n: int)
      requires Alone()
      ensures n == |Deque()|
    {
      AloneIsPlain();
      WrapSmall(C(), tail - head);
      n := C().Wrap(tail - head);
    }
  }
}
