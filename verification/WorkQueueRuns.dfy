/** Results about whole runs of the work-stealing queue, about its ring and about the
    race for the last element. */
module WorkQueueRuns {
  import opened Basics
  import Bits
  import opened WorkQueue
  import opened WorkQueueSafety
  import opened AtomicDeque
  import opened WorkQueueTheorems

  // ---- runs ----

  ghost predicate IsRun<E>(c: Config, states: seq<State<E>>, acts: seq<Action<E>>) {
    && |states| == |acts| + 1
    && Init(c, states[0])
    && forall k :: 0 <= k < |acts| ==> Leads(c, states[k], acts[k], states[k + 1])
  }

  ghost predicate Leads<E>(c: Config, s: State<E>, a: Action<E>, s': State<E>) {
    Enabled(c, s, a) && s' == Next(c, s, a)
  }

  lemma {:induction false} RunInv<E>(c: Config, states: seq<State<E>>, acts: seq<Action<E>>, k: nat)
    requires c.modulus == 0 && IsRun(c, states, acts) && k <= |acts|
    ensures Inv(c, states[k])
  {
    if k == 0 {
      InitInv(c, states[0]);
    } else {
      RunInv(c, states, acts, k - 1);
      hide Inv;
      assert Leads(c, states[k - 1], acts[k - 1], states[k]);
      NextInv(c, states[k - 1], acts[k - 1]);
    }
  }

  /** Every run of the queue is, step for step, a run of the atomic deque. */
  lemma RunRefines<E>(c: Config, states: seq<State<E>>, acts: seq<Action<E>>)
    requires c.modulus == 0 && IsRun(c, states, acts)
    ensures forall k :: 0 <= k <= |acts| ==> Inv(c, states[k])
    ensures SpecOf(c, states[0]) == Spec([], NoCall, map[])
    ensures forall k :: 0 <= k < |acts| ==>
              Leads(c, states[k], acts[k], states[k + 1])
              && Allowed(c.capacity, SpecOf(c, states[k]), EventOf(c, states[k], acts[k]), SpecOf(c, states[k + 1]))
  {
    forall k | 0 <= k <= |acts|
      ensures Inv(c, states[k])
    {
      RunInv(c, states, acts, k);
    }
    forall k | 0 <= k < |acts|
      ensures Leads(c, states[k], acts[k], states[k + 1])
      ensures Allowed(c.capacity, SpecOf(c, states[k]), EventOf(c, states[k], acts[k]), SpecOf(c, states[k + 1]))
    {
      assert Leads(c, states[k], acts[k], states[k + 1]);
      Refines(c, states[k], acts[k]);
    }
  }

  ghost function Entering<E>(e: Event<E>): multiset<E> {
    match e
    case Append(v) => multiset{v}
    case _ => multiset{}
  }

  ghost function Leaving<E>(e: Event<E>): multiset<E> {
    match e
    case TakeBack(v) => multiset{v}
    case TakeFront(_, v) => multiset{v}
    case _ => multiset{}
  }

  /** All elements pushed in the first k steps. */
  ghost function Produced<E>(c: Config, states: seq<State<E>>, acts: seq<Action<E>>, k: nat): multiset<E>
    requires IsRun(c, states, acts) && k <= |acts|
  {
    if k == 0 then multiset{}
    else
      assert Leads(c, states[k - 1], acts[k - 1], states[k]);
      Produced(c, states, acts, k - 1) + Entering(EventOf(c, states[k - 1], acts[k - 1]))
  }

  /** All elements pulled or stolen in the first k steps. */
  ghost function Consumed<E>(c: Config, states: seq<State<E>>, acts: seq<Action<E>>, k: nat): multiset<E>
    requires IsRun(c, states, acts) && k <= |acts|
  {
    if k == 0 then multiset{}
    else
      assert Leads(c, states[k - 1], acts[k - 1], states[k]);
      Consumed(c, states, acts, k - 1) + Leaving(EventOf(c, states[k - 1], acts[k - 1]))
  }

  /** Nothing is lost and nothing is handed out twice: what was pushed is what was
      taken out and what is still inside. */
  lemma {:induction false} Conservation<E>(c: Config, states: seq<State<E>>, acts: seq<Action<E>>, k: nat)
    requires c.modulus == 0 && IsRun(c, states, acts) && k <= |acts|
    ensures Inv(c, states[k])
    ensures Produced(c, states, acts, k) == Consumed(c, states, acts, k) + multiset(Content(c, states[k]))
  {
    hide Inv, Content, EventOf, Entering, Leaving;
    if k == 0 {
      InitInv(c, states[0]);
    } else {
      Conservation(c, states, acts, k - 1);
      assert Leads(c, states[k - 1], acts[k - 1], states[k]);
      StepBalance(c, states[k - 1], acts[k - 1], states[k],
                  Produced(c, states, acts, k - 1), Consumed(c, states, acts, k - 1));
    }
  }

  lemma StepBalance<E>(c: Config, s: State<E>, a: Action<E>, s': State<E>, pushed: multiset<E>, taken: multiset<E>)
    requires Inv(c, s) && c.modulus == 0 && Leads(c, s, a, s')
    requires pushed == taken + multiset(Content(c, s))
    ensures Inv(c, s')
    ensures pushed + Entering(EventOf(c, s, a)) == taken + Leaving(EventOf(c, s, a)) + multiset(Content(c, s'))
  {
    NextInv(c, s, a);
    Refines(c, s, a);
    EventBalance(c.capacity, SpecOf(c, s), EventOf(c, s, a), SpecOf(c, s'));
    hide EventOf, Entering, Leaving, Content, Next;
    AddUp(pushed, taken, Entering(EventOf(c, s, a)), Leaving(EventOf(c, s, a)),
          multiset(Content(c, s)), multiset(Content(c, s')));
  }

  lemma AddUp<E>(pushed: multiset<E>, taken: multiset<E>, e: multiset<E>, l: multiset<E>, m: multiset<E>, m': multiset<E>)
    requires pushed == taken + m && m + e == l + m'
    ensures pushed + e == taken + l + m'
  {
    forall x | x in pushed + e || x in taken + l + m'
      ensures (pushed + e)[x] == (taken + l + m')[x]
    {
      assert (m + e)[x] == (l + m')[x];
    }
  }

  lemma EventBalance<E>(capacity: nat, a: Spec<E>, e: Event<E>, a': Spec<E>)
    requires Allowed(capacity, a, e, a')
    ensures multiset(a.deque) + Entering(e) == Leaving(e) + multiset(a'.deque)
  {
  }

  // ---- ring safety ----

  /** A push writes a slot that no element of the deque and no element that a thief
      has claimed but not yet copied lives in, although it may have compared the tail
      with a head that was given back in between. */
  lemma RingSafety<E>(c: Config, s: State<E>, index: int)
    requires Inv(c, s) && c.modulus == 0 && s.owner.PushWrite?
    requires Needed(s) <= index < LogicalTail(s)
    ensures c.Slot(index) != c.Slot(s.owner.tail)
    ensures Cell(c, OwnerStep(c, s).ring, index) == Cell(c, s.ring, index)
    ensures Needed(s) <= LogicalHead(s)
    ensures forall t :: s.At(t).StealRead? ==> Needed(s) == s.At(t).head
  {
    SlotsDiffer(c, index, s.owner.tail);
    forall t | s.At(t).StealRead?
      ensures Needed(s) == s.At(t).head
    {
      assert InCritical(s.At(t));
    }
  }

  /** The oldest needed index never moves back, even when the head does. */
  lemma NeededGrows<E>(c: Config, s: State<E>, a: Action<E>)
    requires Inv(c, s) && c.modulus == 0 && Enabled(c, s, a)
    ensures Needed(s) <= Needed(Next(c, s, a)) <= Needed(s) + 1
    ensures LogicalTail(Next(c, s, a)) - Needed(Next(c, s, a)) <= c.capacity
  {
    NextInv(c, s, a);
    if a.ThiefMove? {
      assert InCritical(s.At(a.t)) ==> s.lock == ByThief(a.t);
      assert InCritical(Next(c, s, a).At(a.t)) ==> Next(c, s, a).lock == ByThief(a.t);
    }
  }

  // ---- the race for the last element ----

  /** When a pull gives up at once: the deque is empty, or it has one element and a
      thief is holding the head up. */
  lemma PullGivesUpIff<E>(c: Config, s: State<E>)
    requires Inv(c, s) && c.modulus == 0 && s.owner.PullLoadHead?
    ensures OwnerStep(c, s).owner == PullDone(None) <==>
              Content(c, s) == [] || (|Content(c, s)| == 1 && Bumped(s))
  {
  }

  /** A pull that gives up under the lock found the deque empty. */
  lemma LockedPullFailsOnEmpty<E>(c: Config, s: State<E>)
    requires Inv(c, s) && c.modulus == 0 && s.owner.PullRecheck?
    ensures OwnerStep(c, s).owner.PullRestore? <==> Content(c, s) == []
  {
  }

  /** The owner is in the middle of a pull that nobody can stop from taking x, the
      only element. */
  ghost predicate OwnerHasLast<E>(c: Config, s: State<E>, x: E)
    requires Inv(c, s)
  {
    && (s.owner.PullCheckHead? || s.owner.PullLock? || s.owner.PullRecheck?)
    && Content(c, s) == [x]
  }

  ghost predicate OwnerTook<E>(c: Config, s: State<E>, x: E)
    requires |s.ring| == c.capacity > 0
  {
    match s.owner
    case PullRead(tail, _) => Cell(c, s.ring, tail) == x
    case PullUnlock(r) => r == Some(x)
    case PullDone(r) => r == Some(x)
    case _ => false
  }

  /** A thief with the lock fails on a non-empty deque only because the owner is in
      the middle of pulling its last element. */
  lemma ThiefLosesToOwner<E>(c: Config, s: State<E>, t: ThiefId)
    requires Inv(c, s) && c.modulus == 0 && s.At(t).StealCheckTail?
    requires ThiefStep(c, s, t, false).At(t).StealRestore?
    ensures Content(c, s) == [] || exists x :: OwnerHasLast(c, s, x)
  {
    assert InCritical(s.At(t));
    if Content(c, s) != [] {
      assert Content(c, s) == [Content(c, s)[0]];
      assert OwnerHasLast(c, s, Content(c, s)[0]);
    }
  }

  /** From then on every step of anyone keeps the element for the owner, or is the
      owner taking it. */
  lemma OwnerKeepsLast<E>(c: Config, s: State<E>, a: Action<E>, x: E)
    requires Inv(c, s) && c.modulus == 0 && Enabled(c, s, a) && OwnerHasLast(c, s, x)
    ensures Inv(c, Next(c, s, a))
    ensures OwnerHasLast(c, Next(c, s, a), x) || (a == OwnerMove && OwnerTook(c, Next(c, s, a), x))
  {
    Refines(c, s, a);
    assert s.tail == LogicalHead(s);
    assert Content(c, s)[0] == Cell(c, s.ring, s.tail);
    if a.ThiefMove? && s.At(a.t).StealCheckTail? {
      assert InCritical(s.At(a.t));
    }
  }

  /** And once taken, the owner's call returns it. */
  lemma OwnerReturnsIt<E>(c: Config, s: State<E>, a: Action<E>, x: E)
    requires Inv(c, s) && c.modulus == 0 && Enabled(c, s, a) && OwnerTook(c, s, x) && a != OwnerReturn
    ensures OwnerTook(c, Next(c, s, a), x)
  {
  }

  lemma {:induction false} LastElementRace<E>(
    c: Config, states: seq<State<E>>, acts: seq<Action<E>>, j: nat, k: nat, x: E)
    requires c.modulus == 0 && IsRun(c, states, acts) && j <= k <= |acts|
    requires Inv(c, states[j]) && OwnerHasLast(c, states[j], x)
    requires forall m :: j <= m < k ==> acts[m] != OwnerReturn
    ensures Inv(c, states[k]) && (OwnerHasLast(c, states[k], x) || OwnerTook(c, states[k], x))
    ensures states[k].owner.PullDone? ==> states[k].owner.result == Some(x)
    decreases k
  {
    if j < k {
      LastElementRace(c, states, acts, j, k - 1, x);
      assert Leads(c, states[k - 1], acts[k - 1], states[k]);
      NextInv(c, states[k - 1], acts[k - 1]);
      if OwnerHasLast(c, states[k - 1], x) {
        OwnerKeepsLast(c, states[k - 1], acts[k - 1], x);
      } else {
        OwnerReturnsIt(c, states[k - 1], acts[k - 1], x);
      }
    }
  }

  // ---- no operation in flight ----

  ghost predicate Quiet<E>(s: State<E>) {
    s.owner.OwnerIdle? && forall t :: !InCritical(s.At(t))
  }

  /** With no operation in flight `size` is the length of the deque. */
  lemma QuietSize<E>(c: Config, s: State<E>)
    requires Inv(c, s) && Quiet(s)
    ensures Size(c, s) == |Content(c, s)|
  {
    assert s.lock.ByThief? ==> InCritical(s.At(s.lock.t));
    if c.modulus > 0 {
      Bits.SmallModulo(s.tail - s.head, c.modulus);
    }
  }

  /** A pull that runs alone takes the last element, and fails only on an empty deque. */
  lemma PullAlone<E>(c: Config, s: State<E>)
    requires Inv(c, s) && c.modulus == 0 && Quiet(s)
    ensures var s2 := OwnerStep(c, OwnerStep(c, s.OwnerTo(PullLoadTail)));
            if Content(c, s) == [] then s2.owner == PullDone(None)
            else
              var s5 := OwnerStep(c, OwnerStep(c, OwnerStep(c, s2)));
              var d := Content(c, s);
              && s5.owner == PullDone(Some(d[|d| - 1]))
              && Inv(c, s5) && Content(c, s5) == d[..|d| - 1]
  {
    assert s.lock.ByThief? ==> InCritical(s.At(s.lock.t));
    if Content(c, s) != [] {
      WindowPop(c, s.ring, s.head, s.tail - 1);
    }
  }
}
