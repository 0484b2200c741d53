/** The width of the index words: when the queue with wrapping indices is the queue with
    unbounded ones. */
module WorkQueueWidth {
  import Bits
  import opened WorkQueue
  import opened WorkQueueSafety
  import opened WorkQueueTheorems
  import opened WorkQueueRuns

  ghost function Unbounded(c: Config): Config {
    c.(modulus := 0)
  }

  /** No index is about to wrap. */
  ghost predicate Narrow<E>(c: Config, s: State<E>) {
    && LogicalTail(s) < c.modulus
    && (s.owner.PushWrite? || s.owner.PushStoreTail? ==> s.owner.tail + 1 < c.modulus)
  }

  lemma WrapSmall(c: Config, x: int)
    requires c.modulus == 0 || 0 <= x < c.modulus
    ensures c.Wrap(x) == x
  {
    if c.modulus > 0 {
      Bits.DivideByMultiple(0, c.modulus, x);
    }
  }

  // ---- one step ----

  ghost predicate Words<E>(c: Config, s: State<E>) {
    0 <= s.head < c.modulus && 0 <= s.tail < c.modulus
  }

  /** The three places where a sum can leave the index range: the guard of a push, the
      new tail of a push, and the bump of a thief. */
  ghost predicate StepFits<E>(c: Config, s: State<E>, a: Action<E>) {
    match a
    case OwnerMove => (
      match s.owner
      case PushLoadHead(_, tail) => s.head + c.Mask() < c.modulus || tail >= s.head + c.Mask()
      case PushStoreTail(_, tail) => tail + 1 < c.modulus
      case _ => true)
    case ThiefMove(t, _) => s.At(t).StealBump? ==> s.At(t).head + 1 < c.modulus
    case _ => true
  }

  /** A number at most the modulus wraps to itself unless it is the modulus. */
  lemma WrapEdge(c: Config, x: int)
    requires c.modulus > 0 && 0 <= x <= c.modulus
    ensures c.Wrap(x) == if x < c.modulus then x else 0
  {
    if x < c.modulus {
      WrapSmall(c, x);
    } else {
      Bits.DivideByMultiple(1, c.modulus, 0);
    }
  }

  /** Exactly when a step on wrapping words is the step on unbounded indices. */
  lemma WidthAgreesIff<E>(c: Config, s: State<E>, a: Action<E>)
    requires c.Valid() && c.modulus > 0 && Inv(Unbounded(c), s) && Words(c, s)
    requires Enabled(c, s, a)
    ensures Next(c, s, a) == Next(Unbounded(c), s, a) <==> StepFits(c, s, a)
    ensures Words(c, Next(c, s, a))
  {
    if a.OwnerMove? {
      OwnerAgreesIff(c, s);
    } else if a.ThiefMove? {
      ThiefAgreesIff(c, s, a.t, a.timeout);
    }
  }

  lemma OwnerAgreesIff<E>(c: Config, s: State<E>)
    requires c.Valid() && c.modulus > 0 && Inv(Unbounded(c), s) && Words(c, s)
    requires Enabled(c, s, OwnerMove)
    ensures OwnerStep(c, s) == OwnerStep(Unbounded(c), s) <==> StepFits(c, s, OwnerMove)
    ensures Words(c, OwnerStep(c, s))
  {
    assert s.owner.PullStoreTail? ==> s.owner.tail == s.tail > 0;
    assert s.owner.PushStoreTail? || s.owner.PullRestore? ==> s.owner.tail == s.tail;
    hide LockOk, Content;
    match s.owner
    case PushLoadHead(_, _) => PushGuardAgreesIff(c, s);
    case PushStoreTail(_, tail) => WrapEdge(c, tail + 1);
    case PullStoreTail(tail) => WrapEdge(c, tail - 1);
    case PullRestore(tail) => WrapEdge(c, tail + 1);
    case _ =>
  }

  lemma ThiefAgreesIff<E>(c: Config, s: State<E>, t: ThiefId, timeout: bool)
    requires c.Valid() && c.modulus > 0 && Inv(Unbounded(c), s) && Words(c, s)
    requires Enabled(c, s, ThiefMove(t, timeout))
    ensures ThiefStep(c, s, t, timeout) == ThiefStep(Unbounded(c), s, t, timeout)
       <==> StepFits(c, s, ThiefMove(t, timeout))
    ensures Words(c, ThiefStep(c, s, t, timeout))
  {
    assert InCritical(s.At(t)) ==> s.lock == ByThief(t);
    if s.At(t).StealBump? {
      WrapEdge(c, s.At(t).head + 1);
    }
  }

  /** Beyond the bound the comparison of `unique_push` still agrees exactly if its
      sum does not wrap or the queue is full anyway. */
  lemma PushGuardAgreesIff<E>(c: Config, s: State<E>)
    requires c.Valid() && c.modulus > 0 && Inv(Unbounded(c), s) && s.owner.PushLoadHead?
    requires s.head < c.modulus && s.tail < c.modulus
    ensures OwnerStep(c, s).owner == OwnerStep(Unbounded(c), s).owner <==>
              s.head + c.Mask() < c.modulus || s.tail >= s.head + c.Mask()
  {
    var limit := s.head + c.Mask();
    if limit < c.modulus {
      WrapSmall(c, limit);
    } else {
      Bits.DivideByMultiple(1, c.modulus, limit - c.modulus);
    }
  }

  // ---- runs ----

  ghost predicate AllFit<E>(c: Config, states: seq<State<E>>, acts: seq<Action<E>>, k: nat)
    requires k <= |acts| < |states|
  {
    forall m :: 0 <= m < k ==> StepFits(c, states[m], acts[m])
  }

  lemma RunLonger<E>(c: Config, states: seq<State<E>>, acts: seq<Action<E>>, k: nat)
    requires 0 < k <= |acts| < |states| && IsRun(c, states[..k], acts[..k - 1])
    requires Leads(c, states[k - 1], acts[k - 1], states[k])
    ensures IsRun(c, states[..k + 1], acts[..k])
  {
    var ss, aa := states[..k + 1], acts[..k];
    forall m | 0 <= m < |aa|
      ensures Leads(c, ss[m], aa[m], ss[m + 1])
    {
      if m < k - 1 {
        assert Leads(c, states[..k][m], acts[..k - 1][m], states[..k][m + 1]);
      }
    }
  }

  lemma RunShorter<E>(c: Config, states: seq<State<E>>, acts: seq<Action<E>>, k: nat)
    requires 0 < k <= |acts| < |states| && IsRun(c, states[..k + 1], acts[..k])
    ensures IsRun(c, states[..k], acts[..k - 1]) && Leads(c, states[k - 1], acts[k - 1], states[k])
  {
    var ss, aa := states[..k], acts[..k - 1];
    assert Leads(c, states[..k + 1][k - 1], acts[..k][k - 1], states[..k + 1][k]);
    forall m | 0 <= m < |aa|
      ensures Leads(c, ss[m], aa[m], ss[m + 1])
    {
      assert Leads(c, states[..k + 1][m], acts[..k][m], states[..k + 1][m + 1]);
    }
  }

  /** A run on wrapping words is a run on unbounded indices exactly as long as all of its
      steps fit. */
  lemma {:induction false} WidthRefinesIff<E>(c: Config, states: seq<State<E>>, acts: seq<Action<E>>, k: nat)
    requires c.Valid() && c.modulus > 0 && IsRun(c, states, acts) && k <= |acts|
    ensures IsRun(Unbounded(c), states[..k + 1], acts[..k]) <==> AllFit(c, states, acts, k)
    ensures AllFit(c, states, acts, k) ==> Inv(Unbounded(c), states[k]) && Words(c, states[k])
  {
    if k == 0 {
      InitInv(Unbounded(c), states[0]);
    } else {
      hide Inv, StepFits, Enabled, Next, Init;
      WidthRefinesIff(c, states, acts, k - 1);
      var s, a := states[k - 1], acts[k - 1];
      assert Leads(c, s, a, states[k]);
      assert AllFit(c, states, acts, k) <==> AllFit(c, states, acts, k - 1) && StepFits(c, s, a);
      hide IsRun, AllFit;
      if AllFit(c, states, acts, k - 1) {
        WidthAgreesIff(c, s, a);
        if StepFits(c, s, a) {
          NextInv(Unbounded(c), s, a);
          RunLonger(Unbounded(c), states, acts, k);
        }
      }
      if IsRun(Unbounded(c), states[..k + 1], acts[..k]) {
        RunShorter(Unbounded(c), states, acts, k);
      }
    }
  }

  /** The head stays at most `modulus - capacity` in a step, a thief's bump included. */
  ghost predicate Below<E>(c: Config, s: State<E>, a: Action<E>) {
    Enabled(c, s, a) && s.head <= c.modulus - c.capacity && Next(Unbounded(c), s, a).head <= c.modulus - c.capacity
  }

  /** While the head, including a thief's bump, stays at most `modulus - capacity`,
      a step with wrapping indices is the step with unbounded ones. */
  lemma BoundAgrees<E>(c: Config, s: State<E>, a: Action<E>)
    requires c.Valid() && c.modulus > 0 && Inv(Unbounded(c), s) && Narrow(c, s)
    requires Enabled(c, s, a)
    requires Below(c, s, a)
    ensures StepFits(c, s, a)
    ensures Next(c, s, a) == Next(Unbounded(c), s, a) && Narrow(c, Next(c, s, a))
  {
    WidthAgreesIff(c, s, a);
    if a.OwnerMove? {
      OwnerBoundAgrees(c, s);
    } else if a.ThiefMove? {
      ThiefBoundAgrees(c, s, a.t, a.timeout);
    }
  }

  lemma OwnerBoundAgrees<E>(c: Config, s: State<E>)
    requires c.Valid() && c.modulus > 0 && Inv(Unbounded(c), s) && Narrow(c, s)
    requires Enabled(c, s, OwnerMove) && s.head <= c.modulus - c.capacity
    ensures OwnerStep(c, s) == OwnerStep(Unbounded(c), s)
    ensures Narrow(c, OwnerStep(c, s))
  {
    hide LockOk;
    match s.owner
    case PushLoadHead(_, tail) => WrapSmall(c, s.head + c.Mask());
    case PushStoreTail(_, tail) => WrapSmall(c, tail + 1);
    case PullStoreTail(tail) => WrapSmall(c, tail - 1);
    case PullRestore(tail) => WrapSmall(c, tail + 1);
    case _ =>
  }

  lemma ThiefBoundAgrees<E>(c: Config, s: State<E>, t: ThiefId, timeout: bool)
    requires c.Valid() && c.modulus > 0 && Inv(Unbounded(c), s) && Narrow(c, s)
    requires Enabled(c, s, ThiefMove(t, timeout))
    requires ThiefStep(Unbounded(c), s, t, timeout).head <= c.modulus - c.capacity
    ensures ThiefStep(c, s, t, timeout) == ThiefStep(Unbounded(c), s, t, timeout)
    ensures Narrow(c, ThiefStep(c, s, t, timeout))
  {
    assert InCritical(s.At(t)) ==> s.lock == ByThief(t);
    if s.At(t).StealBump? && s.At(t).head + 1 < c.modulus {
      WrapSmall(c, s.At(t).head + 1);
    }
  }

  /** So under that bound all steps of a run fit: the 32-bit queue is the unbounded one,
      and everything proved about that holds. */
  lemma {:induction false} BoundRefines<E>(c: Config, states: seq<State<E>>, acts: seq<Action<E>>, k: nat)
    requires c.Valid() && c.modulus > 0 && IsRun(c, states, acts) && k <= |acts|
    requires forall m :: 0 <= m < k ==> Below(c, states[m], acts[m])
    ensures AllFit(c, states, acts, k)
    ensures Inv(Unbounded(c), states[k]) && Narrow(c, states[k])
  {
    if k == 0 {
      InitInv(Unbounded(c), states[0]);
    } else {
      BoundRefines(c, states, acts, k - 1);
      assert Leads(c, states[k - 1], acts[k - 1], states[k]);
      BoundAgrees(c, states[k - 1], acts[k - 1]);
      NextInv(Unbounded(c), states[k - 1], acts[k - 1]);
    }
  }
}
