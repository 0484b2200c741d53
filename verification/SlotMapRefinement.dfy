/** Linearisability of the slot map: every timely step is an event of the atomic map. */
module SlotMapRefinement {
  import opened Basics
  import opened PackedIds
  import opened SlotMap
  import opened SlotMapSafety
  import opened SlotMapTheorems
  import opened AtomicMap

  // ---- the abstraction ----

  /** An id that was locked is reported with the element it was issued with. */
  ghost function Removed<V>(issued: map<Word, V>, id: Word, take: bool): Outcome<V, Word> {
    if take && id in issued then Moved(id, issued[id]) else Erased(id)
  }

  ghost function CallOf<V>(issued: map<Word, V>, pc: Pc<V, Word>): Call<V> {
    match pc
    case Idle => NoCall
    case LoadHead(v) => Emplacing(v)
    case LoadNext(v, _) => Emplacing(v)
    case PopCas(v, _, _) => Emplacing(v)
    case MarkLoad(v, _) => Emplacing(v)
    case MarkStore(v, _, _) => Emplacing(v)
    case Construct(v, _) => Emplacing(v)
    case LoadId(v, _) => Emplacing(v)
    case LockCas(id, take) => Removing(id, take)
    case Destroy(_, id, take) => Done(Removed(issued, id, take))
    case LoadLocked(_, o) => Done(o)
    case ReloadHead(_, _, o) => Done(o)
    case StoreLink(_, _, _, o) => Done(o)
    case PushCas(_, _, _, o) => Done(o)
    case Finished(o) => Done(o)
  }

  ghost function Calls<V>(issued: map<Word, V>, threads: map<ThreadId, Pc<V, Word>>): map<ThreadId, Call<V>> {
    map t | t in threads :: CallOf(issued, threads[t])
  }

  ghost function SpecOf<V>(s: State<V>): Spec<V> {
    Spec(LiveMap(s), s.issued.Keys, Calls(s.issued, s.threads))
  }

  /** Where each call takes effect: an emplace when it reads its id, or finds no free
      slot; an erase or a move when it has tried to lock its slot. */
  ghost function EventOf<V>(c: Config, s: State<V>, a: Action<V>): Event<V>
    requires c.Valid()
  {
    match a
    case Emplace(t, v) => Begins(t, Emplacing(v))
    case Erase(t, id, take) => Begins(t, Removing(id, take))
    case Return(t) => Returns(t)
    case Step(t, _) =>
      var pc := s.At(t);
      if pc.LoadHead? && s.head.index == c.Invalid() then Refuse(t)
      else if pc.LoadId? && pc.slot < |s.slots| then Issue(t, s.slots[pc.slot])
      else if pc.LockCas? then (if LocksSlot(c, s, a) then Remove(t) else Miss(t))
      else Silent
  }

  // ---- the calls of the threads ----

  lemma CallsUpdate<V>(issued: map<Word, V>, threads: map<ThreadId, Pc<V, Word>>, t: ThreadId, pc: Pc<V, Word>)
    ensures Calls(issued, threads[t := pc]) == Calls(issued, threads)[t := CallOf(issued, pc)]
  {
  }

  /** Issuing a new id changes what no other call reports. */
  lemma CallsKeep<V>(c: Config, s: State<V>, free: seq<nat>, id: Word, v: V)
    requires InvWith(c, s, free) && id !in s.issued
    ensures Calls(s.issued[id := v], s.threads) == Calls(s.issued, s.threads)
  {
    forall t | t in s.threads
      ensures CallOf(s.issued[id := v], s.threads[t]) == CallOf(s.issued, s.threads[t])
    {
      assert s.threads[t] == s.At(t) && LocalsOk(c, s, s.At(t));
    }
  }

  /** A step of a thread sets its program counter only. */
  lemma OnlyOwnPc<V>(c: Config, s: State<V>, a: Action<V>)
    requires c.Valid() && Enabled(c, s, a)
    ensures Next(c, s, a).threads == s.threads[a.t := Next(c, s, a).At(a.t)]
  {
  }

  lemma KeepsIssued<V>(c: Config, s: State<V>, a: Action<V>)
    requires c.Valid() && Enabled(c, s, a) && !(a.Step? && s.At(a.t).LoadId?)
    ensures Next(c, s, a).issued == s.issued
  {
  }

  /** A step that is no effect leaves the call of its thread as it is. */
  lemma QuietCall<V>(c: Config, s: State<V>, free: seq<nat>, a: Action<V>)
    requires InvWith(c, s, free) && Enabled(c, s, a) && EventOf(c, s, a).Silent?
    ensures a.Step? && a.t in s.threads && !s.At(a.t).LoadId?
    ensures CallOf(s.issued, Next(c, s, a).At(a.t)) == CallOf(s.issued, s.At(a.t))
  {
    assert LocalsOk(c, s, s.At(a.t));
    hide InvWith;
  }

  lemma SilentStep<V>(c: Config, s: State<V>, a: Action<V>)
    requires Inv(c, s) && Enabled(c, s, a) && Timely(c, s, a) && EventOf(c, s, a).Silent?
    ensures SpecOf(Next(c, s, a)) == SpecOf(s)
  {
    var free :| InvWith(c, s, free);
    QuietCall(c, s, free, a);
    OnlyOwnPc(c, s, a);
    KeepsIssued(c, s, a);
    RefinesMap(c, s, a);
    CallsUpdate(s.issued, s.threads, a.t, Next(c, s, a).At(a.t));
    assert !Issues(s, a) && !LocksSlot(c, s, a);
    hide Next, Enabled, InvWith, Timely, LiveMap, CallOf;
    assert Calls(s.issued, s.threads)[a.t := CallOf(s.issued, s.At(a.t))] == Calls(s.issued, s.threads);
  }

  // ---- a full map ----

  lemma {:induction false} InjectionSize<A(!new), B>(m: map<A, B>, target: set<B>)
    requires forall a :: a in m ==> m[a] in target
    requires forall a, b :: a in m && b in m && m[a] == m[b] ==> a == b
    ensures |m| <= |target|
    decreases |m|
  {
    if m != map[] {
      var a :| a in m;
      var rest := m - {a};
      assert rest.Keys == m.Keys - {a};
      assert |rest| == |rest.Keys| && |m| == |m.Keys|;
      InjectionSize(rest, target - {m[a]});
    }
  }

  ghost function LiveSlots<V>(c: Config, s: State<V>): set<nat>
    requires |s.slots| == |s.payload| == c.capacity
  {
    set i: nat | i < c.capacity && Live(s, i)
  }

  ghost predicate IsHeld<V>(s: State<V>, i: nat) {
    exists u :: Holds(s, u, i)
  }

  ghost function HeldSlots<V>(c: Config, s: State<V>): set<nat> {
    set i: nat | i < c.capacity && IsHeld(s, i)
  }

  lemma LiveSize<V>(c: Config, s: State<V>)
    requires |s.slots| == |s.payload| == c.capacity
    ensures |LiveSlots(c, s)| <= |LiveMap(s)|
  {
    var m := map i | i in LiveSlots(c, s) :: s.slots[i];
    assert m.Keys == LiveSlots(c, s);
    InjectionSize(m, LiveMap(s).Keys);
    assert |m| == |m.Keys| && |LiveMap(s)| == |LiveMap(s).Keys|;
  }

  ghost function HolderOf<V>(s: State<V>, i: nat): ThreadId
    requires IsHeld(s, i)
  {
    var u :| Holds(s, u, i);
    u
  }

  /** Whoever holds a slot is in a call that says so. */
  lemma HoldersAreHolding<V>(c: Config, s: State<V>, free: seq<nat>, u: ThreadId, i: nat)
    requires InvWith(c, s, free) && Holds(s, u, i)
    ensures u in s.threads && Holding(CallOf(s.issued, s.threads[u]))
  {
    assert LocalsOk(c, s, s.At(u));
  }

  lemma HeldSize<V>(c: Config, s: State<V>, free: seq<nat>, t: ThreadId)
    requires InvWith(c, s, free) && Held(s.At(t)).None?
    ensures |HeldSlots(c, s)| <= |Others(SpecOf(s), t)|
  {
    var m := map i | i in HeldSlots(c, s) :: HolderOf(s, i);
    assert m.Keys == HeldSlots(c, s);
    forall i | i in m
      ensures m[i] in Others(SpecOf(s), t)
    {
      HoldersAreHolding(c, s, free, m[i], i);
      assert m[i] != t;
    }
    InjectionSize(m, Others(SpecOf(s), t));
    assert |m| == |m.Keys|;
  }

  ghost function Below(n: nat): (all: set<nat>)
    ensures |all| == n
    ensures forall i :: i in all <==> 0 <= i < n
  {
    if n == 0 then {} else Below(n - 1) + {n - 1}
  }

  /** `emplace` reports a full map exactly when the free list is empty, and then every
      slot holds an element or is in the hands of another call. */
  lemma FullIff<V>(c: Config, s: State<V>, free: seq<nat>, t: ThreadId)
    requires InvWith(c, s, free) && s.At(t).LoadHead?
    ensures DoLoadHead(c, s, t).At(t) == Finished(Full) <==> free == []
    ensures free == [] ==> c.capacity <= |LiveMap(s)| + |Others(SpecOf(s), t)|
  {
    if free == [] {
      LiveSize(c, s);
      HeldSize(c, s, free, t);
      forall i: nat | i < c.capacity
        ensures i in LiveSlots(c, s) + HeldSlots(c, s)
      {
        assert Unclaimed(s, free, i) ==> Live(s, i);
      }
      SmallCover(Below(c.capacity), LiveSlots(c, s), HeldSlots(c, s));
    }
  }

  lemma SmallCover(all: set<nat>, a: set<nat>, b: set<nat>)
    requires all <= a + b
    ensures |all| <= |a| + |b|
  {
    SubsetSize(all, a + b);
    assert a + b == a + (b - a);
    SubsetSize(b - a, b);
  }

  // ---- the effects ----

  lemma IssueStep<V>(c: Config, s: State<V>, a: Action<V>)
    requires Inv(c, s) && Enabled(c, s, a) && Timely(c, s, a) && EventOf(c, s, a).Issue?
    ensures Allowed(c.capacity, SpecOf(s), EventOf(c, s, a), SpecOf(Next(c, s, a)))
  {
    assert c.Valid();
    hide Inv, Next, Enabled, Timely, LiveMap, Calls, Allowed;
    var id, v, s' := s.slots[s.At(a.t).slot], s.At(a.t).value, Next(c, s, a);
    assert Issues(s, a) && EventOf(c, s, a) == Issue(a.t, id);
    hide EventOf, LocksSlot;
    RefinesMap(c, s, a);
    IssueCalls(c, s, a);
    hide Issues;
    assert s'.issued.Keys == s.issued.Keys + {id};
    IssueAllowed(c.capacity, SpecOf(s), SpecOf(s'), a.t, id, v);
  }

  lemma IssueAllowed<V>(capacity: nat, s: Spec<V>, s': Spec<V>, t: ThreadId, id: Word, v: V)
    requires s.CallAt(t) == Emplacing(v) && id !in s.issued
    requires s' == Spec(s.live[id := v], s.issued + {id}, s.calls[t := Done(Emplaced(id))])
    ensures Allowed(capacity, s, Issue(t, id), s')
  {
  }

  lemma IssueCalls<V>(c: Config, s: State<V>, a: Action<V>)
    requires Inv(c, s) && Enabled(c, s, a) && Issues(s, a) && s.slots[s.At(a.t).slot] !in s.issued
    ensures var id, v, s' := s.slots[s.At(a.t).slot], s.At(a.t).value, Next(c, s, a);
      && s'.issued == s.issued[id := v]
      && SpecOf(s).CallAt(a.t) == Emplacing(v)
      && Calls(s'.issued, s'.threads) == SpecOf(s).calls[a.t := Done(Emplaced(id))]
  {
    var free :| InvWith(c, s, free);
    var id, v := s.slots[s.At(a.t).slot], s.At(a.t).value;
    CallsKeep(c, s, free, id, v);
    hide InvWith;
    assert Next(c, s, a) == DoLoadId(c, s, a.t);
    hide Next, Enabled;
    CallsUpdate(s.issued[id := v], s.threads, a.t, Finished(Emplaced(id)));
  }

  lemma RefuseStep<V>(c: Config, s: State<V>, a: Action<V>)
    requires Inv(c, s) && Enabled(c, s, a) && Timely(c, s, a) && EventOf(c, s, a).Refuse?
    ensures Allowed(c.capacity, SpecOf(s), EventOf(c, s, a), SpecOf(Next(c, s, a)))
  {
    RefinesMap(c, s, a);
    var free :| InvWith(c, s, free);
    FullIff(c, s, free, a.t);
    CallsUpdate(s.issued, s.threads, a.t, Finished(Full));
    assert Next(c, s, a).issued == s.issued && Next(c, s, a).threads == s.threads[a.t := Finished(Full)];
    assert !Issues(s, a) && !LocksSlot(c, s, a) && SpecOf(s).CallAt(a.t).Emplacing?;
    hide Next, Enabled, InvWith, Timely, LiveMap, Calls, Issues, LocksSlot;
  }

  /** What a thread at the lock does next, seen from the calls. */
  lemma LockCalls<V>(c: Config, s: State<V>, a: Action<V>)
    requires Inv(c, s) && Enabled(c, s, a) && Timely(c, s, a) && a.Step? && s.At(a.t).LockCas?
    ensures var pc, s' := s.At(a.t), Next(c, s, a);
      && !Issues(s, a) && s'.issued == s.issued
      && SpecOf(s).CallAt(a.t) == Removing(pc.id, pc.take)
      && Calls(s'.issued, s'.threads) == SpecOf(s).calls[a.t := CallOf(s.issued, s'.At(a.t))]
      && s'.At(a.t) == (if LocksSlot(c, s, a) then Destroy(pc.id.index, pc.id, pc.take) else Finished(Missed))
      && (LocksSlot(c, s, a) <==> pc.id in LiveMap(s))
  {
    var free :| InvWith(c, s, free);
    var t, pc, pc' := a.t, s.At(a.t), Next(c, s, a).At(a.t);
    LockFindsLive(c, s, free, t);
    CallsUpdate(s.issued, s.threads, t, pc');
    assert Next(c, s, a).threads == s.threads[t := pc'];
    hide InvWith, Calls;
  }

  lemma LockStep<V>(c: Config, s: State<V>, a: Action<V>)
    requires Inv(c, s) && Enabled(c, s, a) && Timely(c, s, a) && (EventOf(c, s, a).Remove? || EventOf(c, s, a).Miss?)
    ensures Allowed(c.capacity, SpecOf(s), EventOf(c, s, a), SpecOf(Next(c, s, a)))
  {
    hide Inv, Next, Enabled, Timely;
    assert a.Step? && s.At(a.t).LockCas?;
    RefinesMap(c, s, a);
    LockCalls(c, s, a);
    assert s.At(a.t).id in LiveMap(s) ==> LiveMap(s)[s.At(a.t).id] == s.issued[s.At(a.t).id];
    hide LiveMap, Calls, Issues, LocksSlot;
  }

  lemma BoundaryStep<V>(c: Config, s: State<V>, a: Action<V>)
    requires Inv(c, s) && Enabled(c, s, a) && !a.Step?
    ensures Allowed(c.capacity, SpecOf(s), EventOf(c, s, a), SpecOf(Next(c, s, a)))
  {
    RefinesMap(c, s, a);
    CallsUpdate(s.issued, s.threads, a.t, Next(c, s, a).At(a.t));
    assert !Issues(s, a) && !LocksSlot(c, s, a);
    hide LiveMap, Calls, Issues, LocksSlot;
  }

  /** Every timely step is an event of the atomic map. */
  lemma Refines<V>(c: Config, s: State<V>, a: Action<V>)
    requires Inv(c, s) && Enabled(c, s, a) && Timely(c, s, a)
    ensures Allowed(c.capacity, SpecOf(s), EventOf(c, s, a), SpecOf(Next(c, s, a)))
  {
    assert c.Valid();
    hide Inv, Timely, SpecOf, Next, Enabled, LocksSlot;
    if !a.Step? {
      BoundaryStep(c, s, a);
    } else {
      match EventOf(c, s, a)
      case Silent => SilentStep(c, s, a);
      case Issue(_, _) => IssueStep(c, s, a);
      case Refuse(_) => RefuseStep(c, s, a);
      case Remove(_) => LockStep(c, s, a);
      case Miss(_) => LockStep(c, s, a);
    }
  }

  /** Every interleaving of any number of timely calls is a history of the atomic map
      that starts empty. */
  lemma RunRefines<V>(c: Config, states: seq<State<V>>, acts: seq<Action<V>>, k: nat)
    requires IsRun(c, states, acts) && Init(c, states[0]) && TimelyRun(c, states, acts) && k < |acts|
    ensures SpecOf(states[0]) == Spec(map[], {}, map[])
    ensures Allowed(c.capacity, SpecOf(states[k]), EventOf(c, states[k], acts[k]), SpecOf(states[k + 1]))
  {
    RunLeads(c, states, acts, k);
    assert LiveMap(states[0]) == map[];
    Refines(c, states[k], acts[k]);
  }
}
