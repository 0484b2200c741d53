/** The main results about the lock-free slot map, over whole runs. */
module SlotMapTheorems {
  import opened Basics
  import opened PackedIds
  import opened SlotMap
  import opened SlotMapSafety

  // ---- runs ----

  ghost predicate IsRun<V>(c: Config, states: seq<State<V>>, acts: seq<Action<V>>) {
    && c.Valid()
    && |states| == |acts| + 1
    && forall k :: 0 <= k < |acts| ==> Leads(c, states[k], acts[k], states[k + 1])
  }

  ghost predicate Leads<V>(c: Config, s: State<V>, a: Action<V>, s': State<V>)
    requires c.Valid()
  {
    Enabled(c, s, a) && s' == Next(c, s, a)
  }

  ghost predicate TimelyRun<V>(c: Config, states: seq<State<V>>, acts: seq<Action<V>>)
    requires |states| == |acts| + 1
  {
    forall k :: 0 <= k < |acts| ==> Timely(c, states[k], acts[k])
  }

  /** Safety of every interleaving, for any number of threads. */
  lemma {:induction false} RunInv<V>(c: Config, states: seq<State<V>>, acts: seq<Action<V>>, k: nat)
    requires IsRun(c, states, acts) && Init(c, states[0]) && TimelyRun(c, states, acts)
    requires k <= |acts|
    ensures Inv(c, states[k])
  {
    if k == 0 {
      InitIsInv(c, states[0]);
    } else {
      hide Inv, Init, Timely;
      RunInv(c, states, acts, k - 1);
      assert Leads(c, states[k - 1], acts[k - 1], states[k]);
      hide Next, Enabled;
      NextInv(c, states[k - 1], acts[k - 1]);
    }
  }

  /** One step of a run, with what is known before it. */
  lemma RunLeads<V>(c: Config, states: seq<State<V>>, acts: seq<Action<V>>, k: nat)
    requires IsRun(c, states, acts) && Init(c, states[0]) && TimelyRun(c, states, acts) && k < |acts|
    ensures |states| == |acts| + 1 && c.Valid()
    ensures Inv(c, states[k]) && Leads(c, states[k], acts[k], states[k + 1]) && Timely(c, states[k], acts[k])
  {
    RunInv(c, states, acts, k);
  }

  // ---- the four classes of slots ----

  ghost predicate Acquiring<V, W>(pc: Pc<V, W>) {
    pc.MarkLoad? || pc.MarkStore? || pc.Construct? || pc.LoadId?
  }

  ghost predicate Popped<V>(s: State<V>, i: nat) {
    exists t :: Holds(s, t, i) && Acquiring(s.At(t))
  }

  ghost predicate Locked<V>(s: State<V>, i: nat) {
    exists t :: Holds(s, t, i) && !Acquiring(s.At(t))
  }

  /** Every slot is in the free list, popped and not yet returned, locked and not
      yet re-linked, or live, and in one of these only. */
  lemma Partition<V>(c: Config, s: State<V>, free: seq<nat>, i: nat)
    requires InvWith(c, s, free) && i < c.capacity
    ensures i in free || Popped(s, i) || Locked(s, i) || Live(s, i)
    ensures i in free ==> !Popped(s, i) && !Locked(s, i) && !Live(s, i)
    ensures Popped(s, i) ==> !Locked(s, i) && !Live(s, i)
    ensures Locked(s, i) ==> !Live(s, i)
  {
    if Live(s, i) {
      assert Unclaimed(s, free, i);
    }
    if Unclaimed(s, free, i) {
      assert Live(s, i);
    } else if i !in free {
      var t :| Holds(s, t, i);
      assert Acquiring(s.At(t)) || !Acquiring(s.At(t));
    }
  }

  lemma Prefix(q: seq<nat>, k: nat)
    requires 0 < k <= |q|
    ensures q[..k] == q[..k - 1] + [q[k - 1]]
  {
  }

  /** The chain that starts at the head is the only free list. */
  lemma {:induction false} FreeListUnique<V>(c: Config, s: State<V>, free: seq<nat>, free': seq<nat>, k: nat)
    requires |s.slots| == |s.payload| == c.capacity
    requires FreeList(c, s, free) && FreeList(c, s, free')
    requires k <= |free| && k <= |free'|
    ensures free[..k] == free'[..k]
    ensures Following(c.Invalid(), free, k) == Following(c.Invalid(), free', k)
  {
    if k > 0 {
      FreeListUnique(c, s, free, free', k - 1);
      assert free[k - 1] == Following(c.Invalid(), free, k - 1) == free'[k - 1];
      Prefix(free, k);
      Prefix(free', k);
      hide Distinct, FreeList;
    }
  }

  lemma FreeListFunctional<V>(c: Config, s: State<V>, free: seq<nat>, free': seq<nat>)
    requires InvWith(c, s, free) && InvWith(c, s, free')
    ensures free == free'
  {
    var k := if |free| <= |free'| then |free| else |free'|;
    FreeListUnique(c, s, free, free', k);
    assert free == free[..k] && free' == free'[..k];
  }

  // ---- the map the clients see ----

  /** The ids that are valid now, with their elements. */
  ghost function LiveMap<V>(s: State<V>): map<Word, V> {
    map id | id in s.issued && id.index < |s.slots| && s.slots[id.index] == id :: s.issued[id]
  }

  ghost predicate LocksSlot<V>(c: Config, s: State<V>, a: Action<V>)
    requires c.Valid()
  {
    && a.Step? && s.At(a.t).LockCas? && s.At(a.t).id.index < |s.slots|
    && SameWord(c, s.slots[s.At(a.t).id.index], s.At(a.t).id)
  }

  ghost predicate Issues<V>(s: State<V>, a: Action<V>) {
    a.Step? && s.At(a.t).LoadId? && s.At(a.t).slot < |s.slots|
  }

  /** Each step changes the map in one of three ways: it adds one fresh id with the
      element passed to `emplace`, removes one id, or leaves the map alone. */
  lemma RefinesMap<V>(c: Config, s: State<V>, a: Action<V>)
    requires Inv(c, s) && Enabled(c, s, a) && Timely(c, s, a)
    ensures Issues(s, a) ==>
              var id := s.slots[s.At(a.t).slot];
              && id !in s.issued && id.index == s.At(a.t).slot
              && LiveMap(Next(c, s, a)) == LiveMap(s)[id := s.At(a.t).value]
    ensures LocksSlot(c, s, a) ==>
              var id := s.At(a.t).id;
              && id in LiveMap(s) && LiveMap(Next(c, s, a)) == LiveMap(s) - {id}
    ensures !Issues(s, a) && !LocksSlot(c, s, a) ==> LiveMap(Next(c, s, a)) == LiveMap(s)
  {
    var free :| InvWith(c, s, free);
    if Issues(s, a) {
      IssueAdds(c, s, free, a.t);
    } else if LocksSlot(c, s, a) {
      LockRemoves(c, s, free, a.t);
    } else {
      OtherStepsKeepMap(c, s, free, a);
    }
  }

  lemma IssueAdds<V>(c: Config, s: State<V>, free: seq<nat>, t: ThreadId)
    requires InvWith(c, s, free) && s.At(t).LoadId? && s.At(t).slot < |s.slots|
    ensures var id := s.slots[s.At(t).slot];
            && id !in s.issued && id.index == s.At(t).slot
            && LiveMap(DoLoadId(c, s, t)) == LiveMap(s)[id := s.At(t).value]
  {
    LoadIdInv(c, s, free, t);
    assert LocalsOk(c, s, s.At(t));
  }

  lemma LockRemoves<V>(c: Config, s: State<V>, free: seq<nat>, t: ThreadId)
    requires InvWith(c, s, free) && LocksSlot(c, s, Step(t, false)) && Timely(c, s, Step(t, false))
    ensures var id := s.At(t).id;
            && id in LiveMap(s) && LiveMap(DoLockCas(c, s, t)) == LiveMap(s) - {id}
  {
    LockFindsLive(c, s, free, t);
  }

  lemma OtherStepsKeepMap<V>(c: Config, s: State<V>, free: seq<nat>, a: Action<V>)
    requires InvWith(c, s, free) && Enabled(c, s, a) && !Issues(s, a) && !LocksSlot(c, s, a)
    ensures LiveMap(Next(c, s, a)) == LiveMap(s)
  {
    if a.Step? && (s.At(a.t).MarkStore? || s.At(a.t).StoreLink?) {
      HeldStoreKeepsMap(c, s, free, a.t, Next(c, s, a));
    } else {
      KeepsWords(c, s, a);
      hide InvWith, Next, Enabled;
    }
  }

  lemma KeepsWords<V>(c: Config, s: State<V>, a: Action<V>)
    requires c.Valid() && Enabled(c, s, a) && !Issues(s, a) && !LocksSlot(c, s, a)
    requires |s.slots| == c.capacity && !(a.Step? && (s.At(a.t).MarkStore? || s.At(a.t).StoreLink?))
    ensures Next(c, s, a).slots == s.slots && Next(c, s, a).issued == s.issued
  {
  }

  lemma HeldStoreKeepsMap<V>(c: Config, s: State<V>, free: seq<nat>, t: ThreadId, s': State<V>)
    requires InvWith(c, s, free) && (s.At(t).MarkStore? || s.At(t).StoreLink?) && s.At(t).slot < |s.slots|
    requires s' == if s.At(t).MarkStore? then DoMarkStore(c, s, t) else DoStoreLink(c, s, t)
    ensures LiveMap(s') == LiveMap(s)
  {
    assert LocalsOk(c, s, s.At(t));
    var i := s.At(t).slot;
    assert Holds(s, t, i);
    assert !Unclaimed(s, free, i);
    assert s'.slots == s.slots[i := s'.slots[i]] && s'.slots[i].tag == s.slots[i].tag && s'.issued == s.issued;
    forall id | id in s.issued && id.index == i
      ensures s.slots[i] != id && s'.slots[i] != id
    {
    }
  }

  /** `erase` and `move_from` report what the lock found, and `move_from` hands out
      the very element that `emplace` put in. */
  lemma TakesOwnElement<V>(c: Config, s: State<V>, t: ThreadId)
    requires Inv(c, s) && s.At(t).Finished? && s.At(t).outcome.Moved?
    ensures s.At(t).outcome.id in s.issued
    ensures s.At(t).outcome.value == s.issued[s.At(t).outcome.id]
  {
    var free :| InvWith(c, s, free);
    assert LocalsOk(c, s, s.At(t));
  }

  // ---- validity of ids ----

  /** `is_valid_id`, as packed words show it. */
  predicate IsValidId<V>(c: Config, s: State<V>, id: Word)
    requires c.Valid()
  {
    id.index < c.capacity && id.index < |s.slots| && SameWord(c, s.slots[id.index], id)
  }

  /** For an id that was issued at most `tags - 1` reuses ago, `is_valid_id` tells
      whether it is live. */
  lemma IssuedIdValidIffLive<V>(c: Config, s: State<V>, id: Word)
    requires Inv(c, s) && id in s.issued
    requires id.index < |s.slots| ==> s.slots[id.index].tag < id.tag + c.tags
    ensures IsValidId(c, s, id) <==> id in LiveMap(s)
  {
    var free :| InvWith(c, s, free);
    if SameWord(c, s.slots[id.index], id) {
      ModuloGap(id.tag, s.slots[id.index].tag, c.tags);
    }
  }

  /** The slot's word has its own index, but its id is not in circulation. */
  ghost predicate BetweenLives<V>(pc: Pc<V, Word>) {
    pc.Construct? || pc.LoadId? || pc.Destroy? || pc.LoadLocked?
  }

  /** The slot is being returned, and its word does not link to another slot yet. */
  ghost predicate NotYetLinked<V>(s: State<V>, pc: Pc<V, Word>, i: nat)
    requires i < |s.slots|
  {
    (pc.ReloadHead? || pc.StoreLink?) && s.slots[i].index == i
  }

  /** For an arbitrary word the answer is exactly this: its tag is the slot's, modulo the
      tags, and the slot is live, or is being filled or emptied, so that this would be its
      next id, which nobody has been given. */
  lemma ValidWordMeaning<V>(c: Config, s: State<V>, id: Word)
    requires Inv(c, s) && id.index < c.capacity
    ensures |s.slots| == c.capacity
    ensures IsValidId(c, s, id) <==>
              && id.tag % c.tags == s.slots[id.index].tag % c.tags
              && (Word(s.slots[id.index].tag, id.index) in LiveMap(s)
                  || exists t :: Holds(s, t, id.index)
                       && (BetweenLives(s.At(t)) || NotYetLinked(s, s.At(t), id.index)))
  {
    var free :| InvWith(c, s, free);
    var i := id.index;
    if i in free {
      FreeLinksAway(c, s, free, i);
      assert forall t :: !Holds(s, t, i);
    } else if t :| Holds(s, t, i) {
      assert LocalsOk(c, s, s.At(t));
      assert forall u :: Holds(s, u, i) ==> u == t;
      HeldNotLive(c, s, free, t, i);
    } else {
      assert Unclaimed(s, free, i);
      assert Live(s, i);
    }
    hide InvWith, FreeList, Issued, RestLive;
  }

  lemma HeldNotLive<V>(c: Config, s: State<V>, free: seq<nat>, t: ThreadId, i: nat)
    requires InvWith(c, s, free) && i < c.capacity && Holds(s, t, i)
    ensures Word(s.slots[i].tag, i) !in LiveMap(s)
  {
    assert !Unclaimed(s, free, i);
  }

  /** With no call in flight, the destructor's test picks exactly the slots that
      hold an element. */
  lemma DestroysEachElementOnce<V>(c: Config, s: State<V>, i: nat)
    requires Inv(c, s) && i < c.capacity && i < |s.slots| == |s.payload|
    requires forall t :: s.At(t).Idle? || s.At(t).Finished?
    ensures s.slots[i].index == i <==> s.payload[i].Some?
  {
    var free :| InvWith(c, s, free);
    if i in free {
      FreeLinksAway(c, s, free, i);
    } else {
      hide FreeList, Issued, LocalsOk;
      assert Unclaimed(s, free, i);
      assert Live(s, i);
    }
  }

  /** A free slot never links to itself. */
  lemma FreeLinksAway<V>(c: Config, s: State<V>, free: seq<nat>, i: nat)
    requires InvWith(c, s, free) && i in free && i < c.capacity
    ensures s.slots[i].index != i && s.payload[i] == None
  {
    var k :| 0 <= k < |free| && free[k] == i;
    assert k + 1 < |free| ==> free[k + 1] != free[k];
  }
}
