/** Results that compare two moments of a run: the ABA bound of the free-list head,
    exactly-once erasure, and the recycling of ids. */
module SlotMapRuns {
  import opened Basics
  import opened PackedIds
  import opened SlotMap
  import opened SlotMapSafety
  import opened SlotMapTheorems

  // ---- the ABA bound ----

  /** How often the free-list head was replaced between moments j and k. */
  ghost function HeadUpdates<V>(states: seq<State<V>>, j: nat, k: nat): nat
    requires j <= k < |states|
    decreases k
  {
    if j == k then 0
    else HeadUpdates(states, j, k - 1) + (if states[k].head == states[k - 1].head then 0 else 1)
  }

  /** The version of the head counts its replacements. */
  lemma {:induction false} VersionCountsUpdates<V>(c: Config, states: seq<State<V>>, acts: seq<Action<V>>, j: nat, k: nat)
    requires IsRun(c, states, acts) && j <= k <= |acts|
    ensures states[k].head.tag == states[j].head.tag + HeadUpdates(states, j, k)
    ensures HeadUpdates(states, j, k) == 0 ==> states[k].head == states[j].head
    decreases k
  {
    if j < k {
      VersionCountsUpdates(c, states, acts, j, k - 1);
      var s, a := states[k - 1], acts[k - 1];
      assert Leads(c, s, a, states[k]);
      HeadStep(c, s, a);
    }
  }

  lemma HeadStep<V>(c: Config, s: State<V>, a: Action<V>)
    requires c.Valid() && Enabled(c, s, a)
    ensures Next(c, s, a).head == s.head || Next(c, s, a).head.tag == s.head.tag + 1
  {
  }

  /** Thread t loaded the head at moment j, and has been inside that attempt of
      `acquire_slot` ever since. */
  ghost predicate Attempt<V>(states: seq<State<V>>, acts: seq<Action<V>>, t: ThreadId, j: nat, k: nat)
    requires |states| == |acts| + 1
  {
    && j < k <= |acts|
    && acts[j].Step? && acts[j].t == t && states[j].At(t).LoadHead?
    && forall m :: j < m <= k ==> states[m].At(t).LoadNext? || states[m].At(t).PopCas?
  }

  lemma {:induction false} MirrorIsHeadAtLoad<V>(
    c: Config, states: seq<State<V>>, acts: seq<Action<V>>, t: ThreadId, j: nat, k: nat)
    requires IsRun(c, states, acts) && Attempt(states, acts, t, j, k)
    ensures states[k].At(t).mirror == states[j].head
    decreases k
  {
    var s, a := states[k - 1], acts[k - 1];
    assert Leads(c, s, a, states[k]);
    assert states[k].At(t).LoadNext? || states[k].At(t).PopCas?;
    MirrorStep(c, s, a, t);
    if j + 1 < k {
      MirrorIsHeadAtLoad(c, states, acts, t, j, k - 1);
      assert s.At(t).LoadNext? || s.At(t).PopCas?;
    }
  }

  lemma MirrorStep<V>(c: Config, s: State<V>, a: Action<V>, t: ThreadId)
    requires c.Valid() && Enabled(c, s, a)
    requires Next(c, s, a).At(t).LoadNext? || Next(c, s, a).At(t).PopCas?
    ensures s.At(t).LoadNext? || s.At(t).PopCas? ==> Next(c, s, a).At(t).mirror == s.At(t).mirror
    ensures s.At(t).LoadHead? ==> Next(c, s, a).At(t).mirror == s.head
  {
  }

  /** With real, wrapping tags: if the head was replaced fewer than `tags` times
      since it was loaded, a successful compare-and-swap means that it was never
      replaced, and that the link read in between is still the second free slot. */
  lemma AbaBound<V>(
    c: Config, states: seq<State<V>>, acts: seq<Action<V>>, t: ThreadId, j: nat, k: nat, free: seq<nat>)
    requires IsRun(c, states, acts) && Attempt(states, acts, t, j, k)
    requires states[k].At(t).PopCas? && InvWith(c, states[k], free)
    requires HeadUpdates(states, j, k) < c.tags
    requires SameWord(c, states[k].head, states[k].At(t).mirror)
    ensures HeadUpdates(states, j, k) == 0
    ensures forall m :: j <= m <= k ==> states[m].head == states[j].head
    ensures states[k].At(t).next == Following(c.Invalid(), free, 1)
  {
    MirrorIsHeadAtLoad(c, states, acts, t, j, k);
    VersionCountsUpdates(c, states, acts, j, k);
    PopSeesHead(c, states[k], free, t);
    forall m | j <= m <= k
      ensures states[m].head == states[j].head
    {
      VersionCountsUpdates(c, states, acts, j, m);
      VersionCountsUpdates(c, states, acts, m, k);
    }
  }

  /** The bound used by the invariant is this count, and the comparison can be
      fooled exactly by a positive multiple of `tags` replacements. */
  lemma AbaExact<V>(c: Config, states: seq<State<V>>, acts: seq<Action<V>>, t: ThreadId, j: nat, k: nat)
    requires IsRun(c, states, acts) && Attempt(states, acts, t, j, k)
    requires states[k].At(t).PopCas?
    ensures Timely(c, states[k], Step(t, false)) <==> HeadUpdates(states, j, k) < c.tags
    ensures SameWord(c, states[k].head, states[k].At(t).mirror) <==>
              states[k].head.index == states[j].head.index && HeadUpdates(states, j, k) % c.tags == 0
  {
    MirrorIsHeadAtLoad(c, states, acts, t, j, k);
    VersionCountsUpdates(c, states, acts, j, k);
    Bits.AddMultiple(states[j].head.tag, HeadUpdates(states, j, k), c.tags);
  }

  /** A successful pop, timely or not, leaves the map intact exactly if the link it
      read is the true second free slot. */
  lemma PopKeepsInvIff<V>(c: Config, s: State<V>, free: seq<nat>, t: ThreadId)
    requires InvWith(c, s, free) && s.At(t).PopCas? && SameWord(c, s.head, s.At(t).mirror)
    ensures Inv(c, DoPopCas(c, s, t, false)) <==> s.At(t).next == Following(c.Invalid(), free, 1)
  {
    var s' := DoPopCas(c, s, t, false);
    assert LocalsOk(c, s, s.At(t));
    if s.At(t).next == Following(c.Invalid(), free, 1) {
      PopInv(c, s, free, s', t);
    }
    if Inv(c, s') {
      var free' :| InvWith(c, s', free');
      PopLeavesRest(c, s, free, s', free', t);
      RestStartsAtSecond(c, s, free, s', free');
    }
  }

  lemma PopLeavesRest<V>(
    c: Config, s: State<V>, free: seq<nat>, s': State<V>, free': seq<nat>, t: ThreadId)
    requires InvWith(c, s, free) && s.At(t).PopCas? && SameWord(c, s.head, s.At(t).mirror)
    requires s.At(t).mirror.index < c.capacity
    requires s' == DoPopCas(c, s, t, false) && InvWith(c, s', free')
    ensures forall i :: i in free' <==> i in free && i != free[0]
  {
    forall u, i: nat
      ensures Holds(s', u, i) <==> (Holds(s, u, i) || (u == t && i == free[0]))
    {}
    forall i: nat | i < c.capacity
      ensures i in free' <==> i in free && i != free[0]
    {
      Partition(c, s, free, i);
      Partition(c, s', free', i);
      assert Live(s', i) == Live(s, i);
      assert Holds(s', t, free[0]);
      if Popped(s', i) || Locked(s', i) {
        var u :| Holds(s', u, i);
        assert u == t ==> i == free[0];
        assert u != t ==> Holds(s, u, i) && s.At(u) == s'.At(u);
      }
      if Popped(s, i) || Locked(s, i) {
        var u :| Holds(s, u, i);
        assert Holds(s', u, i);
      }
    }
  }

  lemma RestStartsAtSecond<V>(c: Config, s: State<V>, free: seq<nat>, s': State<V>, free': seq<nat>)
    requires |s.slots| == |s.payload| == c.capacity && |s'.payload| == c.capacity
    requires FreeList(c, s, free) && s'.slots == s.slots && FreeList(c, s', free')
    requires |free| > 0 && forall i :: i in free' <==> i in free && i != free[0]
    ensures s'.head.index == Following(c.Invalid(), free, 1)
  {
    assert |free'| > 0 ==> free'[0] in free';
    if |free| > 1 {
      forall p | 0 < p < |free'|
        ensures free'[p] != free[1]
      {
        assert free'[p - 1] in free';
        var q :| 0 <= q < |free| && free[q] == free'[p - 1];
        assert free'[p] == Following(c.Invalid(), free, q + 1);
      }
      assert free[1] in free';
    }
  }

  // ---- exactly-once erasure ----

  /** The version of a slot's tag counts its successful locks. */
  lemma SlotTagStep<V>(c: Config, s: State<V>, a: Action<V>, i: nat)
    requires Inv(c, s) && Enabled(c, s, a) && Timely(c, s, a) && i < c.capacity
    ensures |s.slots| == |Next(c, s, a).slots| == c.capacity
    ensures Next(c, s, a).slots[i].tag
         == s.slots[i].tag + (if LocksSlot(c, s, a) && s.At(a.t).id.index == i then 1 else 0)
  {
    var free :| InvWith(c, s, free);
    assert LocalsOk(c, s, s.At(a.t));
  }

  lemma InvSizes<V>(c: Config, s: State<V>)
    requires Inv(c, s)
    ensures |s.slots| == |s.payload| == c.capacity
  {
  }

  lemma {:induction false} SlotTagGrows<V>(
    c: Config, states: seq<State<V>>, acts: seq<Action<V>>, i: nat, j: nat, k: nat)
    requires IsRun(c, states, acts) && Init(c, states[0]) && TimelyRun(c, states, acts)
    requires j <= k <= |acts| && i < c.capacity
    ensures |states[j].slots| == |states[k].slots| == c.capacity
    ensures states[j].slots[i].tag <= states[k].slots[i].tag
    decreases k
  {
    RunInv(c, states, acts, k);
    InvSizes(c, states[k]);
    hide Inv, Init, Timely;
    if j < k {
      SlotTagGrows(c, states, acts, i, j, k - 1);
      RunInv(c, states, acts, k - 1);
      assert Leads(c, states[k - 1], acts[k - 1], states[k]);
      hide Next, Enabled, LocksSlot;
      SlotTagStep(c, states[k - 1], acts[k - 1], i);
    }
  }

  /** Of all calls of `erase` and `move_from` with one id, at most one succeeds. */
  lemma ErasedOnce<V>(c: Config, states: seq<State<V>>, acts: seq<Action<V>>, j: nat, k: nat)
    requires IsRun(c, states, acts) && Init(c, states[0]) && TimelyRun(c, states, acts)
    requires j < k < |acts|
    requires LocksSlot(c, states[j], acts[j]) && LocksSlot(c, states[k], acts[k])
    ensures states[j].At(acts[j].t).id != states[k].At(acts[k].t).id
  {
    var id := states[j].At(acts[j].t).id;
    var id' := states[k].At(acts[k].t).id;
    RunInv(c, states, acts, j);
    RunInv(c, states, acts, k);
    var free :| InvWith(c, states[j], free);
    var free' :| InvWith(c, states[k], free');
    assert Timely(c, states[j], acts[j]) && Timely(c, states[k], acts[k]);
    LockFindsLive(c, states[j], free, acts[j].t);
    LockFindsLive(c, states[k], free', acts[k].t);
    SlotTagStep(c, states[j], acts[j], id.index);
    SlotTagGrows(c, states, acts, id.index, j + 1, k);
  }

  /** Each payload is constructed only when empty and destroyed only when full, so
      its constructions and destructions alternate. */
  lemma PayloadAlternates<V>(c: Config, s: State<V>, a: Action<V>, i: nat)
    requires Inv(c, s) && Enabled(c, s, a) && i < c.capacity
    ensures |s.payload| == |Next(c, s, a).payload| == c.capacity
    ensures var was, now := s.payload[i], Next(c, s, a).payload[i];
            var pc := s.At(a.t);
            if a.Step? && pc.Construct? && pc.slot == i then was == None && now == Some(pc.value)
            else if a.Step? && pc.Destroy? && pc.slot == i then was.Some? && now == None
            else now == was
  {
    var free :| InvWith(c, s, free);
    assert LocalsOk(c, s, s.At(a.t));
  }

  // ---- recycling ----

  ghost predicate LiveAt<V>(s: State<V>, i: nat) {
    exists id :: id in LiveMap(s) && id.index == i
  }

  ghost predicate IssuesSlot<V>(s: State<V>, a: Action<V>, i: nat) {
    Issues(s, a) && s.At(a.t).slot == i
  }

  /** How many ids of slot i were issued from moment j until before moment k. */
  ghost function IssueCount<V>(states: seq<State<V>>, acts: seq<Action<V>>, i: nat, j: nat, k: nat): nat
    requires j <= k < |states| == |acts| + 1
    decreases k
  {
    if j == k then 0
    else IssueCount(states, acts, i, j, k - 1) + (if IssuesSlot(states[k - 1], acts[k - 1], i) then 1 else 0)
  }

  lemma LiveAtStep<V>(c: Config, s: State<V>, a: Action<V>, i: nat)
    requires Inv(c, s) && Enabled(c, s, a) && Timely(c, s, a) && i < c.capacity
    ensures IssuesSlot(s, a, i) ==> !LiveAt(s, i) && LiveAt(Next(c, s, a), i)
    ensures LocksSlot(c, s, a) && s.At(a.t).id.index == i ==> LiveAt(s, i) && !LiveAt(Next(c, s, a), i)
    ensures !IssuesSlot(s, a, i) && !(LocksSlot(c, s, a) && s.At(a.t).id.index == i) ==>
              LiveAt(Next(c, s, a), i) == LiveAt(s, i)
  {
    RefinesMap(c, s, a);
    var s' := Next(c, s, a);
    if Issues(s, a) {
      var id := s.slots[s.At(a.t).slot];
      assert id in LiveMap(s');
      assert forall id' :: id' in LiveMap(s') <==> id' == id || id' in LiveMap(s);
    } else if LocksSlot(c, s, a) {
      var id := s.At(a.t).id;
      assert id in LiveMap(s);
      assert forall id' :: id' in LiveMap(s') <==> id' != id && id' in LiveMap(s);
    }
  }

  lemma {:induction false} TagsFollowIssues<V>(
    c: Config, states: seq<State<V>>, acts: seq<Action<V>>, i: nat, j: nat, k: nat)
    requires IsRun(c, states, acts) && Init(c, states[0]) && TimelyRun(c, states, acts)
    requires j < k <= |acts| && i < c.capacity
    requires IssuesSlot(states[j], acts[j], i)
    ensures |states[j].slots| == |states[k].slots| == c.capacity
    ensures states[k].slots[i].tag
         == states[j].slots[i].tag + IssueCount(states, acts, i, j, k) - (if LiveAt(states[k], i) then 1 else 0)
    decreases k
  {
    hide Inv, Init, Timely, LiveAt, IssuesSlot, IsRun, Leads, TimelyRun;
    RunLeads(c, states, acts, k - 1);
    IssueStep(c, states[k - 1], acts[k - 1], states[k], i);
    if j + 1 < k {
      TagsFollowIssues(c, states, acts, i, j, k - 1);
    } else {
      assert IssueCount(states, acts, i, j, j) == 0;
    }
  }

  /** An issue makes the slot live, and giving this up moves the tag on. */
  lemma IssueStep<V>(c: Config, s: State<V>, a: Action<V>, s': State<V>, i: nat)
    requires Inv(c, s) && Timely(c, s, a) && Leads(c, s, a, s') && i < c.capacity
    ensures |s.slots| == |s'.slots| == c.capacity
    ensures s'.slots[i].tag + (if LiveAt(s', i) then 1 else 0)
         == s.slots[i].tag + (if LiveAt(s, i) then 1 else 0) + (if IssuesSlot(s, a, i) then 1 else 0)
    ensures IssuesSlot(s, a, i) ==> !LiveAt(s, i)
  {
    LiveAtStep(c, s, a, i);
    SlotTagStep(c, s, a, i);
    hide Inv, Timely, Next, Enabled, LiveAt;
  }

  /** The ids issued for one slot carry successive tags. */
  lemma TagsAdvanceByOne<V>(
    c: Config, states: seq<State<V>>, acts: seq<Action<V>>, i: nat, j: nat, k: nat)
    requires IsRun(c, states, acts) && Init(c, states[0]) && TimelyRun(c, states, acts)
    requires j < k < |acts| && i < c.capacity
    requires IssuesSlot(states[j], acts[j], i) && IssuesSlot(states[k], acts[k], i)
    ensures |states[j].slots| == |states[k].slots| == c.capacity
    ensures states[k].slots[i].tag == states[j].slots[i].tag + IssueCount(states, acts, i, j, k)
  {
    RunInv(c, states, acts, k);
    TagsFollowIssues(c, states, acts, i, j, k);
    LiveAtStep(c, states[k], acts[k], i);
  }

  /** So a packed id comes back only after a multiple of `tags` reuses of its slot. */
  lemma IdsRepeatAfterAllTags<V>(
    c: Config, states: seq<State<V>>, acts: seq<Action<V>>, i: nat, j: nat, k: nat)
    requires IsRun(c, states, acts) && Init(c, states[0]) && TimelyRun(c, states, acts)
    requires j < k < |acts| && i < c.capacity
    requires IssuesSlot(states[j], acts[j], i) && IssuesSlot(states[k], acts[k], i)
    ensures |states[j].slots| == |states[k].slots| == c.capacity
    ensures SameWord(c, states[k].slots[i], states[j].slots[i]) <==> IssueCount(states, acts, i, j, k) % c.tags == 0
    ensures IssueCount(states, acts, i, j, k) > 0
  {
    TagsAdvanceByOne(c, states, acts, i, j, k);
    IssuedIndexes(c, states, acts, i, j, k);
    Bits.AddMultiple(states[j].slots[i].tag, IssueCount(states, acts, i, j, k), c.tags);
    CountsFirst(states, acts, i, j, k);
  }

  lemma IssuedIndexes<V>(
    c: Config, states: seq<State<V>>, acts: seq<Action<V>>, i: nat, j: nat, k: nat)
    requires IsRun(c, states, acts) && Init(c, states[0]) && TimelyRun(c, states, acts)
    requires j < k < |acts| && i < c.capacity
    requires IssuesSlot(states[j], acts[j], i) && IssuesSlot(states[k], acts[k], i)
    ensures states[j].slots[i].index == i && states[k].slots[i].index == i
  {
    RunInv(c, states, acts, j);
    RunInv(c, states, acts, k);
    IssuedIndex(c, states[j], acts[j]);
    IssuedIndex(c, states[k], acts[k]);
  }

  lemma IssuedIndex<V>(c: Config, s: State<V>, a: Action<V>)
    requires Inv(c, s) && Issues(s, a)
    ensures s.slots[s.At(a.t).slot].index == s.At(a.t).slot
  {
    var free :| InvWith(c, s, free);
    assert LocalsOk(c, s, s.At(a.t));
  }

  lemma {:induction false} CountsFirst<V>(states: seq<State<V>>, acts: seq<Action<V>>, i: nat, j: nat, k: nat)
    requires j < k < |states| == |acts| + 1 && IssuesSlot(states[j], acts[j], i)
    ensures IssueCount(states, acts, i, j, k) > 0
    decreases k
  {
    if j + 1 < k {
      CountsFirst(states, acts, i, j, k - 1);
    } else {
      assert IssueCount(states, acts, i, j, j) == 0;
    }
  }
}
