/** A call of the slot map that runs alone: wherever it stands and however old the words
    it has read, it finishes after a known number of steps, and does what it is for. */
module SlotMapSolo {
  import opened Basics
  import opened PackedIds
  import opened SlotMap
  import opened SlotMapSafety
  import opened SlotMapTheorems

  /** The state after n steps of thread t alone. */
  ghost function Solo<V>(c: Config, s: State<V>, t: ThreadId, n: nat): State<V>
    requires c.Valid()
    decreases n
  {
    if n == 0 || !Enabled(c, s, Step(t, false)) then s else Solo(c, Next(c, s, Step(t, false)), t, n - 1)
  }

  /** Each of the n steps can be taken. */
  ghost predicate Runs<V>(c: Config, s: State<V>, t: ThreadId, n: nat)
    requires c.Valid()
    decreases n
  {
    n > 0 ==> Enabled(c, s, Step(t, false)) && Runs(c, Next(c, s, Step(t, false)), t, n - 1)
  }

  ghost predicate InCall<V>(pc: Pc<V, Word>) {
    !pc.Idle? && !pc.Finished?
  }

  // ---- how long it takes ----

  /** From the load of the head: one step if no slot is free, seven otherwise. */
  ghost function LeftFromHead<V>(c: Config, s: State<V>): nat {
    if s.head.index == c.Invalid() then 1 else 7
  }

  /** The steps a call still has to make, alone. A compare-and-swap that finds another
      head costs one more round, and only one. */
  ghost function Left<V>(c: Config, s: State<V>, pc: Pc<V, Word>): nat
    requires c.Valid() && (pc.LockCas? ==> pc.id.index < |s.slots|)
  {
    match pc
    case LoadHead(_) => LeftFromHead(c, s)
    case LoadNext(_, mirror) => if SameWord(c, s.head, mirror) then 6 else 2 + LeftFromHead(c, s)
    case PopCas(_, mirror, _) => if SameWord(c, s.head, mirror) then 5 else 1 + LeftFromHead(c, s)
    case MarkLoad(_, _) => 4
    case MarkStore(_, _, _) => 3
    case Construct(_, _) => 2
    case LoadId(_, _) => 1
    case LockCas(id, _) => if SameWord(c, s.slots[id.index], id) then 6 else 1
    case Destroy(_, _, _) => 5
    case LoadLocked(_, _) => 4
    case ReloadHead(_, _, _) => 3
    case StoreLink(_, _, mirror, _) => if SameWord(c, s.head, mirror) then 2 else 5
    case PushCas(_, _, mirror, _) => if SameWord(c, s.head, mirror) then 1 else 4
    case _ => 0
  }

  /** A popped slot is filled whatever the rest of the map looks like. */
  ghost predicate Filling<V>(c: Config, s: State<V>, pc: Pc<V, Word>) {
    && (pc.MarkLoad? || pc.MarkStore? || pc.Construct? || pc.LoadId?)
    && Bounded(c, s, pc)
  }

  /** Where the call can stand: anywhere in an intact map, with any mirror and any id; only
      a lock must not be about to take the element of another id. */
  ghost predicate Able<V>(c: Config, s: State<V>, t: ThreadId) {
    && c.Valid()
    && (|| Filling(c, s, s.At(t))
        || s.At(t).Finished?
        || (Inv(c, s) && (LocksSlot(c, s, Step(t, false)) ==> Timely(c, s, Step(t, false)))))
  }

  lemma AbleStep<V>(c: Config, s: State<V>, t: ThreadId)
    requires Able(c, s, t) && InCall(s.At(t))
    ensures Enabled(c, s, Step(t, false)) && Able(c, Next(c, s, Step(t, false)), t)
    ensures s.At(t).LockCas? ==> s.At(t).id.index < |s.slots|
    ensures !Next(c, s, Step(t, false)).At(t).LockCas? && !Next(c, s, Step(t, false)).At(t).Idle?
  {
    if !Filling(c, s, s.At(t)) {
      NeverStuck(c, s, t, false);
      var free :| InvWith(c, s, free);
      assert LocalsOk(c, s, s.At(t));
      if s.At(t).PopCas? && !Timely(c, s, Step(t, false)) {
        LatePop(c, s, free, t);
      } else if s.At(t).LockCas? && !LocksSlot(c, s, Step(t, false)) {
        assert Next(c, s, Step(t, false)).At(t) == Finished(Missed);
      } else {
        NextInv(c, s, Step(t, false));
      }
    }
  }

  /** A pop with a mirror of any age: it starts again, or it has a slot. */
  lemma LatePop<V>(c: Config, s: State<V>, free: seq<nat>, t: ThreadId)
    requires InvWith(c, s, free) && s.At(t).PopCas?
    ensures var s' := DoPopCas(c, s, t, false);
            if SameWord(c, s.head, s.At(t).mirror) then Filling(c, s', s'.At(t)) else Inv(c, s')
  {
    assert LocalsOk(c, s, s.At(t));
    var s' := DoPopCas(c, s, t, false);
    if !SameWord(c, s.head, s.At(t).mirror) {
      QuietStep(c, s, free, s', t, s'.At(t));
    }
  }

  /** Each step brings the call one step nearer to its end. */
  lemma LeftFalls<V>(c: Config, s: State<V>, t: ThreadId)
    requires c.Valid() && InCall(s.At(t)) && Enabled(c, s, Step(t, false))
    requires s.At(t).LockCas? ==> s.At(t).id.index < |s.slots|
    requires !Next(c, s, Step(t, false)).At(t).LockCas?
    ensures Left(c, Next(c, s, Step(t, false)), Next(c, s, Step(t, false)).At(t)) == Left(c, s, s.At(t)) - 1
  {
  }

  /** A call that runs alone finishes after exactly so many steps, at most nine. */
  lemma {:induction false} FinishesAlone<V>(c: Config, s: State<V>, t: ThreadId)
    requires Able(c, s, t) && (InCall(s.At(t)) || s.At(t).Finished?)
    ensures s.At(t).LockCas? ==> s.At(t).id.index < |s.slots|
    ensures Runs(c, s, t, Left(c, s, s.At(t))) && Left(c, s, s.At(t)) <= 9
    ensures Solo(c, s, t, Left(c, s, s.At(t))).At(t).Finished?
    decreases if s.At(t).LockCas? then 10 else Left(c, s, s.At(t))
  {
    if InCall(s.At(t)) {
      AbleStep(c, s, t);
      LeftFalls(c, s, t);
      FinishesAlone(c, Next(c, s, Step(t, false)), t);
    }
  }

  // ---- what it comes to ----

  /** How a call ends: what it reports, the free list and the client's map. */
  datatype End<V> = End(outcome: Outcome<V, Word>, free: seq<nat>, live: map<Word, V>)

  /** No word the call has read is as old as the tags can tell. */
  ghost predicate Recent<V>(c: Config, s: State<V>, pc: Pc<V, Word>) {
    match pc
    case LoadNext(_, mirror) => s.head.tag < mirror.tag + c.tags
    case PopCas(_, mirror, _) => s.head.tag < mirror.tag + c.tags
    case LockCas(id, _) => id.index < |s.slots| && s.slots[id.index].tag < id.tag + c.tags
    case _ => true
  }

  /** An emplace fills the slot and issues its id. */
  ghost function Fills<V>(s: State<V>, slot: nat, v: V, free: seq<nat>): End<V>
    requires slot < |s.slots|
  {
    var id := Word(s.slots[slot].tag, slot);
    End(Emplaced(id), free, LiveMap(s)[id := v])
  }

  /** An emplace takes the first free slot, or reports a full map if there is none. */
  ghost function Takes<V>(s: State<V>, free: seq<nat>, v: V): End<V>
    requires free == [] || free[0] < |s.slots|
  {
    if free == [] then End(Full, free, LiveMap(s)) else Fills(s, free[0], v, free[1..])
  }

  /** A release puts its slot in front of the free list. */
  ghost function Gives<V>(s: State<V>, slot: nat, free: seq<nat>, o: Outcome<V, Word>): End<V> {
    End(o, [slot] + free, LiveMap(s))
  }

  ghost function Report<V>(s: State<V>, id: Word, take: bool): Outcome<V, Word>
    requires id in s.issued
  {
    if take then Moved(id, s.issued[id]) else Erased(id)
  }

  /** What the call promises from where it stands. */
  ghost function Promise<V>(c: Config, s: State<V>, free: seq<nat>, pc: Pc<V, Word>): End<V>
    requires InvWith(c, s, free) && LocalsOk(c, s, pc)
  {
    match pc
    case LoadHead(v) => Takes(s, free, v)
    case LoadNext(v, _) => Takes(s, free, v)
    case PopCas(v, _, _) => Takes(s, free, v)
    case MarkLoad(v, slot) => Fills(s, slot, v, free)
    case MarkStore(v, slot, _) => Fills(s, slot, v, free)
    case Construct(v, slot) => Fills(s, slot, v, free)
    case LoadId(v, slot) => Fills(s, slot, v, free)
    case LockCas(id, take) =>
      if id in LiveMap(s) then End(Report(s, id, take), [id.index] + free, LiveMap(s) - {id})
      else End(Missed, free, LiveMap(s))
    case Destroy(slot, id, take) => Gives(s, slot, free, Report(s, id, take))
    case LoadLocked(slot, o) => Gives(s, slot, free, o)
    case ReloadHead(slot, _, o) => Gives(s, slot, free, o)
    case StoreLink(slot, _, _, o) => Gives(s, slot, free, o)
    case PushCas(slot, _, _, o) => Gives(s, slot, free, o)
    case Finished(o) => End(o, free, LiveMap(s))
    case Idle => End(Missed, free, LiveMap(s))
  }

  ghost function NextFree<V>(c: Config, s: State<V>, free: seq<nat>, t: ThreadId): seq<nat>
    requires c.Valid()
  {
    var pc := s.At(t);
    if pc.PopCas? && SameWord(c, s.head, pc.mirror) && free != [] then free[1..]
    else if pc.PushCas? && SameWord(c, s.head, pc.mirror) then [pc.slot] + free
    else free
  }

  lemma FreeStep<V>(c: Config, s: State<V>, free: seq<nat>, t: ThreadId)
    requires InvWith(c, s, free) && InCall(s.At(t)) && Recent(c, s, s.At(t))
    ensures Enabled(c, s, Step(t, false)) && Timely(c, s, Step(t, false))
    ensures InvWith(c, Next(c, s, Step(t, false)), NextFree(c, s, free, t))
  {
    assert Inv(c, s) && c.Valid() && |s.slots| == c.capacity;
    FreeHead(c, s, free, t);
    hide InvWith, Inv;
    NeverStuck(c, s, t, false);
    if s.At(t).LoadHead? || s.At(t).LoadNext? || s.At(t).PopCas? || s.At(t).LockCas? || s.At(t).PushCas? {
      CasFree(c, s, free, t);
    } else {
      OtherFree(c, s, free, t);
    }
  }

  lemma CasFree<V>(c: Config, s: State<V>, free: seq<nat>, t: ThreadId)
    requires InvWith(c, s, free) && Recent(c, s, s.At(t)) && Enabled(c, s, Step(t, false)) && c.Valid()
    requires s.At(t).LoadHead? || s.At(t).LoadNext? || s.At(t).PopCas? || s.At(t).LockCas? || s.At(t).PushCas?
    ensures InvWith(c, Next(c, s, Step(t, false)), NextFree(c, s, free, t))
  {
    FreeHead(c, s, free, t);
    hide InvWith;
    match s.At(t)
    case LoadHead(_) => LoadHeadInv(c, s, free, t);
    case LoadNext(_, _) => LoadNextInv(c, s, free, t);
    case PopCas(_, _, _) => PopCasInv(c, s, free, t, false);
    case LockCas(_, _) => LockCasInv(c, s, free, t);
    case PushCas(_, _, _, _) => PushCasInv(c, s, free, t, false);
  }

  lemma OtherFree<V>(c: Config, s: State<V>, free: seq<nat>, t: ThreadId)
    requires InvWith(c, s, free) && Enabled(c, s, Step(t, false)) && c.Valid()
    requires !s.At(t).LoadHead? && !s.At(t).LoadNext? && !s.At(t).PopCas? && !s.At(t).LockCas? && !s.At(t).PushCas?
    ensures InvWith(c, Next(c, s, Step(t, false)), NextFree(c, s, free, t))
  {
    hide InvWith;
    match s.At(t)
    case MarkLoad(_, _) => MarkLoadInv(c, s, free, t);
    case MarkStore(_, _, _) => MarkStoreInv(c, s, free, t);
    case Construct(_, _) => ConstructInv(c, s, free, t);
    case LoadId(_, _) => LoadIdInv(c, s, free, t);
    case Destroy(_, _, _) => DestroyInv(c, s, free, t);
    case LoadLocked(_, _) => LoadLockedInv(c, s, free, t);
    case ReloadHead(_, _, _) => ReloadHeadInv(c, s, free, t);
    case StoreLink(_, _, _, _) => StoreLinkInv(c, s, free, t);
  }

  lemma FreeHead<V>(c: Config, s: State<V>, free: seq<nat>, t: ThreadId)
    requires InvWith(c, s, free)
    ensures free == [] <==> s.head.index == c.Invalid()
    ensures free != [] ==> free[0] == s.head.index < |s.slots|
    ensures s.At(t).PopCas? && Recent(c, s, s.At(t)) && SameWord(c, s.head, s.At(t).mirror) ==>
              s.head == s.At(t).mirror && free != []
  {
    if s.At(t).PopCas? && Recent(c, s, s.At(t)) && SameWord(c, s.head, s.At(t).mirror) {
      PopSeesHead(c, s, free, t);
    }
  }

  lemma RecentStep<V>(c: Config, s: State<V>, t: ThreadId)
    requires c.Valid() && Recent(c, s, s.At(t)) && Enabled(c, s, Step(t, false))
    ensures Recent(c, Next(c, s, Step(t, false)), Next(c, s, Step(t, false)).At(t))
  {
  }

  // ---- the promise is kept ----

  lemma LocalOf<V>(c: Config, s: State<V>, free: seq<nat>, t: ThreadId)
    requires InvWith(c, s, free)
    ensures LocalsOk(c, s, s.At(t))
  {
  }

  /** Until the pop the promise names the first free slot, whatever the call has read. */
  lemma PopPromise<V>(c: Config, s: State<V>, free: seq<nat>, t: ThreadId, s': State<V>, free': seq<nat>)
    requires InvWith(c, s, free) && Recent(c, s, s.At(t)) && Enabled(c, s, Step(t, false))
    requires s' == Next(c, s, Step(t, false)) && free' == NextFree(c, s, free, t) && InvWith(c, s', free')
    requires s.At(t).LoadHead? || s.At(t).LoadNext? || s.At(t).PopCas?
    ensures LocalsOk(c, s, s.At(t)) && LocalsOk(c, s', s'.At(t))
    ensures Promise(c, s', free', s'.At(t)) == Promise(c, s, free, s.At(t))
  {
    LocalOf(c, s, free, t);
    LocalOf(c, s', free', t);
    FreeHead(c, s, free, t);
    RefinesMap(c, s, Step(t, false));
    hide LiveMap, LocalsOk;
  }

  lemma FillPromise<V>(c: Config, s: State<V>, free: seq<nat>, t: ThreadId, s': State<V>, free': seq<nat>)
    requires InvWith(c, s, free) && Recent(c, s, s.At(t)) && Enabled(c, s, Step(t, false))
    requires s' == Next(c, s, Step(t, false)) && free' == NextFree(c, s, free, t) && InvWith(c, s', free')
    requires s.At(t).MarkLoad? || s.At(t).MarkStore? || s.At(t).Construct? || s.At(t).LoadId?
    ensures LocalsOk(c, s, s.At(t)) && LocalsOk(c, s', s'.At(t))
    ensures Promise(c, s', free', s'.At(t)) == Promise(c, s, free, s.At(t))
  {
    LocalOf(c, s, free, t);
    LocalOf(c, s', free', t);
    RefinesMap(c, s, Step(t, false));
    hide LiveMap;
  }

  lemma LockPromise<V>(c: Config, s: State<V>, free: seq<nat>, t: ThreadId, s': State<V>, free': seq<nat>)
    requires InvWith(c, s, free) && Recent(c, s, s.At(t)) && Enabled(c, s, Step(t, false))
    requires s' == Next(c, s, Step(t, false)) && free' == NextFree(c, s, free, t) && InvWith(c, s', free')
    requires s.At(t).LockCas?
    ensures LocalsOk(c, s, s.At(t)) && LocalsOk(c, s', s'.At(t))
    ensures Promise(c, s', free', s'.At(t)) == Promise(c, s, free, s.At(t))
  {
    LocalOf(c, s, free, t);
    LocalOf(c, s', free', t);
    LockFindsLive(c, s, free, t);
    RefinesMap(c, s, Step(t, false));
    hide InvWith;
    assert s.At(t).id in LiveMap(s) <==> s.slots[s.At(t).id.index] == s.At(t).id;
    hide LiveMap, LocalsOk;
  }

  lemma ReleasePromise<V>(c: Config, s: State<V>, free: seq<nat>, t: ThreadId, s': State<V>, free': seq<nat>)
    requires InvWith(c, s, free) && Recent(c, s, s.At(t)) && Enabled(c, s, Step(t, false))
    requires s' == Next(c, s, Step(t, false)) && free' == NextFree(c, s, free, t) && InvWith(c, s', free')
    requires s.At(t).Destroy? || s.At(t).LoadLocked? || s.At(t).ReloadHead? || s.At(t).StoreLink? || s.At(t).PushCas?
    ensures LocalsOk(c, s, s.At(t)) && LocalsOk(c, s', s'.At(t))
    ensures Promise(c, s', free', s'.At(t)) == Promise(c, s, free, s.At(t))
  {
    LocalOf(c, s, free, t);
    LocalOf(c, s', free', t);
    RefinesMap(c, s, Step(t, false));
    hide InvWith, LiveMap, SameWord;
  }

  /** What a call promises it has brought about when it finishes, alone: an emplace has
      taken the first free slot, filled it and issued its id, or has found no slot free; an
      erase or a move has removed its id and put its slot in front of the free list, or has
      found its id gone. */
  lemma {:induction false} KeepsPromise<V>(c: Config, s: State<V>, free: seq<nat>, t: ThreadId)
    requires InvWith(c, s, free) && (InCall(s.At(t)) || s.At(t).Finished?) && Recent(c, s, s.At(t))
    ensures LocalsOk(c, s, s.At(t))
    ensures s.At(t).LockCas? ==> s.At(t).id.index < |s.slots|
    ensures var end, s' := Promise(c, s, free, s.At(t)), Solo(c, s, t, Left(c, s, s.At(t)));
      s'.At(t) == Finished(end.outcome) && InvWith(c, s', end.free) && LiveMap(s') == end.live
    decreases if s.At(t).LockCas? then 10 else Left(c, s, s.At(t))
  {
    LocalOf(c, s, free, t);
    if InCall(s.At(t)) {
      var a := Step(t, false);
      FreeStep(c, s, free, t);
      AbleStep(c, s, t);
      LeftFalls(c, s, t);
      RecentStep(c, s, t);
      var s', free' := Next(c, s, a), NextFree(c, s, free, t);
      if s.At(t).LoadHead? || s.At(t).LoadNext? || s.At(t).PopCas? {
        PopPromise(c, s, free, t, s', free');
      } else if s.At(t).MarkLoad? || s.At(t).MarkStore? || s.At(t).Construct? || s.At(t).LoadId? {
        FillPromise(c, s, free, t, s', free');
      } else if s.At(t).LockCas? {
        LockPromise(c, s, free, t, s', free');
      } else {
        ReleasePromise(c, s, free, t, s', free');
      }
      hide InvWith, Next, Enabled, Recent, Promise, NextFree;
      KeepsPromise(c, s', free', t);
    }
  }
}
