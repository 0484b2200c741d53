/** The dense vector is a finite map from ids to elements. */
module DenseVectorTheorems {
  import Bits
  import opened PackedIds
  import opened FreeList
  import opened DenseVector

  ghost predicate LiveId<V>(s: State<V>, id: Word) {
    && IsValidId(s, id)
    && s.links.words[id.index].index < |s.elements| <= |s.toOuter|
    && s.toOuter[s.links.words[id.index].index] == id.index
  }

  ghost function Ids<V>(s: State<V>): set<Word> {
    set o | 0 <= o < |s.links.words| :: Word(s.links.words[o].tag, o)
  }

  ghost function LiveMap<V>(s: State<V>): map<Word, V> {
    map id | id in Ids(s) && LiveId(s, id) :: s.elements[s.links.words[id.index].index]
  }

  lemma LiveIffNotFree<V>(c: Config, s: State<V>, free: seq<nat>, id: Word)
    requires InvWith(c, s, free)
    ensures LiveId(s, id) <==> IsValidId(s, id) && id.index !in free
    ensures id in LiveMap(s) <==> LiveId(s, id)
  {
    if IsValidId(s, id) {
      assert SlotOk(s, free, id.index);
      if LiveId(s, id) {
        assert PositionOk(s, free, s.links.words[id.index].index);
      }
      assert id == Word(s.links.words[id.index].tag, id.index);
    }
  }

  /** The source's lookup of a live id. */
  lemma Lookup<V>(c: Config, s: State<V>, id: Word)
    requires Inv(c, s) && id in LiveMap(s)
    ensures var position := s.links.words[id.index].index;
            position < |s.elements| <= |s.toOuter| && s.toOuter[position] == id.index
            && LiveMap(s)[id] == s.elements[position]
  {
  }

  /** `emplace` adds one id that was not live, with its element. */
  lemma EmplaceAdds<V>(c: Config, s: State<V>, free: seq<nat>, v: V)
    requires InvWith(c, s, free) && (free != [] || |s.links.words| < c.invalid)
    ensures CanEmplace(c, s) && NewId(c, s) !in LiveMap(s)
    ensures LiveMap(Emplace(c, s, v)) == LiveMap(s)[NewId(c, s) := v]
  {
    EmplaceInv(c, s, free, v);
    NewIdNotLive(c, s, free);
    EmplaceMap(c, s, free, v);
  }

  lemma EmplaceMap<V>(c: Config, s: State<V>, free: seq<nat>, v: V)
    requires InvWith(c, s, free) && CanEmplace(c, s)
    ensures LiveMap(Emplace(c, s, v)) == LiveMap(s)[NewId(c, s) := v]
  {
    hide InvWith, LiveMap, Emplace, NewId, CanEmplace;
    var s', id := Emplace(c, s, v), NewId(c, s);
    forall w
      ensures w in LiveMap(s') <==> w == id || w in LiveMap(s)
      ensures w in LiveMap(s') ==> LiveMap(s')[w] == (if w == id then v else LiveMap(s)[w])
    {
      EmplaceLive(c, s, free, v, w);
    }
  }

  lemma NewIdNotLive<V>(c: Config, s: State<V>, free: seq<nat>)
    requires InvWith(c, s, free) && CanEmplace(c, s)
    ensures NewId(c, s) !in LiveMap(s)
  {
    TakeChain(c, s.links, free);
    LiveIffNotFree(c, s, free, NewId(c, s));
  }

  lemma EmplaceLive<V>(c: Config, s: State<V>, free: seq<nat>, v: V, w: Word)
    requires InvWith(c, s, free) && CanEmplace(c, s)
    ensures var s', id := Emplace(c, s, v), NewId(c, s);
            && (w in LiveMap(s') <==> w == id || w in LiveMap(s))
            && (w in LiveMap(s') ==> LiveMap(s')[w] == (if w == id then v else LiveMap(s)[w]))
  {
    TakeChain(c, s.links, free);
    EmplaceInv(c, s, free, v);
    var free' := if free == [] then [] else free[1..];
    assert free != [] ==> free == [free[0]] + free[1..];
    LiveIffNotFree(c, s, free, w);
    LiveIffNotFree(c, Emplace(c, s, v), free', w);
    if w.index < |s.links.words| {
      assert SlotOk(s, free, w.index);
    }
  }

  /** `erase` removes exactly its id; every other id still yields its own element,
      wherever the swap has moved it. */
  lemma EraseRemoves<V>(c: Config, s: State<V>, free: seq<nat>, id: Word)
    requires InvWith(c, s, free) && id in LiveMap(s)
    ensures CanErase(c, s, id)
    ensures LiveMap(Erase(c, s, id)) == LiveMap(s) - {id}
  {
    LiveIffNotFree(c, s, free, id);
    EraseInv(c, s, free, id);
    var s', free' := Erase(c, s, id), free + [id.index];
    forall w
      ensures w in LiveMap(s') <==> w != id && w in LiveMap(s)
      ensures w in LiveMap(s') ==> LiveMap(s')[w] == LiveMap(s)[w]
    {
      LiveIffNotFree(c, s, free, w);
      LiveIffNotFree(c, s', free', w);
      EraseKeepsElement(c, s, free, id, w);
    }
  }

  lemma EraseKeepsElement<V>(c: Config, s: State<V>, free: seq<nat>, id: Word, w: Word)
    requires InvWith(c, s, free) && CanErase(c, s, id) && id.index !in free
    ensures var s' := Erase(c, s, id);
            && |s'.links.words| == |s.links.words|
            && (w.index < |s.links.words| && w.index != id.index ==>
                  && s'.links.words[w.index].tag == s.links.words[w.index].tag
                  && (w.index !in free ==>
                        && s.links.words[w.index].index < |s.elements|
                        && s'.links.words[w.index].index < |s'.elements|
                        && s'.elements[s'.links.words[w.index].index] == s.elements[s.links.words[w.index].index]))
  {
    MoveLastWords(c, s, free, id.index);
    MoveLastChain(c, s, free, id.index);
    var s1 := MoveLast(s, s.links.words[id.index].index);
    PutWords(c, s1.links, free, id.index);
    if w.index < |s.links.words| && w.index != id.index && w.index !in free {
      assert SlotOk(s, free, w.index);
      MoveLastSlots(c, s, free, id.index, w.index);
    }
  }

  lemma ReserveKeeps<V>(c: Config, s: State<V>, free: seq<nat>, n: nat)
    requires InvWith(c, s, free) && |s.links.words| < n <= c.invalid
    ensures LiveMap(ReserveIds(c, s, n)) == LiveMap(s)
  {
    ReserveInv(c, s, free, n);
    var s', free' := ReserveIds(c, s, n), Range(|s.links.words|, n) + free;
    forall w
      ensures w in LiveMap(s') <==> w in LiveMap(s)
      ensures w in LiveMap(s') ==> LiveMap(s')[w] == LiveMap(s)[w]
    {
      LiveIffNotFree(c, s, free, w);
      LiveIffNotFree(c, s', free', w);
      if |s.links.words| <= w.index < n {
        assert free'[w.index - |s.links.words|] == w.index;
      }
    }
  }

  // ---- the way back ----

  /** `id_from_iterator` inverts the lookup: at the position of a live id it returns
      that id, at every position it returns the id of the element there, and at the end
      one that is not valid. */
  lemma ReverseLookup<V>(c: Config, s: State<V>)
    requires Inv(c, s)
    ensures |s.elements| <= |s.toOuter|
    ensures forall i :: 0 <= i < |s.elements| ==> s.toOuter[i] < |s.links.words|
    ensures forall id :: id in LiveMap(s) ==> IdAt(c, s, s.links.words[id.index].index) == id
    ensures forall i :: 0 <= i < |s.elements| ==>
              IdAt(c, s, i) in LiveMap(s) && LiveMap(s)[IdAt(c, s, i)] == s.elements[i]
    ensures !IsValidId(s, IdAt(c, s, |s.elements|))
  {
    var free :| InvWith(c, s, free);
    forall i | 0 <= i < |s.elements|
      ensures s.toOuter[i] < |s.links.words|
      ensures IdAt(c, s, i) in LiveMap(s) && LiveMap(s)[IdAt(c, s, i)] == s.elements[i]
    {
      assert PositionOk(s, free, i);
      LiveIffNotFree(c, s, free, IdAt(c, s, i));
    }
  }

  /** Walking all positions yields each live id exactly once. */
  lemma WalkVisitsEachOnce<V>(c: Config, s: State<V>)
    requires Inv(c, s)
    ensures |s.elements| <= |s.toOuter|
    ensures forall i :: 0 <= i < |s.elements| ==> s.toOuter[i] < |s.links.words|
    ensures forall i, j :: 0 <= i < j < |s.elements| ==> IdAt(c, s, i) != IdAt(c, s, j)
    ensures LiveMap(s).Keys == set i | 0 <= i < |s.elements| :: IdAt(c, s, i)
  {
    ReverseLookup(c, s);
    var free :| InvWith(c, s, free);
    forall i, j | 0 <= i < j < |s.elements|
      ensures IdAt(c, s, i) != IdAt(c, s, j)
    {
      assert PositionOk(s, free, i) && PositionOk(s, free, j);
    }
    forall id
      ensures id in LiveMap(s) <==> exists i :: 0 <= i < |s.elements| && IdAt(c, s, i) == id
    {
      if id in LiveMap(s) {
        assert IdAt(c, s, s.links.words[id.index].index) == id;
      }
    }
  }

  // ---- validity of ids ----

  /** `is_valid_id` compares tags only: it holds for a live id, and also for the next id
      of a slot that is free. */
  lemma ValidIff<V>(c: Config, s: State<V>, free: seq<nat>, id: Word)
    requires InvWith(c, s, free)
    ensures IsValidId(s, id) <==>
              id in LiveMap(s)
              || (id.index in free && id.index < |s.links.words| && s.links.words[id.index].tag == id.tag)
  {
    LiveIffNotFree(c, s, free, id);
  }

  /** So a vector with reserved slots and no element calls the id zero valid. */
  lemma ReservedSlotLooksValid(c: Config, n: nat)
    requires c.Valid() && 0 < n <= c.invalid
    ensures var s := ReserveIds<int>(c, Fresh(c), n);
            Inv(c, s) && LiveMap(s) == map[] && IsValidId(s, Word(0, 0))
  {
    FreshInv<int>(c);
    ReserveInv<int>(c, Fresh(c), [], n);
    ReserveKeeps<int>(c, Fresh(c), [], n);
  }

  datatype Op<V> = DoReserve(n: nat) | DoEmplace(v: V) | DoErase(id: Word)

  ghost predicate Enabled<V>(c: Config, s: State<V>, op: Op<V>) {
    match op
    case DoReserve(n) => |s.links.words| < n <= c.invalid
    case DoEmplace(_) => CanEmplace(c, s)
    case DoErase(id) => id in LiveMap(s) && CanErase(c, s, id)
  }

  ghost function Next<V>(c: Config, s: State<V>, op: Op<V>): State<V>
    requires Enabled(c, s, op)
  {
    match op
    case DoReserve(n) => ReserveIds(c, s, n)
    case DoEmplace(v) => Emplace(c, s, v)
    case DoErase(id) => Erase(c, s, id)
  }

  lemma NextInv<V>(c: Config, s: State<V>, op: Op<V>)
    requires Inv(c, s) && Enabled(c, s, op)
    ensures Inv(c, Next(c, s, op))
  {
    var free :| InvWith(c, s, free);
    match op
    case DoReserve(n) => ReserveInv(c, s, free, n);
    case DoEmplace(v) => LastOfList(c, s.links, free); EmplaceInv(c, s, free, v);
    case DoErase(id) => LiveIffNotFree(c, s, free, id); EraseInv(c, s, free, id);
  }

  /** How often slot o was erased in the first k operations. */
  ghost function Erasures<V>(ops: seq<Op<V>>, o: nat, k: nat): nat
    requires k <= |ops|
  {
    if k == 0 then 0
    else Erasures(ops, o, k - 1) + (if ops[k - 1].DoErase? && ops[k - 1].id.index == o then 1 else 0)
  }

  ghost predicate IsRun<V>(c: Config, states: seq<State<V>>, ops: seq<Op<V>>) {
    && |states| == |ops| + 1
    && Inv(c, states[0])
    && forall k :: 0 <= k < |ops| ==> Step(c, states[k], ops[k], states[k + 1])
  }

  ghost predicate Step<V>(c: Config, s: State<V>, op: Op<V>, s': State<V>) {
    Enabled(c, s, op) && s' == Next(c, s, op)
  }

  lemma TagStep<V>(c: Config, s: State<V>, op: Op<V>, o: nat)
    requires Inv(c, s) && Enabled(c, s, op) && o < |s.links.words|
    ensures o < |Next(c, s, op).links.words|
    ensures Next(c, s, op).links.words[o].tag ==
              (if op.DoErase? && op.id.index == o then (s.links.words[o].tag + 1) % c.tags else s.links.words[o].tag)
  {
    if op.DoErase? {
      EraseTag(c, s, op.id, o);
    }
  }

  lemma EraseTag<V>(c: Config, s: State<V>, id: Word, o: nat)
    requires Inv(c, s) && CanErase(c, s, id) && id in LiveMap(s) && o < |s.links.words|
    ensures |Erase(c, s, id).links.words| == |s.links.words|
    ensures Erase(c, s, id).links.words[o].tag ==
              (if id.index == o then (s.links.words[o].tag + 1) % c.tags else s.links.words[o].tag)
  {
    var free :| InvWith(c, s, free);
    LiveIffNotFree(c, s, free, id);
    MoveLastWords(c, s, free, id.index);
    MoveLastChain(c, s, free, id.index);
    PutWords(c, MoveLast(s, s.links.words[id.index].index).links, free, id.index);
  }

  lemma TagInRange<V>(c: Config, s: State<V>, o: nat)
    requires Inv(c, s) && o < |s.links.words|
    ensures s.links.words[o].tag < c.tags
  {
  }

  ghost function TagAt<V>(s: State<V>, o: nat): nat {
    if o < |s.links.words| then s.links.words[o].tag else 0
  }

  lemma StepInv<V>(c: Config, s: State<V>, op: Op<V>, s': State<V>, o: nat)
    requires Step(c, s, op, s') && Inv(c, s) && o < |s.links.words|
    ensures Inv(c, s') && o < |s'.links.words| && c.tags > 0
    ensures TagAt(s', o) == if op.DoErase? && op.id.index == o then (TagAt(s, o) + 1) % c.tags else TagAt(s, o)
  {
    hide Next, Enabled;
    TagInRange(c, s, o);
    NextInv(c, s, op);
    TagStep(c, s, op, o);
  }

  lemma CountUp(start: nat, n: nat, count: nat, tag: nat, count': nat, tag': nat)
    requires n > 0 && tag == (start + count) % n && count <= count' <= count + 1
    requires tag' == if count' == count then tag else (tag + 1) % n
    ensures tag' == (start + count') % n
  {
    Bits.AddOne(start + count, n);
  }

  lemma {:induction false} TagsCountErasures<V>(c: Config, states: seq<State<V>>, ops: seq<Op<V>>, o: nat, k: nat)
    requires IsRun(c, states, ops) && k <= |ops| && o < |states[0].links.words|
    ensures Inv(c, states[k]) && o < |states[k].links.words| && c.tags > 0
    ensures TagAt(states[k], o) == (TagAt(states[0], o) + Erasures(ops, o, k)) % c.tags
  {
    hide Inv, Step;
    if k == 0 {
      TagInRange(c, states[0], o);
      Bits.SmallModulo(TagAt(states[0], o), c.tags);
    } else {
      TagsCountErasures(c, states, ops, o, k - 1);
      StepInv(c, states[k - 1], ops[k - 1], states[k], o);
      CountUp(TagAt(states[0], o), c.tags, Erasures(ops, o, k - 1), TagAt(states[k - 1], o),
              Erasures(ops, o, k), TagAt(states[k], o));
    }
  }

  lemma LiveTag<V>(c: Config, s: State<V>, id: Word)
    requires Inv(c, s) && id in LiveMap(s)
    ensures id.index < |s.links.words| && TagAt(s, id.index) == id.tag < c.tags
  {
    var free :| InvWith(c, s, free);
    LiveIffNotFree(c, s, free, id);
  }

  /** An issued id passes `is_valid_id` exactly after a multiple of `tags` erasures of
      its slot: never in between, and again when the tags have gone round. */
  lemma IssuedValidIff<V>(c: Config, states: seq<State<V>>, ops: seq<Op<V>>, id: Word, k: nat)
    requires IsRun(c, states, ops) && k <= |ops| && id in LiveMap(states[0])
    ensures IsValidId(states[k], id) <==> Erasures(ops, id.index, k) % c.tags == 0
  {
    hide Inv, Step, LiveMap;
    LiveTag(c, states[0], id);
    TagsCountErasures(c, states, ops, id.index, k);
    Bits.SmallModulo(id.tag, c.tags);
    Bits.AddMultiple(id.tag, Erasures(ops, id.index, k), c.tags);
  }
}
