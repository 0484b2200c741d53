/** The slot vector that keeps its elements packed: two index arrays lead from a slot
    to the position of its element and back, and erasing swaps the last element in. */
module DenseVector {
  import opened Basics
  import opened PackedIds
  import opened FreeList

  /** `links.words` is the array from slots to positions, threaded by the free list.
      `toOuter` is the storage of the array back; its first `|elements|` entries are in
      use and the others keep what was last stored there. */
  datatype State<V> = State(links: Links, toOuter: seq<nat>, elements: seq<V>)

  // ---- the operations ----

  function ReserveIds<V>(c: Config, s: State<V>, n: nat): State<V> {
    if n > |s.links.words| then s.(links := Grow(c, s.links, n)) else s
  }

  predicate CanEmplace<V>(c: Config, s: State<V>) {
    && |s.elements| <= |s.toOuter|
    && if Empty(c, s.links) then |s.links.words| < c.invalid else s.links.first < |s.links.words|
  }

  function NewId<V>(c: Config, s: State<V>): Word
    requires CanEmplace(c, s)
  {
    if Empty(c, s.links) then Word(0, |s.links.words|)
    else Word(s.links.words[s.links.first].tag, s.links.first)
  }

  /** The next slot is linked to the position behind the last element. */
  function CreateId<V>(c: Config, s: State<V>): Links
    requires CanEmplace(c, s)
  {
    var id := NewId(c, s);
    if Empty(c, s.links) then s.links.(words := s.links.words + [Word(0, |s.elements|)])
    else
      var l := Take(c, s.links);
      l.(words := l.words[id.index := Word(id.tag, |s.elements|)])
  }

  function PushBack(storage: seq<nat>, used: nat, x: nat): seq<nat>
    requires used <= |storage|
  {
    if used < |storage| then storage[used := x] else storage + [x]
  }

  function Emplace<V>(c: Config, s: State<V>, v: V): State<V>
    requires CanEmplace(c, s)
  {
    State(CreateId(c, s), PushBack(s.toOuter, |s.elements|, NewId(c, s).index), s.elements + [v])
  }

  predicate IsValidId<V>(s: State<V>, id: Word) {
    id.index < |s.links.words| && s.links.words[id.index].tag == id.tag
  }

  /** The source demands a valid id of a slot that holds an element. */
  predicate CanErase<V>(c: Config, s: State<V>, id: Word) {
    && c.tags > 0 && IsValidId(s, id)
    && (Empty(c, s.links) || s.links.last < |s.links.words|)
    && 0 < |s.elements| <= |s.toOuter|
    && s.links.words[id.index].index < |s.elements|
    && (forall i :: 0 <= i < |s.elements| ==> s.toOuter[i] < |s.links.words|)
  }

  /** The swap: the last element, and its way back, move into the gap. */
  function MoveLast<V>(s: State<V>, position: nat): State<V>
    requires position < |s.elements| <= |s.toOuter|
    requires s.toOuter[|s.elements| - 1] < |s.links.words|
  {
    var last := |s.elements| - 1;
    var elements := s.elements[position := s.elements[last]][..last];
    var toOuter := s.toOuter[position := s.toOuter[last]];
    // When the erased element is the last one, this reads an entry just given up.
    var moved := toOuter[position];
    State(s.links.(words := s.links.words[moved := Word(s.links.words[moved].tag, position)]), toOuter, elements)
  }

  function Erase<V>(c: Config, s: State<V>, id: Word): State<V>
    requires CanErase(c, s, id)
  {
    var s1 := MoveLast(s, s.links.words[id.index].index);
    s1.(links := Put(c, s1.links, id.index))
  }

  /** `id_from_iterator`; the end yields the invalid index. */
  function IdAt<V>(c: Config, s: State<V>, position: nat): Word
    requires position <= |s.elements| <= |s.toOuter|
    requires position < |s.elements| ==> s.toOuter[position] < |s.links.words|
  {
    if position == |s.elements| then Word(0, c.invalid)
    else Word(s.links.words[s.toOuter[position]].tag, s.toOuter[position])
  }

  // ---- the invariant ----

  /** A slot that holds an element and the position of that element point to each other. */
  ghost predicate SlotOk<V>(s: State<V>, free: seq<nat>, o: nat)
    requires o < |s.links.words|
  {
    o !in free ==>
      && s.links.words[o].index < |s.elements| <= |s.toOuter|
      && s.toOuter[s.links.words[o].index] == o
  }

  ghost predicate PositionOk<V>(s: State<V>, free: seq<nat>, i: nat)
    requires i < |s.elements| <= |s.toOuter|
  {
    && s.toOuter[i] < |s.links.words| && s.toOuter[i] !in free
    && s.links.words[s.toOuter[i]].index == i
  }

  ghost predicate InvWith<V>(c: Config, s: State<V>, free: seq<nat>) {
    && c.Valid()
    && Chain(c, s.links, free)
    && |s.elements| <= |s.toOuter|
    && (forall o :: 0 <= o < |s.links.words| ==> SlotOk(s, free, o))
    && (forall i :: 0 <= i < |s.elements| ==> PositionOk(s, free, i))
    && (forall o :: 0 <= o < |s.links.words| ==> s.links.words[o].tag < c.tags)
  }

  ghost predicate Inv<V>(c: Config, s: State<V>) {
    exists free :: InvWith(c, s, free)
  }

  function Fresh<V>(c: Config): State<V> {
    State(Links([], c.invalid, c.invalid), [], [])
  }

  lemma FreshInv<V>(c: Config)
    requires c.Valid()
    ensures InvWith<V>(c, Fresh(c), [])
  {
  }

  lemma ReserveInv<V>(c: Config, s: State<V>, free: seq<nat>, n: nat)
    requires InvWith(c, s, free) && |s.links.words| < n <= c.invalid
    ensures InvWith(c, ReserveIds(c, s, n), Range(|s.links.words|, n) + free)
  {
    GrowChain(c, s.links, free, n);
    var s', free' := ReserveIds(c, s, n), Range(|s.links.words|, n) + free;
    forall o | 0 <= o < |s'.links.words|
      ensures SlotOk(s', free', o) && s'.links.words[o].tag < c.tags
    {
      if o < |s.links.words| {
        assert SlotOk(s, free, o);
      } else {
        assert free'[o - |s.links.words|] == o;
      }
    }
    forall i | 0 <= i < |s'.elements|
      ensures PositionOk(s', free', i)
    {
      assert PositionOk(s, free, i);
      RangeMembers(|s.links.words|, n, s.toOuter[i]);
    }
  }

  lemma EmplaceInv<V>(c: Config, s: State<V>, free: seq<nat>, v: V)
    requires InvWith(c, s, free) && (free != [] || |s.links.words| < c.invalid)
    ensures CanEmplace(c, s)
    ensures InvWith(c, Emplace(c, s, v), if free == [] then [] else free[1..])
  {
    TakeChain(c, s.links, free);
    EmplaceChain(c, s, free);
    EmplaceSlots(c, s, free, v);
    EmplacePositions(c, s, free, v);
  }

  lemma EmplaceSizes<V>(c: Config, s: State<V>, v: V)
    requires CanEmplace(c, s)
    ensures |Emplace(c, s, v).elements| <= |Emplace(c, s, v).toOuter|
  {
  }

  lemma EmplaceSlots<V>(c: Config, s: State<V>, free: seq<nat>, v: V)
    requires InvWith(c, s, free) && CanEmplace(c, s)
    ensures var s', free' := Emplace(c, s, v), if free == [] then [] else free[1..];
            && |s'.elements| <= |s'.toOuter|
            && (forall o :: 0 <= o < |s'.links.words| ==> SlotOk(s', free', o) && s'.links.words[o].tag < c.tags)
  {
    EmplaceSizes(c, s, v);
    hide InvWith, CanEmplace, Emplace, SlotOk;
    var s', free' := Emplace(c, s, v), if free == [] then [] else free[1..];
    forall o | 0 <= o < |s'.links.words|
      ensures SlotOk(s', free', o) && s'.links.words[o].tag < c.tags
    {
      EmplaceSlot(c, s, free, v, o);
    }
  }

  lemma EmplaceSlot<V>(c: Config, s: State<V>, free: seq<nat>, v: V, o: nat)
    requires InvWith(c, s, free) && CanEmplace(c, s) && o < |Emplace(c, s, v).links.words|
    ensures SlotOk(Emplace(c, s, v), if free == [] then [] else free[1..], o)
    ensures Emplace(c, s, v).links.words[o].tag < c.tags
  {
    TakeChain(c, s.links, free);
    assert free != [] ==> free == [free[0]] + free[1..];
    if o != NewId(c, s).index {
      assert SlotOk(s, free, o);
    }
  }

  lemma EmplacePositions<V>(c: Config, s: State<V>, free: seq<nat>, v: V)
    requires InvWith(c, s, free) && CanEmplace(c, s)
    ensures var s', free' := Emplace(c, s, v), if free == [] then [] else free[1..];
            && |s'.elements| <= |s'.toOuter|
            && (forall i :: 0 <= i < |s'.elements| ==> PositionOk(s', free', i))
  {
    EmplaceSizes(c, s, v);
    hide InvWith, CanEmplace, Emplace, PositionOk;
    var s', free' := Emplace(c, s, v), if free == [] then [] else free[1..];
    forall i | 0 <= i < |s'.elements|
      ensures PositionOk(s', free', i)
    {
      EmplacePosition(c, s, free, v, i);
    }
  }

  lemma EmplacePosition<V>(c: Config, s: State<V>, free: seq<nat>, v: V, i: nat)
    requires InvWith(c, s, free) && CanEmplace(c, s)
    requires i < |Emplace(c, s, v).elements| <= |Emplace(c, s, v).toOuter|
    ensures PositionOk(Emplace(c, s, v), if free == [] then [] else free[1..], i)
  {
    TakeChain(c, s.links, free);
    assert free != [] ==> free == [free[0]] + free[1..];
    if i < |s.elements| {
      assert PositionOk(s, free, i);
      assert s.toOuter[i] != NewId(c, s).index;
      hide InvWith, Chain;
    } else if free != [] {
      NotInRest(free);
      hide InvWith, Chain;
    }
  }

  lemma NotInRest(free: seq<nat>)
    requires Distinct(free) && free != []
    ensures free[0] !in free[1..]
  {
  }

  lemma EmplaceChain<V>(c: Config, s: State<V>, free: seq<nat>)
    requires InvWith(c, s, free) && CanEmplace(c, s)
    ensures Chain(c, CreateId(c, s), if free == [] then [] else free[1..])
  {
    TakeChain(c, s.links, free);
    if free != [] {
      assert free == [free[0]] + free[1..];
      ChainFrame(c, Take(c, s.links), free[1..], CreateId(c, s).words);
    }
  }

  // ---- erasing ----

  /** What the swap changes: the position of the last element's slot, and the gap. */
  lemma MoveLastWords<V>(c: Config, s: State<V>, free: seq<nat>, o: nat)
    requires InvWith(c, s, free) && o < |s.links.words| && o !in free
    ensures s.links.words[o].index < |s.elements| && |s.elements| <= |s.toOuter|
    ensures s.toOuter[|s.elements| - 1] < |s.links.words|
    ensures var p, last := s.links.words[o].index, |s.elements| - 1;
            var s1 := MoveLast(s, p);
            && s1.links == s.links.(words := s.links.words[s.toOuter[last] := Word(s.links.words[s.toOuter[last]].tag, p)])
            && s1.toOuter == s.toOuter[p := s.toOuter[last]]
            && |s1.elements| == last
            && s.toOuter[p] == o && s.toOuter[last] !in free
            && s.links.words[s.toOuter[last]].index == last
  {
    assert SlotOk(s, free, o);
    assert PositionOk(s, free, |s.elements| - 1);
  }

  lemma MoveLastChain<V>(c: Config, s: State<V>, free: seq<nat>, o: nat)
    requires InvWith(c, s, free) && o < |s.links.words| && o !in free
    ensures s.links.words[o].index < |s.elements|
    ensures s.toOuter[|s.elements| - 1] < |s.links.words|
    ensures Chain(c, MoveLast(s, s.links.words[o].index).links, free)
  {
    MoveLastWords(c, s, free, o);
    ChainFrame(c, s.links, free, MoveLast(s, s.links.words[o].index).links.words);
  }

  lemma MoveLastSlots<V>(c: Config, s: State<V>, free: seq<nat>, o: nat, x: nat)
    requires InvWith(c, s, free) && o < |s.links.words| && o !in free && x < |s.links.words| && x != o
    ensures s.links.words[o].index < |s.elements|
    ensures s.toOuter[|s.elements| - 1] < |s.links.words|
    ensures SlotOk(MoveLast(s, s.links.words[o].index), free, x)
  {
    hide Chain;
    MoveLastWords(c, s, free, o);
    assert SlotOk(s, free, x);
    if x !in free {
      assert s.toOuter[s.links.words[x].index] == x;
    }
  }

  lemma MoveLastPositions<V>(c: Config, s: State<V>, free: seq<nat>, o: nat, i: nat)
    requires InvWith(c, s, free) && o < |s.links.words| && o !in free && i < |s.elements| - 1
    ensures s.links.words[o].index < |s.elements|
    ensures s.toOuter[|s.elements| - 1] < |s.links.words|
    ensures var s1 := MoveLast(s, s.links.words[o].index);
            PositionOk(s1, free, i) && s1.toOuter[i] != o
  {
    MoveLastWords(c, s, free, o);
    assert PositionOk(s, free, i);
  }

  lemma MoveLastOk<V>(c: Config, s: State<V>, free: seq<nat>, o: nat)
    requires InvWith(c, s, free) && o < |s.links.words| && o !in free
    ensures s.links.words[o].index < |s.elements|
    ensures s.toOuter[|s.elements| - 1] < |s.links.words|
    ensures var s1 := MoveLast(s, s.links.words[o].index);
            && Chain(c, s1.links, free)
            && |s1.links.words| == |s.links.words| && |s1.elements| == |s.elements| - 1 < |s1.toOuter|
            && (forall x :: 0 <= x < |s.links.words| ==> s1.links.words[x].tag == s.links.words[x].tag)
            && (forall x :: 0 <= x < |s.links.words| && x != o ==> SlotOk(s1, free, x))
            && (forall i :: 0 <= i < |s1.elements| ==> PositionOk(s1, free, i) && s1.toOuter[i] != o)
  {
    MoveLastWords(c, s, free, o);
    MoveLastChain(c, s, free, o);
    var s1 := MoveLast(s, s.links.words[o].index);
    forall x | 0 <= x < |s.links.words| && x != o
      ensures SlotOk(s1, free, x)
    {
      MoveLastSlots(c, s, free, o, x);
    }
    forall i | 0 <= i < |s1.elements|
      ensures PositionOk(s1, free, i) && s1.toOuter[i] != o
    {
      MoveLastPositions(c, s, free, o, i);
    }
  }

  lemma EraseInv<V>(c: Config, s: State<V>, free: seq<nat>, id: Word)
    requires InvWith(c, s, free) && IsValidId(s, id) && id.index !in free
    ensures CanErase(c, s, id)
    ensures InvWith(c, Erase(c, s, id), free + [id.index])
  {
    forall i | 0 <= i < |s.elements|
      ensures s.toOuter[i] < |s.links.words|
    {
      assert PositionOk(s, free, i);
    }
    MoveLastOk(c, s, free, id.index);
    LastOfList(c, s.links, free);
    var s1 := MoveLast(s, s.links.words[id.index].index);
    PutChain(c, s1.links, free, id.index);
    PutWords(c, s1.links, free, id.index);
    EraseSlots(c, s, free, id);
  }

  lemma EraseSlots<V>(c: Config, s: State<V>, free: seq<nat>, id: Word)
    requires InvWith(c, s, free) && CanErase(c, s, id) && id.index !in free
    ensures var s', free' := Erase(c, s, id), free + [id.index];
            && |s'.links.words| == |s.links.words| && |s'.elements| <= |s'.toOuter|
            && (forall o :: 0 <= o < |s'.links.words| ==> SlotOk(s', free', o) && s'.links.words[o].tag < c.tags)
            && (forall i :: 0 <= i < |s'.elements| ==> PositionOk(s', free', i))
  {
    MoveLastOk(c, s, free, id.index);
    var s1 := MoveLast(s, s.links.words[id.index].index);
    PutWords(c, s1.links, free, id.index);
    var s', free' := Erase(c, s, id), free + [id.index];
    forall o | 0 <= o < |s'.links.words|
      ensures SlotOk(s', free', o) && s'.links.words[o].tag < c.tags
    {
      assert o != id.index ==> SlotOk(s1, free, o);
    }
    forall i | 0 <= i < |s'.elements|
      ensures PositionOk(s', free', i)
    {
      assert PositionOk(s1, free, i);
    }
  }
}
