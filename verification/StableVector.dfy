/** The slot vector whose elements never move: each slot carries its id's tag, its own
    index while it holds an element, and a free-list link while it does not. */
module StableVector {
  import opened Basics
  import Bits
  import opened PackedIds
  import opened FreeList

  datatype State<V> = State(links: Links, data: seq<Option<V>>, size: nat)

  // ---- the operations ----

  function Reserve<V>(c: Config, s: State<V>, n: nat): State<V> {
    if n > |s.links.words|
    then s.(links := Grow(c, s.links, n), data := s.data + seq(n - |s.links.words|, _ => None))
    else s
  }

  /** There is a free slot, or room for one more. */
  predicate CanEmplace<V>(c: Config, s: State<V>) {
    |s.data| == |s.links.words| &&
    if Empty(c, s.links) then |s.links.words| < c.invalid else s.links.first < |s.links.words|
  }

  function NewId<V>(c: Config, s: State<V>): Word
    requires CanEmplace(c, s)
  {
    if Empty(c, s.links) then Word(0, |s.links.words|)
    else Word(s.links.words[s.links.first].tag, s.links.first)
  }

  function Emplace<V>(c: Config, s: State<V>, v: V): State<V>
    requires CanEmplace(c, s)
  {
    var id := NewId(c, s);
    if Empty(c, s.links) then
      State(s.links.(words := s.links.words + [id]), s.data + [Some(v)], s.size + 1)
    else
      var l := Take(c, s.links);
      State(l.(words := l.words[id.index := id]), s.data[id.index := Some(v)], s.size + 1)
  }

  predicate IsValidId<V>(s: State<V>, id: Word) {
    id.index < |s.links.words| && s.links.words[id.index] == id
  }

  /** The source demands a valid id. */
  predicate CanErase<V>(c: Config, s: State<V>, id: Word) {
    && c.tags > 0 && |s.data| == |s.links.words| && s.size > 0
    && IsValidId(s, id) && (Empty(c, s.links) || s.links.last < |s.links.words|)
  }

  function Erase<V>(c: Config, s: State<V>, id: Word): State<V>
    requires CanErase(c, s, id)
  {
    State(Put(c, s.links, id.index), s.data[id.index := None], s.size - 1)
  }

  // ---- the invariant ----

  ghost predicate SlotOk<V>(s: State<V>, free: seq<nat>, i: nat)
    requires i < |s.links.words| == |s.data|
  {
    if i in free then s.data[i] == None else s.data[i].Some? && s.links.words[i].index == i
  }

  ghost predicate InvWith<V>(c: Config, s: State<V>, free: seq<nat>) {
    && c.Valid()
    && |s.data| == |s.links.words|
    && Chain(c, s.links, free)
    && (forall i :: 0 <= i < |s.data| ==> SlotOk(s, free, i))
    && (forall i :: 0 <= i < |s.data| ==> s.links.words[i].tag < c.tags)
    && s.size + |free| == |s.data|
  }

  ghost predicate Inv<V>(c: Config, s: State<V>) {
    exists free :: InvWith(c, s, free)
  }

  function Fresh<V>(c: Config): State<V> {
    State(Links([], c.invalid, c.invalid), [], 0)
  }

  lemma FreshInv<V>(c: Config)
    requires c.Valid()
    ensures InvWith<V>(c, Fresh(c), [])
  {
  }

  lemma ReserveInv<V>(c: Config, s: State<V>, free: seq<nat>, n: nat)
    requires InvWith(c, s, free) && |s.links.words| < n <= c.invalid
    ensures InvWith(c, Reserve(c, s, n), Range(|s.links.words|, n) + free)
  {
    GrowChain(c, s.links, free, n);
    var s', free' := Reserve(c, s, n), Range(|s.links.words|, n) + free;
    forall i | 0 <= i < |s'.data|
      ensures SlotOk(s', free', i) && s'.links.words[i].tag < c.tags
    {
      if i < |s.data| {
        assert SlotOk(s, free, i);
        RangeMembers(|s.links.words|, n, i);
      } else {
        assert free'[i - |s.links.words|] == i;
      }
    }
  }

  /** The slot that is filled next is the oldest one in the list, if there is one. */
  lemma EmplaceInv<V>(c: Config, s: State<V>, free: seq<nat>, v: V)
    requires InvWith(c, s, free) && (free != [] || |s.data| < c.invalid)
    ensures CanEmplace(c, s)
    ensures InvWith(c, Emplace(c, s, v), if free == [] then [] else free[1..])
    ensures free != [] ==> NewId(c, s).index == free[0]
  {
    TakeChain(c, s.links, free);
    var s' := Emplace(c, s, v);
    if free == [] {
      forall i | 0 <= i < |s'.data|
        ensures SlotOk(s', [], i)
      {
        assert i < |s.data| ==> SlotOk(s, free, i);
      }
    } else {
      EmplaceTakes(c, s, free, v);
    }
  }

  lemma EmplaceTakes<V>(c: Config, s: State<V>, free: seq<nat>, v: V)
    requires InvWith(c, s, free) && free != [] && CanEmplace(c, s)
    ensures InvWith(c, Emplace(c, s, v), free[1..])
  {
    TakeChain(c, s.links, free);
    var s', l := Emplace(c, s, v), Take(c, s.links);
    assert free == [free[0]] + free[1..];
    ChainFrame(c, l, free[1..], s'.links.words);
    forall i | 0 <= i < |s'.data|
      ensures SlotOk(s', free[1..], i)
    {
      assert SlotOk(s, free, i);
    }
  }

  /** An erased slot goes to the end of the list. */
  lemma EraseInv<V>(c: Config, s: State<V>, free: seq<nat>, id: Word)
    requires InvWith(c, s, free) && IsValidId(s, id)
    ensures CanErase(c, s, id) && id.index !in free
    ensures InvWith(c, Erase(c, s, id), free + [id.index])
  {
    ValidNotFree(c, s, free, id);
    PutChain(c, s.links, free, id.index);
    PutWords(c, s.links, free, id.index);
    LiveCount(c, s, free, id.index);
    var s', free' := Erase(c, s, id), free + [id.index];
    forall i | 0 <= i < |s'.data|
      ensures SlotOk(s', free', i)
    {
      assert SlotOk(s, free, i);
    }
  }

  lemma ValidNotFree<V>(c: Config, s: State<V>, free: seq<nat>, id: Word)
    requires InvWith(c, s, free) && IsValidId(s, id)
    ensures id.index !in free
  {
    forall k | 0 <= k < |free|
      ensures s.links.words[free[k]].index != free[k]
    {
      assert k + 1 < |free| ==> free[k + 1] != free[k];
    }
  }

  lemma LiveCount<V>(c: Config, s: State<V>, free: seq<nat>, slot: nat)
    requires InvWith(c, s, free) && slot < |s.data| && slot !in free
    ensures s.size > 0
  {
    var q := free + [slot];
    DistinctConcat(free, [slot]);
    Pigeonhole(q, |s.data|);
  }

  // ---- the map the clients see ----

  ghost function LiveMap<V>(s: State<V>): map<Word, V>
    requires |s.data| == |s.links.words|
  {
    map id | id in s.links.words && IsValidId(s, id) && s.data[id.index].Some? :: s.data[id.index].value
  }

  /** `is_valid_id` is exact for every word, issued or made up. */
  lemma ValidIffLive<V>(c: Config, s: State<V>, id: Word)
    requires Inv(c, s)
    ensures IsValidId(s, id) <==> id in LiveMap(s)
  {
    var free :| InvWith(c, s, free);
    if IsValidId(s, id) {
      ValidNotFree(c, s, free, id);
      assert SlotOk(s, free, id.index);
    }
  }

  lemma EmplaceAdds<V>(c: Config, s: State<V>, free: seq<nat>, v: V)
    requires InvWith(c, s, free) && (free != [] || |s.data| < c.invalid)
    ensures CanEmplace(c, s) && NewId(c, s) !in LiveMap(s)
    ensures |Emplace(c, s, v).data| == |Emplace(c, s, v).links.words|
    ensures LiveMap(Emplace(c, s, v)) == LiveMap(s)[NewId(c, s) := v]
  {
    TakeChain(c, s.links, free);
    var s', id := Emplace(c, s, v), NewId(c, s);
    assert free != [] ==> SlotOk(s, free, id.index);
    forall w
      ensures w in LiveMap(s') <==> w == id || w in LiveMap(s)
      ensures w in LiveMap(s') ==> LiveMap(s')[w] == (if w == id then v else LiveMap(s)[w])
    {
      EmplaceLive(c, s, v, w);
    }
    hide Chain, InvWith, Emplace;
  }

  /** The new id is live afterwards, and nothing else changes. */
  lemma EmplaceLive<V>(c: Config, s: State<V>, v: V, w: Word)
    requires CanEmplace(c, s)
    requires !Empty(c, s.links) ==> s.data[s.links.first] == None
    ensures var s', id := Emplace(c, s, v), NewId(c, s);
            && |s'.data| == |s'.links.words|
            && (w in LiveMap(s') <==> w == id || w in LiveMap(s))
            && (w in LiveMap(s') ==> LiveMap(s')[w] == (if w == id then v else LiveMap(s)[w]))
            && id !in LiveMap(s)
  {
    var s', id := Emplace(c, s, v), NewId(c, s);
    assert s'.links.words[id.index] == id;
    if IsValidId(s, w) {
      assert s.links.words[w.index] == w;
    }
    if IsValidId(s', w) {
      assert s'.links.words[w.index] == w;
    }
  }

  lemma EraseRemoves<V>(c: Config, s: State<V>, free: seq<nat>, id: Word)
    requires InvWith(c, s, free) && IsValidId(s, id)
    ensures CanErase(c, s, id) && id in LiveMap(s)
    ensures |Erase(c, s, id).data| == |Erase(c, s, id).links.words|
    ensures LiveMap(Erase(c, s, id)) == LiveMap(s) - {id}
  {
    EraseInv(c, s, free, id);
    PutWords(c, s.links, free, id.index);
    var s' := Erase(c, s, id);
    assert SlotOk(s, free, id.index);
    forall w
      ensures w in LiveMap(s') <==> w != id && w in LiveMap(s)
      ensures w in LiveMap(s') ==> LiveMap(s')[w] == LiveMap(s)[w]
    {
      if IsValidId(s, w) && s.data[w.index].Some? {
        assert SlotOk(s, free, w.index);
        assert s.links.words[w.index] == w;
      }
      if IsValidId(s', w) && s'.data[w.index].Some? {
        assert SlotOk(s, free, w.index);
        assert s'.links.words[w.index] == w;
      }
    }
  }

  lemma ReserveKeeps<V>(c: Config, s: State<V>, free: seq<nat>, n: nat)
    requires InvWith(c, s, free) && |s.links.words| < n <= c.invalid
    ensures |Reserve(c, s, n).data| == |Reserve(c, s, n).links.words|
    ensures LiveMap(Reserve(c, s, n)) == LiveMap(s)
  {
    var s' := Reserve(c, s, n);
    forall w
      ensures w in LiveMap(s') <==> w in LiveMap(s)
      ensures w in LiveMap(s') ==> LiveMap(s')[w] == LiveMap(s)[w]
    {
      if IsValidId(s, w) {
        assert s.links.words[w.index] == w && s'.links.words[w.index] == w;
      }
    }
  }

  /** The destructor's test finds exactly the slots that hold an element. */
  lemma DestroysEachElementOnce<V>(c: Config, s: State<V>, i: nat)
    requires Inv(c, s) && i < |s.links.words| == |s.data|
    ensures s.links.words[i].index == i <==> s.data[i].Some?
  {
    var free :| InvWith(c, s, free);
    assert SlotOk(s, free, i);
    if s.links.words[i].index == i {
      ValidNotFree(c, s, free, s.links.words[i]);
    }
  }
}
