/** The dense vector as the object the program has: packed words and two index arrays,
    changed in place. */
module DenseVectorClass {
  import opened PackedIds
  import opened FreeList
  import opened WordArrays
  import opened DenseVector
  import opened DenseVectorTheorems

  // The laws of the model, with the free list left implicit.

  lemma ReserveLaws<V>(c: Config, s: State<V>, n: nat)
    requires Inv(c, s) && |s.links.words| < n <= c.invalid
    ensures s.links.first <= c.invalid
    ensures Inv(c, ReserveIds(c, s, n)) && LiveMap(ReserveIds(c, s, n)) == LiveMap(s)
  {
    var free :| InvWith(c, s, free);
    LastOfList(c, s.links, free);
    ReserveInv(c, s, free, n);
    ReserveKeeps(c, s, free, n);
  }

  lemma EmplaceLaws<V>(c: Config, s: State<V>, v: V)
    requires Inv(c, s) && (!Empty(c, s.links) || |s.links.words| < c.invalid)
    ensures CanEmplace(c, s) && NewId(c, s) !in LiveMap(s)
    ensures Inv(c, Emplace(c, s, v)) && LiveMap(Emplace(c, s, v)) == LiveMap(s)[NewId(c, s) := v]
  {
    var free :| InvWith(c, s, free);
    LastOfList(c, s.links, free);
    EmplaceInv(c, s, free, v);
    EmplaceAdds(c, s, free, v);
  }

  lemma EraseLaws<V>(c: Config, s: State<V>, id: Word)
    requires Inv(c, s) && id in LiveMap(s)
    ensures CanErase(c, s, id)
    ensures Empty(c, s.links) || (s.links.last < |s.links.words| && s.links.last != id.index)
    ensures Inv(c, Erase(c, s, id)) && LiveMap(Erase(c, s, id)) == LiveMap(s) - {id}
  {
    var free :| InvWith(c, s, free);
    LastOfList(c, s.links, free);
    LiveIffNotFree(c, s, free, id);
    EraseInv(c, s, free, id);
    EraseRemoves(c, s, free, id);
  }

  /** The swap does not touch the last word of the free list. */
  lemma SwapKeepsEnd<V>(c: Config, s: State<V>, id: Word)
    requires Inv(c, s) && id in LiveMap(s) && !Empty(c, s.links)
    ensures CanErase(c, s, id) && s.links.last < |s.links.words|
    ensures MoveLast(s, s.links.words[id.index].index).links.words[s.links.last].index == c.invalid
  {
    var free :| InvWith(c, s, free);
    LiveIffNotFree(c, s, free, id);
    EraseLaws(c, s, id);
    MoveLastChain(c, s, free, id.index);
    LastOfList(c, MoveLast(s, s.links.words[id.index].index).links, free);
  }

  lemma PositionInRange<V>(l: Layout, s: State<V>)
    requires Inv(ConfigOf(l), s)
    ensures |s.elements| <= |s.links.words| < l.Indices() && |s.elements| <= |s.toOuter|
  {
    var free :| InvWith(ConfigOf(l), s, free);
    var used := s.toOuter[..|s.elements|];
    forall j, k | 0 <= j < k < |used|
      ensures used[j] != used[k]
    {
      assert PositionOk(s, free, j) && PositionOk(s, free, k);
    }
    forall k | 0 <= k < |used|
      ensures used[k] < |s.links.words|
    {
      assert PositionOk(s, free, k);
    }
    Pigeonhole(used, |s.links.words|);
  }

  lemma WordsFit<V>(l: Layout, s: State<V>, ids: seq<nat>, i: nat)
    requires Inv(ConfigOf(l), s) && s.links.words == Words(l, ids) && i < |ids|
    ensures l.Fits(Unpack(l, ids[i]))
  {
    assert s.links.words[i] == Unpack(l, ids[i]);
  }

  /** What the swap needs to know of the last element and of the id. */
  lemma SwapReady<V>(l: Layout, s: State<V>, id: Word)
    requires Inv(ConfigOf(l), s) && id in LiveMap(s)
    ensures CanErase(ConfigOf(l), s, id) && id.tag < l.Tags() && |s.elements| < l.Indices()
    ensures forall i :: 0 <= i < |s.links.words| ==> s.links.words[i].tag < l.Tags()
  {
    EraseLaws(ConfigOf(l), s, id);
    PositionInRange(l, s);
    AllTags(l, s);
    hide Inv;
  }

  lemma AllTags<V>(l: Layout, s: State<V>)
    requires Inv(ConfigOf(l), s)
    ensures forall i :: 0 <= i < |s.links.words| ==> s.links.words[i].tag < l.Tags()
  {
  }

  lemma SwapKeepsTags<V>(l: Layout, s: State<V>, id: Word)
    requires CanErase(ConfigOf(l), s, id)
    ensures var s' := MoveLast(s, s.links.words[id.index].index);
            && |s'.links.words| == |s.links.words|
            && forall i :: 0 <= i < |s.links.words| ==> s'.links.words[i].tag == s.links.words[i].tag
  {
  }

  lemma ElementAt<V>(c: Config, s: State<V>, position: nat)
    requires Inv(c, s) && position < |s.elements|
    ensures |s.elements| <= |s.toOuter| && s.toOuter[position] < |s.links.words| <= c.invalid
    ensures var id := Word(s.links.words[s.toOuter[position]].tag, s.toOuter[position]);
            id in LiveMap(s) && LiveMap(s)[id] == s.elements[position]
            && s.links.words[id.index].index == position
  {
    var free :| InvWith(c, s, free);
    assert PositionOk(s, free, position);
    ReverseLookup(c, s);
    assert IdAt(c, s, position) in LiveMap(s);
  }

  class IdVector<V> {
    const layout: Layout
    var outerToIndex: seq<nat>
    var indexToOuter: seq<nat>
    var elements: seq<V>
    var firstFree: nat
    var lastFree: nat

    ghost function C(): Config {
      ConfigOf(layout)
    }

    ghost function Model(): State<V>
      reads this
    {
      State(Links(Words(layout, outerToIndex), firstFree, lastFree), indexToOuter, elements)
    }

    ghost predicate Valid()
      reads this
    {
      layout.Valid() && Inv(C(), Model())
    }

    /** What a client sees: the elements by the ids it was given. */
    ghost function Contents(): map<Word, V>
      reads this
      requires Valid()
    {
      LiveMap(Model())
    }

    constructor (layout: Layout, minIds: nat, minElements: nat)
      requires layout.Valid() && minIds <= layout.Invalid() && minElements <= layout.Invalid()
      ensures Valid() && this.layout == layout && Contents() == map[]
      ensures Model() == DenseVector.ReserveIds(C(), DenseVector.ReserveIds(C(), Fresh(C()), minIds), minElements)
    {
      this.layout := layout;
      outerToIndex, indexToOuter, elements := [], [], [];
      firstFree, lastFree := layout.Invalid(), layout.Invalid();
      new;
      ValidConfig(layout);
      FreshInv<V>(C());
      assert Model() == Fresh(C());
      ReserveIds(minIds);
      ReserveElements(minElements);
    }

    /** Room for n elements takes n ids; the storage of the elements is not modelled. */
    method ReserveElements(n: nat)
      requires Valid() && n <= layout.Invalid()
      modifies this
      ensures Valid() && Model() == DenseVector.ReserveIds(C(), old(Model()), n)
      ensures Contents() == old(Contents())
    {
      ReserveIds(n);
    }

    method ReserveIds(n: nat)
      requires Valid() && n <= layout.Invalid()
      modifies this
      ensures Valid() && Model() == DenseVector.ReserveIds(C(), old(Model()), n)
      ensures Contents() == old(Contents())
    {
      if n > |outerToIndex| {
        ghost var was := Model();
        ReserveLaws(C(), was, n);
        hide Inv, LiveMap;
        var oldSize := |outerToIndex|;
        var grown := Thread(layout, outerToIndex, n, firstFree);
        ThreadedWords(layout, was.links, outerToIndex, grown, n);
        outerToIndex := grown;
        firstFree := oldSize;
        if lastFree == layout.Invalid() {
          lastFree := n - 1;
        }
        assert Model() == DenseVector.ReserveIds(C(), was, n);
      }
    }

    /** Only the tags are compared. */
    method IsValidId(id: nat) returns (valid: bool)
      requires Valid() && id < layout.Size()
      ensures valid == DenseVector.IsValidId(Model(), Unpack(layout, id))
      ensures Unpack(layout, id) in Contents() ==> valid
    {
      PackUnpack(layout, id);
      ReadIndex(layout, id);
      var outer := layout.UnpackIndex(id);
      if outer < |outerToIndex| {
        WordsFit(layout, Model(), outerToIndex, outer);
        SameTag(layout, id, outerToIndex[outer]);
      }
      valid := outer < |outerToIndex| && layout.TagPart(id) == layout.TagPart(outerToIndex[outer]);
    }

    /** Links the next slot to the position behind the last element. */
    method CreateId() returns (id: nat)
      requires Valid() && CanEmplace(C(), Model())
      modifies this`outerToIndex, this`firstFree, this`lastFree
      ensures Model() == old(Model()).(links := DenseVector.CreateId(C(), old(Model())))
      ensures Unpack(layout, id) == old(NewId(C(), Model())) && id < layout.Size()
    {
      var position := |elements|;
      PositionInRange(layout, Model());
      if lastFree == layout.Invalid() {
        hide Inv;
        AppendWord(layout, outerToIndex, position);
        BareIndex(layout, position);
        outerToIndex := outerToIndex + [position];
        BareIndex(layout, |outerToIndex| - 1);
        id := |outerToIndex| - 1;
      } else {
        WordsFit(layout, Model(), outerToIndex, firstFree);
        hide Inv;
        var outer, word := firstFree, outerToIndex[firstFree];
        ReadIndex(layout, word);
        firstFree := layout.UnpackIndex(word);
        if firstFree == layout.Invalid() {
          lastFree := layout.Invalid();
        }
        WriteIndex(layout, word, position);
        WriteWord(layout, outerToIndex, outer, layout.ResetIndex(word, position));
        outerToIndex := outerToIndex[outer := layout.ResetIndex(word, position)];
        WriteIndex(layout, word, outer);
        id := layout.ResetIndex(word, outer);
      }
      PackUnpack(layout, id);
    }

    method Emplace(v: V) returns (id: nat)
      requires Valid() && (lastFree != layout.Invalid() || |outerToIndex| < layout.Invalid())
      modifies this
      ensures Valid() && old(CanEmplace(C(), Model()))
      ensures Model() == DenseVector.Emplace(C(), old(Model()), v)
      ensures Unpack(layout, id) == old(NewId(C(), Model()))
      ensures Unpack(layout, id) !in old(Contents())
      ensures Contents() == old(Contents())[Unpack(layout, id) := v]
    {
      ghost var was := Model();
      EmplaceLaws(C(), was, v);
      hide Inv, LiveMap;
      id := CreateId();
      PackUnpack(layout, id);
      ReadIndex(layout, id);
      var outer := layout.UnpackIndex(id);
      indexToOuter := if |elements| < |indexToOuter| then indexToOuter[|elements| := outer] else indexToOuter + [outer];
      elements := elements + [v];
      assert Model() == DenseVector.Emplace(C(), was, v);
    }

    /** The position of a live id's element. */
    method Find(id: nat) returns (position: nat)
      requires Valid() && Unpack(layout, id) in Contents()
      ensures position < |elements| <= |indexToOuter|
      ensures position == Model().links.words[Unpack(layout, id).index].index
      ensures elements[position] == Contents()[Unpack(layout, id)]
      ensures indexToOuter[position] == Unpack(layout, id).index < |outerToIndex|
    {
      WordsFit(layout, Model(), outerToIndex, Unpack(layout, id).index);
      Lookup(C(), Model(), Unpack(layout, id));
      ReadIndex(layout, id);
      var word := outerToIndex[layout.UnpackIndex(id)];
      ReadIndex(layout, word);
      position := layout.UnpackIndex(word);
    }

    method Get(id: nat) returns (v: V)
      requires Valid() && Unpack(layout, id) in Contents()
      ensures v == Contents()[Unpack(layout, id)]
    {
      var position := Find(id);
      v := elements[position];
    }

    /** The id of the element at a position: the one under which it is live. */
    method IdFromPosition(position: nat) returns (id: nat)
      requires Valid() && position <= |elements|
      ensures position == |elements| ==> id == layout.Invalid()
      ensures position < |elements| ==>
                && Unpack(layout, id) in Contents()
                && Contents()[Unpack(layout, id)] == elements[position]
                && Model().links.words[Unpack(layout, id).index].index == position
    {
      if position == |elements| {
        return layout.Invalid();
      }
      ElementAt(C(), Model(), position);
      var outer := indexToOuter[position];
      WordsFit(layout, Model(), outerToIndex, outer);
      hide Inv, LiveMap;
      WriteIndex(layout, outerToIndex[outer], outer);
      id := layout.ResetIndex(outerToIndex[outer], outer);
    }

    /** Moves the last element, and its way back, into the gap. */
    method SwapOut(position: nat)
      requires position < |elements| <= |indexToOuter| && position < layout.Indices()
      requires indexToOuter[|elements| - 1] < |outerToIndex|
      requires layout.Fits(Unpack(layout, outerToIndex[indexToOuter[|elements| - 1]]))
      modifies this`elements, this`indexToOuter, this`outerToIndex
      ensures Model() == MoveLast(old(Model()), position)
    {
      hide Unpack, PackedIds.Layout.ResetIndex;
      var last := |elements| - 1;
      ghost var was := Model();
      elements := elements[position := elements[last]];
      elements := elements[..last];
      indexToOuter := indexToOuter[position := indexToOuter[last]];
      var moved := indexToOuter[position];
      var word := layout.ResetIndex(outerToIndex[moved], position);
      WriteIndex(layout, outerToIndex[moved], position);
      WriteWord(layout, outerToIndex, moved, word);
      outerToIndex := outerToIndex[moved := word];
    }

    /** Appends a slot to the free list. */
    method PutBack(outer: nat)
      requires outer < |outerToIndex| && layout.Valid()
      requires layout.Fits(Unpack(layout, outerToIndex[outer]))
      requires lastFree != layout.Invalid() ==>
                 && lastFree < |outerToIndex| && lastFree != outer
                 && layout.Fits(Unpack(layout, outerToIndex[lastFree]))
                 && Unpack(layout, outerToIndex[lastFree]).index == layout.Invalid()
      requires outer < layout.Indices()
      modifies this`outerToIndex, this`firstFree, this`lastFree
      ensures Model() == old(Model()).(links := Put(C(), old(Model()).links, outer))
    {
      NextTag(layout, outerToIndex[outer], layout.Invalid());
      var freed := layout.IncrementTagAndReset(outerToIndex[outer], layout.Invalid());
      WriteWord(layout, outerToIndex, outer, freed);
      outerToIndex := outerToIndex[outer := freed];
      if lastFree == layout.Invalid() {
        lastFree, firstFree := outer, outer;
      } else {
        AppendLink(layout, outerToIndex[lastFree], outer);
        var linked := layout.Relink(outerToIndex[lastFree], outer);
        WriteWord(layout, outerToIndex, lastFree, linked);
        outerToIndex := outerToIndex[lastFree := linked];
        lastFree := outer;
      }
    }

    method Erase(id: nat)
      requires Valid() && Unpack(layout, id) in Contents()
      modifies this
      ensures Valid() && old(CanErase(C(), Model(), Unpack(layout, id)))
      ensures Model() == DenseVector.Erase(C(), old(Model()), Unpack(layout, id))
      ensures Contents() == old(Contents()) - {Unpack(layout, id)}
    {
      ghost var was, word := Model(), Unpack(layout, id);
      EraseLaws(C(), was, word);
      SwapReady(layout, was, word);
      SwapKeepsTags(layout, was, word);
      if lastFree != layout.Invalid() {
        SwapKeepsEnd(C(), was, word);
      }
      hide Inv, LiveMap, Unpack, Words, PackedIds.Layout.UnpackIndex;
      FitsAt(indexToOuter[|elements| - 1]);
      TagFits(layout, id);
      ReadIndex(layout, id);
      var position := Find(id);
      SwapOut(position);
      var outer := layout.UnpackIndex(id);
      FitsAt(outer);
      if lastFree != layout.Invalid() {
        FitsAt(lastFree);
      }
      PutBack(outer);
    }

    lemma FitsAt(i: nat)
      requires i < |outerToIndex| && |Model().links.words| == |outerToIndex| && Model().links.words[i].tag < layout.Tags()
      ensures layout.Fits(Unpack(layout, outerToIndex[i]))
      ensures Unpack(layout, outerToIndex[i]) == Model().links.words[i]
    {
      WordAt(layout, outerToIndex, i);
      TagFits(layout, outerToIndex[i]);
    }
  }
}
