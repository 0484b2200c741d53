/** The stable vector as the object the program has: packed words, changed in place. */
module StableVectorClass {
  import opened Basics
  import opened PackedIds
  import opened FreeList
  import opened WordArrays
  import opened StableVector

  // The laws of the model, with the free list left implicit.

  lemma ReserveLaws<V>(c: Config, s: State<V>, n: nat)
    requires Inv(c, s) && |s.links.words| < n <= c.invalid
    ensures s.links.first <= c.invalid
    ensures Inv(c, Reserve(c, s, n)) && LiveMap(Reserve(c, s, n)) == LiveMap(s)
  {
    var free :| InvWith(c, s, free);
    LastOfList(c, s.links, free);
    ReserveInv(c, s, free, n);
    ReserveKeeps(c, s, free, n);
  }

  lemma EmplaceLaws<V>(c: Config, s: State<V>, v: V)
    requires Inv(c, s) && (!Empty(c, s.links) || |s.links.words| < c.invalid)
    ensures CanEmplace(c, s) && NewId(c, s) !in LiveMap(s) && NewId(c, s).index < c.invalid
    ensures Inv(c, Emplace(c, s, v)) && LiveMap(Emplace(c, s, v)) == LiveMap(s)[NewId(c, s) := v]
  {
    var free :| InvWith(c, s, free);
    LastOfList(c, s.links, free);
    EmplaceInv(c, s, free, v);
    EmplaceAdds(c, s, free, v);
  }

  lemma EraseLaws<V>(c: Config, s: State<V>, id: Word)
    requires Inv(c, s) && id in LiveMap(s)
    ensures CanErase(c, s, id)
    ensures Empty(c, s.links) || (s.links.last != id.index && s.links.words[s.links.last].index == c.invalid)
    ensures Inv(c, Erase(c, s, id)) && LiveMap(Erase(c, s, id)) == LiveMap(s) - {id}
  {
    var free :| InvWith(c, s, free);
    LastOfList(c, s.links, free);
    EraseInv(c, s, free, id);
    EraseRemoves(c, s, free, id);
  }

  lemma WordsFit<V>(l: Layout, s: State<V>, ids: seq<nat>, i: nat)
    requires Inv(ConfigOf(l), s) && s.links.words == Words(l, ids) && i < |ids|
    ensures l.Fits(Unpack(l, ids[i]))
  {
    assert s.links.words[i] == Unpack(l, ids[i]);
  }

  // ---- the destructor's count ----

  /** How many of the first n slots are not in the list. */
  ghost function Outside(free: seq<nat>, n: nat): nat {
    if n == 0 then 0 else Outside(free, n - 1) + (if n - 1 in free then 0 else 1)
  }

  lemma {:induction false} OutsideWithout(free: seq<nat>, k: nat, n: nat)
    requires Distinct(free) && k < |free| && n <= free[k]
    ensures Outside(free[..k] + free[k + 1..], n) == Outside(free, n)
  {
    if n > 0 {
      OutsideWithout(free, k, n - 1);
      if n - 1 in free {
        var j :| 0 <= j < |free| && free[j] == n - 1;
        var rest := free[..k] + free[k + 1..];
        assert rest[if j < k then j else j - 1] == n - 1;
      }
    }
  }

  lemma {:induction false} OutsideCount(free: seq<nat>, n: nat)
    requires Distinct(free) && forall k :: 0 <= k < |free| ==> free[k] < n
    ensures Outside(free, n) + |free| == n
  {
    assert |free| > 0 ==> free[0] < n;
    if n == 0 {
    } else if n - 1 in free {
      var k :| 0 <= k < |free| && free[k] == n - 1;
      OutsideWithout(free, k, n - 1);
      OutsideCount(free[..k] + free[k + 1..], n - 1);
    } else {
      OutsideCount(free, n - 1);
    }
  }

  lemma DestructorTest<V>(l: Layout, s: State<V>, ids: seq<nat>, free: seq<nat>, i: nat)
    requires InvWith(ConfigOf(l), s, free) && s.links.words == Words(l, ids) && i < |ids|
    ensures i < |s.data| && (l.UnpackIndex(ids[i]) == i <==> i !in free) && (s.data[i].Some? <==> i !in free)
  {
    WordsFit(l, s, ids, i);
    ReadIndex(l, ids[i]);
    DestroysEachElementOnce(ConfigOf(l), s, i);
    assert SlotOk(s, free, i);
  }

  ghost function FreeSlots<V>(c: Config, s: State<V>): (free: seq<nat>)
    requires Inv(c, s)
    ensures InvWith(c, s, free) && |s.data| == |s.links.words|
  {
    var free :| InvWith(c, s, free);
    free
  }

  lemma DestructorCount<V>(c: Config, s: State<V>, free: seq<nat>)
    requires InvWith(c, s, free)
    ensures s.size == Outside(free, |s.links.words|)
  {
    OutsideCount(free, |s.links.words|);
  }

  class StableIdVector<V> {
    const layout: Layout
    var ids: seq<nat>
    var data: seq<Option<V>>
    var firstFree: nat
    var lastFree: nat
    var size: nat

    ghost function C(): Config {
      ConfigOf(layout)
    }

    ghost function Model(): State<V>
      reads this
    {
      State(Links(Words(layout, ids), firstFree, lastFree), data, size)
    }

    ghost predicate Valid()
      reads this
    {
      layout.Valid() && |data| == |ids| && Inv(C(), Model())
    }

    /** What a client sees: the elements by the ids it was given. */
    ghost function Contents(): map<Word, V>
      reads this
      requires Valid()
    {
      LiveMap(Model())
    }

    constructor (layout: Layout, capacity: nat)
      requires layout.Valid() && capacity <= layout.Invalid()
      ensures Valid() && this.layout == layout && Contents() == map[]
      ensures Model() == StableVector.Reserve(C(), Fresh(C()), capacity)
    {
      this.layout := layout;
      ids, data, size := [], [], 0;
      firstFree, lastFree := layout.Invalid(), layout.Invalid();
      new;
      ValidConfig(layout);
      FreshInv<V>(C());
      assert Model() == Fresh(C());
      Reserve(capacity);
    }

    method Reserve(n: nat)
      requires Valid() && n <= layout.Invalid()
      modifies this
      ensures Valid() && Model() == StableVector.Reserve(C(), old(Model()), n)
      ensures Contents() == old(Contents())
    {
      if n > |ids| {
        ghost var was := Model();
        ReserveLaws(C(), was, n);
        hide Inv, LiveMap, Unpack;
        var oldSize := |ids|;
        var grown := Thread(layout, ids, n, firstFree);
        ThreadedWords(layout, was.links, ids, grown, n);
        ids := grown;
        data := data + seq(n - oldSize, _ => None);
        firstFree := oldSize;
        if lastFree == layout.Invalid() {
          lastFree := n - 1;
        }
        assert Model() == StableVector.Reserve(C(), was, n);
      }
    }

    method IsValidId(id: nat) returns (valid: bool)
      requires Valid() && id < layout.Size()
      ensures valid <==> Unpack(layout, id) in Contents()
    {
      PackUnpack(layout, id);
      ReadIndex(layout, id);
      ValidIffLive(C(), Model(), Unpack(layout, id));
      var outer := layout.UnpackIndex(id);
      valid := outer < |ids| && ids[outer] == id;
      if outer < |ids| {
        PackUnpack(layout, ids[outer]);
      }
    }

    /** Takes the first free slot, or adds one. */
    method TakeSlot() returns (outer: nat)
      requires Valid() && CanEmplace(C(), Model())
      modifies this`ids, this`data, this`firstFree, this`lastFree
      ensures outer == old(NewId(C(), Model())).index < |ids| == |data|
      ensures layout.Fits(Unpack(layout, ids[outer]))
      ensures Unpack(layout, ids[outer]).tag == old(NewId(C(), Model())).tag
      ensures Model() == if old(Empty(C(), Model().links))
                         then old(Model()).(links := old(Model()).links.(words := old(Model()).links.words + [Word(0, 0)]),
                                            data := old(Model()).data + [None])
                         else old(Model()).(links := Take(C(), old(Model()).links))
    {
      ghost var was := Model();
      if lastFree == layout.Invalid() {
        hide Inv;
        outer := |ids|;
        AppendWord(layout, ids, 0);
        BareIndex(layout, 0);
        ids := ids + [0];
        data := data + [None];
      } else {
        outer := firstFree;
        WordsFit(layout, was, ids, outer);
        hide Inv;
        assert was.links.words[outer] == Unpack(layout, ids[outer]);
        ReadIndex(layout, ids[firstFree]);
        firstFree := layout.UnpackIndex(ids[firstFree]);
        if firstFree == layout.Invalid() {
          lastFree := layout.Invalid();
        }
      }
    }

    /** Stores an element and writes the slot's own index into its word. */
    method Fill(outer: nat, v: V) returns (id: nat)
      requires outer < |ids| == |data| && layout.Fits(Unpack(layout, ids[outer])) && outer < layout.Indices()
      modifies this`ids, this`data, this`size
      ensures Unpack(layout, id) == Word(old(Unpack(layout, ids[outer]).tag), outer)
      ensures Model() == State(old(Model()).links.(words := old(Model()).links.words[outer := Unpack(layout, id)]),
                               old(data)[outer := Some(v)], old(size) + 1)
    {
      hide Unpack, PackedIds.Layout.ResetIndex;
      data := data[outer := Some(v)];
      size := size + 1;
      id := layout.ResetIndex(ids[outer], outer);
      WriteIndex(layout, ids[outer], outer);
      WriteWord(layout, ids, outer, id);
      ids := ids[outer := id];
    }

    method Emplace(v: V) returns (id: nat)
      requires Valid() && (lastFree != layout.Invalid() || |ids| < layout.Invalid())
      modifies this
      ensures Valid() && old(CanEmplace(C(), Model()))
      ensures Model() == StableVector.Emplace(C(), old(Model()), v)
      ensures Unpack(layout, id) == old(NewId(C(), Model()))
      ensures Unpack(layout, id) !in old(Contents())
      ensures Contents() == old(Contents())[Unpack(layout, id) := v]
    {
      ghost var was := Model();
      EmplaceLaws(C(), was, v);
      hide Inv, LiveMap, Unpack, Words;
      var outer := TakeSlot();
      id := Fill(outer, v);
      assert Model() == StableVector.Emplace(C(), was, v);
    }

    method Get(id: nat) returns (v: V)
      requires Valid() && Unpack(layout, id) in Contents()
      ensures v == Contents()[Unpack(layout, id)]
    {
      WordsFit(layout, Model(), ids, Unpack(layout, id).index);
      ReadIndex(layout, id);
      v := data[layout.UnpackIndex(id)].value;
    }

    /** Appends a slot to the free list. */
    method PutBack(outer: nat)
      requires outer < |ids| && layout.Valid()
      requires layout.Fits(Unpack(layout, ids[outer]))
      requires lastFree != layout.Invalid() ==>
                 && lastFree < |ids| && lastFree != outer
                 && layout.Fits(Unpack(layout, ids[lastFree]))
                 && Unpack(layout, ids[lastFree]).index == layout.Invalid()
      requires outer < layout.Indices()
      modifies this`ids, this`firstFree, this`lastFree
      ensures Model() == old(Model()).(links := Put(C(), old(Model()).links, outer))
    {
      NextTag(layout, ids[outer], layout.Invalid());
      var freed := layout.IncrementTagAndReset(ids[outer], layout.Invalid());
      WriteWord(layout, ids, outer, freed);
      ids := ids[outer := freed];
      if lastFree == layout.Invalid() {
        lastFree, firstFree := outer, outer;
      } else {
        AppendLink(layout, ids[lastFree], outer);
        var linked := layout.Relink(ids[lastFree], outer);
        WriteWord(layout, ids, lastFree, linked);
        ids := ids[lastFree := linked];
        lastFree := outer;
      }
    }

    method Erase(id: nat)
      requires Valid() && Unpack(layout, id) in Contents()
      modifies this
      ensures Valid() && old(CanErase(C(), Model(), Unpack(layout, id)))
      ensures Model() == StableVector.Erase(C(), old(Model()), Unpack(layout, id))
      ensures Contents() == old(Contents()) - {Unpack(layout, id)}
    {
      ghost var was, word := Model(), Unpack(layout, id);
      EraseLaws(C(), was, word);
      WordsFit(layout, was, ids, word.index);
      if !Empty(C(), was.links) {
        WordsFit(layout, was, ids, lastFree);
      }
      hide Inv, LiveMap;
      ReadIndex(layout, id);
      var outer := layout.UnpackIndex(id);
      data := data[outer := None];
      PutBack(outer);
      size := size - 1;
      assert Model() == StableVector.Erase(C(), was, word);
    }

    /** The destructor: visits the slots in order and destroys the elements it finds.
        Every element is destroyed and the count comes out at zero. */
    method Destroy() returns (remaining: int)
      requires Valid()
      modifies this`data
      ensures remaining == 0
      ensures data == seq(|old(data)|, _ => None)
    {
      hide Inv, InvWith;
      ghost var was := Model();
      ghost var free := FreeSlots(C(), was);
      DestructorCount(C(), was, free);
      remaining := size;
      var i := 0;
      while i < |ids|
        invariant i <= |ids| == |data| == |was.data|
        invariant remaining == size - Outside(free, i)
        invariant forall k :: 0 <= k < |ids| ==> data[k] == if k < i then None else was.data[k]
      {
        DestructorTest(layout, was, ids, free, i);
        if layout.UnpackIndex(ids[i]) == i {
          assert data[i].Some?;
          data := data[i := None];
          remaining := remaining - 1;
        }
        i := i + 1;
      }
    }
  }
}
