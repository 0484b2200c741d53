/** An `erase` that comes as many reuses of its slot late as there are tags destroys
    the element of another id. */
module SlotMapStale {
  import Bits
  import opened Basics
  import opened PackedIds
  import opened SlotMap
  import opened SlotMapSafety
  import opened SlotMapTheorems
  import opened SlotMapScripts

  /** Thread 0 is about to lock slot 0 for `id`; since then thread 1 has erased and
      filled the slot k times. */
  ghost predicate Reused<V>(c: Config, s: State<V>, id: Word, k: nat, v: V) {
    && c.Valid() && |s.slots| == |s.payload| == c.capacity
    && id.index == 0 && s.slots[0] == Word(id.tag + k, 0) && s.slots[0] in s.issued && s.payload[0] == Some(v)
    && s.At(0) == LockCas(id, false) && s.At(1).Idle?
  }

  lemma Issue<V(!new)>(c: Config, s0: State<V>, v: V) returns (s: State<V>)
    requires Init(c, s0)
    ensures Reaches(c, s0, s, 10) && Reused(c, s, Word(s0.slots[0].tag, 0), 0, v)
  {
    hide Reaches;
    Here(c, s0);
    EmplaceRuns(c, s0, s0, 0, 1, v);
    var s1, id := AfterEmplace(s0, 1, v), Word(s0.slots[0].tag, 0);
    Append(c, s0, s1, 9, Action.Erase(0, id, false));
    s := Next(c, s1, Action.Erase(0, id, false));
  }

  lemma ReuseOnce<V(!new)>(c: Config, s0: State<V>, s: State<V>, n: nat, id: Word, k: nat, v: V)
    returns (s': State<V>)
    requires c.Valid() && Reaches(c, s0, s, n) && Reused(c, s, id, k, v)
    ensures Reaches(c, s0, s', n + 17) && Reused(c, s', id, k + 1, v)
  {
    hide Reaches;
    EraseRuns(c, s0, s, n, 1, 0);
    var s1 := AfterErase(s, 1, 0);
    EmplaceRuns(c, s0, s1, n + 8, 1, v);
    s' := AfterEmplace(s1, 1, v);
  }

  lemma {:induction false} Reuse<V(!new)>(c: Config, s0: State<V>, k: nat, v: V) returns (s: State<V>)
    requires Init(c, s0)
    ensures Reaches(c, s0, s, 10 + 17 * k) && Reused(c, s, Word(s0.slots[0].tag, 0), k, v)
  {
    hide Reaches;
    if k == 0 {
      s := Issue(c, s0, v);
    } else {
      var s1 := Reuse(c, s0, k - 1, v);
      s := ReuseOnce(c, s0, s1, 10 + 17 * (k - 1), Word(s0.slots[0].tag, 0), k - 1, v);
    }
  }

  lemma SameAfterAllTags(c: Config, id: Word)
    requires c.Valid()
    ensures SameWord(c, Word(id.tag + c.tags, id.index), id)
  {
    Bits.DivideByMultiple(1, c.tags, 0);
    Bits.AddMultiple(id.tag, c.tags, c.tags);
  }

  /** The lock of thread 0 is about to succeed with a stale id, and the element of an id
      issued later goes. */
  ghost predicate TakesAnother<V>(c: Config, s: State<V>, stale: Word) {
    var other := Word(stale.tag + c.tags, stale.index);
    && c.Valid() && |s.slots| == c.capacity && stale.index < c.capacity
    && s.At(0) == LockCas(stale, false) && !Timely(c, s, Step(0, false))
    && stale !in LiveMap(s) && other in LiveMap(s)
    && DoLockCas(c, s, 0).At(0) == Destroy(stale.index, stale, false)
    && LiveMap(DoLockCas(c, s, 0)) == LiveMap(s) - {other}
  }

  lemma LockTakesAnother<V>(c: Config, s: State<V>, stale: Word, v: V)
    requires Reused(c, s, stale, c.tags, v) && Word(stale.tag + c.tags + 1, 0) !in s.issued
    ensures TakesAnother(c, s, stale)
  {
    SameAfterAllTags(c, stale);
    var s', other := DoLockCas(c, s, 0), Word(stale.tag + c.tags, 0);
    assert s'.slots == s.slots[0 := Word(other.tag + 1, 0)] && s'.issued == s.issued;
    hide SameWord, DoLockCas;
    forall id
      ensures id in LiveMap(s') <==> id in LiveMap(s) && id != other
    {
    }
  }

  lemma NotYetIssued<V>(c: Config, s: State<V>, id: Word)
    requires Inv(c, s) && id.index < c.capacity
    ensures |s.slots| == c.capacity && (id.tag > s.slots[id.index].tag ==> id !in s.issued)
  {
    var free :| InvWith(c, s, free);
  }

  /** For every size and number of tags there is a run of timely steps after which the
      lock of a stale id succeeds, although the id is not live, and takes away the
      element of an id that was issued later. */
  lemma StaleEraseTakesAnother<V(!new)>(c: Config, s0: State<V>, v: V) returns (s: State<V>)
    requires Init(c, s0)
    ensures c.Valid() && Reaches(c, s0, s, 10 + 17 * c.tags) && Inv(c, s)
    ensures TakesAnother(c, s, Word(s0.slots[0].tag, 0))
  {
    var id := Word(s0.slots[0].tag, 0);
    hide Reaches, Inv, TakesAnother, Init;
    s := Reuse(c, s0, c.tags, v);
    InitIsInv(c, s0);
    ReachesInv(c, s0, s, 10 + 17 * c.tags);
    NotYetIssued(c, s, Word(id.tag + c.tags + 1, 0));
    LockTakesAnother(c, s, id, v);
  }
}
