/** The ids of the executor's tasks and records are those its stable vectors hand out:
    what the executor's model asks of a new id is what the vectors grant. */
module ExecutorIds {
  import Bits
  import opened PackedIds
  import opened FreeList
  import opened WordArrays
  import opened StableVector
  import StableVectorClass
  import Executor

  /** The packed ids of the vector's elements are the keys of a map. */
  ghost predicate Backs<V>(l: Layout, v: State<V>, keys: set<nat>) {
    && l.Valid() && Inv(ConfigOf(l), v)
    && forall x: nat :: x in keys <==> Unpack(l, x) in LiveMap(v)
  }

  /** A vector with room for one more grants an id that is not in use and is not the one
      that stands for no task; with its element it backs the larger map. */
  lemma EmplaceBacks<V>(l: Layout, v: State<V>, keys: set<nat>, e: V)
    requires Backs(l, v, keys)
    requires !Empty(ConfigOf(l), v.links) || |v.links.words| < l.Invalid()
    ensures CanEmplace(ConfigOf(l), v)
    ensures var id := l.Pack(NewId(ConfigOf(l), v));
      id !in keys && id != l.Invalid() && Backs(l, StableVector.Emplace(ConfigOf(l), v, e), keys + {id})
  {
    var c := ConfigOf(l);
    StableVectorClass.EmplaceLaws(c, v, e);
    NewIdFits(l, v);
    var w := NewId(c, v);
    UnpackPack(l, w);
    l.PackInjective(w, Word(0, l.Invalid()));
    Bits.JoinZero(l.indexBits, l.Invalid());
    hide Inv, LiveMap, Unpack, StableVector.Emplace, NewId;
    forall x: nat
      ensures x in keys + {l.Pack(w)} <==> Unpack(l, x) in LiveMap(v) || Unpack(l, x) == w
    {
      PackUnpack(l, x);
    }
  }

  lemma NewIdFits<V>(l: Layout, v: State<V>)
    requires l.Valid() && Inv(ConfigOf(l), v) && CanEmplace(ConfigOf(l), v)
    requires NewId(ConfigOf(l), v).index < l.Invalid()
    ensures l.Fits(NewId(ConfigOf(l), v))
  {
  }

  /** Erasing an id takes exactly it out of the map. */
  lemma EraseBacks<V>(l: Layout, v: State<V>, keys: set<nat>, id: nat)
    requires Backs(l, v, keys) && id in keys
    ensures CanErase(ConfigOf(l), v, Unpack(l, id))
    ensures Backs(l, StableVector.Erase(ConfigOf(l), v, Unpack(l, id)), keys - {id})
  {
    StableVectorClass.EraseLaws(ConfigOf(l), v, Unpack(l, id));
    hide Inv, LiveMap, Unpack, StableVector.Erase;
    forall x: nat
      ensures x in keys - {id} <==> Unpack(l, x) in LiveMap(v) && Unpack(l, x) != Unpack(l, id)
    {
      PackUnpack(l, x);
      PackUnpack(l, id);
    }
  }

  /** The vector's validity test is membership in the map. */
  lemma ValidIffRegistered<V>(l: Layout, v: State<V>, keys: set<nat>, id: nat)
    requires Backs(l, v, keys)
    ensures IsValidId(v, Unpack(l, id)) <==> id in keys
  {
    ValidIffLive(ConfigOf(l), v, Unpack(l, id));
  }

  // ---- the executor's two vectors ----

  const TASKS := Layout(12, 20)
  const RECORDS := Layout(14, 18)

  lemma InvalidIds()
    ensures TASKS.Valid() && TASKS.Invalid() == Executor.INVALID_TASK
    ensures RECORDS.Valid() && RECORDS.Invalid() == Executor.INVALID_DEPENDENT
  {
    assert Bits.Pow2(4) == 16;
    assert Bits.Pow2(8) == 16 * Bits.Pow2(4);
    assert Bits.Pow2(12) == 16 * Bits.Pow2(8);
  }

  /** The id that the task vector grants is one the executor can add a task under, unless
      a dependency is named by that very id: one whose tag has gone round since. */
  lemma NewTaskCanBeAdded<V>(
    s: Executor.State, v: State<V>, e: V, affinity: nat,
    dependsOn: seq<Executor.TaskId>, records: seq<Executor.DependentId>)
    requires Backs(TASKS, v, s.tasks.Keys) && Executor.ValidAffinity(affinity)
    requires !Empty(ConfigOf(TASKS), v.links) || |v.links.words| < TASKS.Invalid()
    requires |s.dependents| + Executor.CountValid(s, dependsOn, |dependsOn|) <= Executor.MAX_DEPENDENTS
    ensures CanEmplace(ConfigOf(TASKS), v)
    ensures var id := TASKS.Pack(NewId(ConfigOf(TASKS), v));
      Executor.FreshRecords(s, id, dependsOn, records) ==>
        (Executor.CanAdd(s, id, affinity, dependsOn, records) <==> id !in dependsOn)
  {
    InvalidIds();
    EmplaceBacks(TASKS, v, s.tasks.Keys, e);
    hide Backs, NewId;
  }
}
