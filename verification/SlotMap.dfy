/** The lock-free slot map as a transition system. Any number of threads run
    `emplace`, `erase` and `move_from`; each step below is one access to a shared
    word, and the scheduler picks the next thread freely.

    A word carries an unbounded version in its tag, of which the program stores
    only the residue modulo the number of tags: two words compare equal in a
    compare-and-swap when their indices agree and their versions agree modulo
    `tags`. The class in SlotMapClass.dfy ties this to the packed words. */
module SlotMap {
  import opened Basics
  import opened PackedIds

  type ThreadId = nat

  datatype Config = Config(capacity: nat, tags: nat) {
    ghost predicate Valid() {
      capacity > 0 && tags > 0
    }

    /** The index that ends the free list. */
    function Invalid(): nat {
      capacity
    }
  }

  /** What a finished call reports. `W` is the type of a shared word. */
  datatype Outcome<V, W> =
    | Full                          // emplace: no free slot
    | Emplaced(id: W)
    | Missed                        // erase, move_from: the id was stale
    | Erased(id: W)
    | Moved(id: W, value: V)

  /** The program counter of a thread, with its local variables. Each names the
      shared access the thread performs next. */
  datatype Pc<V, W> =
    | Idle
    | LoadHead(value: V)
    | LoadNext(value: V, mirror: W)
    | PopCas(value: V, mirror: W, next: nat)
    | MarkLoad(value: V, slot: nat)
    | MarkStore(value: V, slot: nat, word: W)
    | Construct(value: V, slot: nat)
    | LoadId(value: V, slot: nat)
    | LockCas(id: W, take: bool)
    | Destroy(slot: nat, id: W, take: bool)
    | LoadLocked(slot: nat, outcome: Outcome<V, W>)
    | ReloadHead(slot: nat, released: W, outcome: Outcome<V, W>)
    | StoreLink(slot: nat, released: W, mirror: W, outcome: Outcome<V, W>)
    | PushCas(slot: nat, released: W, mirror: W, outcome: Outcome<V, W>)
    | Finished(outcome: Outcome<V, W>)

  /** `issued` is a history variable: every id ever returned by `emplace`, with the
      element constructed for it. */
  datatype State<V> = State(
    head: Word,
    slots: seq<Word>,
    payload: seq<Option<V>>,
    threads: map<ThreadId, Pc<V, Word>>,
    issued: map<Word, V>)
  {
    function At(t: ThreadId): Pc<V, Word> {
      if t in threads then threads[t] else Idle
    }

    function Goto(t: ThreadId, pc: Pc<V, Word>): State<V> {
      this.(threads := threads[t := pc])
    }
  }

  /** What a compare-and-swap on packed words observes. */
  predicate SameWord(c: Config, a: Word, b: Word)
    requires c.tags > 0
  {
    a.index == b.index && a.tag % c.tags == b.tag % c.tags
  }

  // ---- the steps ----

  function BeginEmplace<V>(s: State<V>, t: ThreadId, v: V): State<V> {
    s.Goto(t, LoadHead(v))
  }

  function BeginErase<V>(s: State<V>, t: ThreadId, id: Word, take: bool): State<V> {
    s.Goto(t, LockCas(id, take))
  }

  function DoLoadHead<V>(c: Config, s: State<V>, t: ThreadId): State<V>
    requires s.At(t).LoadHead?
  {
    if s.head.index == c.Invalid() then s.Goto(t, Finished(Full))
    else s.Goto(t, LoadNext(s.At(t).value, s.head))
  }

  function DoLoadNext<V>(c: Config, s: State<V>, t: ThreadId): State<V>
    requires s.At(t).LoadNext? && s.At(t).mirror.index < |s.slots|
  {
    var pc := s.At(t);
    s.Goto(t, PopCas(pc.value, pc.mirror, s.slots[pc.mirror.index].index))
  }

  /** The weak compare-and-swap may fail for no reason (`fails`). */
  function DoPopCas<V>(c: Config, s: State<V>, t: ThreadId, fails: bool): State<V>
    requires c.Valid() && s.At(t).PopCas?
  {
    var pc := s.At(t);
    if !fails && SameWord(c, s.head, pc.mirror) then
      s.(head := Word(s.head.tag + 1, pc.next)).Goto(t, MarkLoad(pc.value, pc.mirror.index))
    else
      s.Goto(t, LoadHead(pc.value))
  }

  function DoMarkLoad<V>(c: Config, s: State<V>, t: ThreadId): State<V>
    requires s.At(t).MarkLoad? && s.At(t).slot < |s.slots|
  {
    var pc := s.At(t);
    s.Goto(t, MarkStore(pc.value, pc.slot, s.slots[pc.slot]))
  }

  function DoMarkStore<V>(c: Config, s: State<V>, t: ThreadId): State<V>
    requires s.At(t).MarkStore? && s.At(t).slot < |s.slots|
  {
    var pc := s.At(t);
    s.(slots := s.slots[pc.slot := Word(pc.word.tag, pc.slot)])
     .Goto(t, Construct(pc.value, pc.slot))
  }

  function DoConstruct<V>(c: Config, s: State<V>, t: ThreadId): State<V>
    requires s.At(t).Construct? && s.At(t).slot < |s.payload|
  {
    var pc := s.At(t);
    s.(payload := s.payload[pc.slot := Some(pc.value)]).Goto(t, LoadId(pc.value, pc.slot))
  }

  function DoLoadId<V>(c: Config, s: State<V>, t: ThreadId): State<V>
    requires s.At(t).LoadId? && s.At(t).slot < |s.slots|
  {
    var pc := s.At(t);
    var id := s.slots[pc.slot];
    s.(issued := s.issued[id := pc.value]).Goto(t, Finished(Emplaced(id)))
  }

  function DoLockCas<V>(c: Config, s: State<V>, t: ThreadId): State<V>
    requires c.Valid() && s.At(t).LockCas? && s.At(t).id.index < |s.slots|
  {
    var pc := s.At(t);
    var i := pc.id.index;
    if SameWord(c, s.slots[i], pc.id) then
      s.(slots := s.slots[i := Word(s.slots[i].tag + 1, i)]).Goto(t, Destroy(i, pc.id, pc.take))
    else
      s.Goto(t, Finished(Missed))
  }

  /** `move_from` takes the element out before destroying it. */
  function DoDestroy<V>(c: Config, s: State<V>, t: ThreadId): State<V>
    requires s.At(t).Destroy? && s.At(t).slot < |s.payload| && s.payload[s.At(t).slot].Some?
  {
    var pc := s.At(t);
    var outcome := if pc.take then Moved(pc.id, s.payload[pc.slot].value) else Erased(pc.id);
    s.(payload := s.payload[pc.slot := None]).Goto(t, LoadLocked(pc.slot, outcome))
  }

  function DoLoadLocked<V>(c: Config, s: State<V>, t: ThreadId): State<V>
    requires s.At(t).LoadLocked? && s.At(t).slot < |s.slots|
  {
    var pc := s.At(t);
    s.Goto(t, ReloadHead(pc.slot, s.slots[pc.slot], pc.outcome))
  }

  function DoReloadHead<V>(c: Config, s: State<V>, t: ThreadId): State<V>
    requires s.At(t).ReloadHead?
  {
    var pc := s.At(t);
    s.Goto(t, StoreLink(pc.slot, pc.released, s.head, pc.outcome))
  }

  function DoStoreLink<V>(c: Config, s: State<V>, t: ThreadId): State<V>
    requires s.At(t).StoreLink? && s.At(t).slot < |s.slots|
  {
    var pc := s.At(t);
    s.(slots := s.slots[pc.slot := Word(pc.released.tag, pc.mirror.index)])
     .Goto(t, PushCas(pc.slot, pc.released, pc.mirror, pc.outcome))
  }

  function DoPushCas<V>(c: Config, s: State<V>, t: ThreadId, fails: bool): State<V>
    requires c.Valid() && s.At(t).PushCas?
  {
    var pc := s.At(t);
    if !fails && SameWord(c, s.head, pc.mirror) then
      s.(head := Word(s.head.tag + 1, pc.released.index)).Goto(t, Finished(pc.outcome))
    else
      s.Goto(t, ReloadHead(pc.slot, pc.released, pc.outcome))
  }

  /** What the scheduler may do next. A call names only ids that were issued. */
  datatype Action<V> =
    | Emplace(t: ThreadId, value: V)
    | Erase(t: ThreadId, id: Word, take: bool)
    | Step(t: ThreadId, fails: bool)
    | Return(t: ThreadId)

  /** The bounds under which every local index is an array index; part of the
      invariant below. */
  predicate Bounded<V>(c: Config, s: State<V>, pc: Pc<V, Word>) {
    |s.slots| == c.capacity && |s.payload| == c.capacity &&
    match pc
    case LoadNext(_, mirror) => mirror.index < c.capacity
    case PopCas(_, mirror, next) => mirror.index < c.capacity
    case MarkLoad(_, slot) => slot < c.capacity
    case MarkStore(_, slot, _) => slot < c.capacity
    case Construct(_, slot) => slot < c.capacity
    case LoadId(_, slot) => slot < c.capacity
    case LockCas(id, _) => id.index < c.capacity
    case Destroy(slot, _, _) => slot < c.capacity && s.payload[slot].Some?
    case LoadLocked(slot, _) => slot < c.capacity
    case StoreLink(slot, _, _, _) => slot < c.capacity
    case _ => true
  }

  predicate Enabled<V>(c: Config, s: State<V>, a: Action<V>) {
    match a
    case Emplace(t, _) => s.At(t).Idle?
    case Erase(t, id, _) => s.At(t).Idle? && id in s.issued
    case Step(t, _) => !s.At(t).Idle? && !s.At(t).Finished? && Bounded(c, s, s.At(t))
    case Return(t) => s.At(t).Finished?
  }

  function Next<V>(c: Config, s: State<V>, a: Action<V>): State<V>
    requires c.Valid() && Enabled(c, s, a)
  {
    match a
    case Emplace(t, v) => BeginEmplace(s, t, v)
    case Erase(t, id, take) => BeginErase(s, t, id, take)
    case Return(t) => s.Goto(t, Idle)
    case Step(t, fails) =>
      match s.At(t)
      case LoadHead(_) => DoLoadHead(c, s, t)
      case LoadNext(_, _) => DoLoadNext(c, s, t)
      case PopCas(_, _, _) => DoPopCas(c, s, t, fails)
      case MarkLoad(_, _) => DoMarkLoad(c, s, t)
      case MarkStore(_, _, _) => DoMarkStore(c, s, t)
      case Construct(_, _) => DoConstruct(c, s, t)
      case LoadId(_, _) => DoLoadId(c, s, t)
      case LockCas(_, _) => DoLockCas(c, s, t)
      case Destroy(_, _, _) => DoDestroy(c, s, t)
      case LoadLocked(_, _) => DoLoadLocked(c, s, t)
      case ReloadHead(_, _, _) => DoReloadHead(c, s, t)
      case StoreLink(_, _, _, _) => DoStoreLink(c, s, t)
      case PushCas(_, _, _, _) => DoPushCas(c, s, t, fails)
  }

  /** A fresh map: slot i links to i + 1, with any tags; the head is slot 0. */
  ghost predicate Init<V>(c: Config, s: State<V>) {
    && c.Valid()
    && |s.slots| == |s.payload| == c.capacity
    && s.head.index == 0
    && (forall i :: 0 <= i < c.capacity ==> s.slots[i].index == i + 1)
    && (forall i :: 0 <= i < c.capacity ==> s.payload[i] == None)
    && s.threads == map[] && s.issued == map[]
  }
}
