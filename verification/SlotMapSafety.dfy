/** What every interleaving of the slot map keeps. */
module SlotMapSafety {
  import opened Basics
  import opened PackedIds
  import opened SlotMap

  // ---- the invariant ----

  /** `free` is the list that starts at the head and is linked through the slots. */
  ghost predicate FreeList<V>(c: Config, s: State<V>, free: seq<nat>)
    requires |s.slots| == |s.payload| == c.capacity
  {
    && s.head.index == Following(c.Invalid(), free, 0)
    && (forall k :: 0 <= k < |free| ==>
          free[k] < c.capacity
          && s.slots[free[k]].index == Following(c.Invalid(), free, k + 1)
          && s.payload[free[k]] == None)
    && Distinct(free)
  }

  /** The slot a thread is moving between the free list and the live slots. */
  function Held<V, W>(pc: Pc<V, W>): Option<nat> {
    match pc
    case MarkLoad(_, slot) => Some(slot)
    case MarkStore(_, slot, _) => Some(slot)
    case Construct(_, slot) => Some(slot)
    case LoadId(_, slot) => Some(slot)
    case Destroy(slot, _, _) => Some(slot)
    case LoadLocked(slot, _) => Some(slot)
    case ReloadHead(slot, _, _) => Some(slot)
    case StoreLink(slot, _, _, _) => Some(slot)
    case PushCas(slot, _, _, _) => Some(slot)
    case _ => None
  }

  ghost predicate Holds<V>(s: State<V>, t: ThreadId, i: nat) {
    Held(s.At(t)) == Some(i)
  }

  ghost predicate Exclusive<V>(s: State<V>) {
    forall t, u, i :: Holds(s, t, i) && Holds(s, u, i) ==> t == u
  }

  ghost predicate HeldNotFree<V>(s: State<V>, free: seq<nat>) {
    forall t, i :: Holds(s, t, i) ==> i !in free
  }

  /** A live slot carries the id it was issued under and that id's element. */
  ghost predicate Live<V>(s: State<V>, i: nat)
    requires i < |s.slots| == |s.payload|
  {
    && s.slots[i].index == i
    && s.slots[i] in s.issued
    && s.payload[i] == Some(s.issued[s.slots[i]])
  }

  /** Nothing else is live. */
  ghost predicate Unclaimed<V>(s: State<V>, free: seq<nat>, i: nat) {
    i !in free && forall t :: !Holds(s, t, i)
  }

  ghost predicate RestLive<V>(c: Config, s: State<V>, free: seq<nat>)
    requires |s.slots| == |s.payload| == c.capacity
  {
    forall i :: 0 <= i < c.capacity && Unclaimed(s, free, i) ==> Live(s, i)
  }

  /** An issued id is older than its slot's word, unless the slot is live. */
  ghost predicate Issued<V>(c: Config, s: State<V>, free: seq<nat>)
    requires |s.slots| == c.capacity
  {
    forall id :: id in s.issued ==>
      && id.index < c.capacity
      && id.tag <= s.slots[id.index].tag
      && (id.tag == s.slots[id.index].tag ==> Unclaimed(s, free, id.index))
  }

  ghost predicate Reported<V>(s: State<V>, o: Outcome<V, Word>) {
    match o
    case Emplaced(id) => id in s.issued
    case Erased(id) => id in s.issued
    case Moved(id, v) => id in s.issued && s.issued[id] == v
    case _ => true
  }

  /** The report of a call that has taken its element away. */
  predicate Removal<V, W>(o: Outcome<V, W>) {
    o.Erased? || o.Moved?
  }

  /** A mirror of the head that still has the head's version is the head. */
  ghost predicate Mirrors(head: Word, mirror: Word) {
    mirror.tag <= head.tag && (mirror.tag == head.tag ==> mirror == head)
  }

  ghost predicate LocalsOk<V>(c: Config, s: State<V>, pc: Pc<V, Word>)
    requires |s.slots| == |s.payload| == c.capacity
  {
    match pc
    case Idle => true
    case LoadHead(_) => true
    case LoadNext(_, mirror) => mirror.index < c.capacity && Mirrors(s.head, mirror)
    case PopCas(_, mirror, next) =>
      && mirror.index < c.capacity && Mirrors(s.head, mirror)
      && (mirror == s.head ==> next == s.slots[mirror.index].index)
    case MarkLoad(_, i) => i < c.capacity && s.payload[i] == None && s.slots[i].index != i
    case MarkStore(_, i, word) =>
      i < c.capacity && s.payload[i] == None && s.slots[i].index != i && word == s.slots[i]
    case Construct(_, i) => i < c.capacity && s.payload[i] == None && s.slots[i].index == i
    case LoadId(v, i) => i < c.capacity && s.payload[i] == Some(v) && s.slots[i].index == i
    case LockCas(id, _) => id in s.issued && id.index < c.capacity
    case Destroy(i, id, _) =>
      && i < c.capacity && s.slots[i].index == i
      && id in s.issued && id.index == i && s.payload[i] == Some(s.issued[id])
    case LoadLocked(i, o) =>
      i < c.capacity && s.payload[i] == None && s.slots[i].index == i && Reported(s, o) && Removal(o)
    case ReloadHead(i, released, o) =>
      && i < c.capacity && s.payload[i] == None && released == Word(s.slots[i].tag, i)
      && Reported(s, o) && Removal(o)
    case StoreLink(i, released, mirror, o) =>
      && i < c.capacity && s.payload[i] == None && released == Word(s.slots[i].tag, i)
      && mirror.index != i && Reported(s, o) && Removal(o)
    case PushCas(i, released, mirror, o) =>
      && i < c.capacity && s.payload[i] == None && mirror.index != i
      && released == Word(s.slots[i].tag, i) && s.slots[i].index == mirror.index
      && Reported(s, o) && Removal(o)
    case Finished(o) => Reported(s, o)
  }

  ghost predicate AllLocalsOk<V>(c: Config, s: State<V>)
    requires |s.slots| == |s.payload| == c.capacity
  {
    forall t :: LocalsOk(c, s, s.At(t))
  }

  ghost predicate InvWith<V>(c: Config, s: State<V>, free: seq<nat>) {
    && c.Valid()
    && |s.slots| == |s.payload| == c.capacity
    && FreeList(c, s, free)
    && Exclusive(s)
    && HeldNotFree(s, free)
    && RestLive(c, s, free)
    && Issued(c, s, free)
    && AllLocalsOk(c, s)
  }

  ghost predicate Inv<V>(c: Config, s: State<V>) {
    exists free :: InvWith(c, s, free)
  }

  /** A pop whose mirror is fewer than `tags` head updates old, and an erase whose
      id is fewer than `tags` reuses of its slot old. Returning a slot to the free
      list needs no such bound. */
  ghost predicate Timely<V>(c: Config, s: State<V>, a: Action<V>) {
    a.Step? ==>
      match s.At(a.t)
      case PopCas(_, mirror, _) => s.head.tag < mirror.tag + c.tags
      case LockCas(id, _) => id.index < |s.slots| && s.slots[id.index].tag < id.tag + c.tags
      case _ => true
  }

  // ---- the initial state ----

  lemma InitInv<V>(c: Config, s: State<V>)
    requires Init(c, s)
    ensures InvWith(c, s, seq(c.capacity, i => i))
  {
    var free := seq(c.capacity, i => i);
    assert FreeList(c, s, free);
    hide FreeList;
    forall i: nat | i < c.capacity
      ensures i in free
    {
      assert free[i] == i;
    }
    assert forall t :: s.At(t) == Idle;
    assert forall t, i :: !Holds(s, t, i);
    assert AllLocalsOk(c, s);
    hide Holds, LocalsOk, AllLocalsOk;
  }

  lemma InitIsInv<V>(c: Config, s: State<V>)
    requires Init(c, s)
    ensures Inv(c, s)
  {
    InitInv(c, s);
    hide InvWith, Init;
  }

  // ---- preservation ----

  /** Threads that took no part keep their local facts when the step leaves their
      slots, the issued ids and the version order of the head alone. */
  lemma OthersOk<V>(c: Config, s: State<V>, s': State<V>, t: ThreadId)
    requires |s.slots| == |s.payload| == |s'.slots| == |s'.payload| == c.capacity
    requires AllLocalsOk(c, s)
    requires forall u :: u != t ==> s'.At(u) == s.At(u)
    requires forall u, i: nat :: u != t && Holds(s, u, i) && i < c.capacity ==>
               s'.slots[i] == s.slots[i] && s'.payload[i] == s.payload[i]
    requires s'.head == s.head || s'.head.tag > s.head.tag
    requires s'.head == s.head && s.head.index < c.capacity ==>
               s'.slots[s.head.index] == s.slots[s.head.index]
    requires forall id :: id in s.issued ==> id in s'.issued && s'.issued[id] == s.issued[id]
    ensures forall u :: u != t ==> LocalsOk(c, s', s'.At(u))
  {
    forall u | u != t
      ensures LocalsOk(c, s', s'.At(u))
    {
      var pc := s.At(u);
      assert LocalsOk(c, s, pc);
      if Held(pc).Some? {
        assert Holds(s, u, Held(pc).value);
      }
    }
  }

  /** The list stays while its slots and the head do. */
  lemma FreeListFrame<V>(c: Config, s: State<V>, free: seq<nat>, s': State<V>, i: nat)
    requires |s.slots| == |s.payload| == c.capacity && i < c.capacity && i !in free
    requires FreeList(c, s, free) && s'.head == s.head && |s'.slots| == |s'.payload| == c.capacity
    requires s'.slots == s.slots[i := s'.slots[i]] && s'.payload == s.payload[i := s'.payload[i]]
    ensures FreeList(c, s', free)
    ensures s.head.index < c.capacity ==> s.head.index != i
  {
    assert s.head.index < c.capacity ==> s.head.index == free[0];
    forall k | 0 <= k < |free|
      ensures free[k] != i
    {
      assert free[k] in free;
    }
  }

  lemma QuietStep<V>(c: Config, s: State<V>, free: seq<nat>, s': State<V>, t: ThreadId, pc: Pc<V, Word>)
    requires InvWith(c, s, free)
    requires s' == s.Goto(t, pc)
    requires Held(pc) == Held(s.At(t))
    requires LocalsOk(c, s, pc)
    ensures InvWith(c, s', free)
  {
    forall u
      ensures s'.At(u) == if u == t then pc else s.At(u)
    {}
    forall u, i
      ensures Holds(s', u, i) == Holds(s, u, i)
    {}
    OthersOk(c, s, s', t);
    forall i: nat
      ensures Unclaimed(s', free, i) == Unclaimed(s, free, i)
    {}
  }

  lemma LoadHeadInv<V>(c: Config, s: State<V>, free: seq<nat>, t: ThreadId)
    requires InvWith(c, s, free) && s.At(t).LoadHead?
    ensures InvWith(c, DoLoadHead(c, s, t), free)
  {
    var s' := DoLoadHead(c, s, t);
    QuietStep(c, s, free, s', t, s'.At(t));
  }

  lemma LoadNextInv<V>(c: Config, s: State<V>, free: seq<nat>, t: ThreadId)
    requires InvWith(c, s, free) && s.At(t).LoadNext?
    ensures s.At(t).mirror.index < |s.slots| && InvWith(c, DoLoadNext(c, s, t), free)
  {
    assert LocalsOk(c, s, s.At(t));
    var s' := DoLoadNext(c, s, t);
    QuietStep(c, s, free, s', t, s'.At(t));
  }

  lemma ModuloGap(a: nat, b: nat, n: nat)
    requires n > 0 && a <= b < a + n && a % n == b % n
    ensures a == b
  {
    var q, r := a / n, b / n;
    assert b - a == (r - q) * n;
    Bits.MultipleGap(r - q, n);
  }

  /** A timely successful pop saw the true head and the true second free slot. */
  lemma PopSeesHead<V>(c: Config, s: State<V>, free: seq<nat>, t: ThreadId)
    requires InvWith(c, s, free) && s.At(t).PopCas?
    requires SameWord(c, s.head, s.At(t).mirror)
    requires Timely(c, s, Step(t, false))
    ensures s.head == s.At(t).mirror
    ensures |free| > 0 && free[0] == s.head.index
    ensures s.At(t).next == Following(c.Invalid(), free, 1)
  {
    var pc := s.At(t);
    assert LocalsOk(c, s, pc);
    ModuloGap(pc.mirror.tag, s.head.tag, c.tags);
  }

  lemma PopCasInv<V>(c: Config, s: State<V>, free: seq<nat>, t: ThreadId, fails: bool)
    requires InvWith(c, s, free) && s.At(t).PopCas? && Timely(c, s, Step(t, fails))
    ensures InvWith(c, DoPopCas(c, s, t, fails),
                    if !fails && SameWord(c, s.head, s.At(t).mirror) && |free| > 0 then free[1..] else free)
  {
    var s' := DoPopCas(c, s, t, fails);
    if !fails && SameWord(c, s.head, s.At(t).mirror) {
      PopSeesHead(c, s, free, t);
      PopInv(c, s, free, s', t);
    } else {
      QuietStep(c, s, free, s', t, s'.At(t));
    }
  }

  lemma PopInv<V>(c: Config, s: State<V>, free: seq<nat>, s': State<V>, t: ThreadId)
    requires InvWith(c, s, free) && s.At(t).PopCas?
    requires SameWord(c, s.head, s.At(t).mirror) && s' == DoPopCas(c, s, t, false)
    requires |free| > 0 && s.At(t).next == Following(c.Invalid(), free, 1)
    ensures InvWith(c, s', free[1..])
  {
    var i, rest := free[0], free[1..];
    PopFreeList(c, s, free, s', t);
    PopIssued(c, s, free, s', t);
    assert LocalsOk(c, s', s'.At(t));
    hide FreeList, Issued, DoPopCas, SameWord;
    forall u, j
      ensures Holds(s', u, j) <==> (Holds(s, u, j) || (u == t && j == i))
    {}
    assert free == [i] + rest;
    OthersOk(c, s, s', t);
    forall j: nat | Unclaimed(s', rest, j)
      ensures j != i && Unclaimed(s, free, j)
    {
      assert !Holds(s', t, j);
    }
    forall j: nat | j < c.capacity && Unclaimed(s', rest, j)
      ensures Live(s', j)
    {
      assert Live(s, j);
    }
  }

  lemma PopFreeList<V>(c: Config, s: State<V>, free: seq<nat>, s': State<V>, t: ThreadId)
    requires InvWith(c, s, free) && s.At(t).PopCas?
    requires SameWord(c, s.head, s.At(t).mirror) && s' == DoPopCas(c, s, t, false)
    requires |free| > 0 && s.At(t).next == Following(c.Invalid(), free, 1)
    ensures FreeList(c, s', free[1..]) && free[0] !in free[1..] && free[0] == s.At(t).mirror.index < c.capacity
    ensures s.payload[free[0]] == None && s.slots[free[0]].index != free[0]
  {
    var rest := free[1..];
    forall k | 0 <= k < |rest|
      ensures rest[k] < c.capacity && s'.slots[rest[k]].index == Following(c.Invalid(), rest, k + 1)
              && s'.payload[rest[k]] == None
    {
      assert rest[k] == free[k + 1];
    }
    assert free[0] != Following(c.Invalid(), free, 1);
  }

  lemma PopIssued<V>(c: Config, s: State<V>, free: seq<nat>, s': State<V>, t: ThreadId)
    requires InvWith(c, s, free) && s.At(t).PopCas?
    requires SameWord(c, s.head, s.At(t).mirror) && s' == DoPopCas(c, s, t, false)
    requires |free| > 0 && free[0] == s.At(t).mirror.index
    ensures Issued(c, s', free[1..])
  {
    forall id | id in s'.issued && id.tag == s'.slots[id.index].tag
      ensures Unclaimed(s', free[1..], id.index)
    {
      assert Unclaimed(s, free, id.index) && free[0] in free;
      forall u
        ensures !Holds(s', u, id.index)
      {
        assert !Holds(s, u, id.index);
      }
    }
  }

  /** A thread may change the slot it holds, as long as the slot's tag stays. */
  lemma HeldWrite<V>(c: Config, s: State<V>, free: seq<nat>, s': State<V>, t: ThreadId, i: nat)
    requires InvWith(c, s, free)
    requires i < c.capacity && Holds(s, t, i) && Holds(s', t, i)
    requires |s'.slots| == |s'.payload| == c.capacity
    requires s' == s.(slots := s.slots[i := s'.slots[i]], payload := s.payload[i := s'.payload[i]],
                      threads := s.threads[t := s'.At(t)])
    requires s'.slots[i].tag == s.slots[i].tag
    requires LocalsOk(c, s', s'.At(t))
    ensures InvWith(c, s', free)
  {
    assert i !in free;
    FreeListFrame(c, s, free, s', i);
    hide FreeList;
    forall u, j
      ensures Holds(s', u, j) == Holds(s, u, j)
    {}
    forall u, j: nat | u != t && Holds(s, u, j) && j < c.capacity
      ensures s'.slots[j] == s.slots[j] && s'.payload[j] == s.payload[j]
    {
      assert j != i;
    }
    OthersOk(c, s, s', t);
    forall j: nat
      ensures Unclaimed(s', free, j) == Unclaimed(s, free, j)
    {}
    forall j: nat | j < c.capacity && Unclaimed(s', free, j)
      ensures Live(s', j)
    {
      assert j != i;
      assert Live(s, j);
    }
  }

  lemma MarkLoadInv<V>(c: Config, s: State<V>, free: seq<nat>, t: ThreadId)
    requires InvWith(c, s, free) && s.At(t).MarkLoad?
    ensures s.At(t).slot < |s.slots| && InvWith(c, DoMarkLoad(c, s, t), free)
  {
    assert LocalsOk(c, s, s.At(t));
    var s' := DoMarkLoad(c, s, t);
    QuietStep(c, s, free, s', t, s'.At(t));
  }

  lemma MarkStoreInv<V>(c: Config, s: State<V>, free: seq<nat>, t: ThreadId)
    requires InvWith(c, s, free) && s.At(t).MarkStore?
    ensures s.At(t).slot < |s.slots| && InvWith(c, DoMarkStore(c, s, t), free)
  {
    assert LocalsOk(c, s, s.At(t));
    var i := s.At(t).slot;
    var s' := DoMarkStore(c, s, t);
    assert s.payload == s.payload[i := s'.payload[i]];
    HeldWrite(c, s, free, s', t, i);
  }

  lemma ConstructInv<V>(c: Config, s: State<V>, free: seq<nat>, t: ThreadId)
    requires InvWith(c, s, free) && s.At(t).Construct?
    ensures s.At(t).slot < |s.payload| && s.payload[s.At(t).slot] == None
    ensures InvWith(c, DoConstruct(c, s, t), free)
  {
    assert LocalsOk(c, s, s.At(t));
    var i := s.At(t).slot;
    var s' := DoConstruct(c, s, t);
    assert s.slots == s.slots[i := s'.slots[i]];
    HeldWrite(c, s, free, s', t, i);
  }

  /** `emplace` returns an id that was never returned before. */
  lemma LoadIdInv<V>(c: Config, s: State<V>, free: seq<nat>, t: ThreadId)
    requires InvWith(c, s, free) && s.At(t).LoadId?
    ensures s.At(t).slot < |s.slots| && s.slots[s.At(t).slot] !in s.issued
    ensures InvWith(c, DoLoadId(c, s, t), free)
  {
    assert LocalsOk(c, s, s.At(t));
    var i := s.At(t).slot;
    var id := s.slots[i];
    assert Holds(s, t, i);
    assert !Unclaimed(s, free, i);
    var s' := DoLoadId(c, s, t);
    forall u, j: nat
      ensures Holds(s', u, j) <==> (Holds(s, u, j) && u != t)
    {}
    OthersOk(c, s, s', t);
    assert LocalsOk(c, s', s'.At(t));
    forall j: nat
      ensures Unclaimed(s', free, j) <==> (Unclaimed(s, free, j) || j == i)
    {
      if j == i {
        forall u
          ensures !Holds(s', u, j)
        {
          assert Holds(s, u, j) ==> u == t;
        }
      }
      if Unclaimed(s', free, j) && j != i {
        assert !Holds(s, t, j);
        assert forall u :: u != t ==> !Holds(s', u, j) && Holds(s, u, j) == Holds(s', u, j);
      }
    }
    forall j: nat | j < c.capacity && Unclaimed(s', free, j)
      ensures Live(s', j)
    {
      assert j != i ==> Live(s, j);
    }
  }

  /** A timely successful lock found its own id in a live slot. */
  lemma LockFindsLive<V>(c: Config, s: State<V>, free: seq<nat>, t: ThreadId)
    requires InvWith(c, s, free) && s.At(t).LockCas?
    requires Timely(c, s, Step(t, false))
    ensures var id := s.At(t).id;
            && id.index < c.capacity && id in s.issued
            && (SameWord(c, s.slots[id.index], id) <==> s.slots[id.index] == id)
            && (s.slots[id.index] == id ==> Unclaimed(s, free, id.index) && Live(s, id.index))
  {
    var id := s.At(t).id;
    assert LocalsOk(c, s, s.At(t));
    if SameWord(c, s.slots[id.index], id) {
      ModuloGap(id.tag, s.slots[id.index].tag, c.tags);
    }
  }

  /** Exactly when a successful lock found its own id: the tags cannot tell a word from
      one that is a multiple of their number of reuses older. */
  lemma LockOwnIffTimely<V>(c: Config, s: State<V>, free: seq<nat>, t: ThreadId)
    requires InvWith(c, s, free) && s.At(t).LockCas?
    ensures s.At(t).id.index < |s.slots|
    ensures SameWord(c, s.slots[s.At(t).id.index], s.At(t).id) ==>
              (s.slots[s.At(t).id.index] == s.At(t).id <==> Timely(c, s, Step(t, false)))
  {
    assert LocalsOk(c, s, s.At(t));
    if Timely(c, s, Step(t, false)) {
      LockFindsLive(c, s, free, t);
    }
  }

  lemma LockCasInv<V>(c: Config, s: State<V>, free: seq<nat>, t: ThreadId)
    requires InvWith(c, s, free) && s.At(t).LockCas? && Timely(c, s, Step(t, false))
    ensures s.At(t).id.index < |s.slots| && InvWith(c, DoLockCas(c, s, t), free)
  {
    LockFindsLive(c, s, free, t);
    var s' := DoLockCas(c, s, t);
    if s.slots[s.At(t).id.index] == s.At(t).id {
      LockInv(c, s, free, s', t);
    } else {
      QuietStep(c, s, free, s', t, s'.At(t));
    }
  }

  lemma LockInv<V>(c: Config, s: State<V>, free: seq<nat>, s': State<V>, t: ThreadId)
    requires InvWith(c, s, free) && s.At(t).LockCas?
    requires s.At(t).id.index < c.capacity
    requires s.slots[s.At(t).id.index] == s.At(t).id
    requires Unclaimed(s, free, s.At(t).id.index) && Live(s, s.At(t).id.index)
    requires s' == DoLockCas(c, s, t)
    ensures InvWith(c, s', free)
  {
    var i := s.At(t).id.index;
    assert s'.slots == s.slots[i := s'.slots[i]] && s'.payload == s.payload[i := s'.payload[i]];
    FreeListFrame(c, s, free, s', i);
    LockIssued(c, s, free, s', t);
    hide FreeList, Issued;
    forall u, j: nat
      ensures Holds(s', u, j) <==> (Holds(s, u, j) || (u == t && j == i))
    {}
    OthersOk(c, s, s', t);
    forall j: nat | Unclaimed(s', free, j)
      ensures j != i && Unclaimed(s, free, j)
    {
      assert !Holds(s', t, j);
    }
    assert RestLive(c, s', free) by {
      forall j: nat | j < c.capacity && Unclaimed(s', free, j)
        ensures Live(s', j)
      {
        assert Live(s, j);
      }
    }
  }

  lemma LockIssued<V>(c: Config, s: State<V>, free: seq<nat>, s': State<V>, t: ThreadId)
    requires InvWith(c, s, free) && s.At(t).LockCas?
    requires s.At(t).id.index < c.capacity
    requires s.slots[s.At(t).id.index] == s.At(t).id
    requires s' == DoLockCas(c, s, t)
    ensures Issued(c, s', free)
  {
    var i := s.At(t).id.index;
    forall id | id in s'.issued && id.tag == s'.slots[id.index].tag
      ensures Unclaimed(s', free, id.index)
    {
      assert id.index != i;
      assert Unclaimed(s, free, id.index);
      forall u
        ensures !Holds(s', u, id.index)
      {
        assert !Holds(s, u, id.index);
      }
    }
  }

  lemma DestroyInv<V>(c: Config, s: State<V>, free: seq<nat>, t: ThreadId)
    requires InvWith(c, s, free) && s.At(t).Destroy?
    ensures s.At(t).slot < |s.payload| && s.payload[s.At(t).slot].Some?
    ensures InvWith(c, DoDestroy(c, s, t), free)
  {
    assert LocalsOk(c, s, s.At(t));
    var i := s.At(t).slot;
    var s' := DoDestroy(c, s, t);
    assert s.slots == s.slots[i := s'.slots[i]];
    HeldWrite(c, s, free, s', t, i);
  }

  lemma LoadLockedInv<V>(c: Config, s: State<V>, free: seq<nat>, t: ThreadId)
    requires InvWith(c, s, free) && s.At(t).LoadLocked?
    ensures s.At(t).slot < |s.slots| && InvWith(c, DoLoadLocked(c, s, t), free)
  {
    assert LocalsOk(c, s, s.At(t));
    var s' := DoLoadLocked(c, s, t);
    QuietStep(c, s, free, s', t, s'.At(t));
  }

  lemma ReloadHeadInv<V>(c: Config, s: State<V>, free: seq<nat>, t: ThreadId)
    requires InvWith(c, s, free) && s.At(t).ReloadHead?
    ensures InvWith(c, DoReloadHead(c, s, t), free)
  {
    assert LocalsOk(c, s, s.At(t));
    assert Holds(s, t, s.At(t).slot);
    assert |free| > 0 ==> free[0] in free;
    var s' := DoReloadHead(c, s, t);
    QuietStep(c, s, free, s', t, s'.At(t));
  }

  lemma StoreLinkInv<V>(c: Config, s: State<V>, free: seq<nat>, t: ThreadId)
    requires InvWith(c, s, free) && s.At(t).StoreLink?
    ensures s.At(t).slot < |s.slots| && InvWith(c, DoStoreLink(c, s, t), free)
  {
    assert LocalsOk(c, s, s.At(t));
    var i := s.At(t).slot;
    var s' := DoStoreLink(c, s, t);
    assert s.payload == s.payload[i := s'.payload[i]];
    HeldWrite(c, s, free, s', t, i);
  }

  /** Returning a slot is safe whenever the index of the head is the one it was
      linked to, however often the head changed in between. */
  lemma PushCasInv<V>(c: Config, s: State<V>, free: seq<nat>, t: ThreadId, fails: bool)
    requires InvWith(c, s, free) && s.At(t).PushCas?
    ensures InvWith(c, DoPushCas(c, s, t, fails),
                    if !fails && SameWord(c, s.head, s.At(t).mirror) then [s.At(t).slot] + free else free)
  {
    var pc := s.At(t);
    assert LocalsOk(c, s, pc);
    var s' := DoPushCas(c, s, t, fails);
    if !fails && SameWord(c, s.head, pc.mirror) {
      PushInv(c, s, free, s', t);
    } else {
      QuietStep(c, s, free, s', t, s'.At(t));
    }
  }

  lemma PushInv<V>(c: Config, s: State<V>, free: seq<nat>, s': State<V>, t: ThreadId)
    requires InvWith(c, s, free) && s.At(t).PushCas?
    requires SameWord(c, s.head, s.At(t).mirror)
    requires s' == DoPushCas(c, s, t, false)
    ensures InvWith(c, s', [s.At(t).slot] + free)
  {
    var i := s.At(t).slot;
    assert LocalsOk(c, s, s.At(t));
    forall u, j: nat
      ensures Holds(s', u, j) <==> (Holds(s, u, j) && u != t)
    {}
    OthersOk(c, s, s', t);
    assert LocalsOk(c, s', s'.At(t));
    PushFreeList(c, s, free, s', t);
    PushOwnership(c, s, free, s', t, i);
  }

  lemma PushFreeList<V>(c: Config, s: State<V>, free: seq<nat>, s': State<V>, t: ThreadId)
    requires InvWith(c, s, free) && s.At(t).PushCas?
    requires s.head.index == s.At(t).mirror.index
    requires s'.slots == s.slots && s'.payload == s.payload && s'.head.index == s.At(t).released.index
    ensures FreeList(c, s', [s.At(t).slot] + free)
  {
    var i := s.At(t).slot;
    var free' := [i] + free;
    assert LocalsOk(c, s, s.At(t));
    assert Holds(s, t, i);
    forall k | 0 <= k < |free'|
      ensures free'[k] < c.capacity && s'.slots[free'[k]].index == Following(c.Invalid(), free', k + 1)
              && s'.payload[free'[k]] == None
    {
      if k > 0 {
        assert free'[k] == free[k - 1];
      }
    }
  }

  lemma PushOwnership<V>(c: Config, s: State<V>, free: seq<nat>, s': State<V>, t: ThreadId, i: nat)
    requires InvWith(c, s, free) && Held(s.At(t)) == Some(i) && i < c.capacity
    requires s'.slots == s.slots && s'.payload == s.payload && s'.issued == s.issued
    requires forall u, j: nat :: Holds(s', u, j) <==> (Holds(s, u, j) && u != t)
    ensures Exclusive(s') && HeldNotFree(s', [i] + free)
    ensures RestLive(c, s', [i] + free) && Issued(c, s', [i] + free)
  {
    var free' := [i] + free;
    assert Holds(s, t, i);
    forall j: nat
      ensures Unclaimed(s', free', j) == Unclaimed(s, free, j)
    {
      if Unclaimed(s', free', j) {
        assert j != i;
        assert !Holds(s, t, j);
        assert forall u :: u != t ==> Holds(s, u, j) == Holds(s', u, j);
      }
    }
    forall j: nat | j < c.capacity && Unclaimed(s', free', j)
      ensures Live(s', j)
    {
      assert Live(s, j);
    }
    forall u, j | Holds(s', u, j)
      ensures j !in free'
    {
      assert Holds(s, u, j) && Holds(s, t, i);
    }
  }

  // ---- the whole machine ----

  lemma BeginInv<V>(c: Config, s: State<V>, free: seq<nat>, a: Action<V>)
    requires InvWith(c, s, free) && Enabled(c, s, a) && !a.Step?
    ensures InvWith(c, Next(c, s, a), free)
  {
    var s' := Next(c, s, a);
    assert LocalsOk(c, s, s'.At(a.t));
    QuietStep(c, s, free, s', a.t, s'.At(a.t));
  }

  /** Every call that has not finished can take its next step. */
  lemma NeverStuck<V>(c: Config, s: State<V>, t: ThreadId, fails: bool)
    requires Inv(c, s) && !s.At(t).Idle? && !s.At(t).Finished?
    ensures Enabled(c, s, Step(t, fails))
  {
    var free :| InvWith(c, s, free);
    assert LocalsOk(c, s, s.At(t));
  }

  lemma NextInv<V>(c: Config, s: State<V>, a: Action<V>)
    requires Inv(c, s) && Enabled(c, s, a) && Timely(c, s, a)
    ensures Inv(c, Next(c, s, a))
  {
    var free :| InvWith(c, s, free);
    if a.Step? {
      StepInv(c, s, free, a);
    } else {
      BeginInv(c, s, free, a);
    }
  }

  lemma StepInv<V>(c: Config, s: State<V>, free: seq<nat>, a: Action<V>)
    requires InvWith(c, s, free) && a.Step? && Enabled(c, s, a) && Timely(c, s, a)
    ensures Inv(c, Next(c, s, a))
  {
    hide InvWith;
    var t := a.t;
    match s.At(t)
    case LoadHead(_) => LoadHeadInv(c, s, free, t);
    case LoadNext(_, _) => LoadNextInv(c, s, free, t);
    case PopCas(_, _, _) => PopCasInv(c, s, free, t, a.fails);
    case MarkLoad(_, _) => MarkLoadInv(c, s, free, t);
    case MarkStore(_, _, _) => MarkStoreInv(c, s, free, t);
    case Construct(_, _) => ConstructInv(c, s, free, t);
    case LoadId(_, _) => LoadIdInv(c, s, free, t);
    case LockCas(_, _) => assert Timely(c, s, Step(t, false)); LockCasInv(c, s, free, t);
    case Destroy(_, _, _) => DestroyInv(c, s, free, t);
    case LoadLocked(_, _) => LoadLockedInv(c, s, free, t);
    case ReloadHead(_, _, _) => ReloadHeadInv(c, s, free, t);
    case StoreLink(_, _, _, _) => StoreLinkInv(c, s, free, t);
    case PushCas(_, _, _, _) => PushCasInv(c, s, free, t, a.fails);
  }
}
