/** The lock-free slot map with the words the program stores: packed into the bits of
    one integer, with tags that wrap. Each method is one step of one thread. */
module SlotMapClass {
  import opened Basics
  import opened Bits
  import opened PackedIds
  import opened SlotMap

  function ConfigOf(l: Layout): Config {
    Config(l.Invalid(), l.Tags())
  }

  /** The stored form of a word with an unbounded version. */
  function Image(l: Layout, w: Word): nat {
    l.Pack(Word(Rem(w.tag, l.Tags()), w.index))
  }

  predicate Fits(l: Layout, w: Word) {
    w.index < l.Indices()
  }

  function OutcomeImage<V>(l: Layout, o: Outcome<V, Word>): Outcome<V, nat> {
    match o
    case Full => Full
    case Emplaced(id) => Emplaced(Image(l, id))
    case Missed => Missed
    case Erased(id) => Erased(Image(l, id))
    case Moved(id, value) => Moved(Image(l, id), value)
  }

  function PcImage<V>(l: Layout, pc: Pc<V, Word>): Pc<V, nat> {
    match pc
    case Idle => Idle
    case LoadHead(v) => LoadHead(v)
    case LoadNext(v, mirror) => LoadNext(v, Image(l, mirror))
    case PopCas(v, mirror, next) => PopCas(v, Image(l, mirror), next)
    case MarkLoad(v, slot) => MarkLoad(v, slot)
    case MarkStore(v, slot, word) => MarkStore(v, slot, Image(l, word))
    case Construct(v, slot) => Construct(v, slot)
    case LoadId(v, slot) => LoadId(v, slot)
    case LockCas(id, take) => LockCas(Image(l, id), take)
    case Destroy(slot, id, take) => Destroy(slot, Image(l, id), take)
    case LoadLocked(slot, o) => LoadLocked(slot, OutcomeImage(l, o))
    case ReloadHead(slot, released, o) => ReloadHead(slot, Image(l, released), OutcomeImage(l, o))
    case StoreLink(slot, released, mirror, o) =>
      StoreLink(slot, Image(l, released), Image(l, mirror), OutcomeImage(l, o))
    case PushCas(slot, released, mirror, o) =>
      PushCas(slot, Image(l, released), Image(l, mirror), OutcomeImage(l, o))
    case Finished(o) => Finished(OutcomeImage(l, o))
  }

  predicate PcFits<V>(l: Layout, pc: Pc<V, Word>) {
    match pc
    case LoadNext(_, mirror) => Fits(l, mirror)
    case PopCas(_, mirror, next) => Fits(l, mirror) && next < l.Indices()
    case MarkStore(_, slot, word) => Fits(l, word) && slot < l.Indices()
    case LockCas(id, _) => Fits(l, id)
    case Destroy(_, id, _) => Fits(l, id)
    case ReloadHead(_, released, _) => Fits(l, released)
    case StoreLink(_, released, mirror, _) => Fits(l, released) && Fits(l, mirror)
    case PushCas(_, released, mirror, _) => Fits(l, released) && Fits(l, mirror)
    case _ => true
  }

  // ---- the stored words ----

  lemma ImageFits(l: Layout, w: Word)
    requires Fits(l, w)
    ensures l.Fits(Word(Rem(w.tag, l.Tags()), w.index))
  {
  }

  /** A compare-and-swap compares the indices and the versions modulo the tags. */
  lemma ImageEqual(l: Layout, a: Word, b: Word)
    requires Fits(l, a) && Fits(l, b)
    ensures Image(l, a) == Image(l, b) <==> SameWord(ConfigOf(l), a, b)
  {
    ImageFits(l, a);
    ImageFits(l, b);
    l.PackInjective(Word(Rem(a.tag, l.Tags()), a.index), Word(Rem(b.tag, l.Tags()), b.index));
  }

  lemma ImageIndex(l: Layout, w: Word)
    requires Fits(l, w)
    ensures l.UnpackIndex(Image(l, w)) == w.index
  {
    ImageFits(l, w);
    l.UnpackPacked(Word(Rem(w.tag, l.Tags()), w.index));
  }

  lemma ImageReset(l: Layout, w: Word, index: nat)
    requires Fits(l, w) && index < l.Indices()
    ensures l.ResetIndex(Image(l, w), index) == Image(l, Word(w.tag, index))
  {
    ImageFits(l, w);
    l.ResetPacked(Word(Rem(w.tag, l.Tags()), w.index), index);
  }

  lemma ImageIncrement(l: Layout, w: Word, index: nat)
    requires Fits(l, w) && index < l.Indices()
    ensures l.IncrementTagAndReset(Image(l, w), index) == Image(l, Word(w.tag + 1, index))
  {
    ImageFits(l, w);
    hide Pow2, And, Or, Join, Rem;
    l.IncrementPacked(Word(Rem(w.tag, l.Tags()), w.index), index);
    AddOne(w.tag, l.Tags());
  }

  lemma SameImage(l: Layout, a: Word, b: Word)
    requires SameWord(ConfigOf(l), a, b)
    ensures Image(l, Word(a.tag + 1, a.index)) == Image(l, Word(b.tag + 1, b.index))
  {
    AddOne(a.tag, l.Tags());
    AddOne(b.tag, l.Tags());
  }

  /** The new head is computed from the expected one, which has the same image. */
  lemma PopImage(l: Layout, head: Word, mirror: Word, index: nat)
    requires SameWord(ConfigOf(l), head, mirror)
    ensures Image(l, Word(mirror.tag + 1, index)) == Image(l, Word(head.tag + 1, index))
  {
    AddOne(head.tag, l.Tags());
    AddOne(mirror.tag, l.Tags());
  }

  class IdVector<V> {
    const layout: Layout
    var head: nat
    const slots: array<nat>
    const payload: array<Option<V>>
    var threads: map<ThreadId, Pc<V, nat>>
    ghost var model: State<V>

    ghost function C(): Config {
      ConfigOf(layout)
    }

    function At(t: ThreadId): Pc<V, nat>
      reads this
    {
      if t in threads then threads[t] else Idle
    }

    ghost predicate ThreadTied(t: ThreadId)
      reads this
    {
      && (t in threads <==> t in model.threads)
      && (t in threads ==> threads[t] == PcImage(layout, model.threads[t]) && PcFits(layout, model.threads[t]))
    }

    /** The fields are the stored form of the model. */
    ghost predicate Tied()
      reads this, slots, payload
    {
      && layout.Valid()
      && slots.Length == payload.Length == |model.slots| == |model.payload| == layout.Invalid()
      && head == Image(layout, model.head) && Fits(layout, model.head)
      && (forall i :: 0 <= i < slots.Length ==> slots[i] == Image(layout, model.slots[i]) && Fits(layout, model.slots[i]))
      && payload[..] == model.payload
      && (forall t :: ThreadTied(t))
    }

    /** `init_empty`: slot i links to i + 1, with tags that are arbitrary. */
    constructor (layout: Layout, tags: seq<nat>)
      requires layout.Valid() && |tags| == layout.Invalid() && forall i :: 0 <= i < |tags| ==> tags[i] < layout.Tags()
      ensures Tied() && this.layout == layout && fresh(slots) && fresh(payload)
      ensures Init(C(), model)
      ensures forall i :: 0 <= i < |tags| ==> model.slots[i].tag == tags[i]
    {
      var capacity := layout.Invalid();
      this.layout := layout;
      head, threads := 0, map[];
      slots := new nat[capacity];
      payload := new Option<V>[capacity](_ => None);
      model := State(Word(0, 0), seq(capacity, (i: nat) requires i < |tags| => Word(tags[i], i + 1)),
                     seq(capacity, _ => None), map[], map[]);
      new;
      assert Image(layout, Word(0, 0)) == 0;
      var i := 0;
      while i < capacity
        invariant i <= capacity == slots.Length == payload.Length
        invariant head == 0 && threads == map[] && this.layout == layout
        invariant model == State(Word(0, 0), seq(capacity, (i: nat) requires i < |tags| => Word(tags[i], i + 1)),
                                 seq(capacity, _ => None), map[], map[])
        invariant forall k :: 0 <= k < capacity ==> payload[k] == None
        invariant forall k :: 0 <= k < i ==> slots[k] == Image(layout, model.slots[k])
        modifies slots
      {
        SmallModulo(tags[i], layout.Tags());
        slots[i] := layout.Pack(Word(tags[i], i + 1));
        i := i + 1;
      }
    }

    method Goto(t: ThreadId, pc: Pc<V, nat>, ghost next: Pc<V, Word>)
      requires pc == PcImage(layout, next) && PcFits(layout, next) && Tied()
      modifies this`threads, this`model
      ensures Tied() && model == old(model).Goto(t, next)
    {
      threads := threads[t := pc];
      model := model.Goto(t, next);
      assert forall u :: old(ThreadTied(u)) ==> ThreadTied(u);
    }

    // ---- the shared words ----

    method StoreHead(word: nat, ghost w: Word)
      requires Tied() && word == Image(layout, w) && Fits(layout, w)
      modifies this`head, this`model
      ensures Tied() && model == old(model).(head := w)
    {
      head := word;
      model := model.(head := w);
      assert forall u :: old(ThreadTied(u)) ==> ThreadTied(u);
    }

    method StoreSlot(i: nat, word: nat, ghost w: Word)
      requires Tied() && i < slots.Length && word == Image(layout, w) && Fits(layout, w)
      modifies slots, this`model
      ensures Tied() && model == old(model).(slots := old(model).slots[i := w])
    {
      slots[i] := word;
      model := model.(slots := model.slots[i := w]);
      assert forall u :: old(ThreadTied(u)) ==> ThreadTied(u);
    }

    method StorePayload(i: nat, x: Option<V>)
      requires Tied() && i < payload.Length
      modifies payload, this`model
      ensures Tied() && model == old(model).(payload := old(model).payload[i := x])
    {
      payload[i] := x;
      model := model.(payload := model.payload[i := x]);
      assert forall u :: old(ThreadTied(u)) ==> ThreadTied(u);
    }

    /** Notes in the history that an id was issued. */
    ghost method Record(id: Word, v: V)
      requires Tied()
      modifies this`model
      ensures Tied() && model == old(model).(issued := old(model).issued[id := v])
    {
      model := model.(issued := model.issued[id := v]);
      assert forall u :: old(ThreadTied(u)) ==> ThreadTied(u);
    }

    // ---- the calls ----

    method BeginEmplace(t: ThreadId, v: V)
      requires Tied() && model.At(t).Idle?
      modifies this
      ensures Tied() && model == SlotMap.BeginEmplace(old(model), t, v)
    {
      Goto(t, LoadHead(v), LoadHead(v));
    }

    method BeginErase(t: ThreadId, id: nat, take: bool, ghost issued: Word)
      requires Tied() && model.At(t).Idle? && Fits(layout, issued) && id == Image(layout, issued)
      modifies this
      ensures Tied() && model == SlotMap.BeginErase(old(model), t, issued, take)
    {
      Goto(t, LockCas(id, take), LockCas(issued, take));
    }

    method Return(t: ThreadId)
      requires Tied() && model.At(t).Finished?
      modifies this
      ensures Tied() && model == old(model).Goto(t, Idle)
    {
      Goto(t, Idle, Idle);
    }

    // ---- acquire_slot ----

    method StepLoadHead(t: ThreadId)
      requires Tied() && model.At(t).LoadHead?
      modifies this
      ensures Tied() && model == DoLoadHead(C(), old(model), t)
    {
      hide Image;
      assert ThreadTied(t);
      ImageIndex(layout, model.head);
      if layout.UnpackIndex(head) == layout.Invalid() {
        Goto(t, Finished(Full), Finished(Full));
      } else {
        Goto(t, LoadNext(At(t).value, head), LoadNext(At(t).value, model.head));
      }
    }

    method StepLoadNext(t: ThreadId)
      requires Tied() && model.At(t).LoadNext? && Bounded(C(), model, model.At(t))
      modifies this
      ensures Tied() && model == DoLoadNext(C(), old(model), t)
    {
      hide Image;
      assert ThreadTied(t);
      ghost var was := model.At(t);
      var pc := At(t);
      ImageIndex(layout, was.mirror);
      var index := layout.UnpackIndex(pc.mirror);
      ImageIndex(layout, model.slots[index]);
      var next := layout.UnpackIndex(slots[index]);
      Goto(t, PopCas(pc.value, pc.mirror, next), PopCas(was.value, was.mirror, next));
    }

    method StepPopCas(t: ThreadId, fails: bool)
      requires Tied() && model.At(t).PopCas? && Bounded(C(), model, model.At(t))
      modifies this
      ensures Tied() && model == DoPopCas(C(), old(model), t, fails)
    {
      hide Image;
      assert ThreadTied(t);
      ghost var was := model.At(t);
      var pc := At(t);
      ImageEqual(layout, model.head, was.mirror);
      ImageIndex(layout, was.mirror);
      ImageIncrement(layout, was.mirror, pc.next);
      if !fails && head == pc.mirror {
        PopImage(layout, model.head, was.mirror, pc.next);
        StoreHead(layout.IncrementTagAndReset(pc.mirror, pc.next), Word(model.head.tag + 1, was.next));
        Goto(t, MarkLoad(pc.value, layout.UnpackIndex(pc.mirror)), MarkLoad(was.value, was.mirror.index));
      } else {
        Goto(t, LoadHead(pc.value), LoadHead(was.value));
      }
    }

    // ---- mark_acquired and emplace ----

    method StepMarkLoad(t: ThreadId)
      requires Tied() && model.At(t).MarkLoad? && Bounded(C(), model, model.At(t))
      modifies this
      ensures Tied() && model == DoMarkLoad(C(), old(model), t)
    {
      hide Image;
      assert ThreadTied(t);
      ghost var was := model.At(t);
      var pc := At(t);
      Goto(t, MarkStore(pc.value, pc.slot, slots[pc.slot]), MarkStore(was.value, was.slot, model.slots[was.slot]));
    }

    method StepMarkStore(t: ThreadId)
      requires Tied() && model.At(t).MarkStore? && Bounded(C(), model, model.At(t))
      modifies this, slots
      ensures Tied() && model == DoMarkStore(C(), old(model), t)
    {
      hide Image;
      assert ThreadTied(t);
      ghost var was := model.At(t);
      var pc := At(t);
      ImageReset(layout, was.word, pc.slot);
      StoreSlot(pc.slot, layout.ResetIndex(pc.word, pc.slot), Word(was.word.tag, was.slot));
      Goto(t, Construct(pc.value, pc.slot), Construct(was.value, was.slot));
    }

    method StepConstruct(t: ThreadId)
      requires Tied() && model.At(t).Construct? && Bounded(C(), model, model.At(t))
      modifies this, payload
      ensures Tied() && model == DoConstruct(C(), old(model), t)
    {
      hide Image;
      assert ThreadTied(t);
      ghost var was := model.At(t);
      var pc := At(t);
      StorePayload(pc.slot, Some(pc.value));
      Goto(t, LoadId(pc.value, pc.slot), LoadId(was.value, was.slot));
    }

    method StepLoadId(t: ThreadId)
      requires Tied() && model.At(t).LoadId? && Bounded(C(), model, model.At(t))
      modifies this
      ensures Tied() && model == DoLoadId(C(), old(model), t)
    {
      hide Image;
      assert ThreadTied(t);
      ghost var was := model.At(t);
      var pc := At(t);
      ghost var id := model.slots[pc.slot];
      Goto(t, Finished(Emplaced(slots[pc.slot])), Finished(Emplaced(id)));
      Record(id, was.value);
    }

    // ---- lock_slot, erase and move_from ----

    method StepLockCas(t: ThreadId)
      requires Tied() && model.At(t).LockCas? && Bounded(C(), model, model.At(t))
      modifies this, slots
      ensures Tied() && model == DoLockCas(C(), old(model), t)
    {
      hide Image;
      assert ThreadTied(t);
      ghost var was := model.At(t);
      var pc := At(t);
      ImageIndex(layout, was.id);
      var i := layout.UnpackIndex(pc.id);
      ImageEqual(layout, model.slots[i], was.id);
      if slots[i] == pc.id {
        ImageIncrement(layout, was.id, i);
        SameImage(layout, was.id, model.slots[i]);
        StoreSlot(i, layout.IncrementTag(pc.id), Word(model.slots[i].tag + 1, i));
        Goto(t, Destroy(i, pc.id, pc.take), Destroy(i, was.id, was.take));
      } else {
        Goto(t, Finished(Missed), Finished(Missed));
      }
    }

    method StepDestroy(t: ThreadId)
      requires Tied() && model.At(t).Destroy? && Bounded(C(), model, model.At(t))
      modifies this, payload
      ensures Tied() && model == DoDestroy(C(), old(model), t)
    {
      hide Image;
      assert ThreadTied(t);
      ghost var was := model.At(t);
      var pc := At(t);
      assert payload[pc.slot] == model.payload[pc.slot];
      var x := payload[pc.slot].value;
      StorePayload(pc.slot, None);
      Goto(t, LoadLocked(pc.slot, if pc.take then Moved(pc.id, x) else Erased(pc.id)),
           LoadLocked(was.slot, if was.take then Moved(was.id, x) else Erased(was.id)));
    }

    // ---- release_locked_slot ----

    method StepLoadLocked(t: ThreadId)
      requires Tied() && model.At(t).LoadLocked? && Bounded(C(), model, model.At(t))
      modifies this
      ensures Tied() && model == DoLoadLocked(C(), old(model), t)
    {
      hide Image;
      assert ThreadTied(t);
      ghost var was := model.At(t);
      var pc := At(t);
      Goto(t, ReloadHead(pc.slot, slots[pc.slot], pc.outcome), ReloadHead(was.slot, model.slots[was.slot], was.outcome));
    }

    method StepReloadHead(t: ThreadId)
      requires Tied() && model.At(t).ReloadHead?
      modifies this
      ensures Tied() && model == DoReloadHead(C(), old(model), t)
    {
      hide Image;
      assert ThreadTied(t);
      ghost var was := model.At(t);
      var pc := At(t);
      Goto(t, StoreLink(pc.slot, pc.released, head, pc.outcome),
           StoreLink(was.slot, was.released, model.head, was.outcome));
    }

    method StepStoreLink(t: ThreadId)
      requires Tied() && model.At(t).StoreLink? && Bounded(C(), model, model.At(t))
      modifies this, slots
      ensures Tied() && model == DoStoreLink(C(), old(model), t)
    {
      hide Image;
      assert ThreadTied(t);
      ghost var was := model.At(t);
      var pc := At(t);
      ImageIndex(layout, was.mirror);
      ImageReset(layout, was.released, was.mirror.index);
      StoreSlot(pc.slot, layout.ResetIndex(pc.released, layout.UnpackIndex(pc.mirror)),
                Word(was.released.tag, was.mirror.index));
      Goto(t, PushCas(pc.slot, pc.released, pc.mirror, pc.outcome),
           PushCas(was.slot, was.released, was.mirror, was.outcome));
    }

    method StepPushCas(t: ThreadId, fails: bool)
      requires Tied() && model.At(t).PushCas?
      modifies this
      ensures Tied() && model == DoPushCas(C(), old(model), t, fails)
    {
      hide Image;
      assert ThreadTied(t);
      ghost var was := model.At(t);
      var pc := At(t);
      ImageEqual(layout, model.head, was.mirror);
      ImageIndex(layout, was.released);
      ImageIncrement(layout, was.mirror, was.released.index);
      if !fails && head == pc.mirror {
        PopImage(layout, model.head, was.mirror, was.released.index);
        StoreHead(layout.IncrementTagAndReset(pc.mirror, layout.UnpackIndex(pc.released)),
                  Word(model.head.tag + 1, was.released.index));
        Goto(t, Finished(pc.outcome), Finished(was.outcome));
      } else {
        Goto(t, ReloadHead(pc.slot, pc.released, pc.outcome), ReloadHead(was.slot, was.released, was.outcome));
      }
    }

    /** A word is valid when its slot stores it. */
    method IsValidId(id: nat, ghost w: Word) returns (valid: bool)
      requires Tied() && Fits(layout, w) && id == Image(layout, w)
      ensures valid <==> w.index < C().capacity && SameWord(C(), model.slots[w.index], w)
    {
      hide Image;
      ImageIndex(layout, w);
      var i := layout.UnpackIndex(id);
      if i >= slots.Length {
        return false;
      }
      ImageEqual(layout, model.slots[i], w);
      valid := slots[i] == id;
    }
  }
}
