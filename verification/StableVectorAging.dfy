/** How long an erased id of the stable vector stays invalid. */
module StableVectorAging {
  import opened Basics
  import Bits
  import opened PackedIds
  import opened FreeList
  import opened StableVector

  datatype Op<V> = DoReserve(n: nat) | DoEmplace(v: V) | DoErase(id: Word)

  ghost predicate Enabled<V>(c: Config, s: State<V>, op: Op<V>) {
    match op
    case DoReserve(n) => n <= c.invalid
    case DoEmplace(_) => CanEmplace(c, s)
    case DoErase(id) => CanErase(c, s, id)
  }

  ghost function Next<V>(c: Config, s: State<V>, op: Op<V>): State<V>
    requires Enabled(c, s, op)
  {
    match op
    case DoReserve(n) => Reserve(c, s, n)
    case DoEmplace(v) => Emplace(c, s, v)
    case DoErase(id) => Erase(c, s, id)
  }

  ghost function NextFree<V>(s: State<V>, free: seq<nat>, op: Op<V>): seq<nat> {
    match op
    case DoReserve(n) => if n > |s.links.words| then Range(|s.links.words|, n) + free else free
    case DoEmplace(_) => if free == [] then [] else free[1..]
    case DoErase(id) => free + [id.index]
  }

  lemma NextInv<V>(c: Config, s: State<V>, free: seq<nat>, op: Op<V>)
    requires InvWith(c, s, free) && Enabled(c, s, op)
    ensures InvWith(c, Next(c, s, op), NextFree(s, free, op))
  {
    match op
    case DoReserve(n) => if n > |s.links.words| { ReserveInv(c, s, free, n); }
    case DoEmplace(v) => LastOfList(c, s.links, free); EmplaceInv(c, s, free, v);
    case DoErase(id) => EraseInv(c, s, free, id);
  }

  /** How many increments lead from tag `from` to tag `to`. */
  function Distance(tags: nat, from: nat, to: nat): nat
    requires from < tags && to < tags
  {
    if from <= to then to - from else to - from + tags
  }

  /** The position of a slot in the free list. */
  ghost function Position(free: seq<nat>, slot: nat): nat
    requires slot in free
  {
    var k :| 0 <= k < |free| && free[k] == slot;
    k
  }

  /** d rounds of a list of spare + 1 slots. */
  function Laps(d: nat, spare: nat): nat {
    if d == 0 then 0 else Laps(d - 1, spare) + spare + 1
  }

  lemma {:induction false} LapsProduct(d: nat, spare: nat)
    ensures Laps(d, spare) == d * (spare + 1)
  {
    if d > 0 {
      LapsProduct(d - 1, spare);
      assert d * (spare + 1) == (d - 1) * (spare + 1) + (spare + 1);
    }
  }

  /** A lower bound on the emplacements before `id` can be valid again, when its slot
      carries `tag` and at least `spare` other slots are free at each erase: the places
      in front of the slot in the list, and a whole round for every tag still to come. */
  ghost function Rounds(c: Config, tag: nat, free: seq<nat>, id: Word, spare: nat): nat
    requires tag < c.tags && id.tag < c.tags
  {
    Laps(Distance(c.tags, tag, id.tag), spare) + (if id.index in free then Position(free, id.index) + 1 else 0)
  }

  lemma PositionIs(free: seq<nat>, slot: nat, k: nat)
    requires Distinct(free) && k < |free| && free[k] == slot
    ensures slot in free && Position(free, slot) == k
  {
  }

  lemma RoundsPop(c: Config, tag: nat, free: seq<nat>, id: Word, spare: nat)
    requires tag < c.tags && id.tag < c.tags && Distinct(free) && free != []
    ensures Rounds(c, tag, free, id, spare) <= Rounds(c, tag, free[1..], id, spare) + 1
  {
    if id.index in free {
      var k := Position(free, id.index);
      if k > 0 {
        assert free[1..][k - 1] == id.index;
        PositionIs(free[1..], id.index, k - 1);
      }
    }
  }

  lemma RoundsPrepend(c: Config, tag: nat, added: seq<nat>, free: seq<nat>, id: Word, spare: nat)
    requires tag < c.tags && id.tag < c.tags && Distinct(added + free)
    requires id.index !in added
    ensures Rounds(c, tag, free, id, spare) <= Rounds(c, tag, added + free, id, spare)
  {
    if id.index in free {
      var k := Position(free, id.index);
      PositionIs(added + free, id.index, |added| + k);
    }
  }

  lemma RoundsAppend(c: Config, tag: nat, free: seq<nat>, slot: nat, id: Word, spare: nat)
    requires tag < c.tags && id.tag < c.tags && Distinct(free + [slot]) && slot != id.index
    ensures Rounds(c, tag, free, id, spare) <= Rounds(c, tag, free + [slot], id, spare)
  {
    if id.index in free {
      var k := Position(free, id.index);
      PositionIs(free + [slot], id.index, k);
    }
  }

  lemma RoundsReturn(c: Config, tag: nat, free: seq<nat>, id: Word, spare: nat)
    requires tag < c.tags && id.tag < c.tags && Distinct(free + [id.index]) && id.index !in free
    requires |free| >= spare
    ensures tag != id.tag ==>
              Rounds(c, tag, free, id, spare) <= Rounds(c, (tag + 1) % c.tags, free + [id.index], id, spare)
    ensures tag == id.tag ==>
              Laps(c.tags, spare) <= Rounds(c, (tag + 1) % c.tags, free + [id.index], id, spare)
  {
    PositionIs(free + [id.index], id.index, |free|);
    var d := Distance(c.tags, tag, id.tag);
    if tag + 1 == c.tags {
      Bits.DivideByMultiple(1, c.tags, 0);
    } else {
      Bits.SmallModulo(tag + 1, c.tags);
    }
    assert Distance(c.tags, (tag + 1) % c.tags, id.tag) == (if d > 0 then d - 1 else c.tags - 1);
  }

  ghost predicate IsRun<V>(c: Config, states: seq<State<V>>, ops: seq<Op<V>>) {
    && |states| == |ops| + 1
    && forall k :: 0 <= k < |ops| ==> Enabled(c, states[k], ops[k]) && states[k + 1] == Next(c, states[k], ops[k])
  }

  ghost function Emplacements<V>(ops: seq<Op<V>>, k: nat): nat
    requires k <= |ops|
  {
    if k == 0 then 0 else Emplacements(ops, k - 1) + (if ops[k - 1].DoEmplace? then 1 else 0)
  }

  /** At least `spare` other slots are free whenever slot `slot` is erased. */
  ghost predicate Spare<V>(states: seq<State<V>>, ops: seq<Op<V>>, slot: nat, spare: nat)
    requires |states| == |ops| + 1
  {
    forall k :: 0 <= k < |ops| && ops[k].DoErase? && ops[k].id.index == slot ==>
      |states[k].data| >= states[k].size + spare
  }

  /** The bound of a state. */
  ghost predicate AtLeast<V>(c: Config, s: State<V>, free: seq<nat>, id: Word, spare: nat, bound: nat) {
    && InvWith(c, s, free) && id.index < |s.links.words| && id.tag < c.tags
    && Rounds(c, s.links.words[id.index].tag, free, id, spare) >= bound
  }

  lemma StepRounds<V>(c: Config, s: State<V>, free: seq<nat>, op: Op<V>, id: Word, spare: nat, bound: nat)
    requires AtLeast(c, s, free, id, spare, bound) && Enabled(c, s, op) && !IsValidId(s, id)
    requires op.DoErase? && op.id.index == id.index ==> |free| >= spare
    ensures AtLeast(c, Next(c, s, op), NextFree(s, free, op), id, spare,
                    if op.DoEmplace? && bound > 0 then bound - 1 else bound)
  {
    NextInv(c, s, free, op);
    var tag := s.links.words[id.index].tag;
    match op
    case DoReserve(n) =>
      if n > |s.links.words| {
        RangeMembers(|s.links.words|, n, id.index);
        RoundsPrepend(c, tag, Range(|s.links.words|, n), free, id, spare);
      }
    case DoEmplace(v) =>
      LastOfList(c, s.links, free);
      TakeChain(c, s.links, free);
      if free != [] {
        RoundsPop(c, tag, free, id, spare);
      }
    case DoErase(e) => EraseRounds(c, s, free, e, id, spare);
  }

  lemma EraseRounds<V>(c: Config, s: State<V>, free: seq<nat>, erased: Word, id: Word, spare: nat)
    requires InvWith(c, s, free) && CanErase(c, s, erased) && id.index < |s.links.words| && id.tag < c.tags
    requires erased.index == id.index ==> |free| >= spare
    ensures var s' := Erase(c, s, erased);
            && id.index < |s'.links.words| && s'.links.words[id.index].tag < c.tags
            && Rounds(c, s'.links.words[id.index].tag, free + [erased.index], id, spare)
               >= (if erased == id then Laps(c.tags, spare)
                   else Rounds(c, s.links.words[id.index].tag, free, id, spare))
  {
    EraseInv(c, s, free, erased);
    PutWords(c, s.links, free, erased.index);
    var tag := s.links.words[id.index].tag;
    if erased.index == id.index {
      RoundsReturn(c, tag, free, id, spare);
    } else {
      RoundsAppend(c, tag, free, erased.index, id, spare);
    }
  }

  lemma {:induction false} RunRounds<V>(
    c: Config, states: seq<State<V>>, ops: seq<Op<V>>, free: seq<nat>, id: Word, spare: nat, bound: nat, k: nat)
    returns (free': seq<nat>)
    requires IsRun(c, states, ops) && AtLeast(c, states[0], free, id, spare, bound) && k <= |ops|
    requires Spare(states, ops, id.index, spare)
    requires forall m :: 0 <= m < k ==> !IsValidId(states[m], id)
    ensures AtLeast(c, states[k], free', id, spare,
                    if Emplacements(ops, k) <= bound then bound - Emplacements(ops, k) else 0)
  {
    free' := free;
    if k > 0 {
      var f := RunRounds(c, states, ops, free, id, spare, bound, k - 1);
      var left := if Emplacements(ops, k - 1) <= bound then bound - Emplacements(ops, k - 1) else 0;
      StepRounds(c, states[k - 1], f, ops[k - 1], id, spare, left);
      free' := NextFree(states[k - 1], f, ops[k - 1]);
    }
  }

  /** An erased id cannot become valid again in fewer than (spare + 1) * tags
      emplacements, if at least `spare` other slots are free at each erase of its slot;
      growing the vector in between does not shorten this. */
  lemma StaysStale<V>(c: Config, states: seq<State<V>>, ops: seq<Op<V>>, id: Word, spare: nat, k: nat)
    requires IsRun(c, states, ops) && Inv(c, states[0]) && 0 < k <= |ops|
    requires ops[0] == DoErase(id) && Spare(states, ops, id.index, spare)
    requires IsValidId(states[k], id)
    ensures Emplacements(ops, k) >= (spare + 1) * c.tags
    decreases k
  {
    if m :| 0 < m < k && IsValidId(states[m], id) {
      StaysStale(c, states, ops, id, spare, m);
      EmplacementsGrow(ops, m, k);
    } else {
      FirstValidAgain(c, states, ops, id, spare, k);
    }
  }

  lemma FirstValidAgain<V>(c: Config, states: seq<State<V>>, ops: seq<Op<V>>, id: Word, spare: nat, k: nat)
    requires IsRun(c, states, ops) && Inv(c, states[0]) && 0 < k <= |ops|
    requires ops[0] == DoErase(id) && Spare(states, ops, id.index, spare)
    requires IsValidId(states[k], id) && forall m :: 0 < m < k ==> !IsValidId(states[m], id)
    ensures Emplacements(ops, k) >= (spare + 1) * c.tags
  {
    hide Enabled, Next, InvWith, Rounds, IsValidId, Inv, AtLeast;
    var start := AfterErase(c, states[0], states[1], ops[0], spare);
    var rest, todo := states[1..], ops[1..];
    var bound := Laps(c.tags, spare);
    var end := RunRounds(c, rest, todo, start, id, spare, bound, k - 1);
    ShiftEmplacements(ops, k - 1);
    ValidMeansZero(c, states[k], end, id, spare, if Emplacements(todo, k - 1) <= bound then bound - Emplacements(todo, k - 1) else 0);
    LapsProduct(c.tags, spare);
  }

  lemma AfterErase<V>(c: Config, s: State<V>, s': State<V>, op: Op<V>, spare: nat) returns (free': seq<nat>)
    requires Inv(c, s) && op.DoErase? && Enabled(c, s, op) && s' == Next(c, s, op)
    requires |s.data| >= s.size + spare
    ensures AtLeast(c, s', free', op.id, spare, Laps(c.tags, spare))
  {
    var free :| InvWith(c, s, free);
    EraseInv(c, s, free, op.id);
    EraseRounds(c, s, free, op.id, op.id, spare);
    free' := free + [op.id.index];
  }

  /** A valid id has used up its bound. */
  lemma ValidMeansZero<V>(c: Config, s: State<V>, free: seq<nat>, id: Word, spare: nat, bound: nat)
    requires AtLeast(c, s, free, id, spare, bound) && IsValidId(s, id)
    ensures bound == 0
  {
    ValidNotFree(c, s, free, id);
  }

  lemma {:induction false} EmplacementsGrow<V>(ops: seq<Op<V>>, m: nat, k: nat)
    requires m <= k <= |ops|
    ensures Emplacements(ops, m) <= Emplacements(ops, k)
  {
    if m < k {
      EmplacementsGrow(ops, m, k - 1);
    }
  }

  lemma {:induction false} ShiftEmplacements<V>(ops: seq<Op<V>>, k: nat)
    requires k < |ops| && !ops[0].DoEmplace?
    ensures Emplacements(ops[1..], k) == Emplacements(ops, k + 1)
  {
    if k > 0 {
      ShiftEmplacements(ops, k - 1);
    }
  }
}
