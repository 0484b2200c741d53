/** Stretches of a run in which single threads go undisturbed, from which whole runs
    are put together. */
module SlotMapScripts {
  import opened Basics
  import opened PackedIds
  import opened SlotMap
  import opened SlotMapSafety
  import opened SlotMapTheorems

  /** Some n timely steps lead from s to s'. */
  ghost predicate Reaches<V(!new)>(c: Config, s: State<V>, s': State<V>, n: nat)
    requires c.Valid()
    decreases n
  {
    if n == 0 then s == s'
    else exists a :: Enabled(c, s, a) && Timely(c, s, a) && Reaches(c, Next(c, s, a), s', n - 1)
  }

  lemma Here<V(!new)>(c: Config, s: State<V>)
    requires c.Valid()
    ensures Reaches(c, s, s, 0)
  {
  }

  lemma {:induction false} Append<V(!new)>(c: Config, s: State<V>, s': State<V>, n: nat, a: Action<V>)
    requires c.Valid() && Reaches(c, s, s', n) && Enabled(c, s', a) && Timely(c, s', a)
    ensures Reaches(c, s, Next(c, s', a), n + 1)
    decreases n
  {
    if n == 0 {
      assert Reaches(c, Next(c, s, a), Next(c, s', a), 0);
    } else {
      var b :| Enabled(c, s, b) && Timely(c, s, b) && Reaches(c, Next(c, s, b), s', n - 1);
      Append(c, Next(c, s, b), s', n - 1, a);
    }
  }

  lemma {:induction false} ReachesInv<V(!new)>(c: Config, s: State<V>, s': State<V>, n: nat)
    requires c.Valid() && Inv(c, s) && Reaches(c, s, s', n)
    ensures Inv(c, s')
    decreases n
  {
    hide Inv, Timely;
    if n > 0 {
      var b :| Enabled(c, s, b) && Timely(c, s, b) && Reaches(c, Next(c, s, b), s', n - 1);
      NextInv(c, s, b);
      ReachesInv(c, Next(c, s, b), s', n - 1);
    }
  }

  // ---- calls that run without a break ----

  function AfterEmplace<V>(s: State<V>, t: ThreadId, v: V): State<V>
    requires s.head.index < |s.slots| == |s.payload|
  {
    var i := s.head.index;
    var id := Word(s.slots[i].tag, i);
    State(Word(s.head.tag + 1, s.slots[i].index), s.slots[i := id], s.payload[i := Some(v)],
          s.threads[t := Idle], s.issued[id := v])
  }

  /** The first half: the slot is taken off the list and marked. */
  function Acquired<V>(s: State<V>, t: ThreadId, v: V): State<V>
    requires s.head.index < |s.slots|
  {
    var i := s.head.index;
    s.(head := Word(s.head.tag + 1, s.slots[i].index), slots := s.slots[i := Word(s.slots[i].tag, i)])
     .Goto(t, Construct(v, i))
  }

  /** A thread begins `emplace` and reads the head and the link behind it. */
  lemma LoadRuns<V(!new)>(c: Config, s0: State<V>, s: State<V>, n: nat, t: ThreadId, v: V)
    requires c.Valid() && Reaches(c, s0, s, n) && s.At(t).Idle?
    requires s.head.index < |s.slots| == |s.payload| == c.capacity
    ensures Reaches(c, s0, s.Goto(t, PopCas(v, s.head, s.slots[s.head.index].index)), n + 3)
  {
    hide Reaches;
    var a := Step(t, false);
    Append(c, s0, s, n, Action.Emplace(t, v));
    var s1 := Next(c, s, Action.Emplace(t, v));
    Append(c, s0, s1, n + 1, a);
    var s2 := Next(c, s1, a);
    assert s2.At(t) == LoadNext(v, s.head);
    Append(c, s0, s2, n + 2, a);
    assert Next(c, s2, a) == s.Goto(t, PopCas(v, s.head, s.slots[s.head.index].index));
  }

  lemma AcquireRuns<V(!new)>(c: Config, s0: State<V>, s: State<V>, n: nat, t: ThreadId, v: V)
    requires c.Valid() && Reaches(c, s0, s, n) && s.At(t).Idle?
    requires s.head.index < |s.slots| == |s.payload| == c.capacity
    ensures Reaches(c, s0, Acquired(s, t, v), n + 6)
  {
    hide Reaches;
    LoadRuns(c, s0, s, n, t, v);
    PopRuns(c, s0, s, s.Goto(t, PopCas(v, s.head, s.slots[s.head.index].index)), n + 3, t, v);
  }

  lemma PopRuns<V(!new)>(c: Config, s0: State<V>, s: State<V>, s3: State<V>, n: nat, t: ThreadId, v: V)
    requires c.Valid() && Reaches(c, s0, s3, n)
    requires s.head.index < |s.slots| == |s.payload| == c.capacity
    requires s3 == s.Goto(t, PopCas(v, s.head, s.slots[s.head.index].index))
    ensures Reaches(c, s0, Acquired(s, t, v), n + 3)
  {
    hide Reaches;
    var a := Step(t, false);
    Append(c, s0, s3, n, a);
    var s4 := Next(c, s3, a);
    assert s4.At(t) == MarkLoad(v, s.head.index);
    Append(c, s0, s4, n + 1, a);
    var s5 := Next(c, s4, a);
    Append(c, s0, s5, n + 2, a);
    assert Next(c, s5, a) == Acquired(s, t, v);
  }

  lemma EmplaceRuns<V(!new)>(c: Config, s0: State<V>, s: State<V>, n: nat, t: ThreadId, v: V)
    requires c.Valid() && Reaches(c, s0, s, n) && s.At(t).Idle?
    requires s.head.index < |s.slots| == |s.payload| == c.capacity
    ensures Reaches(c, s0, AfterEmplace(s, t, v), n + 9)
  {
    hide Reaches;
    AcquireRuns(c, s0, s, n, t, v);
    var a, s6 := Step(t, false), Acquired(s, t, v);
    Append(c, s0, s6, n + 6, a);
    var s7 := Next(c, s6, a);
    Append(c, s0, s7, n + 7, a);
    var s8 := Next(c, s7, a);
    Append(c, s0, s8, n + 8, Return(t));
    assert Next(c, s8, Return(t)) == AfterEmplace(s, t, v);
  }

  function AfterErase<V>(s: State<V>, t: ThreadId, i: nat): State<V>
    requires i < |s.slots| == |s.payload|
  {
    State(Word(s.head.tag + 1, i), s.slots[i := Word(s.slots[i].tag + 1, s.head.index)], s.payload[i := None],
          s.threads[t := Idle], s.issued)
  }

  lemma EraseRuns<V(!new)>(c: Config, s0: State<V>, s: State<V>, n: nat, t: ThreadId, i: nat)
    requires c.Valid() && Reaches(c, s0, s, n) && s.At(t).Idle?
    requires i < |s.slots| == |s.payload| == c.capacity
    requires s.slots[i] in s.issued && s.slots[i].index == i && s.payload[i].Some?
    ensures Reaches(c, s0, AfterErase(s, t, i), n + 8)
  {
    hide Reaches;
    var a, id := Step(t, false), s.slots[i];
    Append(c, s0, s, n, Action.Erase(t, id, false));
    var s1 := Next(c, s, Action.Erase(t, id, false));
    Append(c, s0, s1, n + 1, a);
    var s2 := s.(slots := s.slots[i := Word(id.tag + 1, i)]).Goto(t, Destroy(i, id, false));
    assert Next(c, s1, a) == s2;
    DestroyRuns(c, s0, s, s2, n + 2, t, i);
  }

  lemma DestroyRuns<V(!new)>(c: Config, s0: State<V>, s: State<V>, s2: State<V>, n: nat, t: ThreadId, i: nat)
    requires c.Valid() && Reaches(c, s0, s2, n)
    requires i < |s.slots| == |s.payload| == c.capacity && s.payload[i].Some?
    requires s2 == s.(slots := s.slots[i := Word(s.slots[i].tag + 1, i)]).Goto(t, Destroy(i, s.slots[i], false))
    ensures Reaches(c, s0, AfterErase(s, t, i), n + 6)
  {
    hide Reaches;
    var a, id := Step(t, false), s.slots[i];
    Append(c, s0, s2, n, a);
    var s3 := Next(c, s2, a);
    Append(c, s0, s3, n + 1, a);
    var s4 := s.(slots := s.slots[i := Word(id.tag + 1, i)], payload := s.payload[i := None])
               .Goto(t, ReloadHead(i, Word(id.tag + 1, i), Outcome.Erased(id)));
    assert Next(c, s3, a) == s4;
    ReleaseRuns(c, s0, s, s4, n + 2, t, i);
  }

  lemma ReleaseRuns<V(!new)>(c: Config, s0: State<V>, s: State<V>, s4: State<V>, n: nat, t: ThreadId, i: nat)
    requires c.Valid() && Reaches(c, s0, s4, n)
    requires i < |s.slots| == |s.payload| == c.capacity
    requires s4 == s.(slots := s.slots[i := Word(s.slots[i].tag + 1, i)], payload := s.payload[i := None])
                    .Goto(t, ReloadHead(i, Word(s.slots[i].tag + 1, i), Outcome.Erased(s.slots[i])))
    ensures Reaches(c, s0, AfterErase(s, t, i), n + 4)
  {
    hide Reaches;
    var a := Step(t, false);
    Append(c, s0, s4, n, a);
    var s5 := Next(c, s4, a);
    Append(c, s0, s5, n + 1, a);
    var s6 := Next(c, s5, a);
    assert s6.At(t) == PushCas(i, Word(s.slots[i].tag + 1, i), s.head, Outcome.Erased(s.slots[i]));
    Append(c, s0, s6, n + 2, a);
    var s7 := Next(c, s6, a);
    Append(c, s0, s7, n + 3, Return(t));
    assert Next(c, s7, Return(t)) == AfterErase(s, t, i);
  }
}
