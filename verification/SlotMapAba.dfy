/** The ABA bound is tight: as many replacements of the head as there are tags, while
    one thread sits inside `acquire_slot`, let its compare-and-swap succeed and put a
    live slot back on the free list. */
module SlotMapAba {
  import opened Basics
  import opened PackedIds
  import opened SlotMap
  import opened SlotMapSafety
  import opened SlotMapTheorems
  import opened SlotMapRuns
  import opened SlotMapScripts

  /** Three slots and two tag bits. */
  function Small(): Config {
    Config(3, 4)
  }

  function Start(): State<int> {
    State(Word(0, 0), [Word(0, 1), Word(0, 2), Word(0, 3)], [None, None, None], map[], map[])
  }

  /** Thread 0 has loaded the head and the link behind it. */
  function Stalled(): State<int> {
    Start().Goto(0, PopCas(9, Word(0, 0), 1))
  }

  /** Thread 1 has since filled all slots and erased the first one. */
  function Refilled(): State<int> {
    State(Word(4, 0), [Word(1, 3), Word(0, 1), Word(0, 2)], [None, Some(11), Some(12)],
          map[0 := PopCas(9, Word(0, 0), 1), 1 := Idle],
          map[Word(0, 0) := 10, Word(0, 1) := 11, Word(0, 2) := 12])
  }

  lemma Stalls()
    ensures Init(Small(), Start()) && Reaches(Small(), Start(), Stalled(), 3)
  {
    hide Reaches;
    Here(Small(), Start());
    LoadRuns(Small(), Start(), Start(), 0, 0, 9);
  }

  function Stall(): Pc<int, Word> {
    PopCas(9, Word(0, 0), 1)
  }

  function Filled1(): State<int> {
    State(Word(1, 1), [Word(0, 0), Word(0, 2), Word(0, 3)], [Some(10), None, None],
          map[0 := Stall(), 1 := Idle], map[Word(0, 0) := 10])
  }

  function Filled2(): State<int> {
    State(Word(2, 2), [Word(0, 0), Word(0, 1), Word(0, 3)], [Some(10), Some(11), None],
          map[0 := Stall(), 1 := Idle], map[Word(0, 0) := 10, Word(0, 1) := 11])
  }

  function Filled3(): State<int> {
    State(Word(3, 3), [Word(0, 0), Word(0, 1), Word(0, 2)], [Some(10), Some(11), Some(12)],
          map[0 := Stall(), 1 := Idle], map[Word(0, 0) := 10, Word(0, 1) := 11, Word(0, 2) := 12])
  }

  lemma Fills(n: nat, s0: State<int>)
    requires Reaches(Small(), s0, Stalled(), n)
    ensures Reaches(Small(), s0, Filled3(), n + 27)
  {
    hide Reaches;
    Filling();
    hide Stalled, Filled1, Filled2, Filled3, AfterEmplace;
    EmplaceRuns(Small(), s0, Stalled(), n, 1, 10);
    EmplaceRuns(Small(), s0, Filled1(), n + 9, 1, 11);
    EmplaceRuns(Small(), s0, Filled2(), n + 18, 1, 12);
  }

  ghost predicate Ready(s: State<int>) {
    s.At(1).Idle? && s.head.index < |s.slots| == |s.payload| == Small().capacity
  }

  lemma Filling()
    ensures Ready(Stalled()) && Ready(Filled1()) && Ready(Filled2())
    ensures AfterEmplace(Stalled(), 1, 10) == Filled1()
    ensures AfterEmplace(Filled1(), 1, 11) == Filled2()
    ensures AfterEmplace(Filled2(), 1, 12) == Filled3()
  {
  }

  lemma Erasing()
    ensures Filled3().At(1).Idle? && |Filled3().slots| == |Filled3().payload| == Small().capacity
    ensures Filled3().payload[0].Some?
    ensures Filled3().slots[0] in Filled3().issued && Filled3().slots[0].index == 0
    ensures AfterErase(Filled3(), 1, 0) == Refilled()
  {
    assert Filled3().slots[0] == Word(0, 0);
  }

  lemma Refills()
    ensures Reaches(Small(), Stalled(), Refilled(), 35)
  {
    hide Reaches;
    Here(Small(), Stalled());
    Fills(0, Stalled());
    Erasing();
    hide Filled3, Refilled, Stalled, AfterErase;
    EraseRuns(Small(), Stalled(), Filled3(), 27, 1, 0);
  }

  lemma RefilledInv()
    ensures InvWith(Small(), Refilled(), [0])
  {
    var c, s := Small(), Refilled();
    assert s.At(1) == Idle;
    assert forall t :: t != 0 ==> s.At(t) == Idle;
    assert forall t, i :: !SlotMapSafety.Holds(s, t, i);
    assert Unclaimed(s, [0], 1) && Unclaimed(s, [0], 2);
    assert Live(s, 1) && Live(s, 2);
  }

  /** With four tags, four replacements of the head leave the map intact, but then the
      stalled compare-and-swap succeeds and makes a live slot the first free one. */
  lemma BoundIsTight()
    ensures Init(Small(), Start()) && Reaches(Small(), Start(), Stalled(), 3)
    ensures Stalled().At(0).PopCas? && Stalled().At(0).mirror == Stalled().head
    ensures Reaches(Small(), Stalled(), Refilled(), 35) && Refilled().At(0) == Stalled().At(0)
    ensures Refilled().head.tag == Stalled().head.tag + Small().tags
    ensures Inv(Small(), Refilled()) && Enabled(Small(), Refilled(), Step(0, false))
    ensures var broken := Next(Small(), Refilled(), Step(0, false));
            && broken.head.index == 1 && Word(0, 1) in LiveMap(broken)
            && broken.At(0) == MarkLoad(9, 0) && !Inv(Small(), broken)
  {
    Stalls();
    Refills();
    RefilledInv();
    hide Reaches;
    PopKeepsInvIff(Small(), Refilled(), [0], 0);
  }
}
