/** What `new_task` does for the other nodes: with more than one task in its queue it hands
    over to the first node in the circle that is available. */
module SchedulerDelegation {
  import opened Scheduler
  import opened SchedulerSolo

  /** How far m is after n in the circle. */
  function Distance(c: Config, n: NodeId, m: NodeId): nat
    requires n < c.nodes && m < c.nodes
  {
    if m >= n then m - n else m + c.nodes - n
  }

  /** Node m is the first available one at least d places after n. */
  ghost predicate FirstAvailable(c: Config, s: State, n: NodeId, d: nat, m: NodeId)
    requires n < c.nodes == |s.nodes| && m < c.nodes
  {
    && m != n && d <= Distance(c, n, m) && s.nodes[m].available
    && (forall x: NodeId :: x < c.nodes && x != n && d <= Distance(c, n, x) < Distance(c, n, m) ==> !s.nodes[x].available)
  }

  /** Node b is node a after work of node n has been delegated to it: it is not available
      any more, knows where to steal, and is awake or will find the pulse. */
  ghost predicate Delegated(a: Node, b: Node, n: NodeId) {
    && !b.available && b.stealFrom == n && b.pulsed && !b.asleep
    && b.queue == a.queue && b.stop == a.stop
    && b.stack == if a.asleep then Awake(a.stack) else a.stack
  }

  /** The call of node n has returned and the first available node, if any, has been told. */
  ghost predicate HandedOver(c: Config, s: State, s': State, n: NodeId, d: nat, below: seq<Frame>) {
    && n < |s.nodes| == |s'.nodes| == c.nodes
    && s'.tasks == s.tasks && s'.born == s.born && s'.started == s.started && s'.stopped == s.stopped
    && s'.nodes[n] == s.nodes[n].(stack := below)
    && (forall m: NodeId :: m < c.nodes && m != n ==>
          if FirstAvailable(c, s, n, d, m) then Delegated(s.nodes[m], s'.nodes[m], n)
          else s'.nodes[m] == s.nodes[m])
  }

  /** Node n is in a call of `new_task` at pc, above the frames `below`. */
  ghost predicate AtCreate(c: Config, s: State, n: NodeId, below: seq<Frame>, pc: CreatePc) {
    c.nodes > 0 && n < |s.nodes| == c.nodes && s.nodes[n].stack == below + [Creating(pc)]
  }

  // ---- the steps ----

  lemma TestStep(c: Config, s: State, n: NodeId, below: seq<Frame>, i: NodeId)
    requires AtCreate(c, s, n, below, Delegate(i))
    ensures var stack := if |s.nodes[n].queue| > 1 && i != n then below + [Creating(Exchange(i))] else below;
            MovesTo(c, s, n, s.Put(n, s.nodes[n].(stack := stack)))
  {
    assert s.nodes[n].Return().stack == below;
  }

  lemma ReachMoves(c: Config, s: State, n: NodeId, below: seq<Frame>, pc: CreatePc)
    requires AtCreate(c, s, n, below, pc) && Reaches(pc) && pc.next < c.nodes && pc.next != n
    ensures MovesTo(c, s, n, Moved(s, pc.next, Reached(pc, n, s.nodes[pc.next]), n,
                                   Resumed(c, pc, s.nodes[n], s.nodes[pc.next]).stack))
    ensures s.nodes[n].Return().stack == below
  {
    assert s.nodes[n].Return().stack == below;
    var node := Resumed(c, pc, s.nodes[n], s.nodes[pc.next]);
    assert node == s.nodes[n].(stack := node.stack);
    hide Reached, Resumed;
  }

  lemma ExchangeStep(c: Config, s: State, n: NodeId, below: seq<Frame>, i: NodeId)
    requires AtCreate(c, s, n, below, Exchange(i)) && i < c.nodes && i != n
    ensures var pc := if s.nodes[i].available then StoreSteal(i) else Delegate((i + 1) % c.nodes);
            MovesTo(c, s, n, Moved(s, i, s.nodes[i].(available := false), n, below + [Creating(pc)]))
  {
    ReachMoves(c, s, n, below, Exchange(i));
    hide MovesTo, Moved;
  }

  lemma StoreStep(c: Config, s: State, n: NodeId, below: seq<Frame>, i: NodeId)
    requires AtCreate(c, s, n, below, StoreSteal(i)) && i < c.nodes && i != n
    ensures MovesTo(c, s, n, Moved(s, i, s.nodes[i].(stealFrom := n), n, below + [Creating(Pulse(i))]))
  {
    ReachMoves(c, s, n, below, StoreSteal(i));
    hide MovesTo, Moved;
  }

  lemma PulseStep(c: Config, s: State, n: NodeId, below: seq<Frame>, i: NodeId)
    requires AtCreate(c, s, n, below, Pulse(i)) && i < c.nodes && i != n
    ensures var stack := if s.nodes[i].asleep then below + [Creating(Notify(i))] else below;
            MovesTo(c, s, n, Moved(s, i, s.nodes[i].(pulsed := true, asleep := false), n, stack))
  {
    ReachMoves(c, s, n, below, Pulse(i));
    hide MovesTo, Moved;
  }

  lemma NotifyStep(c: Config, s: State, n: NodeId, below: seq<Frame>, i: NodeId)
    requires AtCreate(c, s, n, below, Notify(i)) && i < c.nodes && i != n
    ensures MovesTo(c, s, n, Moved(s, i, s.nodes[i].(stack := Awake(s.nodes[i].stack)), n, below))
  {
    ReachMoves(c, s, n, below, Notify(i));
    hide MovesTo, Moved;
  }

  lemma AtMoved(c: Config, s: State, i: NodeId, a: Node, n: NodeId, below: seq<Frame>, pc: CreatePc)
    requires c.nodes == |s.nodes| && i < c.nodes && n < c.nodes && i != n
    ensures AtCreate(c, Moved(s, i, a, n, below + [Creating(pc)]), n, below, pc)
    ensures Moved(s, i, a, n, below + [Creating(pc)]).nodes[i] == a
  {
  }

  // ---- one call ----

  /** An available node is told in four steps at most. */
  lemma TellOne(c: Config, s: State, n: NodeId, below: seq<Frame>, i: NodeId) returns (k: nat, told: Node)
    requires AtCreate(c, s, n, below, Exchange(i)) && i < c.nodes && i != n && s.nodes[i].available
    ensures k <= 4 && Delegated(s.nodes[i], told, n) && Solo(c, s, n, k) == Moved(s, i, told, n, below)
  {
    var s1, s2, a := TellFirst(c, s, n, below, i);
    PulseStep(c, s2, n, below, i);
    told := a.(pulsed := true, asleep := false);
    FirstStep(c, s, n, s1, if a.asleep then 3 else 2);
    FirstStep(c, s1, n, s2, if a.asleep then 2 else 1);
    hide Awake, MovesTo, AtCreate;
    MovedTwice(s, i, a, told, n, below + [Creating(Pulse(i))], if a.asleep then below + [Creating(Notify(i))] else below);
    if a.asleep {
      var stack := below + [Creating(Notify(i))];
      var s3 := Moved(s, i, told, n, stack);
      AtMoved(c, s, i, told, n, below, Notify(i));
      NotifyStep(c, s3, n, below, i);
      FirstStep(c, s2, n, s3, 1);
      var b := told.(stack := Awake(told.stack));
      MovedTwice(s, i, told, b, n, stack, below);
      told := b;
      FirstStep(c, s3, n, Moved(s, i, told, n, below), 0);
      k := 4;
    } else {
      FirstStep(c, s2, n, Moved(s, i, told, n, below), 0);
      k := 3;
    }
  }

  /** Until the pulse. */
  lemma TellFirst(c: Config, s: State, n: NodeId, below: seq<Frame>, i: NodeId)
    returns (s1: State, s2: State, a: Node)
    requires AtCreate(c, s, n, below, Exchange(i)) && i < c.nodes && i != n && s.nodes[i].available
    ensures |s.nodes| == c.nodes && n < c.nodes && i < |s2.nodes| && s2.nodes[i] == a
    ensures a == s.nodes[i].(available := false, stealFrom := n)
    ensures s2 == Moved(s, i, a, n, below + [Creating(Pulse(i))]) && AtCreate(c, s2, n, below, Pulse(i))
    ensures MovesTo(c, s, n, s1) && MovesTo(c, s1, n, s2)
  {
    assert |s.nodes| == c.nodes && n < c.nodes;
    hide MovesTo, AtCreate;
    var x := s.nodes[i].(available := false);
    var stack := below + [Creating(StoreSteal(i))];
    ExchangeStep(c, s, n, below, i);
    s1 := Moved(s, i, x, n, stack);
    AtMoved(c, s, i, x, n, below, StoreSteal(i));
    StoreStep(c, s1, n, below, i);
    a := x.(stealFrom := n);
    MovedTwice(s, i, x, a, n, stack, below + [Creating(Pulse(i))]);
    s2 := Moved(s, i, a, n, below + [Creating(Pulse(i))]);
    AtMoved(c, s, i, a, n, below, Pulse(i));
    hide Moved;
  }

  /** Node i, d places after n, is available: the call ends with it. */
  lemma FoundFirst(c: Config, s: State, n: NodeId, d: nat, i: NodeId, told: Node, below: seq<Frame>)
    requires n < c.nodes == |s.nodes| && i < c.nodes && i != n && d == Distance(c, n, i)
    requires s.nodes[i].available && Delegated(s.nodes[i], told, n)
    ensures HandedOver(c, s, Moved(s, i, told, n, below), n, d, below)
  {
    hide Delegated;
    assert FirstAvailable(c, s, n, d, i);
    forall m: NodeId | m < c.nodes && m != n && m != i
      ensures !FirstAvailable(c, s, n, d, m)
    {
      assert Distance(c, n, m) != d;
    }
  }

  /** Node i, d places after n, is not available: the call goes on with the next. */
  lemma NotThisOne(c: Config, s: State, s': State, n: NodeId, d: nat, i: NodeId, stack: seq<Frame>, below: seq<Frame>)
    requires n < c.nodes == |s.nodes| && i < c.nodes && i != n && d == Distance(c, n, i) && !s.nodes[i].available
    requires HandedOver(c, s.Put(n, s.nodes[n].(stack := stack)), s', n, d + 1, below)
    ensures HandedOver(c, s, s', n, d, below)
  {
    hide Delegated;
    var s1 := s.Put(n, s.nodes[n].(stack := stack));
    forall m: NodeId | m < c.nodes && m != n
      ensures FirstAvailable(c, s, n, d, m) <==> FirstAvailable(c, s1, n, d + 1, m)
    {
      forall x: NodeId | x < c.nodes && x != n && Distance(c, n, x) == d
        ensures x == i
      {
      }
    }
  }

  lemma Wrap(x: nat, m: nat)
    requires 0 < m && x < 2 * m
    ensures x % m == if x < m then x else x - m
  {
    if x >= m {
      assert (x - m) % m == x % m;
    }
  }

  /** The node d places after n. */
  function Place(c: Config, n: NodeId, d: nat): (i: NodeId)
    requires n < c.nodes && d <= c.nodes
    ensures i < c.nodes
  {
    if n + d < c.nodes then n + d else n + d - c.nodes
  }

  lemma NextPlace(c: Config, n: NodeId, d: nat)
    requires n < c.nodes && d < c.nodes
    ensures (Place(c, n, d) + 1) % c.nodes == Place(c, n, d + 1)
  {
    Wrap(Place(c, n, d) + 1, c.nodes);
  }

  lemma AtPut(c: Config, s: State, n: NodeId, below: seq<Frame>, pc: CreatePc)
    requires n < |s.nodes| == c.nodes
    ensures AtCreate(c, s.Put(n, s.nodes[n].(stack := below + [Creating(pc)])), n, below, pc)
  {
  }

  lemma NoneLeft(c: Config, s: State, n: NodeId, below: seq<Frame>)
    requires AtCreate(c, s, n, below, Delegate(n))
    ensures HandedOver(c, s, Solo(c, s, n, 1), n, c.nodes, below)
  {
    TestStep(c, s, n, below, n);
    FirstStep(c, s, n, s.Put(n, s.nodes[n].(stack := below)), 0);
    hide MovesTo, AtCreate;
    forall m: NodeId | m < c.nodes && m != n
      ensures !FirstAvailable(c, s, n, c.nodes, m)
    {
      assert Distance(c, n, m) < c.nodes;
    }
  }

  /** Node i is asked, and its answer looked at, before anything else happens. */
  lemma Ask(c: Config, s: State, n: NodeId, below: seq<Frame>, i: NodeId) returns (s1: State)
    requires AtCreate(c, s, n, below, Delegate(i)) && i < c.nodes && i != n && |s.nodes[n].queue| > 1
    ensures |s.nodes| == c.nodes && n < c.nodes
    ensures s1 == s.Put(n, s.nodes[n].(stack := below + [Creating(Exchange(i))]))
    ensures MovesTo(c, s, n, s1) && AtCreate(c, s1, n, below, Exchange(i))
  {
    TestStep(c, s, n, below, i);
    AtPut(c, s, n, below, Exchange(i));
    s1 := s.Put(n, s.nodes[n].(stack := below + [Creating(Exchange(i))]));
    hide MovesTo;
  }

  lemma Found(c: Config, s: State, n: NodeId, below: seq<Frame>, d: nat, i: NodeId) returns (k: nat)
    requires AtCreate(c, s, n, below, Delegate(i)) && i < c.nodes && i != n && |s.nodes[n].queue| > 1
    requires d == Distance(c, n, i) && s.nodes[i].available
    ensures k <= 5 && HandedOver(c, s, Solo(c, s, n, k), n, d, below)
  {
    var s1 := Ask(c, s, n, below, i);
    hide AtCreate, MovesTo, HandedOver, Solo, Distance;
    var k1, told := TellOne(c, s1, n, below, i);
    FirstStep(c, s, n, s1, k1);
    FoundFirst(c, s, n, d, i, told, below);
    assert Moved(s1, i, told, n, below).nodes == Moved(s, i, told, n, below).nodes;
    k := k1 + 1;
  }

  /** An unavailable node costs two steps. */
  lemma PassOver(c: Config, s: State, n: NodeId, below: seq<Frame>, i: NodeId) returns (s2: State)
    requires AtCreate(c, s, n, below, Delegate(i)) && i < c.nodes && i != n && |s.nodes[n].queue| > 1
    requires !s.nodes[i].available
    ensures |s.nodes| == c.nodes && n < c.nodes && Solo(c, s, n, 2) == s2
    ensures s2 == s.Put(n, s.nodes[n].(stack := below + [Creating(Delegate((i + 1) % c.nodes))]))
    ensures AtCreate(c, s2, n, below, Delegate((i + 1) % c.nodes))
  {
    var s1 := Ask(c, s, n, below, i);
    hide AtCreate, MovesTo, Solo;
    ExchangeStep(c, s1, n, below, i);
    var stack := below + [Creating(Delegate((i + 1) % c.nodes))];
    s2 := s.Put(n, s.nodes[n].(stack := stack));
    assert Moved(s1, i, s1.nodes[i].(available := false), n, stack).nodes == s2.nodes;
    AtPut(c, s, n, below, Delegate((i + 1) % c.nodes));
    FirstStep(c, s, n, s1, 1);
    FirstStep(c, s1, n, s2, 0);
  }

  lemma {:induction false} DelegateFrom(c: Config, s: State, n: NodeId, below: seq<Frame>, d: nat) returns (k: nat)
    requires 0 < d <= c.nodes && n < c.nodes == |s.nodes|
    requires AtCreate(c, s, n, below, Delegate(Place(c, n, d))) && |s.nodes[n].queue| > 1
    ensures k <= 2 * (c.nodes - d) + 3 && HandedOver(c, s, Solo(c, s, n, k), n, d, below)
    decreases c.nodes - d
  {
    hide MovesTo, HandedOver, AtCreate, Solo;
    var i := Place(c, n, d);
    if d == c.nodes {
      NoneLeft(c, s, n, below);
      k := 1;
    } else if s.nodes[i].available {
      k := Found(c, s, n, below, d, i);
    } else {
      NextPlace(c, n, d);
      assert i != n && Distance(c, n, i) == d;
      hide Place, Distance;
      var s2 := PassOver(c, s, n, below, i);
      k := DelegateFrom(c, s2, n, below, d + 1);
      SoloAdd(c, s, n, 2, k);
      NotThisOne(c, s, Solo(c, s2, n, k), n, d, i, s2.nodes[n].stack, below);
      k := k + 2;
    }
  }

  /** With more than one task in its queue, a call that runs alone returns within
      2 * nodes + 1 steps: the first available node after its own in the circle has been
      told to steal from it and is awake or will be; the others are as they were. With at
      most one task it returns at once. */
  lemma DelegateAlone(c: Config, s: State, n: NodeId, below: seq<Frame>) returns (k: nat)
    requires c.nodes > 0 && AtCreate(c, s, n, below, Delegate((n + 1) % c.nodes))
    ensures k <= 2 * c.nodes + 1
    ensures if |s.nodes[n].queue| > 1 then HandedOver(c, s, Solo(c, s, n, k), n, 1, below)
            else k == 1 && Solo(c, s, n, k) == s.Put(n, s.nodes[n].(stack := below))
  {
    if |s.nodes[n].queue| > 1 {
      NextPlace(c, n, 0);
      k := DelegateFrom(c, s, n, below, 1);
    } else {
      k := 1;
      TestStep(c, s, n, below, (n + 1) % c.nodes);
      FirstStep(c, s, n, s.Put(n, s.nodes[n].(stack := below)), 0);
    }
    hide HandedOver, MovesTo;
  }

  /** The new task is in the map and at the back of the queue. */
  ghost function Created(s: State, n: NodeId, id: TaskId): State
    requires n < |s.nodes|
  {
    s.(tasks := s.tasks[id := s.born], born := s.born + 1)
     .Put(n, s.nodes[n].(queue := s.nodes[n].queue + [id]))
  }

  lemma EmplaceStep(c: Config, s: State, n: NodeId, below: seq<Frame>, ok: bool, id: TaskId)
    requires AtCreate(c, s, n, below, Emplace) && id !in s.tasks
    ensures Enabled(c, s, Step(n, ok, id))
    ensures Next(c, s, Step(n, ok, id))
         == s.(tasks := s.tasks[id := s.born], born := s.born + 1)
             .Put(n, s.nodes[n].(stack := below + [Creating(Push(id))]))
  {
    assert s.nodes[n].Goto(Creating(Push(id))).stack == below + [Creating(Push(id))];
  }

  lemma PushStep(c: Config, s: State, n: NodeId, below: seq<Frame>, t: TaskId)
    requires AtCreate(c, s, n, below, Push(t)) && |s.nodes[n].queue| + 1 < c.capacity
    ensures MovesTo(c, s, n, s.Put(n, s.nodes[n].(queue := s.nodes[n].queue + [t],
                                                  stack := below + [Creating(Delegate((n + 1) % c.nodes))])))
  {
    var f := Creating(Delegate((n + 1) % c.nodes));
    assert s.nodes[n].Goto(f).stack == below + [f];
  }

  /** A closure that calls `new_task` waits below the call; the root task is created by
      node 0 before its loop begins. */
  lemma CallsNewTask(c: Config, s: State, n: NodeId)
    requires c.nodes >= 2 && n < c.nodes == |s.nodes| && Running(s, n)
    ensures var s' := Next(c, s, NewTask(n));
      AtCreate(c, s', n, s.nodes[n].stack, Emplace) && s' == s.Put(n, s.nodes[n].(stack := s'.nodes[n].stack))
    ensures AtCreate(c, Init(c), 0, [Loop(Begin)], Emplace)
  {
  }

  /** `new_task` alone, with room in the queue: the task is created and queued behind the
      others, and if it is not the only one the first available node is told. */
  lemma NewTaskAlone(c: Config, s: State, n: NodeId, below: seq<Frame>, ok: bool, id: TaskId) returns (k: nat)
    requires AtCreate(c, s, n, below, Emplace) && id !in s.tasks && |s.nodes[n].queue| + 1 < c.capacity
    ensures Enabled(c, s, Step(n, ok, id)) && k <= 2 * c.nodes + 2
    ensures var s1, s' := Created(s, n, id), Solo(c, Next(c, s, Step(n, ok, id)), n, k);
            if s.nodes[n].queue != [] then HandedOver(c, s1, s', n, 1, below)
            else s' == s1.Put(n, s1.nodes[n].(stack := below))
  {
    EmplaceStep(c, s, n, below, ok, id);
    assert |s.nodes| == c.nodes;
    var s1, s2 := Created(s, n, id), Next(c, s, Step(n, ok, id));
    hide Enabled, Next, HandedOver, MovesTo, Solo;
    AtPut(c, s, n, below, Push(id));
    PushStep(c, s2, n, below, id);
    var stack := below + [Creating(Delegate((n + 1) % c.nodes))];
    var s3 := s1.Put(n, s1.nodes[n].(stack := stack));
    assert s3.nodes == s2.nodes[n := s3.nodes[n]];
    k := DelegateAlone(c, s3, n, below);
    FirstStep(c, s2, n, s3, k);
    if s.nodes[n].queue != [] {
      SameHandOver(c, s1, Solo(c, s3, n, k), n, stack, below);
    } else {
      assert s3.Put(n, s3.nodes[n].(stack := below)).nodes == s1.Put(n, s1.nodes[n].(stack := below)).nodes;
    }
    k := k + 1;
  }

  lemma SameHandOver(c: Config, s: State, s': State, n: NodeId, stack: seq<Frame>, below: seq<Frame>)
    requires n < |s.nodes| && HandedOver(c, s.Put(n, s.nodes[n].(stack := stack)), s', n, 1, below)
    ensures HandedOver(c, s, s', n, 1, below)
  {
    var s1 := s.Put(n, s.nodes[n].(stack := stack));
    forall m: NodeId | m < c.nodes && m != n
      ensures FirstAvailable(c, s, n, 1, m) <==> FirstAvailable(c, s1, n, 1, m)
    {
    }
    hide FirstAvailable, Delegated;
  }

  /** With a full queue it first runs the youngest task itself, and tries again. */
  lemma FullQueueRunsOwn(c: Config, s: State, n: NodeId, below: seq<Frame>, t: TaskId)
    requires AtCreate(c, s, n, below, Push(t)) && |s.nodes[n].queue| + 1 >= c.capacity && s.nodes[n].queue != []
    ensures var q := s.nodes[n].queue;
            Solo(c, s, n, 2) == s.Put(n, s.nodes[n].(
              queue := q[..|q| - 1],
              stack := below + [Creating(Push(t)), Executing(q[|q| - 1], false)]))
  {
    var q := s.nodes[n].queue;
    var s1 := s.Put(n, s.nodes[n].(stack := below + [Creating(PullInstead(t))]));
    var stack := below + [Creating(Push(t)), Executing(q[|q| - 1], false)];
    var s2 := s1.Put(n, s1.nodes[n].(queue := q[..|q| - 1], stack := stack));
    assert s.nodes[n].Goto(Creating(PullInstead(t))).stack == below + [Creating(PullInstead(t))];
    assert MovesTo(c, s, n, s1);
    assert s1.nodes[n].Goto(Creating(Push(t))).stack + [Executing(q[|q| - 1], false)] == stack;
    assert MovesTo(c, s1, n, s2);
    FirstStep(c, s, n, s1, 1);
    FirstStep(c, s1, n, s2, 0);
    hide MovesTo;
  }
}
