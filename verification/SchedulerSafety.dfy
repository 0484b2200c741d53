/** Where the tasks are, and what the steps of the scheduler keep. */
module SchedulerSafety {
  import opened Scheduler

  // ---- the places of a task ----

  datatype Place = InHand | InQueue | Taken | Executed

  function FrameCount(f: Frame, p: Place, t: TaskId): nat {
    match p
    case InHand => if f == Creating(Push(t)) || f == Creating(PullInstead(t)) then 1 else 0
    case InQueue => 0
    case Taken => if f == Executing(t, false) then 1 else 0
    case Executed => if f == Executing(t, true) then 1 else 0
  }

  function StackCount(stack: seq<Frame>, p: Place, t: TaskId): nat {
    if stack == [] then 0
    else StackCount(stack[..|stack| - 1], p, t) + FrameCount(stack[|stack| - 1], p, t)
  }

  function NodeCount(node: Node, p: Place, t: TaskId): nat {
    (if p.InQueue? then multiset(node.queue)[t] else 0) + StackCount(node.stack, p, t)
  }

  /** How often task t is at a place of kind p: in the hands of a call that is about to
      queue it, in a queue, pulled but not begun, or running. */
  function Count(nodes: seq<Node>, p: Place, t: TaskId): nat {
    if nodes == [] then 0
    else Count(nodes[..|nodes| - 1], p, t) + NodeCount(nodes[|nodes| - 1], p, t)
  }

  function Total(nodes: seq<Node>, t: TaskId): nat {
    Count(nodes, InHand, t) + Count(nodes, InQueue, t) + Count(nodes, Taken, t) + Count(nodes, Executed, t)
  }

  lemma {:induction false} CountUpdate(nodes: seq<Node>, i: nat, x: Node, p: Place, t: TaskId)
    requires i < |nodes|
    ensures Count(nodes[i := x], p, t) + NodeCount(nodes[i], p, t) == Count(nodes, p, t) + NodeCount(x, p, t)
  {
    var last := |nodes| - 1;
    if i < last {
      CountUpdate(nodes[..last], i, x, p, t);
      assert nodes[i := x][..last] == nodes[..last][i := x];
    } else {
      assert nodes[i := x][..last] == nodes[..last];
    }
  }

  lemma {:induction false} CountAtLeast(nodes: seq<Node>, i: nat, p: Place, t: TaskId)
    requires i < |nodes|
    ensures Count(nodes, p, t) >= NodeCount(nodes[i], p, t)
  {
    if i < |nodes| - 1 {
      CountAtLeast(nodes[..|nodes| - 1], i, p, t);
    }
  }

  lemma CallCount(node: Node, f: Frame, p: Place, t: TaskId)
    ensures NodeCount(node.Call(f), p, t) == NodeCount(node, p, t) + FrameCount(f, p, t)
  {
    assert (node.stack + [f])[..|node.stack|] == node.stack;
  }

  lemma ReturnCount(node: Node, p: Place, t: TaskId)
    requires node.stack != []
    ensures NodeCount(node.Return(), p, t) + FrameCount(node.Top(), p, t) == NodeCount(node, p, t)
  {
  }

  lemma GotoCount(node: Node, f: Frame, p: Place, t: TaskId)
    requires node.stack != []
    ensures NodeCount(node.Goto(f), p, t) + FrameCount(node.Top(), p, t)
         == NodeCount(node, p, t) + FrameCount(f, p, t)
  {
    hide StackCount, Count;
    ReturnCount(node, p, t);
    CallCount(node.Return(), f, p, t);
  }

  // ---- the move of a step ----

  datatype Spot = Nowhere | At(place: Place, task: TaskId)

  function Weight(spot: Spot, p: Place, t: TaskId): nat {
    if spot == At(p, t) then 1 else 0
  }

  /** The task a step moves, and where it was. */
  function From(s: State, a: Action): Spot
    requires a.n < |s.nodes|
  {
    var node := s.nodes[a.n];
    match a
    case Finish(n) => if node.Top().Executing? then At(Executed, node.Top().task) else Nowhere
    case Step(n, ok, id) => (
      match node.Top()
      case Loop(Deplete(_)) => if ok && node.queue != [] then At(InQueue, node.queue[|node.queue| - 1]) else Nowhere
      case Loop(Steal(k, _)) => StolenFrom(s, k, ok)
      case Loop(StealOther(_, k)) => StolenFrom(s, k, ok)
      case Loop(StealOnce(k)) => StolenFrom(s, k, ok)
      case Creating(PullInstead(_)) =>
        if ok && node.queue != [] then At(InQueue, node.queue[|node.queue| - 1]) else Nowhere
      case Creating(Push(t)) => if ok then At(InHand, t) else Nowhere
      case Executing(t, false) => At(Taken, t)
      case _ => Nowhere)
    case _ => Nowhere
  }

  function StolenFrom(s: State, k: NodeId, ok: bool): Spot {
    if ok && k < |s.nodes| && s.nodes[k].queue != [] then At(InQueue, s.nodes[k].queue[0]) else Nowhere
  }

  /** Where it goes. */
  function To(s: State, a: Action): Spot
    requires a.n < |s.nodes|
  {
    match From(s, a)
    case At(InQueue, t) => At(Taken, t)
    case At(InHand, t) => At(InQueue, t)
    case At(Taken, t) => At(Executed, t)
    case At(Executed, t) => Nowhere
    case Nowhere => if a.Step? && s.nodes[a.n].Top() == Creating(Emplace) then At(InHand, a.id) else Nowhere
  }

  lemma TakeBackCount(node: Node, p: Place, t: TaskId)
    requires node.queue != []
    ensures NodeCount(TakeBack(node), p, t) + Weight(At(InQueue, node.queue[|node.queue| - 1]), p, t)
         == NodeCount(node, p, t) + Weight(At(Taken, node.queue[|node.queue| - 1]), p, t)
  {
    hide StackCount, Count;
    var q := node.queue;
    var last := |q| - 1;
    assert q == q[..last] + [q[last]];
    CallCount(node.(queue := q[..last]), Executing(q[last], false), p, t);
  }

  lemma StealCount(s: State, n: NodeId, from: NodeId, f: Frame, p: Place, t: TaskId)
    requires n < |s.nodes| && from < |s.nodes| && from != n && s.nodes[from].queue != []
    requires s.nodes[n].stack != [] && s.nodes[n].Top().Loop? && f.Loop?
    ensures Count(StealTask(s, n, from, f).nodes, p, t) + Weight(At(InQueue, s.nodes[from].queue[0]), p, t)
         == Count(s.nodes, p, t) + Weight(At(Taken, s.nodes[from].queue[0]), p, t)
  {
    hide StackCount, Count;
    var victim, node := s.nodes[from], s.nodes[n];
    var q := victim.queue;
    assert q == [q[0]] + q[1..];
    var victim' := victim.(queue := q[1..]);
    CountUpdate(s.nodes, from, victim', p, t);
    GotoCount(node, f, p, t);
    CallCount(node.Goto(f), Executing(q[0], false), p, t);
    CountUpdate(s.nodes[from := victim'], n, node.Goto(f).Call(Executing(q[0], false)), p, t);
  }

  // ---- steps that move no task ----

  /** A frame that holds no task. */
  predicate Empty(f: Frame) {
    !f.Executing? && (f.Creating? ==> !f.create.Push? && !f.create.PullInstead?)
  }

  /** The queue stays, and the frames that change hold no task. */
  ghost predicate Still(a: Node, b: Node) {
    && a.queue == b.queue
    && (a.stack == b.stack
        || (a.stack != [] && Empty(a.Top()) && b.stack == a.Return().stack)
        || (a.stack != [] && Empty(a.Top()) && Empty(b.Top()) && b.stack == a.Goto(b.Top()).stack)
        || (b.stack != [] && Empty(b.Top()) && b.stack == a.Call(b.Top()).stack))
  }

  lemma StillCount(a: Node, b: Node, p: Place, t: TaskId)
    requires Still(a, b)
    ensures NodeCount(a, p, t) == NodeCount(b, p, t)
  {
    hide StackCount, Count;
    if a.stack != [] {
      ReturnCount(a, p, t);
      GotoCount(a, b.Top(), p, t);
    }
    CallCount(a, b.Top(), p, t);
  }

  lemma StillUpdate(nodes: seq<Node>, i: nat, x: Node, p: Place, t: TaskId)
    requires i < |nodes| && Still(nodes[i], x)
    ensures Count(nodes[i := x], p, t) == Count(nodes, p, t)
  {
    hide StackCount, Count;
    StillCount(nodes[i], x, p, t);
    CountUpdate(nodes, i, x, p, t);
  }

  /** Both nodes a step touches keep their tasks. */
  lemma StillTwo(nodes: seq<Node>, nodes': seq<Node>, n: nat, i: nat, p: Place, t: TaskId)
    requires n < |nodes| == |nodes'| && i < |nodes|
    requires nodes' == nodes[i := nodes'[i]][n := nodes'[n]]
    requires Still(nodes[n], nodes'[n]) && Still(nodes[i], nodes'[i])
    ensures Count(nodes', p, t) == Count(nodes, p, t)
  {
    hide StackCount, Count;
    StillUpdate(nodes, i, nodes'[i], p, t);
    if i != n {
      StillUpdate(nodes[i := nodes'[i]], n, nodes'[n], p, t);
    }
  }

  lemma NotifiedStill(node: Node)
    requires node.stack != []
    ensures Still(node, Notified(node))
  {
  }

  predicate LoopMoves(pc: LoopPc, ok: bool) {
    ok && (pc.Deplete? || Steals(pc))
  }

  lemma LoopStill(c: Config, s: State, n: NodeId, pc: LoopPc, ok: bool)
    requires n < |s.nodes| && c.nodes > 0 && s.nodes[n].stack != [] && s.nodes[n].Top() == Loop(pc)
    requires LoopEnabled(s, n, pc, ok) && !LoopMoves(pc, ok)
    ensures var s' := LoopStep(c, s, n, pc, ok);
            && |s'.nodes| == |s.nodes| && s'.nodes == s.nodes[n := s'.nodes[n]]
            && Still(s.nodes[n], s'.nodes[n])
  {
  }

  predicate CreateMoves(pc: CreatePc) {
    pc.Emplace? || pc.Push? || pc.PullInstead?
  }

  function Target(s: State, n: NodeId): NodeId
    requires n < |s.nodes|
  {
    match s.nodes[n].Top()
    case Creating(Exchange(i)) => i
    case Creating(StoreSteal(i)) => i
    case Creating(Pulse(i)) => i
    case Creating(Notify(i)) => i
    case Stopping(StopFlag(i)) => i
    case Stopping(StopPulse(i)) => i
    case Stopping(StopNotify(i)) => i
    case _ => n
  }

  lemma CreateStill(c: Config, s: State, n: NodeId, pc: CreatePc, ok: bool, id: TaskId)
    requires n < |s.nodes| && c.nodes > 0 && s.nodes[n].Top() == Creating(pc)
    requires forall i :: 0 <= i < |s.nodes| ==> s.nodes[i].stack != []
    requires CreateEnabled(c, s, n, pc, ok, id) && !CreateMoves(pc)
    ensures var s', i := CreateStep(c, s, n, pc, ok, id), Target(s, n);
            && i < |s.nodes| == |s'.nodes| && s'.nodes == s.nodes[i := s'.nodes[i]][n := s'.nodes[n]]
            && Still(s.nodes[n], s'.nodes[n]) && Still(s.nodes[i], s'.nodes[i])
  {
    if Reaches(pc) {
      ReachStill(c, s.nodes[n], s.nodes[pc.next], n, pc);
    }
  }

  lemma ReachStill(c: Config, node: Node, other: Node, n: NodeId, pc: CreatePc)
    requires node.stack != [] && other.stack != [] && node.Top() == Creating(pc) && Reaches(pc) && c.nodes > 0
    ensures Still(node, Resumed(c, pc, node, other)) && Still(other, Reached(pc, n, other))
  {
    ResumedStill(c, node, other, pc);
    NotifiedStill(other);
    hide Resumed, Notified;
  }

  lemma ResumedStill(c: Config, node: Node, other: Node, pc: CreatePc)
    requires node.stack != [] && node.Top() == Creating(pc) && Reaches(pc) && c.nodes > 0
    ensures Still(node, Resumed(c, pc, node, other))
  {
  }

  lemma StopStill(c: Config, s: State, n: NodeId, pc: StopPc)
    requires n < |s.nodes| == c.nodes && s.nodes[n].Top() == Stopping(pc)
    requires forall i :: 0 <= i < |s.nodes| ==> s.nodes[i].stack != []
    requires StopEnabled(c, pc)
    ensures var s', i := StopStep(c, s, n, pc), if Target(s, n) < c.nodes then Target(s, n) else n;
            && |s.nodes| == |s'.nodes| && s'.nodes == s.nodes[i := s'.nodes[i]][n := s'.nodes[n]]
            && Still(s.nodes[n], s'.nodes[n]) && Still(s.nodes[i], s'.nodes[i])
  {
    var i := if Target(s, n) < c.nodes then Target(s, n) else n;
    NotifiedStill(s.nodes[i]);
  }

  // ---- steps that move one ----

  lemma LoopCount(c: Config, s: State, n: NodeId, pc: LoopPc, ok: bool, id: TaskId, p: Place, t: TaskId)
    requires n < |s.nodes| && c.nodes > 0 && s.nodes[n].stack != [] && s.nodes[n].Top() == Loop(pc)
    requires LoopEnabled(s, n, pc, ok)
    ensures Count(LoopStep(c, s, n, pc, ok).nodes, p, t) + Weight(From(s, Step(n, ok, id)), p, t)
         == Count(s.nodes, p, t) + Weight(To(s, Step(n, ok, id)), p, t)
  {
    hide StackCount, Count;
    if LoopMoves(pc, ok) {
      match pc
      case Steal(k, _) => StealCount(s, n, k, Loop(Withdraw(k)), p, t);
      case StealOther(_, k) => StealCount(s, n, k, Loop(Deplete(k)), p, t);
      case StealOnce(k) => StealCount(s, n, k, Loop(Deplete(k)), p, t);
      case Deplete(k) =>
        TakeBackCount(s.nodes[n], p, t);
        CountUpdate(s.nodes, n, TakeBack(s.nodes[n]), p, t);
    } else {
      LoopStill(c, s, n, pc, ok);
      NoMove(s, n, pc, ok, id);
      hide LoopStep, LoopEnabled, From, To;
      var nodes' := LoopStep(c, s, n, pc, ok).nodes;
      StillUpdate(s.nodes, n, nodes'[n], p, t);
    }
  }

  lemma NoMove(s: State, n: NodeId, pc: LoopPc, ok: bool, id: TaskId)
    requires n < |s.nodes| && s.nodes[n].Top() == Loop(pc) && !LoopMoves(pc, ok)
    ensures From(s, Step(n, ok, id)) == To(s, Step(n, ok, id)) == Nowhere
  {
  }

  lemma CreateCount(c: Config, s: State, n: NodeId, pc: CreatePc, ok: bool, id: TaskId, p: Place, t: TaskId)
    requires n < |s.nodes| && c.nodes > 0 && s.nodes[n].Top() == Creating(pc)
    requires forall i :: 0 <= i < |s.nodes| ==> s.nodes[i].stack != []
    requires CreateEnabled(c, s, n, pc, ok, id)
    ensures Count(CreateStep(c, s, n, pc, ok, id).nodes, p, t) + Weight(From(s, Step(n, ok, id)), p, t)
         == Count(s.nodes, p, t) + Weight(To(s, Step(n, ok, id)), p, t)
  {
    hide StackCount, Count;
    var nodes' := CreateStep(c, s, n, pc, ok, id).nodes;
    if CreateMoves(pc) {
      CreateSpots(s, n, pc, ok, id);
      CreateNodeCount(c, n, s.nodes[n], pc, ok, id, p, t);
      hide From, To, CreateNode;
      CountUpdate(s.nodes, n, nodes'[n], p, t);
    } else {
      CreateStill(c, s, n, pc, ok, id);
      assert From(s, Step(n, ok, id)) == To(s, Step(n, ok, id)) == Nowhere;
      hide CreateStep, CreateEnabled, From, To;
      StillTwo(s.nodes, nodes', n, Target(s, n), p, t);
    }
  }

  function CreateFrom(node: Node, pc: CreatePc, ok: bool): Spot
    requires CreateMoves(pc) && (pc.PullInstead? && ok ==> node.queue != [])
  {
    match pc
    case Emplace => Nowhere
    case Push(x) => if ok then At(InHand, x) else Nowhere
    case PullInstead(_) => if ok then At(InQueue, node.queue[|node.queue| - 1]) else Nowhere
  }

  function CreateTo(node: Node, pc: CreatePc, ok: bool, id: TaskId): Spot
    requires CreateMoves(pc) && (pc.PullInstead? && ok ==> node.queue != [])
  {
    match pc
    case Emplace => At(InHand, id)
    case Push(x) => if ok then At(InQueue, x) else Nowhere
    case PullInstead(_) => if ok then At(Taken, node.queue[|node.queue| - 1]) else Nowhere
  }

  lemma CreateSpots(s: State, n: NodeId, pc: CreatePc, ok: bool, id: TaskId)
    requires n < |s.nodes| && s.nodes[n].Top() == Creating(pc) && CreateMoves(pc)
    requires pc.PullInstead? && ok ==> s.nodes[n].queue != []
    ensures From(s, Step(n, ok, id)) == CreateFrom(s.nodes[n], pc, ok)
    ensures To(s, Step(n, ok, id)) == CreateTo(s.nodes[n], pc, ok, id)
  {
  }

  lemma CreateNodeCount(c: Config, n: NodeId, node: Node, pc: CreatePc, ok: bool, id: TaskId, p: Place, t: TaskId)
    requires c.nodes > 0 && node.stack != [] && node.Top() == Creating(pc) && CreateMoves(pc)
    requires pc.PullInstead? ==> PullResult(node.queue, ok)
    ensures var node' := if pc.Emplace? then node.Goto(Creating(Push(id))) else CreateNode(c, n, node, pc, ok);
            NodeCount(node', p, t) + Weight(CreateFrom(node, pc, ok), p, t)
            == NodeCount(node, p, t) + Weight(CreateTo(node, pc, ok, id), p, t)
  {
    hide StackCount, Count;
    match pc
    case PullInstead(x) => PullInsteadCount(node, x, ok, p, t);
    case Push(x) => PushCount(node, x, (n + 1) % c.nodes, p, t);
    case Emplace => GotoCount(node, Creating(Push(id)), p, t);
  }

  lemma PullInsteadCount(node: Node, x: TaskId, ok: bool, p: Place, t: TaskId)
    requires node.stack != [] && node.Top() == Creating(PullInstead(x)) && (ok ==> node.queue != [])
    ensures NodeCount(node.Goto(Creating(Push(x))), p, t) == NodeCount(node, p, t)
    ensures ok ==>
              NodeCount(TakeBack(node.Goto(Creating(Push(x)))), p, t)
              + Weight(At(InQueue, node.queue[|node.queue| - 1]), p, t)
              == NodeCount(node, p, t) + Weight(At(Taken, node.queue[|node.queue| - 1]), p, t)
  {
    hide StackCount, Count;
    GotoCount(node, Creating(Push(x)), p, t);
    if ok {
      TakeBackCount(node.Goto(Creating(Push(x))), p, t);
    }
  }

  lemma PushCount(node: Node, x: TaskId, next: NodeId, p: Place, t: TaskId)
    requires node.stack != [] && node.Top() == Creating(Push(x))
    ensures NodeCount(node.(queue := node.queue + [x]).Goto(Creating(Delegate(next))), p, t)
            + Weight(At(InHand, x), p, t)
         == NodeCount(node, p, t) + Weight(At(InQueue, x), p, t)
    ensures NodeCount(node.Goto(Creating(PullInstead(x))), p, t) == NodeCount(node, p, t)
  {
    hide StackCount, Count;
    GotoCount(node.(queue := node.queue + [x]), Creating(Delegate(next)), p, t);
    GotoCount(node, Creating(PullInstead(x)), p, t);
  }

  /** Every step takes one task from one place to the next, or none. */
  lemma StepCount(c: Config, s: State, a: Action, p: Place, t: TaskId)
    requires c.Valid() && Enabled(c, s, a) && forall i :: 0 <= i < |s.nodes| ==> s.nodes[i].stack != []
    ensures Count(Next(c, s, a).nodes, p, t) + Weight(From(s, a), p, t)
         == Count(s.nodes, p, t) + Weight(To(s, a), p, t)
  {
    hide LoopStep, CreateStep, StopStep, LoopEnabled, CreateEnabled, StopEnabled, From, To, Weight, Count;
    if a.Step? {
      match s.nodes[a.n].Top()
      case Loop(pc) => LoopCount(c, s, a.n, pc, a.ok, a.id, p, t);
      case Creating(pc) => CreateCount(c, s, a.n, pc, a.ok, a.id, p, t);
      case Stopping(pc) => StopCount(c, s, a.n, pc, a.ok, a.id, p, t);
      case Executing(x, _) => BeginCount(s, a.n, x, a.ok, a.id, p, t);
    } else {
      CallStepCount(c, s, a, p, t);
    }
  }

  lemma StopCount(c: Config, s: State, n: NodeId, pc: StopPc, ok: bool, id: TaskId, p: Place, t: TaskId)
    requires n < |s.nodes| == c.nodes && s.nodes[n].Top() == Stopping(pc)
    requires forall i :: 0 <= i < |s.nodes| ==> s.nodes[i].stack != []
    requires StopEnabled(c, pc)
    ensures Count(StopStep(c, s, n, pc).nodes, p, t) == Count(s.nodes, p, t)
    ensures From(s, Step(n, ok, id)) == To(s, Step(n, ok, id)) == Nowhere
  {
    hide StackCount, Count;
    StopStill(c, s, n, pc);
    hide StopStep;
    StillTwo(s.nodes, StopStep(c, s, n, pc).nodes, n, if Target(s, n) < c.nodes then Target(s, n) else n, p, t);
  }

  lemma BeginCount(s: State, n: NodeId, x: TaskId, ok: bool, id: TaskId, p: Place, t: TaskId)
    requires n < |s.nodes| && s.nodes[n].stack != [] && s.nodes[n].Top() == Executing(x, false)
    ensures Count(s.nodes[n := s.nodes[n].Goto(Executing(x, true))], p, t) + Weight(From(s, Step(n, ok, id)), p, t)
         == Count(s.nodes, p, t) + Weight(To(s, Step(n, ok, id)), p, t)
  {
    hide StackCount, Count;
    GotoCount(s.nodes[n], Executing(x, true), p, t);
    CountUpdate(s.nodes, n, s.nodes[n].Goto(Executing(x, true)), p, t);
  }

  lemma CallStepCount(c: Config, s: State, a: Action, p: Place, t: TaskId)
    requires Enabled(c, s, a) && s.nodes[a.n].stack != [] && !a.Step?
    ensures Count(Next(c, s, a).nodes, p, t) + Weight(From(s, a), p, t)
         == Count(s.nodes, p, t) + Weight(To(s, a), p, t)
  {
    hide StackCount, Count;
    var node, node' := s.nodes[a.n], Next(c, s, a).nodes[a.n];
    CountUpdate(s.nodes, a.n, node', p, t);
    match a
    case WakeUp(_) => NotifiedStill(node); StillCount(node, node', p, t);
    case Finish(_) => ReturnCount(node, p, t);
    case NewTask(_) => CallCount(node, Creating(Emplace), p, t);
    case StopAll(_) => CallCount(node, Stopping(Raise), p, t);
  }
}
