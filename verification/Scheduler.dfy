/** The scheduler as a transition system: one thread per node, each with a queue of its
    own, a wake-up pulse and a stack of the calls it is in. The queues are the atomic
    deques of WorkQueueTheorems.dfy and the task map is the map of SlotMapTheorems.dfy;
    a pulse's critical sections are single steps, and its notification is another. */
module Scheduler {

  type NodeId = nat
  type TaskId = nat

  datatype Config = Config(nodes: nat, capacity: nat) {
    /** With a single node the search for another node to steal from never ends. */
    ghost predicate Valid() {
      nodes >= 2 && capacity > 0
    }
  }

  /** Where a node's main loop is. `steal` is the node it last stole from. */
  datatype LoopPc =
    | Begin
    | Deplete(steal: NodeId)
    | Announce(steal: NodeId)
    | TestStop(steal: NodeId, emptyRuns: nat)
    | Steal(steal: NodeId, emptyRuns: nat)
    | Withdraw(steal: NodeId)
    | Reread(steal: NodeId)
    | StealOther(steal: NodeId, other: NodeId)
    | Wait(steal: NodeId)
    | Blocked(steal: NodeId)
    | Woken(steal: NodeId)
    | Reload
    | StealOnce(steal: NodeId)
    | Exited

  datatype CreatePc =
    | Emplace
    | Push(task: TaskId)
    | PullInstead(task: TaskId)
    | Delegate(next: NodeId)
    | Exchange(next: NodeId)
    | StoreSteal(next: NodeId)
    | Pulse(next: NodeId)
    | Notify(next: NodeId)

  datatype StopPc =
    | Raise
    | StopFlag(next: NodeId)
    | StopPulse(next: NodeId)
    | StopNotify(next: NodeId)

  /** A call on a node's stack: `node_loop`, `new_task`, `execute` or `stop_scheduler`. */
  datatype Frame =
    | Loop(loop: LoopPc)
    | Creating(create: CreatePc)
    | Executing(task: TaskId, running: bool)
    | Stopping(stopping: StopPc)

  datatype Node = Node(
    queue: seq<TaskId>, stack: seq<Frame>, stop: bool, available: bool, stealFrom: NodeId,
    pulsed: bool, asleep: bool)
  {
    function Top(): Frame {
      if stack == [] then Loop(Exited) else stack[|stack| - 1]
    }

    function Return(): Node {
      this.(stack := if stack == [] then [] else stack[..|stack| - 1])
    }

    function Call(f: Frame): Node {
      this.(stack := stack + [f])
    }

    function Goto(f: Frame): Node {
      Return().Call(f)
    }

    /** The program counter of the main loop, also while a call is running. */
    function Main(): LoopPc {
      if stack == [] || !stack[0].Loop? then Exited else stack[0].loop
    }
  }

  /** The map from task ids to tasks holds each task's number of creation. History:
      how many tasks were `born`, which were `started` in what order, and whether some
      call of `stop_scheduler` has `stopped` every node. */
  datatype State = State(
    nodes: seq<Node>, tasks: map<TaskId, nat>, born: nat, started: seq<nat>, stopped: bool)
  {
    function Put(n: NodeId, node: Node): State
      requires n < |nodes|
    {
      this.(nodes := nodes[n := node])
    }
  }

  /** The next node to steal from: round the circle, leaving out the node itself. */
  function NextVictim(c: Config, self: NodeId, k: NodeId): NodeId
    requires c.nodes > 0
  {
    var k1 := (k + 1) % c.nodes;
    if k1 == self then (k1 + 1) % c.nodes else k1
  }

  // ---- the queues ----

  /** `ok` is the result of the owner's pull, `id` the task it yields. A failed pull
      means that at most one task was there. */
  predicate PullResult(queue: seq<TaskId>, ok: bool) {
    if ok then queue != [] else |queue| <= 1
  }

  predicate PushResult(c: Config, queue: seq<TaskId>, ok: bool) {
    if ok then |queue| < c.capacity else |queue| + 1 >= c.capacity
  }

  /** A steal may fail on any queue: the lock may be held. */
  predicate StealResult(queue: seq<TaskId>, ok: bool) {
    ok ==> queue != []
  }

  function TakeBack(node: Node): Node
    requires node.queue != []
  {
    var q := node.queue;
    node.(queue := q[..|q| - 1]).Call(Executing(q[|q| - 1], false))
  }

  /** Node n goes on at `f` and executes the oldest task of node `from`. */
  function StealTask(s: State, n: NodeId, from: NodeId, f: Frame): State
    requires n < |s.nodes| && from < |s.nodes| && from != n && s.nodes[from].queue != []
  {
    var victim := s.nodes[from];
    s.Put(from, victim.(queue := victim.queue[1..]))
     .Put(n, s.nodes[n].Goto(f).Call(Executing(victim.queue[0], false)))
  }

  // ---- the pulse ----

  function SetPulse(node: Node): Node {
    node.(pulsed := true, asleep := false)
  }

  /** A notification reaches the node only while it is blocked. */
  function Notified(node: Node): Node {
    if node.Top().Loop? && node.Top().loop.Blocked? then node.Goto(Loop(Woken(node.Top().loop.steal))) else node
  }

  /** The test of `wait`'s loop: leave with the pulse, or block. */
  function TestPulse(node: Node, steal: NodeId): Node {
    if node.pulsed then node.(pulsed := false, asleep := false).Goto(Loop(Reload))
    else node.Goto(Loop(Blocked(steal)))
  }

  // ---- the steps of the main loop ----

  /** The node a step steals from. */
  function Victim(pc: LoopPc): NodeId
    requires pc.Steal? || pc.StealOther? || pc.StealOnce?
  {
    match pc
    case Steal(k, _) => k
    case StealOther(_, k) => k
    case StealOnce(k) => k
  }

  predicate Steals(pc: LoopPc) {
    pc.Steal? || pc.StealOther? || pc.StealOnce?
  }

  predicate LoopEnabled(s: State, n: NodeId, pc: LoopPc, ok: bool)
    requires n < |s.nodes|
  {
    match pc
    case Deplete(_) => PullResult(s.nodes[n].queue, ok)
    case Blocked(_) => false
    case Exited => false
    case _ => Steals(pc) ==> Victim(pc) < |s.nodes| && Victim(pc) != n && StealResult(s.nodes[Victim(pc)].queue, ok)
  }

  function LoopStep(c: Config, s: State, n: NodeId, pc: LoopPc, ok: bool): State
    requires n < |s.nodes| && c.nodes > 0 && LoopEnabled(s, n, pc, ok)
  {
    if Steals(pc) && ok
    then StealTask(s, n, Victim(pc), Loop(if pc.Steal? then Withdraw(pc.steal) else Deplete(Victim(pc))))
    else s.Put(n, LoopNode(c, n, s.nodes[n], pc, ok))
  }

  /** A step that steals nothing. */
  function LoopNode(c: Config, n: NodeId, node: Node, pc: LoopPc, ok: bool): Node
    requires c.nodes > 0 && (pc.Deplete? ==> PullResult(node.queue, ok))
  {
    match pc
    case Begin => node.Goto(Loop(Deplete(node.stealFrom)))
    case Deplete(k) => if ok then TakeBack(node) else node.Goto(Loop(Announce(k)))
    case Announce(k) => node.(available := true).Goto(Loop(TestStop(k, 0)))
    case TestStop(k, runs) => node.Goto(Loop(if node.stop then Exited else Steal(NextVictim(c, n, k), runs)))
    case Steal(k, runs) => node.Goto(Loop(if runs + 1 == c.nodes then Wait(k) else TestStop(k, runs + 1)))
    case Withdraw(k) => node.(available := false).Goto(Loop(if node.available then Deplete(k) else Reread(k)))
    case Reread(k) =>
      node.Goto(Loop(if k != node.stealFrom then StealOther(k, node.stealFrom) else Deplete(k)))
    case StealOther(k, _) => node.Goto(Loop(Deplete(k)))
    case Wait(k) => TestPulse(node.(asleep := true), k)
    case Woken(k) => TestPulse(node, k)
    case Reload => node.Goto(Loop(StealOnce(node.stealFrom)))
    case StealOnce(k) => node.Goto(Loop(Deplete(k)))
    case Blocked(_) => node
    case Exited => node
  }

  // ---- the steps of a call that creates a task ----

  /** The steps on another node: withdrawing its availability, naming the node to steal
      from, pulsing and notifying it. */
  predicate Reaches(pc: CreatePc) {
    pc.Exchange? || pc.StoreSteal? || pc.Pulse? || pc.Notify?
  }

  predicate CreateEnabled(c: Config, s: State, n: NodeId, pc: CreatePc, ok: bool, id: TaskId)
    requires n < |s.nodes|
  {
    match pc
    case Emplace => id !in s.tasks
    case Push(_) => PushResult(c, s.nodes[n].queue, ok)
    case PullInstead(_) => PullResult(s.nodes[n].queue, ok)
    case Delegate(_) => true
    case _ => pc.next < |s.nodes| && pc.next != n
  }

  function CreateStep(c: Config, s: State, n: NodeId, pc: CreatePc, ok: bool, id: TaskId): State
    requires n < |s.nodes| && c.nodes > 0 && CreateEnabled(c, s, n, pc, ok, id)
  {
    var node := s.nodes[n];
    if pc.Emplace? then
      s.(tasks := s.tasks[id := s.born], born := s.born + 1).Put(n, node.Goto(Creating(Push(id))))
    else if Reaches(pc) then
      s.Put(pc.next, Reached(pc, n, s.nodes[pc.next])).Put(n, Resumed(c, pc, node, s.nodes[pc.next]))
    else
      s.Put(n, CreateNode(c, n, node, pc, ok))
  }

  function CreateNode(c: Config, n: NodeId, node: Node, pc: CreatePc, ok: bool): Node
    requires c.nodes > 0 && !pc.Emplace? && !Reaches(pc) && (pc.PullInstead? ==> PullResult(node.queue, ok))
  {
    match pc
    case Push(t) =>
      if ok then node.(queue := node.queue + [t]).Goto(Creating(Delegate((n + 1) % c.nodes)))
      else node.Goto(Creating(PullInstead(t)))
    case PullInstead(t) =>
      if ok then TakeBack(node.Goto(Creating(Push(t)))) else node.Goto(Creating(Push(t)))
    // `ok`: the queue's size is seen to be above one.
    case Delegate(i) => if ok && i != n then node.Goto(Creating(Exchange(i))) else node.Return()
  }

  /** What the step does to the other node. */
  function Reached(pc: CreatePc, n: NodeId, other: Node): Node
    requires Reaches(pc)
  {
    match pc
    case Exchange(_) => other.(available := false)
    case StoreSteal(_) => other.(stealFrom := n)
    case Pulse(_) => SetPulse(other)
    case Notify(_) => Notified(other)
  }

  /** How the call goes on. */
  function Resumed(c: Config, pc: CreatePc, node: Node, other: Node): Node
    requires c.nodes > 0 && Reaches(pc)
  {
    match pc
    case Exchange(i) => node.Goto(Creating(if other.available then StoreSteal(i) else Delegate((i + 1) % c.nodes)))
    case StoreSteal(i) => node.Goto(Creating(Pulse(i)))
    case Pulse(i) => if other.asleep then node.Goto(Creating(Notify(i))) else node.Return()
    case Notify(_) => node.Return()
  }

  // ---- the steps of a call that stops the scheduler ----

  predicate StopEnabled(c: Config, pc: StopPc) {
    match pc
    case Raise => true
    case StopFlag(i) => i <= c.nodes
    case StopPulse(i) => i < c.nodes
    case StopNotify(i) => i < c.nodes
  }

  /** The node may be its own target. */
  function StopStep(c: Config, s: State, n: NodeId, pc: StopPc): State
    requires n < |s.nodes| == c.nodes && StopEnabled(c, pc)
  {
    if pc.Raise? then
      s.Put(n, if s.nodes[n].stop then s.nodes[n].Return()
               else s.nodes[n].(stop := true).Goto(Stopping(StopFlag(0))))
    else if pc == StopFlag(c.nodes) then
      s.(stopped := true).Put(n, s.nodes[n].Return())
    else
      var s1 := s.Put(pc.next, Stopped(pc, s.nodes[pc.next]));
      s1.Put(n, s1.nodes[n].Goto(Stopping(NextStop(pc, s.nodes[pc.next].asleep))))
  }

  function Stopped(pc: StopPc, other: Node): Node
    requires !pc.Raise?
  {
    match pc
    case StopFlag(_) => other.(stop := true)
    case StopPulse(_) => SetPulse(other)
    case StopNotify(_) => Notified(other)
  }

  function NextStop(pc: StopPc, asleep: bool): StopPc
    requires !pc.Raise?
  {
    match pc
    case StopFlag(i) => StopPulse(i)
    case StopPulse(i) => if asleep then StopNotify(i) else StopFlag(i + 1)
    case StopNotify(i) => StopFlag(i + 1)
  }

  // ---- the machine ----

  /** `Step` lets node n go on; `NewTask`, `StopAll` and `Finish` are what the closure it
      runs does next; `WakeUp` is a condition variable's wake-up without a cause. */
  datatype Action =
    | Step(n: NodeId, ok: bool, id: TaskId)
    | NewTask(n: NodeId)
    | StopAll(n: NodeId)
    | Finish(n: NodeId)
    | WakeUp(n: NodeId)

  predicate Running(s: State, n: NodeId)
    requires n < |s.nodes|
  {
    s.nodes[n].Top().Executing? && s.nodes[n].Top().running
  }

  predicate StepEnabled(c: Config, s: State, n: NodeId, ok: bool, id: TaskId)
    requires n < |s.nodes|
  {
    s.nodes[n].stack != [] &&
    match s.nodes[n].Top()
    case Loop(pc) => LoopEnabled(s, n, pc, ok)
    case Creating(pc) => CreateEnabled(c, s, n, pc, ok, id)
    case Executing(t, running) => !running && t in s.tasks
    case Stopping(pc) => StopEnabled(c, pc)
  }

  function StepNode(c: Config, s: State, n: NodeId, ok: bool, id: TaskId): State
    requires n < |s.nodes| == c.nodes && StepEnabled(c, s, n, ok, id)
  {
    match s.nodes[n].Top()
    case Loop(pc) => LoopStep(c, s, n, pc, ok)
    case Creating(pc) => CreateStep(c, s, n, pc, ok, id)
    case Executing(t, _) =>
      s.(started := s.started + [s.tasks[t]]).Put(n, s.nodes[n].Goto(Executing(t, true)))
    case Stopping(pc) => StopStep(c, s, n, pc)
  }

  predicate Enabled(c: Config, s: State, a: Action) {
    && |s.nodes| == c.nodes && a.n < |s.nodes|
    && match a
       case Step(n, ok, id) => StepEnabled(c, s, n, ok, id)
       case WakeUp(n) => s.nodes[n].Top().Loop? && s.nodes[n].Top().loop.Blocked?
       case _ => Running(s, a.n)
  }

  function Next(c: Config, s: State, a: Action): State
    requires Enabled(c, s, a)
  {
    var node := s.nodes[a.n];
    match a
    case Step(n, ok, id) => StepNode(c, s, n, ok, id)
    case NewTask(n) => s.Put(n, node.Call(Creating(Emplace)))
    case StopAll(n) => s.Put(n, node.Call(Stopping(Raise)))
    // The task is erased when its closure returns.
    case Finish(n) => s.(tasks := s.tasks - {node.Top().task}).Put(n, node.Return())
    case WakeUp(n) => s.Put(n, Notified(node))
  }

  function FreshNode(c: Config, n: NodeId): Node
    requires c.nodes > 0
  {
    // The root task is created by node 0 before it enters its loop.
    Node([], if n == 0 then [Loop(Begin), Creating(Emplace)] else [Loop(Begin)],
         false, false, (n + 1) % c.nodes, false, false)
  }

  function Init(c: Config): State
    requires c.nodes > 0
  {
    State(seq(c.nodes, (n: nat) => FreshNode(c, n)), map[], 0, [], false)
  }
}
