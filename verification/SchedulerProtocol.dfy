/** The sleep, wake-up and stop protocol of the nodes. */
module SchedulerProtocol {
  import opened Scheduler

  // ---- the shape of a node ----

  /** Where a main loop can be while a call runs above it. */
  predicate Calls(pc: LoopPc) {
    pc.Begin? || pc.Deplete? || pc.Withdraw?
  }

  /** The part of the loop between emptying the queue and filling it again. */
  predicate Drained(pc: LoopPc) {
    !Calls(pc) && !pc.Reread? && !pc.StealOther?
  }

  /** The part of the loop from which a node may go to sleep before it tests its flag. */
  predicate BeforeSleep(pc: LoopPc) {
    pc.Steal? || pc.Wait? || pc.Blocked? || pc.Woken?
  }

  predicate InWait(pc: LoopPc) {
    pc.Blocked? || pc.Woken?
  }

  /** `node_loop` steals from other nodes and counts fewer empty runs than nodes. */
  ghost predicate LoopOk(c: Config, n: NodeId, pc: LoopPc) {
    match pc
    case Begin => true
    case Reload => true
    case Exited => true
    case TestStop(k, runs) => k < c.nodes && k != n && runs < c.nodes
    case Steal(k, runs) => k < c.nodes && k != n && runs < c.nodes
    case StealOther(k, other) => k < c.nodes && k != n && other < c.nodes && other != n
    case _ => pc.steal < c.nodes && pc.steal != n
  }

  /** A node steals from, and wakes, only other nodes. */
  ghost predicate FrameOk(c: Config, n: NodeId, f: Frame) {
    match f
    case Loop(pc) => LoopOk(c, n, pc)
    case Creating(Delegate(i)) => i < c.nodes
    case Creating(pc) => Reaches(pc) ==> pc.next < c.nodes && pc.next != n
    case Executing(_, _) => true
    case Stopping(Raise) => true
    case Stopping(StopFlag(i)) => i <= c.nodes
    case Stopping(StopPulse(i)) => i < c.nodes
    case Stopping(StopNotify(i)) => i < c.nodes
  }

  /** A frame that waits for a call above it. */
  predicate Suspended(f: Frame) {
    match f
    case Loop(pc) => Calls(pc)
    case Creating(pc) => pc.Push?
    case Executing(_, running) => running
    case Stopping(_) => false
  }

  ghost predicate StackOk(c: Config, n: NodeId, stack: seq<Frame>) {
    && stack != [] && stack[0].Loop?
    && (forall k :: 0 <= k < |stack| - 1 ==> Suspended(stack[k]))
    && (forall k :: 0 <= k < |stack| ==> FrameOk(c, n, stack[k]))
    && (forall k :: 0 < k < |stack| ==> !stack[k].Loop?)
  }

  /** While it waits, a node is asleep exactly until it is pulsed; at other times it is
      not asleep. Between emptying its queue and running a task it has at most one task. */
  ghost predicate NodeOk(c: Config, n: NodeId, node: Node) {
    && StackOk(c, n, node.stack)
    && node.stealFrom < c.nodes && node.stealFrom != n
    && (node.asleep <==> InWait(node.Main()) && !node.pulsed)
    && (Drained(node.Main()) ==> |node.queue| <= 1)
  }

  lemma NextVictimOk(c: Config, n: NodeId, k: NodeId)
    requires c.nodes >= 2 && n < c.nodes
    ensures NextVictim(c, n, k) < c.nodes && NextVictim(c, n, k) != n
  {
    var k1 := (k + 1) % c.nodes;
    if k1 == n {
      assert (n + 1) % c.nodes == if n + 1 == c.nodes then 0 else n + 1;
    }
  }

  // ---- what other nodes do to a node ----

  ghost predicate Touched(c: Config, n: NodeId, a: Node, b: Node) {
    || b == a
    || (a.queue != [] && b == a.(queue := a.queue[1..]))
    || b == a.(available := false)
    || (b == a.(stealFrom := b.stealFrom) && b.stealFrom < c.nodes && b.stealFrom != n)
    || b == SetPulse(a)
    || b == Notified(a)
    || b == a.(stop := true)
  }

  lemma TouchedOk(c: Config, n: NodeId, a: Node, b: Node)
    requires NodeOk(c, n, a) && Touched(c, n, a, b)
    ensures NodeOk(c, n, b)
    ensures b.stack == a.stack || (a.stack == [a.Top()] && a.Main().Blocked? && b.stack == [b.Top()] && b.Main().Woken?)
  {
    TopOk(c, n, a.stack);
    if a.stack == b.stack {
      hide StackOk;
      assert a.Main() == b.Main();
    } else {
      NotifiedOk(c, n, a);
    }
  }

  lemma NotifiedOk(c: Config, n: NodeId, node: Node)
    requires NodeOk(c, n, node) && Notified(node) != node
    ensures node.stack == [node.Top()] && node.Main().Blocked?
    ensures NodeOk(c, n, Notified(node)) && Notified(node).stack == [Notified(node).Top()] && Notified(node).Main().Woken?
  {
    TopOk(c, n, node.stack);
  }

  // ---- what a node does itself ----

  lemma GotoOk(c: Config, n: NodeId, node: Node, f: Frame)
    requires StackOk(c, n, node.stack) && FrameOk(c, n, f) && (f.Loop? <==> |node.stack| == 1)
    ensures StackOk(c, n, node.Goto(f).stack)
    ensures node.Goto(f).Main() == if f.Loop? then f.loop else node.Main()
  {
  }

  lemma CallOk(c: Config, n: NodeId, node: Node, f: Frame)
    requires StackOk(c, n, node.stack) && FrameOk(c, n, f) && !f.Loop? && Suspended(node.Top())
    ensures StackOk(c, n, node.Call(f).stack) && node.Call(f).Main() == node.Main()
  {
  }

  lemma ReturnOk(c: Config, n: NodeId, node: Node)
    requires StackOk(c, n, node.stack) && !node.Top().Loop?
    ensures |node.stack| > 1 && Calls(node.Main())
    ensures StackOk(c, n, node.Return().stack) && node.Return().Main() == node.Main()
    ensures Suspended(node.Return().Top())
  {
  }

  lemma TopOk(c: Config, n: NodeId, stack: seq<Frame>)
    requires StackOk(c, n, stack)
    ensures stack != []
    ensures FrameOk(c, n, stack[|stack| - 1])
    ensures stack[|stack| - 1].Loop? <==> |stack| == 1
    ensures |stack| > 1 ==> Calls(stack[0].loop)
  {
  }

  lemma LoopNodeOk(c: Config, n: NodeId, node: Node, pc: LoopPc, ok: bool)
    requires c.Valid() && n < c.nodes && NodeOk(c, n, node) && node.Top() == Loop(pc)
    requires pc.Deplete? ==> PullResult(node.queue, ok)
    requires !pc.Blocked? && !pc.Exited?
    ensures NodeOk(c, n, LoopNode(c, n, node, pc, ok))
  {
    hide StackOk;
    TopOk(c, n, node.stack);
    match pc
    case TestStop(k, runs) =>
      NextVictimOk(c, n, k);
      GotoOk(c, n, node, Loop(if node.stop then Exited else Steal(NextVictim(c, n, k), runs)));
    case Deplete(k) =>
      if ok {
        CallOk(c, n, node, Executing(node.queue[|node.queue| - 1], false));
      } else {
        GotoOk(c, n, node, Loop(Announce(k)));
      }
    case _ => LoopNodeOkRest(c, n, node, pc, ok);
  }

  lemma LoopNodeOkRest(c: Config, n: NodeId, node: Node, pc: LoopPc, ok: bool)
    requires c.Valid() && n < c.nodes && NodeOk(c, n, node) && node.Top() == Loop(pc)
    requires !pc.Deplete? && !pc.TestStop? && !pc.Blocked? && !pc.Exited?
    ensures NodeOk(c, n, LoopNode(c, n, node, pc, ok))
  {
    hide StackOk;
    TopOk(c, n, node.stack);
    if pc.Wait? || pc.Woken? {
      GotoOk(c, n, node, Loop(if node.pulsed then Reload else Blocked(pc.steal)));
    } else {
      LoopNodeOkPlain(c, n, node, pc, ok);
    }
  }

  lemma LoopNodeOkPlain(c: Config, n: NodeId, node: Node, pc: LoopPc, ok: bool)
    requires c.Valid() && n < c.nodes && NodeOk(c, n, node) && node.Top() == Loop(pc)
    requires !pc.Deplete? && !pc.TestStop? && !pc.Blocked? && !pc.Exited? && !pc.Wait? && !pc.Woken?
    ensures NodeOk(c, n, LoopNode(c, n, node, pc, ok))
  {
    hide StackOk;
    TopOk(c, n, node.stack);
    GotoOk(c, n, node, LoopNode(c, n, node, pc, ok).Top());
  }

  lemma CreateNodeOk(c: Config, n: NodeId, node: Node, pc: CreatePc, ok: bool)
    requires c.Valid() && n < c.nodes && NodeOk(c, n, node) && node.Top() == Creating(pc)
    requires !pc.Emplace? && !Reaches(pc) && (pc.PullInstead? ==> PullResult(node.queue, ok))
    ensures NodeOk(c, n, CreateNode(c, n, node, pc, ok))
  {
    hide StackOk;
    TopOk(c, n, node.stack);
    ReturnOk(c, n, node);
    match pc
    case Push(t) =>
      GotoOk(c, n, node, Creating(if ok then Delegate((n + 1) % c.nodes) else PullInstead(t)));
    case PullInstead(t) =>
      GotoOk(c, n, node, Creating(Push(t)));
      if ok {
        CallOk(c, n, node.Goto(Creating(Push(t))), Executing(node.queue[|node.queue| - 1], false));
      }
    case Delegate(i) =>
      if ok && i != n {
        GotoOk(c, n, node, Creating(Exchange(i)));
      }
  }

  lemma ResumedOk(c: Config, n: NodeId, node: Node, pc: CreatePc, other: Node)
    requires c.Valid() && n < c.nodes && NodeOk(c, n, node) && node.Top() == Creating(pc) && Reaches(pc)
    ensures NodeOk(c, n, Resumed(c, pc, node, other))
  {
    hide StackOk;
    TopOk(c, n, node.stack);
    ReturnOk(c, n, node);
    if Resumed(c, pc, node, other) != node.Return() {
      GotoOk(c, n, node, Resumed(c, pc, node, other).Top());
    }
  }

  lemma StealerOk(c: Config, n: NodeId, node: Node, pc: LoopPc, task: TaskId)
    requires c.Valid() && NodeOk(c, n, node) && node.Top() == Loop(pc) && Steals(pc)
    ensures NodeOk(c, n, node.Goto(Loop(if pc.Steal? then Withdraw(pc.steal) else Deplete(Victim(pc))))
                             .Call(Executing(task, false)))
  {
    hide StackOk;
    TopOk(c, n, node.stack);
    var f := Loop(if pc.Steal? then Withdraw(pc.steal) else Deplete(Victim(pc)));
    GotoOk(c, n, node, f);
    CallOk(c, n, node.Goto(f), Executing(task, false));
  }

  lemma StopNodeOk(c: Config, n: NodeId, node: Node, pc: StopPc, pc': StopPc)
    requires NodeOk(c, n, node) && node.Top() == Stopping(pc) && FrameOk(c, n, Stopping(pc'))
    ensures NodeOk(c, n, node.Return()) && NodeOk(c, n, node.Goto(Stopping(pc')))
  {
    hide StackOk;
    TopOk(c, n, node.stack);
    ReturnOk(c, n, node);
    GotoOk(c, n, node, Stopping(pc'));
  }

  // ---- the invariant ----

  /** A call that is about to notify node i. */
  predicate Notifies(f: Frame, i: NodeId) {
    f == Creating(Notify(i)) || f == Stopping(StopNotify(i))
  }

  /** A call that has withdrawn node i's availability and has not yet pulsed it. */
  predicate WillPulse(f: Frame, i: NodeId) {
    f == Creating(StoreSteal(i)) || f == Creating(Pulse(i))
  }

  /** A call of `stop_scheduler` that has pulsed node i. */
  predicate HasStopped(f: Frame, i: NodeId) {
    && f.Stopping? && !f.stopping.Raise?
    && (i < f.stopping.next || (f.stopping.StopNotify? && i == f.stopping.next))
  }

  ghost predicate SomeNotifies(s: State, i: NodeId) {
    exists m :: 0 <= m < |s.nodes| && Notifies(s.nodes[m].Top(), i)
  }

  ghost predicate SomeWillPulse(s: State, i: NodeId) {
    exists m :: 0 <= m < |s.nodes| && WillPulse(s.nodes[m].Top(), i)
  }

  /** Node i sees its flag before it can sleep. */
  ghost predicate StopOk(node: Node) {
    node.stop && (BeforeSleep(node.Main()) ==> node.pulsed)
  }

  /** A pulsed node that is blocked has a notification under way. */
  ghost predicate NotifyOk(s: State, i: NodeId)
    requires i < |s.nodes|
  {
    s.nodes[i].Main().Blocked? && s.nodes[i].pulsed ==> SomeNotifies(s, i)
  }

  /** A node that is asleep, or about to be, can be woken or is being woken. */
  ghost predicate WakeOk(s: State, i: NodeId)
    requires i < |s.nodes|
  {
    BeforeSleep(s.nodes[i].Main()) || s.nodes[i].Main().TestStop? ==>
      s.nodes[i].available || s.nodes[i].pulsed || SomeWillPulse(s, i)
  }

  ghost predicate StopsOk(s: State, i: NodeId)
    requires i < |s.nodes|
  {
    && (s.stopped ==> StopOk(s.nodes[i]))
    && (forall m :: 0 <= m < |s.nodes| && HasStopped(s.nodes[m].Top(), i) ==> StopOk(s.nodes[i]))
    && (forall m :: 0 <= m < |s.nodes| && s.nodes[m].Top() == Stopping(StopPulse(i)) ==> s.nodes[i].stop)
  }

  ghost predicate Inv(c: Config, s: State) {
    && c.Valid() && |s.nodes| == c.nodes
    && (forall i :: 0 <= i < c.nodes ==> NodeOk(c, i, s.nodes[i]))
    && (forall i :: 0 <= i < c.nodes ==> NotifyOk(s, i))
    && (forall i :: 0 <= i < c.nodes ==> WakeOk(s, i))
    && (forall i :: 0 <= i < c.nodes ==> StopsOk(s, i))
  }

  /** The invariant, as far as it is about node i. */
  lemma OfNode(c: Config, s: State, i: NodeId)
    requires Inv(c, s) && i < c.nodes
    ensures c.Valid() && |s.nodes| == c.nodes
    ensures NodeOk(c, i, s.nodes[i]) && NotifyOk(s, i) && WakeOk(s, i) && StopsOk(s, i)
  {
  }

  // ---- one step, seen from the node that makes it and from the others ----

  lemma LoopStepOk(c: Config, s: State, n: NodeId, pc: LoopPc, ok: bool, j: NodeId)
    requires c.Valid() && n < |s.nodes| == c.nodes && j < c.nodes
    requires NodeOk(c, n, s.nodes[n]) && s.nodes[n].Top() == Loop(pc) && LoopEnabled(s, n, pc, ok)
    ensures var s' := LoopStep(c, s, n, pc, ok);
            && |s'.nodes| == c.nodes
            && (j == n ==> NodeOk(c, n, s'.nodes[n]))
            && (j != n ==> Touched(c, j, s.nodes[j], s'.nodes[j]))
  {
    hide NodeOk;
    if Steals(pc) && ok {
      StealerOk(c, n, s.nodes[n], pc, s.nodes[Victim(pc)].queue[0]);
    } else {
      LoopNodeOk(c, n, s.nodes[n], pc, ok);
    }
  }

  lemma CreateStepOk(c: Config, s: State, n: NodeId, pc: CreatePc, ok: bool, id: TaskId, j: NodeId)
    requires c.Valid() && n < |s.nodes| == c.nodes && j < c.nodes
    requires NodeOk(c, n, s.nodes[n]) && s.nodes[n].Top() == Creating(pc) && CreateEnabled(c, s, n, pc, ok, id)
    ensures var s' := CreateStep(c, s, n, pc, ok, id);
            && |s'.nodes| == c.nodes
            && (j == n ==> NodeOk(c, n, s'.nodes[n]))
            && (j != n ==> Touched(c, j, s.nodes[j], s'.nodes[j]))
  {
    var node := s.nodes[n];
    if pc.Emplace? {
      TopOk(c, n, node.stack);
      GotoOk(c, n, node, Creating(Push(id)));
    } else if Reaches(pc) {
      ResumedOk(c, n, node, pc, s.nodes[pc.next]);
    } else {
      CreateNodeOk(c, n, node, pc, ok);
    }
  }

  lemma RaiseOk(c: Config, n: NodeId, node: Node)
    requires NodeOk(c, n, node)
    ensures NodeOk(c, n, node.(stop := true))
  {
  }

  lemma StopStepOk(c: Config, s: State, n: NodeId, pc: StopPc, j: NodeId)
    requires c.Valid() && n < |s.nodes| == c.nodes && j < c.nodes
    requires NodeOk(c, n, s.nodes[n]) && s.nodes[n].Top() == Stopping(pc) && StopEnabled(c, pc)
    ensures var s' := StopStep(c, s, n, pc);
            && |s'.nodes| == c.nodes
            && (j == n ==> NodeOk(c, n, s'.nodes[n]))
            && (j != n ==> Touched(c, j, s.nodes[j], s'.nodes[j]))
  {
    hide NodeOk, StackOk;
    var node := s.nodes[n];
    if pc.Raise? {
      RaiseOk(c, n, node);
      StopNodeOk(c, n, node.(stop := true), pc, StopFlag(0));
      StopNodeOk(c, n, node, pc, StopFlag(0));
    } else if pc == StopFlag(c.nodes) {
      StopNodeOk(c, n, node, pc, pc);
    } else {
      var node1 := if pc.next == n then Stopped(pc, node) else node;
      TouchedOk(c, n, node, node1);
      StopNodeOk(c, n, node1, pc, NextStop(pc, s.nodes[pc.next].asleep));
    }
  }

  lemma StepOk(c: Config, s: State, a: Action, j: NodeId)
    requires c.Valid() && Enabled(c, s, a) && NodeOk(c, a.n, s.nodes[a.n]) && j < c.nodes
    ensures var s' := Next(c, s, a);
            && |s'.nodes| == c.nodes
            && (j == a.n ==> NodeOk(c, j, s'.nodes[j]))
            && (j != a.n ==> Touched(c, j, s.nodes[j], s'.nodes[j]))
  {
    var n, node := a.n, s.nodes[a.n];
    match a
    case Step(_, ok, id) => StepNodeOk(c, s, n, ok, id, j);
    case WakeUp(_) => TouchedOk(c, n, node, Notified(node));
    case NewTask(_) => TopOk(c, n, node.stack); CallOk(c, n, node, Creating(Emplace));
    case StopAll(_) => TopOk(c, n, node.stack); CallOk(c, n, node, Stopping(Raise));
    case Finish(_) => ReturnOk(c, n, node);
  }

  lemma StepNodeOk(c: Config, s: State, n: NodeId, ok: bool, id: TaskId, j: NodeId)
    requires c.Valid() && n < |s.nodes| == c.nodes && StepEnabled(c, s, n, ok, id)
    requires NodeOk(c, n, s.nodes[n]) && j < c.nodes
    ensures var s' := StepNode(c, s, n, ok, id);
            && |s'.nodes| == c.nodes
            && (j == n ==> NodeOk(c, j, s'.nodes[j]))
            && (j != n ==> Touched(c, j, s.nodes[j], s'.nodes[j]))
  {
    hide LoopStep, CreateStep, StopStep, LoopEnabled, CreateEnabled, StopEnabled;
    match s.nodes[n].Top()
    case Loop(pc) => LoopStepOk(c, s, n, pc, ok, j);
    case Creating(pc) => CreateStepOk(c, s, n, pc, ok, id, j);
    case Stopping(pc) => StopStepOk(c, s, n, pc, j);
    case Executing(t, _) => GotoOk(c, n, s.nodes[n], Executing(t, true));
  }

  // ---- the calls that pulse and notify ----

  lemma ReachEffect(c: Config, s: State, n: NodeId, pc: CreatePc, ok: bool, id: TaskId, i: NodeId)
    requires n < |s.nodes| == c.nodes && s.nodes[n].Top() == Creating(pc) && s.nodes[n].stack != []
    requires CreateEnabled(c, s, n, pc, ok, id) && i < c.nodes && i != n
    ensures var s' := CreateStep(c, s, n, pc, ok, id);
            && (!s.nodes[i].pulsed && s'.nodes[i].pulsed && s.nodes[i].asleep ==> Notifies(s'.nodes[n].Top(), i))
            && (Notifies(s.nodes[n].Top(), i) ==> s'.nodes[i] == Notified(s.nodes[i]))
            && (WillPulse(s.nodes[n].Top(), i) ==> WillPulse(s'.nodes[n].Top(), i) || s'.nodes[i].pulsed)
            && (s.nodes[i].available && !s'.nodes[i].available ==> WillPulse(s'.nodes[n].Top(), i))
  {
    if Reaches(pc) {
      hide CreateNode, CreateEnabled;
    }
  }

  lemma StopEffect(c: Config, s: State, n: NodeId, pc: StopPc, i: NodeId)
    requires n < |s.nodes| == c.nodes && s.nodes[n].Top() == Stopping(pc) && s.nodes[n].stack != []
    requires StopEnabled(c, pc) && i < c.nodes && i != n
    ensures var s' := StopStep(c, s, n, pc);
            && (!s.nodes[i].pulsed && s'.nodes[i].pulsed && s.nodes[i].asleep ==> Notifies(s'.nodes[n].Top(), i))
            && (Notifies(s.nodes[n].Top(), i) ==> s'.nodes[i] == Notified(s.nodes[i]))
            && s.nodes[i].available == s'.nodes[i].available
  {
  }

  lemma OtherEffect(c: Config, s: State, a: Action, i: NodeId)
    requires Enabled(c, s, a) && i < c.nodes && i != a.n && s.nodes[a.n].stack != []
    requires !(a.Step? && (s.nodes[a.n].Top().Creating? || s.nodes[a.n].Top().Stopping?))
    ensures var s' := Next(c, s, a);
            && s'.nodes[i].pulsed == s.nodes[i].pulsed && s'.nodes[i].available == s.nodes[i].available
    ensures !Notifies(s.nodes[a.n].Top(), i) && !WillPulse(s.nodes[a.n].Top(), i)
  {
  }

  lemma Effect(c: Config, s: State, a: Action, i: NodeId)
    requires c.Valid() && Enabled(c, s, a) && i < c.nodes && i != a.n && s.nodes[a.n].stack != []
    ensures var s' := Next(c, s, a);
            && |s'.nodes| == c.nodes
            && (!s.nodes[i].pulsed && s'.nodes[i].pulsed && s.nodes[i].asleep ==> Notifies(s'.nodes[a.n].Top(), i))
            && (Notifies(s.nodes[a.n].Top(), i) ==> s'.nodes[i] == Notified(s.nodes[i]))
            && (WillPulse(s.nodes[a.n].Top(), i) ==> WillPulse(s'.nodes[a.n].Top(), i) || s'.nodes[i].pulsed)
            && (s.nodes[i].available && !s'.nodes[i].available ==> WillPulse(s'.nodes[a.n].Top(), i))
  {
    if a.Step? && s.nodes[a.n].Top().Creating? {
      hide CreateStep, CreateEnabled;
      ReachEffect(c, s, a.n, s.nodes[a.n].Top().create, a.ok, a.id, i);
    } else if a.Step? && s.nodes[a.n].Top().Stopping? {
      hide StopStep, StopEnabled;
      StopEffect(c, s, a.n, s.nodes[a.n].Top().stopping, i);
    } else {
      OtherEffect(c, s, a, i);
    }
  }

  // ---- the protocol is kept ----

  /** What matters of a node that is about to sleep: it has found no pulse when it
      blocks, it was available, and it keeps what makes it see its flag. */
  ghost predicate SleepStep(a: Node, b: Node) {
    && (b.Main().Blocked? ==> !b.pulsed)
    && (BeforeSleep(b.Main()) || b.Main().TestStop? ==>
          b.available
          || ((BeforeSleep(a.Main()) || a.Main().TestStop?) && b.available == a.available && b.pulsed == a.pulsed))
    && (StopOk(a) ==> StopOk(b))
    && (a.stop ==> b.stop)
  }

  lemma LoopSleep(c: Config, n: NodeId, node: Node, pc: LoopPc, ok: bool)
    requires c.Valid() && node.stack == [Loop(pc)] && !pc.Blocked? && !pc.Exited?
    requires pc.Deplete? ==> PullResult(node.queue, ok)
    ensures SleepStep(node, LoopNode(c, n, node, pc, ok))
  {
  }

  /** A call leaves the main loop where it was. */
  ghost predicate SameMain(a: Node, b: Node) {
    b.Main() == a.Main() && (a.stop ==> b.stop)
  }

  lemma CreateMain(c: Config, s: State, n: NodeId, pc: CreatePc, ok: bool, id: TaskId)
    requires n < |s.nodes| && c.nodes > 0 && CreateEnabled(c, s, n, pc, ok, id)
    requires |s.nodes[n].stack| > 1
    ensures SameMain(s.nodes[n], CreateStep(c, s, n, pc, ok, id).nodes[n])
  {
  }

  lemma StopMain(c: Config, s: State, n: NodeId, pc: StopPc)
    requires n < |s.nodes| == c.nodes && StopEnabled(c, pc) && |s.nodes[n].stack| > 1 && !s.nodes[n].Top().Loop?
    ensures SameMain(s.nodes[n], StopStep(c, s, n, pc).nodes[n])
  {
  }

  lemma CallMain(c: Config, s: State, a: Action)
    requires c.Valid() && Enabled(c, s, a) && StackOk(c, a.n, s.nodes[a.n].stack) && !s.nodes[a.n].Top().Loop?
    ensures Calls(s.nodes[a.n].Main()) && SameMain(s.nodes[a.n], Next(c, s, a).nodes[a.n])
  {
    var node := s.nodes[a.n];
    TopOk(c, a.n, node.stack);
    if a.Step? && node.Top().Stopping? {
      StopMain(c, s, a.n, node.Top().stopping);
      hide StopStep, StopEnabled, StackOk;
    } else if a.Step? && node.Top().Creating? {
      CreateMain(c, s, a.n, node.Top().create, a.ok, a.id);
      hide CreateStep, CreateEnabled, StackOk;
    }
  }

  lemma OwnSleep(c: Config, s: State, a: Action)
    requires c.Valid() && Enabled(c, s, a) && NodeOk(c, a.n, s.nodes[a.n])
    ensures |Next(c, s, a).nodes| == c.nodes && SleepStep(s.nodes[a.n], Next(c, s, a).nodes[a.n])
  {
    StepOk(c, s, a, a.n);
    TopOk(c, a.n, s.nodes[a.n].stack);
    hide NodeOk, StackOk;
    if s.nodes[a.n].Top().Loop? {
      OwnLoopSleep(c, s, a);
    } else {
      OwnCallSleep(c, s, a);
    }
  }

  lemma OwnLoopSleep(c: Config, s: State, a: Action)
    requires c.Valid() && Enabled(c, s, a) && |Next(c, s, a).nodes| == c.nodes
    requires s.nodes[a.n].Top().Loop? && s.nodes[a.n].stack == [s.nodes[a.n].Top()]
    ensures SleepStep(s.nodes[a.n], Next(c, s, a).nodes[a.n])
  {
    var node := s.nodes[a.n];
    if a.Step? && !(Steals(node.Top().loop) && a.ok) {
      LoopSleep(c, a.n, node, node.Top().loop, a.ok);
      hide SleepStep, LoopNode;
    }
  }

  lemma OwnCallSleep(c: Config, s: State, a: Action)
    requires c.Valid() && Enabled(c, s, a) && |Next(c, s, a).nodes| == c.nodes
    requires StackOk(c, a.n, s.nodes[a.n].stack) && !s.nodes[a.n].Top().Loop?
    ensures SleepStep(s.nodes[a.n], Next(c, s, a).nodes[a.n])
  {
    CallMain(c, s, a);
    hide Next, Enabled, StackOk;
  }

  /** The frames of other nodes that pulse, notify and stop stay where they are. */
  lemma TopStays(c: Config, s: State, a: Action, m: NodeId)
    requires c.Valid() && Enabled(c, s, a) && m < c.nodes && m != a.n
    requires NodeOk(c, a.n, s.nodes[a.n]) && NodeOk(c, m, s.nodes[m])
    ensures var s' := Next(c, s, a);
            && |s'.nodes| == c.nodes
            && (s.nodes[m].Top().Loop? <==> s'.nodes[m].Top().Loop?)
            && (!s.nodes[m].Top().Loop? ==> s'.nodes[m].Top() == s.nodes[m].Top())
  {
    StepOk(c, s, a, m);
    TouchedOk(c, m, s.nodes[m], Next(c, s, a).nodes[m]);
  }

  lemma NotifyStep(c: Config, s: State, a: Action, i: NodeId)
    requires Inv(c, s) && Enabled(c, s, a) && i < c.nodes
    ensures |Next(c, s, a).nodes| == c.nodes && NotifyOk(Next(c, s, a), i)
  {
    StepOk(c, s, a, i);
    hide Next, Enabled;
    var s' := Next(c, s, a);
    if s'.nodes[i].Main().Blocked? && s'.nodes[i].pulsed {
      OwnSleep(c, s, a);
      assert i != a.n;
      NotifyPersists(c, s, a, i);
    }
  }

  lemma NotifyPersists(c: Config, s: State, a: Action, i: NodeId)
    requires Inv(c, s) && Enabled(c, s, a) && i < c.nodes && i != a.n
    requires |Next(c, s, a).nodes| == c.nodes
    requires Next(c, s, a).nodes[i].Main().Blocked? && Next(c, s, a).nodes[i].pulsed
    ensures SomeNotifies(Next(c, s, a), i)
  {
    assert a.n < c.nodes && NodeOk(c, a.n, s.nodes[a.n]);
    hide Next, Enabled, StackOk;
    var s' := Next(c, s, a);
    StepOk(c, s, a, i);
    TouchedOk(c, i, s.nodes[i], s'.nodes[i]);
    assert s.nodes[i].stack == s'.nodes[i].stack;
    TopOk(c, a.n, s.nodes[a.n].stack);
    Effect(c, s, a, i);
    if s.nodes[i].pulsed {
      assert NotifyOk(s, i);
      var m :| 0 <= m < |s.nodes| && Notifies(s.nodes[m].Top(), i);
      if m == a.n {
        NotifiedWakes(c, i, s.nodes[i]);
      } else {
        TopStays(c, s, a, m);
        assert Notifies(s'.nodes[m].Top(), i);
      }
    } else {
      assert Notifies(s'.nodes[a.n].Top(), i);
    }
  }

  lemma NotifiedWakes(c: Config, n: NodeId, node: Node)
    requires NodeOk(c, n, node) && node.Main().Blocked?
    ensures Notified(node).Main().Woken?
  {
    TopOk(c, n, node.stack);
  }

  /** Nothing but its own pulse and the calls that wake it keeps node i reachable. */
  ghost predicate NeedsWaking(node: Node) {
    (BeforeSleep(node.Main()) || node.Main().TestStop?) && !node.available && !node.pulsed
  }

  lemma WakeOther(c: Config, s: State, a: Action, i: NodeId)
    requires Inv(c, s) && Enabled(c, s, a) && i < c.nodes && i != a.n
    ensures |Next(c, s, a).nodes| == c.nodes && WakeOk(Next(c, s, a), i)
  {
    OfNode(c, s, a.n);
    OfNode(c, s, i);
    StepOk(c, s, a, i);
    hide Inv, Next, Enabled, StackOk;
    TopOk(c, a.n, s.nodes[a.n].stack);
    TouchedOk(c, i, s.nodes[i], Next(c, s, a).nodes[i]);
    Effect(c, s, a, i);
    if NeedsWaking(Next(c, s, a).nodes[i]) {
      WakePersists(c, s, a, i);
    }
  }

  lemma WakeOwn(c: Config, s: State, a: Action)
    requires Inv(c, s) && Enabled(c, s, a)
    ensures |Next(c, s, a).nodes| == c.nodes && WakeOk(Next(c, s, a), a.n)
  {
    OfNode(c, s, a.n);
    OwnSleep(c, s, a);
    hide Inv, Next, Enabled, NodeOk;
    if NeedsWaking(Next(c, s, a).nodes[a.n]) {
      WakePersists(c, s, a, a.n);
    }
  }

  lemma WakeStep(c: Config, s: State, a: Action, i: NodeId)
    requires Inv(c, s) && Enabled(c, s, a) && i < c.nodes
    ensures |Next(c, s, a).nodes| == c.nodes && WakeOk(Next(c, s, a), i)
  {
    hide Inv, Next, Enabled;
    if i == a.n {
      WakeOwn(c, s, a);
    } else {
      WakeOther(c, s, a, i);
    }
  }

  lemma SleeperDoesNotPulse(c: Config, i: NodeId, node: Node)
    requires NodeOk(c, i, node) && (BeforeSleep(node.Main()) || node.Main().TestStop?)
    ensures !WillPulse(node.Top(), i)
  {
    TopOk(c, i, node.stack);
  }

  lemma WakePersists(c: Config, s: State, a: Action, i: NodeId)
    requires Inv(c, s) && Enabled(c, s, a) && i < c.nodes && |Next(c, s, a).nodes| == c.nodes
    requires (BeforeSleep(s.nodes[i].Main()) || s.nodes[i].Main().TestStop?) && !s.nodes[i].pulsed
    requires !Next(c, s, a).nodes[i].available && !Next(c, s, a).nodes[i].pulsed
    requires i == a.n ==> !s.nodes[i].available
    requires i != a.n ==>
      && (WillPulse(s.nodes[a.n].Top(), i) ==> WillPulse(Next(c, s, a).nodes[a.n].Top(), i))
      && (s.nodes[i].available ==> WillPulse(Next(c, s, a).nodes[a.n].Top(), i))
    ensures SomeWillPulse(Next(c, s, a), i)
  {
    OfNode(c, s, a.n);
    OfNode(c, s, i);
    hide Inv, Next, Enabled, StackOk, NodeOk;
    var s' := Next(c, s, a);
    if s.nodes[i].available {
      assert WillPulse(s'.nodes[a.n].Top(), i);
    } else {
      SleeperDoesNotPulse(c, i, s.nodes[i]);
      var m :| 0 <= m < |s.nodes| && WillPulse(s.nodes[m].Top(), i);
      if m != a.n {
        OfNode(c, s, m);
        TopStays(c, s, a, m);
        assert WillPulse(s'.nodes[m].Top(), i);
      } else {
        assert WillPulse(s'.nodes[m].Top(), i);
      }
    }
  }

  /** Once a node has been pulsed to stop, it stays so. */
  lemma StopStays(c: Config, s: State, a: Action, i: NodeId)
    requires Inv(c, s) && Enabled(c, s, a) && i < c.nodes && StopOk(s.nodes[i])
    ensures |Next(c, s, a).nodes| == c.nodes && StopOk(Next(c, s, a).nodes[i])
  {
    assert a.n < c.nodes && NodeOk(c, a.n, s.nodes[a.n]);
    StepOk(c, s, a, i);
    OwnSleep(c, s, a);
    hide Next, Enabled, StackOk;
    if i != a.n {
      TouchedOk(c, i, s.nodes[i], Next(c, s, a).nodes[i]);
    }
  }

  /** What a step of a stopping call may newly claim of node i. */
  ghost predicate StopNews(s: State, s': State, n: NodeId, i: NodeId)
    requires n < |s.nodes| == |s'.nodes| && i < |s.nodes|
  {
    && (HasStopped(s'.nodes[n].Top(), i) ==> StopOk(s.nodes[i]) || StopOk(s'.nodes[i]))
    && (s'.nodes[n].Top() == Stopping(StopPulse(i)) ==> s'.nodes[i].stop)
    && (s'.stopped ==> StopOk(s.nodes[i]))
  }

  lemma StoppingNews(c: Config, s: State, n: NodeId, pc: StopPc, i: NodeId)
    requires n < |s.nodes| == c.nodes && s.nodes[n].Top() == Stopping(pc) && StopEnabled(c, pc)
    requires i < c.nodes && StopsOk(s, i) && NodeOk(c, n, s.nodes[n])
    ensures StopNews(s, StopStep(c, s, n, pc), n, i)
  {
    ReturnOk(c, n, s.nodes[n]);
    assert HasStopped(s.nodes[n].Top(), i) ==> StopOk(s.nodes[i]);
    if pc.StopPulse? && pc.next == i {
      assert s.nodes[i].stop && SetPulse(s.nodes[i]).pulsed;
    }
    hide StackOk, NodeOk;
  }

  /** No other step leads into the middle of a stopping call. */
  ghost predicate NotStopping(s: State, s': State, n: NodeId)
    requires n < |s'.nodes|
  {
    s'.stopped == s.stopped && (s'.nodes[n].Top().Stopping? ==> s'.nodes[n].Top().stopping.Raise?)
  }

  lemma LoopNotStopping(c: Config, s: State, n: NodeId, pc: LoopPc, ok: bool)
    requires n < |s.nodes| && c.nodes > 0 && s.nodes[n].Top() == Loop(pc) && LoopEnabled(s, n, pc, ok)
    ensures |LoopStep(c, s, n, pc, ok).nodes| == |s.nodes| && NotStopping(s, LoopStep(c, s, n, pc, ok), n)
  {
  }

  lemma CreateNotStopping(c: Config, s: State, n: NodeId, pc: CreatePc, ok: bool, id: TaskId)
    requires n < |s.nodes| && c.nodes > 0 && CreateEnabled(c, s, n, pc, ok, id)
    requires !s.nodes[n].Return().Top().Stopping?
    ensures |CreateStep(c, s, n, pc, ok, id).nodes| == |s.nodes|
    ensures NotStopping(s, CreateStep(c, s, n, pc, ok, id), n)
  {
  }

  lemma OtherNotStopping(c: Config, s: State, a: Action)
    requires Enabled(c, s, a) && NodeOk(c, a.n, s.nodes[a.n])
    requires !(a.Step? && s.nodes[a.n].Top().Stopping?)
    ensures |Next(c, s, a).nodes| == |s.nodes| && NotStopping(s, Next(c, s, a), a.n)
  {
    var top := s.nodes[a.n].Top();
    if !top.Loop? {
      ReturnOk(c, a.n, s.nodes[a.n]);
    }
    if a.Step? && top.Loop? {
      LoopNotStopping(c, s, a.n, top.loop, a.ok);
      hide LoopStep, LoopEnabled, NodeOk;
    } else if a.Step? && top.Creating? {
      CreateNotStopping(c, s, a.n, top.create, a.ok, a.id);
      hide CreateStep, CreateEnabled, NodeOk;
    }
  }

  lemma QuietNews(c: Config, s: State, a: Action, i: NodeId)
    requires Inv(c, s) && Enabled(c, s, a) && i < c.nodes && !(a.Step? && s.nodes[a.n].Top().Stopping?)
    ensures |Next(c, s, a).nodes| == c.nodes && StopNews(s, Next(c, s, a), a.n, i)
  {
    assert NodeOk(c, a.n, s.nodes[a.n]) && StopsOk(s, i);
    OtherNotStopping(c, s, a);
    hide Next, Enabled, NodeOk;
  }

  lemma NewlyStopped(c: Config, s: State, a: Action, i: NodeId)
    requires Inv(c, s) && Enabled(c, s, a) && i < c.nodes
    ensures |Next(c, s, a).nodes| == c.nodes && StopNews(s, Next(c, s, a), a.n, i)
  {
    if a.Step? && s.nodes[a.n].Top().Stopping? {
      assert NodeOk(c, a.n, s.nodes[a.n]) && StopsOk(s, i);
      hide Inv, StopsOk, NodeOk, StopNews, StopStep;
      StoppingNews(c, s, a.n, s.nodes[a.n].Top().stopping, i);
      StepOk(c, s, a, i);
    } else {
      QuietNews(c, s, a, i);
    }
  }

  /** A node is newly stopped only by the step that pulses it, after its flag was set. */
  lemma StopsStep(c: Config, s: State, a: Action, i: NodeId)
    requires Inv(c, s) && Enabled(c, s, a) && i < c.nodes
    ensures |Next(c, s, a).nodes| == c.nodes && StopsOk(Next(c, s, a), i)
  {
    StepOk(c, s, a, i);
    var s' := Next(c, s, a);
    FlagStays(c, s, a, i);
    NewlyStopped(c, s, a, i);
    assert StopsOk(s, i);
    hide Next, Enabled, NodeOk;
    if StopOk(s.nodes[i]) {
      StopStays(c, s, a, i);
    }
    forall m | 0 <= m < |s'.nodes| && m != a.n
      ensures HasStopped(s'.nodes[m].Top(), i) ==> StopOk(s'.nodes[i])
      ensures s'.nodes[m].Top() == Stopping(StopPulse(i)) ==> s'.nodes[i].stop
    {
      OtherTop(c, s, a, m);
    }
  }

  lemma OtherTop(c: Config, s: State, a: Action, m: NodeId)
    requires Inv(c, s) && Enabled(c, s, a) && m < c.nodes && m != a.n
    ensures |Next(c, s, a).nodes| == c.nodes
    ensures s.nodes[m].Top().Stopping? || Next(c, s, a).nodes[m].Top().Stopping? ==>
              Next(c, s, a).nodes[m].Top() == s.nodes[m].Top()
  {
    assert NodeOk(c, m, s.nodes[m]) && NodeOk(c, a.n, s.nodes[a.n]);
    TopStays(c, s, a, m);
  }

  lemma FlagStays(c: Config, s: State, a: Action, i: NodeId)
    requires Inv(c, s) && Enabled(c, s, a) && i < c.nodes
    ensures |Next(c, s, a).nodes| == c.nodes
    ensures s.nodes[i].stop ==> Next(c, s, a).nodes[i].stop
  {
    assert a.n < c.nodes && NodeOk(c, a.n, s.nodes[a.n]);
    StepOk(c, s, a, i);
    if i == a.n {
      OwnSleep(c, s, a);
    }
  }

  lemma NextInv(c: Config, s: State, a: Action)
    requires Inv(c, s) && Enabled(c, s, a)
    ensures Inv(c, Next(c, s, a))
  {
    var s' := Next(c, s, a);
    forall i | 0 <= i < c.nodes
      ensures |s'.nodes| == c.nodes && NodeOk(c, i, s'.nodes[i])
      ensures NotifyOk(s', i) && WakeOk(s', i) && StopsOk(s', i)
    {
      NextNodeOk(c, s, a, i);
      NotifyStep(c, s, a, i);
      WakeStep(c, s, a, i);
      StopsStep(c, s, a, i);
    }
    assert a.n < c.nodes;
  }

  lemma NextNodeOk(c: Config, s: State, a: Action, i: NodeId)
    requires Inv(c, s) && Enabled(c, s, a) && i < c.nodes
    ensures |Next(c, s, a).nodes| == c.nodes && NodeOk(c, i, Next(c, s, a).nodes[i])
  {
    assert a.n < c.nodes && NodeOk(c, a.n, s.nodes[a.n]);
    StepOk(c, s, a, i);
    if i != a.n {
      TouchedOk(c, i, s.nodes[i], Next(c, s, a).nodes[i]);
    }
  }

  lemma InitInv(c: Config)
    requires c.Valid()
    ensures Inv(c, Init(c))
  {
    var s := Init(c);
    forall i: nat | i < c.nodes
      ensures NodeOk(c, i, s.nodes[i])
    {
      FreshNodeOk(c, i);
    }
  }

  lemma FreshNodeOk(c: Config, n: NodeId)
    requires c.Valid() && n < c.nodes
    ensures NodeOk(c, n, FreshNode(c, n))
  {
    NextVictimOk(c, n, n);
  }
}
