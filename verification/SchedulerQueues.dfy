/** The queues of the nodes over whole runs: pushed and pulled at the back by their own
    node, stolen from at the front by the others. */
module SchedulerQueues {
  import opened Scheduler

  /** What a step does to the queue of node j, from where the node that makes it is. */
  datatype QueueMove = Keep | Append(task: TaskId) | DropLast | DropFirst

  ghost function MoveOf(s: State, a: Action, j: NodeId): QueueMove
    requires a.n < |s.nodes|
  {
    if !a.Step? || !a.ok then Keep
    else match s.nodes[a.n].Top()
      case Creating(Push(t)) => if j == a.n then Append(t) else Keep
      case Creating(PullInstead(_)) => if j == a.n then DropLast else Keep
      case Loop(Deplete(_)) => if j == a.n then DropLast else Keep
      case Loop(pc) => if Steals(pc) && j == Victim(pc) then DropFirst else Keep
      case _ => Keep
  }

  /** Node `taker` is about to run task t. */
  ghost predicate Takes(s': State, taker: NodeId, t: TaskId) {
    taker < |s'.nodes| && s'.nodes[taker].Top() == Executing(t, false)
  }

  /** Queue q' is q after the move, and node `taker` runs what has been removed. */
  ghost predicate Done(q: seq<TaskId>, q': seq<TaskId>, move: QueueMove, s': State, taker: NodeId) {
    match move
    case Keep => q' == q
    case Append(t) => q' == q + [t]
    case DropLast => q != [] && q' == q[..|q| - 1] && Takes(s', taker, q[|q| - 1])
    case DropFirst => q != [] && q' == q[1..] && Takes(s', taker, q[0])
  }

  lemma LoopQueues(c: Config, s: State, n: NodeId, pc: LoopPc, ok: bool, id: TaskId, j: NodeId)
    requires n < |s.nodes| == c.nodes && c.nodes > 0 && LoopEnabled(s, n, pc, ok) && j < c.nodes
    requires s.nodes[n].Top() == Loop(pc)
    ensures var s' := LoopStep(c, s, n, pc, ok);
      |s'.nodes| == c.nodes && Done(s.nodes[j].queue, s'.nodes[j].queue, MoveOf(s, Step(n, ok, id), j), s', n)
  {
  }

  lemma CreateQueues(c: Config, s: State, n: NodeId, pc: CreatePc, ok: bool, id: TaskId, j: NodeId)
    requires n < |s.nodes| == c.nodes && c.nodes > 0 && CreateEnabled(c, s, n, pc, ok, id) && j < c.nodes
    requires s.nodes[n].Top() == Creating(pc)
    ensures var s' := CreateStep(c, s, n, pc, ok, id);
      |s'.nodes| == c.nodes && Done(s.nodes[j].queue, s'.nodes[j].queue, MoveOf(s, Step(n, ok, id), j), s', n)
  {
  }

  lemma StopQueues(c: Config, s: State, n: NodeId, pc: StopPc, j: NodeId)
    requires n < |s.nodes| == c.nodes && StopEnabled(c, pc) && j < c.nodes
    ensures |StopStep(c, s, n, pc).nodes| == c.nodes && StopStep(c, s, n, pc).nodes[j].queue == s.nodes[j].queue
  {
  }

  /** Every step, in every state: what is pushed goes to the back of the pusher's own
      queue, a node takes its own youngest task and another node's oldest, and runs what
      it took. */
  lemma QueueSteps(c: Config, s: State, a: Action, j: NodeId)
    requires Enabled(c, s, a) && c.nodes > 0 && j < c.nodes
    ensures |Next(c, s, a).nodes| == c.nodes
    ensures Done(s.nodes[j].queue, Next(c, s, a).nodes[j].queue, MoveOf(s, a, j), Next(c, s, a), a.n)
    ensures MoveOf(s, a, j).DropFirst? ==> j != a.n
    ensures MoveOf(s, a, j).DropLast? || MoveOf(s, a, j).Append? ==> j == a.n
  {
    hide LoopStep, CreateStep, StopStep;
    if a.Step? {
      match s.nodes[a.n].Top()
      case Loop(pc) => LoopQueues(c, s, a.n, pc, a.ok, a.id, j);
      case Creating(pc) => CreateQueues(c, s, a.n, pc, a.ok, a.id, j);
      case Stopping(pc) => StopQueues(c, s, a.n, pc, j);
      case Executing(_, _) =>
    }
  }
}
