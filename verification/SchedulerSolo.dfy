/** A node that runs alone: no other node moves and no queue operation is disturbed. */
module SchedulerSolo {
  import opened Scheduler

  /** What an undisturbed operation on a queue reports, or a test of its size. */
  ghost function Sees(c: Config, s: State, n: NodeId): bool {
    n < |s.nodes| &&
    match s.nodes[n].Top()
    case Loop(Deplete(_)) => s.nodes[n].queue != []
    case Loop(pc) => Steals(pc) && Victim(pc) < |s.nodes| && s.nodes[Victim(pc)].queue != []
    case Creating(Push(_)) => |s.nodes[n].queue| + 1 < c.capacity
    case Creating(PullInstead(_)) => s.nodes[n].queue != []
    case Creating(Delegate(_)) => |s.nodes[n].queue| > 1
    case _ => true
  }

  ghost function Alone(c: Config, s: State, n: NodeId): Action {
    Step(n, Sees(c, s, n), 0)
  }

  /** The state after k steps of node n alone, or as many as it can make. */
  ghost function Solo(c: Config, s: State, n: NodeId, k: nat): State
    decreases k
  {
    if k == 0 || c.nodes == 0 || !Enabled(c, s, Alone(c, s, n)) then s
    else Solo(c, Next(c, s, Alone(c, s, n)), n, k - 1)
  }

  lemma {:induction false} SoloAdd(c: Config, s: State, n: NodeId, j: nat, k: nat)
    ensures Solo(c, s, n, j + k) == Solo(c, Solo(c, s, n, j), n, k)
    decreases j
  {
    hide Enabled, Next, Alone;
    if j > 0 && c.nodes > 0 && Enabled(c, s, Alone(c, s, n)) {
      SoloAdd(c, Next(c, s, Alone(c, s, n)), n, j - 1, k);
    }
  }

  /** Node n can make its next step alone, and s' is the state after it. */
  ghost predicate MovesTo(c: Config, s: State, n: NodeId, s': State) {
    c.nodes > 0 && Enabled(c, s, Alone(c, s, n)) && s' == Next(c, s, Alone(c, s, n))
  }

  lemma FirstStep(c: Config, s: State, n: NodeId, s': State, k: nat)
    requires MovesTo(c, s, n, s')
    ensures Solo(c, s, n, k + 1) == Solo(c, s', n, k)
  {
  }

  // ---- what a notification does ----

  /** The stack of a node once a notification has reached it: only a blocked node goes on. */
  ghost function Awake(stack: seq<Frame>): seq<Frame> {
    if stack != [] && stack[|stack| - 1].Loop? && stack[|stack| - 1].loop.Blocked?
    then stack[..|stack| - 1] + [Loop(Woken(stack[|stack| - 1].loop.steal))]
    else stack
  }

  // ---- a step on two nodes ----

  /** Node i becomes `node`, and then the call of node n has `stack`. */
  ghost function Moved(s: State, i: NodeId, node: Node, n: NodeId, stack: seq<Frame>): State
    requires i < |s.nodes| && n < |s.nodes|
  {
    var s' := s.Put(i, node);
    s'.Put(n, s'.nodes[n].(stack := stack))
  }

  lemma MovedTwice(
    s: State, i: NodeId, a: Node, b: Node, n: NodeId, stack1: seq<Frame>, stack2: seq<Frame>)
    requires i < |s.nodes| && n < |s.nodes|
    ensures Moved(Moved(s, i, a, n, stack1), i, b, n, stack2) == Moved(s, i, b, n, stack2)
  {
    var s1, s2 := Moved(Moved(s, i, a, n, stack1), i, b, n, stack2), Moved(s, i, b, n, stack2);
    assert s1.nodes == s2.nodes;
  }
}
