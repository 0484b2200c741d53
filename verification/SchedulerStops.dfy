/** What `stop_scheduler` comes to: its first caller flags and pulses every node. */
module SchedulerStops {
  import opened Scheduler
  import opened SchedulerSolo
  import SchedulerProtocol
  import opened SchedulerTheorems

  // ---- one call ----

  /** Node b is node a after it has been told to stop. `self`: it is the caller's own node,
      whose stack is that of the call. */
  ghost predicate Told(a: Node, b: Node, self: bool) {
    && b.stop && b.pulsed && !b.asleep
    && b.queue == a.queue && b.available == a.available && b.stealFrom == a.stealFrom
    && (!self ==> b.stack == if a.asleep then Awake(a.stack) else a.stack)
  }

  /** The nodes from i to j - 1 have been told to stop, the others are as they were, and
      the call of node n has `stack`. */
  ghost predicate ToldAll(s: State, s': State, n: NodeId, i: nat, j: nat, stack: seq<Frame>) {
    && n < |s.nodes| == |s'.nodes|
    && (forall m :: i <= m < j && m < |s.nodes| ==> Told(s.nodes[m], s'.nodes[m], m == n))
    && (forall m :: 0 <= m < |s.nodes| && !(i <= m < j) && m != n ==> s'.nodes[m] == s.nodes[m])
    && (!(i <= n < j) ==> s'.nodes[n] == s.nodes[n].(stack := stack))
    && s'.nodes[n].stack == stack
    && s'.tasks == s.tasks && s'.born == s.born && s'.started == s.started
  }

  /** Node n is in a call of `stop_scheduler` at pc, above the frames `below`. */
  ghost predicate AtStop(c: Config, s: State, n: NodeId, below: seq<Frame>, pc: StopPc) {
    c.nodes > 0 && n < |s.nodes| == c.nodes && s.nodes[n].stack == below + [Stopping(pc)]
  }

  lemma StopMoves(c: Config, s: State, n: NodeId, below: seq<Frame>, pc: StopPc)
    requires AtStop(c, s, n, below, pc) && !pc.Raise? && pc.next < c.nodes
    ensures MovesTo(c, s, n, Moved(s, pc.next, Stopped(pc, s.nodes[pc.next]), n,
                                   below + [Stopping(NextStop(pc, s.nodes[pc.next].asleep))]))
  {
    var s1 := s.Put(pc.next, Stopped(pc, s.nodes[pc.next]));
    assert s1.nodes[n].stack == below + [Stopping(pc)];
    hide Stopped, NextStop;
    var f := Stopping(NextStop(pc, s.nodes[pc.next].asleep));
    assert s1.nodes[n].Goto(f).stack == below + [f];
  }

  lemma FlagStep(c: Config, s: State, n: NodeId, below: seq<Frame>, i: NodeId)
    requires AtStop(c, s, n, below, StopFlag(i)) && i < c.nodes
    ensures MovesTo(c, s, n, Moved(s, i, s.nodes[i].(stop := true), n, below + [Stopping(StopPulse(i))]))
  {
    StopMoves(c, s, n, below, StopFlag(i));
    hide MovesTo, Moved;
  }

  lemma PulseStep(c: Config, s: State, n: NodeId, below: seq<Frame>, i: NodeId)
    requires AtStop(c, s, n, below, StopPulse(i)) && i < c.nodes
    ensures var pc := if s.nodes[i].asleep then StopNotify(i) else StopFlag(i + 1);
            MovesTo(c, s, n, Moved(s, i, s.nodes[i].(pulsed := true, asleep := false), n, below + [Stopping(pc)]))
  {
    StopMoves(c, s, n, below, StopPulse(i));
    hide MovesTo, Moved;
  }

  lemma MovedTells(s: State, i: NodeId, a: Node, n: NodeId, stack: seq<Frame>)
    requires i < |s.nodes| && n < |s.nodes| && Told(s.nodes[i], a, i == n)
    ensures ToldAll(s, Moved(s, i, a, n, stack), n, i, i + 1, stack)
  {
  }

  lemma AwakeIsNotified(node: Node)
    ensures Notified(node) == node.(stack := Awake(node.stack))
  {
  }

  lemma NotifyStep(c: Config, s: State, n: NodeId, below: seq<Frame>, i: NodeId)
    requires AtStop(c, s, n, below, StopNotify(i)) && i < c.nodes
    ensures MovesTo(c, s, n, Moved(s, i, s.nodes[i].(stack := Awake(s.nodes[i].stack)), n,
                                   below + [Stopping(StopFlag(i + 1))]))
  {
    AwakeIsNotified(s.nodes[i]);
    StopMoves(c, s, n, below, StopNotify(i));
    hide MovesTo, Moved, Awake, Notified;
  }

  /** Node i is told to stop in two steps, or in three if it sleeps. */
  lemma TellOne(c: Config, s: State, n: NodeId, below: seq<Frame>, i: NodeId) returns (k: nat)
    requires AtStop(c, s, n, below, StopFlag(i)) && i < c.nodes
    ensures k <= 3
    ensures ToldAll(s, Solo(c, s, n, k), n, i, i + 1, below + [Stopping(StopFlag(i + 1))])
    ensures Solo(c, s, n, k).stopped == s.stopped
  {
    assert n < |s.nodes| == c.nodes;
    hide MovesTo, Awake, AtStop, ToldAll;
    var stack := below + [Stopping(StopFlag(i + 1))];
    var a := s.nodes[i].(stop := true);
    var stack1 := below + [Stopping(StopPulse(i))];
    FlagStep(c, s, n, below, i);
    AtMoved(c, s, i, a, n, below, StopPulse(i));
    var s1 := Moved(s, i, a, n, stack1);
    PulseStep(c, s1, n, below, i);
    var b := s1.nodes[i].(pulsed := true, asleep := false);
    MovedTwice(s, i, a, b, n, stack1, below + [Stopping(if s.nodes[i].asleep then StopNotify(i) else StopFlag(i + 1))]);
    if s.nodes[i].asleep {
      k := 3;
      var stack2 := below + [Stopping(StopNotify(i))];
      AtMoved(c, s, i, b, n, below, StopNotify(i));
      var s2 := Moved(s, i, b, n, stack2);
      NotifyStep(c, s2, n, below, i);
      var d := s2.nodes[i].(stack := Awake(s2.nodes[i].stack));
      MovedTwice(s, i, b, d, n, stack2, stack);
      FirstStep(c, s, n, s1, 2);
      FirstStep(c, s1, n, s2, 1);
      FirstStep(c, s2, n, Moved(s, i, d, n, stack), 0);
      MovedTells(s, i, d, n, stack);
    } else {
      k := 2;
      FirstStep(c, s, n, s1, 1);
      FirstStep(c, s1, n, Moved(s, i, b, n, stack), 0);
      MovedTells(s, i, b, n, stack);
    }
  }

  lemma AtMoved(c: Config, s: State, i: NodeId, a: Node, n: NodeId, below: seq<Frame>, pc: StopPc)
    requires c.nodes == |s.nodes| && i < c.nodes && n < c.nodes
    ensures AtStop(c, Moved(s, i, a, n, below + [Stopping(pc)]), n, below, pc)
  {
  }

  lemma ToldBoth(s: State, s1: State, s2: State, n: NodeId, i: nat, j: nat, stack1: seq<Frame>, stack2: seq<Frame>)
    requires i < j && ToldAll(s, s1, n, i, i + 1, stack1) && ToldAll(s1, s2, n, i + 1, j, stack2)
    ensures ToldAll(s, s2, n, i, j, stack2)
  {
  }

  lemma Returns(c: Config, s: State, n: NodeId, below: seq<Frame>)
    requires AtStop(c, s, n, below, StopFlag(c.nodes))
    ensures var s' := s.(stopped := true).Put(n, s.nodes[n].(stack := below));
            MovesTo(c, s, n, s') && ToldAll(s, s', n, c.nodes, c.nodes, below)
            && Solo(c, s', n, 0) == s'
  {
  }

  lemma ToldAt(c: Config, s: State, s': State, n: NodeId, i: nat, j: nat, below: seq<Frame>, pc: StopPc)
    requires c.nodes == |s.nodes| > 0 && ToldAll(s, s', n, i, j, below + [Stopping(pc)])
    ensures AtStop(c, s', n, below, pc)
  {
  }

  /** From node i on: every node from there is told to stop, and the call returns. */
  lemma {:induction false} TellRest(c: Config, s: State, n: NodeId, below: seq<Frame>, i: NodeId) returns (k: nat)
    requires AtStop(c, s, n, below, StopFlag(i)) && i <= c.nodes
    ensures k <= 3 * (c.nodes - i) + 1
    ensures var s' := Solo(c, s, n, k); ToldAll(s, s', n, i, c.nodes, below) && s'.stopped
    decreases c.nodes - i
  {
    hide ToldAll, Solo, MovesTo;
    assert n < |s.nodes| == c.nodes;
    hide AtStop;
    if i == c.nodes {
      k := 1;
      Returns(c, s, n, below);
      FirstStep(c, s, n, s.(stopped := true).Put(n, s.nodes[n].(stack := below)), 0);
    } else {
      var stack := below + [Stopping(StopFlag(i + 1))];
      var k1 := TellOne(c, s, n, below, i);
      var s1 := Solo(c, s, n, k1);
      ToldAt(c, s, s1, n, i, i + 1, below, StopFlag(i + 1));
      var k2 := TellRest(c, s1, n, below, i + 1);
      SoloAdd(c, s, n, k1, k2);
      k := k1 + k2;
      ToldBoth(s, s1, Solo(c, s, n, k), n, i, c.nodes, stack, below);
    }
  }

  /** A closure that calls `stop_scheduler` waits below the call. */
  lemma CallsStop(c: Config, s: State, n: NodeId)
    requires n < c.nodes == |s.nodes| && Running(s, n)
    ensures var s' := Next(c, s, StopAll(n));
      AtStop(c, s', n, s.nodes[n].stack, Raise) && s' == s.Put(n, s.nodes[n].(stack := s'.nodes[n].stack))
  {
  }

  /** The first call on its node, alone, returns after at most 3 * nodes + 2 steps with
      every node flagged and pulsed and every sleeper woken. A later call returns at once. */
  lemma StopAlone(c: Config, s: State, n: NodeId, below: seq<Frame>) returns (k: nat)
    requires AtStop(c, s, n, below, Raise)
    ensures k <= 3 * c.nodes + 2
    ensures var s' := Solo(c, s, n, k);
            if s.nodes[n].stop then k == 1 && s' == s.Put(n, s.nodes[n].(stack := below))
            else ToldAll(s, s', n, 0, c.nodes, below) && s'.stopped
  {
    hide MovesTo, ToldAll;
    RaiseStep(c, s, n, below);
    if s.nodes[n].stop {
      k := 1;
      FirstStep(c, s, n, s.Put(n, s.nodes[n].(stack := below)), 0);
    } else {
      var s1 := s.Put(n, s.nodes[n].(stop := true, stack := below + [Stopping(StopFlag(0))]));
      k := TellRest(c, s1, n, below, 0);
      FirstStep(c, s, n, s1, k);
      FlagFirst(s, n, s1.nodes[n].stack, Solo(c, s1, n, k), c.nodes, below);
      k := k + 1;
    }
  }

  lemma RaiseStep(c: Config, s: State, n: NodeId, below: seq<Frame>)
    requires AtStop(c, s, n, below, Raise)
    ensures MovesTo(c, s, n, s.Put(n, if s.nodes[n].stop then s.nodes[n].(stack := below)
                                      else s.nodes[n].(stop := true, stack := below + [Stopping(StopFlag(0))])))
  {
  }

  lemma FlagFirst(s: State, n: NodeId, stack: seq<Frame>, s': State, j: nat, below: seq<Frame>)
    requires n < |s.nodes| <= j && ToldAll(s.Put(n, s.nodes[n].(stop := true, stack := stack)), s', n, 0, j, below)
    ensures ToldAll(s, s', n, 0, j, below)
  {
  }

  // ---- every run ----

  /** A call of `stop_scheduler` that has raised its own flag and not yet returned. */
  predicate MidStop(f: Frame) {
    f.Stopping? && !f.stopping.Raise?
  }

  ghost predicate SomeStops(s: State) {
    exists m :: 0 <= m < |s.nodes| && MidStop(s.nodes[m].Top())
  }

  /** No flag is set for nothing: the call that set it goes on to stop every node. */
  ghost predicate FlagsOk(s: State) {
    forall i :: 0 <= i < |s.nodes| && s.nodes[i].stop ==> s.stopped || SomeStops(s)
  }

  lemma MidStopStep(c: Config, s: State, a: Action)
    requires Enabled(c, s, a) && MidStop(s.nodes[a.n].Top())
    ensures |Next(c, s, a).nodes| == c.nodes
    ensures Next(c, s, a).stopped || MidStop(Next(c, s, a).nodes[a.n].Top())
  {
  }

  lemma LoopKeepsFlags(c: Config, s: State, n: NodeId, pc: LoopPc, ok: bool, i: NodeId)
    requires n < |s.nodes| && c.nodes > 0 && LoopEnabled(s, n, pc, ok) && i < |s.nodes|
    ensures |LoopStep(c, s, n, pc, ok).nodes| == |s.nodes|
    ensures LoopStep(c, s, n, pc, ok).nodes[i].stop == s.nodes[i].stop
  {
  }

  lemma CreateKeepsFlags(c: Config, s: State, n: NodeId, pc: CreatePc, ok: bool, id: TaskId, i: NodeId)
    requires n < |s.nodes| && c.nodes > 0 && CreateEnabled(c, s, n, pc, ok, id) && i < |s.nodes|
    ensures |CreateStep(c, s, n, pc, ok, id).nodes| == |s.nodes|
    ensures CreateStep(c, s, n, pc, ok, id).nodes[i].stop == s.nodes[i].stop
  {
  }

  /** Outside of `stop_scheduler` no flag changes. */
  lemma KeepsFlags(c: Config, s: State, a: Action, i: NodeId)
    requires Enabled(c, s, a) && c.nodes > 0 && i < c.nodes && !(a.Step? && s.nodes[a.n].Top().Stopping?)
    ensures |Next(c, s, a).nodes| == c.nodes && Next(c, s, a).nodes[i].stop == s.nodes[i].stop
  {
    if a.Step? && s.nodes[a.n].Top().Loop? {
      LoopKeepsFlags(c, s, a.n, s.nodes[a.n].Top().loop, a.ok, i);
      hide LoopStep, LoopEnabled;
    } else if a.Step? && s.nodes[a.n].Top().Creating? {
      CreateKeepsFlags(c, s, a.n, s.nodes[a.n].Top().create, a.ok, a.id, i);
      hide CreateStep, CreateEnabled;
    }
  }

  /** The first flag of all is raised by a call that is in the middle of stopping then. */
  lemma FirstFlag(c: Config, s: State, a: Action, i: NodeId)
    requires Enabled(c, s, a) && c.nodes > 0 && i < c.nodes && !MidStop(s.nodes[a.n].Top())
    requires forall j :: 0 <= j < c.nodes ==> !s.nodes[j].stop
    ensures |Next(c, s, a).nodes| == c.nodes
    ensures Next(c, s, a).nodes[i].stop ==> MidStop(Next(c, s, a).nodes[a.n].Top())
  {
    if a.Step? && s.nodes[a.n].Top().Stopping? {
      assert s.nodes[a.n].Top().stopping.Raise? && !s.nodes[a.n].stop && !s.nodes[i].stop;
    } else {
      KeepsFlags(c, s, a, i);
      hide Next, Enabled;
    }
  }

  lemma FlagsStep(c: Config, s: State, a: Action)
    requires SchedulerProtocol.Inv(c, s) && FlagsOk(s) && Enabled(c, s, a)
    ensures FlagsOk(Next(c, s, a))
  {
    SchedulerProtocol.OfNode(c, s, a.n);
    SchedulerProtocol.StepOk(c, s, a, a.n);
    var s' := Next(c, s, a);
    if s.stopped {
      StoppedStays(c, s, a);
    } else if SomeStops(s) {
      var m :| 0 <= m < |s.nodes| && MidStop(s.nodes[m].Top());
      SomeStopsStep(c, s, a, m);
    } else {
      hide Next, Enabled, SchedulerProtocol.Inv;
      assert !MidStop(s.nodes[a.n].Top());
      forall i | 0 <= i < |s'.nodes| && s'.nodes[i].stop
        ensures SomeStops(s')
      {
        FirstFlag(c, s, a, i);
        assert MidStop(s'.nodes[a.n].Top());
      }
    }
    hide Next, Enabled;
  }

  lemma SomeStopsStep(c: Config, s: State, a: Action, m: NodeId)
    requires SchedulerProtocol.Inv(c, s) && Enabled(c, s, a) && m < c.nodes && MidStop(s.nodes[m].Top())
    ensures Next(c, s, a).stopped || SomeStops(Next(c, s, a))
  {
    SchedulerProtocol.OfNode(c, s, a.n);
    SchedulerProtocol.OfNode(c, s, m);
    if m == a.n {
      MidStopStep(c, s, a);
      SchedulerProtocol.StepOk(c, s, a, m);
    } else {
      SchedulerProtocol.TopStays(c, s, a, m);
    }
    hide Next, Enabled, SchedulerProtocol.Inv, MidStop;
  }

  lemma FirstFlags(c: Config)
    requires c.nodes > 0
    ensures FlagsOk(Init(c))
  {
    hide SomeStops;
  }

  lemma {:induction false} RunFlags(c: Config, states: seq<State>, acts: seq<Action>, k: nat)
    requires IsRun(c, states, acts) && k <= |acts|
    ensures FlagsOk(states[k])
  {
    if k > 0 {
      hide FlagsOk, SchedulerProtocol.Inv, Next, Enabled, PlacesOk, NumbersOk, StartsOk;
      RunFlags(c, states, acts, k - 1);
      RunInv(c, states, acts, k - 1);
      assert Leads(c, states[k - 1], acts[k - 1], states[k]);
      FlagsStep(c, states[k - 1], acts[k - 1]);
    } else {
      FirstFlags(c);
    }
  }

  /** A call in the middle of stopping, alone, finishes within 3 * nodes + 1 steps. */
  lemma MidStopAlone(c: Config, s: State, n: NodeId, below: seq<Frame>, pc: StopPc) returns (k: nat)
    requires AtStop(c, s, n, below, pc) && !pc.Raise? && StopEnabled(c, pc)
    ensures k <= 3 * c.nodes + 1 && Solo(c, s, n, k).stopped
  {
    match pc
    case StopFlag(i) => k := TellRest(c, s, n, below, i);
    case StopPulse(i) =>
      PulseStep(c, s, n, below, i);
      k := AfterMove(c, s, i, s.nodes[i].(pulsed := true, asleep := false), n, below,
                     if s.nodes[i].asleep then StopNotify(i) else StopFlag(i + 1));
    case StopNotify(i) => k := NotifyAlone(c, s, n, below, i);
  }

  lemma NotifyAlone(c: Config, s: State, n: NodeId, below: seq<Frame>, i: NodeId) returns (k: nat)
    requires AtStop(c, s, n, below, StopNotify(i)) && i < c.nodes
    ensures k <= 3 * (c.nodes - i) - 1 && Solo(c, s, n, k).stopped
    decreases 1
  {
    NotifyStep(c, s, n, below, i);
    k := AfterMove(c, s, i, s.nodes[i].(stack := Awake(s.nodes[i].stack)), n, below, StopFlag(i + 1));
  }

  lemma AfterMove(
    c: Config, s: State, i: NodeId, a: Node, n: NodeId, below: seq<Frame>, pc: StopPc) returns (k: nat)
    requires |s.nodes| == c.nodes && i < c.nodes && n < c.nodes && (pc == StopFlag(i + 1) || pc == StopNotify(i))
    requires MovesTo(c, s, n, Moved(s, i, a, n, below + [Stopping(pc)]))
    ensures Solo(c, s, n, k).stopped
    ensures k <= 3 * (c.nodes - i) - (if pc.StopFlag? then 1 else 0)
    decreases if pc.StopNotify? then 2 else 0
  {
    hide AtStop, MovesTo, ToldAll;
    var s1 := Moved(s, i, a, n, below + [Stopping(pc)]);
    AtMoved(c, s, i, a, n, below, pc);
    hide Solo, Moved;
    if pc.StopFlag? {
      k := TellRest(c, s1, n, below, i + 1);
    } else {
      k := NotifyAlone(c, s1, n, below, i);
    }
    FirstStep(c, s, n, s1, k);
    k := k + 1;
  }

  /** Over every run: once any node's flag is up, every node has been told to stop, or
      some call is in the middle of it and, alone, finishes within 3 * nodes + 1 steps. */
  lemma FlagLeadsToStop(c: Config, states: seq<State>, acts: seq<Action>, k: nat, i: NodeId)
    returns (m: NodeId, steps: nat)
    requires IsRun(c, states, acts) && k <= |acts| && i < |states[k].nodes| && states[k].nodes[i].stop
    ensures states[k].stopped || (m < |states[k].nodes| && MidStop(states[k].nodes[m].Top()))
    ensures steps <= 3 * c.nodes + 1 && Solo(c, states[k], m, steps).stopped
  {
    RunFlags(c, states, acts, k);
    RunInv(c, states, acts, k);
    var s := states[k];
    m, steps := 0, 0;
    if !s.stopped {
      m :| 0 <= m < |s.nodes| && MidStop(s.nodes[m].Top());
      SchedulerProtocol.OfNode(c, s, m);
      SchedulerProtocol.TopOk(c, m, s.nodes[m].stack);
      var stack := s.nodes[m].stack;
      assert stack == stack[..|stack| - 1] + [Stopping(s.nodes[m].Top().stopping)];
      steps := MidStopAlone(c, s, m, stack[..|stack| - 1], s.nodes[m].Top().stopping);
    }
  }
}
