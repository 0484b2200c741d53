/** What the scheduler guarantees over whole runs. */
module SchedulerTheorems {
  import opened Basics
  import opened Scheduler
  import opened SchedulerSafety
  import SchedulerProtocol

  // ---- the tasks ----

  /** A live task is in exactly one place, an id that is not live in none. */
  ghost predicate PlacesOk(s: State) {
    forall t: TaskId :: Total(s.nodes, t) == if t in s.tasks then 1 else 0
  }

  /** Each created task has its own number, and has been started or is still live. */
  ghost predicate NumbersOk(s: State) {
    && (forall t :: t in s.tasks ==> s.tasks[t] < s.born)
    && (forall t, u :: t in s.tasks && u in s.tasks && t != u ==> s.tasks[t] != s.tasks[u])
    && (forall x: nat :: x < s.born ==> x in s.started || x in s.tasks.Values)
  }

  ghost predicate StartsOk(s: State) {
    && Distinct(s.started)
    && (forall x :: x in s.started ==> x < s.born)
    && (forall t :: t in s.tasks ==> (s.tasks[t] in s.started <==> Count(s.nodes, Executed, t) == 1))
  }

  ghost predicate Inv(c: Config, s: State) {
    SchedulerProtocol.Inv(c, s) && PlacesOk(s) && NumbersOk(s) && StartsOk(s)
  }

  ghost predicate Stacked(s: State) {
    forall i :: 0 <= i < |s.nodes| ==> s.nodes[i].stack != []
  }

  lemma ProtocolStacked(c: Config, s: State)
    requires SchedulerProtocol.Inv(c, s)
    ensures Stacked(s)
  {
    forall i | 0 <= i < |s.nodes|
      ensures s.nodes[i].stack != []
    {
      assert SchedulerProtocol.NodeOk(c, i, s.nodes[i]);
    }
  }

  /** What happens to the records of the tasks, by the move of the step. */
  ghost predicate Booked(s: State, a: Action, s': State)
    requires a.n < |s.nodes|
  {
    match From(s, a)
    case At(InQueue, _) => s'.tasks == s.tasks && s'.born == s.born && s'.started == s.started
    case At(InHand, _) => s'.tasks == s.tasks && s'.born == s.born && s'.started == s.started
    case At(Taken, t) =>
      t in s.tasks && s'.tasks == s.tasks && s'.born == s.born && s'.started == s.started + [s.tasks[t]]
    case At(Executed, t) => s'.tasks == s.tasks - {t} && s'.born == s.born && s'.started == s.started
    case Nowhere =>
      match To(s, a)
      case At(InHand, t) =>
        t !in s.tasks && s'.tasks == s.tasks[t := s.born] && s'.born == s.born + 1 && s'.started == s.started
      case _ => To(s, a) == Nowhere && s'.tasks == s.tasks && s'.born == s.born && s'.started == s.started
  }

  lemma Bookkeeping(c: Config, s: State, a: Action)
    requires c.Valid() && Enabled(c, s, a) && Stacked(s)
    ensures Booked(s, a, Next(c, s, a))
  {
    if a.Step? && s.nodes[a.n].Top().Loop? {
      LoopBooked(c, s, a);
    } else if a.Step? && s.nodes[a.n].Top().Creating? {
      CreateBooked(c, s, a);
    }
  }

  lemma LoopBooked(c: Config, s: State, a: Action)
    requires c.Valid() && Enabled(c, s, a) && a.Step? && s.nodes[a.n].Top().Loop?
    ensures Booked(s, a, Next(c, s, a))
  {
    hide LoopNode;
  }

  lemma CreateBooked(c: Config, s: State, a: Action)
    requires c.Valid() && Enabled(c, s, a) && a.Step? && s.nodes[a.n].Top().Creating?
    ensures Booked(s, a, Next(c, s, a))
  {
    hide CreateNode, Reached, Resumed;
  }

  function Holds(spot: Spot, t: TaskId): nat {
    if spot.At? && spot.task == t then 1 else 0
  }

  lemma HoldsWeights(spot: Spot, t: TaskId)
    ensures Holds(spot, t)
         == Weight(spot, InHand, t) + Weight(spot, InQueue, t) + Weight(spot, Taken, t) + Weight(spot, Executed, t)
  {
    if spot.At? {
      match spot.place
      case InHand =>
      case InQueue =>
      case Taken =>
      case Executed =>
    }
  }

  lemma StepTotal(c: Config, s: State, a: Action, t: TaskId)
    requires c.Valid() && Enabled(c, s, a) && Stacked(s)
    ensures Total(Next(c, s, a).nodes, t) + Holds(From(s, a), t) == Total(s.nodes, t) + Holds(To(s, a), t)
  {
    assert a.n < |s.nodes|;
    hide Next, Enabled, From, To, Count, Holds, Weight;
    HoldsWeights(From(s, a), t);
    HoldsWeights(To(s, a), t);
    StepCount(c, s, a, InHand, t);
    StepCount(c, s, a, InQueue, t);
    StepCount(c, s, a, Taken, t);
    StepCount(c, s, a, Executed, t);
  }

  /** Whatever a step moves is live. */
  lemma MovedIsLive(c: Config, s: State, a: Action)
    requires Inv(c, s) && Enabled(c, s, a)
    ensures From(s, a).At? ==> From(s, a).task in s.tasks
  {
    ProtocolStacked(c, s);
    if From(s, a).At? {
      var t := From(s, a).task;
      StepCount(c, s, a, From(s, a).place, t);
      hide Next, Enabled, From, To, Count, SchedulerProtocol.Inv;
      assert Weight(From(s, a), From(s, a).place, t) == 1;
      assert Total(s.nodes, t) == if t in s.tasks then 1 else 0;
    }
  }

  lemma PlacesStep(c: Config, s: State, a: Action)
    requires Inv(c, s) && Enabled(c, s, a)
    ensures PlacesOk(Next(c, s, a))
  {
    ProtocolStacked(c, s);
    Bookkeeping(c, s, a);
    MovedIsLive(c, s, a);
    forall t: TaskId
      ensures Total(Next(c, s, a).nodes, t) == if t in Next(c, s, a).tasks then 1 else 0
    {
      StepTotal(c, s, a, t);
      hide Next, Enabled, From, Total, SchedulerProtocol.Inv;
      assert Total(s.nodes, t) == if t in s.tasks then 1 else 0;
    }
  }

  lemma NumbersStep(c: Config, s: State, a: Action)
    requires Inv(c, s) && Enabled(c, s, a)
    ensures NumbersOk(Next(c, s, a))
  {
    ProtocolStacked(c, s);
    Bookkeeping(c, s, a);
    StartedIfRunning(c, s, a);
    forall x: nat | x < Next(c, s, a).born
      ensures x in Next(c, s, a).started || x in Next(c, s, a).tasks.Values
    {
      StartedOrLive(c, s, a, x);
    }
    hide Next, Enabled, SchedulerProtocol.Inv, From, To, StartsOk, PlacesOk;
  }

  lemma StartedOrLive(c: Config, s: State, a: Action, x: nat)
    requires Inv(c, s) && Enabled(c, s, a) && x < Next(c, s, a).born
    ensures x in Next(c, s, a).started || x in Next(c, s, a).tasks.Values
  {
    ProtocolStacked(c, s);
    Bookkeeping(c, s, a);
    StartedIfRunning(c, s, a);
    hide Next, Enabled, SchedulerProtocol.Inv, From, To, StartsOk, PlacesOk;
    var s' := Next(c, s, a);
    if x < s.born && x in s.tasks.Values {
      var t :| t in s.tasks && s.tasks[t] == x;
      assert t in s'.tasks ==> s'.tasks[t] in s'.tasks.Values;
    } else if x == s.born {
      assert s'.tasks[To(s, a).task] == x;
    }
  }

  /** A task that finishes has been started. */
  lemma StartedIfRunning(c: Config, s: State, a: Action)
    requires Inv(c, s) && Enabled(c, s, a)
    ensures From(s, a).At? && From(s, a).place.Executed? ==>
              From(s, a).task in s.tasks && s.tasks[From(s, a).task] in s.started
    ensures From(s, a).At? && From(s, a).place.Taken? ==>
              From(s, a).task in s.tasks && s.tasks[From(s, a).task] !in s.started
  {
    ProtocolStacked(c, s);
    MovedIsLive(c, s, a);
    if From(s, a).At? {
      var t := From(s, a).task;
      StepCount(c, s, a, From(s, a).place, t);
      hide Next, Enabled, From, To, Count, SchedulerProtocol.Inv;
      assert Total(s.nodes, t) == 1;
    }
  }

  lemma StartsStep(c: Config, s: State, a: Action)
    requires Inv(c, s) && Enabled(c, s, a)
    ensures StartsOk(Next(c, s, a))
  {
    var s' := Next(c, s, a);
    StartedOnce(c, s, a);
    forall t | t in s'.tasks
      ensures s'.tasks[t] in s'.started <==> Count(s'.nodes, Executed, t) == 1
    {
      StartedIffExecuted(c, s, a, s', t);
    }
    hide Next, Enabled, SchedulerProtocol.Inv, Count;
  }

  lemma StartedOnce(c: Config, s: State, a: Action)
    requires Inv(c, s) && Enabled(c, s, a)
    ensures Distinct(Next(c, s, a).started)
    ensures forall x :: x in Next(c, s, a).started ==> x < Next(c, s, a).born
  {
    ProtocolStacked(c, s);
    Bookkeeping(c, s, a);
    StartedIfRunning(c, s, a);
    hide Next, Enabled, SchedulerProtocol.Inv, From, To, Count;
  }

  lemma PlacesOf(c: Config, s: State, t: TaskId)
    requires Inv(c, s)
    ensures Total(s.nodes, t) == if t in s.tasks then 1 else 0
  {
    hide Total, SchedulerProtocol.Inv;
  }

  /** What was started before is what had been executed. */
  lemma StartedBefore(c: Config, s: State, t: TaskId)
    requires Inv(c, s) && t in s.tasks
    ensures s.tasks[t] in s.started <==> Count(s.nodes, Executed, t) == 1
    ensures s.tasks[t] < s.born && Count(s.nodes, Executed, t) <= 1
    ensures forall x :: x in s.started ==> x < s.born
  {
    PlacesOf(c, s, t);
    hide SchedulerProtocol.Inv, Count;
  }

  lemma StartedIffExecuted(c: Config, s: State, a: Action, s': State, t: TaskId)
    requires Inv(c, s) && Enabled(c, s, a) && s' == Next(c, s, a) && t in s'.tasks
    ensures s'.tasks[t] in s'.started <==> Count(s'.nodes, Executed, t) == 1
  {
    assert c.Valid() && a.n < |s.nodes|;
    ProtocolStacked(c, s);
    StartsKnown(c, s);
    hide Inv, Next, Enabled, From, To, Count;
    Bookkeeping(c, s, a);
    MovedIsLive(c, s, a);
    StartedIfRunning(c, s, a);
    StepCount(c, s, a, Executed, t);
    MovedTo(s, a);
    if t in s.tasks {
      StartedBefore(c, s, t);
      SameNumberSameTask(c, s, t, if From(s, a).At? then From(s, a).task else t);
    } else {
      PlacesOf(c, s, t);
    }
  }

  lemma StartsKnown(c: Config, s: State)
    requires Inv(c, s)
    ensures forall x :: x in s.started ==> x < s.born
  {
  }

  lemma SameNumberSameTask(c: Config, s: State, t: TaskId, u: TaskId)
    requires Inv(c, s) && t in s.tasks
    ensures u in s.tasks && u != t ==> s.tasks[u] != s.tasks[t]
  {
  }

  lemma MovedTo(s: State, a: Action)
    requires a.n < |s.nodes|
    ensures From(s, a) != Nowhere ==>
              To(s, a) == match From(s, a)
                          case At(InQueue, t) => At(Taken, t)
                          case At(InHand, t) => At(InQueue, t)
                          case At(Taken, t) => At(Executed, t)
                          case _ => Nowhere
  {
  }

  lemma NextInv(c: Config, s: State, a: Action)
    requires Inv(c, s) && Enabled(c, s, a)
    ensures Inv(c, Next(c, s, a))
  {
    SchedulerProtocol.NextInv(c, s, a);
    PlacesStep(c, s, a);
    NumbersStep(c, s, a);
    StartsStep(c, s, a);
  }

  lemma {:induction false} NoTasks(nodes: seq<Node>, p: Place, t: TaskId)
    requires forall i :: 0 <= i < |nodes| ==> NodeCount(nodes[i], p, t) == 0
    ensures Count(nodes, p, t) == 0
  {
    if nodes != [] {
      NoTasks(nodes[..|nodes| - 1], p, t);
    }
  }

  lemma InitInv(c: Config)
    requires c.Valid()
    ensures Inv(c, Init(c))
  {
    SchedulerProtocol.InitInv(c);
    var nodes := Init(c).nodes;
    forall p, t
      ensures Count(nodes, p, t) == 0
    {
      forall i: nat | i < |nodes|
        ensures NodeCount(nodes[i], p, t) == 0
      {
        FreshCount(c, i, p, t);
      }
      NoTasks(nodes, p, t);
    }
  }

  lemma FreshCount(c: Config, n: NodeId, p: Place, t: TaskId)
    requires c.nodes > 0
    ensures NodeCount(FreshNode(c, n), p, t) == 0
  {
    var idle := FreshNode(c, n).(stack := []);
    CallCount(idle, Loop(Begin), p, t);
    CallCount(idle.Call(Loop(Begin)), Creating(Emplace), p, t);
    assert FreshNode(c, n) == if n == 0 then idle.Call(Loop(Begin)).Call(Creating(Emplace)) else idle.Call(Loop(Begin));
  }

  // ---- runs ----

  ghost predicate IsRun(c: Config, states: seq<State>, acts: seq<Action>) {
    && c.Valid()
    && |states| == |acts| + 1
    && states[0] == Init(c)
    && forall k :: 0 <= k < |acts| ==> Leads(c, states[k], acts[k], states[k + 1])
  }

  ghost predicate Leads(c: Config, s: State, a: Action, s': State) {
    Enabled(c, s, a) && s' == Next(c, s, a)
  }

  lemma {:induction false} RunInv(c: Config, states: seq<State>, acts: seq<Action>, k: nat)
    requires IsRun(c, states, acts) && k <= |acts|
    ensures Inv(c, states[k])
  {
    if k == 0 {
      InitInv(c);
    } else {
      RunInv(c, states, acts, k - 1);
      assert Leads(c, states[k - 1], acts[k - 1], states[k]);
      NextInv(c, states[k - 1], acts[k - 1]);
    }
  }

  /** Every live task is in exactly one place: a creator's hands, a queue, pulled, or
      running. A finished task, or an id not issued, is in none. */
  lemma Conservation(c: Config, states: seq<State>, acts: seq<Action>, k: nat, t: TaskId)
    requires IsRun(c, states, acts) && k <= |acts|
    ensures Count(states[k].nodes, InHand, t) + Count(states[k].nodes, InQueue, t)
          + Count(states[k].nodes, Taken, t) + Count(states[k].nodes, Executed, t)
         == if t in states[k].tasks then 1 else 0
  {
    RunInv(c, states, acts, k);
    assert Total(states[k].nodes, t) == if t in states[k].tasks then 1 else 0;
  }

  /** No task is begun twice, and every task ever created has been begun or is live. */
  lemma RunsOnce(c: Config, states: seq<State>, acts: seq<Action>, k: nat)
    requires IsRun(c, states, acts) && k <= |acts|
    ensures forall i, j :: 0 <= i < j < |states[k].started| ==> states[k].started[i] != states[k].started[j]
    ensures forall x: nat :: x < states[k].born <==> x in states[k].started || x in states[k].tasks.Values
  {
    RunInv(c, states, acts, k);
    var s := states[k];
    hide IsRun, SchedulerProtocol.Inv;
    forall x: nat
      ensures x < s.born <==> x in s.started || x in s.tasks.Values
    {
    }
  }

  // ---- after the last node has left ----

  ghost predicate AllExited(s: State) {
    forall i :: 0 <= i < |s.nodes| ==> s.nodes[i].Main().Exited?
  }

  lemma ExitedHoldsNothing(c: Config, s: State, i: NodeId, p: Place, t: TaskId)
    requires Inv(c, s) && i < c.nodes && s.nodes[i].Main().Exited? && !p.InQueue?
    ensures NodeCount(s.nodes[i], p, t) == 0 && |s.nodes[i].queue| <= 1
  {
    var node := s.nodes[i];
    assert SchedulerProtocol.NodeOk(c, i, node);
    SchedulerProtocol.TopOk(c, i, node.stack);
    CallCount(node.(stack := []), Loop(Exited), p, t);
    assert node == node.(stack := []).Call(Loop(Exited));
  }

  /** When every node has left its loop, the unfinished tasks are exactly those in the
      queues, each there once; none of them was begun, everything else was, and no queue
      holds more than one. */
  lemma LeftInQueues(c: Config, states: seq<State>, acts: seq<Action>, k: nat)
    requires IsRun(c, states, acts) && k <= |acts| && AllExited(states[k])
    ensures var s := states[k];
      && (forall t: TaskId :: Count(s.nodes, InQueue, t) == if t in s.tasks then 1 else 0)
      && (forall t :: t in s.tasks ==> s.tasks[t] !in s.started)
      && (forall x: nat :: x < s.born && x !in s.tasks.Values ==> x in s.started)
      && (forall i :: 0 <= i < c.nodes ==> i < |s.nodes| && |s.nodes[i].queue| <= 1)
  {
    RunInv(c, states, acts, k);
    hide IsRun;
    var s := states[k];
    forall t: TaskId
      ensures Count(s.nodes, InHand, t) == Count(s.nodes, Taken, t) == Count(s.nodes, Executed, t) == 0
      ensures Count(s.nodes, InQueue, t) == if t in s.tasks then 1 else 0
    {
      forall i: nat, p: Place | i < |s.nodes| && !p.InQueue?
        ensures NodeCount(s.nodes[i], p, t) == 0
      {
        ExitedHoldsNothing(c, s, i, p, t);
      }
      NoTasks(s.nodes, InHand, t);
      NoTasks(s.nodes, Taken, t);
      NoTasks(s.nodes, Executed, t);
      hide SchedulerProtocol.Inv, Count;
      assert Total(s.nodes, t) == if t in s.tasks then 1 else 0;
    }
    forall i: nat | i < c.nodes
      ensures i < |s.nodes| && |s.nodes[i].queue| <= 1
    {
      ExitedHoldsNothing(c, s, i, InHand, 0);
    }
  }

  lemma {:induction false} CountedIsSomewhere(nodes: seq<Node>, p: Place, t: TaskId) returns (i: nat)
    requires Count(nodes, p, t) > 0
    ensures i < |nodes| && NodeCount(nodes[i], p, t) > 0
  {
    i := |nodes| - 1;
    if NodeCount(nodes[i], p, t) == 0 {
      i := CountedIsSomewhere(nodes[..i], p, t);
    }
  }

  /** Queues of at most one task each cannot hold more tasks than there are queues. */
  lemma {:induction false} OneInEachQueue(queues: seq<seq<TaskId>>, tasks: set<TaskId>)
    requires forall i :: 0 <= i < |queues| ==> |queues[i]| <= 1
    requires forall t :: t in tasks ==> exists i :: 0 <= i < |queues| && t in queues[i]
    ensures |tasks| <= |queues|
  {
    if queues == [] {
      assert tasks == {};
    } else {
      var last := |queues| - 1;
      var others := tasks - (if queues[last] == [] then {} else {queues[last][0]});
      forall t | t in others
        ensures exists i :: 0 <= i < last && t in queues[..last][i]
      {
        var i :| 0 <= i < |queues| && t in queues[i];
        assert i != last;
        assert queues[..last][i] == queues[i];
      }
      OneInEachQueue(queues[..last], others);
    }
  }

  /** So a stop loses at most one task for each node. */
  lemma StopLosesFew(c: Config, states: seq<State>, acts: seq<Action>, k: nat)
    requires IsRun(c, states, acts) && k <= |acts| && AllExited(states[k])
    ensures |states[k].tasks| <= c.nodes
  {
    var s := states[k];
    RunInv(c, states, acts, k);
    LeftInQueues(c, states, acts, k);
    var queues := seq(c.nodes, (i: nat) requires i < |s.nodes| => s.nodes[i].queue);
    hide IsRun, SchedulerProtocol.Inv;
    forall t | t in s.tasks.Keys
      ensures exists i :: 0 <= i < |queues| && t in queues[i]
    {
      assert Count(s.nodes, InQueue, t) == 1;
      var i := CountedIsSomewhere(s.nodes, InQueue, t);
      if t !in s.nodes[i].queue {
        HoldsNothing(s.nodes[i].stack, t);
      }
      assert t in queues[i];
    }
    OneInEachQueue(queues, s.tasks.Keys);
    assert |s.tasks| == |s.tasks.Keys|;
  }

  /** Only the queue of a node counts as its queue. */
  lemma {:induction false} HoldsNothing(stack: seq<Frame>, t: TaskId)
    ensures StackCount(stack, InQueue, t) == 0
  {
    if stack != [] {
      HoldsNothing(stack[..|stack| - 1], t);
    }
  }

  // ---- sleeping, waking, stopping ----

  /** The check at the head of `wait` holds; a node that sleeps without a pulse can be
      woken, because it is available or a call that withdrew this is about to pulse it;
      and a pulsed node that is still blocked has a notification under way. */
  lemma SleepSafety(c: Config, states: seq<State>, acts: seq<Action>, k: nat, i: NodeId)
    requires IsRun(c, states, acts) && k <= |acts| && i < c.nodes
    ensures var s := states[k];
      && i < |s.nodes|
      && (s.nodes[i].Main().Wait? ==> !s.nodes[i].asleep)
      && (s.nodes[i].Main().Blocked? && !s.nodes[i].pulsed ==>
            s.nodes[i].available || SchedulerProtocol.SomeWillPulse(s, i))
      && (s.nodes[i].Main().Blocked? && s.nodes[i].pulsed ==> SchedulerProtocol.SomeNotifies(s, i))
  {
    RunInv(c, states, acts, k);
    hide IsRun;
    assert SchedulerProtocol.NodeOk(c, i, states[k].nodes[i]);
    assert SchedulerProtocol.NotifyOk(states[k], i) && SchedulerProtocol.WakeOk(states[k], i);
  }

  /** How many more steps a main loop can make once the scheduler is stopped. */
  function Rank(pc: LoopPc): nat {
    match pc
    case Exited => 0
    case TestStop(_, _) => 1
    case Announce(_) => 2
    case Deplete(_) => 3
    case Begin => 4
    case StealOnce(_) => 4
    case StealOther(_, _) => 4
    case Reload => 5
    case Reread(_) => 5
    case Woken(_) => 6
    case Withdraw(_) => 6
    case Wait(_) => 7
    case Blocked(_) => 7
    case Steal(_, _) => 8
  }

  predicate PullsOwn(s: State, a: Action)
    requires a.n < |s.nodes|
  {
    a.Step? && a.ok && s.nodes[a.n].Top().Loop? && s.nodes[a.n].Top().loop.Deplete?
  }

  predicate LoopMove(s: State, a: Action)
    requires a.n < |s.nodes|
  {
    a.Step? && s.nodes[a.n].Top().Loop?
  }

  /** After a finished `stop_scheduler` no node goes to sleep any more, and every step
      of a main loop brings it nearer to its exit, except pulling a task of its own. */
  lemma StopLeadsOut(c: Config, s: State, a: Action, i: NodeId)
    requires SchedulerProtocol.Inv(c, s) && Enabled(c, s, a) && s.stopped && i < c.nodes
    ensures |Next(c, s, a).nodes| == c.nodes
    ensures Next(c, s, a).nodes[i].Main().Blocked? ==> s.nodes[i].Main().Blocked?
    ensures Rank(Next(c, s, a).nodes[i].Main()) <= Rank(s.nodes[i].Main())
    ensures i == a.n && LoopMove(s, a) && !PullsOwn(s, a) ==>
              Rank(Next(c, s, a).nodes[i].Main()) < Rank(s.nodes[i].Main())
  {
    assert SchedulerProtocol.StopsOk(s, i);
    assert SchedulerProtocol.NodeOk(c, i, s.nodes[i]) && SchedulerProtocol.NodeOk(c, a.n, s.nodes[a.n]);
    SchedulerProtocol.TopOk(c, i, s.nodes[i].stack);
    SchedulerProtocol.StepOk(c, s, a, i);
    if i != a.n {
      hide Next, Enabled, SchedulerProtocol.Inv, SchedulerProtocol.StackOk;
      SchedulerProtocol.TouchedOk(c, i, s.nodes[i], Next(c, s, a).nodes[i]);
    } else if !s.nodes[i].Top().Loop? {
      SchedulerProtocol.CallMain(c, s, a);
      hide Next, Enabled, SchedulerProtocol.Inv, SchedulerProtocol.StackOk;
    } else {
      hide SchedulerProtocol.Inv, SchedulerProtocol.NodeOk, SchedulerProtocol.StackOk;
      OwnRank(c, s, a);
    }
  }

  lemma OwnRank(c: Config, s: State, a: Action)
    requires c.Valid() && Enabled(c, s, a) && s.nodes[a.n].stack == [s.nodes[a.n].Top()] && s.nodes[a.n].Top().Loop?
    requires SchedulerProtocol.StopOk(s.nodes[a.n])
    ensures var node, node' := s.nodes[a.n], Next(c, s, a).nodes[a.n];
      && (node'.Main().Blocked? ==> node.Main().Blocked?)
      && Rank(node'.Main()) <= Rank(node.Main())
      && (LoopMove(s, a) && !PullsOwn(s, a) ==> Rank(node'.Main()) < Rank(node.Main()))
  {
    if a.Step? {
      LoopRank(c, s, a.n, s.nodes[a.n].Top().loop, a.ok);
      hide LoopStep, LoopEnabled;
    }
  }

  lemma LoopRank(c: Config, s: State, n: NodeId, pc: LoopPc, ok: bool)
    requires c.Valid() && n < |s.nodes| == c.nodes && s.nodes[n].stack == [Loop(pc)] && LoopEnabled(s, n, pc, ok)
    requires SchedulerProtocol.StopOk(s.nodes[n])
    ensures var node' := LoopStep(c, s, n, pc, ok).nodes[n];
      && !node'.Main().Blocked?
      && (if pc.Deplete? && ok then node'.Main() == pc else Rank(node'.Main()) < Rank(pc))
  {
  }

  /** The steps of node i's main loop between two points of a run, without the pulls
      from its own queue. */
  ghost function Moves(states: seq<State>, acts: seq<Action>, i: NodeId, j: nat, k: nat): nat
    requires j <= k <= |acts| < |states|
    decreases k
  {
    if j == k then 0
    else Moves(states, acts, i, j, k - 1) + (if Counted(states[k - 1], acts[k - 1], i) then 1 else 0)
  }

  ghost predicate Counted(s: State, a: Action, i: NodeId) {
    a.n == i < |s.nodes| && LoopMove(s, a) && !PullsOwn(s, a)
  }

  lemma StoppedStays(c: Config, s: State, a: Action)
    requires Enabled(c, s, a) && s.stopped
    ensures Next(c, s, a).stopped
  {
  }

  /** No node sleeps through a stop: once some `stop_scheduler` has finished, each node
      makes at most eight further steps of its main loop, apart from pulling tasks from
      its own queue, and it never blocks anew. */
  lemma {:induction false} StopBound(c: Config, states: seq<State>, acts: seq<Action>, i: NodeId, j: nat, k: nat)
    requires IsRun(c, states, acts) && j <= k <= |acts| && i < c.nodes && states[j].stopped
    ensures states[k].stopped && |states[j].nodes| == |states[k].nodes| == c.nodes
    ensures Moves(states, acts, i, j, k) + Rank(states[k].nodes[i].Main()) <= Rank(states[j].nodes[i].Main()) <= 8
    ensures states[k].nodes[i].Main().Blocked? ==> states[j].nodes[i].Main().Blocked?
    decreases k
  {
    RunInv(c, states, acts, k);
    RunInv(c, states, acts, j);
    if j < k {
      StopBound(c, states, acts, i, j, k - 1);
      RunInv(c, states, acts, k - 1);
      assert Leads(c, states[k - 1], acts[k - 1], states[k]);
      StoppedStays(c, states[k - 1], acts[k - 1]);
      StopLeadsOut(c, states[k - 1], acts[k - 1], i);
    }
  }

  // ---- no node is stuck ----

  lemma {:induction false} FreshId(tasks: set<TaskId>) returns (id: TaskId)
    ensures forall t :: t in tasks ==> t < id
  {
    if tasks == {} {
      id := 0;
    } else {
      var t :| t in tasks;
      var above := FreshId(tasks - {t});
      id := if above > t then above else t + 1;
      forall u | u in tasks
        ensures u < id
      {
        assert u != t ==> u in tasks - {t};
      }
    }
  }

  /** The task a node looks up before executing it is live. */
  lemma {:induction false} ExecutesLiveTask(c: Config, s: State, n: NodeId, t: TaskId, running: bool)
    requires Inv(c, s) && n < c.nodes && s.nodes[n].Top() == Executing(t, running)
    ensures t in s.tasks
  {
    var p := if running then Executed else Taken;
    assert SchedulerProtocol.NodeOk(c, n, s.nodes[n]);
    ReturnCount(s.nodes[n], p, t);
    CountAtLeast(s.nodes, n, p, t);
    assert Total(s.nodes, t) == if t in s.tasks then 1 else 0;
  }

  /** A node that is not blocked, has not left and is not inside a closure can go on. */
  lemma {:induction false} NeverStuck(c: Config, s: State, n: NodeId)
    requires Inv(c, s) && n < c.nodes
    ensures s.nodes[n].Main().Blocked? || s.nodes[n].Main().Exited? || Running(s, n)
         || exists ok, id :: StepEnabled(c, s, n, ok, id)
  {
    var node := s.nodes[n];
    assert SchedulerProtocol.NodeOk(c, n, node);
    SchedulerProtocol.TopOk(c, n, node.stack);
    match node.Top()
    case Loop(pc) =>
      if !pc.Blocked? && !pc.Exited? {
        assert StepEnabled(c, s, n, pc.Deplete? && node.queue != [], 0);
      }
    case Creating(pc) =>
      var id := FreshId(s.tasks.Keys);
      var ok := if pc.Push? then |node.queue| < c.capacity else pc.PullInstead? && node.queue != [];
      assert CreateEnabled(c, s, n, pc, ok, id);
      assert StepEnabled(c, s, n, ok, id);
    case Executing(t, running) =>
      if !running {
        ExecutesLiveTask(c, s, n, t, running);
        assert StepEnabled(c, s, n, true, 0);
      }
    case Stopping(pc) =>
      assert StepEnabled(c, s, n, true, 0);
  }

  /** After a finished stop a node that is still blocked is being notified, by a call
      that can go on. */
  lemma BlockedIsNotified(c: Config, s: State, i: NodeId)
    requires Inv(c, s) && s.stopped && i < c.nodes && s.nodes[i].Main().Blocked?
    ensures exists m :: 0 <= m < |s.nodes| && SchedulerProtocol.Notifies(s.nodes[m].Top(), i)
                        && StepEnabled(c, s, m, true, 0)
                        && StepNode(c, s, m, true, 0).nodes[i].Main().Woken?
  {
    assert SchedulerProtocol.NodeOk(c, i, s.nodes[i]);
    assert SchedulerProtocol.NotifyOk(s, i) && SchedulerProtocol.StopsOk(s, i);
    var m :| 0 <= m < |s.nodes| && SchedulerProtocol.Notifies(s.nodes[m].Top(), i);
    assert SchedulerProtocol.NodeOk(c, m, s.nodes[m]);
    SchedulerProtocol.TopOk(c, i, s.nodes[i].stack);
    SchedulerProtocol.TopOk(c, m, s.nodes[m].stack);
    SchedulerProtocol.NotifiedWakes(c, i, s.nodes[i]);
    assert StepEnabled(c, s, m, true, 0);
    assert Enabled(c, s, Step(m, true, 0));
    SchedulerProtocol.Effect(c, s, Step(m, true, 0), i);
  }
}
