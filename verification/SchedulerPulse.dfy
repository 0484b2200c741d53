/** Each pulse lets its node out of `wait` at most once. */
module SchedulerPulse {
  import opened Scheduler
  import opened SchedulerTheorems
  import SchedulerProtocol

  /** The step in which node i leaves `wait`. */
  ghost predicate Leaves(s: State, a: Action, s': State, i: NodeId) {
    && a.n == i < |s.nodes| && i < |s'.nodes|
    && (s.nodes[i].Main().Wait? || s.nodes[i].Main().Woken?) && s'.nodes[i].Main().Reload?
  }

  /** The step in which a call of `new_task` or `stop_scheduler` pulses node i. */
  ghost predicate Pulses(s: State, a: Action, i: NodeId) {
    a.Step? && a.n < |s.nodes|
    && (s.nodes[a.n].Top() == Creating(CreatePc.Pulse(i)) || s.nodes[a.n].Top() == Stopping(StopPulse(i)))
  }

  lemma LoopPulsed(c: Config, s: State, n: NodeId, pc: LoopPc, ok: bool, i: NodeId)
    requires n < |s.nodes| && c.nodes > 0 && LoopEnabled(s, n, pc, ok) && i < |s.nodes|
    ensures var s' := LoopStep(c, s, n, pc, ok);
      && |s'.nodes| == |s.nodes|
      && s'.nodes[i].pulsed == (s.nodes[i].pulsed && !(i == n && (pc.Wait? || pc.Woken?)))
      && (s.nodes[n].stack == [Loop(pc)] && (pc.Wait? || pc.Woken?) ==>
            (s'.nodes[n].Main().Reload? <==> s.nodes[n].pulsed))
  {
  }

  lemma CreatePulsed(c: Config, s: State, n: NodeId, pc: CreatePc, ok: bool, id: TaskId, i: NodeId)
    requires n < |s.nodes| && c.nodes > 0 && CreateEnabled(c, s, n, pc, ok, id) && i < |s.nodes|
    ensures var s' := CreateStep(c, s, n, pc, ok, id);
      |s'.nodes| == |s.nodes| && s'.nodes[i].pulsed == (s.nodes[i].pulsed || pc == CreatePc.Pulse(i))
  {
  }

  lemma StopPulsed(c: Config, s: State, n: NodeId, pc: StopPc, i: NodeId)
    requires n < |s.nodes| == c.nodes && StopEnabled(c, pc) && i < |s.nodes|
    ensures var s' := StopStep(c, s, n, pc);
      |s'.nodes| == |s.nodes| && s'.nodes[i].pulsed == (s.nodes[i].pulsed || pc == StopPulse(i))
  {
  }

  /** What a step does to the pulse of node i. */
  ghost predicate PulseMove(s: State, a: Action, s': State, i: NodeId)
    requires i < |s.nodes| == |s'.nodes|
  {
    if Pulses(s, a, i) then s'.nodes[i].pulsed
    else if Leaves(s, a, s', i) then s.nodes[i].pulsed && !s'.nodes[i].pulsed
    else s'.nodes[i].pulsed == s.nodes[i].pulsed
  }

  /** The pulse is set exactly by the steps that pulse the node and is used up exactly by
      those in which it leaves `wait`. */
  lemma PulseStep(c: Config, s: State, a: Action, i: NodeId)
    requires SchedulerProtocol.Inv(c, s) && Enabled(c, s, a) && i < c.nodes
    ensures |Next(c, s, a).nodes| == c.nodes && PulseMove(s, a, Next(c, s, a), i)
    ensures !(Pulses(s, a, i) && Leaves(s, a, Next(c, s, a), i))
  {
    SchedulerProtocol.OfNode(c, s, a.n);
    SchedulerProtocol.TopOk(c, a.n, s.nodes[a.n].stack);
    SchedulerProtocol.StepOk(c, s, a, a.n);
    hide SchedulerProtocol.Inv, SchedulerProtocol.NodeOk, SchedulerProtocol.StackOk, PulseMove, Pulses, Leaves;
    if s.nodes[a.n].Top().Loop? {
      LoopPulseStep(c, s, a, i);
    } else {
      CallPulseStep(c, s, a, i);
    }
  }

  lemma LoopPulseStep(c: Config, s: State, a: Action, i: NodeId)
    requires c.nodes > 0 && Enabled(c, s, a) && i < c.nodes && |Next(c, s, a).nodes| == c.nodes
    requires s.nodes[a.n].Top().Loop? && |s.nodes[a.n].stack| == 1
    ensures PulseMove(s, a, Next(c, s, a), i) && !Pulses(s, a, i)
  {
    hide LoopStep, LoopEnabled, CreateStep, CreateEnabled, StopStep, StopEnabled;
    if a.Step? {
      LoopPulsed(c, s, a.n, s.nodes[a.n].Top().loop, a.ok, i);
    }
  }

  /** A call is never in `wait`. */
  lemma CallPulseStep(c: Config, s: State, a: Action, i: NodeId)
    requires c.nodes > 0 && Enabled(c, s, a) && i < c.nodes && |Next(c, s, a).nodes| == c.nodes
    requires !s.nodes[a.n].Top().Loop? && SchedulerProtocol.Calls(s.nodes[a.n].Main())
    ensures PulseMove(s, a, Next(c, s, a), i) && !Leaves(s, a, Next(c, s, a), i)
  {
    if a.Step? && s.nodes[a.n].Top().Creating? {
      CreatePulsed(c, s, a.n, s.nodes[a.n].Top().create, a.ok, a.id, i);
      hide CreateStep, CreateEnabled;
    } else if a.Step? && s.nodes[a.n].Top().Stopping? {
      StopPulsed(c, s, a.n, s.nodes[a.n].Top().stopping, i);
      hide StopStep, StopEnabled;
    }
  }

  ghost function Has(s: State, i: NodeId): nat {
    if i < |s.nodes| && s.nodes[i].pulsed then 1 else 0
  }

  ghost function Pulse(s: State, a: Action, i: NodeId): nat {
    if Pulses(s, a, i) then 1 else 0
  }

  ghost function Leave(s: State, a: Action, s': State, i: NodeId): nat {
    if Leaves(s, a, s', i) then 1 else 0
  }

  // ---- runs ----

  lemma RunPulseStep(c: Config, states: seq<State>, acts: seq<Action>, i: NodeId, k: nat)
    requires IsRun(c, states, acts) && k < |acts| && i < c.nodes
    ensures |states| == |acts| + 1
    ensures Has(states[k + 1], i) + Leave(states[k], acts[k], states[k + 1], i)
         <= Has(states[k], i) + Pulse(states[k], acts[k], i)
    ensures Leaves(states[k], acts[k], states[k + 1], i) ==> Has(states[k], i) == 1 && Has(states[k + 1], i) == 0
    ensures Leaves(states[k], acts[k], states[k + 1], i) ==> !Pulses(states[k], acts[k], i)
  {
    RunInv(c, states, acts, k);
    assert Leads(c, states[k], acts[k], states[k + 1]);
    hide IsRun;
    PulseStep(c, states[k], acts[k], i);
    hide SchedulerProtocol.Inv, Next, Enabled, Pulses, Leaves, PlacesOk, NumbersOk, StartsOk;
  }

  /** How often node i is pulsed, and how often it leaves `wait`, from j to k. */
  ghost function PulseCount(states: seq<State>, acts: seq<Action>, i: NodeId, j: nat, k: nat): nat
    requires j <= k <= |acts| < |states|
    decreases k
  {
    if j == k then 0
    else PulseCount(states, acts, i, j, k - 1) + Pulse(states[k - 1], acts[k - 1], i)
  }

  ghost function LeaveCount(states: seq<State>, acts: seq<Action>, i: NodeId, j: nat, k: nat): nat
    requires j <= k <= |acts| < |states|
    decreases k
  {
    if j == k then 0
    else LeaveCount(states, acts, i, j, k - 1) + Leave(states[k - 1], acts[k - 1], states[k], i)
  }

  lemma RunLength(c: Config, states: seq<State>, acts: seq<Action>)
    requires IsRun(c, states, acts)
    ensures |states| == |acts| + 1
  {
  }

  /** From j to k node i leaves `wait` at most as often as it is pulsed, and once more if
      it has a pulse at j. */
  ghost predicate Balanced(states: seq<State>, acts: seq<Action>, i: NodeId, j: nat, k: nat) {
    && j <= k <= |acts| < |states|
    && LeaveCount(states, acts, i, j, k) + Has(states[k], i) <= PulseCount(states, acts, i, j, k) + Has(states[j], i)
  }

  /** No node leaves `wait` without a pulse of its own, over every stretch of every run. */
  lemma {:induction false} NoLeaveWithoutPulse(
    c: Config, states: seq<State>, acts: seq<Action>, i: NodeId, j: nat, k: nat)
    requires IsRun(c, states, acts) && j <= k <= |acts| && i < c.nodes
    ensures Balanced(states, acts, i, j, k)
    decreases k
  {
    hide IsRun, Has, Pulse, Leave;
    RunLength(c, states, acts);
    if j < k {
      NoLeaveWithoutPulse(c, states, acts, i, j, k - 1);
      RunPulseStep(c, states, acts, i, k - 1);
    }
  }

  ghost predicate PulsesAt(states: seq<State>, acts: seq<Action>, i: NodeId, l: nat) {
    l < |states| && l < |acts| && Pulses(states[l], acts[l], i)
  }

  /** A node that has a pulse at k and had none at j has been pulsed in between. */
  lemma {:induction false} PulsedBetween(
    c: Config, states: seq<State>, acts: seq<Action>, i: NodeId, j: nat, k: nat) returns (l: nat)
    requires IsRun(c, states, acts) && j <= k <= |acts| && i < c.nodes
    requires Has(states[j], i) == 0 && Has(states[k], i) != 0
    ensures j <= l < k && PulsesAt(states, acts, i, l)
    decreases k
  {
    hide IsRun, Leave, Has, Pulses;
    RunLength(c, states, acts);
    assert k != j;
    RunPulseStep(c, states, acts, i, k - 1);
    if Pulses(states[k - 1], acts[k - 1], i) {
      l := k - 1;
    } else {
      l := PulsedBetween(c, states, acts, i, j, k - 1);
    }
  }

  /** Between two steps in which a node leaves `wait`, some call has pulsed it. */
  lemma LeavesOncePerPulse(
    c: Config, states: seq<State>, acts: seq<Action>, i: NodeId, j: nat, k: nat) returns (l: nat)
    requires IsRun(c, states, acts) && j < k < |acts|
    requires Leaves(states[j], acts[j], states[j + 1], i) && Leaves(states[k], acts[k], states[k + 1], i)
    ensures j < l < k && PulsesAt(states, acts, i, l)
  {
    RunNodes(c, states, acts, j);
    hide SchedulerProtocol.Inv, PlacesOk, NumbersOk, StartsOk;
    RunPulseStep(c, states, acts, i, j);
    RunPulseStep(c, states, acts, i, k);
    hide IsRun, Has;
    l := PulsedBetween(c, states, acts, i, j + 1, k);
  }

  lemma RunNodes(c: Config, states: seq<State>, acts: seq<Action>, k: nat)
    requires IsRun(c, states, acts) && k < |acts|
    ensures |states| == |acts| + 1 && |states[k].nodes| == c.nodes
  {
    RunInv(c, states, acts, k);
  }
}
