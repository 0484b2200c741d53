/** What `node_loop` comes to: an idle node visits the others in a circle, takes the oldest
    task of the first that has one, and sleeps if none has; a node to which work has been
    delegated takes it from the right place. */
module SchedulerLoop {
  import opened Scheduler
  import opened SchedulerSolo
  import opened SchedulerDelegation
  import SchedulerProtocol

  /** Node n is in its main loop at pc, with no call above it. */
  ghost predicate AtLoop(c: Config, s: State, n: NodeId, pc: LoopPc) {
    n < |s.nodes| == c.nodes && s.nodes[n].stack == [Loop(pc)] && c.nodes >= 2
  }

  ghost function WithLoop(s: State, n: NodeId, pc: LoopPc): State
    requires n < |s.nodes|
  {
    s.Put(n, s.nodes[n].(stack := [Loop(pc)]))
  }

  /** Node n has taken the oldest task of node v and is about to run it, from pc. */
  ghost function Took(s: State, n: NodeId, v: NodeId, pc: LoopPc): State
    requires n < |s.nodes| && v < |s.nodes| && n != v && s.nodes[v].queue != []
  {
    s.Put(v, s.nodes[v].(queue := s.nodes[v].queue[1..]))
     .Put(n, s.nodes[n].(stack := [Loop(pc), Executing(s.nodes[v].queue[0], false)]))
  }

  lemma GotoLoop(node: Node, pc: LoopPc, pc': LoopPc)
    requires node.stack == [Loop(pc)]
    ensures node.Goto(Loop(pc')) == node.(stack := [Loop(pc')])
  {
  }

  lemma LoopMoves(c: Config, s: State, n: NodeId, pc: LoopPc)
    requires AtLoop(c, s, n, pc) && !pc.Blocked? && !pc.Exited? && (pc.Deplete? ==> s.nodes[n].queue == [])
    requires Steals(pc) ==> Victim(pc) < c.nodes && Victim(pc) != n && s.nodes[Victim(pc)].queue == []
    ensures MovesTo(c, s, n, s.Put(n, LoopNode(c, n, s.nodes[n], pc, false)))
  {
    hide CreateStep, CreateEnabled, StopStep, StopEnabled;
    assert s.nodes[n].Top() == Loop(pc);
    assert !Sees(c, s, n) || !Steals(pc);
    assert pc.Deplete? ==> !Sees(c, s, n);
    assert LoopNode(c, n, s.nodes[n], pc, Sees(c, s, n)) == LoopNode(c, n, s.nodes[n], pc, false) by {
      hide Sees;
    }
    hide LoopNode;
  }

  lemma StealMoves(c: Config, s: State, n: NodeId, pc: LoopPc)
    requires AtLoop(c, s, n, pc) && Steals(pc)
    requires Victim(pc) < c.nodes && Victim(pc) != n && s.nodes[Victim(pc)].queue != []
    ensures MovesTo(c, s, n, Took(s, n, Victim(pc), if pc.Steal? then Withdraw(pc.steal) else Deplete(Victim(pc))))
  {
    hide CreateStep, CreateEnabled, StopStep, StopEnabled, LoopNode;
    assert s.nodes[n].Top() == Loop(pc);
    var pc', v := if pc.Steal? then Withdraw(pc.steal) else Deplete(Victim(pc)), Victim(pc);
    var f := Executing(s.nodes[v].queue[0], false);
    GotoLoop(s.nodes[n], pc, pc');
    assert s.nodes[n].Goto(Loop(pc')).Call(f).stack == [Loop(pc'), f];
    assert Sees(c, s, n);
  }

  lemma PutTwice(s: State, n: NodeId, a: Node, b: Node)
    requires n < |s.nodes|
    ensures s.Put(n, a).Put(n, b) == s.Put(n, b)
  {
    assert s.Put(n, a).Put(n, b).nodes == s.Put(n, b).nodes;
  }

  /** One step that leads the loop to pc' and the rest of the node to `node`. */
  lemma OneStep(c: Config, s: State, n: NodeId, pc: LoopPc, node: Node, pc': LoopPc)
    requires AtLoop(c, s, n, pc) && !pc.Blocked? && !pc.Exited? && (pc.Deplete? ==> s.nodes[n].queue == [])
    requires Steals(pc) ==> Victim(pc) < c.nodes && Victim(pc) != n && s.nodes[Victim(pc)].queue == []
    requires node.stack == [Loop(pc)] && LoopNode(c, n, s.nodes[n], pc, false) == node.Goto(Loop(pc'))
    ensures Solo(c, s, n, 1) == s.Put(n, node.(stack := [Loop(pc')]))
  {
    LoopMoves(c, s, n, pc);
    GotoLoop(node, pc, pc');
    hide MovesTo, LoopNode;
    FirstStep(c, s, n, s.Put(n, node.(stack := [Loop(pc')])), 0);
  }

  // ---- looking for work ----

  /** Node n, searching from k, has passed only empty queues when it comes to v. */
  ghost predicate FirstWork(c: Config, s: State, n: NodeId, k: NodeId, v: NodeId)
    requires n < c.nodes == |s.nodes| && k < c.nodes && v < c.nodes
  {
    && v != n && s.nodes[v].queue != []
    && (forall m: NodeId :: m < c.nodes && m != n && Ahead(c, k, m) < Ahead(c, k, v) ==> s.nodes[m].queue == [])
  }

  /** How many places after k the search comes to m; k itself comes last. */
  function Ahead(c: Config, k: NodeId, m: NodeId): nat
    requires k < c.nodes && m < c.nodes
  {
    if m > k then m - k else m + c.nodes - k
  }

  /** The next victim comes before all others. */
  lemma NextIsAhead(c: Config, n: NodeId, k: NodeId, v: NodeId)
    requires c.nodes >= 2 && n < c.nodes && k < c.nodes && v < c.nodes && v != n
    ensures var k' := NextVictim(c, n, k);
      && k' < c.nodes && k' != n
      && (k' != v ==> Ahead(c, k, k') < Ahead(c, k, v) && Ahead(c, k', v) < Ahead(c, k, v))
      && (forall m: NodeId :: m < c.nodes && m != n && k' != v && Ahead(c, k', m) < Ahead(c, k', v) ==>
            Ahead(c, k, m) < Ahead(c, k, v))
  {
    Wrap(k + 1, c.nodes);
    Wrap((k + 1) % c.nodes + 1, c.nodes);
  }

  /** One unsuccessful round. */
  lemma EmptyRound(c: Config, s: State, n: NodeId, k: NodeId, runs: nat)
    requires AtLoop(c, s, n, TestStop(k, runs)) && !s.nodes[n].stop && k < c.nodes
    requires NextVictim(c, n, k) < c.nodes && NextVictim(c, n, k) != n && s.nodes[NextVictim(c, n, k)].queue == []
    ensures var k' := NextVictim(c, n, k);
            Solo(c, s, n, 2) == WithLoop(s, n, if runs + 1 == c.nodes then Wait(k') else TestStop(k', runs + 1))
  {
    hide Solo, NextVictim;
    var k' := NextVictim(c, n, k);
    var s1 := WithLoop(s, n, Steal(k', runs));
    var pc := if runs + 1 == c.nodes then Wait(k') else TestStop(k', runs + 1);
    OneStep(c, s, n, TestStop(k, runs), s.nodes[n], Steal(k', runs));
    OneStep(c, s1, n, Steal(k', runs), s1.nodes[n], pc);
    PutTwice(s, n, s1.nodes[n], s.nodes[n].(stack := [Loop(pc)]));
    SoloAdd(c, s, n, 1, 1);
  }

  /** The round that finds work. */
  lemma FullRound(c: Config, s: State, n: NodeId, k: NodeId, runs: nat)
    requires AtLoop(c, s, n, TestStop(k, runs)) && !s.nodes[n].stop && k < c.nodes
    requires NextVictim(c, n, k) < c.nodes && NextVictim(c, n, k) != n && s.nodes[NextVictim(c, n, k)].queue != []
    ensures var v := NextVictim(c, n, k); Solo(c, s, n, 2) == Took(s, n, v, Withdraw(v))
  {
    hide NextVictim, MovesTo, Solo;
    var v := NextVictim(c, n, k);
    var s1 := WithLoop(s, n, Steal(v, runs));
    OneStep(c, s, n, TestStop(k, runs), s.nodes[n], Steal(v, runs));
    StealMoves(c, s1, n, Steal(v, runs));
    TookSame(s, n, v, Steal(v, runs), Withdraw(v));
    FirstStep(c, s1, n, Took(s, n, v, Withdraw(v)), 0);
    NoSteps(c, Took(s, n, v, Withdraw(v)), n);
    SoloAdd(c, s, n, 1, 1);
  }

  lemma NoSteps(c: Config, s: State, n: NodeId)
    ensures Solo(c, s, n, 0) == s
  {
  }

  lemma {:induction false} SearchFinds(c: Config, s: State, n: NodeId, k: NodeId, runs: nat, v: NodeId) returns (steps: nat)
    requires AtLoop(c, s, n, TestStop(k, runs)) && !s.nodes[n].stop && k < c.nodes && v < c.nodes
    requires FirstWork(c, s, n, k, v) && runs + Ahead(c, k, v) <= c.nodes
    ensures steps <= 2 * Ahead(c, k, v) && Solo(c, s, n, steps) == Took(s, n, v, Withdraw(v))
    decreases Ahead(c, k, v)
  {
    hide NextVictim, Solo, Ahead;
    NextIsAhead(c, n, k, v);
    var k' := NextVictim(c, n, k);
    if k' == v {
      FullRound(c, s, n, k, runs);
      steps := 2;
      AheadPositive(c, k, v);
    } else {
      EmptyRound(c, s, n, k, runs);
      AheadPositive(c, k', v);
      var s1 := WithLoop(s, n, TestStop(k', runs + 1));
      steps := SearchFinds(c, s1, n, k', runs + 1, v);
      SoloAdd(c, s, n, 2, steps);
      TookSame(s, n, v, TestStop(k', runs + 1), Withdraw(v));
      steps := steps + 2;
    }
  }

  lemma TookSame(s: State, n: NodeId, v: NodeId, pc: LoopPc, pc': LoopPc)
    requires n < |s.nodes| && v < |s.nodes| && n != v && s.nodes[v].queue != []
    ensures Took(WithLoop(s, n, pc), n, v, pc') == Took(s, n, v, pc')
  {
    assert Took(WithLoop(s, n, pc), n, v, pc').nodes == Took(s, n, v, pc').nodes;
  }

  lemma AheadPositive(c: Config, k: NodeId, v: NodeId)
    requires k < c.nodes && v < c.nodes
    ensures 0 < Ahead(c, k, v) <= c.nodes
  {
  }

  /** An idle node that runs alone finds the first queue in the circle that is not empty
      and takes its oldest task. */
  lemma FindsWork(c: Config, s: State, n: NodeId, k: NodeId, v: NodeId) returns (steps: nat)
    requires AtLoop(c, s, n, TestStop(k, 0)) && !s.nodes[n].stop && k < c.nodes && v < c.nodes
    requires FirstWork(c, s, n, k, v)
    ensures steps <= 2 * c.nodes && Solo(c, s, n, steps) == Took(s, n, v, Withdraw(v))
  {
    AheadPositive(c, k, v);
    steps := SearchFinds(c, s, n, k, 0, v);
  }

  ghost predicate NoWork(s: State, n: NodeId) {
    forall m: NodeId :: m < |s.nodes| && m != n ==> s.nodes[m].queue == []
  }

  lemma {:induction false} SearchFails(c: Config, s: State, n: NodeId, k: NodeId, runs: nat) returns (k': NodeId)
    requires AtLoop(c, s, n, TestStop(k, runs)) && !s.nodes[n].stop && k < c.nodes && runs < c.nodes && NoWork(s, n)
    ensures k' < c.nodes && k' != n && Solo(c, s, n, 2 * (c.nodes - runs)) == WithLoop(s, n, Wait(k'))
    decreases c.nodes - runs
  {
    hide NextVictim, Solo;
    SchedulerProtocol.NextVictimOk(c, n, k);
    k' := NextVictim(c, n, k);
    EmptyRound(c, s, n, k, runs);
    if runs + 1 < c.nodes {
      var s1 := WithLoop(s, n, TestStop(k', runs + 1));
      var k1 := SearchFails(c, s1, n, k', runs + 1);
      SoloAdd(c, s, n, 2, 2 * (c.nodes - runs - 1));
      PutTwice(s, n, s1.nodes[n], s.nodes[n].(stack := [Loop(Wait(k1))]));
      k' := k1;
    }
  }

  /** With no work anywhere it goes to sleep, after as many rounds as there are nodes;
      a pulse that is already there is used up instead. */
  lemma IdleSleeps(c: Config, s: State, n: NodeId, k: NodeId) returns (k': NodeId)
    requires AtLoop(c, s, n, TestStop(k, 0)) && !s.nodes[n].stop && k < c.nodes && NoWork(s, n)
    ensures Solo(c, s, n, 2 * c.nodes + 1)
         == s.Put(n, if s.nodes[n].pulsed then s.nodes[n].(pulsed := false, asleep := false, stack := [Loop(Reload)])
                     else s.nodes[n].(asleep := true, stack := [Loop(Blocked(k'))]))
  {
    k' := SearchFails(c, s, n, k, 0);
    hide Solo;
    SoloAdd(c, s, n, 2 * c.nodes, 1);
    Sleeps(c, WithLoop(s, n, Wait(k')), n, k');
    var node := s.nodes[n];
    PutTwice(s, n, node.(stack := [Loop(Wait(k'))]), node.(asleep := true, stack := [Loop(Blocked(k'))]));
    PutTwice(s, n, node.(stack := [Loop(Wait(k'))]),
             node.(pulsed := false, asleep := false, stack := [Loop(Reload)]));
  }

  lemma Sleeps(c: Config, s: State, n: NodeId, k: NodeId)
    requires AtLoop(c, s, n, Wait(k))
    ensures Solo(c, s, n, 1)
         == s.Put(n, if s.nodes[n].pulsed then s.nodes[n].(pulsed := false, asleep := false, stack := [Loop(Reload)])
                     else s.nodes[n].(asleep := true, stack := [Loop(Blocked(k))]))
  {
    var node := s.nodes[n];
    OneStep(c, s, n, Wait(k), if node.pulsed then node.(pulsed := false, asleep := false) else node.(asleep := true),
            if node.pulsed then Reload else Blocked(k));
    hide Solo;
  }

  // ---- around a task ----

  lemma StealOne(c: Config, s: State, n: NodeId, pc: LoopPc)
    requires AtLoop(c, s, n, pc) && (pc.StealOnce? || pc.StealOther?)
    requires Victim(pc) < c.nodes && Victim(pc) != n
    ensures var v := Victim(pc);
      Solo(c, s, n, 1) == if s.nodes[v].queue != [] then Took(s, n, v, Deplete(v))
                          else WithLoop(s, n, Deplete(if pc.StealOther? then pc.steal else v))
  {
    var v := Victim(pc);
    if s.nodes[v].queue != [] {
      StealMoves(c, s, n, pc);
      hide MovesTo;
      FirstStep(c, s, n, Took(s, n, v, Deplete(v)), 0);
    } else {
      OneStep(c, s, n, pc, s.nodes[n], Deplete(if pc.StealOther? then pc.steal else v));
      hide Solo;
    }
  }

  /** A node that has been woken uses up the pulse and steals once from the node it was
      told to; without a pulse it blocks again. */
  lemma WokenSteals(c: Config, s: State, n: NodeId, k: NodeId)
    requires AtLoop(c, s, n, Woken(k)) && s.nodes[n].stealFrom < c.nodes && s.nodes[n].stealFrom != n
    ensures !s.nodes[n].pulsed ==> Solo(c, s, n, 1) == WithLoop(s, n, Blocked(k))
    ensures var f, s1 := s.nodes[n].stealFrom, s.Put(n, s.nodes[n].(pulsed := false, asleep := false));
      s.nodes[n].pulsed ==>
        Solo(c, s, n, 3) == if s.nodes[f].queue != [] then Took(s1, n, f, Deplete(f)) else WithLoop(s1, n, Deplete(f))
  {
    hide Solo;
    var node, f := s.nodes[n], s.nodes[n].stealFrom;
    if !node.pulsed {
      OneStep(c, s, n, Woken(k), node, Blocked(k));
    } else {
      var node1 := node.(pulsed := false, asleep := false);
      OneStep(c, s, n, Woken(k), node1, Reload);
      var s2 := s.Put(n, node1.(stack := [Loop(Reload)]));
      ReloadSteals(c, s2, n);
      SoloAdd(c, s, n, 1, 2);
      var s1 := s.Put(n, node1);
      PutTwice(s, n, node1, node1.(stack := [Loop(Reload)]));
      if s.nodes[f].queue != [] {
        TookSame(s1, n, f, Reload, Deplete(f));
      } else {
        PutTwice(s1, n, s2.nodes[n], node1.(stack := [Loop(Deplete(f))]));
      }
    }
  }

  lemma ReloadSteals(c: Config, s: State, n: NodeId)
    requires AtLoop(c, s, n, Reload) && s.nodes[n].stealFrom < c.nodes && s.nodes[n].stealFrom != n
    ensures var f := s.nodes[n].stealFrom;
      Solo(c, s, n, 2) == if s.nodes[f].queue != [] then Took(s, n, f, Deplete(f)) else WithLoop(s, n, Deplete(f))
  {
    hide Solo;
    var f := s.nodes[n].stealFrom;
    OneStep(c, s, n, Reload, s.nodes[n], StealOnce(f));
    StealOne(c, WithLoop(s, n, StealOnce(f)), n, StealOnce(f));
    SoloAdd(c, s, n, 1, 1);
    if s.nodes[f].queue != [] {
      TookSame(s, n, f, StealOnce(f), Deplete(f));
    } else {
      PutTwice(s, n, WithLoop(s, n, StealOnce(f)).nodes[n], s.nodes[n].(stack := [Loop(Deplete(f))]));
    }
  }

  /** After a stolen task: a node that is still available stops being so. Otherwise work
      has been delegated to it meanwhile, and it steals from the node that did so, unless
      it has just stolen there. */
  lemma AfterStolenTask(c: Config, s: State, n: NodeId, k: NodeId) returns (steps: nat)
    requires AtLoop(c, s, n, Withdraw(k)) && s.nodes[n].stealFrom < c.nodes && s.nodes[n].stealFrom != n
    ensures steps <= 3
    ensures var f := s.nodes[n].stealFrom;
      Solo(c, s, n, steps)
      == if s.nodes[n].available then s.Put(n, s.nodes[n].(available := false, stack := [Loop(Deplete(k))]))
         else if f != k && s.nodes[f].queue != [] then Took(s, n, f, Deplete(f))
         else WithLoop(s, n, Deplete(k))
  {
    hide Solo;
    var node := s.nodes[n];
    OneStep(c, s, n, Withdraw(k), node.(available := false), if node.available then Deplete(k) else Reread(k));
    steps := 1;
    if !node.available {
      assert node == node.(available := false);
      var s1 := WithLoop(s, n, Reread(k));
      steps := RereadSteals(c, s1, n, k);
      SoloAdd(c, s, n, 1, steps);
      PutTwice(s, n, s1.nodes[n], node.(stack := [Loop(Deplete(k))]));
      if s.nodes[node.stealFrom].queue != [] {
        TookSame(s, n, node.stealFrom, Reread(k), Deplete(node.stealFrom));
      }
      hide Took;
      steps := 1 + steps;
    }
  }

  lemma RereadSteals(c: Config, s: State, n: NodeId, k: NodeId) returns (steps: nat)
    requires AtLoop(c, s, n, Reread(k)) && s.nodes[n].stealFrom < c.nodes && s.nodes[n].stealFrom != n
    ensures steps <= 2
    ensures var f := s.nodes[n].stealFrom;
      Solo(c, s, n, steps) == if f != k && s.nodes[f].queue != [] then Took(s, n, f, Deplete(f))
                              else WithLoop(s, n, Deplete(k))
  {
    hide Solo;
    var node, f := s.nodes[n], s.nodes[n].stealFrom;
    OneStep(c, s, n, Reread(k), node, if f != k then StealOther(k, f) else Deplete(k));
    steps := 1;
    if f != k {
      var s1 := WithLoop(s, n, StealOther(k, f));
      StealOne(c, s1, n, StealOther(k, f));
      SoloAdd(c, s, n, 1, 1);
      PutTwice(s, n, s1.nodes[n], node.(stack := [Loop(Deplete(k))]));
      if s.nodes[f].queue != [] {
        TookSame(s, n, f, StealOther(k, f), Deplete(f));
      }
      steps := 2;
    }
  }

  /** Between tasks a node runs its own youngest one; with none left it makes itself
      available and starts to search, where it leaves if it has been told to stop. */
  lemma BetweenTasks(c: Config, s: State, n: NodeId, k: NodeId)
    requires AtLoop(c, s, n, Deplete(k))
    ensures var node := s.nodes[n];
      if node.queue != [] then
        Solo(c, s, n, 1) == s.Put(n, node.(queue := node.queue[..|node.queue| - 1],
                                           stack := [Loop(Deplete(k)), Executing(node.queue[|node.queue| - 1], false)]))
      else
        && Solo(c, s, n, 2) == s.Put(n, node.(available := true, stack := [Loop(TestStop(k, 0))]))
        && (node.stop ==> Solo(c, s, n, 3) == s.Put(n, node.(available := true, stack := [Loop(Exited)])))
  {
    hide Solo;
    if s.nodes[n].queue != [] {
      RunsOwn(c, s, n, k);
    } else {
      Announces(c, s, n, k);
      if s.nodes[n].stop {
        LeavesLoop(c, s, n, k);
      }
    }
  }

  lemma Announces(c: Config, s: State, n: NodeId, k: NodeId)
    requires AtLoop(c, s, n, Deplete(k)) && s.nodes[n].queue == []
    ensures Solo(c, s, n, 2) == s.Put(n, s.nodes[n].(available := true, stack := [Loop(TestStop(k, 0))]))
  {
    hide Solo;
    OneStep(c, s, n, Deplete(k), s.nodes[n], Announce(k));
    var s1 := WithLoop(s, n, Announce(k));
    OneStep(c, s1, n, Announce(k), s1.nodes[n].(available := true), TestStop(k, 0));
    SoloAdd(c, s, n, 1, 1);
    PutTwice(s, n, s1.nodes[n], s.nodes[n].(available := true, stack := [Loop(TestStop(k, 0))]));
  }

  lemma LeavesLoop(c: Config, s: State, n: NodeId, k: NodeId)
    requires AtLoop(c, s, n, Deplete(k)) && s.nodes[n].queue == [] && s.nodes[n].stop
    ensures Solo(c, s, n, 3) == s.Put(n, s.nodes[n].(available := true, stack := [Loop(Exited)]))
  {
    hide Solo;
    Announces(c, s, n, k);
    var node2 := s.nodes[n].(available := true, stack := [Loop(TestStop(k, 0))]);
    OneStep(c, s.Put(n, node2), n, TestStop(k, 0), node2, Exited);
    SoloAdd(c, s, n, 2, 1);
    PutTwice(s, n, node2, s.nodes[n].(available := true, stack := [Loop(Exited)]));
  }

  lemma RunsOwn(c: Config, s: State, n: NodeId, k: NodeId)
    requires AtLoop(c, s, n, Deplete(k)) && s.nodes[n].queue != []
    ensures var node := s.nodes[n];
      Solo(c, s, n, 1) == s.Put(n, node.(queue := node.queue[..|node.queue| - 1],
                                         stack := [Loop(Deplete(k)), Executing(node.queue[|node.queue| - 1], false)]))
  {
    var node := s.nodes[n];
    var node' := node.(queue := node.queue[..|node.queue| - 1],
                       stack := [Loop(Deplete(k)), Executing(node.queue[|node.queue| - 1], false)]);
    assert TakeBack(node) == node';
    hide CreateStep, CreateEnabled, StopStep, StopEnabled;
    assert MovesTo(c, s, n, s.Put(n, node'));
    hide MovesTo;
    FirstStep(c, s, n, s.Put(n, node'), 0);
  }

  /** At the start each node is about to enter its loop, node 0 below the creation of the
      root task, and would steal from the next node of the circle. */
  lemma NodesBegin(c: Config, n: NodeId)
    requires c.nodes >= 2 && n < c.nodes
    ensures var node := Init(c).nodes[n];
      && |Init(c).nodes| == c.nodes && Init(c).tasks == map[] && node.queue == []
      && node.stack[0] == Loop(Begin) && |node.stack| == (if n == 0 then 2 else 1)
      && node.stealFrom < c.nodes && Distance(c, n, node.stealFrom) == 1
      && !node.stop && !node.available && !node.pulsed && !node.asleep
  {
    Wrap(n + 1, c.nodes);
  }

  /** The loop starts with the node's own queue, and would steal where `attach` said. */
  lemma LoopBegins(c: Config, s: State, n: NodeId)
    requires AtLoop(c, s, n, Begin)
    ensures Solo(c, s, n, 1) == WithLoop(s, n, Deplete(s.nodes[n].stealFrom))
  {
    OneStep(c, s, n, Begin, s.nodes[n], Deplete(s.nodes[n].stealFrom));
  }

  // ---- a delegation from end to end ----

  /** When a call of `new_task` on node n has handed over to a sleeping node, that node
      needs three steps to be about to run the oldest task of node n. */
  lemma DelegationReaches(
    c: Config, s: State, s': State, n: NodeId, below: seq<Frame>, j: NodeId, k: NodeId)
    requires c.nodes >= 2 && HandedOver(c, s, s', n, 1, below) && j < c.nodes && FirstAvailable(c, s, n, 1, j)
    requires s.nodes[n].queue != [] && s.nodes[j].stack == [Loop(Blocked(k))] && s.nodes[j].asleep
    ensures Solo(c, s', j, 3)
         == Took(s'.Put(j, s'.nodes[j].(pulsed := false)), j, n, Deplete(n))
    ensures Solo(c, s', j, 3).nodes[j].Top() == Executing(s.nodes[n].queue[0], false)
  {
    assert Delegated(s.nodes[j], s'.nodes[j], n);
    assert s'.nodes[j].stack == [Loop(Woken(k))];
    hide HandedOver, FirstAvailable, Delegated, Solo;
    WokenSteals(c, s', j, k);
    assert s'.nodes[j].(pulsed := false, asleep := false) == s'.nodes[j].(pulsed := false);
  }
}
