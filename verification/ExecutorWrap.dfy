/** A run in which the stamps wrap, and a worker takes the later of two ready tasks. */
module ExecutorWrap {
  import opened Executor
  import opened ExecutorSafety
  import opened ExecutorRuns
  import opened ExecutorFailures
  import opened ExecutorStamps

  /** Nothing is registered and nothing is going on. */
  ghost predicate Idle(s: State) {
    s.tasks == map[] && s.dependents == map[] && s.jobs == map[] && s.queues == Init().queues
  }

  /** State s after a task without dependencies has been added and run to its end. */
  function Cycled(s: State): State {
    s.(nextStamp := (s.nextStamp + 1) % WORD16, born := s.born + 1,
       log := s.log + [Started(s.born), Ended(s.born)])
  }

  function Ending(s: State, w: WorkerId): State {
    var s1 := Taken(s, w);
    s1.(jobs := s1.jobs[w := Returned(Ready(s))], log := s1.log + [Ended(s.born)])
  }

  lemma CycleSteps(s: State)
    requires Idle(s)
    ensures Leads(s, Add(1, NO_AFFINITY, [], []), Queued(s, 1))
    ensures Leads(Queued(s, 1), Pop(0, GLOBAL), Taken(s, 0))
    ensures Leads(Taken(s, 0), Finish(0), Ending(s, 0))
    ensures Leads(Ending(s, 0), Signal(0), Cycled(s))
  {
    assert |s.queues| == MAX_THREADS + 1 && s.queues[GLOBAL] == TaskList(INVALID_TASK, INVALID_TASK);
    AddIsQueued(s, 1, [], []);
    PopIsTaken(s, 1, 0);
    hide AddTask, Queued, PopTask;
    EndIsCycled(s);
  }

  lemma EndIsCycled(s: State)
    requires Idle(s) && |s.queues| == MAX_THREADS + 1
    ensures Leads(Taken(s, 0), Finish(0), Ending(s, 0)) && Leads(Ending(s, 0), Signal(0), Cycled(s))
  {
    var s2 := Ending(s, 0);
    assert s2.jobs - {0} == s.jobs;
    assert s2.log == Cycled(s).log;
  }

  lemma Extend(states: seq<State>, acts: seq<Action>, a: Action, s': State)
    requires IsRun(states, acts) && Leads(states[|acts|], a, s')
    ensures IsRun(states + [s'], acts + [a])
  {
    var states', acts' := states + [s'], acts + [a];
    hide Leads;
    forall k | 0 <= k < |acts'|
      ensures Leads(states'[k], acts'[k], states'[k + 1])
    {
      if k < |acts| {
        assert Leads(states[k], acts[k], states[k + 1]);
      }
    }
  }

  /** For every n a run in which n tasks are added and run, one after the other. */
  lemma {:induction false} Cycles(n: nat) returns (states: seq<State>, acts: seq<Action>)
    ensures IsRun(states, acts) && |acts| < |states| && Idle(states[|acts|])
    ensures states[|acts|].born == n && states[|acts|].nextStamp == n % WORD16
    decreases n
  {
    hide IsRun, Leads, Queued, Taken, Ending;
    if n == 0 {
      states, acts := [Init()], [];
      NoSteps();
    } else {
      states, acts := Cycles(n - 1);
      NextStamp(n);
      states, acts := OneMore(states, acts);
    }
  }

  lemma NextStamp(n: nat)
    requires n > 0
    ensures ((n - 1) % WORD16 + 1) % WORD16 == n % WORD16
  {
  }

  lemma OneMore(states: seq<State>, acts: seq<Action>) returns (states': seq<State>, acts': seq<Action>)
    requires IsRun(states, acts) && |acts| < |states| && Idle(states[|acts|])
    ensures IsRun(states', acts') && |acts'| < |states'| && Idle(states'[|acts'|])
    ensures states'[|acts'|].born == states[|acts|].born + 1
    ensures states'[|acts'|].nextStamp == (states[|acts|].nextStamp + 1) % WORD16
  {
    hide IsRun, Leads, Queued, Taken, Ending, Idle;
    RunLength(states, acts);
    var s := states[|acts|];
    CycleSteps(s);
    CycledIdle(s);
    states', acts' := ExtendBy(states, acts, Add(1, NO_AFFINITY, [], []), Queued(s, 1));
    states', acts' := ExtendBy(states', acts', Pop(0, GLOBAL), Taken(s, 0));
    states', acts' := ExtendBy(states', acts', Finish(0), Ending(s, 0));
    states', acts' := ExtendBy(states', acts', Signal(0), Cycled(s));
  }

  lemma CycledIdle(s: State)
    requires Idle(s)
    ensures Idle(Cycled(s)) && |s.queues| == MAX_THREADS + 1
  {
  }

  lemma NoSteps()
    ensures IsRun([Init()], []) && Idle(Init())
  {
  }

  lemma RunLength(states: seq<State>, acts: seq<Action>)
    requires IsRun(states, acts)
    ensures |states| == |acts| + 1
  {
  }

  lemma ExtendBy(states: seq<State>, acts: seq<Action>, a: Action, s': State)
    returns (states': seq<State>, acts': seq<Action>)
    requires IsRun(states, acts) && |states| == |acts| + 1 && Leads(states[|acts|], a, s')
    ensures IsRun(states', acts') && |states'| == |acts'| + 1 && states'[|acts'|] == s'
    ensures |acts'| == |acts| + 1 && states'[|acts|] == states[|acts|]
  {
    Extend(states, acts, a, s');
    states', acts' := states + [s'], acts + [a];
    hide IsRun, Leads;
  }

  /** A task without dependencies is added for the worker with affinity 0. */
  lemma AddAffine(s: State, id: TaskId)
    requires Idle(s) && id != INVALID_TASK
    ensures var s' := Next(s, Add(id, 0, [], []));
      && Leads(s, Add(id, 0, [], []), s')
      && s' == s.(tasks := map[id := Ready(s).(affinity := 0)], queues := s.queues[0 := TaskList(id, id)],
                  nextStamp := (s.nextStamp + 1) % WORD16, born := s.born + 1)
  {
    assert s.queues[0] == TaskList(INVALID_TASK, INVALID_TASK);
    var s1 := Insert(s, id, 0);
    assert Schedule(s1, id).tasks == map[id := Ready(s).(affinity := 0)];
  }

  lemma AddGlobal(s: State, id: TaskId)
    requires |s.queues| == MAX_THREADS + 1 && s.queues[GLOBAL] == TaskList(INVALID_TASK, INVALID_TASK)
    requires id !in s.tasks && id != INVALID_TASK && s.dependents == map[]
    ensures Leads(s, Add(id, NO_AFFINITY, [], []), Queued(s, id))
  {
    AddIsQueued(s, id, [], []);
    hide Queued, AddTask;
  }

  /** Task 1 with affinity 0 is ready when task 2 without affinity is added; but it has
      the last stamp before the wrap, and the worker with affinity 0 takes task 2. */
  lemma LaterIsTaken() returns (states: seq<State>, acts: seq<Action>, k: nat)
    ensures IsRun(states, acts) && 0 < k == |acts|
    ensures EarlierFront(states[k - 1], states[k], 0, 0, GLOBAL)
    ensures Choosable(states[k], 0) && ChooseQueue(states[k], 0) == GLOBAL
  {
    hide IsRun, Leads;
    states, acts := Cycles(WORD16 - 1);
    RunLength(states, acts);
    var s := states[|acts|];
    assert s.nextStamp == WORD16 - 1;
    assert s.queues[GLOBAL] == TaskList(INVALID_TASK, INVALID_TASK);
    AddAffine(s, 1);
    var s1 := Next(s, Add(1, 0, [], []));
    AddGlobal(s1, 2);
    var s2 := Queued(s1, 2);
    states, acts := ExtendBy(states, acts, Add(1, 0, [], []), s1);
    states, acts := ExtendBy(states, acts, Add(2, NO_AFFINITY, [], []), s2);
    k := |acts|;
    WrappedFronts(s, s1, s2);
  }

  lemma WrappedFronts(s: State, s1: State, s2: State)
    requires Idle(s) && s.nextStamp == WORD16 - 1 && |s.queues| == MAX_THREADS + 1
    requires s1 == s.(tasks := map[1 := Ready(s).(affinity := 0)], queues := s.queues[0 := TaskList(1, 1)],
                      nextStamp := 0, born := s.born + 1)
    requires s2 == Queued(s1, 2)
    ensures EarlierFront(s1, s2, 0, 0, GLOBAL)
    ensures Choosable(s2, 0) && ChooseQueue(s2, 0) == GLOBAL
  {
    assert IsReady(s1, {}, 1) && s1.tasks[1].serial == s.born;
    assert s2.tasks[1].stamp == WORD16 - 1 && s2.tasks[2].stamp == 0;
    assert s2.tasks[2].serial == s.born + 1;
  }
}
