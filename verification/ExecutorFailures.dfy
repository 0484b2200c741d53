/** A dependency on a task that is being run is not recorded, and the dependent does not
    wait for it. */
module ExecutorFailures {
  import opened Executor
  import opened ExecutorSafety
  import opened ExecutorRuns

  /** Ids that are not registered leave no trace. */
  lemma {:induction false} LinkNone(s: State, id: TaskId, dependsOn: seq<TaskId>, records: seq<DependentId>, k: nat)
    requires id in s.tasks && k <= |dependsOn| == |records|
    requires forall j :: 0 <= j < k ==> dependsOn[j] !in s.tasks
    ensures LinkFirst(s, id, dependsOn, records, k) == s
  {
    if k > 0 {
      LinkNone(s, id, dependsOn, records, k - 1);
    }
  }

  /** The task as it stands in the queue. */
  function Ready(s: State): Task {
    Task(INVALID_TASK, INVALID_DEPENDENT, 0, NO_AFFINITY, s.nextStamp, s.born)
  }

  function Queued(s: State, id: TaskId): State
    requires |s.queues| == MAX_THREADS + 1
  {
    s.(tasks := s.tasks[id := Ready(s)], queues := s.queues[GLOBAL := TaskList(id, id)],
       nextStamp := (s.nextStamp + 1) % WORD16, born := s.born + 1)
  }

  lemma AddIsQueued(s: State, id: TaskId, dependsOn: seq<TaskId>, records: seq<DependentId>)
    requires |s.queues| == MAX_THREADS + 1 && CanAdd(s, id, NO_AFFINITY, dependsOn, records)
    requires s.queues[GLOBAL] == TaskList(INVALID_TASK, INVALID_TASK)
    requires forall j :: 0 <= j < |dependsOn| ==> dependsOn[j] !in s.tasks
    ensures Enabled(s, Add(id, NO_AFFINITY, dependsOn, records))
    ensures Next(s, Add(id, NO_AFFINITY, dependsOn, records)) == Queued(s, id)
  {
    var s1 := Insert(s, id, NO_AFFINITY);
    LinkNone(s1, id, dependsOn, records, |dependsOn|);
    assert Schedule(s1, id).tasks == s.tasks[id := Ready(s)];
    assert Schedule(s1, id).queues == s.queues[GLOBAL := TaskList(id, id)];
  }

  function Taken(s: State, w: WorkerId): State {
    s.(nextStamp := (s.nextStamp + 1) % WORD16, born := s.born + 1,
       jobs := s.jobs[w := Running(Ready(s))], log := s.log + [Started(s.born)])
  }

  lemma PopIsTaken(s: State, id: TaskId, w: WorkerId)
    requires |s.queues| == MAX_THREADS + 1 && id !in s.tasks && id != INVALID_TASK && w !in s.jobs
    requires s.queues[GLOBAL] == TaskList(INVALID_TASK, INVALID_TASK)
    ensures Enabled(Queued(s, id), Pop(w, GLOBAL)) && Next(Queued(s, id), Pop(w, GLOBAL)) == Taken(s, w)
  {
    var s' := PopTask(Queued(s, id), w, GLOBAL);
    assert s'.tasks == s.tasks;
    assert s'.queues == s.queues;
  }

  /** The actions of the run: task 1 is added and popped; then task 2 is added, which
      names task 1 as its dependency, and popped by another worker. */
  function Acts(): seq<Action> {
    [Add(1, NO_AFFINITY, [], []), Pop(0, GLOBAL), Add(2, NO_AFFINITY, [1], [0]), Pop(1, GLOBAL)]
  }

  function States(): seq<State> {
    var s2 := Taken(Init(), 0);
    [Init(), Queued(Init(), 1), s2, Queued(s2, 2), Taken(s2, 1)]
  }

  lemma Steps()
    ensures var s0, s2 := Init(), Taken(Init(), 0);
      && Leads(s0, Add(1, NO_AFFINITY, [], []), Queued(s0, 1)) && Leads(Queued(s0, 1), Pop(0, GLOBAL), s2)
      && Leads(s2, Add(2, NO_AFFINITY, [1], [0]), Queued(s2, 2)) && Leads(Queued(s2, 2), Pop(1, GLOBAL), Taken(s2, 1))
  {
    var s0, s2 := Init(), Taken(Init(), 0);
    AddIsQueued(s0, 1, [], []);
    PopIsTaken(s0, 1, 0);
    AddIsQueued(s2, 2, [1], [0]);
    PopIsTaken(s2, 2, 1);
    hide Next, Enabled, Queued, Taken;
  }

  /** A run in which the closure of a task starts although the closure of the task it was
      added to depend on is still running. */
  lemma RunningDependencyIsMissed()
    ensures IsRun(States(), Acts())
    ensures Acts()[0].id in Acts()[2].dependsOn
    ensures var s := States()[4];
      && s.jobs.Keys == {0, 1} && s.jobs[0].Running? && s.jobs[0].task.serial == 0
      && s.log == [Started(0), Started(1)] && s.edges == {}
  {
    Steps();
    hide Leads, Queued;
  }
}
