/** The executor as the object the program has: its fields change in place, inside
    the critical sections. */
module ExecutorClass {
  import opened Executor
  import opened ExecutorSafety
  import opened ExecutorTheorems
  import opened ExecutorRuns
  import opened ExecutorAffinity

  class TaskExecutor {
    var tasks: map<TaskId, Task>
    var dependents: map<DependentId, Dependent>
    var queues: seq<TaskList>
    var nextStamp: nat
    var jobs: map<WorkerId, Job>
    var closed: bool
    var born: nat
    ghost var log: seq<Event>
    ghost var edges: set<(nat, nat)>

    ghost function View(): State
      reads this
    {
      State(tasks, dependents, queues, nextStamp, jobs, born, log, edges)
    }

    ghost predicate Valid()
      reads this
    {
      Inv(View()) && History(View())
    }

    constructor ()
      ensures Valid() && View() == Init() && !closed
    {
      tasks, dependents, jobs := map[], map[], map[];
      queues := seq(MAX_THREADS + 1, _ => TaskList(INVALID_TASK, INVALID_TASK));
      nextStamp, closed := 0, false;
      born, log, edges := 0, [], {};
      new;
      hide Inv, History;
      assert queues == Init().queues;
      assert View() == Init();
      InitHistory();
    }

    /** Moves a task whose counter has reached zero to the front of its queue. */
    method Schedule(id: TaskId)
      requires id in tasks && QueueOf(tasks[id].affinity) < |queues|
      modifies this`tasks, this`queues, this`nextStamp
      ensures View() == Executor.Schedule(old(View()), id)
    {
      tasks := tasks[id := tasks[id].(stamp := nextStamp)];
      nextStamp := (nextStamp + 1) % WORD16;
      var q := if tasks[id].affinity == NO_AFFINITY then GLOBAL else tasks[id].affinity;
      PushTask(id, q);
    }

    method PushTask(id: TaskId, q: nat)
      requires id in tasks && q < |queues|
      modifies this`tasks, this`queues
      ensures View() == Executor.PushTask(old(View()), id, q)
    {
      tasks := tasks[id := tasks[id].(nextInList := queues[q].front)];
      queues := queues[q := queues[q].(front := id)];
      if queues[q].back == INVALID_TASK {
        queues := queues[q := queues[q].(back := id)];
      }
    }

    /** Makes task `id` wait for a registered task. */
    method LinkDependency(id: TaskId, dependencyId: TaskId, recordId: DependentId)
      requires id in tasks && dependencyId in tasks
      modifies this`tasks, this`dependents, this`edges
      ensures View() == Link(old(View()), id, dependencyId, recordId)
    {
      var dependency := tasks[dependencyId];
      dependents := dependents[recordId := Dependent(id, dependency.firstDependent, dependency.serial)];
      tasks := tasks[dependencyId := dependency.(firstDependent := recordId)];
      edges := edges + {(dependency.serial, tasks[id].serial)};
      tasks := tasks[id := tasks[id].(unmet := (tasks[id].unmet + 1) % WORD16)];
    }

    method LinkDependencies(id: TaskId, dependsOn: seq<TaskId>, recordIds: seq<DependentId>)
      requires id in tasks && |recordIds| == |dependsOn|
      modifies this`tasks, this`dependents, this`edges
      ensures View() == LinkFirst(old(View()), id, dependsOn, recordIds, |dependsOn|)
    {
      ghost var before := View();
      var i := 0;
      while i < |dependsOn|
        invariant 0 <= i <= |dependsOn|
        invariant View() == LinkFirst(before, id, dependsOn, recordIds, i)
      {
        if dependsOn[i] in tasks {
          LinkDependency(id, dependsOn[i], recordIds[i]);
        }
        i := i + 1;
      }
    }

    /** Adds a task behind those of its dependencies that are still registered. A closed
        executor adds nothing. */
    method AddTask(dependsOn: seq<TaskId>, affinity: nat, taskId: TaskId, recordIds: seq<DependentId>)
      returns (id: TaskId)
      requires Valid()
      requires CanAdd(View(), taskId, affinity, dependsOn, recordIds)
      modifies this
      ensures Valid() && closed == old(closed)
      ensures old(closed) ==> id == INVALID_TASK && View() == old(View())
      ensures !old(closed) ==>
                && |old(queues)| == MAX_THREADS + 1
                && id == taskId && View() == Executor.AddTask(old(View()), id, affinity, dependsOn, recordIds)
      ensures !old(closed) ==> id in tasks && tasks[id].affinity == affinity && tasks[id].serial == old(born)
    {
      hide Inv, History;
      ghost var before := View();
      QueueCount(before);
      if closed {
        return INVALID_TASK;
      }
      id := taskId;
      tasks := tasks[id := Task(INVALID_TASK, INVALID_DEPENDENT, 0, affinity, 0, born)];
      born := born + 1;
      assert View() == Insert(before, id, affinity);
      LinkDependencies(id, dependsOn, recordIds);
      if tasks[id].unmet == 0 {
        Schedule(id);
      }
      assert View() == Executor.AddTask(before, id, affinity, dependsOn, recordIds);
      AddedTask(before, id, affinity, dependsOn, recordIds);
      NextInv(before, Add(id, affinity, dependsOn, recordIds));
      NextHistory(before, Add(id, affinity, dependsOn, recordIds));
    }

    /** Takes the front task of a queue for worker w. */
    method PopTask(w: WorkerId, q: nat)
      requires Valid() && w !in jobs && q < |queues| && queues[q].front != INVALID_TASK
      modifies this
      ensures Valid() && closed == old(closed)
      ensures CanPop(old(View()), w, q) && View() == Executor.PopTask(old(View()), w, q)
    {
      hide Inv, History;
      ghost var before := View();
      FrontIsTask(before, q);
      var id := queues[q].front;
      var task := tasks[id];
      queues := queues[q := queues[q].(front := task.nextInList)];
      if queues[q].front == INVALID_TASK {
        queues := queues[q := queues[q].(back := INVALID_TASK)];
      }
      tasks := tasks - {id};
      jobs := jobs[w := Running(task)];
      log := log + [Started(task.serial)];
      assert View() == Executor.PopTask(before, w, q);
      NextInvPop(before, w, q);
      PopHistory(before, w, q);
    }

    /** The closure of w's task returns. */
    method FinishClosure(w: WorkerId)
      requires Valid() && w in jobs && jobs[w].Running?
      modifies this
      ensures Valid() && closed == old(closed)
      ensures View() == Executor.Return(old(View()), w)
    {
      hide Inv, History;
      ghost var before := View();
      jobs := jobs[w := Returned(jobs[w].task)];
      log := log + [Ended(jobs[w].task.serial)];
      NextInvReturn(before, w);
      ReturnHistory(before, w);
    }

    /** Releases the first dependent of w's task. */
    method SignalFirst(w: WorkerId)
      requires CanSignal(View(), w)
      modifies this`tasks, this`dependents, this`jobs, this`queues, this`nextStamp
      ensures View() == SignalOne(old(View()), w)
    {
      ghost var before := View();
      var dependentId := jobs[w].task.firstDependent;
      var dependent := dependents[dependentId];
      tasks := tasks[dependent.from := tasks[dependent.from].(unmet := (tasks[dependent.from].unmet - 1) % WORD16)];
      dependents := dependents - {dependentId};
      jobs := jobs[w := Returned(jobs[w].task.(firstDependent := dependent.next))];
      assert View() == Decrement(before, w);
      if tasks[dependent.from].unmet == 0 {
        Schedule(dependent.from);
      }
    }

    /** Walks the dependents of w's task, decrements their counters, schedules those
        that reach zero and erases the records. */
    method SignalDependents(w: WorkerId)
      requires Valid() && w in jobs && jobs[w].Returned?
      modifies this
      ensures Valid() && closed == old(closed)
      ensures View() == Executor.SignalDependents(old(View()), w)
    {
      hide Inv, History;
      ghost var before := View();
      SignalStep(View(), w);
      while jobs[w].task.firstDependent != INVALID_DEPENDENT
        invariant Inv(View()) && w in jobs && jobs[w].Returned? && closed == old(closed)
        invariant jobs[w].task.firstDependent != INVALID_DEPENDENT ==> CanSignal(View(), w)
        invariant Executor.SignalDependents(View(), w) == Executor.SignalDependents(before, w)
        decreases |dependents|
      {
        SignalStep(View(), w);
        ghost var state := View();
        SignalFirst(w);
        assert View() == SignalOne(state, w);
        SignalStep(View(), w);
      }
      jobs := jobs - {w};
      SignalInv(before, w);
      SignalHistory(before, w);
    }

    /** What a worker with this affinity does next, if its queues are not both empty. */
    method RunOneWithAffinity(w: WorkerId, affinity: nat) returns (ran: bool)
      requires Valid() && w !in jobs && affinity < MAX_THREADS
      modifies this
      ensures Valid() && closed == old(closed) && w !in jobs
      ensures |old(queues)| == MAX_THREADS + 1
      ensures ran <==> old(queues)[GLOBAL].front != INVALID_TASK || old(queues)[affinity].front != INVALID_TASK
      ensures !ran ==> View() == old(View())
      ensures ran ==> Choosable(old(View()), affinity)
                        && CanPop(old(View()), w, ChooseQueue(old(View()), affinity))
                        && View() == RunOne(old(View()), w, ChooseQueue(old(View()), affinity))
      ensures ran ==> exists n :: old(log) + [Started(n), Ended(n)] == log
    {
      hide Inv, History;
      QueueCount(View());
      var globalIsEmpty := queues[GLOBAL].front == INVALID_TASK;
      var affinityIsEmpty := queues[affinity].front == INVALID_TASK;
      if globalIsEmpty && affinityIsEmpty {
        return false;
      }
      FrontIsTask(View(), GLOBAL);
      FrontIsTask(View(), affinity);
      var q := GLOBAL;
      if !globalIsEmpty && !affinityIsEmpty {
        if !(tasks[queues[GLOBAL].front].stamp < tasks[queues[affinity].front].stamp) {
          q := affinity;
        }
      } else if globalIsEmpty {
        q := affinity;
      }
      assert q == ChooseQueue(View(), affinity);
      ghost var n := tasks[queues[q].front].serial;
      PopTask(w, q);
      FinishClosure(w);
      SignalKeepsLog(View(), w);
      SignalDependents(w);
      assert old(log) + [Started(n), Ended(n)] == log;
      return true;
    }

    /** One worker runs tasks without affinity until none is ready. */
    method DrainGlobal(w: WorkerId)
      requires Valid() && jobs == map[] && OnlyGlobal(View())
      modifies this
      ensures Valid() && closed == old(closed)
      ensures View() == Drain(old(View()), w)
      ensures tasks == map[] && dependents == map[] && jobs == map[]
      ensures forall n :: 0 <= n < old(born) ==> Started(n) in log && Ended(n) in log
      ensures LogOnce(log) && StartsAfter(log, old(edges))
    {
      hide Inv, History;
      ghost var before := View();
      GlobalFront(before, w);
      while queues[GLOBAL].front != INVALID_TASK
        invariant Valid() && jobs == map[] && OnlyGlobal(View()) && closed == old(closed)
        invariant Drain(View(), w) == Drain(before, w)
        invariant |queues| == MAX_THREADS + 1
        invariant CanPop(View(), w, GLOBAL) <==> queues[GLOBAL].front != INVALID_TASK
        decreases |tasks|
      {
        ghost var state := View();
        RunOneKeeps(state, w);
        PopTask(w, GLOBAL);
        FinishClosure(w);
        SignalDependents(w);
        assert View() == RunOne(state, w, GLOBAL);
        assert jobs.Keys == {};
        GlobalFront(View(), w);
      }
      DrainRunsEverything(before, w);
    }

    /** Stops the workers at their next look; what is queued or running stays. */
    method Close()
      requires Valid()
      modifies this`closed
      ensures Valid() && closed && View() == old(View())
    {
      closed := true;
    }
  }

  lemma QueueCount(s: State)
    requires Inv(s)
    ensures |s.queues| == MAX_THREADS + 1
  {
  }

  lemma FrontIsTask(s: State, q: nat)
    requires Inv(s) && q < |s.queues|
    ensures s.queues[q].front != INVALID_TASK ==> s.queues[q].front in s.tasks
  {
    var g :| InvWith(s, g, {});
    FrontOfQueue(s, g, q);
  }

  lemma GlobalFront(s: State, w: WorkerId)
    requires Inv(s) && w !in s.jobs
    ensures |s.queues| == MAX_THREADS + 1
    ensures CanPop(s, w, GLOBAL) <==> s.queues[GLOBAL].front != INVALID_TASK
  {
    FrontIsTask(s, GLOBAL);
  }

  lemma {:induction false} SignalKeepsLog(s: State, w: WorkerId)
    requires w in s.jobs && s.jobs[w].Returned?
    ensures Executor.SignalDependents(s, w).log == s.log
    decreases |s.dependents|
  {
    if s.jobs[w].task.firstDependent != INVALID_DEPENDENT && CanSignal(s, w) {
      SignalKeepsLog(SignalOne(s, w), w);
    }
  }
}
