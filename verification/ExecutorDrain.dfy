/** Draining the executor with any number of workers: every interleaving in which no
    task is added comes to an end, and then everything has run. */
module ExecutorDrain {
  import opened Executor
  import opened ExecutorSafety
  import opened ExecutorTheorems
  import opened ExecutorRuns

  ghost function RunningWorkers(jobs: map<WorkerId, Job>): set<WorkerId> {
    set w | w in jobs && jobs[w].Running?
  }

  /** The critical sections still to come: three for a registered task, two for a
      running one and one for a task that is to be signalled. */
  ghost function Weight(s: State): nat {
    3 * |s.tasks| + |s.jobs| + |RunningWorkers(s.jobs)|
  }

  // ---- every step counts ----

  lemma {:induction false} SignalKeepsOthers(s: State, w: WorkerId)
    requires w in s.jobs && s.jobs[w].Returned?
    ensures SignalDependents(s, w).jobs == s.jobs - {w}
    ensures SignalDependents(s, w).born == s.born && SignalDependents(s, w).edges == s.edges
    decreases |s.dependents|
  {
    if s.jobs[w].task.firstDependent != INVALID_DEPENDENT && CanSignal(s, w) {
      SignalKeepsOthers(SignalOne(s, w), w);
      assert SignalOne(s, w).jobs - {w} == s.jobs - {w};
    }
  }

  lemma NewJob(jobs: map<WorkerId, Job>, w: WorkerId, t: Task)
    requires w !in jobs
    ensures |jobs[w := Running(t)]| == |jobs| + 1
    ensures |RunningWorkers(jobs[w := Running(t)])| == |RunningWorkers(jobs)| + 1
  {
    var jobs' := jobs[w := Running(t)];
    assert jobs'.Keys == jobs.Keys + {w};
    assert |jobs'| == |jobs'.Keys| && |jobs| == |jobs.Keys|;
    assert RunningWorkers(jobs') == RunningWorkers(jobs) + {w};
  }

  lemma OneLess<T>(tasks: map<TaskId, T>, id: TaskId)
    requires id in tasks
    ensures |tasks - {id}| == |tasks| - 1
  {
    var rest := tasks - {id};
    assert rest.Keys == tasks.Keys - {id};
    assert |rest| == |rest.Keys| && |tasks| == |tasks.Keys|;
  }

  lemma PopWeight(s: State, w: WorkerId, q: nat)
    requires CanPop(s, w, q)
    ensures Weight(PopTask(s, w, q)) == Weight(s) - 1
  {
    NewJob(s.jobs, w, s.tasks[s.queues[q].front]);
    OneLess(s.tasks, s.queues[q].front);
    hide RunningWorkers;
  }

  lemma ReturnWeight(s: State, w: WorkerId)
    requires w in s.jobs && s.jobs[w].Running?
    ensures Weight(Return(s, w)) == Weight(s) - 1
  {
    var s' := Return(s, w);
    assert s'.jobs.Keys == s.jobs.Keys;
    assert |s'.jobs| == |s'.jobs.Keys| && |s.jobs| == |s.jobs.Keys|;
    assert RunningWorkers(s'.jobs) == RunningWorkers(s.jobs) - {w};
  }

  lemma SignalWeight(s: State, w: WorkerId)
    requires w in s.jobs && s.jobs[w].Returned?
    ensures Weight(SignalDependents(s, w)) == Weight(s) - 1
  {
    SignalKeepsOthers(s, w);
    var s' := SignalDependents(s, w);
    assert |s'.tasks| == |s'.tasks.Keys| && |s.tasks| == |s.tasks.Keys|;
    assert s'.jobs.Keys == s.jobs.Keys - {w};
    assert |s'.jobs| == |s'.jobs.Keys| && |s.jobs| == |s.jobs.Keys|;
    assert RunningWorkers(s'.jobs) == RunningWorkers(s.jobs);
  }

  /** Popping, returning and signalling each use up one of the sections to come. */
  lemma WeightFalls(s: State, a: Action)
    requires Enabled(s, a) && !a.Add?
    ensures Weight(Next(s, a)) == Weight(s) - 1
    ensures Next(s, a).born == s.born && Next(s, a).edges == s.edges
  {
    hide Weight;
    match a
    case Pop(w, q) => PopWeight(s, w, q);
    case Finish(w) => ReturnWeight(s, w);
    case Signal(w) => SignalWeight(s, w); SignalKeepsOthers(s, w);
  }

  // ---- nothing gets stuck ----

  /** A step other than adding a task. */
  ghost predicate CanGoOn(s: State) {
    exists a: Action :: !a.Add? && Enabled(s, a)
  }

  lemma {:induction false} FreeWorker(workers: set<WorkerId>) returns (w: WorkerId)
    ensures forall x :: x in workers ==> x < w
  {
    if workers == {} {
      w := 0;
    } else {
      var x :| x in workers;
      var above := FreeWorker(workers - {x});
      w := if above > x then above else x + 1;
      forall y | y in workers
        ensures y < w
      {
        assert y != x ==> y in workers - {x};
      }
    }
  }

  lemma SomeoneCanPop(s: State)
    requires Inv(s) && s.jobs == map[] && s.tasks != map[]
    ensures CanGoOn(s)
    ensures OnlyGlobal(s) ==> Enabled(s, Pop(0, GLOBAL))
  {
    var g :| InvWith(s, g, {});
    IdleMeansReady(s);
    var q :| 0 <= q < |s.queues| && s.queues[q].front != INVALID_TASK;
    FrontOfQueue(s, g, q);
    assert Enabled(s, Pop(0, q));
    if OnlyGlobal(s) {
      LeftMeansReady(s, 0);
    }
  }

  /** As long as a task is registered or a job is not finished, some worker can go on:
      with a job, or with a ready task, of the global queue if no task has an affinity. */
  lemma GoesOn(s: State)
    requires Inv(s) && (s.tasks != map[] || s.jobs != map[])
    ensures CanGoOn(s)
    ensures OnlyGlobal(s) ==> exists w :: Enabled(s, Pop(w, GLOBAL)) || Enabled(s, Finish(w)) || Enabled(s, Signal(w))
  {
    if s.jobs == map[] {
      SomeoneCanPop(s);
    } else {
      InvQueues(s);
      var w :| w in s.jobs;
      assert Enabled(s, if s.jobs[w].Running? then Finish(w) else Signal(w));
    }
  }

  lemma InvQueues(s: State)
    requires Inv(s)
    ensures |s.queues| == MAX_THREADS + 1
  {
  }

  /** A ready task need not wait for a worker that is busy: any other one can pop it. */
  lemma ReadyCanBePopped(s: State, q: nat) returns (w: WorkerId)
    requires Inv(s) && q < |s.queues| && s.queues[q].front != INVALID_TASK
    ensures w !in s.jobs && Enabled(s, Pop(w, q))
  {
    var g :| InvWith(s, g, {});
    FrontOfQueue(s, g, q);
    w := FreeWorker(s.jobs.Keys);
  }

  lemma WeightZero(s: State)
    ensures Weight(s) == 0 <==> s.tasks == map[] && s.jobs == map[]
  {
    assert s.jobs == map[] ==> RunningWorkers(s.jobs) == {};
  }

  /** Everything is over exactly when the weight is used up. */
  lemma QuietIffDone(s: State)
    requires Inv(s)
    ensures !CanGoOn(s) <==> Weight(s) == 0
    ensures Weight(s) == 0 ==> s.tasks == map[] && s.dependents == map[] && s.jobs == map[]
  {
    hide Weight;
    WeightZero(s);
    if s.tasks != map[] || s.jobs != map[] {
      GoesOn(s);
    } else {
      NoRecordLeft(s);
      forall a: Action | !a.Add?
        ensures !Enabled(s, a)
      {
      }
    }
  }

  lemma NoRecordLeft(s: State)
    requires Inv(s) && s.tasks == map[] && s.jobs == map[]
    ensures s.dependents == map[]
  {
    forall r
      ensures r !in s.dependents
    {
      if r in s.dependents {
        RecordsAreListed(s, r);
        assert false;
      }
    }
  }

  // ---- runs ----

  /** No task is added between two moments of a run. */
  ghost predicate OnlyDrains(acts: seq<Action>, j: nat, k: nat)
    requires j <= k <= |acts|
  {
    forall m :: j <= m < k ==> !acts[m].Add?
  }

  /** However the sections of however many workers interleave, each of them uses up one
      unit of the weight, so there are at most Weight many. */
  lemma {:induction false} DrainIsBounded(states: seq<State>, acts: seq<Action>, j: nat, k: nat)
    requires IsRun(states, acts) && j <= k <= |acts| && OnlyDrains(acts, j, k)
    ensures k - j + Weight(states[k]) == Weight(states[j])
    ensures states[k].born == states[j].born && states[k].edges == states[j].edges
    decreases k
  {
    hide Weight;
    if j < k {
      DrainIsBounded(states, acts, j, k - 1);
      assert Leads(states[k - 1], acts[k - 1], states[k]);
      hide Next, Enabled;
      WeightFalls(states[k - 1], acts[k - 1]);
    }
  }

  /** Draining terminates, whoever does it: after exactly Weight many sections, and not
      before, no worker can go on. Then nothing is registered, popped or recorded, every
      task ever added has started once and ended once, and each after the tasks it was
      recorded to depend on. */
  lemma DrainTerminates(states: seq<State>, acts: seq<Action>, j: nat, k: nat)
    requires IsRun(states, acts) && j <= k <= |acts| && OnlyDrains(acts, j, k)
    ensures k - j <= Weight(states[j])
    ensures !CanGoOn(states[k]) <==> k - j == Weight(states[j])
    ensures !CanGoOn(states[k]) ==> AllRan(states[k], states[j].born, states[j].edges)
  {
    RunInv(states, acts, k);
    DrainIsBounded(states, acts, j, k);
    hide IsRun, Inv, Weight, CanGoOn;
    QuietIffDone(states[k]);
    if Weight(states[k]) == 0 {
      EverythingEnded(states[k]);
    }
  }

  /** The n tasks are done, once each, in an order that respects the edges. */
  ghost predicate AllRan(s: State, n: nat, edges: set<(nat, nat)>) {
    && s.tasks == map[] && s.dependents == map[] && s.jobs == map[]
    && (forall x: nat :: x < n ==> Started(x) in s.log && Ended(x) in s.log)
    && LogOnce(s.log) && StartsAfter(s.log, edges)
  }
}
