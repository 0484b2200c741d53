/** The affinity given to `add_task` decides, in every run, which queue the task is taken
    from. */
module ExecutorAffinity {
  import opened Executor
  import opened ExecutorSafety
  import opened ExecutorRuns

  /** Wherever the task with serial n is, it has this affinity. */
  ghost predicate Carries(s: State, n: nat, affinity: nat) {
    && (forall id :: id in s.tasks && s.tasks[id].serial == n ==> s.tasks[id].affinity == affinity)
    && (forall w :: w in s.jobs && s.jobs[w].task.serial == n ==> s.jobs[w].task.affinity == affinity)
  }

  /** No task has this serial yet. */
  lemma NewSerial(s: State, n: nat, affinity: nat)
    requires Inv(s) && n >= s.born
    ensures Carries(s, n, affinity)
  {
    var g :| InvWith(s, g, {});
    forall id | id in s.tasks
      ensures s.tasks[id].serial < s.born
    {
      SerialsUnique(s, g, Registered(id), Registered(id));
    }
    forall w | w in s.jobs
      ensures s.jobs[w].task.serial < s.born
    {
      SerialsUnique(s, g, Working(w), Working(w));
    }
  }

  lemma ScheduleCarries(s: State, id: TaskId, n: nat, affinity: nat)
    requires id in s.tasks && QueueOf(s.tasks[id].affinity) < |s.queues| && Carries(s, n, affinity)
    ensures Carries(ScheduleIfReady(s, id), n, affinity)
  {
  }

  lemma InsertCarries(s: State, id: TaskId, a: nat, n: nat, affinity: nat)
    requires Carries(s, n, affinity) && id !in s.tasks && (n == s.born ==> affinity == a)
    ensures Carries(Insert(s, id, a), n, affinity)
  {
  }

  lemma LinkFirstCarries(
    s: State, id: TaskId, dependsOn: seq<TaskId>, records: seq<DependentId>, n: nat, affinity: nat)
    requires Carries(s, n, affinity) && id in s.tasks && id !in dependsOn && FreshRecords(s, id, dependsOn, records)
    ensures Carries(LinkFirst(s, id, dependsOn, records, |dependsOn|), n, affinity)
  {
    LinkFirstFacts(s, id, dependsOn, records, |dependsOn|);
    LinkFirstJobs(s, id, dependsOn, records, |dependsOn|);
    hide FreshRecords, LinkFirst;
  }

  /** The new task carries the affinity it was added with, the others keep theirs. */
  lemma AddCarries(s: State, a: Action, n: nat, affinity: nat)
    requires Enabled(s, a) && a.Add?
    requires Carries(s, n, affinity) && (n == s.born ==> affinity == a.affinity)
    ensures Carries(Next(s, a), n, affinity)
  {
    hide Carries, LinkFirst, ScheduleIfReady;
    var s1 := Insert(s, a.id, a.affinity);
    InsertCarries(s, a.id, a.affinity, n, affinity);
    assert FreshRecords(s1, a.id, a.dependsOn, a.records);
    LinkFirstCarries(s1, a.id, a.dependsOn, a.records, n, affinity);
    ScheduleCarries(LinkFirst(s1, a.id, a.dependsOn, a.records, |a.dependsOn|), a.id, n, affinity);
  }

  /** The new task is registered under its id, with its affinity. */
  lemma AddedTask(s: State, id: TaskId, affinity: nat, dependsOn: seq<TaskId>, records: seq<DependentId>)
    requires |s.queues| == MAX_THREADS + 1 && CanAdd(s, id, affinity, dependsOn, records)
    ensures var s' := AddTask(s, id, affinity, dependsOn, records);
            id in s'.tasks && s'.tasks[id].affinity == affinity && s'.tasks[id].serial == s.born
  {
    var s1 := Insert(s, id, affinity);
    assert FreshRecords(s1, id, dependsOn, records);
    LinkFirstFacts(s1, id, dependsOn, records, |dependsOn|);
    hide LinkFirst, FreshRecords;
  }

  lemma {:induction false} LinkFirstJobs(
    s: State, id: TaskId, dependsOn: seq<TaskId>, records: seq<DependentId>, k: nat)
    requires id in s.tasks && k <= |dependsOn| == |records|
    ensures LinkFirst(s, id, dependsOn, records, k).jobs == s.jobs
  {
    if k > 0 {
      LinkFirstJobs(s, id, dependsOn, records, k - 1);
    }
  }

  lemma {:induction false} SignalCarries(s: State, w: WorkerId, n: nat, affinity: nat)
    requires w in s.jobs && s.jobs[w].Returned? && Carries(s, n, affinity)
    ensures Carries(SignalDependents(s, w), n, affinity)
    decreases |s.dependents|
  {
    if s.jobs[w].task.firstDependent != INVALID_DEPENDENT && CanSignal(s, w) {
      assert Carries(Decrement(s, w), n, affinity);
      ScheduleCarries(Decrement(s, w), s.dependents[s.jobs[w].task.firstDependent].from, n, affinity);
      hide Carries;
      SignalCarries(SignalOne(s, w), w, n, affinity);
    }
  }

  lemma StepCarries(s: State, a: Action, n: nat, affinity: nat)
    requires Inv(s) && Enabled(s, a)
    requires Carries(s, n, affinity) && (n == s.born && a.Add? ==> affinity == a.affinity)
    ensures Carries(Next(s, a), n, affinity) && Next(s, a).born >= s.born
  {
    hide Inv;
    match a
    case Add(id, _, dependsOn, records) =>
      AddCarries(s, a, n, affinity);
      AddBorn(s, a);
      hide Carries, LinkFirst, Insert, ScheduleIfReady;
    case Pop(_, _) =>
    case Finish(_) =>
    case Signal(w) =>
      SignalCarries(s, w, n, affinity);
      SignalKeepsBorn(s, w);
      hide Carries;
  }

  lemma {:induction false} LinkFirstBorn(
    s: State, id: TaskId, dependsOn: seq<TaskId>, records: seq<DependentId>, k: nat)
    requires id in s.tasks && k <= |dependsOn| == |records|
    ensures LinkFirst(s, id, dependsOn, records, k).born == s.born
    ensures LinkFirst(s, id, dependsOn, records, k).nextStamp == s.nextStamp
  {
    if k > 0 {
      LinkFirstBorn(s, id, dependsOn, records, k - 1);
    }
  }

  lemma AddBorn(s: State, a: Action)
    requires Enabled(s, a) && a.Add?
    ensures Next(s, a).born == s.born + 1
  {
    LinkFirstBorn(Insert(s, a.id, a.affinity), a.id, a.dependsOn, a.records, |a.dependsOn|);
  }

  lemma {:induction false} SignalKeepsBorn(s: State, w: WorkerId)
    requires w in s.jobs && s.jobs[w].Returned?
    ensures SignalDependents(s, w).born == s.born
    decreases |s.dependents|
  {
    if s.jobs[w].task.firstDependent != INVALID_DEPENDENT && CanSignal(s, w) {
      SignalKeepsBorn(SignalOne(s, w), w);
    }
  }

  // ---- runs ----

  /** The task that action a adds in state s0 carries its affinity in the later state s. */
  ghost predicate Kept(s0: State, a: Action, s: State) {
    a.Add? && Carries(s, s0.born, a.affinity) && s.born > s0.born
  }

  lemma AddStarts(s: State, a: Action, s': State)
    requires Inv(s) && Leads(s, a, s') && a.Add?
    ensures Kept(s, a, s')
  {
    NewSerial(s, s.born, a.affinity);
    AddCarries(s, a, s.born, a.affinity);
    AddBorn(s, a);
    hide Inv, Carries, AddTask;
  }

  lemma KeptStep(s0: State, a0: Action, s: State, a: Action, s': State)
    requires Kept(s0, a0, s) && Inv(s) && Leads(s, a, s')
    ensures Kept(s0, a0, s')
  {
    hide Carries, Inv, Next, Enabled;
    StepCarries(s, a, s0.born, a0.affinity);
  }

  lemma RunStep(states: seq<State>, acts: seq<Action>, k: nat)
    requires IsRun(states, acts) && k < |acts|
    ensures |states| == |acts| + 1 && Inv(states[k]) && Leads(states[k], acts[k], states[k + 1])
  {
    RunInv(states, acts, k);
    hide Inv, History, Leads;
  }

  lemma {:induction false} KeepsAffinity(states: seq<State>, acts: seq<Action>, i: nat, k: nat)
    requires IsRun(states, acts) && i < k <= |acts| && acts[i].Add?
    ensures |states| == |acts| + 1 && Kept(states[i], acts[i], states[k])
    decreases k
  {
    hide IsRun, Inv, Leads, Kept;
    RunStep(states, acts, k - 1);
    if k == i + 1 {
      AddStarts(states[i], acts[i], states[k]);
    } else {
      KeepsAffinity(states, acts, i, k - 1);
      KeptStep(states[i], acts[i], states[k - 1], acts[k - 1], states[k]);
    }
  }

  lemma FrontQueue(s: State, w: WorkerId, q: nat)
    requires Inv(s) && Enabled(s, Pop(w, q))
    ensures q <= MAX_THREADS && QueueOf(s.tasks[s.queues[q].front].affinity) == q
    ensures s.tasks[s.queues[q].front].affinity == NO_AFFINITY || s.tasks[s.queues[q].front].affinity < MAX_THREADS
  {
    var g :| InvWith(s, g, {});
    assert Queue(s, g.ready[q], q);
  }

  /** Over every run: a task that was added with an affinity carries it as long as it is
      registered, and whichever worker takes it takes it from the queue of that affinity;
      without one, from the global queue. */
  lemma TakenFromItsQueue(states: seq<State>, acts: seq<Action>, i: nat, k: nat)
    requires IsRun(states, acts) && i < k <= |acts| && acts[i].Add?
    ensures forall id :: id in states[k].tasks && states[k].tasks[id].serial == states[i].born ==>
              states[k].tasks[id].affinity == acts[i].affinity
    ensures k < |acts| && acts[k].Pop? ==> acts[k].w in states[k + 1].jobs
    ensures k < |acts| && acts[k].Pop? && states[k + 1].jobs[acts[k].w].task.serial == states[i].born ==>
              acts[k].q == if acts[i].affinity == NO_AFFINITY then GLOBAL else acts[i].affinity
  {
    KeepsAffinity(states, acts, i, k);
    if k < |acts| && acts[k].Pop? {
      RunStep(states, acts, k);
      FrontQueue(states[k], acts[k].w, acts[k].q);
    }
  }
}
