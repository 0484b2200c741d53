/** The main results about the executor. */
module ExecutorTheorems {
  import opened Executor
  import opened ExecutorSafety

  // ---- placement and counters ----

  /** A registered task is in the ready list of its affinity, once, exactly if its
      counter is zero, and in no other list. */
  lemma Placement(s: State, g: Shape, id: TaskId, q: nat)
    requires InvWith(s, g, {}) && id in s.tasks && q <= MAX_THREADS
    ensures id in g.ready[q] <==> s.tasks[id].unmet == 0 && q == QueueOf(s.tasks[id].affinity)
    ensures multiset(g.ready[q])[id] <= 1
    ensures s.queues[q].front == INVALID_TASK <==> s.queues[q].back == INVALID_TASK
  {
    assert Queue(s, g.ready[q], q);
    ReadyMembers(s.tasks, s.queues[q].front, g.ready[q], q);
    ReadyOnce(s.tasks, s.queues[q].front, g.ready[q], q, id);
    if g.ready[q] != [] {
      assert g.ready[q][|g.ready[q]| - 1] in g.ready[q];
    }
  }

  lemma {:induction false} ReadyOnce(tasks: map<TaskId, Task>, front: TaskId, list: seq<TaskId>, q: nat, id: TaskId)
    requires ReadyList(tasks, front, list, q)
    ensures multiset(list)[id] <= 1
    decreases |list|
  {
    if list != [] {
      ReadyOnce(tasks, tasks[front].nextInList, list[1..], q, id);
      assert list == [list[0]] + list[1..];
      assert multiset(list) == multiset{list[0]} + multiset(list[1..]);
    }
  }

  /** The links of a queue determine its list, so the list is what the code walks. */
  lemma {:induction false} ReadyListUnique(
    tasks: map<TaskId, Task>, front: TaskId, list: seq<TaskId>, list': seq<TaskId>, q: nat)
    requires ReadyList(tasks, front, list, q) && ReadyList(tasks, front, list', q) && INVALID_TASK !in tasks
    ensures list == list'
    decreases |list|
  {
    if list != [] {
      ReadyListUnique(tasks, tasks[front].nextInList, list[1..], list'[1..], q);
      assert list == [front] + list[1..] && list' == [front] + list'[1..];
    }
  }

  /** Each queue is a stack: popping takes the task at the front off its list, and by
      `ScheduleInv` scheduling puts a task at the front. */
  lemma QueueIsStack(s: State, g: Shape, w: WorkerId, q: nat, g': Shape)
    requires Scheduling(s, g, {}) && CanPop(s, w, q) && Scheduling(PopTask(s, w, q), g', {})
    ensures g.ready[q] == [s.queues[q].front] + g'.ready[q]
    ensures forall p :: 0 <= p <= MAX_THREADS && p != q ==> g'.ready[p] == g.ready[p]
  {
    FrontOfQueue(s, g, q);
    PopScheduling(s, g, w, q);
    var popped := PopShape(s, g, w, q);
    forall p | 0 <= p <= MAX_THREADS
      ensures g'.ready[p] == popped.ready[p]
    {
      SchedulingUnique(PopTask(s, w, q), g', popped, p);
    }
  }

  lemma SchedulingUnique(s: State, g: Shape, g': Shape, p: nat)
    requires Scheduling(s, g, {}) && Scheduling(s, g', {}) && p <= MAX_THREADS
    ensures g.ready[p] == g'.ready[p]
  {
    assert Queue(s, g.ready[p], p) && Queue(s, g'.ready[p], p);
    ReadyListUnique(s.tasks, s.queues[p].front, g.ready[p], g'.ready[p], p);
  }

  /** A record is linked from the task or job it says it belongs to. */
  ghost predicate Listed(s: State, h: Holder, r: DependentId) {
    && Holds(s, h)
    && exists chain :: Chain(s.dependents, HeldTask(s, h).firstDependent, chain) && r in chain
  }

  lemma {:induction false} ChainUnique(
    dependents: map<DependentId, Dependent>, first: DependentId, chain: seq<DependentId>, chain': seq<DependentId>)
    requires Chain(dependents, first, chain) && Chain(dependents, first, chain') && INVALID_DEPENDENT !in dependents
    ensures chain == chain'
    decreases |chain|
  {
    if chain != [] {
      ChainUnique(dependents, dependents[first].next, chain[1..], chain'[1..]);
      assert chain == [first] + chain[1..] && chain' == [first] + chain'[1..];
    }
  }

  /** Every record is in the list of one registered task or unfinished job. */
  lemma RecordsAreListed(s: State, r: DependentId)
    requires Inv(s) && r in s.dependents
    ensures exists h :: Listed(s, h, r) && HeldTask(s, h).serial == s.dependents[r].of
    ensures forall h, h' :: Listed(s, h, r) && Listed(s, h', r) ==> h == h'
  {
    var g :| InvWith(s, g, {});
    var h := g.holder[s.dependents[r].of];
    assert Chain(s.dependents, HeldTask(s, h).firstDependent, g.chains[s.dependents[r].of]);
    assert Listed(s, h, r);
    forall h' | Listed(s, h', r)
      ensures h' == h
    {
      ListedByOwner(s, g, h', r);
    }
  }

  lemma ListedByOwner(s: State, g: Shape, h: Holder, r: DependentId)
    requires Dependencies(s, g) && Listed(s, h, r) && r in s.dependents
    ensures HeldTask(s, h).serial == s.dependents[r].of
    ensures g.holder[s.dependents[r].of] == h
  {
    var chain :| Chain(s.dependents, HeldTask(s, h).firstDependent, chain) && r in chain;
    ChainUnique(s.dependents, HeldTask(s, h).firstDependent, chain, g.chains[HeldTask(s, h).serial]);
  }

  /** Counter exactness: the counter of a registered task is the number of records
      that name it, every one of them linked from an unfinished task, and it never
      reaches the width of its 16-bit word. */
  lemma CounterExact(s: State, id: TaskId)
    requires Inv(s) && id in s.tasks
    ensures s.tasks[id].unmet == |Waits(s.dependents, id)|
    ensures forall r :: r in Waits(s.dependents, id) ==> exists h :: Listed(s, h, r)
    ensures s.tasks[id].unmet <= |s.dependents| <= MAX_DEPENDENTS < WORD16
  {
    WaitsBounded(s.dependents, id);
    forall r | r in Waits(s.dependents, id)
      ensures exists h :: Listed(s, h, r)
    {
      RecordsAreListed(s, r);
    }
  }

  // ---- progress ----

  /** The recorded dependencies lead from older tasks to younger ones: a path along
      them never returns to where it started. */
  ghost predicate DependsOn(s: State, id: TaskId, dependency: TaskId) {
    && id in s.tasks && dependency in s.tasks
    && exists r :: r in s.dependents && s.dependents[r].from == id && s.dependents[r].of == s.tasks[dependency].serial
  }

  lemma {:induction false} Acyclic(s: State, path: seq<TaskId>)
    requires Inv(s) && |path| > 1
    requires forall k :: 0 <= k < |path| - 1 ==> DependsOn(s, path[k], path[k + 1])
    ensures path[|path| - 1] in s.tasks && path[0] in s.tasks
    ensures s.tasks[path[|path| - 1]].serial < s.tasks[path[0]].serial
    ensures path[|path| - 1] != path[0]
  {
    var g :| InvWith(s, g, {});
    assert DependsOn(s, path[0], path[1]);
    if |path| > 2 {
      forall k | 0 <= k < |path[1..]| - 1
        ensures DependsOn(s, path[1..][k], path[1..][k + 1])
      {
        assert DependsOn(s, path[k + 1], path[k + 2]);
      }
      Acyclic(s, path[1..]);
    }
  }

  lemma {:induction false} Oldest(s: State, ids: set<TaskId>) returns (id: TaskId)
    requires ids != {} && ids <= s.tasks.Keys
    ensures id in ids && forall x :: x in ids ==> s.tasks[id].serial <= s.tasks[x].serial
  {
    id :| id in ids;
    if ids != {id} {
      var other := Oldest(s, ids - {id});
      if s.tasks[other].serial < s.tasks[id].serial {
        id := other;
      }
    }
  }

  /** While tasks are registered, some ready queue has a task or some job is still to
      be signalled. */
  lemma Progress(s: State)
    requires Inv(s) && s.tasks != map[]
    ensures s.jobs != map[] || exists q :: 0 <= q < |s.queues| && s.queues[q].front != INVALID_TASK
  {
    var g :| InvWith(s, g, {});
    assert s.tasks.Keys != {};
    var id := Oldest(s, s.tasks.Keys);
    if s.tasks[id].unmet == 0 {
      hide Dependencies;
      var q := QueueOf(s.tasks[id].affinity);
      assert id in g.ready[q];
      assert Queue(s, g.ready[q], q);
      assert s.queues[q].front != INVALID_TASK;
    } else {
      OldestWaitsForJob(s, g, id);
    }
  }

  lemma OldestWaitsForJob(s: State, g: Shape, id: TaskId)
    requires Dependencies(s, g) && id in s.tasks && s.tasks[id].unmet > 0
    requires forall x :: x in s.tasks ==> s.tasks[id].serial <= s.tasks[x].serial
    ensures s.jobs != map[]
  {
    assert Waits(s.dependents, id) != {};
    var r :| r in Waits(s.dependents, id);
    var h := g.holder[s.dependents[r].of];
    assert HeldTask(s, h).serial < s.tasks[id].serial;
    assert h.Working? && h.w in s.jobs;
  }

  /** With no job in flight, whatever is registered can be run. */
  lemma IdleMeansReady(s: State)
    requires Inv(s) && s.tasks != map[] && s.jobs == map[]
    ensures exists q :: 0 <= q < |s.queues| && s.queues[q].front != INVALID_TASK
  {
    Progress(s);
  }

  /** A worker only ever gets tasks of its own affinity or of none. */
  lemma RightAffinity(s: State, affinity: nat)
    requires Inv(s) && affinity < MAX_THREADS
    requires |s.queues| == MAX_THREADS + 1
    requires s.queues[GLOBAL].front != INVALID_TASK || s.queues[affinity].front != INVALID_TASK
    ensures Choosable(s, affinity)
    ensures var id := s.queues[ChooseQueue(s, affinity)].front;
            id in s.tasks && s.tasks[id].affinity in {NO_AFFINITY, affinity}
  {
    var g :| InvWith(s, g, {});
    forall q | q == GLOBAL || q == affinity
      ensures s.queues[q].front != INVALID_TASK ==>
                s.queues[q].front in s.tasks && QueueOf(s.tasks[s.queues[q].front].affinity) == q
    {
      assert Queue(s, g.ready[q], q);
    }
  }
}
