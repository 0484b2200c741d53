/** What every interleaving of the executor's critical sections keeps. */
module ExecutorSafety {
  import opened Basics
  import opened Executor

  // ---- linked lists ----

  /** The links from `front` run through exactly `list`, whose tasks are ready and
      belong into queue q. */
  ghost predicate ReadyList(tasks: map<TaskId, Task>, front: TaskId, list: seq<TaskId>, q: nat)
    decreases |list|
  {
    if list == [] then front == INVALID_TASK
    else
      && front == list[0] && front in tasks && front !in list[1..]
      && tasks[front].unmet == 0 && QueueOf(tasks[front].affinity) == q
      && ReadyList(tasks, tasks[front].nextInList, list[1..], q)
  }

  lemma {:induction false} ReadyMembers(tasks: map<TaskId, Task>, front: TaskId, list: seq<TaskId>, q: nat)
    requires ReadyList(tasks, front, list, q)
    ensures forall id :: id in list ==> id in tasks && tasks[id].unmet == 0 && QueueOf(tasks[id].affinity) == q
    decreases |list|
  {
    if list != [] {
      ReadyMembers(tasks, tasks[front].nextInList, list[1..], q);
      assert list == [list[0]] + list[1..];
    }
  }

  lemma {:induction false} ReadyFrame(
    tasks: map<TaskId, Task>, tasks': map<TaskId, Task>, front: TaskId, list: seq<TaskId>, q: nat)
    requires ReadyList(tasks, front, list, q)
    requires forall id :: id in list && id in tasks ==>
               && id in tasks' && tasks'[id].nextInList == tasks[id].nextInList
               && tasks'[id].unmet == tasks[id].unmet && tasks'[id].affinity == tasks[id].affinity
    ensures ReadyList(tasks', front, list, q)
    decreases |list|
  {
    if list != [] {
      assert list == [list[0]] + list[1..];
      ReadyFrame(tasks, tasks', tasks[front].nextInList, list[1..], q);
    }
  }

  /** The records from `first` run through exactly `chain`. */
  ghost predicate Chain(dependents: map<DependentId, Dependent>, first: DependentId, chain: seq<DependentId>)
    decreases |chain|
  {
    if chain == [] then first == INVALID_DEPENDENT
    else
      && first == chain[0] && first in dependents && first !in chain[1..]
      && Chain(dependents, dependents[first].next, chain[1..])
  }

  lemma {:induction false} ChainFrame(
    dependents: map<DependentId, Dependent>, dependents': map<DependentId, Dependent>,
    first: DependentId, chain: seq<DependentId>)
    requires Chain(dependents, first, chain)
    requires forall r :: r in chain && r in dependents ==> r in dependents' && dependents'[r] == dependents[r]
    ensures Chain(dependents', first, chain)
    decreases |chain|
  {
    if chain != [] {
      assert chain == [chain[0]] + chain[1..];
      ChainFrame(dependents, dependents', dependents[first].next, chain[1..]);
    }
  }

  // ---- the invariant ----

  /** Who holds a task: the slot vector, or the worker that popped it. */
  datatype Holder = Registered(id: TaskId) | Working(w: WorkerId)

  /** The lists behind the links: the ready lists, and by serial of the task they
      belong to the lists of dependents; and the holder of the task with a serial. */
  datatype Shape = Shape(
    ready: seq<seq<TaskId>>,
    chains: map<nat, seq<DependentId>>,
    holder: map<nat, Holder>)

  ghost predicate Queue(s: State, list: seq<TaskId>, q: nat)
    requires q < |s.queues|
  {
    && ReadyList(s.tasks, s.queues[q].front, list, q)
    && s.queues[q].back == (if list == [] then INVALID_TASK else list[|list| - 1])
  }

  ghost predicate Queues(s: State, g: Shape) {
    && |s.queues| == |g.ready| == MAX_THREADS + 1
    && forall q :: 0 <= q < |g.ready| ==> Queue(s, g.ready[q], q)
  }

  /** Every task whose counter is zero is in the list of its affinity, except the
      tasks in `pending`, which are in none. */
  ghost predicate Placed(s: State, g: Shape, pending: set<TaskId>) {
    && |g.ready| == MAX_THREADS + 1
    && INVALID_TASK !in s.tasks
    && (forall id :: id in s.tasks ==> ValidAffinity(s.tasks[id].affinity))
    && (forall id :: id in s.tasks && id !in pending && s.tasks[id].unmet == 0 ==>
          id in g.ready[QueueOf(s.tasks[id].affinity)])
    && (forall q, id :: 0 <= q < |g.ready| && id in pending ==> id !in g.ready[q])
  }

  ghost predicate Scheduling(s: State, g: Shape, pending: set<TaskId>) {
    Queues(s, g) && Placed(s, g, pending)
  }

  ghost predicate Holds(s: State, h: Holder) {
    match h
    case Registered(id) => id in s.tasks
    case Working(w) => w in s.jobs
  }

  ghost function HeldTask(s: State, h: Holder): Task
    requires Holds(s, h)
  {
    match h
    case Registered(id) => s.tasks[id]
    case Working(w) => s.jobs[w].task
  }

  /** Held tasks and serials correspond one to one. */
  ghost predicate Serials(s: State, g: Shape) {
    && (forall h :: Holds(s, h) ==>
          && HeldTask(s, h).serial < s.born
          && HeldTask(s, h).serial in g.holder && g.holder[HeldTask(s, h).serial] == h)
    && (forall n :: n in g.holder ==> Holds(s, g.holder[n]) && HeldTask(s, g.holder[n]).serial == n)
    && (forall w :: w in s.jobs ==> s.jobs[w].task.unmet == 0)
  }

  ghost predicate Chains(s: State, g: Shape) {
    && (forall n :: n in g.chains <==> n in g.holder)
    && (forall h :: Holds(s, h) && HeldTask(s, h).serial in g.chains ==>
          Chain(s.dependents, HeldTask(s, h).firstDependent, g.chains[HeldTask(s, h).serial]))
  }

  /** Each record is in one list, the one it says. */
  ghost predicate Owners(dependents: map<DependentId, Dependent>, chains: map<nat, seq<DependentId>>) {
    && INVALID_DEPENDENT !in dependents
    && (forall r :: r in dependents ==> dependents[r].of in chains && r in chains[dependents[r].of])
    && (forall n, r {:trigger r in chains[n]} :: n in chains && r in chains[n] ==>
          r in dependents && dependents[r].of == n)
  }

  ghost function Waits(dependents: map<DependentId, Dependent>, id: TaskId): set<DependentId> {
    set r | r in dependents && dependents[r].from == id
  }

  /** The counter of a task is the number of records that name it. */
  ghost predicate Counters(s: State) {
    && |s.dependents| <= MAX_DEPENDENTS
    && (forall r :: r in s.dependents ==> s.dependents[r].from in s.tasks)
    && (forall id :: id in s.tasks ==> s.tasks[id].unmet == |Waits(s.dependents, id)|)
  }

  /** Dependencies are older than their dependents. */
  ghost predicate Ordered(s: State) {
    forall r :: r in s.dependents && s.dependents[r].from in s.tasks ==>
      s.dependents[r].of < s.tasks[s.dependents[r].from].serial
  }

  ghost predicate Dependencies(s: State, g: Shape) {
    Chains(s, g) && Owners(s.dependents, g.chains) && Counters(s) && Ordered(s) && Serials(s, g)
  }

  ghost predicate InvWith(s: State, g: Shape, pending: set<TaskId>) {
    Scheduling(s, g, pending) && Dependencies(s, g)
  }

  ghost predicate Inv(s: State) {
    exists g :: InvWith(s, g, {})
  }

  lemma InitInv()
    ensures InvWith(Init(), Shape(seq(MAX_THREADS + 1, _ => []), map[], map[]), {})
  {
  }

  lemma InitIsInv()
    ensures Inv(Init())
  {
    InitInv();
    hide InvWith, Init;
  }

  // ---- frames ----

  /** The scheduling half reads only links, zero tests and affinities. */
  lemma SchedulingFrame(s: State, s': State, g: Shape, pending: set<TaskId>)
    requires Scheduling(s, g, pending)
    requires s'.tasks.Keys == s.tasks.Keys && s'.queues == s.queues
    requires forall id :: id in s.tasks ==>
               && s'.tasks[id].nextInList == s.tasks[id].nextInList
               && s'.tasks[id].affinity == s.tasks[id].affinity
               && (id !in pending ==> s'.tasks[id].unmet == s.tasks[id].unmet)
    ensures Scheduling(s', g, pending)
  {
    forall q | 0 <= q < |g.ready|
      ensures Queue(s', g.ready[q], q)
    {
      assert Queue(s, g.ready[q], q);
      ReadyFrame(s.tasks, s'.tasks, s.queues[q].front, g.ready[q], q);
    }
  }

  /** What the dependency half reads is the same. */
  ghost predicate SameDependencies(s: State, s': State) {
    && s'.tasks.Keys == s.tasks.Keys && s'.jobs.Keys == s.jobs.Keys
    && s'.dependents == s.dependents && s'.born == s.born
    && (forall id :: id in s.tasks ==>
          && s'.tasks[id].firstDependent == s.tasks[id].firstDependent
          && s'.tasks[id].unmet == s.tasks[id].unmet
          && s'.tasks[id].serial == s.tasks[id].serial)
    && (forall w :: w in s.jobs ==> s'.jobs[w].task == s.jobs[w].task)
  }

  lemma HoldersFrame(s: State, s': State, h: Holder)
    requires SameDependencies(s, s')
    ensures Holds(s', h) == Holds(s, h)
    ensures Holds(s, h) ==>
              && HeldTask(s', h).firstDependent == HeldTask(s, h).firstDependent
              && HeldTask(s', h).serial == HeldTask(s, h).serial
  {
  }

  lemma ChainsFrame(s: State, s': State, g: Shape, g': Shape)
    requires Serials(s, g) && Chains(s, g) && g' == g.(ready := g'.ready) && SameDependencies(s, s')
    ensures Serials(s', g') && Chains(s', g')
  {
    forall h
      ensures Holds(s', h) == Holds(s, h)
      ensures Holds(s, h) ==>
                && HeldTask(s', h).firstDependent == HeldTask(s, h).firstDependent
                && HeldTask(s', h).serial == HeldTask(s, h).serial
    {
      HoldersFrame(s, s', h);
    }
    hide SameDependencies;
    assert s'.dependents == s.dependents && s'.born == s.born by { SameRecords(s, s'); }
  }

  lemma SameRecords(s: State, s': State)
    requires SameDependencies(s, s')
    ensures s'.dependents == s.dependents && s'.born == s.born
  {
  }

  lemma CountersFrame(s: State, s': State)
    requires Counters(s) && Ordered(s) && SameDependencies(s, s')
    ensures Counters(s') && Ordered(s')
  {
  }

  /** The dependency half reads neither links nor stamps. */
  lemma DependenciesFrame(s: State, s': State, g: Shape, g': Shape)
    requires Dependencies(s, g) && g' == g.(ready := g'.ready) && SameDependencies(s, s')
    ensures Dependencies(s', g')
  {
    ChainsFrame(s, s', g, g');
    CountersFrame(s, s');
    SameRecords(s, s');
    hide Serials, Chains, Counters, Ordered, SameDependencies, Owners;
  }

  // ---- add_task ----

  function InsertShape(s: State, g: Shape, id: TaskId): Shape {
    g.(chains := g.chains[s.born := []], holder := g.holder[s.born := Registered(id)])
  }

  lemma InsertInv(s: State, g: Shape, id: TaskId, affinity: nat)
    requires InvWith(s, g, {}) && id !in s.tasks && id != INVALID_TASK && ValidAffinity(affinity)
    ensures InvWith(Insert(s, id, affinity), InsertShape(s, g, id), {id})
  {
    InsertScheduling(s, g, id, affinity);
    InsertDependencies(s, g, id, affinity);
  }

  lemma InsertScheduling(s: State, g: Shape, id: TaskId, affinity: nat)
    requires Scheduling(s, g, {}) && id !in s.tasks && id != INVALID_TASK && ValidAffinity(affinity)
    ensures Scheduling(Insert(s, id, affinity), InsertShape(s, g, id), {id})
  {
    var s' := Insert(s, id, affinity);
    forall q | 0 <= q < |g.ready|
      ensures Queue(s', g.ready[q], q) && id !in g.ready[q]
    {
      assert Queue(s, g.ready[q], q);
      ReadyMembers(s.tasks, s.queues[q].front, g.ready[q], q);
      ReadyFrame(s.tasks, s'.tasks, s.queues[q].front, g.ready[q], q);
    }
  }

  lemma InsertDependencies(s: State, g: Shape, id: TaskId, affinity: nat)
    requires Dependencies(s, g) && id !in s.tasks
    ensures Dependencies(Insert(s, id, affinity), InsertShape(s, g, id))
  {
    InsertChains(s, g, id, affinity);
    OwnersInsert(s.dependents, g.chains, s.born);
    InsertCounters(s, id, affinity);
    InsertOrder(s, g, id, affinity);
  }

  lemma InsertChains(s: State, g: Shape, id: TaskId, affinity: nat)
    requires Chains(s, g) && Serials(s, g) && id !in s.tasks
    ensures Chains(Insert(s, id, affinity), InsertShape(s, g, id))
    ensures Serials(Insert(s, id, affinity), InsertShape(s, g, id))
    ensures s.born !in g.chains
  {
    var s' := Insert(s, id, affinity);
    assert !Holds(s, Registered(id)) && s.born !in g.holder;
    forall h
      ensures Holds(s', h) <==> (Holds(s, h) || h == Registered(id))
      ensures Holds(s, h) ==> HeldTask(s', h) == HeldTask(s, h)
    {}
  }

  lemma InsertOrder(s: State, g: Shape, id: TaskId, affinity: nat)
    requires Ordered(s) && Counters(s) && id !in s.tasks
    ensures Ordered(Insert(s, id, affinity))
  {
  }

  lemma OwnersInsert(
    dependents: map<DependentId, Dependent>, chains: map<nat, seq<DependentId>>, n: nat)
    requires Owners(dependents, chains) && n !in chains
    ensures Owners(dependents, chains[n := []])
  {
  }

  lemma InsertCounters(s: State, id: TaskId, affinity: nat)
    requires Counters(s) && id !in s.tasks
    ensures Counters(Insert(s, id, affinity))
  {
    assert Waits(s.dependents, id) == {};
  }

  function LinkShape(s: State, g: Shape, dependency: TaskId, record: DependentId): Shape
    requires dependency in s.tasks && s.tasks[dependency].serial in g.chains
  {
    var n := s.tasks[dependency].serial;
    g.(chains := g.chains[n := [record] + g.chains[n]])
  }

  lemma LinkInv(s: State, g: Shape, id: TaskId, dependency: TaskId, record: DependentId)
    requires InvWith(s, g, {id}) && id in s.tasks && dependency in s.tasks && dependency != id
    requires s.tasks[dependency].serial < s.tasks[id].serial
    requires record != INVALID_DEPENDENT && record !in s.dependents
    requires |s.dependents| < MAX_DEPENDENTS
    ensures s.tasks[dependency].serial in g.chains
    ensures InvWith(Link(s, id, dependency, record), LinkShape(s, g, dependency, record), {id})
  {
    LinkDependencies(s, g, id, dependency, record);
    LinkScheduling(s, g, id, dependency, record);
  }

  lemma LinkScheduling(s: State, g: Shape, id: TaskId, dependency: TaskId, record: DependentId)
    requires Scheduling(s, g, {id}) && id in s.tasks && dependency in s.tasks && dependency != id
    requires s.tasks[dependency].serial in g.chains
    ensures Scheduling(Link(s, id, dependency, record), LinkShape(s, g, dependency, record), {id})
  {
    SchedulingFrame(s, Link(s, id, dependency, record), g, {id});
  }

  lemma LinkDependencies(s: State, g: Shape, id: TaskId, dependency: TaskId, record: DependentId)
    requires Dependencies(s, g) && id in s.tasks && dependency in s.tasks && dependency != id
    requires s.tasks[dependency].serial < s.tasks[id].serial
    requires record != INVALID_DEPENDENT && record !in s.dependents
    requires |s.dependents| < MAX_DEPENDENTS
    ensures s.tasks[dependency].serial in g.chains
    ensures Dependencies(Link(s, id, dependency, record), LinkShape(s, g, dependency, record))
  {
    assert Holds(s, Registered(dependency));
    LinkChains(s, g, id, dependency, record);
    OwnersPrepend(s.dependents, g.chains, record,
                  Dependent(id, s.tasks[dependency].firstDependent, s.tasks[dependency].serial));
    LinkCounters(s, id, dependency, record);
    LinkOrder(s, g, id, dependency, record);
  }

  lemma LinkHolds(s: State, id: TaskId, dependency: TaskId, record: DependentId, h: Holder)
    requires id in s.tasks && dependency in s.tasks && dependency != id
    ensures Holds(Link(s, id, dependency, record), h) == Holds(s, h)
    ensures Holds(s, h) ==>
              var t := HeldTask(Link(s, id, dependency, record), h);
              && t.serial == HeldTask(s, h).serial
              && t.firstDependent == (if h == Registered(dependency) then record else HeldTask(s, h).firstDependent)
  {
  }

  lemma LinkChains(s: State, g: Shape, id: TaskId, dependency: TaskId, record: DependentId)
    requires Chains(s, g) && Serials(s, g) && id in s.tasks && dependency in s.tasks && dependency != id
    requires s.tasks[dependency].serial in g.chains && Holds(s, Registered(dependency))
    requires record !in s.dependents && Owners(s.dependents, g.chains)
    ensures Chains(Link(s, id, dependency, record), LinkShape(s, g, dependency, record))
  {
    var s' := Link(s, id, dependency, record);
    var g' := LinkShape(s, g, dependency, record);
    forall h | Holds(s', h) && HeldTask(s', h).serial in g'.chains
      ensures Chain(s'.dependents, HeldTask(s', h).firstDependent, g'.chains[HeldTask(s', h).serial])
    {
      LinkHolds(s, id, dependency, record, h);
      LinkChain(s, g, id, dependency, record, h);
    }
  }

  lemma LinkChain(s: State, g: Shape, id: TaskId, dependency: TaskId, record: DependentId, h: Holder)
    requires Holds(s, h) && HeldTask(s, h).serial in g.chains
    requires id in s.tasks && dependency in s.tasks && s.tasks[dependency].serial in g.chains
    requires HeldTask(s, h).serial == s.tasks[dependency].serial <==> h == Registered(dependency)
    requires Chain(s.dependents, HeldTask(s, h).firstDependent, g.chains[HeldTask(s, h).serial])
    requires record !in s.dependents && record !in g.chains[HeldTask(s, h).serial]
    ensures Chain(Link(s, id, dependency, record).dependents,
                  if h == Registered(dependency) then record else HeldTask(s, h).firstDependent,
                  LinkShape(s, g, dependency, record).chains[HeldTask(s, h).serial])
  {
    var dependents := Link(s, id, dependency, record).dependents;
    var chain := g.chains[HeldTask(s, h).serial];
    ChainFrame(s.dependents, dependents, HeldTask(s, h).firstDependent, chain);
    assert ([record] + chain)[1..] == chain;
  }

  lemma OwnersPrepend(
    dependents: map<DependentId, Dependent>, chains: map<nat, seq<DependentId>>,
    record: DependentId, d: Dependent)
    requires Owners(dependents, chains) && d.of in chains
    requires record !in dependents && record != INVALID_DEPENDENT
    ensures Owners(dependents[record := d], chains[d.of := [record] + chains[d.of]])
  {
    var chains' := chains[d.of := [record] + chains[d.of]];
    assert chains'[d.of][0] == record;
    forall r | r in dependents
      ensures r in chains'[dependents[r].of]
    {
      assert r in chains[dependents[r].of];
    }
  }

  lemma WaitsAdd(dependents: map<DependentId, Dependent>, record: DependentId, d: Dependent, id: TaskId)
    requires record !in dependents
    ensures |Waits(dependents[record := d], id)| == |Waits(dependents, id)| + (if d.from == id then 1 else 0)
  {
    assert Waits(dependents[record := d], id) ==
             Waits(dependents, id) + (if d.from == id then {record} else {});
  }

  lemma WaitsBounded(dependents: map<DependentId, Dependent>, id: TaskId)
    ensures |Waits(dependents, id)| <= |dependents|
  {
    SubsetSize(Waits(dependents, id), dependents.Keys);
  }

  lemma LinkCounters(s: State, id: TaskId, dependency: TaskId, record: DependentId)
    requires Counters(s) && id in s.tasks && dependency in s.tasks && dependency != id
    requires record !in s.dependents && |s.dependents| < MAX_DEPENDENTS
    ensures Counters(Link(s, id, dependency, record))
  {
    var s' := Link(s, id, dependency, record);
    var d := Dependent(id, s.tasks[dependency].firstDependent, s.tasks[dependency].serial);
    assert s'.dependents == s.dependents[record := d];
    WaitsBounded(s.dependents, id);
    forall x | x in s'.tasks
      ensures s'.tasks[x].unmet == |Waits(s'.dependents, x)|
    {
      WaitsAdd(s.dependents, record, d, x);
      assert s'.tasks[x].unmet == s.tasks[x].unmet + (if x == id then 1 else 0);
    }
  }

  lemma LinkOrder(s: State, g: Shape, id: TaskId, dependency: TaskId, record: DependentId)
    requires Ordered(s) && Serials(s, g) && id in s.tasks && dependency in s.tasks && dependency != id
    requires s.tasks[dependency].serial in g.chains
    requires s.tasks[dependency].serial < s.tasks[id].serial
    requires record !in s.dependents
    ensures Ordered(Link(s, id, dependency, record))
    ensures Serials(Link(s, id, dependency, record), LinkShape(s, g, dependency, record))
  {
    var s' := Link(s, id, dependency, record);
    var g' := LinkShape(s, g, dependency, record);
    forall h
      ensures Holds(s', h) == Holds(s, h)
      ensures Holds(s, h) ==> HeldTask(s', h).serial == HeldTask(s, h).serial
    {
      LinkHolds(s, id, dependency, record, h);
    }
    assert Ordered(s');
    assert Serials(s', g');
  }

  function ScheduleShape(s: State, g: Shape, id: TaskId): Shape
    requires id in s.tasks && QueueOf(s.tasks[id].affinity) < |g.ready|
  {
    var q := QueueOf(s.tasks[id].affinity);
    g.(ready := g.ready[q := [id] + g.ready[q]])
  }

  lemma ScheduleInv(s: State, g: Shape, id: TaskId)
    requires InvWith(s, g, {id}) && id in s.tasks && s.tasks[id].unmet == 0
    ensures QueueOf(s.tasks[id].affinity) < |s.queues| == |g.ready|
    ensures InvWith(Schedule(s, id), ScheduleShape(s, g, id), {})
  {
    var s' := Schedule(s, id);
    ScheduleKeeps(s, id);
    DependenciesFrame(s, s', g, ScheduleShape(s, g, id));
    ScheduleScheduling(s, g, id);
  }

  lemma ScheduleKeeps(s: State, id: TaskId)
    requires id in s.tasks && QueueOf(s.tasks[id].affinity) < |s.queues|
    ensures SameDependencies(s, Schedule(s, id))
  {
  }

  lemma ScheduleScheduling(s: State, g: Shape, id: TaskId)
    requires Scheduling(s, g, {id}) && id in s.tasks && s.tasks[id].unmet == 0
    ensures QueueOf(s.tasks[id].affinity) < |s.queues| == |g.ready|
    ensures Scheduling(Schedule(s, id), ScheduleShape(s, g, id), {})
  {
    var s' := Schedule(s, id);
    var g' := ScheduleShape(s, g, id);
    var own := QueueOf(s.tasks[id].affinity);
    assert g'.ready[own][0] == id && g'.ready[own][1..] == g.ready[own];
    forall q | 0 <= q < |g.ready|
      ensures Queue(s', g'.ready[q], q)
    {
      assert Queue(s, g.ready[q], q);
      assert id !in g.ready[q];
      ReadyMembers(s.tasks, s.queues[q].front, g.ready[q], q);
      ReadyFrame(s.tasks, s'.tasks, s.queues[q].front, g.ready[q], q);
    }
  }

  /** A pending task whose counter is not zero is placed: in no list. */
  lemma ReleasePending(s: State, g: Shape, id: TaskId)
    requires InvWith(s, g, {id}) && id in s.tasks && s.tasks[id].unmet != 0
    ensures InvWith(s, g, {})
  {
  }

  /** Which records linking adds, and what it leaves alone. */
  lemma {:induction false} LinkFirstFacts(
    s: State, id: TaskId, dependsOn: seq<TaskId>, records: seq<DependentId>, k: nat)
    requires id in s.tasks && id !in dependsOn && FreshRecords(s, id, dependsOn, records) && k <= |dependsOn|
    ensures var s' := LinkFirst(s, id, dependsOn, records, k);
            && (forall x :: x in s.tasks ==> s'.tasks[x].serial == s.tasks[x].serial)
            && (forall j :: k <= j < |dependsOn| && dependsOn[j] in s.tasks ==> records[j] !in s'.dependents)
            && |s'.dependents| == |s.dependents| + CountValid(s, dependsOn, k)
  {
    if k > 0 {
      LinkFirstFacts(s, id, dependsOn, records, k - 1);
      var s1 := LinkFirst(s, id, dependsOn, records, k - 1);
      if dependsOn[k - 1] in s1.tasks {
        var s' := Link(s1, id, dependsOn[k - 1], records[k - 1]);
        assert |s'.dependents| == |s1.dependents| + 1;
      }
    }
  }

  /** The invariant while task `id` is being linked and is in no ready list yet. */
  ghost predicate Pending(s: State, id: TaskId) {
    exists g :: InvWith(s, g, {id})
  }

  lemma LinkPending(s: State, id: TaskId, dependency: TaskId, record: DependentId)
    requires Pending(s, id) && id in s.tasks && dependency in s.tasks && dependency != id
    requires s.tasks[dependency].serial < s.tasks[id].serial
    requires record != INVALID_DEPENDENT && record !in s.dependents
    requires |s.dependents| < MAX_DEPENDENTS
    ensures Pending(Link(s, id, dependency, record), id)
  {
    var g :| InvWith(s, g, {id});
    LinkInv(s, g, id, dependency, record);
  }

  lemma {:induction false} LinkFirstInv(
    s: State, id: TaskId, dependsOn: seq<TaskId>, records: seq<DependentId>, k: nat)
    requires Pending(s, id) && id in s.tasks && id !in dependsOn
    requires forall x :: x in s.tasks && x != id ==> s.tasks[x].serial < s.tasks[id].serial
    requires FreshRecords(s, id, dependsOn, records) && k <= |dependsOn|
    requires |s.dependents| + CountValid(s, dependsOn, k) <= MAX_DEPENDENTS
    ensures Pending(LinkFirst(s, id, dependsOn, records, k), id)
  {
    hide Pending;
    if k > 0 {
      LinkFirstInv(s, id, dependsOn, records, k - 1);
      LinkFirstFacts(s, id, dependsOn, records, k - 1);
      var s1 := LinkFirst(s, id, dependsOn, records, k - 1);
      if dependsOn[k - 1] in s1.tasks {
        LinkPending(s1, id, dependsOn[k - 1], records[k - 1]);
      }
    }
  }

  lemma AddTaskInv(s: State, g: Shape, id: TaskId, affinity: nat, dependsOn: seq<TaskId>, records: seq<DependentId>)
    requires InvWith(s, g, {}) && CanAdd(s, id, affinity, dependsOn, records)
    ensures Inv(AddTask(s, id, affinity, dependsOn, records))
  {
    hide InvWith;
    InsertPending(s, g, id, affinity);
    InsertFresh(s, id, affinity, dependsOn, records);
    CountValidInsert(s, id, affinity, dependsOn, |dependsOn|);
    LinkAndSchedule(Insert(s, id, affinity), id, dependsOn, records);
  }

  lemma InsertPending(s: State, g: Shape, id: TaskId, affinity: nat)
    requires InvWith(s, g, {}) && id !in s.tasks && id != INVALID_TASK && ValidAffinity(affinity)
    ensures var s' := Insert(s, id, affinity);
            && Pending(s', id) && |s.queues| == MAX_THREADS + 1
            && (forall x :: x in s'.tasks && x != id ==> s'.tasks[x].serial < s'.tasks[id].serial)
  {
    NewestSerial(s, g, id, affinity);
    InsertInv(s, g, id, affinity);
  }

  lemma InsertFresh(s: State, id: TaskId, affinity: nat, dependsOn: seq<TaskId>, records: seq<DependentId>)
    requires CanAdd(s, id, affinity, dependsOn, records)
    ensures FreshRecords(Insert(s, id, affinity), id, dependsOn, records)
  {
  }

  lemma LinkAndSchedule(s: State, id: TaskId, dependsOn: seq<TaskId>, records: seq<DependentId>)
    requires Pending(s, id) && id in s.tasks && id !in dependsOn && FreshRecords(s, id, dependsOn, records)
    requires forall x :: x in s.tasks && x != id ==> s.tasks[x].serial < s.tasks[id].serial
    requires |s.dependents| + CountValid(s, dependsOn, |dependsOn|) <= MAX_DEPENDENTS
    ensures var s' := LinkFirst(s, id, dependsOn, records, |dependsOn|);
            && id in s'.tasks && QueueOf(s'.tasks[id].affinity) < |s'.queues|
            && Inv(ScheduleIfReady(s', id))
  {
    hide InvWith;
    LinkFirstInv(s, id, dependsOn, records, |dependsOn|);
    var s' := LinkFirst(s, id, dependsOn, records, |dependsOn|);
    var g :| InvWith(s', g, {id});
    ScheduleIfReadyInv(s', g, id);
  }

  lemma NewestSerial(s: State, g: Shape, id: TaskId, affinity: nat)
    requires Serials(s, g) && id !in s.tasks
    ensures var s1 := Insert(s, id, affinity);
            forall x :: x in s1.tasks && x != id ==> s1.tasks[x].serial < s1.tasks[id].serial
  {
    forall x | x in s.tasks
      ensures s.tasks[x].serial < s.born
    {
      assert Holds(s, Registered(x));
    }
  }

  lemma {:induction false} CountValidInsert(s: State, id: TaskId, affinity: nat, dependsOn: seq<TaskId>, k: nat)
    requires id !in dependsOn && k <= |dependsOn|
    ensures CountValid(Insert(s, id, affinity), dependsOn, k) == CountValid(s, dependsOn, k)
  {
    if k > 0 {
      CountValidInsert(s, id, affinity, dependsOn, k - 1);
    }
  }

  lemma ScheduleIfReadyInv(s: State, g: Shape, id: TaskId)
    requires InvWith(s, g, {id}) && id in s.tasks
    ensures QueueOf(s.tasks[id].affinity) < |s.queues|
    ensures Inv(ScheduleIfReady(s, id))
  {
    AffinityInRange(s, g, id);
    hide InvWith;
    if s.tasks[id].unmet == 0 {
      ScheduleInv(s, g, id);
    } else {
      ReleasePending(s, g, id);
    }
  }

  lemma AffinityInRange(s: State, g: Shape, id: TaskId)
    requires InvWith(s, g, {id}) && id in s.tasks
    ensures QueueOf(s.tasks[id].affinity) < |s.queues|
  {
  }

  // ---- pop_task ----

  function PopShape(s: State, g: Shape, w: WorkerId, q: nat): Shape
    requires CanPop(s, w, q) && q < |g.ready| && |g.ready[q]| > 0
  {
    g.(ready := g.ready[q := g.ready[q][1..]],
       holder := g.holder[s.tasks[s.queues[q].front].serial := Working(w)])
  }

  /** A queue has a front task exactly if its list is not empty. */
  lemma FrontOfQueue(s: State, g: Shape, q: nat)
    requires Scheduling(s, g, {}) && q <= MAX_THREADS
    ensures s.queues[q].front == INVALID_TASK <==> g.ready[q] == []
    ensures g.ready[q] != [] ==> s.queues[q].front == g.ready[q][0] && s.queues[q].front in s.tasks
  {
    assert Queue(s, g.ready[q], q);
  }

  lemma PopInv(s: State, g: Shape, w: WorkerId, q: nat)
    requires InvWith(s, g, {}) && CanPop(s, w, q)
    ensures Inv(PopTask(s, w, q))
    ensures s.tasks[s.queues[q].front].unmet == 0
  {
    FrontOfQueue(s, g, q);
    PopScheduling(s, g, w, q);
    PopDependencies(s, g, w, q);
    assert InvWith(PopTask(s, w, q), PopShape(s, g, w, q), {});
  }

  lemma PopScheduling(s: State, g: Shape, w: WorkerId, q: nat)
    requires Scheduling(s, g, {}) && CanPop(s, w, q) && |g.ready[q]| > 0
    ensures Scheduling(PopTask(s, w, q), PopShape(s, g, w, q), {})
    ensures s.tasks[s.queues[q].front].unmet == 0
  {
    var s', g' := PopTask(s, w, q), PopShape(s, g, w, q);
    var id := s.queues[q].front;
    assert Queue(s, g.ready[q], q);
    forall p | 0 <= p < |g.ready|
      ensures Queue(s', g'.ready[p], p)
    {
      assert Queue(s, g.ready[p], p);
      ReadyMembers(s.tasks, s.queues[p].front, g.ready[p], p);
      if p == q {
        var rest := g.ready[q][1..];
        ReadyFrame(s.tasks, s'.tasks, s.tasks[id].nextInList, rest, q);
        assert rest != [] ==> rest[|rest| - 1] == g.ready[q][|g.ready[q]| - 1];
      } else {
        ReadyFrame(s.tasks, s'.tasks, s.queues[p].front, g.ready[p], p);
      }
    }
    assert g.ready[q] == [id] + g'.ready[q];
  }

  lemma PopDependencies(s: State, g: Shape, w: WorkerId, q: nat)
    requires Dependencies(s, g) && CanPop(s, w, q) && q < |g.ready| && |g.ready[q]| > 0
    requires s.tasks[s.queues[q].front].unmet == 0
    ensures Dependencies(PopTask(s, w, q), PopShape(s, g, w, q))
  {
    PopCounters(s, w, q);
    PopSerials(s, g, w, q);
    PopChains(s, g, w, q);
    PopOrder(s, g, w, q);
  }

  lemma PopCounters(s: State, w: WorkerId, q: nat)
    requires Counters(s) && CanPop(s, w, q) && s.tasks[s.queues[q].front].unmet == 0
    ensures Counters(PopTask(s, w, q))
  {
    forall r | r in s.dependents
      ensures s.dependents[r].from != s.queues[q].front
    {
      assert r in Waits(s.dependents, s.dependents[r].from);
    }
  }

  lemma PopHolds(s: State, w: WorkerId, q: nat, h: Holder)
    requires CanPop(s, w, q)
    ensures Holds(PopTask(s, w, q), h) <==>
              ((Holds(s, h) && h != Registered(s.queues[q].front)) || h == Working(w))
    ensures Holds(PopTask(s, w, q), h) ==>
              HeldTask(PopTask(s, w, q), h) ==
                (if h == Working(w) then s.tasks[s.queues[q].front] else HeldTask(s, h))
  {
  }

  lemma PopSerials(s: State, g: Shape, w: WorkerId, q: nat)
    requires Serials(s, g) && CanPop(s, w, q) && q < |g.ready| && |g.ready[q]| > 0
    requires s.tasks[s.queues[q].front].unmet == 0
    ensures Serials(PopTask(s, w, q), PopShape(s, g, w, q))
  {
    assert Holds(s, Registered(s.queues[q].front)) && !Holds(s, Working(w));
    forall h {
      PopHolds(s, w, q, h);
    }
  }

  lemma PopChains(s: State, g: Shape, w: WorkerId, q: nat)
    requires Chains(s, g) && Serials(s, g)
    requires CanPop(s, w, q) && q < |g.ready| && |g.ready[q]| > 0
    ensures Chains(PopTask(s, w, q), PopShape(s, g, w, q))
  {
    var s', g' := PopTask(s, w, q), PopShape(s, g, w, q);
    assert Holds(s, Registered(s.queues[q].front));
    forall h | Holds(s', h) && HeldTask(s', h).serial in g'.chains
      ensures Chain(s'.dependents, HeldTask(s', h).firstDependent, g'.chains[HeldTask(s', h).serial])
    {
      PopHolds(s, w, q, h);
    }
  }

  lemma PopOrder(s: State, g: Shape, w: WorkerId, q: nat)
    requires Ordered(s) && CanPop(s, w, q) && q < |g.ready| && |g.ready[q]| > 0
    ensures Ordered(PopTask(s, w, q))
  {
  }

  // ---- run_task ----

  lemma ReturnInv(s: State, g: Shape, w: WorkerId)
    requires InvWith(s, g, {}) && w in s.jobs && s.jobs[w].Running?
    ensures InvWith(Return(s, w), g, {})
  {
    var s' := Return(s, w);
    SchedulingFrame(s, s', g, {});
    DependenciesFrame(s, s', g, g);
  }

  // ---- signal_dependents ----

  function DecrementShape(s: State, g: Shape, w: WorkerId): Shape
    requires CanSignal(s, w) && s.jobs[w].task.serial in g.chains && |g.chains[s.jobs[w].task.serial]| > 0
  {
    var n := s.jobs[w].task.serial;
    g.(chains := g.chains[n := g.chains[n][1..]])
  }

  /** A popped task has a record left exactly if its list is not empty. */
  lemma FirstRecord(s: State, g: Shape, w: WorkerId)
    requires Chains(s, g) && Serials(s, g) && INVALID_DEPENDENT !in s.dependents && w in s.jobs
    ensures s.jobs[w].task.serial in g.chains
    ensures var first, chain := s.jobs[w].task.firstDependent, g.chains[s.jobs[w].task.serial];
            && (first == INVALID_DEPENDENT <==> chain == [])
            && (chain != [] ==> first == chain[0] && first in s.dependents)
  {
    assert Holds(s, Working(w));
    assert Chain(s.dependents, s.jobs[w].task.firstDependent, g.chains[s.jobs[w].task.serial]);
  }

  /** A record names a registered task that waits. */
  lemma RecordWaits(s: State, r: DependentId)
    requires Counters(s) && r in s.dependents
    ensures s.dependents[r].from in s.tasks && s.tasks[s.dependents[r].from].unmet > 0
  {
    assert r in Waits(s.dependents, s.dependents[r].from);
  }

  lemma AffinityHasQueue(s: State, g: Shape, id: TaskId)
    requires Scheduling(s, g, {}) && id in s.tasks
    ensures QueueOf(s.tasks[id].affinity) < |s.queues|
  {
  }

  /** Signalling never stops before the end of the list. */
  lemma SignalContinues(s: State, g: Shape, w: WorkerId)
    requires InvWith(s, g, {}) && w in s.jobs && s.jobs[w].Returned?
    requires s.jobs[w].task.firstDependent != INVALID_DEPENDENT
    ensures CanSignal(s, w)
  {
    FirstRecord(s, g, w);
    RecordWaits(s, s.jobs[w].task.firstDependent);
    AffinityHasQueue(s, g, s.dependents[s.jobs[w].task.firstDependent].from);
  }

  lemma DecrementInv(s: State, g: Shape, w: WorkerId)
    requires InvWith(s, g, {}) && CanSignal(s, w)
    ensures s.jobs[w].task.serial in g.chains && |g.chains[s.jobs[w].task.serial]| > 0
    ensures InvWith(Decrement(s, w), DecrementShape(s, g, w), {s.dependents[s.jobs[w].task.firstDependent].from})
  {
    FirstRecord(s, g, w);
    RecordWaits(s, s.jobs[w].task.firstDependent);
    DecrementScheduling(s, g, w);
    DecrementDependencies(s, g, w);
  }

  lemma DecrementScheduling(s: State, g: Shape, w: WorkerId)
    requires Scheduling(s, g, {}) && CanSignal(s, w)
    requires s.jobs[w].task.serial in g.chains && |g.chains[s.jobs[w].task.serial]| > 0
    requires s.tasks[s.dependents[s.jobs[w].task.firstDependent].from].unmet > 0
    ensures Scheduling(Decrement(s, w), DecrementShape(s, g, w),
                       {s.dependents[s.jobs[w].task.firstDependent].from})
  {
    var s' := Decrement(s, w);
    var from := s.dependents[s.jobs[w].task.firstDependent].from;
    SchedulingDefer(s, g, from);
    SchedulingFrame(s, s', g, {from});
  }

  lemma SchedulingDefer(s: State, g: Shape, id: TaskId)
    requires Scheduling(s, g, {}) && id in s.tasks && s.tasks[id].unmet > 0
    ensures Scheduling(s, g, {id})
  {
    forall q | 0 <= q < |g.ready|
      ensures id !in g.ready[q]
    {
      assert Queue(s, g.ready[q], q);
      ReadyMembers(s.tasks, s.queues[q].front, g.ready[q], q);
    }
  }

  lemma DecrementDependencies(s: State, g: Shape, w: WorkerId)
    requires Dependencies(s, g) && CanSignal(s, w)
    requires s.jobs[w].task.serial in g.chains && |g.chains[s.jobs[w].task.serial]| > 0
    requires s.jobs[w].task.firstDependent == g.chains[s.jobs[w].task.serial][0]
    requires s.tasks[s.dependents[s.jobs[w].task.firstDependent].from].unmet > 0
    ensures Dependencies(Decrement(s, w), DecrementShape(s, g, w))
  {
    assert Holds(s, Working(w));
    var n := s.jobs[w].task.serial;
    assert Chain(s.dependents, s.jobs[w].task.firstDependent, g.chains[n]);
    OwnersRemove(s.dependents, g.chains, n);
    DecrementCounters(s, w);
    DecrementChains(s, g, w);
    DecrementOrder(s, g, w);
  }

  lemma OwnersRemove(
    dependents: map<DependentId, Dependent>, chains: map<nat, seq<DependentId>>, n: nat)
    requires Owners(dependents, chains) && n in chains && |chains[n]| > 0
    requires chains[n][0] !in chains[n][1..]
    ensures Owners(dependents - {chains[n][0]}, chains[n := chains[n][1..]])
  {
    var record, chains' := chains[n][0], chains[n := chains[n][1..]];
    assert chains[n] == [record] + chains'[n];
    forall r | r in dependents && r != record
      ensures r in chains'[dependents[r].of]
    {
      assert r in chains[dependents[r].of];
    }
    forall m, r | m in chains' && r in chains'[m]
      ensures r in dependents && dependents[r].of == m && r != record
    {
      assert r in chains[m];
      assert record in chains[n];
    }
  }

  lemma WaitsRemove(dependents: map<DependentId, Dependent>, record: DependentId, id: TaskId)
    requires record in dependents
    ensures |Waits(dependents - {record}, id)| == |Waits(dependents, id)| - (if dependents[record].from == id then 1 else 0)
  {
    assert Waits(dependents - {record}, id) ==
             Waits(dependents, id) - (if dependents[record].from == id then {record} else {});
  }

  lemma DecrementCounters(s: State, w: WorkerId)
    requires Counters(s) && CanSignal(s, w)
    requires s.tasks[s.dependents[s.jobs[w].task.firstDependent].from].unmet > 0
    ensures Counters(Decrement(s, w))
  {
    var s' := Decrement(s, w);
    var record := s.jobs[w].task.firstDependent;
    var from := s.dependents[record].from;
    assert s'.dependents.Keys == s.dependents.Keys - {record};
    WaitsBounded(s.dependents, from);
    forall x | x in s'.tasks
      ensures s'.tasks[x].unmet == |Waits(s'.dependents, x)|
    {
      WaitsRemove(s.dependents, record, x);
      assert s'.tasks[x].unmet == s.tasks[x].unmet - (if x == from then 1 else 0);
    }
  }

  lemma DecrementHolds(s: State, w: WorkerId, h: Holder)
    requires CanSignal(s, w)
    ensures Holds(Decrement(s, w), h) == Holds(s, h)
    ensures Holds(s, h) ==>
              var t := HeldTask(Decrement(s, w), h);
              && t.serial == HeldTask(s, h).serial
              && t.firstDependent == (if h == Working(w) then s.dependents[s.jobs[w].task.firstDependent].next
                                      else HeldTask(s, h).firstDependent)
              && (h.Working? ==> t.unmet == HeldTask(s, h).unmet)
  {
  }

  lemma DecrementChains(s: State, g: Shape, w: WorkerId)
    requires Chains(s, g) && Serials(s, g) && Owners(s.dependents, g.chains) && CanSignal(s, w)
    requires s.jobs[w].task.serial in g.chains && |g.chains[s.jobs[w].task.serial]| > 0
    requires s.jobs[w].task.firstDependent == g.chains[s.jobs[w].task.serial][0]
    ensures Chains(Decrement(s, w), DecrementShape(s, g, w))
  {
    var s', g' := Decrement(s, w), DecrementShape(s, g, w);
    var n := s.jobs[w].task.serial;
    var record := g.chains[n][0];
    assert Holds(s, Working(w));
    assert record in g.chains[n];
    forall h | Holds(s', h) && HeldTask(s', h).serial in g'.chains
      ensures Chain(s'.dependents, HeldTask(s', h).firstDependent, g'.chains[HeldTask(s', h).serial])
    {
      DecrementHolds(s, w, h);
      var chain := g.chains[HeldTask(s, h).serial];
      assert Chain(s.dependents, HeldTask(s, h).firstDependent, chain);
      if h == Working(w) {
        ChainFrame(s.dependents, s'.dependents, s.dependents[record].next, chain[1..]);
      } else {
        assert record !in chain;
        ChainFrame(s.dependents, s'.dependents, HeldTask(s, h).firstDependent, chain);
      }
    }
  }

  lemma DecrementOrder(s: State, g: Shape, w: WorkerId)
    requires Ordered(s) && Serials(s, g) && CanSignal(s, w)
    requires s.jobs[w].task.serial in g.chains && |g.chains[s.jobs[w].task.serial]| > 0
    ensures Ordered(Decrement(s, w))
    ensures Serials(Decrement(s, w), DecrementShape(s, g, w))
  {
    var s', g' := Decrement(s, w), DecrementShape(s, g, w);
    forall h
      ensures Holds(s', h) == Holds(s, h)
      ensures Holds(s, h) ==> HeldTask(s', h).serial == HeldTask(s, h).serial
    {
      DecrementHolds(s, w, h);
    }
    assert Serials(s', g');
    assert Ordered(s');
  }

  lemma SignalOneInv(s: State, g: Shape, w: WorkerId)
    requires InvWith(s, g, {}) && CanSignal(s, w)
    ensures Inv(SignalOne(s, w))
  {
    DecrementInv(s, g, w);
    ScheduleIfReadyInv(Decrement(s, w), DecrementShape(s, g, w), s.dependents[s.jobs[w].task.firstDependent].from);
  }

  lemma RetireInv(s: State, g: Shape, w: WorkerId)
    requires InvWith(s, g, {}) && w in s.jobs && s.jobs[w].task.firstDependent == INVALID_DEPENDENT
    ensures Inv(s.(jobs := s.jobs - {w}))
  {
    FirstRecord(s, g, w);
    var s' := s.(jobs := s.jobs - {w});
    var n := s.jobs[w].task.serial;
    var g' := g.(chains := g.chains - {n}, holder := g.holder - {n});
    SchedulingFrame(s, s', g, {});
    assert Scheduling(s', g', {});
    RetireDependencies(s, g, w, s', g');
    assert InvWith(s', g', {});
  }

  lemma RetireDependencies(s: State, g: Shape, w: WorkerId, s': State, g': Shape)
    requires Dependencies(s, g) && w in s.jobs
    requires s.jobs[w].task.serial in g.chains && g.chains[s.jobs[w].task.serial] == []
    requires s' == s.(jobs := s.jobs - {w})
    requires g' == g.(chains := g.chains - {s.jobs[w].task.serial}, holder := g.holder - {s.jobs[w].task.serial})
    ensures Dependencies(s', g')
  {
    RetireChains(s, g, w, s', g');
    OwnersRetire(s.dependents, g.chains, s.jobs[w].task.serial);
  }

  lemma RetireChains(s: State, g: Shape, w: WorkerId, s': State, g': Shape)
    requires Chains(s, g) && Serials(s, g) && w in s.jobs
    requires s' == s.(jobs := s.jobs - {w})
    requires g' == g.(chains := g.chains - {s.jobs[w].task.serial}, holder := g.holder - {s.jobs[w].task.serial})
    ensures Chains(s', g') && Serials(s', g')
  {
    assert Holds(s, Working(w));
    forall h
      ensures Holds(s', h) <==> (Holds(s, h) && h != Working(w))
      ensures Holds(s', h) ==> HeldTask(s', h) == HeldTask(s, h)
    {}
    assert Serials(s', g');
    assert Chains(s', g');
  }

  lemma OwnersRetire(
    dependents: map<DependentId, Dependent>, chains: map<nat, seq<DependentId>>, n: nat)
    requires Owners(dependents, chains) && n in chains && chains[n] == []
    ensures Owners(dependents, chains - {n})
  {
  }

  lemma SignalStep(s: State, w: WorkerId)
    requires Inv(s) && w in s.jobs && s.jobs[w].Returned?
    ensures s.jobs[w].task.firstDependent == INVALID_DEPENDENT ==> Inv(s.(jobs := s.jobs - {w}))
    ensures s.jobs[w].task.firstDependent != INVALID_DEPENDENT ==> CanSignal(s, w) && Inv(SignalOne(s, w))
  {
    var g :| InvWith(s, g, {});
    if s.jobs[w].task.firstDependent == INVALID_DEPENDENT {
      RetireInv(s, g, w);
    } else {
      SignalContinues(s, g, w);
      SignalOneInv(s, g, w);
    }
  }

  lemma {:induction false} SignalInv(s: State, w: WorkerId)
    requires Inv(s) && w in s.jobs && s.jobs[w].Returned?
    ensures Inv(SignalDependents(s, w))
    decreases |s.dependents|
  {
    SignalStep(s, w);
    if s.jobs[w].task.firstDependent != INVALID_DEPENDENT {
      SignalInv(SignalOne(s, w), w);
    }
  }

  /** Every critical section keeps the invariant. */
  lemma NextInv(s: State, a: Action)
    requires Inv(s) && Enabled(s, a)
    ensures Inv(Next(s, a))
  {
    var g :| InvWith(s, g, {});
    match a
    case Add(id, affinity, dependsOn, records) => AddTaskInv(s, g, id, affinity, dependsOn, records);
    case Pop(w, q) => PopInv(s, g, w, q);
    case Finish(w) => ReturnInv(s, g, w);
    case Signal(w) => SignalInv(s, w);
  }
}
