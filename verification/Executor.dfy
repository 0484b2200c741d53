/** The dependency-graph executor, as the state its mutex protects and the critical
    sections that change it. Closures are opaque and run between two sections. */
module Executor {

  type TaskId = nat
  type DependentId = nat
  type WorkerId = nat

  const MAX_THREADS: nat := 16
  const NO_AFFINITY: nat := 0xffff
  const INVALID_TASK: TaskId := 0xfff
  const INVALID_DEPENDENT: DependentId := 0x3fff
  const MAX_DEPENDENTS: nat := 0x3fff
  const WORD16: nat := 0x1_0000

  /** The ready queue of tasks without affinity comes after the affine ones. */
  const GLOBAL: nat := MAX_THREADS

  /** `serial` numbers the calls of `add_task`; like `of` in a record below it is only
      used to state properties. */
  datatype Task = Task(
    nextInList: TaskId, firstDependent: DependentId, unmet: nat,
    affinity: nat, stamp: nat, serial: nat)

  /** `of` is the serial of the task whose list the record is in. */
  datatype Dependent = Dependent(from: TaskId, next: DependentId, of: nat)

  datatype TaskList = TaskList(front: TaskId, back: TaskId)

  /** A task that a worker has popped: its closure has yet to return, or has
      returned and its dependents have yet to be signalled. */
  datatype Job = Running(task: Task) | Returned(task: Task)

  datatype Event = Started(serial: nat) | Ended(serial: nat)

  /** `born`, `log` and `edges` are history: how many tasks were ever added, when
      closures started and ended, and which dependencies were recorded. */
  datatype State = State(
    tasks: map<TaskId, Task>,
    dependents: map<DependentId, Dependent>,
    queues: seq<TaskList>,
    nextStamp: nat,
    jobs: map<WorkerId, Job>,
    born: nat, log: seq<Event>, edges: set<(nat, nat)>)

  predicate ValidAffinity(affinity: nat) {
    affinity == NO_AFFINITY || affinity < MAX_THREADS
  }

  function QueueOf(affinity: nat): nat {
    if affinity == NO_AFFINITY then GLOBAL else affinity
  }

  // ---- add_task ----

  function Insert(s: State, id: TaskId, affinity: nat): State {
    s.(tasks := s.tasks[id := Task(INVALID_TASK, INVALID_DEPENDENT, 0, affinity, 0, s.born)],
       born := s.born + 1)
  }

  /** Records that `id` depends on the registered task `dependency`. */
  function Link(s: State, id: TaskId, dependency: TaskId, record: DependentId): State
    requires id in s.tasks && dependency in s.tasks
  {
    var d := s.tasks[dependency];
    var tasks := s.tasks[dependency := d.(firstDependent := record)];
    var t := tasks[id];
    s.(tasks := tasks[id := t.(unmet := (t.unmet + 1) % WORD16)],
       dependents := s.dependents[record := Dependent(id, d.firstDependent, d.serial)],
       edges := s.edges + {(d.serial, t.serial)})
  }

  /** The first k dependencies linked; ids that are no longer valid are skipped. */
  function LinkFirst(s: State, id: TaskId, dependsOn: seq<TaskId>, records: seq<DependentId>, k: nat): (s': State)
    requires id in s.tasks && k <= |dependsOn| && k <= |records|
    ensures s'.tasks.Keys == s.tasks.Keys && s'.queues == s.queues
    ensures forall t :: t in s.tasks ==> s'.tasks[t].affinity == s.tasks[t].affinity
  {
    if k == 0 then s
    else
      var s1 := LinkFirst(s, id, dependsOn, records, k - 1);
      if dependsOn[k - 1] in s1.tasks then Link(s1, id, dependsOn[k - 1], records[k - 1]) else s1
  }

  function PushTask(s: State, id: TaskId, q: nat): State
    requires id in s.tasks && q < |s.queues|
  {
    var queue := s.queues[q];
    s.(tasks := s.tasks[id := s.tasks[id].(nextInList := queue.front)],
       queues := s.queues[q := TaskList(id, if queue.back == INVALID_TASK then id else queue.back)])
  }

  function Schedule(s: State, id: TaskId): State
    requires id in s.tasks && QueueOf(s.tasks[id].affinity) < |s.queues|
  {
    var t := s.tasks[id].(stamp := s.nextStamp);
    PushTask(s.(tasks := s.tasks[id := t], nextStamp := (s.nextStamp + 1) % WORD16), id, QueueOf(t.affinity))
  }

  function ScheduleIfReady(s: State, id: TaskId): State
    requires id in s.tasks && QueueOf(s.tasks[id].affinity) < |s.queues|
  {
    if s.tasks[id].unmet == 0 then Schedule(s, id) else s
  }

  /** Which ids the slot vectors hand out is left open, except that they are not in use. */
  predicate FreshRecords(s: State, id: TaskId, dependsOn: seq<TaskId>, records: seq<DependentId>) {
    && |records| == |dependsOn|
    && (forall k :: 0 <= k < |records| && dependsOn[k] in s.tasks ==>
          records[k] != INVALID_DEPENDENT && records[k] !in s.dependents)
    && (forall j, k :: 0 <= j < k < |records| && dependsOn[j] in s.tasks && dependsOn[k] in s.tasks ==>
          records[j] != records[k])
  }

  /** How many of the first k dependencies are still registered. */
  function CountValid(s: State, dependsOn: seq<TaskId>, k: nat): nat
    requires k <= |dependsOn|
  {
    if k == 0 then 0
    else CountValid(s, dependsOn, k - 1) + (if dependsOn[k - 1] in s.tasks then 1 else 0)
  }

  /** `dependsOn` holds ids of earlier calls, so never the new id. */
  predicate CanAdd(s: State, id: TaskId, affinity: nat, dependsOn: seq<TaskId>, records: seq<DependentId>) {
    && ValidAffinity(affinity)
    && id != INVALID_TASK && id !in s.tasks && id !in dependsOn
    && FreshRecords(s, id, dependsOn, records)
    && |s.dependents| + CountValid(s, dependsOn, |dependsOn|) <= MAX_DEPENDENTS
  }

  function AddTask(s: State, id: TaskId, affinity: nat, dependsOn: seq<TaskId>, records: seq<DependentId>): State
    requires CanAdd(s, id, affinity, dependsOn, records) && |s.queues| == MAX_THREADS + 1
  {
    ScheduleIfReady(LinkFirst(Insert(s, id, affinity), id, dependsOn, records, |dependsOn|), id)
  }

  // ---- running a task ----

  predicate CanPop(s: State, w: WorkerId, q: nat) {
    && w !in s.jobs && q < |s.queues|
    && s.queues[q].front != INVALID_TASK && s.queues[q].front in s.tasks
  }

  /** Takes the front task off a ready queue and out of the slot vector. */
  function PopTask(s: State, w: WorkerId, q: nat): State
    requires CanPop(s, w, q)
  {
    var queue := s.queues[q];
    var t := s.tasks[queue.front];
    s.(tasks := s.tasks - {queue.front},
       queues := s.queues[q := TaskList(t.nextInList,
                                        if t.nextInList == INVALID_TASK then INVALID_TASK else queue.back)],
       jobs := s.jobs[w := Running(t)],
       log := s.log + [Started(t.serial)])
  }

  /** The closure of the task returns. */
  function Return(s: State, w: WorkerId): State
    requires w in s.jobs && s.jobs[w].Running?
  {
    s.(jobs := s.jobs[w := Returned(s.jobs[w].task)], log := s.log + [Ended(s.jobs[w].task.serial)])
  }

  predicate CanSignal(s: State, w: WorkerId) {
    && w in s.jobs && s.jobs[w].Returned?
    && var record := s.jobs[w].task.firstDependent;
       record in s.dependents && s.dependents[record].from in s.tasks
       && QueueOf(s.tasks[s.dependents[record].from].affinity) < |s.queues|
  }

  /** Decrements the counter of the first dependent and drops its record. */
  function Decrement(s: State, w: WorkerId): State
    requires CanSignal(s, w)
  {
    var t := s.jobs[w].task;
    var d := s.dependents[t.firstDependent];
    s.(tasks := s.tasks[d.from := s.tasks[d.from].(unmet := (s.tasks[d.from].unmet - 1) % WORD16)],
       dependents := s.dependents - {t.firstDependent},
       jobs := s.jobs[w := Returned(t.(firstDependent := d.next))])
  }

  function SignalOne(s: State, w: WorkerId): (s': State)
    requires CanSignal(s, w)
    ensures w in s'.jobs && s'.jobs[w].Returned?
    ensures |s'.dependents| < |s.dependents|
    ensures s'.tasks.Keys == s.tasks.Keys && s'.jobs.Keys == s.jobs.Keys
  {
    assert |Decrement(s, w).dependents| < |s.dependents|;
    ScheduleIfReady(Decrement(s, w), s.dependents[s.jobs[w].task.firstDependent].from)
  }

  /** Walks the whole list of dependents and retires the job. */
  function SignalDependents(s: State, w: WorkerId): (s': State)
    requires w in s.jobs && s.jobs[w].Returned?
    ensures s'.tasks.Keys == s.tasks.Keys && s'.jobs.Keys == s.jobs.Keys - {w}
    decreases |s.dependents|
  {
    if s.jobs[w].task.firstDependent == INVALID_DEPENDENT || !CanSignal(s, w) then
      s.(jobs := s.jobs - {w})
    else
      SignalDependents(SignalOne(s, w), w)
  }

  /** Pops and runs a task to the end, with nothing else going on. */
  function RunOne(s: State, w: WorkerId, q: nat): (s': State)
    requires CanPop(s, w, q)
    ensures |s'.tasks| < |s.tasks| && s'.jobs.Keys == s.jobs.Keys
  {
    var s1 := PopTask(s, w, q);
    assert |s1.tasks| < |s.tasks|;
    var s' := SignalDependents(Return(s1, w), w);
    assert |s'.tasks.Keys| == |s1.tasks.Keys|;
    s'
  }

  /** One worker empties the global queue. */
  function Drain(s: State, w: WorkerId): State
    decreases |s.tasks|
  {
    if CanPop(s, w, GLOBAL) then Drain(RunOne(s, w, GLOBAL), w) else s
  }

  // ---- queue selection ----

  /** One of the two queues has a task, and the fronts are registered. */
  predicate Choosable(s: State, affinity: nat) {
    && affinity < MAX_THREADS && |s.queues| == MAX_THREADS + 1
    && (s.queues[GLOBAL].front != INVALID_TASK ==> s.queues[GLOBAL].front in s.tasks)
    && (s.queues[affinity].front != INVALID_TASK ==> s.queues[affinity].front in s.tasks)
    && (s.queues[GLOBAL].front != INVALID_TASK || s.queues[affinity].front != INVALID_TASK)
  }

  /** The queue a worker with this affinity takes its next task from: its own or the
      global one, by stamp when both have tasks. */
  function ChooseQueue(s: State, affinity: nat): (q: nat)
    requires Choosable(s, affinity)
    ensures q == GLOBAL || q == affinity
    ensures s.queues[q].front != INVALID_TASK
    ensures forall p :: (p == GLOBAL || p == affinity) && s.queues[p].front != INVALID_TASK ==>
              s.tasks[s.queues[q].front].stamp <= s.tasks[s.queues[p].front].stamp
  {
    var globalIsEmpty := s.queues[GLOBAL].front == INVALID_TASK;
    var affinityIsEmpty := s.queues[affinity].front == INVALID_TASK;
    if !(globalIsEmpty || affinityIsEmpty) then
      if s.tasks[s.queues[GLOBAL].front].stamp < s.tasks[s.queues[affinity].front].stamp then GLOBAL else affinity
    else if globalIsEmpty then affinity
    else GLOBAL
  }

  // ---- the machine ----

  datatype Action =
    | Add(id: TaskId, affinity: nat, dependsOn: seq<TaskId>, records: seq<DependentId>)
    | Pop(w: WorkerId, q: nat)
    | Finish(w: WorkerId)
    | Signal(w: WorkerId)

  predicate Enabled(s: State, a: Action) {
    && |s.queues| == MAX_THREADS + 1
    && match a
       case Add(id, affinity, dependsOn, records) => CanAdd(s, id, affinity, dependsOn, records)
       case Pop(w, q) => CanPop(s, w, q)
       case Finish(w) => w in s.jobs && s.jobs[w].Running?
       case Signal(w) => w in s.jobs && s.jobs[w].Returned?
  }

  function Next(s: State, a: Action): State
    requires Enabled(s, a)
  {
    match a
    case Add(id, affinity, dependsOn, records) => AddTask(s, id, affinity, dependsOn, records)
    case Pop(w, q) => PopTask(s, w, q)
    case Finish(w) => Return(s, w)
    case Signal(w) => SignalDependents(s, w)
  }

  function Init(): State {
    State(map[], map[], seq(MAX_THREADS + 1, _ => TaskList(INVALID_TASK, INVALID_TASK)), 0, map[], 0, [], {})
  }
}
