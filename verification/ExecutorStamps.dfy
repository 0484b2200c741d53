/** What the 16-bit stamps are for: of two ready tasks the one that became ready first is
    to be taken first. The stamps wrap, and this says exactly when it is. */
module ExecutorStamps {
  import opened Executor
  import opened ExecutorSafety
  import opened ExecutorRuns
  import opened ExecutorTheorems
  import opened ExecutorAffinity

  /** For each ready task how many tasks had become ready before it. */
  type Order = map<TaskId, nat>

  /** The tasks that are not ready yet: those that still wait for others, and those in
      `pending`, which are about to be scheduled if they do not. */
  ghost function Unready(s: State, pending: set<TaskId>): set<TaskId> {
    set id | id in s.tasks && (s.tasks[id].unmet > 0 || id in pending)
  }

  /** How many tasks have become ready so far. */
  ghost function Readied(s: State, pending: set<TaskId>): int {
    s.born - |Unready(s, pending)|
  }

  ghost predicate IsReady(s: State, pending: set<TaskId>, id: TaskId) {
    id in s.tasks && s.tasks[id].unmet == 0 && id !in pending
  }

  /** The stamp of a ready task is its place in the order, as far as 16 bits go. */
  ghost predicate Ordered(s: State, pending: set<TaskId>, order: Order) {
    && 0 <= Readied(s, pending)
    && s.nextStamp == Readied(s, pending) % WORD16
    && (forall id :: IsReady(s, pending, id) ==>
          id in order && order[id] < Readied(s, pending) && s.tasks[id].stamp == order[id] % WORD16)
    && (forall x, y :: IsReady(s, pending, x) && IsReady(s, pending, y) && x != y ==> order[x] != order[y])
  }

  /** The places below `mark` are those of the tasks with serials in `early`. */
  ghost predicate Marked(s: State, pending: set<TaskId>, order: Order, mark: int, early: set<nat>) {
    && mark <= Readied(s, pending)
    && (forall n :: n in early ==> n < s.born)
    && (forall id :: id in s.tasks ==>
          if IsReady(s, pending, id) then id in order && (order[id] < mark <==> s.tasks[id].serial in early)
          else s.tasks[id].serial !in early)
  }

  /** What has been ordered stays so. */
  ghost predicate Follows(
    s: State, pending: set<TaskId>, order: Order, s': State, pending': set<TaskId>, order': Order)
  {
    && Ordered(s', pending', order')
    && forall mark: int, early: set<nat> ::
         Marked(s, pending, order, mark, early) ==> Marked(s', pending', order', mark, early)
  }

  lemma FollowsOn(
    s: State, p: set<TaskId>, o: Order, s1: State, p1: set<TaskId>, o1: Order, s2: State, p2: set<TaskId>, o2: Order)
    requires Follows(s, p, o, s1, p1, o1) && Follows(s1, p1, o1, s2, p2, o2)
    ensures Follows(s, p, o, s2, p2, o2)
  {
    hide Marked, Ordered;
  }

  // ---- the sections ----

  /** A step that changes no counter and no stamp. */
  lemma SameStamps(s: State, s': State, pending: set<TaskId>, order: Order)
    requires Ordered(s, pending, order) && s'.born == s.born && s'.nextStamp == s.nextStamp
    requires s'.tasks.Keys == s.tasks.Keys
    requires forall id :: id in s.tasks ==>
               && s'.tasks[id].serial == s.tasks[id].serial && s'.tasks[id].stamp == s.tasks[id].stamp
               && (id !in pending ==> s'.tasks[id].unmet == s.tasks[id].unmet)
    ensures Follows(s, pending, order, s', pending, order)
  {
    assert Unready(s', pending) == Unready(s, pending);
    assert forall id :: IsReady(s', pending, id) <==> IsReady(s, pending, id);
    hide Unready, IsReady;
  }

  lemma InsertReady(s: State, id: TaskId, affinity: nat)
    requires id !in s.tasks
    ensures Readied(Insert(s, id, affinity), {id}) == Readied(s, {})
    ensures forall x :: IsReady(s, {}, x) ==> x in s.tasks
    ensures forall x :: IsReady(Insert(s, id, affinity), {id}, x) <==> IsReady(s, {}, x)
  {
    assert Unready(Insert(s, id, affinity), {id}) == Unready(s, {}) + {id};
  }

  lemma InsertStamps(s: State, id: TaskId, affinity: nat, order: Order)
    requires Ordered(s, {}, order) && id !in s.tasks
    ensures Follows(s, {}, order, Insert(s, id, affinity), {id}, order)
  {
    InsertReady(s, id, affinity);
    assert !IsReady(s, {}, id);
    hide Readied, IsReady;
  }

  /** The counter of a waiting task goes down; it may have become ready. */
  lemma DecrementStamps(s: State, w: WorkerId, order: Order)
    requires Ordered(s, {}, order) && CanSignal(s, w)
    requires s.tasks[s.dependents[s.jobs[w].task.firstDependent].from].unmet > 0
    ensures Follows(s, {}, order, Decrement(s, w), {s.dependents[s.jobs[w].task.firstDependent].from}, order)
  {
    var id := s.dependents[s.jobs[w].task.firstDependent].from;
    var s' := Decrement(s, w);
    assert Unready(s', {id}) == Unready(s, {});
    assert forall x :: IsReady(s', {id}, x) <==> IsReady(s, {}, x);
    hide Unready, IsReady;
  }

  lemma ScheduleReady(s: State, id: TaskId)
    requires id in s.tasks && QueueOf(s.tasks[id].affinity) < |s.queues| && s.tasks[id].unmet == 0
    ensures Readied(Schedule(s, id), {}) == Readied(s, {id}) + 1
    ensures forall x :: IsReady(Schedule(s, id), {}, x) <==> x == id || IsReady(s, {id}, x)
  {
    assert Unready(Schedule(s, id), {}) == Unready(s, {id}) - {id};
    assert id in Unready(s, {id});
  }

  /** The task that is scheduled is the last in the order. */
  lemma ScheduleStamps(s: State, id: TaskId, order: Order) returns (order': Order)
    requires id in s.tasks && QueueOf(s.tasks[id].affinity) < |s.queues| && s.tasks[id].unmet == 0
    requires Ordered(s, {id}, order)
    ensures Follows(s, {id}, order, Schedule(s, id), {}, order')
  {
    order' := order[id := Readied(s, {id})];
    ScheduleReady(s, id);
    assert !IsReady(s, {id}, id);
    assert Schedule(s, id).nextStamp == Readied(Schedule(s, id), {}) % WORD16;
    hide Readied, IsReady;
  }

  lemma WaitingStamps(s: State, id: TaskId, order: Order)
    requires id in s.tasks && s.tasks[id].unmet > 0 && Ordered(s, {id}, order)
    ensures Follows(s, {id}, order, s, {}, order)
  {
    assert Unready(s, {}) == Unready(s, {id});
    assert forall x :: IsReady(s, {}, x) <==> IsReady(s, {id}, x);
    hide Unready, IsReady;
  }

  lemma ScheduleIfReadyStamps(s: State, id: TaskId, order: Order) returns (order': Order)
    requires id in s.tasks && QueueOf(s.tasks[id].affinity) < |s.queues| && Ordered(s, {id}, order)
    ensures Follows(s, {id}, order, ScheduleIfReady(s, id), {}, order')
  {
    hide Ordered, Marked;
    order' := order;
    if s.tasks[id].unmet == 0 {
      order' := ScheduleStamps(s, id, order);
    } else {
      WaitingStamps(s, id, order);
    }
    hide Schedule;
  }

  lemma PopStamps(s: State, w: WorkerId, q: nat, order: Order)
    requires Ordered(s, {}, order) && CanPop(s, w, q) && s.tasks[s.queues[q].front].unmet == 0
    ensures Follows(s, {}, order, PopTask(s, w, q), {}, order)
  {
    var s' := PopTask(s, w, q);
    assert Unready(s', {}) == Unready(s, {});
    assert forall x :: IsReady(s', {}, x) <==> IsReady(s, {}, x) && x != s.queues[q].front;
    hide Unready, IsReady;
  }

  lemma {:induction false} LinkFirstStamps(
    s: State, id: TaskId, dependsOn: seq<TaskId>, records: seq<DependentId>, k: nat)
    requires id in s.tasks && k <= |dependsOn| == |records|
    ensures var s' := LinkFirst(s, id, dependsOn, records, k);
      && s'.tasks.Keys == s.tasks.Keys
      && (forall x :: x in s.tasks ==>
            && s'.tasks[x].serial == s.tasks[x].serial && s'.tasks[x].stamp == s.tasks[x].stamp
            && (x != id ==> s'.tasks[x].unmet == s.tasks[x].unmet))
  {
    if k > 0 {
      LinkFirstStamps(s, id, dependsOn, records, k - 1);
    }
  }

  lemma AddStamps(s: State, a: Action, order: Order) returns (order': Order)
    requires Enabled(s, a) && a.Add? && Ordered(s, {}, order)
    ensures Follows(s, {}, order, Next(s, a), {}, order')
  {
    hide Ordered, Marked, LinkFirst, ScheduleIfReady;
    var s1 := Insert(s, a.id, a.affinity);
    InsertStamps(s, a.id, a.affinity, order);
    var s2 := LinkFirst(s1, a.id, a.dependsOn, a.records, |a.dependsOn|);
    LinkFirstStamps(s1, a.id, a.dependsOn, a.records, |a.dependsOn|);
    LinkFirstBorn(s1, a.id, a.dependsOn, a.records, |a.dependsOn|);
    SameStamps(s1, s2, {a.id}, order);
    FollowsOn(s, {}, order, s1, {a.id}, order, s2, {a.id}, order);
    order' := ScheduleIfReadyStamps(s2, a.id, order);
    FollowsOn(s, {}, order, s2, {a.id}, order, Next(s, a), {}, order');
  }

  lemma FirstRecordWaits(s: State, w: WorkerId)
    requires Inv(s) && CanSignal(s, w)
    ensures s.tasks[s.dependents[s.jobs[w].task.firstDependent].from].unmet > 0
  {
    var g :| InvWith(s, g, {});
    RecordWaits(s, s.jobs[w].task.firstDependent);
  }

  lemma SignalOneStamps(s: State, w: WorkerId, order: Order) returns (order': Order)
    requires Inv(s) && CanSignal(s, w) && Ordered(s, {}, order)
    ensures Follows(s, {}, order, SignalOne(s, w), {}, order')
  {
    hide Inv, Ordered, Marked;
    FirstRecordWaits(s, w);
    DecrementStamps(s, w, order);
    var s1, id := Decrement(s, w), s.dependents[s.jobs[w].task.firstDependent].from;
    order' := ScheduleIfReadyStamps(s1, id, order);
    FollowsOn(s, {}, order, s1, {id}, order, SignalOne(s, w), {}, order');
  }

  lemma {:induction false} SignalStamps(s: State, w: WorkerId, order: Order) returns (order': Order)
    requires Inv(s) && w in s.jobs && s.jobs[w].Returned? && Ordered(s, {}, order)
    ensures Follows(s, {}, order, SignalDependents(s, w), {}, order')
    decreases |s.dependents|
  {
    hide Inv, Ordered, Marked;
    SignalStep(s, w);
    if s.jobs[w].task.firstDependent == INVALID_DEPENDENT {
      order' := order;
      SameStamps(s, s.(jobs := s.jobs - {w}), {}, order);
    } else {
      var order1 := SignalOneStamps(s, w, order);
      order' := SignalStamps(SignalOne(s, w), w, order1);
      FollowsOn(s, {}, order, SignalOne(s, w), {}, order1, SignalDependents(s, w), {}, order');
    }
  }

  lemma FrontIsReady(s: State, q: nat)
    requires Inv(s) && q < |s.queues| && s.queues[q].front != INVALID_TASK
    ensures IsReady(s, {}, s.queues[q].front)
  {
    var g :| InvWith(s, g, {});
    assert Queue(s, g.ready[q], q);
    FrontOfQueue(s, g, q);
  }

  lemma ReturnStamps(s: State, w: WorkerId, order: Order)
    requires Ordered(s, {}, order) && w in s.jobs && s.jobs[w].Running?
    ensures Follows(s, {}, order, Return(s, w), {}, order)
  {
    SameStamps(s, Return(s, w), {}, order);
    hide Ordered, Marked;
  }

  lemma StepStamps(s: State, a: Action, s': State, order: Order) returns (order': Order)
    requires Inv(s) && Leads(s, a, s') && Ordered(s, {}, order)
    ensures Follows(s, {}, order, s', {}, order')
  {
    hide Inv, Ordered, Marked, AddTask, SignalDependents, Return, PopTask;
    order' := order;
    match a
    case Add(_, _, _, _) =>
      order' := AddStamps(s, a, order);
    case Pop(w, q) =>
      FrontIsReady(s, q);
      PopStamps(s, w, q, order);
    case Finish(w) =>
      ReturnStamps(s, w, order);
    case Signal(w) =>
      order' := SignalStamps(s, w, order);
  }

  // ---- runs ----

  /** The serials of the tasks that are ready. */
  ghost function ReadySerials(s: State): set<nat> {
    set id | id in s.tasks && IsReady(s, {}, id) :: s.tasks[id].serial
  }

  /** The order of state s agrees with what was ready in s0. */
  ghost predicate Remembers(s: State, order: Order, s0: State) {
    Marked(s, {}, order, Readied(s0, {}), ReadySerials(s0))
  }

  lemma InitStamps()
    ensures Ordered(Init(), {}, map[])
  {
    assert Unready(Init(), {}) == {};
  }

  lemma TaskSerials(s: State)
    requires Inv(s)
    ensures forall x :: x in s.tasks ==> s.tasks[x].serial < s.born
    ensures forall x, y :: x in s.tasks && y in s.tasks && s.tasks[x].serial == s.tasks[y].serial ==> x == y
  {
    var g :| InvWith(s, g, {});
    forall x, y | x in s.tasks && y in s.tasks
      ensures s.tasks[x].serial < s.born && (s.tasks[x].serial == s.tasks[y].serial ==> x == y)
    {
      SerialsUnique(s, g, Registered(x), Registered(y));
    }
    hide InvWith, Inv;
  }

  lemma RemembersItself(s: State, order: Order)
    requires Inv(s) && Ordered(s, {}, order)
    ensures Remembers(s, order, s)
  {
    hide Inv;
    TaskSerials(s);
    hide Readied;
    forall id | id in s.tasks
      ensures s.tasks[id].serial in ReadySerials(s) <==> IsReady(s, {}, id)
    {
      if s.tasks[id].serial in ReadySerials(s) {
        var x :| x in s.tasks && IsReady(s, {}, x) && s.tasks[x].serial == s.tasks[id].serial;
        assert x == id;
      }
    }
    hide IsReady;
  }

  /** The order that the stamps of state k stand for agrees with what was ready in every
      earlier state. */
  ghost predicate InOrder(states: seq<State>, k: nat, order: Order) {
    && k < |states| && Ordered(states[k], {}, order)
    && forall j :: 0 <= j <= k ==> Remembers(states[k], order, states[j])
  }

  lemma FollowsRemembers(s: State, order: Order, s': State, order': Order, s0: State)
    requires Follows(s, {}, order, s', {}, order') && Remembers(s, order, s0)
    ensures Remembers(s', order', s0)
  {
    hide Marked, Ordered;
  }

  /** Over every run, however long: the tasks that are ready stand in the order in which
      they became ready, and their stamps are their places in it modulo 2^16. */
  lemma {:induction false} RunOrder(states: seq<State>, acts: seq<Action>, k: nat) returns (order: Order)
    requires IsRun(states, acts) && k <= |acts|
    ensures InOrder(states, k, order)
    decreases k
  {
    hide Inv, Leads, Ordered, Remembers, Follows;
    RunInvAt(states, acts, k);
    if k == 0 {
      order := map[];
      InitStamps();
      RemembersItself(states[0], order);
    } else {
      RunStep(states, acts, k - 1);
      hide IsRun;
      var order1 := RunOrder(states, acts, k - 1);
      order := StepStamps(states[k - 1], acts[k - 1], states[k], order1);
      FollowsOrdered(states[k - 1], order1, states[k], order);
      RemembersItself(states[k], order);
      forall j | 0 <= j < k
        ensures Remembers(states[k], order, states[j])
      {
        FollowsRemembers(states[k - 1], order1, states[k], order, states[j]);
      }
    }
  }

  lemma FollowsOrdered(s: State, order: Order, s': State, order': Order)
    requires Follows(s, {}, order, s', {}, order')
    ensures Ordered(s', {}, order')
  {
  }

  lemma RunInvAt(states: seq<State>, acts: seq<Action>, k: nat)
    requires IsRun(states, acts) && k <= |acts|
    ensures |states| == |acts| + 1 && Inv(states[k])
    ensures k == 0 ==> states[k] == Init()
  {
    RunInv(states, acts, k);
  }

  lemma NotInvalid(s: State)
    requires Inv(s)
    ensures INVALID_TASK !in s.tasks
  {
  }

  /** Two fronts that a worker with an affinity chooses from, the first of which was ready
      at an earlier moment, when the other was not. */
  ghost predicate EarlierFront(s0: State, s: State, affinity: nat, q: nat, p: nat) {
    && affinity < MAX_THREADS && |s.queues| == MAX_THREADS + 1
    && ((q == GLOBAL && p == affinity) || (q == affinity && p == GLOBAL))
    && s.queues[q].front in s.tasks && s.queues[p].front in s.tasks
    && s.tasks[s.queues[q].front].serial in ReadySerials(s0)
    && s.tasks[s.queues[p].front].serial !in ReadySerials(s0)
  }

  lemma EarlierPlaces(s: State, order: Order, s0: State, affinity: nat, q: nat, p: nat)
    requires Inv(s) && Ordered(s, {}, order) && Remembers(s, order, s0) && EarlierFront(s0, s, affinity, q, p)
    ensures var x, y := s.queues[q].front, s.queues[p].front;
      && x in order && y in order && order[x] < order[y] < Readied(s, {})
      && s.tasks[x].stamp == order[x] % WORD16 && s.tasks[y].stamp == order[y] % WORD16
    ensures Choosable(s, affinity)
  {
    NotInvalid(s);
    FrontIsReady(s, q);
    FrontIsReady(s, p);
    hide Inv, IsReady, Readied, ReadySerials;
  }

  /** So over every run a worker takes the front that became ready first if and only if
      its place is also the smaller one modulo 2^16; if the remainders are equal, it takes
      its own. It always does while at most 2^16 tasks have become ready. */
  lemma EarlierIsTakenIff(
    states: seq<State>, acts: seq<Action>, j: nat, k: nat, affinity: nat, q: nat, p: nat) returns (order: Order)
    requires IsRun(states, acts) && j <= k <= |acts| && EarlierFront(states[j], states[k], affinity, q, p)
    ensures InOrder(states, k, order)
    ensures var s := states[k];
      var x, y := s.queues[q].front, s.queues[p].front;
      && x in order && y in order && order[x] < order[y] && Choosable(s, affinity)
      && (ChooseQueue(s, affinity) == q <==>
            order[x] % WORD16 < order[y] % WORD16 || (q == affinity && order[x] % WORD16 == order[y] % WORD16))
      && (Readied(s, {}) <= WORD16 ==> ChooseQueue(s, affinity) == q)
  {
    hide Inv, EarlierFront, Ordered, Remembers, Readied;
    order := RunOrder(states, acts, k);
    RunInvAt(states, acts, k);
    hide IsRun;
    EarlierPlaces(states[k], order, states[j], affinity, q, p);
    NotInvalid(states[k]);
    Chosen(states[k], affinity, order, states[j], q, p);
  }

  lemma Chosen(s: State, affinity: nat, order: Order, s0: State, q: nat, p: nat)
    requires EarlierFront(s0, s, affinity, q, p) && Choosable(s, affinity)
    requires var x, y := s.queues[q].front, s.queues[p].front;
      && x in order && y in order && order[x] < order[y] < Readied(s, {})
      && s.tasks[x].stamp == order[x] % WORD16 && s.tasks[y].stamp == order[y] % WORD16
    requires INVALID_TASK !in s.tasks
    ensures var x, y := s.queues[q].front, s.queues[p].front;
      && (ChooseQueue(s, affinity) == q <==>
            order[x] % WORD16 < order[y] % WORD16 || (q == affinity && order[x] % WORD16 == order[y] % WORD16))
      && (Readied(s, {}) <= WORD16 ==> ChooseQueue(s, affinity) == q)
  {
    hide Readied, ReadySerials;
  }
}
