/** What holds along every run of the executor: the order in which closures run, and
    that each task runs exactly once. */
module ExecutorRuns {
  import opened Executor
  import opened ExecutorSafety
  import opened ExecutorTheorems

  // ---- the log ----

  /** Some record still makes the task with serial e.1 wait for the one with e.0. */
  ghost predicate Blocked(s: State, e: (nat, nat)) {
    exists r :: r in s.dependents && s.dependents[r].of == e.0
      && s.dependents[r].from in s.tasks && s.tasks[s.dependents[r].from].serial == e.1
  }

  /** A recorded dependency has ended, or still blocks its dependent. */
  ghost predicate EdgesOpen(s: State) {
    forall e :: e in s.edges ==> e.1 < s.born && (Ended(e.0) in s.log || Blocked(s, e))
  }

  /** No closure starts before the closures it was recorded to depend on have ended. */
  ghost predicate StartsAfter(log: seq<Event>, edges: set<(nat, nat)>) {
    forall k, e :: 0 <= k < |log| && e in edges && log[k] == Started(e.1) ==> Ended(e.0) in log[..k]
  }

  /** No event repeats, and a closure ends after it started. */
  ghost predicate LogOnce(log: seq<Event>) {
    && (forall j, k :: 0 <= j < k < |log| ==> log[j] != log[k])
    && (forall k :: 0 <= k < |log| && log[k].Ended? ==> Started(log[k].serial) in log[..k])
  }

  /** The log agrees with where the tasks are. */
  ghost predicate LogCurrent(s: State) {
    && (forall e :: e in s.log ==> e.serial < s.born)
    && (forall id :: id in s.tasks ==> Started(s.tasks[id].serial) !in s.log && Ended(s.tasks[id].serial) !in s.log)
    && (forall w :: w in s.jobs ==>
          && Started(s.jobs[w].task.serial) in s.log
          && (Ended(s.jobs[w].task.serial) in s.log <==> s.jobs[w].Returned?))
  }

  ghost predicate HeldSerial(s: State, n: nat) {
    exists h :: Holds(s, h) && HeldTask(s, h).serial == n
  }

  /** No task is ever lost. */
  ghost predicate Complete(s: State) {
    forall n :: 0 <= n < s.born ==> HeldSerial(s, n) || Ended(n) in s.log
  }

  ghost predicate History(s: State) {
    && EdgesOpen(s) && StartsAfter(s.log, s.edges) && LogOnce(s.log) && LogCurrent(s) && Complete(s)
  }

  // ---- preservation ----

  lemma InsertHistory(s: State, id: TaskId, affinity: nat)
    requires History(s) && id !in s.tasks
    ensures History(Insert(s, id, affinity))
  {
    var s' := Insert(s, id, affinity);
    forall e | e in s'.edges
      ensures Ended(e.0) in s'.log || Blocked(s', e)
    {
      if Ended(e.0) !in s.log {
        assert Blocked(s, e);
      }
    }
    forall n | 0 <= n < s'.born
      ensures HeldSerial(s', n) || Ended(n) in s'.log
    {
      if n == s.born {
        assert Holds(s', Registered(id));
      } else if Ended(n) !in s.log {
        assert HeldSerial(s, n);
        var h :| Holds(s, h) && HeldTask(s, h).serial == n;
        assert Holds(s', h) && HeldTask(s', h) == HeldTask(s, h);
      }
    }
  }

  /** A step that keeps serials, jobs, the log and all records keeps the history. */
  lemma HistoryFrame(s: State, s': State)
    requires History(s)
    requires s'.tasks.Keys == s.tasks.Keys
    requires forall id :: id in s.tasks ==> s'.tasks[id].serial == s.tasks[id].serial
    requires forall r :: r in s.dependents ==>
               r in s'.dependents && s'.dependents[r].of == s.dependents[r].of && s'.dependents[r].from == s.dependents[r].from
    requires s'.jobs == s.jobs && s'.log == s.log && s'.born == s.born && s'.edges == s.edges
    ensures History(s')
  {
    forall e | e in s'.edges
      ensures Ended(e.0) in s'.log || Blocked(s', e)
    {
      if Ended(e.0) !in s.log {
        assert Blocked(s, e);
      }
    }
    CompleteFrame(s, s');
  }

  lemma CompleteFrame(s: State, s': State)
    requires Complete(s) && s'.born == s.born
    requires s'.tasks.Keys == s.tasks.Keys && s'.jobs.Keys == s.jobs.Keys
    requires forall id :: id in s.tasks ==> s'.tasks[id].serial == s.tasks[id].serial
    requires forall w :: w in s.jobs ==> s'.jobs[w].task.serial == s.jobs[w].task.serial
    requires forall e :: e in s.log ==> e in s'.log
    ensures Complete(s')
  {
    forall n | 0 <= n < s'.born
      ensures HeldSerial(s', n) || Ended(n) in s'.log
    {
      if Ended(n) !in s.log {
        assert HeldSerial(s, n);
        var h :| Holds(s, h) && HeldTask(s, h).serial == n;
        assert Holds(s', h) && HeldTask(s', h).serial == n;
      }
    }
  }

  lemma LinkHistory(s: State, id: TaskId, dependency: TaskId, record: DependentId)
    requires History(s) && id in s.tasks && dependency in s.tasks && dependency != id
    requires record !in s.dependents && s.tasks[id].serial < s.born
    ensures History(Link(s, id, dependency, record))
  {
    var s' := Link(s, id, dependency, record);
    var s1 := s'.(edges := s.edges);
    HistoryFrame(s, s1);
    var e := (s.tasks[dependency].serial, s.tasks[id].serial);
    assert Blocked(s', e) by {
      assert s'.dependents[record].of == e.0;
    }
    forall e' | e' in s'.edges
      ensures Ended(e'.0) in s'.log || Blocked(s', e')
    {
      if e' != e && Ended(e'.0) !in s.log {
        assert Blocked(s1, e');
      }
    }
    CompleteFrame(s, s');
  }

  lemma {:induction false} LinkFirstHistory(
    s: State, id: TaskId, dependsOn: seq<TaskId>, records: seq<DependentId>, k: nat)
    requires History(s) && id in s.tasks && id !in dependsOn && s.tasks[id].serial < s.born
    requires FreshRecords(s, id, dependsOn, records) && k <= |dependsOn|
    ensures var s' := LinkFirst(s, id, dependsOn, records, k);
            History(s') && s'.born == s.born
  {
    hide History;
    if k > 0 {
      LinkFirstHistory(s, id, dependsOn, records, k - 1);
      LinkFirstFacts(s, id, dependsOn, records, k - 1);
      var s1 := LinkFirst(s, id, dependsOn, records, k - 1);
      if dependsOn[k - 1] in s1.tasks {
        LinkHistory(s1, id, dependsOn[k - 1], records[k - 1]);
      }
    }
  }

  lemma AddTaskHistory(s: State, id: TaskId, affinity: nat, dependsOn: seq<TaskId>, records: seq<DependentId>)
    requires History(s) && |s.queues| == MAX_THREADS + 1 && CanAdd(s, id, affinity, dependsOn, records)
    ensures History(AddTask(s, id, affinity, dependsOn, records))
  {
    hide History;
    InsertHistory(s, id, affinity);
    var s1 := Insert(s, id, affinity);
    LinkFirstHistory(s1, id, dependsOn, records, |dependsOn|);
    var s2 := LinkFirst(s1, id, dependsOn, records, |dependsOn|);
    HistoryFrame(s2, ScheduleIfReady(s2, id));
  }

  /** A ready task is blocked by nothing. */
  lemma ReadyNotBlocked(s: State, g: Shape, id: TaskId, e: (nat, nat))
    requires Dependencies(s, g) && id in s.tasks && s.tasks[id].unmet == 0 && e.1 == s.tasks[id].serial
    ensures !Blocked(s, e)
  {
    if r :| r in s.dependents && s.dependents[r].of == e.0
            && s.dependents[r].from in s.tasks && s.tasks[s.dependents[r].from].serial == e.1
    {
      SameSerialSameTask(s, g, s.dependents[r].from, id);
      RecordWaits(s, r);
      assert false;
    }
  }

  lemma SameSerialSameTask(s: State, g: Shape, a: TaskId, b: TaskId)
    requires Serials(s, g) && a in s.tasks && b in s.tasks && s.tasks[a].serial == s.tasks[b].serial
    ensures a == b
  {
    assert Holds(s, Registered(a)) && Holds(s, Registered(b));
  }

  lemma PopHistory(s: State, w: WorkerId, q: nat)
    requires Inv(s) && History(s) && CanPop(s, w, q)
    ensures History(PopTask(s, w, q))
  {
    hide Inv;
    PopFacts(s, w, q);
    PopLog(s, w, q);
    PopOpen(s, w, q);
    PopComplete(s, w, q);
  }

  lemma PopFacts(s: State, w: WorkerId, q: nat)
    requires Inv(s) && EdgesOpen(s) && CanPop(s, w, q)
    ensures s.tasks[s.queues[q].front].serial < s.born
    ensures var n := s.tasks[s.queues[q].front].serial;
            && (forall e :: e in s.edges && e.1 == n ==> Ended(e.0) in s.log)
            && (forall x :: x in s.tasks && x != s.queues[q].front ==> s.tasks[x].serial != n)
    ensures forall r :: r in s.dependents ==> s.dependents[r].from != s.queues[q].front
  {
    var g :| InvWith(s, g, {});
    PopInv(s, g, w, q);
    PopUnblocked(s, g, s.queues[q].front);
    assert Holds(s, Registered(s.queues[q].front));
  }

  lemma PopUnblocked(s: State, g: Shape, id: TaskId)
    requires Dependencies(s, g) && EdgesOpen(s) && id in s.tasks && s.tasks[id].unmet == 0
    ensures forall e :: e in s.edges && e.1 == s.tasks[id].serial ==> Ended(e.0) in s.log
    ensures forall x :: x in s.tasks && x != id ==> s.tasks[x].serial != s.tasks[id].serial
    ensures forall r :: r in s.dependents ==> s.dependents[r].from != id
  {
    forall e | e in s.edges && e.1 == s.tasks[id].serial
      ensures Ended(e.0) in s.log
    {
      ReadyNotBlocked(s, g, id, e);
    }
    forall x | x in s.tasks && s.tasks[x].serial == s.tasks[id].serial
      ensures x == id
    {
      SameSerialSameTask(s, g, x, id);
    }
    forall r | r in s.dependents
      ensures s.dependents[r].from != id
    {
      RecordWaits(s, r);
    }
  }

  lemma PopLog(s: State, w: WorkerId, q: nat)
    requires CanPop(s, w, q) && LogOnce(s.log) && LogCurrent(s) && StartsAfter(s.log, s.edges)
    requires s.tasks[s.queues[q].front].serial < s.born
    requires forall e :: e in s.edges && e.1 == s.tasks[s.queues[q].front].serial ==> Ended(e.0) in s.log
    requires forall x :: x in s.tasks && x != s.queues[q].front ==>
               s.tasks[x].serial != s.tasks[s.queues[q].front].serial
    ensures var s' := PopTask(s, w, q);
            LogOnce(s'.log) && LogCurrent(s') && StartsAfter(s'.log, s'.edges)
  {
    var s' := PopTask(s, w, q);
    AppendStart(s.log, s.edges, s.tasks[s.queues[q].front].serial);
    assert s'.log[|s.log|] in s'.log;
    forall v | v in s'.jobs
      ensures Started(s'.jobs[v].task.serial) in s'.log
      ensures Ended(s'.jobs[v].task.serial) in s'.log <==> s'.jobs[v].Returned?
    {
      if v != w {
        assert Started(s.jobs[v].task.serial) in s.log;
      }
    }
  }

  lemma AppendStart(log: seq<Event>, edges: set<(nat, nat)>, n: nat)
    requires LogOnce(log) && StartsAfter(log, edges) && Started(n) !in log
    requires forall e :: e in edges && e.1 == n ==> Ended(e.0) in log
    ensures LogOnce(log + [Started(n)]) && StartsAfter(log + [Started(n)], edges)
  {
    var log' := log + [Started(n)];
    forall k: nat | k <= |log|
      ensures log'[..k] == log[..k]
    {}
    forall j, k | 0 <= j < k < |log'|
      ensures log'[j] != log'[k]
    {
      assert log[j] in log;
    }
  }

  lemma AppendEnd(log: seq<Event>, edges: set<(nat, nat)>, n: nat)
    requires LogOnce(log) && StartsAfter(log, edges) && Started(n) in log && Ended(n) !in log
    ensures LogOnce(log + [Ended(n)]) && StartsAfter(log + [Ended(n)], edges)
  {
    var log' := log + [Ended(n)];
    forall k: nat | k <= |log|
      ensures log'[..k] == log[..k]
    {}
    forall j, k | 0 <= j < k < |log'|
      ensures log'[j] != log'[k]
    {
      assert log[j] in log;
    }
  }

  lemma PopOpen(s: State, w: WorkerId, q: nat)
    requires CanPop(s, w, q) && EdgesOpen(s)
    requires forall r :: r in s.dependents ==> s.dependents[r].from != s.queues[q].front
    ensures EdgesOpen(PopTask(s, w, q))
  {
    var s' := PopTask(s, w, q);
    forall e | e in s'.edges
      ensures Ended(e.0) in s'.log || Blocked(s', e)
    {
      if Ended(e.0) !in s.log {
        assert Blocked(s, e);
      }
    }
  }

  lemma PopComplete(s: State, w: WorkerId, q: nat)
    requires CanPop(s, w, q) && Complete(s)
    ensures Complete(PopTask(s, w, q))
  {
    var s' := PopTask(s, w, q);
    var id := s.queues[q].front;
    forall n | 0 <= n < s'.born
      ensures HeldSerial(s', n) || Ended(n) in s'.log
    {
      if Ended(n) !in s.log {
        assert HeldSerial(s, n);
        var h :| Holds(s, h) && HeldTask(s, h).serial == n;
        var h' := if h == Registered(id) then Working(w) else h;
        assert Holds(s', h') && HeldTask(s', h').serial == n;
      }
    }
  }

  lemma ReturnHistory(s: State, w: WorkerId)
    requires Inv(s) && History(s) && w in s.jobs && s.jobs[w].Running?
    ensures History(Return(s, w))
  {
    hide Inv;
    SerialsDiffer(s, w);
    AppendEnd(s.log, s.edges, s.jobs[w].task.serial);
    ReturnLog(s, w);
    ReturnOpen(s, w);
    ReturnComplete(s, w);
    hide EdgesOpen, Complete, LogOnce, StartsAfter, LogCurrent;
  }

  lemma ReturnOpen(s: State, w: WorkerId)
    requires EdgesOpen(s) && w in s.jobs && s.jobs[w].Running?
    ensures EdgesOpen(Return(s, w))
  {
    var s' := Return(s, w);
    forall e | e in s'.edges
      ensures Ended(e.0) in s'.log || Blocked(s', e)
    {
      if Ended(e.0) !in s.log {
        assert Blocked(s, e);
      }
    }
  }

  lemma ReturnComplete(s: State, w: WorkerId)
    requires Complete(s) && w in s.jobs && s.jobs[w].Running?
    ensures Complete(Return(s, w))
  {
    CompleteFrame(s, Return(s, w));
    hide Complete;
  }

  lemma SerialsDiffer(s: State, w: WorkerId)
    requires Inv(s) && w in s.jobs
    ensures s.jobs[w].task.serial < s.born
    ensures forall id :: id in s.tasks ==> s.tasks[id].serial != s.jobs[w].task.serial
    ensures forall v :: v in s.jobs && v != w ==> s.jobs[v].task.serial != s.jobs[w].task.serial
  {
    var g :| InvWith(s, g, {});
    SerialsUnique(s, g, Working(w), Working(w));
    forall id | id in s.tasks
      ensures s.tasks[id].serial != s.jobs[w].task.serial
    {
      SerialsUnique(s, g, Registered(id), Working(w));
    }
    forall v | v in s.jobs && v != w
      ensures s.jobs[v].task.serial != s.jobs[w].task.serial
    {
      SerialsUnique(s, g, Working(v), Working(w));
    }
    hide InvWith;
  }

  lemma SerialsUnique(s: State, g: Shape, h: Holder, h': Holder)
    requires InvWith(s, g, {}) && Holds(s, h) && Holds(s, h')
    ensures HeldTask(s, h).serial < s.born
    ensures h != h' ==> HeldTask(s, h).serial != HeldTask(s, h').serial
  {
  }

  lemma ReturnLog(s: State, w: WorkerId)
    requires LogCurrent(s) && w in s.jobs && s.jobs[w].Running? && s.jobs[w].task.serial < s.born
    requires forall id :: id in s.tasks ==> s.tasks[id].serial != s.jobs[w].task.serial
    requires forall v :: v in s.jobs && v != w ==> s.jobs[v].task.serial != s.jobs[w].task.serial
    ensures LogCurrent(Return(s, w))
  {
    var s' := Return(s, w);
    assert s'.log[|s.log|] in s'.log;
    forall v | v in s'.jobs
      ensures Started(s'.jobs[v].task.serial) in s'.log
      ensures Ended(s'.jobs[v].task.serial) in s'.log <==> s'.jobs[v].Returned?
    {
      assert Started(s.jobs[v].task.serial) in s.log;
    }
  }

  /** Only records of an ended task are dropped. */
  lemma DecrementHistory(s: State, w: WorkerId)
    requires History(s) && CanSignal(s, w)
    requires s.dependents[s.jobs[w].task.firstDependent].of == s.jobs[w].task.serial
    ensures History(Decrement(s, w))
  {
    var s' := Decrement(s, w);
    var record := s.jobs[w].task.firstDependent;
    forall e | e in s'.edges
      ensures Ended(e.0) in s'.log || Blocked(s', e)
    {
      if Ended(e.0) !in s.log {
        assert Blocked(s, e);
        var r :| r in s.dependents && s.dependents[r].of == e.0
          && s.dependents[r].from in s.tasks && s.tasks[s.dependents[r].from].serial == e.1;
        assert r != record;
        assert r in s'.dependents;
      }
    }
    CompleteFrame(s, s');
  }

  lemma FirstRecordIsOwn(s: State, w: WorkerId)
    requires Inv(s) && CanSignal(s, w)
    ensures s.dependents[s.jobs[w].task.firstDependent].of == s.jobs[w].task.serial
  {
    var g :| InvWith(s, g, {});
    FirstRecord(s, g, w);
    var chain := g.chains[s.jobs[w].task.serial];
    assert chain[0] in chain;
  }

  lemma RetireHistory(s: State, w: WorkerId)
    requires History(s) && w in s.jobs && s.jobs[w].Returned?
    ensures History(s.(jobs := s.jobs - {w}))
  {
    var s' := s.(jobs := s.jobs - {w});
    forall e | e in s'.edges
      ensures Ended(e.0) in s'.log || Blocked(s', e)
    {
      if Ended(e.0) !in s.log {
        assert Blocked(s, e);
      }
    }
    forall n | 0 <= n < s'.born
      ensures HeldSerial(s', n) || Ended(n) in s'.log
    {
      if Ended(n) !in s.log {
        assert HeldSerial(s, n);
        var h :| Holds(s, h) && HeldTask(s, h).serial == n;
        assert Holds(s', h) && HeldTask(s', h).serial == n;
      }
    }
  }

  lemma SignalOneHistory(s: State, w: WorkerId)
    requires Inv(s) && History(s) && CanSignal(s, w)
    ensures History(SignalOne(s, w))
  {
    hide Inv, History;
    FirstRecordIsOwn(s, w);
    DecrementHistory(s, w);
    HistoryFrame(Decrement(s, w), SignalOne(s, w));
  }

  lemma {:induction false} SignalHistory(s: State, w: WorkerId)
    requires Inv(s) && History(s) && w in s.jobs && s.jobs[w].Returned?
    ensures History(SignalDependents(s, w))
    decreases |s.dependents|
  {
    SignalStep(s, w);
    hide Inv, History;
    if s.jobs[w].task.firstDependent == INVALID_DEPENDENT {
      RetireHistory(s, w);
    } else {
      SignalOneHistory(s, w);
      SignalHistory(SignalOne(s, w), w);
    }
  }

  lemma NextHistory(s: State, a: Action)
    requires Inv(s) && History(s) && Enabled(s, a)
    ensures History(Next(s, a))
  {
    hide Inv, History;
    match a
    case Add(id, affinity, dependsOn, records) => AddTaskHistory(s, id, affinity, dependsOn, records);
    case Pop(w, q) => PopHistory(s, w, q);
    case Finish(w) => ReturnHistory(s, w);
    case Signal(w) => SignalHistory(s, w);
  }

  // ---- runs ----

  ghost predicate IsRun(states: seq<State>, acts: seq<Action>) {
    && |states| == |acts| + 1
    && states[0] == Init()
    && forall k :: 0 <= k < |acts| ==> Leads(states[k], acts[k], states[k + 1])
  }

  ghost predicate Leads(s: State, a: Action, s': State) {
    Enabled(s, a) && s' == Next(s, a)
  }

  lemma InitHistory()
    ensures Inv(Init()) && History(Init())
  {
    InitIsInv();
  }

  lemma {:induction false} RunInv(states: seq<State>, acts: seq<Action>, k: nat)
    requires IsRun(states, acts) && k <= |acts|
    ensures Inv(states[k]) && History(states[k])
  {
    hide Inv, History;
    if k == 0 {
      InitHistory();
    } else {
      RunInv(states, acts, k - 1);
      assert Leads(states[k - 1], acts[k - 1], states[k]);
      hide Next, Enabled;
      NextInv(states[k - 1], acts[k - 1]);
      NextHistory(states[k - 1], acts[k - 1]);
    }
  }

  /** Ordering, for every run and any number of workers: when a closure starts, every
      dependency recorded for it has ended before. */
  lemma DependenciesRunFirst(states: seq<State>, acts: seq<Action>, k: nat, e: (nat, nat), i: nat) returns (j: nat)
    requires IsRun(states, acts) && k <= |acts|
    requires e in states[k].edges && i < |states[k].log| && states[k].log[i] == Started(e.1)
    ensures j < i && states[k].log[j] == Ended(e.0)
  {
    RunInv(states, acts, k);
    assert Ended(e.0) in states[k].log[..i];
    j :| 0 <= j < i && states[k].log[..i][j] == Ended(e.0);
  }

  /** The edge leads from a dependency that is still registered to task `id`. */
  ghost predicate Recorded(s: State, id: TaskId, dependsOn: seq<TaskId>, k: nat, e: (nat, nat))
    requires k <= |dependsOn| && id in s.tasks
  {
    exists j :: 0 <= j < k && dependsOn[j] in s.tasks && e == (s.tasks[dependsOn[j]].serial, s.tasks[id].serial)
  }

  /** Adding a task records an edge for exactly those of its dependencies that are still
      registered, and its counter starts at their number, repetitions included. */
  lemma AddTaskRecords(
    s: State, id: TaskId, affinity: nat, dependsOn: seq<TaskId>, records: seq<DependentId>, e: (nat, nat))
    requires |s.queues| == MAX_THREADS + 1 && CanAdd(s, id, affinity, dependsOn, records)
    ensures var s', s1 := AddTask(s, id, affinity, dependsOn, records), Insert(s, id, affinity);
            && (e in s'.edges <==> e in s.edges || Recorded(s1, id, dependsOn, |dependsOn|, e))
            && id in s'.tasks && s'.tasks[id].serial == s.born
            && s'.tasks[id].unmet == CountValid(s, dependsOn, |dependsOn|)
  {
    var s1 := Insert(s, id, affinity);
    assert FreshRecords(s1, id, dependsOn, records);
    CountValidInsert(s, id, affinity, dependsOn, |dependsOn|);
    LinkFirstFacts(s1, id, dependsOn, records, |dependsOn|);
    LinkFirstEdges(s1, id, dependsOn, records, |dependsOn|, e);
    LinkFirstUnmet(s1, id, dependsOn, records, |dependsOn|);
    hide LinkFirst, FreshRecords, CountValid, Recorded;
  }

  lemma {:induction false} LinkFirstEdges(
    s: State, id: TaskId, dependsOn: seq<TaskId>, records: seq<DependentId>, k: nat, e: (nat, nat))
    requires id in s.tasks && id !in dependsOn && FreshRecords(s, id, dependsOn, records) && k <= |dependsOn|
    ensures e in LinkFirst(s, id, dependsOn, records, k).edges <==>
              e in s.edges || Recorded(s, id, dependsOn, k, e)
  {
    assert |records| == |dependsOn|;
    hide FreshRecords;
    if k == 0 {
      assert LinkFirst(s, id, dependsOn, records, k).edges == s.edges && !Recorded(s, id, dependsOn, k, e);
    } else {
      hide LinkFirst, Recorded;
      LinkFirstEdges(s, id, dependsOn, records, k - 1, e);
      LinkFirstFacts(s, id, dependsOn, records, k - 1);
      LinkFirstLast(s, id, dependsOn, records, k, e);
      var s1, d := LinkFirst(s, id, dependsOn, records, k - 1), dependsOn[k - 1];
      assert s1.tasks[id].serial == s.tasks[id].serial;
      assert d in s.tasks ==> s1.tasks[d].serial == s.tasks[d].serial;
    }
  }

  lemma LinkFirstLast(
    s: State, id: TaskId, dependsOn: seq<TaskId>, records: seq<DependentId>, k: nat, e: (nat, nat))
    requires id in s.tasks && 0 < k <= |dependsOn| == |records|
    ensures var s1, d := LinkFirst(s, id, dependsOn, records, k - 1), dependsOn[k - 1];
            e in LinkFirst(s, id, dependsOn, records, k).edges <==>
            e in s1.edges || (d in s.tasks && e == (s1.tasks[d].serial, s1.tasks[id].serial))
    ensures Recorded(s, id, dependsOn, k, e) <==>
              Recorded(s, id, dependsOn, k - 1, e)
              || (dependsOn[k - 1] in s.tasks && e == (s.tasks[dependsOn[k - 1]].serial, s.tasks[id].serial))
  {
  }

  lemma {:induction false} LinkFirstUnmet(
    s: State, id: TaskId, dependsOn: seq<TaskId>, records: seq<DependentId>, k: nat)
    requires id in s.tasks && id !in dependsOn && k <= |dependsOn| == |records|
    requires s.tasks[id].unmet + CountValid(s, dependsOn, k) < WORD16
    ensures LinkFirst(s, id, dependsOn, records, k).tasks[id].unmet == s.tasks[id].unmet + CountValid(s, dependsOn, k)
  {
    if k > 0 {
      LinkFirstUnmet(s, id, dependsOn, records, k - 1);
    }
  }

  /** No task starts twice, and none is lost: each is registered, being run, or done. */
  lemma RunsOnce(states: seq<State>, acts: seq<Action>, k: nat, n: nat)
    requires IsRun(states, acts) && k <= |acts| && n < states[k].born
    ensures forall i, j :: 0 <= i < j < |states[k].log| ==> states[k].log[i] != states[k].log[j]
    ensures HeldSerial(states[k], n) || (Started(n) in states[k].log && Ended(n) in states[k].log)
  {
    RunInv(states, acts, k);
    var log := states[k].log;
    if Ended(n) in log {
      var i :| 0 <= i < |log| && log[i] == Ended(n);
      assert Started(n) in log[..i];
    }
  }

  // ---- draining ----

  ghost predicate OnlyGlobal(s: State) {
    forall id :: id in s.tasks ==> s.tasks[id].affinity == NO_AFFINITY
  }

  lemma {:induction false} SignalKeeps(s: State, w: WorkerId)
    requires w in s.jobs && s.jobs[w].Returned? && OnlyGlobal(s)
    ensures var s' := SignalDependents(s, w);
            OnlyGlobal(s') && s'.born == s.born && s'.edges == s.edges && s'.log == s.log
    decreases |s.dependents|
  {
    if s.jobs[w].task.firstDependent != INVALID_DEPENDENT && CanSignal(s, w) {
      SignalKeeps(SignalOne(s, w), w);
    }
  }

  lemma RunOneKeeps(s: State, w: WorkerId)
    requires Inv(s) && History(s) && OnlyGlobal(s) && CanPop(s, w, GLOBAL)
    ensures var s' := RunOne(s, w, GLOBAL);
            && Inv(s') && History(s') && OnlyGlobal(s')
            && s'.born == s.born && s'.edges == s.edges && s.log <= s'.log
  {
    hide Inv, History;
    var s1 := PopTask(s, w, GLOBAL);
    var s2 := Return(s1, w);
    NextInvPop(s, w, GLOBAL);
    PopHistory(s, w, GLOBAL);
    NextInvReturn(s1, w);
    ReturnHistory(s1, w);
    SignalInv(s2, w);
    SignalHistory(s2, w);
    SignalKeeps(s2, w);
  }

  lemma NextInvPop(s: State, w: WorkerId, q: nat)
    requires Inv(s) && CanPop(s, w, q)
    ensures Inv(PopTask(s, w, q))
  {
    var g :| InvWith(s, g, {});
    PopInv(s, g, w, q);
  }

  lemma NextInvReturn(s: State, w: WorkerId)
    requires Inv(s) && w in s.jobs && s.jobs[w].Running?
    ensures Inv(Return(s, w))
  {
    var g :| InvWith(s, g, {});
    ReturnInv(s, g, w);
  }

  /** Without jobs in flight, tasks without affinity can always be popped. */
  lemma LeftMeansReady(s: State, w: WorkerId)
    requires Inv(s) && OnlyGlobal(s) && s.jobs == map[] && s.tasks != map[]
    ensures CanPop(s, w, GLOBAL)
  {
    var g :| InvWith(s, g, {});
    IdleMeansReady(s);
    var q :| 0 <= q < |s.queues| && s.queues[q].front != INVALID_TASK;
    FrontOfQueue(s, g, q);
    assert Queue(s, g.ready[q], q);
  }

  lemma NothingLeft(s: State, w: WorkerId)
    requires Inv(s) && OnlyGlobal(s) && s.jobs == map[] && !CanPop(s, w, GLOBAL)
    ensures s.tasks == map[] && s.dependents == map[]
  {
    if s.tasks != map[] {
      LeftMeansReady(s, w);
      assert false;
    }
    var g :| InvWith(s, g, {});
    if r :| r in s.dependents {
      assert false;
    }
  }

  /** Draining tasks without affinity whose closures add nothing terminates, runs every
      task exactly once, and runs it after the tasks it depends on. */
  lemma {:induction false} DrainRunsEverything(s: State, w: WorkerId)
    requires Inv(s) && History(s) && OnlyGlobal(s) && s.jobs == map[]
    ensures var s' := Drain(s, w);
            && s'.tasks == map[] && s'.dependents == map[] && s'.jobs == map[]
            && s'.born == s.born && s'.edges == s.edges && s.log <= s'.log
            && (forall n :: 0 <= n < s.born ==> Started(n) in s'.log && Ended(n) in s'.log)
            && LogOnce(s'.log) && StartsAfter(s'.log, s'.edges)
    decreases |s.tasks|
  {
    if CanPop(s, w, GLOBAL) {
      RunOneKeeps(s, w);
      var s1 := RunOne(s, w, GLOBAL);
      assert s1.jobs.Keys == {};
      DrainRunsEverything(s1, w);
    } else {
      NothingLeft(s, w);
      EverythingEnded(s);
    }
  }

  lemma EverythingEnded(s: State)
    requires History(s) && s.tasks == map[] && s.jobs == map[]
    ensures forall n :: 0 <= n < s.born ==> Started(n) in s.log && Ended(n) in s.log
  {
    forall n | 0 <= n < s.born
      ensures Started(n) in s.log && Ended(n) in s.log
    {
      assert !HeldSerial(s, n);
      var i :| 0 <= i < |s.log| && s.log[i] == Ended(n);
      assert Started(n) in s.log[..i];
    }
  }
}
