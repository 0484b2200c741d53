# Sparks threading core: verification model

Sparks is a small game engine. Its threading core consists of five pieces, and this
project models each of them in Dafny and proves what it is for.

* **The lock-free slot map** (`proto/id_vector.hpp`) hands out tagged ids. Its free list
  is threaded through the slot words themselves; a head word with a tag of its own makes
  the compare-and-swap loops safe. `SlotMap.dfy` is a transition system with one shared
  access per step, any number of threads and a freely chosen order. Words carry unbounded
  versions and a compare-and-swap sees them modulo the number of tags, so the machine is
  the one with real, wrapping tags. `SlotMapSafety.dfy` holds the invariant,
  `SlotMapTheorems.dfy` and `SlotMapRuns.dfy` what follows for single states and for runs,
  `AtomicMap.dfy` and `SlotMapRefinement.dfy` the atomic map it refines,
  `SlotMapSolo.dfy` where a call gets that runs alone, `SlotMapScripts.dfy`,
  `SlotMapAba.dfy` and `SlotMapStale.dfy` runs that show what late threads can do, and `SlotMapClass.dfy` the object with packed words in place, one method
  per step.
* **The work-stealing queue** (`proto/work_stealing_queue.hpp`): an owner that pushes and
  pulls at the tail without a lock, thieves that raise the head and may take this back.
  `WorkQueue.dfy` is the transition system, `WorkQueueSafety.dfy` its abstraction to a
  deque and the invariant, `AtomicDeque.dfy` and `WorkQueueTheorems.dfy` the atomic deque it
  refines, `WorkQueueRuns.dfy` the results over runs, `WorkQueueSolo.dfy` calls that run alone, `WorkQueueWidth.dfy` the width of the
  index words, `WorkQueueScripts.dfy` and `WorkQueueFailures.dfy` runs that surprise, and
  `WorkQueueClass.dfy` the object.
* **The executor** (`core/executor.hpp`, `core/executor.cpp`): tasks with dependencies,
  ready lists linked through the tasks, and counters of unmet dependencies. `Executor.dfy`
  has the critical sections of its mutex as steps, `ExecutorSafety.dfy` the invariant,
  `ExecutorTheorems.dfy` and `ExecutorRuns.dfy` the results, `ExecutorDrain.dfy` the end of
  every drain by any number of workers, `ExecutorIds.dfy` the ids its vectors hand out,
  `ExecutorAffinity.dfy` and `ExecutorStamps.dfy` which queue a task is taken from and in
  what order, `ExecutorFailures.dfy` and `ExecutorWrap.dfy` runs that surprise, and `ExecutorClass.dfy` the object
  whose methods change the fields in place.
* **The two sequential slot vectors** (`core/stable_id_vector.hpp`, `core/id_vector.hpp`):
  a first-in first-out free list in packed words (`FreeList.dfy`), elements that stay where
  they are (`StableVector.dfy`, `StableVectorAging.dfy`) or are kept dense by swapping the
  last one in (`DenseVector.dfy`, `DenseVectorTheorems.dfy`), and the objects with packed
  words (`WordArrays.dfy`, `StableVectorClass.dfy`, `DenseVectorClass.dfy`). `Bits.dfy` and
  `PackedIds.dfy` have the bitwise arithmetic of the ids.
* **The scheduler** (`proto/scheduler.hpp`): nodes that create, queue, steal and run tasks,
  sleep on a pulse and are stopped. `Scheduler.dfy` composes it from the atomic deque and
  the atomic map that the first two pieces refine; `SchedulerSafety.dfy` counts where the
  tasks are, `SchedulerProtocol.dfy` keeps the sleep, wake-up and stop protocol,
  `SchedulerTheorems.dfy` and `SchedulerPulse.dfy` have the results over runs,
  `SchedulerQueues.dfy` what steps do to the queues, `SchedulerVictim.dfy` the search for a
  node to steal from, `SchedulerClass.dfy` the pulse. `SchedulerSolo.dfy` lets one node run
  alone; `SchedulerDelegation.dfy`, `SchedulerStops.dfy` and `SchedulerLoop.dfy` say what
  `new_task`, `stop_scheduler` and `node_loop` then come to.

Atomic accesses are sequentially consistent. A closure is opaque: it may create tasks,
stop the scheduler, and return.

## Findings

* A popper of the slot map that is overtaken by exactly as many head updates as there are
  tags can put a live slot back on the free list (`SlotMapAba.BoundIsTight`); with fewer it
  cannot (`SlotMapRuns.AbaBound`), and `SlotMapRuns.AbaExact` with
  `SlotMapRuns.PopKeepsInvIff` says exactly when it does. Returning a slot needs no bound.
* An `erase` or `move_from` that comes as many reuses of its slot late as there are tags
  takes away the element of another id (`SlotMapStale.StaleEraseTakesAnother`, for every
  number of tags); a successful lock found its own id if and only if it was not that late
  (`SlotMapSafety.LockOwnIffTimely`).
* `unique_pull` of the work-stealing queue may fail on the one element its owner has just
  pushed, while a thief that has already lost holds the head up
  (`WorkQueueFailures.PullMissesOnlyElement`; exactly when, `WorkQueueRuns.PullGivesUpIff`).
* At the end of the index range the work-stealing queue hands out more elements than were
  pushed: a thief's bump wraps the head to zero, and the owner pulls an element that has
  been stolen before (`WorkQueueFailures.HandsOutTwice`, for every size and width). Close
  to the end an empty queue refuses every push, because the sum it compares the tail with
  wraps (`WorkQueueFailures.EmptyQueueRefuses`). `WorkQueueWidth.WidthAgreesIff` has the
  three sums that can leave the range, and `WorkQueueWidth.WidthRefinesIff` says that
  nothing else can go wrong.
* `is_valid_id` of the dense vector compares tags only, so it says yes for slots that were
  reserved but hold nothing (`DenseVectorTheorems.ReservedSlotLooksValid`).
* `add_task` records a dependency only while that task is registered. `pop_task` erases a
  task before its closure runs, so a dependency on a running task is not recorded, and the
  dependent may start while the other still runs (`ExecutorFailures.RunningDependencyIsMissed`);
  all ordering results are about recorded dependencies.
* The stamps of the executor are 16 bits wide. They tell which of two ready tasks is the
  older one until they wrap (`ExecutorStamps.EarlierIsTakenIff` says exactly when); after
  65536 schedulings a worker may take the later one (`ExecutorWrap.LaterIsTaken`), although
  the comment at `core/executor.cpp:77` promises the older.
* A comment in `core/executor.hpp:108` calls the ready lists first-in first-out; the code
  pushes and pops at the front, so they are stacks (`ExecutorTheorems.QueueIsStack`).
* The search for another node to steal from at `proto/scheduler.hpp:286-288` ends if and
  only if there are at least two nodes (`SchedulerVictim.SearchEndsIff`); the model has at
  least two.

## Model

| member | source | states |
|---|---|---|
| PackedIds.Layout.UnpackPacked | proto/id_vector.hpp:131-136 | the index mask yields the index field and the tag mask the tag field of every packed word |
| PackedIds.Layout.IncrementPacked | proto/id_vector.hpp:143-150 | incrementing the tag advances the tag field by one modulo the number of tags and sets the index field, without a carry between the two |
| PackedIds.Layout.RelinkPacked | core/stable_id_vector.hpp:116-119 | the `&=` that appends a slot to the free list writes the link and keeps the tag when the old index is all ones |
| PackedIds.Layout.RelinkNeedsOnes | core/id_vector.hpp:166-168 | the `&=` writes every link correctly if and only if the old index is all ones |
| SlotMapSafety.InitInv | proto/id_vector.hpp:214-227 | a fresh map, whatever its initial tags, satisfies the invariant with all slots free in order |
| SlotMapSafety.PopSeesHead | proto/id_vector.hpp:181-193 | a timely successful pop saw the true head, and the link it read is the true second free slot |
| SlotMapSafety.PopCasInv | proto/id_vector.hpp:181-193 | the compare-and-swap of a pop takes exactly the first slot off the free list or changes nothing |
| SlotMapSafety.LoadIdInv | proto/id_vector.hpp:67-77 | the id that `emplace` returns was never issued before, and its slot is live from then on |
| SlotMapSafety.LockFindsLive | proto/id_vector.hpp:152-161 | a timely successful lock found the slot live under exactly this id |
| SlotMapSafety.LockOwnIffTimely | proto/id_vector.hpp:152-161 | a successful lock found exactly its own id if and only if the id is fewer than `tags` reuses old |
| SlotMapSafety.LockCasInv | proto/id_vector.hpp:152-161 | the compare-and-swap of a lock, successful or not, leaves the free list as it is and keeps the invariant |
| SlotMapSafety.PushCasInv | proto/id_vector.hpp:195-206 | returning a slot prepends it to the free list whenever the index of the head matches, however often the head changed in between |
| SlotMapSafety.NextInv | proto/id_vector.hpp:59-206 | every step of every thread keeps the shape of the free list, the ownership of slots and the history of ids |
| SlotMapSafety.NeverStuck | proto/id_vector.hpp:103-206 | every call that has not finished can take its next step, with all its indices in range |
| SlotMapTheorems.RunInv | proto/id_vector.hpp:66-206 | the invariant holds after any interleaving of any number of timely calls |
| SlotMapTheorems.Partition | proto/id_vector.hpp:152-206 | every slot is in exactly one of four classes: free, popped and not yet returned, locked and not yet re-linked, live |
| SlotMapTheorems.FreeListFunctional | proto/id_vector.hpp:181-206 | the chain from the head, which the invariant makes finite, acyclic and ending in the invalid index, is the only free list of its state |
| SlotMapTheorems.RefinesMap | proto/id_vector.hpp:66-120 | each step adds one fresh id with its element to the client's map, removes exactly the erased id, or leaves the map alone |
| SlotMapTheorems.TakesOwnElement | proto/id_vector.hpp:103-112 | `move_from` hands out the element that `emplace` put in under that id |
| SlotMapTheorems.IssuedIdValidIffLive | proto/id_vector.hpp:59-64 | for an issued id fewer than `tags` reuses old, `is_valid_id` is true if and only if it is live |
| SlotMapTheorems.ValidWordMeaning | proto/id_vector.hpp:59-64 | for an arbitrary word, `is_valid_id` is true if and only if its tag is the slot's modulo the tags and the slot is live, or being filled or emptied and not linked yet |
| SlotMapTheorems.DestroysEachElementOnce | proto/id_vector.hpp:208-212 | with no call in flight the destructor's test picks exactly the slots that hold an element |
| SlotMapRuns.VersionCountsUpdates | proto/id_vector.hpp:181-206 | the head's version grows by the number of its replacements |
| SlotMapRuns.MirrorIsHeadAtLoad | proto/id_vector.hpp:183-190 | the expected word of a pop's compare-and-swap is the head at the moment of its load |
| SlotMapRuns.AbaBound | proto/id_vector.hpp:181-193 | with fewer than `tags` head updates since the load, a successful compare-and-swap means that the head never changed and the link is still the second free slot |
| SlotMapRuns.AbaExact | proto/id_vector.hpp:143-193 | the comparison is fooled if and only if the index agrees and the number of updates is a multiple of the tags |
| SlotMapRuns.PopKeepsInvIff | proto/id_vector.hpp:181-193 | any successful pop, timely or not, keeps the invariant if and only if the link it read is the true second free slot |
| SlotMapRuns.ErasedOnce | proto/id_vector.hpp:103-161 | of all calls of `erase` and `move_from` with one id at most one succeeds |
| SlotMapRuns.PayloadAlternates | proto/id_vector.hpp:66-120 | a payload is constructed only when empty and destroyed only when full, and no other step touches it |
| SlotMapRuns.TagsAdvanceByOne | proto/id_vector.hpp:143-161 | successive ids issued for one slot carry successive tags |
| SlotMapRuns.IdsRepeatAfterAllTags | proto/id_vector.hpp:143-161 | two ids issued for one slot are the same word if and only if the number of issues between them is a multiple of the tags |
| SlotMapScripts.EmplaceRuns | proto/id_vector.hpp:66-77 | nine steps of an undisturbed `emplace` take the first free slot and issue its id |
| SlotMapScripts.EraseRuns | proto/id_vector.hpp:115-120 | eight steps of an undisturbed `erase` put the slot back at the head with its next tag |
| SlotMapAba.BoundIsTight | proto/id_vector.hpp:181-193 | a concrete run of timely steps in which as many updates as there are tags let a stalled pop make a live slot the first free one |
| SlotMapStale.StaleEraseTakesAnother | proto/id_vector.hpp:114-161 | for every size and number of tags, a run of timely steps after which a stale `erase` locks a slot and removes the element of an id issued later |
| SlotMapRefinement.FullIff | proto/id_vector.hpp:184-186 | `emplace` reports a full map if and only if the free list is empty, and then every slot holds an element or is in the hands of another call |
| SlotMapRefinement.Refines | proto/id_vector.hpp:66-206 | every timely step is an event of an atomic map: a call begins, issues a fresh id with its element, is refused, removes its id or misses it, returns what it did, or nothing happens |
| SlotMapRefinement.RunRefines | proto/id_vector.hpp:66-206 | every interleaving of any number of timely calls is a history of the atomic map that starts empty |
| SlotMapSolo.FinishesAlone | proto/id_vector.hpp:66-206 | a call that runs alone, from any point of it in any intact map and with a head word of any age, ends after an exactly stated number of steps, at most nine; a lost compare-and-swap costs one more round |
| SlotMapSolo.KeepsPromise | proto/id_vector.hpp:66-206 | if no head word of its pop and no id of its lock is as old as the tags can tell, it then has done what it is for: `emplace` took the first free slot, or reported full if and only if none was free; a release put its slot in front of the free list; only the call's own id entered or left the map |
| SlotMapClass.ImageEqual | proto/id_vector.hpp:152-156 | stored words compare equal if and only if their indices agree and their versions agree modulo the tags |
| SlotMapClass.ImageIncrement | proto/id_vector.hpp:143-146 | incrementing a stored tag is the stored form of the next version |
| SlotMapClass.IdVector.constructor | proto/id_vector.hpp:214-227 | the packed words of a fresh map are the stored form of an initial state with the given tags |
| SlotMapClass.IdVector.BeginEmplace | proto/id_vector.hpp:66-68 | a thread enters `emplace` and goes for the head |
| SlotMapClass.IdVector.BeginErase | proto/id_vector.hpp:103-116 | a thread enters `erase` or `move_from` with an issued id and goes for the lock |
| SlotMapClass.IdVector.StepLoadHead | proto/id_vector.hpp:184-186 | on packed words: load the head, report a full map |
| SlotMapClass.IdVector.StepLoadNext | proto/id_vector.hpp:188 | on packed words: read the link of the head slot |
| SlotMapClass.IdVector.StepPopCas | proto/id_vector.hpp:189-190 | on packed words: replace the head by the link with the next tag, or start again |
| SlotMapClass.IdVector.StepMarkLoad | proto/id_vector.hpp:169-174 | on packed words: read the word of the popped slot |
| SlotMapClass.IdVector.StepMarkStore | proto/id_vector.hpp:169-174 | on packed words: store the slot's own index next to its tag |
| SlotMapClass.IdVector.StepConstruct | proto/id_vector.hpp:68-70 | the element is constructed in the popped slot |
| SlotMapClass.IdVector.StepLoadId | proto/id_vector.hpp:71-73 | the word of the slot becomes the id of the element |
| SlotMapClass.IdVector.StepLockCas | proto/id_vector.hpp:152-161 | on packed words: lock a slot by moving its tag on, if its word is the id |
| SlotMapClass.IdVector.StepDestroy | proto/id_vector.hpp:104-118 | the element is moved out if asked for, and destroyed |
| SlotMapClass.IdVector.StepLoadLocked | proto/id_vector.hpp:195-197 | on packed words: read the word of the locked slot |
| SlotMapClass.IdVector.StepReloadHead | proto/id_vector.hpp:199-201 | on packed words: load the head to link to |
| SlotMapClass.IdVector.StepStoreLink | proto/id_vector.hpp:203 | on packed words: link the slot in front of the head that was read |
| SlotMapClass.IdVector.StepPushCas | proto/id_vector.hpp:201-204 | on packed words: make the slot the head with the next tag, or load the head again, which SlotMapSolo.FinishesAlone needs to end |
| SlotMapClass.IdVector.IsValidId | proto/id_vector.hpp:59-64 | true if and only if the slot's version agrees with the id modulo the tags |
| WorkQueueSafety.NextInv | proto/work_stealing_queue.hpp:47-92 | every step of the owner and of any thief keeps the order of the logical indices, the ring bound and the lock |
| WorkQueueTheorems.Refines | proto/work_stealing_queue.hpp:47-92 | every step is one of the atomic deque's: push appends at the back, a true pull removes the back, a true steal removes the front, and the other steps are silent |
| WorkQueueRuns.RunRefines | proto/work_stealing_queue.hpp:47-92 | every interleaving of one owner and any number of thieves is a history of the atomic deque that starts empty |
| WorkQueueRuns.Conservation | proto/work_stealing_queue.hpp:47-92 | at every moment the elements pushed are those handed out and those in the deque, with multiplicity |
| WorkQueueRuns.RingSafety | proto/work_stealing_queue.hpp:49-51 | a push overwrites no element of the deque and none that a thief has claimed but not yet copied |
| WorkQueueRuns.NeededGrows | proto/work_stealing_queue.hpp:83-90 | the oldest needed index never goes back, though the head does, and the needed indices never exceed the capacity |
| WorkQueueRuns.PullGivesUpIff | proto/work_stealing_queue.hpp:58-60 | a pull gives up at once if and only if the deque is empty, or has one element while a thief holds the head up |
| WorkQueueRuns.LockedPullFailsOnEmpty | proto/work_stealing_queue.hpp:67-75 | under the lock a pull fails if and only if the deque is empty |
| WorkQueueRuns.ThiefLosesToOwner | proto/work_stealing_queue.hpp:83-90 | a thief with the lock fails on a non-empty deque only because the owner is in the middle of pulling its one element |
| WorkQueueRuns.OwnerKeepsLast | proto/work_stealing_queue.hpp:62-75 | from then on every step of anyone leaves the element to the owner or is the owner taking it |
| WorkQueueRuns.OwnerReturnsIt | proto/work_stealing_queue.hpp:62-75 | once taken, the element stays the result of the owner's call whatever the thieves do |
| WorkQueueRuns.LastElementRace | proto/work_stealing_queue.hpp:62-90 | over every run, the owner's pull then returns true with that element |
| WorkQueueRuns.QuietSize | proto/work_stealing_queue.hpp:44-45 | with no operation in flight `size` is the length of the deque |
| WorkQueueRuns.PullAlone | proto/work_stealing_queue.hpp:58-76 | a pull that runs alone returns the last element, and fails only on an empty deque |
| WorkQueueSolo.OwnerAlone | proto/work_stealing_queue.hpp:47-76 | the owner's call, alone from any point of it, ends after an exactly stated number of steps, at most six: a push has appended unless all places but one were taken, a pull has the last element unless there was none |
| WorkQueueSolo.ThiefAlone | proto/work_stealing_queue.hpp:78-92 | a thief's call, alone from any point of it, ends after at most six steps with the first element, unless there was none or the owner had lowered the tail to it |
| WorkQueueWidth.WidthAgreesIff | proto/work_stealing_queue.hpp:47-92 | a step on wrapping words is the step on unbounded indices if and only if its sum fits: the guard of a push, the new tail of a push, the bump of a thief; every other step always is |
| WorkQueueWidth.WidthRefinesIff | proto/work_stealing_queue.hpp:47-92 | a run on wrapping words is a run of the unbounded queue if and only if all of its steps fit |
| WorkQueueWidth.BoundRefines | proto/work_stealing_queue.hpp:47-92 | while the head, including a bump, stays at most 2^w minus the capacity, all steps of a run fit |
| WorkQueueWidth.PushGuardAgreesIff | proto/work_stealing_queue.hpp:49 | the guard of a push agrees with the unbounded one if and only if its sum does not wrap or the queue is full anyway |
| WorkQueueFailures.Empties | proto/work_stealing_queue.hpp:47-92 | every index can be reached with an empty queue, by as many pushes as steals |
| WorkQueueFailures.EmptyQueueRefuses | proto/work_stealing_queue.hpp:49-55 | for every size and width, a run to an empty queue near the end of the index range that refuses every push, which the unbounded one accepts |
| WorkQueueFailures.HandsOutTwice | proto/work_stealing_queue.hpp:58-92 | for every size and width, a run in which one element more is handed out than was pushed |
| WorkQueueFailures.PullMissesOnlyElement | proto/work_stealing_queue.hpp:58-92 | for every size and width, a run in which a pull fails although the deque holds the element just pushed |
| WorkQueueClass.WorkStealingQueue.constructor | proto/work_stealing_queue.hpp:94-98 | a new queue is empty and idle |
| WorkQueueClass.WorkStealingQueue.Position | proto/work_stealing_queue.hpp:50 | masking an index is taking it modulo the capacity |
| WorkQueueClass.WorkStealingQueue.OwnerMove | proto/work_stealing_queue.hpp:47-76 | one access of the owner, in place on wrapping words and the ring, is the owner's step of the machine |
| WorkQueueClass.WorkStealingQueue.ThiefMove | proto/work_stealing_queue.hpp:78-92 | one access of a thief, in place, is the thief's step of the machine |
| WorkQueueClass.WorkStealingQueue.UniquePush | proto/work_stealing_queue.hpp:47-56 | alone, a push appends its value if and only if two places are free and the head is not within capacity - 1 of the end of the index range |
| WorkQueueClass.WorkStealingQueue.UniquePull | proto/work_stealing_queue.hpp:58-76 | alone, a pull takes the last value, and fails if and only if there is none |
| WorkQueueClass.WorkStealingQueue.SharedPull | proto/work_stealing_queue.hpp:78-92 | alone, a steal takes the first value, and restores the head if there is none |
| WorkQueueClass.WorkStealingQueue.Size | proto/work_stealing_queue.hpp:45 | the difference of the index words is the number of values |
| ExecutorSafety.AddTaskInv | core/executor.hpp:164-193 | adding a task keeps the ready lists, the lists of records and the counters in order |
| ExecutorSafety.ScheduleInv | core/executor.hpp:195-210 | scheduling puts a task whose counter is zero at the front of the list of its affinity |
| ExecutorSafety.PopInv | core/executor.cpp:109-122 | popping takes the first task off its list and leaves its records to be signalled |
| ExecutorSafety.SignalInv | core/executor.cpp:136-151 | the walk over a finished task's records reaches their end, releases each dependent and keeps the invariant |
| ExecutorSafety.NextInv | core/executor.hpp:164-210 | every critical section keeps the invariant, for any number of workers |
| ExecutorTheorems.Placement | core/executor.hpp:195-210 | a registered task is once in the list of its affinity if its counter is zero, and otherwise in no list; front and back of a queue are invalid together |
| ExecutorTheorems.ReadyListUnique | core/executor.hpp:206-210 | the links of a queue determine its finite list, so the list of the invariant is the one the code walks |
| ExecutorTheorems.QueueIsStack | core/executor.cpp:109-122 | a pop removes the task at the front of its queue and leaves every other queue alone |
| ExecutorTheorems.RecordsAreListed | core/executor.hpp:180-188 | every dependency record is in the list of exactly one registered task or unfinished job, the one it was recorded for |
| ExecutorTheorems.CounterExact | core/executor.cpp:136-151 | a task's counter is the number of records naming it, with multiplicity, all of them linked from unfinished tasks, and it never reaches 2^16 |
| ExecutorTheorems.Acyclic | core/executor.hpp:180-188 | a path along recorded dependencies leads to ever older tasks and never returns |
| ExecutorTheorems.Progress | core/executor.hpp:164-193 | while tasks are registered, some queue has a task or some popped task is still to be signalled |
| ExecutorTheorems.IdleMeansReady | core/executor.hpp:164-193 | with no task popped and unsignalled, a registered task can be run |
| ExecutorTheorems.RightAffinity | core/executor.cpp:53-89 | a worker with an affinity is given only tasks of its affinity or of none |
| Executor.ChooseQueue | core/executor.cpp:76-88 | the chosen queue has a task, and no other candidate's front has a smaller stamp |
| ExecutorRuns.AddTaskRecords | core/executor.hpp:180-188 | adding a task records exactly the dependencies that are still registered and counts them with repetitions |
| ExecutorRuns.NextHistory | core/executor.cpp:109-151 | every critical section keeps the history of starts, ends and recorded dependencies consistent |
| ExecutorRuns.DependenciesRunFirst | core/executor.cpp:124-151 | over every run and any number of workers, a closure starts only after the closures of its recorded dependencies have ended |
| ExecutorRuns.RunsOnce | core/executor.cpp:109-134 | no task starts or ends twice, and every task ever added is registered, being run, or done |
| ExecutorAffinity.TakenFromItsQueue | core/executor.hpp:176-204 | over every run, the task that a call of `add_task` with an affinity creates carries that affinity, and whichever worker takes it takes it from the queue of that affinity, or from the global queue if it has none |
| ExecutorAffinity.AddedTask | core/executor.hpp:164-193 | the new task is registered under its id with the affinity that was passed |
| ExecutorStamps.RunOrder | core/executor.hpp:195-204 | over every run, however long, the ready tasks stand in the order in which they became ready, and their stamps are their places in it modulo 2^16 |
| ExecutorStamps.EarlierIsTakenIff | core/executor.cpp:76-82 | of two fronts a worker takes the one that became ready first if and only if its place is also the smaller modulo 2^16, its own if they are equal there; always while at most 2^16 tasks have become ready |
| ExecutorWrap.LaterIsTaken | core/executor.cpp:76-82 | a run in which the stamps wrap and a worker takes the later of two ready tasks |
| ExecutorDrain.WeightFalls | core/executor.cpp:109-151 | every pop, return and signalling uses up one of the critical sections to come: three for a registered task, two for a running one, one for one that has returned |
| ExecutorDrain.GoesOn | core/executor.cpp:20-89 | while a task is registered or a job unfinished, some worker can go on; without affinities, with its job or the global queue |
| ExecutorDrain.ReadyCanBePopped | core/executor.cpp:109-122 | a ready task need not wait for a busy worker: another one can pop it |
| ExecutorDrain.DrainTerminates | core/executor.cpp:20-151 | over every run with any number of workers and any affinities, when no task is added: exactly as many sections follow as the weight says, and when no worker can go on everything has run, once each, after what it was recorded to depend on |
| ExecutorRuns.DrainRunsEverything | core/executor.cpp:26-37 | the loop of one worker alone does the same, if no task has an affinity |
| ExecutorFailures.RunningDependencyIsMissed | core/executor.hpp:180-188 | a run in which a closure starts while the closure of the task named as its dependency is still running |
| ExecutorIds.EmplaceBacks | core/executor.hpp:176-177 | the id a stable vector grants is not in use and is not the invalid one |
| ExecutorIds.EraseBacks | core/executor.cpp:120 | erasing an id from the vector takes exactly it out of the map of tasks or records |
| ExecutorIds.ValidIffRegistered | core/executor.hpp:182 | the vector's validity test is membership in that map |
| ExecutorIds.InvalidIds | core/executor.hpp:36-37 | the ids that stand for no task and no record are the all-ones indices of the two vectors |
| ExecutorIds.NewTaskCanBeAdded | core/executor.hpp:176-188 | under the id its vector grants a task can be added if and only if no dependency is named by that very id |
| ExecutorClass.TaskExecutor.constructor | core/executor.cpp:8-14 | a new executor has empty queues and no tasks |
| ExecutorClass.TaskExecutor.Schedule | core/executor.hpp:195-204 | in place: stamps the task and pushes it on the queue of its affinity |
| ExecutorClass.TaskExecutor.PushTask | core/executor.hpp:206-210 | in place: links the task in front of the queue, and sets the back of an empty one |
| ExecutorClass.TaskExecutor.LinkDependency | core/executor.hpp:184-187 | in place: puts a record in front of the dependency's list and counts it |
| ExecutorClass.TaskExecutor.LinkDependencies | core/executor.hpp:180-188 | the loop over the dependencies links those that are valid, one after the other |
| ExecutorClass.TaskExecutor.AddTask | core/executor.hpp:164-193 | in place: adds the task with the given affinity behind its dependencies, keeps invariant and history, and adds nothing once closed |
| ExecutorClass.TaskExecutor.PopTask | core/executor.cpp:109-122 | in place: takes the front task and erases it, keeping invariant and history |
| ExecutorClass.TaskExecutor.FinishClosure | core/executor.cpp:127-133 | in place: the closure has returned and its dependents are to be signalled |
| ExecutorClass.TaskExecutor.SignalFirst | core/executor.cpp:139-150 | in place: one round of the signalling loop |
| ExecutorClass.TaskExecutor.SignalDependents | core/executor.cpp:136-151 | in place: the signalling loop terminates and releases all dependents |
| ExecutorClass.TaskExecutor.RunOneWithAffinity | core/executor.cpp:53-89 | runs one task to its end: of the worker's own or the global queue, the one with a smaller stamp in front when both have tasks, and nothing if both are empty |
| ExecutorClass.TaskExecutor.DrainGlobal | core/executor.cpp:26-37 | the worker loop without affinity runs everything that is registered, each once and in order |
| ExecutorClass.TaskExecutor.Close | core/executor.cpp:92-96 | closes the executor and leaves its tasks, records and queues as they are |
| FreeList.TakeChain | core/stable_id_vector.hpp:54-65 | taking a slot removes the first of the free list, and the emptiness test is exact |
| FreeList.PutChain | core/stable_id_vector.hpp:109-120 | returning a slot appends it as the last of the free list |
| FreeList.GrowChain | core/stable_id_vector.hpp:27-40 | growing puts the new slots in front of the free list, in ascending order |
| StableVector.EmplaceInv | core/stable_id_vector.hpp:52-73 | the slot that is filled is the one that has been free longest |
| StableVector.EraseInv | core/stable_id_vector.hpp:98-123 | an erased slot goes to the end of the free list, and the size stays the number of elements |
| StableVector.ValidIffLive | core/stable_id_vector.hpp:43-47 | for every word, issued or made up, `is_valid_id` is true if and only if the word is the id of an element |
| StableVector.EmplaceAdds | core/stable_id_vector.hpp:52-73 | `emplace` adds one id that was not live, with its element |
| StableVector.EraseRemoves | core/stable_id_vector.hpp:98-123 | `erase` removes exactly its id |
| StableVector.ReserveKeeps | core/stable_id_vector.hpp:27-40 | growing changes no id and no element |
| StableVector.DestroysEachElementOnce | core/stable_id_vector.hpp:14-24 | the destructor's test finds exactly the slots that hold an element |
| StableVectorAging.StaysStale | core/stable_id_vector.hpp:97-123 | if at least f other slots are free whenever its slot is erased, an erased id stays invalid for (f + 1) times the number of tags emplacements, across growth |
| WordArrays.Thread | core/stable_id_vector.hpp:33-36 | the loop links each new slot to the next and the last one to the old list |
| StableVectorClass.StableIdVector.constructor | core/stable_id_vector.hpp:7-11 | a new vector holds nothing and has its capacity reserved |
| StableVectorClass.StableIdVector.Reserve | core/stable_id_vector.hpp:27-40 | in place on packed words: grows and keeps the contents |
| StableVectorClass.StableIdVector.IsValidId | core/stable_id_vector.hpp:43-47 | true if and only if the word is the id of an element |
| StableVectorClass.StableIdVector.TakeSlot | core/stable_id_vector.hpp:53-65 | in place on packed words: the first free slot, or one more |
| StableVectorClass.StableIdVector.Fill | core/stable_id_vector.hpp:67-72 | in place on packed words: the element and the slot's own index |
| StableVectorClass.StableIdVector.Emplace | core/stable_id_vector.hpp:52-73 | in place on packed words: the contents gain one fresh id with the element |
| StableVectorClass.StableIdVector.Get | core/stable_id_vector.hpp:83-95 | a live id yields its element |
| StableVectorClass.StableIdVector.PutBack | core/stable_id_vector.hpp:108-120 | in place on packed words: the slot is appended to the free list |
| StableVectorClass.StableIdVector.Erase | core/stable_id_vector.hpp:98-123 | in place on packed words: the contents lose exactly the id |
| StableVectorClass.StableIdVector.Destroy | core/stable_id_vector.hpp:14-24 | destroys every element, none twice, and the count comes out at zero |
| DenseVector.EmplaceInv | core/id_vector.hpp:70-135 | after `emplace` the two index arrays are inverse between live slots and positions |
| DenseVector.EraseInv | core/id_vector.hpp:138-170 | after the swap, also of the last element with itself, they still are |
| DenseVectorTheorems.Lookup | core/id_vector.hpp:100-113 | looking up a live id finds its element, and the way back leads to its slot |
| DenseVectorTheorems.EmplaceAdds | core/id_vector.hpp:70-75 | `emplace` adds one id that was not live, with its element |
| DenseVectorTheorems.EraseRemoves | core/id_vector.hpp:138-170 | `erase` removes exactly its id, and every other id still yields its own element |
| DenseVectorTheorems.ReserveKeeps | core/id_vector.hpp:19-32 | reserving ids changes no id and no element |
| DenseVectorTheorems.ReverseLookup | core/id_vector.hpp:50-57 | `id_from_iterator` at a live id's position returns that id, at every position the id of its element, and at the end an id that is not valid |
| DenseVectorTheorems.WalkVisitsEachOnce | core/id_vector.hpp:50-57 | walking all positions yields each live id exactly once |
| DenseVectorTheorems.NextInv | core/id_vector.hpp:19-170 | after any sequence of emplace, erase and reserve the arrays are inverse |
| DenseVectorTheorems.ValidIff | core/id_vector.hpp:43-47 | `is_valid_id` is true of the live ids and of the next ids of the free slots, and of nothing else |
| DenseVectorTheorems.ReservedSlotLooksValid | core/id_vector.hpp:43-47 | a vector with reserved slots and no element calls the id zero valid |
| DenseVectorTheorems.TagsCountErasures | core/id_vector.hpp:160-162 | a slot's tag counts its erasures modulo the tags |
| DenseVectorTheorems.IssuedValidIff | core/id_vector.hpp:43-47 | an issued id is valid if and only if its slot has since been erased a multiple of `tags` times |
| DenseVectorClass.IdVector.constructor | core/id_vector.hpp:11-16 | a new vector holds nothing and has its ids and elements reserved |
| DenseVectorClass.IdVector.ReserveIds | core/id_vector.hpp:19-32 | in place on packed words: grows and keeps the contents |
| DenseVectorClass.IdVector.ReserveElements | core/id_vector.hpp:34-40 | reserving elements reserves as many ids |
| DenseVectorClass.IdVector.IsValidId | core/id_vector.hpp:43-47 | the comparison of tags, true for every live id |
| DenseVectorClass.IdVector.CreateId | core/id_vector.hpp:117-135 | in place on packed words: links the next slot to the position behind the last element |
| DenseVectorClass.IdVector.Emplace | core/id_vector.hpp:70-75 | in place: the contents gain one fresh id with the element |
| DenseVectorClass.IdVector.Find | core/id_vector.hpp:100-113 | the position of a live id's element, with the checks of the source |
| DenseVectorClass.IdVector.Get | core/id_vector.hpp:100-113 | a live id yields its element |
| DenseVectorClass.IdVector.IdFromPosition | core/id_vector.hpp:50-57 | the live id of the element at a position, and the invalid index at the end |
| DenseVectorClass.IdVector.SwapOut | core/id_vector.hpp:146-157 | in place: the last element and its way back move into the gap |
| DenseVectorClass.IdVector.PutBack | core/id_vector.hpp:159-169 | in place on packed words: the slot is appended to the free list |
| DenseVectorClass.IdVector.Erase | core/id_vector.hpp:138-170 | in place: the contents lose exactly the id |
| SchedulerSafety.StepCount | proto/scheduler.hpp:166-182 | every step takes one task from one place to the next, or none |
| SchedulerProtocol.NextInv | proto/scheduler.hpp:25-45 | every step keeps the protocol of sleeping, waking and stopping |
| SchedulerProtocol.NextVictimOk | proto/scheduler.hpp:286-288 | with at least two nodes the next victim is another node |
| SchedulerVictim.NextVictimIsFound | proto/scheduler.hpp:286-288 | the model's next victim is where the search ends: the first round that leaves the node |
| SchedulerVictim.SearchEndsIff | proto/scheduler.hpp:286-288 | the search ends after some round if and only if there are at least two nodes |
| SchedulerVictim.FindVictim | proto/scheduler.hpp:286-288 | the loop ends there, on another node |
| SchedulerProtocol.StopStays | proto/scheduler.hpp:159-162 | a node that has been flagged and pulsed stays bound to see its flag before it can sleep |
| SchedulerTheorems.RunInv | proto/scheduler.hpp:150-316 | the invariant holds in every reachable state |
| SchedulerTheorems.Conservation | proto/scheduler.hpp:166-253 | every live task is in exactly one place: a creator's hands, a queue, pulled, or running; any other id is in none |
| SchedulerTheorems.RunsOnce | proto/scheduler.hpp:166-182 | no task is begun twice, and the tasks created are exactly those begun and those live |
| SchedulerTheorems.ExecutesLiveTask | proto/scheduler.hpp:166-170 | the id a node looks up and erases is valid in the task map |
| SchedulerTheorems.LeftInQueues | proto/scheduler.hpp:285-316 | when all nodes have left their loops, the unfinished tasks are exactly those in the queues, at most one in each, and none of them was begun |
| SchedulerTheorems.StopLosesFew | proto/scheduler.hpp:285-316 | so a stop leaves no more unfinished tasks than there are nodes |
| SchedulerTheorems.SleepSafety | proto/scheduler.hpp:25-45 | the check in `wait` holds; a sleeping node without a pulse can be woken or is about to be pulsed; a pulsed sleeper has a notification under way; that it is woken is SchedulerDelegation.DelegateAlone |
| SchedulerTheorems.StopLeadsOut | proto/scheduler.hpp:225-316 | once a `stop_scheduler` has finished (SchedulerStops.StopAlone), no node blocks any more, and every step of a main loop but pulling an own task brings it nearer to its exit |
| SchedulerTheorems.StopBound | proto/scheduler.hpp:225-316 | over every run, each node then makes at most eight more such steps; that the scheduler gets there is SchedulerStops.FlagLeadsToStop |
| SchedulerTheorems.BlockedIsNotified | proto/scheduler.hpp:27-35 | a node that is still blocked after a finished stop is woken by a step that some call can take now |
| SchedulerTheorems.NeverStuck | proto/scheduler.hpp:243-316 | a node that is not blocked, has not left and is not inside a closure can go on |
| SchedulerQueues.QueueSteps | proto/scheduler.hpp:166-253 | in every step a push goes to the back of the pusher's own queue, a node takes its own youngest task and another node's oldest, and runs what it took; nothing else touches a queue |
| SchedulerPulse.PulseStep | proto/scheduler.hpp:25-45 | a pulse is set exactly by the calls that pulse the node and used up exactly when the node leaves `wait` |
| SchedulerPulse.NoLeaveWithoutPulse | proto/scheduler.hpp:25-45 | over every stretch of every run a node leaves `wait` at most as often as it is pulsed, and once more if it had a pulse at the start |
| SchedulerPulse.LeavesOncePerPulse | proto/scheduler.hpp:25-45 | between two steps in which a node leaves `wait` some call has pulsed it |
| SchedulerDelegation.CallsNewTask | proto/scheduler.hpp:202-219 | a closure's call of `new_task`, and the creation of the root task by node 0, begin above what they interrupt |
| SchedulerDelegation.DelegateAlone | proto/scheduler.hpp:150-267 | with more than one task in the queue, the call ends within 2 * nodes + 1 steps: the first available node after its own in the circle is withdrawn, named where to steal, pulsed, and woken if it slept; all others are untouched; with at most one task it returns at once |
| SchedulerDelegation.NewTaskAlone | proto/scheduler.hpp:243-267 | `new_task` with room in the queue creates the task, queues it behind the others and hands over to the first available node unless it is the only one |
| SchedulerDelegation.FullQueueRunsOwn | proto/scheduler.hpp:250-253 | with a full queue it first runs its youngest task and tries again |
| SchedulerLoop.FindsWork | proto/scheduler.hpp:285-310 | an idle node finds the first queue in the circle that is not empty, within as many rounds as there are nodes, and takes its oldest task |
| SchedulerLoop.IdleSleeps | proto/scheduler.hpp:300-302 | with no work anywhere it blocks after exactly as many empty rounds as there are nodes; a pulse that is already there is used up instead |
| SchedulerLoop.WokenSteals | proto/scheduler.hpp:302-305 | a woken node uses up its pulse and steals from the node it was told to; without a pulse it blocks again |
| SchedulerLoop.AfterStolenTask | proto/scheduler.hpp:290-299 | after a stolen task the node stops being available; if it already was not, it steals from the node that delegated to it meanwhile, unless it has just stolen there |
| SchedulerLoop.BetweenTasks | proto/scheduler.hpp:235-241 | between tasks a node runs its own youngest one; with none left it becomes available and searches, or leaves if it is told to stop |
| SchedulerLoop.NodesBegin | proto/scheduler.hpp:202-219 | at the start every queue is empty and every node would steal from the next one of the circle |
| SchedulerLoop.LoopBegins | proto/scheduler.hpp:276-283 | the loop begins with the node's own queue, and its search after the node that `attach` named |
| SchedulerLoop.DelegationReaches | proto/scheduler.hpp:150-305 | once a call of `new_task` has handed over to a sleeping node, that node alone needs three steps to be about to run the oldest task of the caller |
| SchedulerStops.StopAlone | proto/scheduler.hpp:225-233 | the first call of `stop_scheduler` on its node, alone, returns within 3 * nodes + 2 steps with every node flagged and pulsed and every sleeper woken; a later call returns at once and changes nothing |
| SchedulerStops.CallsStop | proto/scheduler.hpp:225-227 | a closure's call of `stop_scheduler` begins above the closure |
| SchedulerStops.RunFlags | proto/scheduler.hpp:225-233 | over every run a node's flag is up only if the scheduler is stopped or some call is in the middle of stopping it |
| SchedulerStops.FlagLeadsToStop | proto/scheduler.hpp:225-233 | such a call, alone from any point of it, stops the scheduler within 3 * nodes + 1 steps |
| SchedulerClass.UniquePulse.constructor | proto/scheduler.hpp:46-51 | a new pulse is neither set nor slept on |
| SchedulerClass.UniquePulse.Pulse | proto/scheduler.hpp:27-35 | in place: sets the pulse, and asks for a notification if and only if the node was asleep, which it then no longer is |
| SchedulerClass.UniquePulse.Wait | proto/scheduler.hpp:37-44 | in place: leaves at once if and only if the pulse was set, and uses it up; otherwise falls asleep |
| SchedulerClass.UniquePulse.Retest | proto/scheduler.hpp:41-43 | in place: after a wake-up, leaves if and only if the pulse is set, and uses it up; otherwise stays as it was |

## Left out

- Weak memory: all atomic accesses are sequentially consistent, whatever order the source names.
- `core/arraydelegate.hpp` and `proto/arraydelegate.hpp`: placement of closures and template dispatch; a closure is opaque.
- `core/stable_id_vector_fwd.hpp` and `proto/scheduler.cpp`: they do not match their headers; the declaration of the stable vector is not part of this model, and a new entry is taken to start with a zero word.
- `core/blocking_counter.hpp`, `proto/signal.hpp`, `core/window.hpp`, `core/application.hpp`, the build files and programs: not part of this model.
- Checks that are compiled out of release builds appear as preconditions where a caller answers for them; the loads they perform are not steps.
- `INDEX_BITS` and `OUTER_BITS`: a layout has as many bits as it likes, while the source's `1 << BITS` needs at most 30 of them, so the 56-bit default of `IdVector64` is not covered.
- `spin_emplace`, and progress under contention: a call of the slot map that runs alone is proved to end, that some attempt succeeds while others interfere is not.
- Timeouts: a steal may give up on the lock at any time; durations are not modelled.
- Access to elements through `operator[]` by several threads: the element is a value, and aliasing of references to it is not captured.
- The slot map and the queue are proved as transition systems on values; their classes perform the same steps in place, with one method for each step instead of one thread inside a method.
- The scheduler's nodes are modelled on values: only `UniquePulse` has a class, and update in place of the other fields of a node is not captured.
- The scheduler's task map and queues are abstract: their own concurrency is what the first two pieces prove away, and the map is taken not to be full, as the check in `new_task` demands.
- SlotMapSafety.NextInv: is about timely steps, in which a pop is fewer than `tags` head updates old and an erase names an id fewer than `tags` reuses old, because with real tags the property is false otherwise. For the pop SlotMapRuns.PopKeepsInvIff says exactly when and SlotMapAba.BoundIsTight shows it; for the lock SlotMapSafety.LockOwnIffTimely and SlotMapStale.StaleEraseTakesAnother do.
- SlotMapSafety.LockCasInv: is about timely steps, for the same reason as SlotMapSafety.NextInv.
- SlotMapTheorems.RunInv: is about timely steps, for the same reason as SlotMapSafety.NextInv.
- SlotMapTheorems.RefinesMap: is about timely steps, for the same reason as SlotMapSafety.NextInv.
- SlotMapRefinement.RunRefines: is about timely steps, for the same reason as SlotMapSafety.NextInv.
- SlotMapRuns.ErasedOnce: is about timely steps, for the same reason as SlotMapSafety.NextInv.
- SlotMapRuns.TagsAdvanceByOne: is about timely steps, for the same reason as SlotMapSafety.NextInv.
- SlotMapRuns.IdsRepeatAfterAllTags: is about timely steps, for the same reason as SlotMapSafety.NextInv.
- SlotMapSolo.KeepsPromise: asks that a pop's head word is fewer than `tags` updates old and a lock's id fewer than `tags` reuses, for the same reason as SlotMapSafety.NextInv; a release may have read a head word of any age.
- SlotMapSolo.FinishesAlone: asks the same of a lock's id only.
- WorkQueueSafety.NextInv: is about unbounded indices; WorkQueueWidth.WidthRefinesIff says exactly which runs on 32-bit words it carries over to, and WorkQueueFailures.HandsOutTwice that it fails beyond.
- ExecutorSafety.AddTaskInv: the ids of new tasks and records are chosen by the environment, not in use and not among the dependencies; ExecutorIds.NewTaskCanBeAdded says that the ids of the stable vector are such, and that a dependency named by the new id itself, possible once its tag has gone round, is the one exception.
- ExecutorSafety.AddTaskInv: affinity must be `NO_AFFINITY` or below `MAX_THREADS`; the source's check also lets `MAX_THREADS` pass, which is outside of its array of queues.
- ExecutorTheorems.CounterExact: needs the records to fit into their slot vector, 2^14 - 1 of them, which is what keeps the 16-bit counter from wrapping.
- ExecutorRuns.DependenciesRunFirst: is about recorded dependencies, because the source does not record one on a task that has been popped already.
- ExecutorClass.TaskExecutor.RunOneWithAffinity: is one round of the loop; waiting for tasks, and the flag that a thread exists for an affinity, are not modelled.
- ExecutorClass.TaskExecutor.AddTask: takes the new ids as parameters instead of calling the vectors; ExecutorIds connects the two.
- StableVectorClass.StableIdVector.Get: the stable vector's check for stale ids is a precondition.
- SchedulerTheorems.LeftInQueues: a task that is left in a queue is lost, as in the source; that every queued task is eventually stolen is not claimed for nodes that do not run alone.
- SchedulerTheorems.SleepSafety: a sleeping node may have one task in its queue that nobody has stolen yet, since a pull and a steal may both fail for lack of the lock.
