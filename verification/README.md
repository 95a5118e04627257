# FreeRTOS kernel: a verified model

The firmware runs on a FreeRTOS V8.1.2 kernel. This project models the parts of that kernel that are
hardest to get right and proves that they are right: the 32-bit tick and everything that sleeps on it,
queues and mutexes, the coalescing and the best-fit heap, the intrusive lists that carry all task
state, event groups, software timers and co-routines. `dafny verify dfyconfig.toml` checks all of it.

Most parts have three layers.

* A **pure model**: the state as a value and every operation as a function of it, with the same
  branches and the same 32-bit arithmetic as the C code. Where the code compares wrapped ticks, the
  model compares wrapped ticks; an unbounded clock is carried beside them and read by no decision.
* **Properties** of that model over every state, every call and every history of calls.
* The **code as it runs**: classes whose methods assign the code's variables, with the loops of the
  source. Each method is proved to take the state to where the pure function takes it, so the properties
  hold of the methods. `KernelList` and `KernelEventGroup` relink pointers, `Heap4` and `Heap2` relink
  block headers, and `QueueStorage` writes bytes into a buffer; in `TaskKernel`, `TimerDaemon`,
  `CoRoutineScheduler` and `KernelQueue` the lists are values that the methods assign to fields.

| part | model and properties | as it runs |
|---|---|---|
| lists | `RingList`, `ItemStore` | `KernelList` (pointers) |
| 32-bit time | `Ticks`, `TimedLists`, `Timeouts` | `Timeouts` |
| scheduler | `TaskState`, `TaskTick`, `TaskMoves`, `TaskSteps`, `TaskInvariant`, `TaskRuns`, `TaskDelays`, `TaskPeriods`, `TaskSelection`, `TaskPriorities`, `TaskQueueing`, `TaskEffects`, `TaskReport` | `TaskKernel`, `Words` |
| queues | `QueueModel`, `QueueControl`, `QueueProtocol`; over the scheduler `TaskWaits`, `QueueTasks`, `QueueCalls` | `QueueStorage` (bytes), `KernelQueue` |
| mutexes | `Mutexes`, `MutexPriorities` | `KernelMutexes` |
| heap_4 | `Blocks`, `Heap4Model`, `Heap4List`, `Heap4Runs`, `FreeLinks` | `Heap4` |
| heap_2 | `Heap2Model`, `HeapSizes` (and heap_4) | `Heap2` |
| timers | `Timers`, `TimerRuns`, `TimerCallbacks`, `TimerCommands`, `TimerLoop`, `TimerStops`, `TimerStopCalls` | `TimerDaemon` |
| event groups | `EventGroups`, `EventReturns`, `EventDeletion`, `Rendezvous` | `KernelEventGroup` (pointers) |
| co-routines | `CoRoutines`, `CoRoutineRuns`, `CoRoutineHistories`, `CoRoutineSteps` | `CoRoutineScheduler` |

The build switches timers and co-routines off (`FreeRTOSConfig.h`); both are modelled as if they were
on. Co-routine priorities are then a matter of configuration, and two are assumed.

## What turned out not to hold as one might expect

Each of these is a lemma with a concrete input or an exact condition, and the code is modelled as it is.

* **One wrap of the tick is not enough for the timer service.** It notices a wrap by comparing two
  samples of the tick, which is right exactly when they are less than 2^32 ticks apart; two samples with
  one wrap between them can be further apart than that (`Timers.WrapIsNoticedExactlyWhen`,
  `Timers.OneWrapCanBeMissed`).
* **A stop can be undone.** A daemon that is late for an auto-reload timer queues a start command of its
  own; if the user's stop is already in the queue, the start comes behind it and revives the timer
  (`TimerCommands.StopCanBeUndone`). A stop that the daemon takes holds, in every history of its loop,
  exactly when no start for the timer is queued behind it, the last command for the timer behind it is no
  new period, and the daemon cannot catch the timer between a new period and the next command for it,
  which takes a command for another timer between the two and a sample there that ends a turn of the tick
  (`TimerStops.StopHoldsExactlyWhen`, `TimerStops.HoldsUntilCaught`; `TimerStops.NewPeriodCanBeCaught` is
  an input, and `TimerStops.BackToBackHolds` says that commands behind one another are safe). A stop that
  is posted holds exactly when the daemon does not fall behind with the timer before it takes the stop,
  that is, when no sample ends a turn of the tick with the timer still on that turn's list, and the daemon
  does not call it back a whole period late (`TimerStopCalls.PostedStopHoldsExactlyWhen`,
  `TimerStopCalls.PostedStopCanFail`). In particular it holds if all that the daemon does before it takes
  the stop is done before the timer's next expiry.
* **Deleting an event group can leave a task with freed memory.** A task that has timed out, but has not
  run since, goes on to read the group's bits, and may clear some. A deletion is safe exactly when there
  is no such task (`EventDeletion.DeleteIsSafeExactlyWhen`, `EventDeletion.DeleteCanStrandATask`).
* **A timeout can pass unnoticed** when the tick overflows at least twice between two checks
  (`Timeouts.CheckIsRight` gives the exact condition, `Timeouts.TwoOverflowsCanHideATimeout` an input).
* **`vTaskDelayUntil` decides modulo whole turns of the tick**: the decision is right for a call less
  than 2^32 ticks late, and otherwise exactly when the rest of the lateness is at least the increment
  (`TaskDelays.DelayUntilDecides`, `TaskDelays.LateCallCanBlock`).
* **`xQueueReset` loses wake-ups** exactly when at least two senders wait and the queue has more slots
  than the senders woken before and the one it wakes (`QueueControl.ResetKeepsExactlyWhen`,
  `QueueControl.ResetCanStrandASender`, in a state that `QueueProtocol.TwoSendersWait` reaches).
* **Deleting a task that has been woken and has not looked yet** can leave another waiting for ever: the
  wake-up goes with it. That is so exactly when others wait on the same list and there is no wake-up to
  spare (`QueueControl.DeletionKeepsExactlyWhen`, `QueueProtocol.DeletionCanStrandASender`).
* **Overwriting a full queue whose items have no bytes counts one message too many**; every other send
  keeps the queue within its length (`QueueModel.SendKeepsBounded`, `QueueModel.OverwriteCanOverflow`).
  `prvIsQueueFull` compares for equality, so such a queue does not look full; `QueueControl` follows the
  code.
* **`vTaskPrioritySet` on a task that runs at an inherited priority** gives its event item the value of
  the new priority although the task goes on at the inherited one, so the task is queued for events by
  a priority it does not have. Event items follow priorities in every run without such a call, and the
  condition is exact (`TaskPriorities.SetPriorityFollowsExactlyWhen`,
  `TaskPriorities.SettingWhileInheritedDiverges`, `TaskPriorities.EventValuesFollowPriorities`).
* **heap_2 does not check its size addition for overflow**: a request above 2^32 - 8 looks as small as
  eight bytes, and is given a block of that size (`Heap2Model.RoomExactlyWhen`,
  `Heap2Model.HugeRequestLooksSmall`).

## Model

| member | source | states |
|---|---|---|
| RingList.WalkVisitsAll | FreeRTOS/include/list.h:268-279 | from any index, N advances over N items return the items from the index on and then those up to it |
| RingList.WalkOnceEach | FreeRTOS/include/list.h:268-279 | hence N advances return every item and none twice |
| RingList.InsertEndVisitedLast | FreeRTOS/list.c:102-118 | an item inserted at the end is returned after every older item but the one at the index has been returned once |
| RingList.InsertKeepsIndex | FreeRTOS/list.c:102-176 | an insertion leaves the index at the item it is at |
| RingList.RemoveSkipsNobody | FreeRTOS/list.c:179-202 | removal leaves the order in which the other items come as it was; removing the item at the index skips nobody |
| RingList.SortedInsert | FreeRTOS/list.c:121-176 | a sorted insertion keeps the order and is stable: equal values stay in front, at every value |
| KernelList.List.constructor | FreeRTOS/list.c:75-92 | a new list is a well-formed circle of the end marker alone, and empty |
| KernelList.List.InsertEnd | FreeRTOS/list.c:102-118 | relinking the circle puts the item just before the one at the index; links, count, index and container agree again |
| KernelList.List.Insert | FreeRTOS/list.c:121-176 | the search loop and the special case for portMAX_DELAY both put the item behind all values up to its own |
| KernelList.List.FindPlace | FreeRTOS/list.c:135-164 | the loop stops at the last node whose value is not above the new one |
| KernelList.ListRemove | FreeRTOS/list.c:179-202 | the item leaves the list its container names, the index steps back if it was on it, and the number left is returned |
| KernelList.List.GetOwnerOfNextEntry | FreeRTOS/include/list.h:268-279 | the index moves to the next item over the end marker, and its owner is returned |
| KernelList.CollectOwners | FreeRTOS/tasks.c:2953-3031 | walking until the first owner comes round again returns each item's owner once |
| Words.GetHighest | FreeRTOS/portable/MSVC-MingW/portmacro.h:129-144 | the position returned is the highest one set |
| ItemStore.DetachKeeps | FreeRTOS/list.c:179-202 | with many lists and many items, removing an item keeps containers and membership in agreement and touches no other item |
| ItemStore.AttachKeeps | FreeRTOS/list.c:102-176 | so does inserting an item that is on no list |
| ItemStore.AttachSortedKeepsSorted | FreeRTOS/list.c:121-176 | a sorted list stays sorted, and so does every other list |
| Ticks.TickIs32Bits | FreeRTOS/portable/MSVC-MingW/portmacro.h:92-93 | the tick is a number of 32 bits, and the longest wait is the largest of them |
| Ticks.NextTick | FreeRTOS/tasks.c:1862-1874 | one tick adds one to the wrapped tick, or wraps it and starts the next turn |
| Ticks.WrapDifference | FreeRTOS/tasks.c:2482-2485 | the wrapped difference of two ticks is the time between them up to whole turns |
| TaskTick.DelayedListEmptyAtWrap | FreeRTOS/tasks.c:345-357 | the delayed list is empty whenever the tick wraps, so the assertion in the list switch never fires |
| TaskTick.IncrementTickKeeps | FreeRTOS/tasks.c:1850-1961 | a tick keeps the delayed list this turn's and the overflow list the next turn's, keeps the next unblock time no later than the head, and wakes exactly the tasks due |
| TaskTick.TickExact | FreeRTOS/tasks.c:1850-1961 | a delayed task becomes ready on the tick that reaches its wake time and on no earlier one |
| TaskTick.TickFindsNextUnblock | FreeRTOS/tasks.c:1880-1925 | a tick that reaches the next unblock time leaves it at the earliest wake time that is left |
| TaskTick.ResetNextUnblockKeeps | FreeRTOS/tasks.c:3107-3129 | recomputing the next unblock time makes it the head's wake time, never later than any |
| TaskState.AddToDelayedKeeps | FreeRTOS/tasks.c:2884-2911 | filing a wake time by comparing it with the wrapped tick keeps both lists sorted and each in its turn |
| TaskState.LeaveKeeps | FreeRTOS/tasks.c:331-337 | a task leaving a list clears its ready bit exactly when its ready list becomes empty |
| TaskState.AddToReadyKeeps | FreeRTOS/tasks.c:365-368 | adding a task keeps the top priority an upper bound and sets the bit of its priority |
| TaskInvariant.CreateKeeps | FreeRTOS/tasks.c:516-691 | creation keeps the invariant: one more task, on exactly one state list |
| TaskInvariant.DeleteKeeps | FreeRTOS/tasks.c:696-771 | so does deletion, which leaves the task waiting for termination |
| TaskInvariant.CleanUpKeeps | FreeRTOS/tasks.c:2843-2881 | so does freeing a deleted task |
| TaskInvariant.SuspendTaskKeeps | FreeRTOS/tasks.c:1196-1278 | so does suspension, from any list |
| TaskInvariant.ResumeTaskKeeps | FreeRTOS/tasks.c:1331-1377 | so does resumption, which does nothing to a task that is not suspended |
| TaskInvariant.ResumeFromISRKeeps | FreeRTOS/tasks.c:1385-1450 | so does resumption from an interrupt, through the pending list while the scheduler is suspended |
| TaskInvariant.DelayKeeps | FreeRTOS/tasks.c:874-933 | so does a delay |
| TaskInvariant.DelayUntilKeeps | FreeRTOS/tasks.c:778-867 | so does a delay until a time |
| TaskInvariant.PlaceOnEventListKeeps | FreeRTOS/tasks.c:2174-2230 | so does waiting for an event, for ever if the time is portMAX_DELAY |
| TaskInvariant.PlaceOnUnorderedKeeps | FreeRTOS/tasks.c:2233-2296 | so does waiting on an unordered event list |
| TaskInvariant.RemoveFromEventListKeeps | FreeRTOS/tasks.c:2344-2395 | so does waking the first waiter, by way of the pending list while the scheduler is suspended |
| TaskInvariant.RemoveFromUnorderedKeeps | FreeRTOS/tasks.c:2398-2440 | so does waking a given waiter |
| TaskInvariant.SetPriorityKeeps | FreeRTOS/tasks.c:1032-1189 | so does a change of priority: a ready task is on the list of its new priority |
| TaskInvariant.InheritKeeps | FreeRTOS/tasks.c:3179-3235 | so does priority inheritance |
| TaskInvariant.DisinheritKeeps | FreeRTOS/tasks.c:3242-3301 | so does its end |
| TaskInvariant.ScanFindsHighestBit | FreeRTOS/tasks.c:283-295 | the scan down from the top priority stops, at the highest bit that is set |
| TaskInvariant.SwitchContextKeeps | FreeRTOS/tasks.c:2114-2171 | a context switch keeps the invariant and moves no task |
| TaskInvariant.SelectedIsReady | FreeRTOS/tasks.c:2114-2160 | the task selected is on the ready list of the priority the scan found |
| TaskInvariant.ResumeAllKeeps | FreeRTOS/tasks.c:1582-1672 | resuming the scheduler empties the pending list, replays every pended tick, and leaves each task where that many ticks would have left it |
| TaskInvariant.TickInterruptKeeps | FreeRTOS/tasks.c:1994-1996 | a tick interrupt is processed or pended, and counted either way |
| TaskRuns.StepKeeps | FreeRTOS/tasks.c:516-3602 | every operation of the scheduler keeps the whole invariant |
| TaskRuns.BootIsGood | FreeRTOS/tasks.c:596-660 | it holds when the scheduler starts, whatever tasks were created before, with the idle task as the last |
| TaskRuns.StartsWithMostUrgent | FreeRTOS/tasks.c:625-650 | the task that runs first is the one created last of the highest priority |
| TaskRuns.TasksAreConserved | FreeRTOS/tasks.c:696-742 | in every reachable state each task is on exactly one state list, no item is on two lists, containers agree with membership, the task count is right, and processed plus pended ticks equal the tick interrupts |
| TaskRuns.StepWhileAsleep | FreeRTOS/tasks.c:1850-1961 | no step that leaves a sleeper alone changes when it wakes: delayed until its time, ready from then on |
| TaskEffects.Creates | FreeRTOS/tasks.c:516-691 | a new task is ready at the priority asked for, or the highest there is, which is its own too |
| TaskEffects.Removes | FreeRTOS/tasks.c:696-771 | a deleted task waits for termination and nothing else, and a suspended one is on the suspended list |
| TaskEffects.ResetsNextUnblock | FreeRTOS/tasks.c:746-769 | when another task is deleted or suspended the next unblock time becomes the earliest wake time left; a caller that removes itself leaves it alone |
| TaskEffects.Frees | FreeRTOS/tasks.c:2843-2881 | the first task that waits for termination is freed, if there is one |
| TaskEffects.Resumes | FreeRTOS/tasks.c:1287-1450 | resuming makes a task ready that is really suspended and is not the caller, or pends it from an interrupt while the scheduler is suspended, and does nothing to any other |
| TaskEffects.GoesToWait | FreeRTOS/tasks.c:2174-2230 | a caller that waits is on the event list and asleep: suspended if it waits for ever, and otherwise delayed |
| TaskEffects.GoesToWaitUnordered | FreeRTOS/tasks.c:2233-2296 | so is one that waits on an unordered event list |
| TaskEffects.Wakes | FreeRTOS/tasks.c:2344-2440 | an event makes its first waiter ready, or pends it while the scheduler is suspended; handed to one waiter it makes that one ready |
| TaskEffects.IsGivenPriority | FreeRTOS/tasks.c:1032-1189 | the step of the scheduler that sets a priority does so: the task's own becomes the one asked for, or the highest there is, and the one it runs at too unless it is inherited |
| TaskEffects.Inherits | FreeRTOS/tasks.c:3179-3235 | a task inherits the caller's priority if it is higher than the one it runs at, and nothing else changes |
| TaskEffects.TakesAndGives | FreeRTOS/tasks.c:3242-3301 | a caller counts one mutex more or fewer, and with the last goes back to its own priority |
| TaskEffects.StaysInItsList | FreeRTOS/tasks.c:1148-1178 | through changes of priority a ready task stays ready, on the list of the priority it then runs at, and a delayed one delayed; whoever waits goes on waiting |
| TaskEffects.Counts | FreeRTOS/tasks.c:3576-3587 | resetting the value of the caller's event item gives it that of the caller's priority; suspending the scheduler counts one more |
| TaskEffects.JoinsTheEnd | FreeRTOS/tasks.c:365-368 | a task that becomes ready goes where all others of its priority are visited before it |
| TaskDelays.DelaysAreExact | FreeRTOS/tasks.c:874-933 | a task delayed for d ticks is ready on exactly the d-th processed tick, in any run that leaves it alone and over any number of wraps |
| TaskDelays.TimeoutsAreExact | FreeRTOS/tasks.c:2174-2230 | the timeout of a wait for an event is just as exact |
| TaskDelays.DelayDecision | FreeRTOS/tasks.c:791-825 | in unbounded time the wrapped comparisons ask whether the lateness modulo 2^32 is below the increment |
| TaskDelays.DelayUntilDecides | FreeRTOS/tasks.c:791-825 | right whenever the call is less than a turn late, and exactly when it is right otherwise |
| TaskDelays.LateCallCanBlock | FreeRTOS/tasks.c:791-825 | an input for which it is wrong: a call a turn and ten ticks late, with an increment of 100, blocks |
| TaskDelays.DelayUntilIsExact | FreeRTOS/tasks.c:778-867 | it blocks exactly if the next wake time is ahead, and then wakes at exactly the previous wake time plus the increment |
| TaskPeriods.NoDrift | FreeRTOS/tasks.c:778-867 | in any run in which a task makes one call in each period, each less than a turn late, call j finds P + jI modulo 2^32 in the variable, blocks exactly if P + (j+1)I is ahead, and the task is delayed before that time and ready from it on |
| TaskDelays.TimeoutsReadTheClock | FreeRTOS/tasks.c:2443-2448 | the overflow count and tick that timeouts read stand for the processed ticks |
| TaskSelection.SelectsHighestPriority | FreeRTOS/tasks.c:2114-2160 | in every reachable state with the idle task spared, scan and bitmap agree and the task selected is a ready one of the highest ready priority |
| TaskSelection.EverybodyGetsATurn | FreeRTOS/tasks.c:283-295 | as many switches as there are ready tasks of that priority select each of them once |
| TaskSelection.IdleStaysReady | FreeRTOS/tasks.c:2555-2655 | a task that is not deleted or suspended and does not block stays ready, so the scan always ends |
| TaskPriorities.SetPriorityFollowsExactlyWhen | FreeRTOS/tasks.c:1112-1145 | a new priority keeps event values in step with the priorities tasks run at, exactly unless the task runs at an inherited one |
| TaskPriorities.SetsPriority | FreeRTOS/tasks.c:1110-1135 | a task's own priority becomes the one asked for, or the highest there is, and so does the one it runs at unless that is inherited; no other control block changes |
| TaskPriorities.SettingWhileInheritedDiverges | FreeRTOS/tasks.c:1116-1141 | a run from the start to a state in which the idle task runs at an inherited priority, and a new priority after which its event value is not that of the priority it goes on at |
| TaskPriorities.EventValuesFollowPriorities | FreeRTOS/tasks.c:2174-2185 | in every run without such a call a task that starts to wait is queued by the priority it then has, inherited or not |
| TaskPriorities.UnorderedEventValue | FreeRTOS/tasks.c:2398-2440 | waiting on an unordered list stores the value waited for, and being removed from it hands over the value given, both marked as in use; no other value changes |
| TaskPriorities.InheritanceLasts | FreeRTOS/tasks.c:3179-3235 | a holder somebody has contended with runs at no less than that task's priority until it gives its last mutex, in any run that does not set its priority |
| TaskPriorities.LastMutexEndsInheritance | FreeRTOS/tasks.c:3242-3301 | with the last mutex given the holder is back at its own priority, and nobody else's changes |
| TaskQueueing.WakesMostUrgent | FreeRTOS/tasks.c:2174-2187 | in every run in which no task on an event list changes its priority, and none that runs at an inherited one is given a new one, the first of the list has the highest priority of all that wait there |
| TaskQueueing.StepQueued | FreeRTOS/tasks.c:2344-2395 | every other step keeps event lists in the order of their values |
| TaskReport.SystemStateIsComplete | FreeRTOS/tasks.c:1746-1813 | given room, each task is reported exactly once, as many as there are tasks, with the priority it runs at and its own; ready exactly if on a ready list, deleted exactly if on the termination list, suspended exactly if on the suspended list with its event item on none, and blocked otherwise; given less, nothing is reported |
| TaskKernel.Kernel.constructor | FreeRTOS/tasks.c:602-623 | the first task: all lists and counters of a good state, with that task current |
| TaskKernel.Kernel.CreateBeforeStart | FreeRTOS/tasks.c:625-650 | in place: one more task before the scheduler runs, current unless the current one has a higher priority; the state stays good and fresh |
| TaskKernel.Kernel.AddTaskToReadyList | FreeRTOS/tasks.c:365-368 | a live task on no state list goes to the end of the ready list of its priority and nothing else moves; the bit of that list is then set and no bit is above the top priority |
| TaskKernel.Kernel.AddCurrentTaskToDelayedList | FreeRTOS/tasks.c:2884-2911 | the caller, off its list, is delayed until exactly the one time less than a turn ahead that the wrapped wake time stands for; both lists stay sorted and in their turns, and the next unblock time no later than the head |
| TaskKernel.Kernel.ResetNextTaskUnblockTime | FreeRTOS/tasks.c:3107-3129 | the next unblock time is the earliest wake time on a sorted delayed list, or portMAX_DELAY if it is empty |
| TaskKernel.Kernel.SwitchDelayedLists | FreeRTOS/tasks.c:345-357 | with the list of the turn that is over empty, as asserted, the other becomes the delayed list and the overflow list is empty; right after the tick has wrapped the lists are then those of the new turn and the next, and the next unblock time is the earliest |
| TaskKernel.Kernel.DrainDelayedList | FreeRTOS/tasks.c:1880-1961 | the loop over the delayed list wakes what is due, in order, and sets the next unblock time |
| TaskKernel.Kernel.IncrementTickNow | FreeRTOS/tasks.c:1850-1961 | in place: the tick with its wrap, list switch and wake-ups |
| TaskKernel.Kernel.TickInterrupt | FreeRTOS/tasks.c:1850-2021 | in place: the tick is processed, or pended while the scheduler is suspended |
| TaskKernel.Kernel.SuspendAll | FreeRTOS/tasks.c:1544-1551 | in place: one more suspension |
| TaskKernel.Kernel.ResumeAll | FreeRTOS/tasks.c:1582-1672 | both loops: pending tasks are made ready and pended ticks replayed one by one |
| TaskKernel.Kernel.SwitchContext | FreeRTOS/tasks.c:2114-2171 | the scan form, as a loop, selects what the model selects |
| TaskKernel.Kernel.SwitchContextByBitmap | FreeRTOS/tasks.c:312-337 | the bitmap form selects the same task |
| TaskKernel.Kernel.Create | FreeRTOS/tasks.c:516-691 | in place: control block, items and counters of a new task |
| TaskKernel.Kernel.Delete | FreeRTOS/tasks.c:696-771 | in place: off every list and on the termination list |
| TaskKernel.Kernel.FreeDeletedTasks | FreeRTOS/tasks.c:2843-2881 | the loop frees every task waiting for termination and touches no other |
| TaskKernel.Kernel.Delay | FreeRTOS/tasks.c:874-933 | in place; the caller then sleeps until exactly the ticks asked for have been processed |
| TaskKernel.Kernel.DelayUntil | FreeRTOS/tasks.c:778-867 | in place; the caller sleeps until the next wake time, and the variable is advanced by the increment |
| TaskKernel.Kernel.PlaceOnEventList | FreeRTOS/tasks.c:2174-2230 | in place: event item in order of its value, generic item delayed or suspended |
| TaskKernel.Kernel.PlaceOnUnorderedEventList | FreeRTOS/tasks.c:2233-2296 | in place: the item value is marked as in use and the item put at the end |
| TaskKernel.Kernel.RemoveFromEventList | FreeRTOS/tasks.c:2344-2395 | in place: the head is made ready or pended |
| TaskKernel.Kernel.RemoveFromUnorderedEventList | FreeRTOS/tasks.c:2398-2440 | in place: the given waiter is handed its value and made ready |
| TaskKernel.Kernel.Suspend | FreeRTOS/tasks.c:1196-1278 | in place: off every list and on the suspended list |
| TaskKernel.Kernel.Resume | FreeRTOS/tasks.c:1331-1377 | in place: made ready if really suspended |
| TaskKernel.Kernel.ResumeFromISR | FreeRTOS/tasks.c:1385-1450 | in place: made ready, or pended while the scheduler is suspended |
| TaskKernel.Kernel.PrioritySet | FreeRTOS/tasks.c:1032-1189 | in place: the base priority is the one asked for or the highest there is, and so is the priority unless it is inherited; event value and ready list follow |
| TaskKernel.Kernel.PriorityInherit | FreeRTOS/tasks.c:3179-3235 | in place: the holder is raised to the caller's priority, and moved if ready |
| TaskKernel.Kernel.PriorityDisinherit | FreeRTOS/tasks.c:3242-3301 | in place: one mutex fewer, and the own priority back with the last |
| TaskKernel.Kernel.IncrementMutexHeldCount | FreeRTOS/tasks.c:3592-3602 | in place: one mutex more |
| TaskKernel.Kernel.TakeEventItemValue | FreeRTOS/tasks.c:3576-3587 | the event value is returned and reset to the priority's |
| TaskKernel.Kernel.GetSystemState | FreeRTOS/tasks.c:1746-1813 | the walk over every list produces that report: one entry for each task, telling its priorities and where it is, or none at all if there is no room |
| Timeouts.CheckIsRight | FreeRTOS/tasks.c:2451-2497 | one check tells the truth about unbounded time exactly when the timeout does not hide behind two or more overflows |
| Timeouts.TwoOverflowsCanHideATimeout | FreeRTOS/tasks.c:2474-2488 | an input for which a timeout that has passed is not reported |
| Timeouts.TimeoutsTelescope | FreeRTOS/tasks.c:2443-2496 | over any checks at most one overflow apart, elapsed plus remaining is the original wait, and expiry is reported exactly when the whole wait has passed |
| Timeouts.EndlessWaitNeverExpires | FreeRTOS/tasks.c:2463-2470 | a wait of portMAX_DELAY never expires and never changes |
| Timeouts.TimeOut.SetState | FreeRTOS/tasks.c:2443-2448 | a check at most one overflow later reports expiry exactly when the whole wait has passed since the counters were read, and otherwise leaves what is left of it |
| Timeouts.TimeOut.CheckFor | FreeRTOS/tasks.c:2451-2497 | in place: the mark and the remaining ticks are updated as the model says |
| QueueModel.FirstInFirstOut | FreeRTOS/queue.c:595-792 | over any history with sends to either end and overwriting, the messages sent to the back come out in the order in which they were accepted, none lost or doubled except those overwritten; with no sends to the front, what has been received followed by what is queued is what was accepted |
| QueueModel.DoesTheOperation | FreeRTOS/queue.c:595-1383 | the queue of such a history is what its sends and receives make of it, and what is received is the first message |
| QueueModel.FrontIsNext | FreeRTOS/queue.c:1656-1667 | a message sent to the front is received next, and everything else in the order of before |
| QueueModel.OverwriteIsNext | FreeRTOS/queue.c:1656-1692 | a message that overwrites is the next one received, and nothing is behind it |
| QueueModel.SendIsPlaced | FreeRTOS/queue.c:1622-1693 | an accepted message goes behind all others, before them, or in the place of the only one; but one without bytes replaces none |
| QueueModel.HistoryKeepsBounded | FreeRTOS/queue.c:1622-1693 | every history keeps the queue within its length, if messages have bytes or none overwrites |
| QueueModel.SendKeepsBounded | FreeRTOS/queue.c:1622-1693 | a send keeps the queue within its length, except exactly an overwrite of a full queue whose items have no bytes |
| QueueModel.OverwriteCanOverflow | FreeRTOS/queue.c:1669-1692 | an input for it: a full queue of one message without bytes then counts two |
| QueueStorage.AppendsMessage | FreeRTOS/queue.c:1643-1655 | copying into the slot behind the last message appends to the queue that the bytes denote |
| QueueStorage.PrependsMessage | FreeRTOS/queue.c:1656-1667 | copying into the slot at the read position and stepping back prepends |
| QueueStorage.DropsFirst | FreeRTOS/queue.c:1696-1711 | stepping the read position on drops the first message |
| QueueStorage.RoundIsModulo | FreeRTOS/queue.c:1646-1650 | wrapping a position by comparing with the end is arithmetic modulo the length |
| QueueStorage.Storage.PositionsAgree | FreeRTOS/queue.c:255-305 | the write position is always the read position plus one plus the count, modulo the length |
| QueueStorage.Storage.constructor | FreeRTOS/queue.c:308-371 | a new queue is empty, for every length and item size |
| QueueStorage.Storage.Reset | FreeRTOS/queue.c:255-305 | a reset empties the queue |
| QueueStorage.Storage.CopyDataToQueue | FreeRTOS/queue.c:1622-1693 | in place: behind all others, before them, or overwriting: the queue then holds exactly the new message, if messages have bytes |
| QueueStorage.Storage.CopyDataFromQueue | FreeRTOS/queue.c:1696-1711 | in place: the head is copied out |
| QueueStorage.Storage.Put | FreeRTOS/queue.c:616-702 | a send is accepted exactly if there is room or it overwrites, and then the message is where it belongs; otherwise nothing changes |
| QueueStorage.Storage.Take | FreeRTOS/queue.c:1218-1262 | a receive returns and removes the head, and fails exactly on an empty queue |
| QueueStorage.Storage.Peek | FreeRTOS/queue.c:1263-1296 | a peek returns the head and leaves the whole state as it was |
| QueueControl.UnlockTxWakes | FreeRTOS/queue.c:1722-1797 | unlocking wakes exactly the lesser of the send lock count and the receivers waiting, in the order of the list |
| QueueControl.UnlockRxWakes | FreeRTOS/queue.c:1800-1825 | and likewise senders for the receive lock count |
| QueueControl.TrySendKeeps | FreeRTOS/queue.c:616-702 | the critical section of a send loses no wake-up |
| QueueControl.TryReceiveKeeps | FreeRTOS/queue.c:1218-1298 | nor does that of a receive or a peek |
| QueueControl.SendFromISRKeeps | FreeRTOS/queue.c:1040-1194 | nor does a send from an interrupt, which only counts while the queue is locked |
| QueueControl.ReceiveFromISRKeeps | FreeRTOS/queue.c:1386-1470 | nor does a receive from an interrupt |
| QueueControl.ResetKeepsExactlyWhen | FreeRTOS/queue.c:255-305 | a reset loses a wake-up exactly when at least two senders wait and the queue has more slots than the senders woken before and the one it wakes |
| QueueControl.ResetCanStrandASender | FreeRTOS/queue.c:270-287 | an input for which it does |
| QueueProtocol.StepKeeps | FreeRTOS/queue.c:595-792 | every atomic step of sends, receives, interrupts, locking, unlocking and timing out keeps the invariant |
| QueueProtocol.NoWakeUpIsLost | FreeRTOS/queue.c:1714-1826 | in every reachable state, if somebody waits to receive then the messages are no more than the woken tasks that have still to look plus the send lock count; and symmetrically for free slots |
| QueueProtocol.TwoSendersWait | FreeRTOS/queue.c:703-792 | a run from a new queue of length two that is filled from an interrupt: two senders come to wait, and the control data are those of that input |
| QueueProtocol.NobodyWaitsInVain | FreeRTOS/queue.c:1197-1383 | so once the scheduler runs and all woken tasks have looked, a task waits to receive only while the queue is empty and to send only while it is full |
| QueueProtocol.WaitsOrGivesUp | FreeRTOS/queue.c:749-789 | a call gives up exactly when its timeout has expired, and otherwise goes on its list exactly when the queue is full, for a send, or empty, for a receive |
| QueueProtocol.GoesOnOrGivesUp | FreeRTOS/queue.c:755-789 | once the queue is unlocked and the scheduler resumed, a call that has given up is over, and any other looks again |
| QueueProtocol.ExpiryLeaves | FreeRTOS/tasks.c:1916-1934 | a task that times out leaves the list it waits on, and nobody else does |
| QueueControl.DeletionKeepsExactlyWhen | FreeRTOS/tasks.c:696-742 | deleting a task inside a call loses a wake-up exactly when it has been woken and has still to look, others wait on its list, and there is no wake-up to spare |
| QueueProtocol.DeletionCanStrandASender | FreeRTOS/tasks.c:720-728 | a run from a new queue to a state in which it does: of two senders the first is woken, and its deletion strands the second |
| TaskWaits.WakesFirst | FreeRTOS/tasks.c:2344-2395 | an event takes the first task off the list, and no event list changes otherwise |
| TaskWaits.GoesIn | FreeRTOS/tasks.c:2174-2230 | the caller goes on the list where the value of its event item belongs, and no event list changes otherwise |
| TaskWaits.StaysListed | FreeRTOS/tasks.c:516-3602 | no other step of the scheduler brings a task onto an event list, and one that is still there has been left alone |
| QueueTasks.ActionKeeps | FreeRTOS/queue.c:595-792 | tasks that send and receive with timeouts, beside any other steps of the scheduler: the protocol's waiting lists remain the scheduler's event lists, both machines keep their invariants, and every timeout is accounted for |
| QueueTasks.StepsTogether | FreeRTOS/queue.c:612-792 | each step of the protocol is one of both machines, with what it asks of the scheduler; a step of the scheduler takes nobody further in a call, unless it deletes the task, and brings nobody onto a waiting list |
| QueueCalls.NobodyWaitsInVain | FreeRTOS/queue.c:1197-1383 | in every history of scheduler and queue together the waiters are the tasks on the two event lists, in that order, and once all who were woken have looked, one waits to receive only while the queue is empty and to send only while it is full |
| QueueCalls.FailsOnlyInTime | FreeRTOS/queue.c:717-789 | a call that ends without success does so no earlier than the whole wait after it began and after it first found that it must wait, on the clock of processed ticks; with the queue full or empty at its last look; and never if its wait is endless |
| QueueCalls.SleepsOutItsWait | FreeRTOS/queue.c:749-754 | a task on a waiting list with a finite wait is delayed, and due no earlier than the whole wait after it first found that it must wait; at exactly that time if no check has come two overflows after the one before |
| QueueCalls.GivesUpExactlyWhenOver | FreeRTOS/queue.c:1315-1334 | with such checks a call gives up exactly when the whole wait is over |
| QueueCalls.CanGoOn | FreeRTOS/queue.c:612-792 | in every history a task inside a call that runs, or has the scheduler suspended, can take its next step |
| KernelQueue.Queue.constructor | FreeRTOS/queue.c:308-371 | control data and storage of a new queue |
| KernelQueue.Queue.TrySend | FreeRTOS/queue.c:616-702 | in place: the message where it belongs and the first receiver off its list, or nothing at all; locks and senders as before |
| KernelQueue.Queue.TryReceive | FreeRTOS/queue.c:1218-1298 | in place: the first message out, and the first sender off its list; a peek leaves it and takes the first receiver off |
| KernelQueue.Queue.SendFromISR | FreeRTOS/queue.c:1040-1194 | in place: stored, and the first receiver off its list, or while locked one more counted |
| KernelQueue.Queue.ReceiveFromISR | FreeRTOS/queue.c:1386-1470 | in place: taken, and the first sender off its list, or while locked one more counted |
| KernelQueue.Queue.PeekFromISR | FreeRTOS/queue.c:1473-1523 | the head is returned and nothing changes |
| KernelQueue.Queue.Lock | FreeRTOS/queue.c:240-252 | locking loses no wake-up and no count; from then on a send or receive from an interrupt leaves both waiting lists alone and raises a lock count, and if nothing is counted unlocking wakes nobody |
| KernelQueue.Queue.Unlock | FreeRTOS/queue.c:1714-1826 | both loops: each list loses the lesser of its lock count and its waiters, from the front; exactly these are recorded as woken, and count and messages stay |
| KernelQueue.Queue.Reset | FreeRTOS/queue.c:255-305 | in place: emptied, unlocked, and one sender woken |
| Mutexes.MutexBooksBalance | FreeRTOS/tasks.c:3242-3301 | in every history each task counts exactly the mutexes that name it as holder, a mutex is full exactly if nobody holds it, and a task without mutexes has its own priority, whatever priorities are set |
| Mutexes.ActionKeeps | FreeRTOS/queue.c:471-561 | every action on plain and recursive mutexes, and every step of the scheduler beside them, keeps the books |
| MutexPriorities.ActionsDo | FreeRTOS/queue.c:376-561 | what each action does, from outside: a new mutex is full; a full one goes to who takes it; a taken one passes the caller's priority on; given, it ends what the holder had by it; recursive calls only count until the last |
| MutexPriorities.ContentionRaises | FreeRTOS/tasks.c:3179-3235 | after contention for a mutex its holder runs at the higher of its old priority and the caller's, keeping its own and its mutexes; no other task and no mutex changes |
| MutexPriorities.ContentionLasts | FreeRTOS/tasks.c:3242-3301 | in every run of scheduler and mutexes after that, the holder runs at no less than the contender's priority, and no less than before, for as long as it holds any mutex and is given no new priority |
| MutexPriorities.GivesBack | FreeRTOS/tasks.c:3242-3301 | giving a mutex makes it full and nobody's; its holder goes back to its own priority with its last one, and keeps the inherited one until then |
| MutexPriorities.TakesAndGivesBalance | FreeRTOS/queue.c:471-561 | in every history a recursive mutex is full exactly when its holder has given it as often as it was taken, and not before |
| KernelMutexes.MutexKernel.Create | FreeRTOS/queue.c:376-434 | in place: a new mutex is full and has no holder |
| KernelMutexes.MutexKernel.TakeMutex | FreeRTOS/queue.c:1237-1250 | in place: the caller becomes the holder, or the holder is raised to the caller's priority if that is higher; no other task's priority and no other mutex changes |
| KernelMutexes.MutexKernel.Boost | FreeRTOS/queue.c:1341-1349 | in place: the holder is raised to the caller's priority if that is higher, nobody else is, and the books still balance, so calls can follow |
| KernelMutexes.MutexKernel.GiveBack | FreeRTOS/queue.c:1626-1641 | in place: the holder disinherits and the mutex has no holder; a full mutex refuses |
| KernelMutexes.MutexKernel.GiveMutex | FreeRTOS/queue.c:1626-1641 | in place: the same of a plain mutex, which is then full and nobody's; the holder has one fewer, and with the last goes back to its own priority; no other task changes |
| KernelMutexes.MutexKernel.TakeRecursively | FreeRTOS/queue.c:526-561 | in place: one call more for the holder, or the first call of a new one; a holder that is in the way is raised to the caller's priority if that is higher |
| KernelMutexes.MutexKernel.GiveRecursively | FreeRTOS/queue.c:471-519 | in place: one call fewer, the mutex full exactly after the last, and refused without effect to anybody but the holder |
| Blocks.TakenDetermineAll | FreeRTOS/portable/MemMang/heap_4.c:405-463 | two divisions of a region without free neighbours and with the same taken blocks are the same, free list and all |
| Heap4Model.AllocateKeeps | FreeRTOS/portable/MemMang/heap_4.c:203-251 | taking a block keeps the region tiled, aligned and without free neighbours, and takes exactly one block more |
| Heap4Model.ReleaseKeeps | FreeRTOS/portable/MemMang/heap_4.c:291-336 | releasing a block keeps all that, and exactly that block is no longer taken |
| Heap4Model.Adjusts | FreeRTOS/portable/MemMang/heap_4.c:163-189 | the size looked for is aligned and has room for the header and what is wanted, and not a whole alignment more |
| Heap4List.FirstFitInList | FreeRTOS/portable/MemMang/heap_4.c:191-203 | searching the free list finds the lowest free block of the region that is big enough |
| Heap4List.FreesOfRelease | FreeRTOS/portable/MemMang/heap_4.c:405-463 | inserting and merging in the free list gives the free blocks of the region after the release |
| Heap4Runs.SucceedsExactlyWhen | FreeRTOS/portable/MemMang/heap_4.c:141-288 | an allocation succeeds exactly if the size is in range and a free block is big enough, and takes the lowest such |
| Heap4Runs.HistoryKeeps | FreeRTOS/portable/MemMang/heap_4.c:141-336 | every history keeps the region tiled by aligned blocks, the free list strictly ordered by address and no two free blocks adjacent |
| Heap4Runs.MinimumIsLowestEver | FreeRTOS/portable/MemMang/heap_4.c:237-246 | the minimum ever is the least number of free bytes over the whole history |
| Heap4Runs.FreeListFollowsFromTaken | FreeRTOS/portable/MemMang/heap_4.c:405-463 | two histories that leave the same blocks taken leave the same free list |
| Heap4Runs.AllReleased | FreeRTOS/portable/MemMang/heap_4.c:309-324 | freeing everything, in any order, gives back the single initial block |
| Heap4Runs.FreeUndoesMalloc | FreeRTOS/portable/MemMang/heap_4.c:203-251 | a successful allocation followed by the release of its result restores every block and the free list |
| Heap4Runs.TakenAreDisjoint | FreeRTOS/portable/MemMang/heap_4.c:141-288 | blocks are disjoint, inside the region and aligned |
| HeapSizes.SizeLookedFor | FreeRTOS/portable/MemMang/heap_4.c:163-189 | in bytes: at least eight and less than sixteen more than wanted, and a multiple of eight |
| HeapSizes.TakesNoMoreThanNeeded | FreeRTOS/portable/MemMang/heap_4.c:203-241 | an allocation that succeeds takes the lowest block that is big enough, cut to the size looked for if more than 16 bytes are left, which are then one free block right behind it; the free bytes go down by at most that size and 16; one that fails takes nothing |
| HeapSizes.ReleasesExactly | FreeRTOS/portable/MemMang/heap_4.c:291-336 | a release frees the block of the pointer and no other, which with no free neighbours determines every block |
| HeapSizes.WordLookedFor | FreeRTOS/portable/MemMang/heap_2.c:157-173 | heap_2 looks for the same size, if it does not wrap |
| HeapSizes.BestFitTakesNoMore | FreeRTOS/portable/MemMang/heap_2.c:175-221 | the same of heap_2, which takes a smallest block that is big enough |
| HeapSizes.BestFitReleasesExactly | FreeRTOS/portable/MemMang/heap_2.c:237-261 | a release by heap_2 frees that block and leaves every other, and puts it on the list in front of the first block that is not smaller |
| Heap4.Heap.HeapInit | FreeRTOS/portable/MemMang/heap_4.c:357-402 | in place: one free block from the first multiple of eight to an end marker at the last one with room for it, and both counters |
| Heap4.Heap.FindLink | FreeRTOS/portable/MemMang/heap_4.c:410-415 | the loop finds the last free block below the one to insert |
| Heap4.Heap.InsertBlockIntoFreeList | FreeRTOS/portable/MemMang/heap_4.c:405-463 | in place: headers relinked so that the chain is the merged free list |
| Heap4.Heap.FindFit | FreeRTOS/portable/MemMang/heap_4.c:191-199 | the loop finds the first block that is big enough, with the link in front of it |
| Heap4.Heap.TakeBlock | FreeRTOS/portable/MemMang/heap_4.c:209-251 | in place: unlinked, cut to size if more than two headers are left and whole otherwise, counted and marked as allocated |
| Heap4.Heap.Malloc | FreeRTOS/portable/MemMang/heap_4.c:141-288 | in place: the pointer is eight bytes into the lowest block that fits, of which no more is taken than the size looked for and two headers; both counters; and a failure changes nothing |
| Heap4.Heap.Free | FreeRTOS/portable/MemMang/heap_4.c:291-336 | in place: the division after the release; NULL, and a block that is free already, change nothing |
| Heap2Model.RoomExactlyWhen | FreeRTOS/portable/MemMang/heap_2.c:161-173 | the adjusted size has room for what is wanted exactly when the addition has not wrapped |
| Heap2Model.HugeRequestLooksSmall | FreeRTOS/portable/MemMang/heap_2.c:161-175 | in a fresh heap of 1024 bytes a request for 2^32 - 1 bytes succeeds and is given a block with room for its header only |
| Heap2Model.TakesSmallestThatFits | FreeRTOS/portable/MemMang/heap_2.c:175-196 | an allocation succeeds exactly if the adjusted size is in range and a free block is big enough, and takes a smallest such |
| Heap2Model.MallocKeeps | FreeRTOS/portable/MemMang/heap_2.c:145-234 | an allocation keeps the blocks tiling the region and the free list sorted by size and complete |
| Heap2Model.FreeKeeps | FreeRTOS/portable/MemMang/heap_2.c:237-261 | and so does a release |
| Heap2Model.FreeBytesAfterMalloc | FreeRTOS/portable/MemMang/heap_2.c:198-215 | the free bytes go down by exactly the size of the block taken |
| Heap2Model.HistoryKeeps | FreeRTOS/portable/MemMang/heap_2.c:145-261 | every history keeps all of that |
| Heap2.Heap.HeapInit | FreeRTOS/portable/MemMang/heap_2.c:276-298 | in place: the initial list of one block between its two markers |
| Heap2.Heap.InsertBlockIntoFreeList | FreeRTOS/portable/MemMang/heap_2.c:124-142 | the loop and the relinking put the block in order of its size |
| Heap2.Heap.FindFit | FreeRTOS/portable/MemMang/heap_2.c:177-185 | the loop finds the first block that is big enough |
| Heap2.Heap.Malloc | FreeRTOS/portable/MemMang/heap_2.c:145-234 | in place: blocks, list, free bytes and the pointer returned, with no more taken than the size looked for and two headers, and nothing by a failure |
| Heap2.Heap.Free | FreeRTOS/portable/MemMang/heap_2.c:237-261 | in place: the block back on the list, and its bytes counted |
| TimedLists.InsertedOk | FreeRTOS/list.c:121-176 | a list sorted by wrapped time within one turn stays so when an entry of that turn is inserted |
| TimedLists.ReloadStays | FreeRTOS/timers.c:737-752 | a wrapped reload time is in the same turn exactly if it is larger |
| Timers.ClassifiedRight | FreeRTOS/timers.c:540-578 | for a command less than a turn old: expired exactly if now is at least the command plus the period, and otherwise filed under the turn the expiry falls in |
| Timers.NewPeriodIsAhead | FreeRTOS/timers.c:678-690 | a new period counted from now is never found expired |
| Timers.WrapIsNoticedExactlyWhen | FreeRTOS/timers.c:517-537 | comparing two samples tells whether the turn has changed exactly when they are less than a turn apart |
| Timers.OneWrapCanBeMissed | FreeRTOS/timers.c:517-537 | an input with one wrap that is not noticed |
| Timers.DrainOneShrinks | FreeRTOS/timers.c:707-763 | the switch loop ends: what is left of the turn for the timers on the list goes down each time round |
| TimerRuns.DrainKeeps | FreeRTOS/timers.c:707-763 | the switch loop empties the old turn's list and leaves the next turn's alone |
| TimerRuns.StepKeeps | FreeRTOS/timers.c:438-704 | every step of the daemon and every posted command keeps the lists of this turn and the next |
| TimerRuns.RunKeeps | FreeRTOS/timers.c:414-435 | so every history keeps them, and no callback comes early |
| TimerCallbacks.CallbacksAreExact | FreeRTOS/timers.c:374-411 | an auto-reload timer started at C with period P is called back for C+P, C+2P and so on: each once, in order, without drift, none early, and up to date whenever the daemon is settled |
| TimerCallbacks.OneShotFiresOnce | FreeRTOS/timers.c:374-411 | a one-shot timer is called back for its only expiry once |
| TimerCommands.ResetCallbacksAreExact | FreeRTOS/timers.c:642-670 | a timer started or reset while active is called back for the expiries of the new schedule only: each once, in order, none early, and up to date whenever the daemon is settled |
| TimerCommands.ChangedCallbacksAreExact | FreeRTOS/timers.c:678-690 | a new period replaces the old one from the moment the daemon takes the command, just as exactly |
| TimerCommands.StoppedStaysSilent | FreeRTOS/timers.c:672-696 | a stopped or deleted timer is not called back again without a new command |
| TimerLoop.ListedFires | FreeRTOS/timers.c:414-435 | the daemon's loop, which looks at its first timer only when it has found its queue empty, gets to every timer on a list: if no command is queued for it and the daemon is less than a turn late with the commands that are, some history of the loop calls it back |
| TimerStops.StopHoldsExactlyWhen | FreeRTOS/timers.c:581-704 | with the daemon less than a turn late with the commands behind, a stop or a deletion that it takes holds in every history of its loop without a new command exactly when no start for the timer is queued behind it, the last command for the timer there is no new period, and no history catches the timer |
| TimerStops.HoldsUntilCaught | FreeRTOS/timers.c:581-704 | of one history: with no start behind and no new period last, it calls the timer back exactly if the daemon catches it, that is, a sample for a command for another timer ends a turn of the tick while the timer is on that turn's list |
| TimerStops.BackToBackHolds | FreeRTOS/timers.c:581-704 | nobody is caught, and the stop holds, if each new period for the timer is followed at once by another command for it |
| TimerStops.NewPeriodCanBeCaught | FreeRTOS/timers.c:686-696 | a state that the loop reaches, and an input, for which a new period between two stops is caught |
| TimerStopCalls.PostedStopHoldsExactlyWhen | FreeRTOS/timers.c:374-763 | a stop posted for a timer that may be active, with nothing else queued for it, holds for good exactly when the daemon does not fall behind with the timer before it takes the stop: no sample switches the lists while an auto-reload timer is on the old one, and none is called back a whole period late |
| TimerStopCalls.PostedStopCanFail | FreeRTOS/timers.c:386-398 | a reachable state and an input for which it does not hold: the timer expires at 10, and the daemon looks at 25 |
| TimerStopCalls.StopInGoodTimeHolds | FreeRTOS/timers.c:616-676 | so it holds if every sample before it is taken comes before the timer's next expiry, however late the daemon is with other commands |
| TimerCommands.StopCanBeUndone | FreeRTOS/timers.c:648-657 | a reachable state in which a stop is followed by a callback, because the daemon has queued a start behind it |
| TimerCommands.IdleStaysSilent | FreeRTOS/timers.c:374-411 | no timer is called back that was not asked for |
| TimerDaemon.Daemon.InsertTimerInActiveList | FreeRTOS/timers.c:540-578 | for a command less than a turn old: expired exactly when now has reached the expiry, and otherwise on the list of the turn the expiry falls in, both lists staying sorted |
| TimerDaemon.Daemon.SwitchTimerLists | FreeRTOS/timers.c:707-763 | the loop processes every timer of the old turn, and ends; then the lists change roles |
| TimerDaemon.Daemon.SampleTimeNow | FreeRTOS/timers.c:517-537 | less than a turn after the last sample: the lists are switched exactly when the turn of the tick has changed, and are then those of the new turn and the one after |
| TimerDaemon.Daemon.ProcessExpiredTimer | FreeRTOS/timers.c:374-411 | the head is called back for its own expiry, which is not ahead, and is reloaded, or started again by a command if that is late already; the lists stay in their turns |
| TimerDaemon.Daemon.ProcessTimerOrBlock | FreeRTOS/timers.c:438-488 | in time: whoever is called back is so now and not early, and if nobody is and the turn has not changed, every expiry is ahead |
| TimerDaemon.Daemon.ProcessReceivedCommand | FreeRTOS/timers.c:581-704 | a command taken in time takes effect in unbounded time: a start calls back or files for exactly its expiry, a new period for now plus the period, and a stop or deletion leaves the timer on no list; nobody is called back early |
| EventGroups.SetBitsExactly | FreeRTOS/event_groups.c:474-565 | setting bits takes a task off the list exactly when it waits for all of its bits and all are now set, or for any and one is; each is handed all bits as they then are; those that stay and those unblocked keep their order; and of old and new bits exactly those are cleared that an unblocked task asked to clear |
| EventGroups.WaitsExactlyWhen | FreeRTOS/event_groups.c:291-365 | a call waits exactly when it is willing to and the bits do not give it all of its mask, or any bit of it; otherwise it returns the bits as they are, and clears its own if it asked for that and got what it wanted |
| EventGroups.SyncsExactlyWhen | FreeRTOS/event_groups.c:168-221 | a synchronising task first sets its bits; it goes on at once exactly when the whole mask is then set, returns all bits and clears the mask, and otherwise waits for all of it or returns what is left |
| EventGroups.OtherStepsExactly | FreeRTOS/event_groups.c:376-440 | clearing takes bits away and unblocks nobody; a task that times out leaves the list; one that runs again returns what it was handed, or the bits as they are and then clears its own if it was to and they have come; deleting unblocks everybody with no bits |
| EventGroups.StepKeeps | FreeRTOS/event_groups.c:154-587 | every operation, deletion among them, leaves no waiter satisfied, and item values that say what is waited for |
| EventGroups.NobodyWaitsForWhatIsSet | FreeRTOS/event_groups.c:606-638 | after every operation, in every history, a task that waits for all of its bits lacks one of them, and a task that waits for any has none |
| EventGroups.EncodeDecodes | FreeRTOS/event_groups.c:319-344 | the item value holds the mask and the control bits 24, 26 and 31, and condition and control bits can be read back from it: all bits of the mask, or any |
| EventReturns.CallsReturnWhatTheyWaitFor | FreeRTOS/event_groups.c:367-413 | in every history a call that has been unblocked returns bits with all of its mask, or with one of it if it waited for any, even if they are clear by then, or none if the group has been deleted; one that has timed out returns the bits as they are, and clears its own if they have come in the meantime |
| EventReturns.StepAnswers | FreeRTOS/event_groups.c:224-262 | every task inside a call waits, has timed out, holds a value that meets its condition, or has lost its group and holds no bits |
| EventDeletion.DeleteIsSafeExactlyWhen | FreeRTOS/event_groups.c:567-587 | a deletion is safe, that is, in no history after it does a task touch the freed group, exactly when no task inside a call is off the list without having been handed a value |
| EventDeletion.DeleteCanStrandATask | FreeRTOS/event_groups.c:376-395 | a reachable state in which a deletion leaves a task that has timed out to read the freed bits |
| Rendezvous.NobodyGoesOnAlone | FreeRTOS/event_groups.c:154-267 | of any number of parties none returns before all have come, each is given the whole mask, and the mask is clear afterwards |
| KernelEventGroup.EventGroup.SetBits | FreeRTOS/event_groups.c:474-564 | walking the list by next pointers saved before each removal unblocks what the model unblocks: a task stays exactly if it lacks one of all its bits, or has none of any |
| KernelEventGroup.EventGroup.ClearBits | FreeRTOS/event_groups.c:417-440 | in place: the bits go, and their value before is returned |
| KernelEventGroup.EventGroup.WaitBits | FreeRTOS/event_groups.c:270-414 | in place, up to the blocking: over at once exactly if all bits of the mask are set, or any if that is enough, or no time is given; else on the list |
| KernelEventGroup.EventGroup.Sync | FreeRTOS/event_groups.c:154-267 | in place, up to the blocking: over for the last to come, with its own bits cleared again |
| KernelEventGroup.EventGroup.FinishWait | FreeRTOS/event_groups.c:367-413 | in place: a call that has blocked returns the value it was handed, or the bits as they are, without control bits, and clears its own only if it was handed none and they have come |
| KernelEventGroup.EventGroup.Delete | FreeRTOS/event_groups.c:567-587 | the loop unblocks every waiter with no bits |
| CoRoutineRuns.NobodyLeftAtWrap | FreeRTOS/croutine.c:265-275 | the delayed list is empty when the co-routine tick wraps and the lists are swapped |
| CoRoutineRuns.WokenOnTime | FreeRTOS/croutine.c:255-310 | after any number of ticks a delayed co-routine is ready if and only if its time has come |
| CoRoutineRuns.CatchesUpExactlyWhen | FreeRTOS/croutine.c:259-309 | the scheduler catches up with the kernel's tick exactly if it is less than a turn behind |
| CoRoutineHistories.FiledInItsTurn | FreeRTOS/croutine.c:194-229 | a wake time below the wrapped tick belongs to the next turn, and otherwise to this one |
| CoRoutineHistories.StepKeeps | FreeRTOS/croutine.c:137-385 | every operation keeps each co-routine on exactly one list, event items on one at most, and both delayed lists in their turns |
| CoRoutineHistories.RunKeeps | FreeRTOS/croutine.c:137-385 | so every history does |
| CoRoutineHistories.DelaysAreExact | FreeRTOS/croutine.c:194-310 | a co-routine that delays itself by d ticks is delayed for exactly d ticks, in any history and over any number of wraps |
| CoRoutineHistories.TimeoutsAreExact | FreeRTOS/croutine.c:194-310 | so is one that waits for an event which is not signalled to it |
| CoRoutineHistories.SignalsMostUrgent | FreeRTOS/croutine.c:363-385 | an event goes to the most urgent co-routine that waits for it |
| CoRoutineHistories.SelectsMostUrgent | FreeRTOS/croutine.c:321-334 | the scheduler runs a ready co-routine of the highest ready priority, if there is one |
| CoRoutineHistories.EqualShare | FreeRTOS/croutine.c:332-334 | as many turns as there are ready co-routines of the highest ready priority run each of them once |
| CoRoutineSteps.Creates | FreeRTOS/croutine.c:137-191 | a new co-routine is ready at the priority asked for, or the highest there is, behind the others of that priority, and the current one if it is the first |
| CoRoutineSteps.Delays | FreeRTOS/croutine.c:194-229 | a caller sleeps until exactly so many ticks from now, and waits for its event behind all that are as urgent and in front of all that are less; nobody else is moved |
| CoRoutineSteps.Signals | FreeRTOS/croutine.c:363-385 | a signal pends the first waiter, a most urgent one, and tells whether it is at least as urgent as the one that runs |
| CoRoutineSteps.RunsScheduler | FreeRTOS/croutine.c:313-340 | a run of the scheduler catches up with the kernel, wakes whoever is due and nobody else, leaves nobody pended, and chooses a most urgent ready co-routine if there is one |
| CoRoutineScheduler.Scheduler.CreateCoRoutine | FreeRTOS/croutine.c:137-191 | from a valid state the new co-routine is ready at the priority asked for, or the highest there is, and the state stays valid; it is the current one if it is the first |
| CoRoutineScheduler.Scheduler.AddToDelayedList | FreeRTOS/croutine.c:194-229 | a ready caller is delayed until exactly so many ticks from now, on the list of that turn, and waits for its event, if there is one, in the place its priority gives it |
| CoRoutineScheduler.Scheduler.CheckPendingReadyList | FreeRTOS/croutine.c:232-252 | the loop makes everything pended ready, in order |
| CoRoutineScheduler.Scheduler.CheckDelayedList | FreeRTOS/croutine.c:255-310 | the nested loops process each passed tick with its wake-ups; less than a turn behind it catches up, and whoever is delayed is so for exactly its time |
| CoRoutineScheduler.Scheduler.ScheduleNext | FreeRTOS/croutine.c:313-340 | less than a turn behind it has caught up with the kernel, and the co-routine to call is ready and nobody ready is more urgent; there is one exactly if any is ready |
| CoRoutineScheduler.Scheduler.RemoveFromEventList | FreeRTOS/croutine.c:363-385 | the first waiter, a most urgent one, is pended and the others keep their order; and whether it is as urgent as the caller |

## Left out

- Yield requests: whether a call or the tick asks for a context switch (`xYieldPending`, the return values of the tick and the wake-ups). A switch may come at any step instead, so nothing proved depends on them.
- Calls made before the scheduler is started, other than the creation of tasks.
- `vTaskPlaceOnEventListRestricted`, which the timer service uses to wait for its own queue.
- The order of event lists in `QueueProtocol`: a waiter may be inserted anywhere, because priorities can change while a task waits and the list is not sorted again. `TaskKernel` and `QueueTasks` do insert by value.
- A claim that the highest-priority waiter is woken first even after a task on the list has changed its priority, that a holder's priority dominates its waiters, or that the running task always has the highest priority between yields: the code does not keep these.
- Queue sets, the alternative queue API, the queue registry, and the co-routine forms of the queue calls: they repeat the main paths.
- The blocking loops of sends and receives as one method: `QueueProtocol` has their steps, and `KernelQueue` the critical sections and the locking.
- The scheduler behind an event group: which task is on its list is modelled there, and how a task is blocked and made ready in the scheduler's own model. `QueueTasks` puts the two together for queues, without the bytes of the messages; mutexes stand beside the scheduler in `Mutexes`.
- A task that is deleted after it has been woken and before it has looked, in the histories of `QueueTasks`: what is lost is the matter of `QueueControl.DeletionKeepsExactlyWhen`.
- The messages' journey through a mutex or semaphore: they have no bytes.
- The size computation of a new queue, and every out-of-memory path of a creation.
- What users write into heap blocks: the headers are taken to be written only by the allocator.
- Heap4.Heap.Free: requires a pointer to one of the blocks; a pointer to anything else would read as a header whatever is there.
- Heap2.Heap.Free: requires a pointer that Malloc returned and that has not been released since; the source does not check it, and would put the block on the list a second time.
- The interleaving of interrupts with a run of `vCoRoutineSchedule`: a signal comes before or after it. In the code one may also come between two turns of its loops, and then appends to the pending list that the first loop empties: what it readies is made ready in this run or the next.
- The order of the daemon's main loop, which looks at its first timer only once it has found its queue empty, except in `TimerLoop`, `TimerStops` and `TimerStopCalls`: elsewhere the model allows a look between any two commands, and what holds of all its histories holds of the loop's. The length of the command queue, which would bound how many commands are queued at a time.
- `vCoRoutineAddToDelayedList` with no ticks to wait: its callers exclude it.
- Callbacks that post commands while a timer is being processed, a timer command queue that is full, and functions pended to the timer service.
- The increment of the call count of a recursive mutex is taken together with taking the mutex; no other task reads the count.
- Tick hooks, tracing, run-time statistics, stack checking, tickless idle, and the memory protection unit.
- Stacks: a deleted task is on the termination list until it is freed, and nothing is said about its memory.
- Hardware drivers, network code and the port layer, except for the bitmap macros.
