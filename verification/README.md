# A verified model of the FreeRTOS kernel of the NLM controller

The controller firmware runs on the FreeRTOS V9 kernel in `nlm_controller/Source`. This project models that
kernel in Dafny, together with the linker-map script of the application, and proves what its parts promise.

The kernel is a machine of atomic steps: a critical section, a block that runs with the scheduler suspended, or an
interrupt is one step, and a yield is a context switch after the step. The width of the tick type stays symbolic:
counters take `M` values, and beside them stands an unbounded clock, the overflow count times `M` plus the tick
count. The configuration is preemptive with time slicing, generic task selection, mutexes, `INCLUDE_vTaskSuspend`
and timers, without queue sets.

Most parts come in three layers: the code's variables in a class whose methods update them in place, as the C code
does; a value and functions on it that say what each step does; and theorems about those functions, over all states
and all runs. Each method is proved to take the state where its function takes it.

| files | part |
|---|---|
| `Rings`, `Lists`, `RoundRobin` | list.c: the linked ring in memory, its value as a sequence with a cursor, and the fairness of the cursor |
| `Clock`, `Deadlines` | wrapping tick arithmetic, timeouts, periodic delays and the blocking loops |
| `Stores`, `Timeline`, `TwoLists` | families of disjoint lists; sleepers in unbounded time; two wrapping lists read as one |
| `Scheduler`, `SchedulerInvariant`, `SchedulerTicks`, `SchedulerResume`, `SchedulerRuns`, `SchedulerSleep`, `SchedulerPreemption`, `SchedulerEffects`, `SchedulerEvents`, `SchedulerInheritance`, `SchedulerBlocking`, `SchedulerSlices`, `SchedulerAnswers`, `SchedulerWitnesses`, `Kernels` | tasks.c: the steps, the invariant, ticks against unbounded time, pended ticks, whole runs, sleeping tasks, preemption, what each operation achieves, the order of event lists, inherited priorities over runs, limited and unlimited waits, time slices, whom each operation readies and when it asks for a yield, runs that break the order, and the kernel object |
| `Queues`, `QueueLocks`, `Mutexes`, `Inversions`, `MutualExclusion` | queue.c: the byte ring, the lock counts, mutexes and priority inheritance, exactly when inheritance fails, and the mutex object |
| `TimerService`, `TimerOneShot`, `Timers` | timers.c: the daemon in unbounded time, one round of it exactly and one-shot timers, and the daemon with its two wrapping lists |
| `EventGroups` | event_groups.c, on the linked lists of `Lists` |
| `CoRoutines` | croutine.c |
| `AbiMap`, `AbiPatterns`, `AbiScript` | update_version_map_abi.py: reading and writing a map, its patterns and layout over positions, and the script itself |

`dafny verify dfyconfig.toml` checks everything.

Where the code does less than its text or its purpose promises, the model follows the code, gives an input and proves
the exact condition, for one step and for whole runs where there are runs:

- tasks.c:1460-1463 says that the running task is the highest priority task able to run. A give of a mutex can make
  that false: queue.c:808-830 drops the yield that a disinherit asks for whenever a task is waiting, and its comment
  names only tasks that held several mutexes (`Inversions.TimeoutBreaksIt`, `Inversions.HighestThroughout`).
- Priority inheritance is to keep a mutex holder from ranking below a task that waits for it. Nested waits and
  changes of priority break that (`Inversions.NestingBreaksIt`, `Inversions.LoweringBreaksIt`,
  `Inversions.OutrankThroughout`).
- tasks.c:2902-2903 calls event lists sorted by priority. Changing or inheriting a priority rewrites an item's value
  in place, and a change under inheritance writes the value of a priority that is not in use
  (`SchedulerWitnesses.HeadOutrankedReached`, `SchedulerWitnesses.StaleReached`, `SchedulerEvents.OrderedThroughout`,
  `SchedulerEvents.AgreesThroughout`).
- vTaskDelayUntil (tasks.c:1140-1217) can put a task to sleep that is one range late or more, and never sleeps until
  the target of a task whose previous wake time is still ahead, as after a resume during its sleep
  (`Deadlines.DelayUntilTooLate`, `Deadlines.DelayUntilTooEarly`, `Deadlines.DelayUntilIsExact`).
- xTaskCheckForTimeOut (tasks.c:3015-3073) can take a wait that is long over for a short one
  (`Deadlines.AliasedCase`, `Deadlines.CheckIsExact`).
- prvInsertTimerInActiveList (timers.c:663-701) files a timer whose start command is one range old as if it were to
  come (`Timers.InsertTooLate`, `Timers.InsertIsExact`).
- timers.c:618-623 means the daemon to sleep until the tick count wraps when no timer is left in the present epoch,
  but at tick count 0 its wait is 0 - 0 ticks, and it goes round again without blocking for a tick
  (`Timers.WaitEndsInTime`).
- An int8_t lock count that overflows loses wakeups, and a reset strands senders (`QueueLocks.LostWakeup`,
  `QueueLocks.RunR`, `QueueLocks.RunS`).
- update_version_map_abi.py:144 asks for a version `MAJOR.MINOR`, but line 154 matches a prefix only
  (`AbiScript.AcceptedIsNotGood`).

## Model

| member | source | states |
|---|---|---|
| Lists.List.constructor | nlm_controller/Source/list.c:79-101 | an initialised list is a closed ring of the end marker alone, empty, with the cursor on the marker and the largest value in it |
| Lists.List.InsertEnd | nlm_controller/Source/list.c:116-142 | the ring stays closed in both directions, count, cursor and container links stay right, and the contents become the old sequence with the item just before the cursor |
| Lists.FindPlace | nlm_controller/Source/list.c:145-190 | the search ends, if only at the marker, after exactly the items whose value does not exceed the new one, also for portMAX_DELAY |
| Lists.Insert | nlm_controller/Source/list.c:145-209 | sorted insertion: the item goes behind every equal value, a sorted list stays sorted, and the ring stays closed and counted |
| Lists.List.Remove | nlm_controller/Source/list.c:212-238 | the item leaves the sequence and loses its container, the cursor steps back if it stood on it, the ring stays closed, and the result is the new length |
| Lists.List.NextEntry | nlm_controller/Source/include/list.h:318-329 | the cursor advances to the next item, stepping over the end marker, and that item is returned |
| Lists.ClosedWith | nlm_controller/Source/list.c:126-141 | relinking two neighbours around a new node leaves a ring closed in both directions, with the end marker met only at its end |
| Lists.ClosedWithout | nlm_controller/Source/list.c:218-235 | joining the two neighbours of a node leaves such a ring without it |
| Lists.RemoveKeepsChain | nlm_controller/Source/list.c:212-238 | what removal needs of the links of a closed ring, and that the cursor stands on the predecessor if it stood on the item |
| RoundRobin.NextServesFront | nlm_controller/Source/tasks.c:174-189 | an advance of the cursor returns the front of the waiting line and sends it to the back |
| RoundRobin.EveryRoundServesAll | nlm_controller/Source/tasks.c:174-189 | over a fixed set of n items, any n consecutive selections return each item exactly once, in line order |
| RoundRobin.RemoveLeavesLine | nlm_controller/Source/list.c:212-238 | removing an item closes its gap in the waiting line and changes nothing else, wherever the cursor stands |
| RoundRobin.OneStepNeverBarges | nlm_controller/Source/list.c:116-142 | no arrival or departure lengthens another item's wait, except an arrival while that item is under the cursor, which adds exactly one |
| RoundRobin.NoBarging | nlm_controller/Source/list.c:116-142 | over any run, the selections made plus those still owed before an item never exceed what was owed at the start plus the arrivals while it was under the cursor |
| Timeline.WakesOnItsTick | nlm_controller/Source/tasks.c:2499-2668 | in unbounded time a sleeper is still asleep after n ticks exactly when its wake time is still to come |
| Timeline.ReadyFromItsTick | nlm_controller/Source/tasks.c:2499-2668 | and from that tick on it is in the ready list of its priority |
| Timeline.TicksAtOnce | nlm_controller/Source/tasks.c:2499-2668 | n ticks one by one ready the sleepers exactly as one release at the last tick does, in the order of their wake times |
| Clock.WrapAdd | nlm_controller/Source/tasks.c:239-251 | a tick counter that advances by less than its range wraps at most once, and its new value and overflow count are what that gives |
| Clock.MinusIsExact | nlm_controller/Source/tasks.c:3049-3058 | wrapped subtraction of times less than a range apart is their distance, and comparing the wrapped values tells whether an overflow lies between |
| SchedulerInvariant.CreateKeeps | nlm_controller/Source/tasks.c:963-1041 | creating a task keeps all lists disjoint, ready tasks under their own priority below uxTopReadyPriority, delayed lists in order and ahead, and the counters right |
| SchedulerInvariant.DeleteKeeps | nlm_controller/Source/tasks.c:1048-1133 | so does deleting one, which goes to the termination list if it deletes itself |
| SchedulerInvariant.ReapKeeps | nlm_controller/Source/tasks.c:3365-3406 | so does the idle task's removal of a deleted task |
| SchedulerInvariant.SuspendKeeps | nlm_controller/Source/tasks.c:1566-1651 | so does suspending a task, blocked or ready, with the next unblock time recomputed |
| SchedulerInvariant.ResumeFromISRKeeps | nlm_controller/Source/tasks.c:1756-1821 | so does resuming from an interrupt, which uses the pending list only while the scheduler is suspended |
| SchedulerInvariant.PrioritySetKeeps | nlm_controller/Source/tasks.c:1402-1557 | so does changing a priority, whether inherited or in a ready list or not |
| SchedulerInvariant.InheritKeeps | nlm_controller/Source/tasks.c:3706-3765 | so does inheriting a priority |
| SchedulerInvariant.DisinheritKeeps | nlm_controller/Source/tasks.c:3772-3846 | so does giving an inherited priority back |
| SchedulerInvariant.DelayCurrentKeeps | nlm_controller/Source/tasks.c:4692-4801 | so does blocking the running task, whether its wake time wraps, does not, or is never |
| SchedulerInvariant.PlaceOnEventListKeeps | nlm_controller/Source/tasks.c:2820-2834 | so does blocking it on an event list as well |
| SchedulerInvariant.PlaceOnUnorderedEventListKeeps | nlm_controller/Source/tasks.c:2837-2858 | so does blocking it on an event group's list |
| SchedulerInvariant.PlaceOnEventListRestrictedKeeps | nlm_controller/Source/tasks.c:2863-2889 | so does the timer daemon's form of it |
| SchedulerInvariant.RemoveFromEventListKeeps | nlm_controller/Source/tasks.c:2894-2959 | so does waking the first waiter, directly or through the pending list |
| SchedulerInvariant.RemoveFromUnorderedEventListKeeps | nlm_controller/Source/tasks.c:2962-3004 | so does waking a waiter of an event group |
| SchedulerInvariant.HighestReadyIsHighest | nlm_controller/Source/tasks.c:174-189 | the selection search ends at a non-empty list before it can pass priority 0, and no ready task has a higher priority |
| SchedulerTicks.DelayedEmptyAtSwitch | nlm_controller/Source/tasks.c:239-251 | when the tick count is about to wrap, the delayed list that is switched away is empty |
| SchedulerTicks.AdvanceCounts | nlm_controller/Source/tasks.c:2509-2526 | advancing the count, with the switch of the lists, is one more tick of the unbounded clock and moves no sleeper |
| SchedulerTicks.EarlyOutIsSafe | nlm_controller/Source/tasks.c:2532 | while the new count is below the cached next unblock time, no sleeper is due: the test never skips a task |
| SchedulerTicks.WakeDueReleases | nlm_controller/Source/tasks.c:2534-2607 | the loop wakes exactly the sleepers that are due, in wake order, out of their event lists, and restores the cached time |
| SchedulerTicks.TickIsOneTick | nlm_controller/Source/tasks.c:2499-2668 | one tick interrupt is one tick of unbounded time: the two delayed lists and the cached time implement one list ordered by unbounded wake time |
| SchedulerResume.RunPendedIsTicks | nlm_controller/Source/tasks.c:2071-2099 | processing n pended ticks leaves every variable as n tick interrupts do, but for the pending-yield flag |
| SchedulerResume.NoTickLost | nlm_controller/Source/tasks.c:2017-2124 | k ticks taken under any depth of suspension, followed by the matching resumes, leave all counts and lists as k direct ticks do |
| SchedulerResume.MovePendingKeeps | nlm_controller/Source/tasks.c:2039-2069 | moving the pending tasks keeps the invariant and empties the pending list |
| SchedulerResume.ResumeAllKeeps | nlm_controller/Source/tasks.c:2017-2124 | resuming keeps the invariant, and the outermost resume leaves no tick pended |
| SchedulerRuns.SwitchPicksHighest | nlm_controller/Source/tasks.c:2761-2815 | a context switch picks the task whose turn it is in the list of the highest ready priority |
| SchedulerRuns.StepKeeps | nlm_controller/Source/tasks.c:963-3846 | each of the twenty-one steps keeps the invariant, given what the source demands of its callers |
| SchedulerRuns.RunKeeps | nlm_controller/Source/tasks.c:963-3846 | the invariant holds after every run of such steps in any interleaving |
| SchedulerRuns.TaskInOneList | nlm_controller/Source/tasks.c:963-1133 | every created and not yet freed task has its state item in one of the ready, delayed, suspended or termination lists and in no other |
| SchedulerRuns.LengthsAddUp | nlm_controller/Source/tasks.c:3365-3406 | the lengths of those lists add up to uxCurrentNumberOfTasks, and the pending list is empty while the scheduler runs |
| SchedulerSleep.SleepersOrdered | nlm_controller/Source/tasks.c:4728-4762 | the tasks of the two delayed lists, one after the other, are in order of unbounded wake time and distinct |
| SchedulerSleep.BlockingFilesSleeper | nlm_controller/Source/tasks.c:4692-4801 | blocking for d ticks puts the task into that order at its unbounded wake time, behind every equal one, whichever list that takes |
| SchedulerSleep.TicksAndSleeper | nlm_controller/Source/tasks.c:2499-2668 | n tick interrupts leave a sleeper asleep exactly while its wake time is to come, and ready from then on |
| SchedulerSleep.ResumeAndSleeper | nlm_controller/Source/tasks.c:2017-2124 | so does a resume that catches up any number of pended ticks |
| SchedulerSleep.StepAndSleeper | nlm_controller/Source/tasks.c:963-3846 | no step that is not aimed at a sleeping task wakes it early or keeps it asleep |
| SchedulerSleep.SleeperWakesOnTime | nlm_controller/Source/tasks.c:2499-2668 | in every run a sleeper that no step is aimed at is asleep in each state before its wake time and ready in the first state at or after it |
| SchedulerSleep.DelayLastsExactly | nlm_controller/Source/tasks.c:1224-1262 | a task that delays itself for d ticks (0 < d < M) becomes ready on exactly the d-th processed tick, in every run that leaves it alone |
| SchedulerPreemption.PrioritySetRuns | nlm_controller/Source/tasks.c:1402-1557 | if changing a priority asks for no yield, no ready task outranks the running one afterwards |
| SchedulerPreemption.TickRuns | nlm_controller/Source/tasks.c:2499-2668 | if the tick handler asks for no switch, no task that it woke outranks the running one |
| SchedulerPreemption.ResumeAllRuns | nlm_controller/Source/tasks.c:2017-2124 | if resuming leaves no yield pending, neither the pending tasks nor the pended ticks have readied a task that outranks the running one |
| SchedulerPreemption.NoSwitchMissed | nlm_controller/Source/tasks.c:963-3846 | for every step: a ready task can come to outrank the running one only if the step asks for a switch |
| SchedulerEffects.CreatedIsReady | nlm_controller/Source/tasks.c:963-1041 | a created task is ready at its clamped priority, holds no mutex, and every other task stays where it was |
| SchedulerEffects.DeletedIsGone | nlm_controller/Source/tasks.c:1048-1133 | a deleted task waits for nothing and is in no list, or in the termination list if it deleted itself; the others stay |
| SchedulerEffects.SuspendThenResume | nlm_controller/Source/tasks.c:1566-1748 | any task but the idle one, running, ready or blocked, counts as suspended once suspended, and a running one is switched away from; the others stay, and resuming it makes it ready at its priority |
| SchedulerEffects.PrioritySetSets | nlm_controller/Source/tasks.c:1402-1557 | the base priority is set whatever and the one in use unless inherited; nobody's readiness and no other priority changes |
| SchedulerInheritance.InheritThenDisinherit | nlm_controller/Source/tasks.c:3706-3846 | a holder raised to the running task's priority, after any run in which its base priority is not set: giving a mutex keeps its priority while it holds another, and with the last one brings it back to the base priority it had before, ready as it was |
| SchedulerEffects.FirstWaiterWakes | nlm_controller/Source/tasks.c:2894-2959 | exactly the head leaves the event list and becomes ready, or pending while the scheduler is suspended; the others stay |
| SchedulerEffects.FiledByValue | nlm_controller/Source/tasks.c:2820-2834 | the running task joins the event list at the place of its event item value, behind every equal one, and is blocked |
| SchedulerEvents.FiledByPriority | nlm_controller/Source/tasks.c:2820-2834 | in an ordered list, a task whose value is that of its priority goes behind every waiter of its priority or more and before all others |
| SchedulerEvents.HighestWaiterWakes | nlm_controller/Source/tasks.c:2894-2959 | from an ordered list the task that is woken is one of the highest priority of all that wait |
| SchedulerEvents.PrioritySetAgrees | nlm_controller/Source/tasks.c:1508-1515 | changing a base priority leaves the event item value that of the priority in use exactly when that changes too or is already the new one, or nothing changes |
| SchedulerEvents.OrderedStep | nlm_controller/Source/tasks.c:2820-2903 | for every step: it keeps an event list in order of priority exactly when it is none of these: filing a task whose value is not its priority's, filing at the end out of order, and changing a waiter's priority past another's or away from its value |
| SchedulerEvents.OrderedThroughout | nlm_controller/Source/tasks.c:2902-2903 | over every run an event list is in order of priority all the way through exactly when no such step comes |
| SchedulerEvents.AgreesStep | nlm_controller/Source/tasks.c:1501-1515 | for every step: it keeps a task's event item value that of its priority exactly when it is neither a change of base priority under inheritance nor an event group's use of the value |
| SchedulerEvents.AgreesThroughout | nlm_controller/Source/tasks.c:1501-1515 | over every run, exactly when no such step comes |
| SchedulerWitnesses.StaleReached | nlm_controller/Source/tasks.c:1495-1515 | reached from the start: a task that inherited priority 3 and has its base priority set to 2 keeps priority 3 with the value of priority 2 |
| SchedulerWitnesses.HeadOutrankedReached | nlm_controller/Source/tasks.c:2902-2903 | reached from the start: a waiter given a higher priority stays behind one of lower priority, which is woken first |
| SchedulerSlices.TickSwitchesExactly | nlm_controller/Source/tasks.c:2534-2664 | with the scheduler running, a tick asks for a switch exactly when a yield is pending, a task that this tick makes ready has at least the running priority, or two tasks are ready at the running priority afterwards |
| SchedulerSlices.SwitchTakesTurn | nlm_controller/Source/tasks.c:2761-2815 | a context switch serves the front of the line of the highest priority and sends it to the back, and every other list stays as it was |
| SchedulerSlices.EachHasItsTurn | nlm_controller/Source/tasks.c:174-189 | of n ready tasks of the highest priority each runs after exactly one of n consecutive context switches, and no other task does |
| SchedulerBlocking.EventBlocks | nlm_controller/Source/tasks.c:2820-2889 | whichever way the running task blocks on an event list: a wait of portMAX_DELAY, or one that is asked to be without limit, puts it among the suspended tasks and changes no sleeper; any other files it at its unbounded wake time behind every equal one |
| SchedulerBlocking.EventWaitLastsExactly | nlm_controller/Source/tasks.c:2820-2889 | a task that blocks on an event list for d < portMAX_DELAY ticks, and at which no step is aimed, becomes ready on exactly the d-th processed tick of every run |
| SchedulerBlocking.UnlimitedWaitHolds | nlm_controller/Source/tasks.c:2833 | a task that blocks on an event list for portMAX_DELAY ticks is not made ready by any run, however many ticks pass, until a step is aimed at it |
| SchedulerBlocking.StepSuspended | nlm_controller/Source/tasks.c:963-3846 | neither a tick, nor a resume of the scheduler, nor a step aimed at another task takes a task off the suspended list |
| SchedulerAnswers.ResumeExactly | nlm_controller/Source/tasks.c:1702-1748 | a task becomes ready exactly if it was suspended, waits for no event and is not the running one; nobody else's readiness, list or priority changes |
| SchedulerAnswers.ResumeFromISRExactly | nlm_controller/Source/tasks.c:1756-1821 | from an interrupt the same while the scheduler runs, and while it is suspended the task joins the pending list and nobody becomes ready |
| SchedulerAnswers.PendingBecomeReady | nlm_controller/Source/tasks.c:2039-2058 | after the outermost resume every task that was pending is ready, and so is every task that was ready before |
| SchedulerAnswers.RunPendedYields | nlm_controller/Source/tasks.c:2071-2099 | processing pended ticks leaves a yield pending exactly when one was or one of the ticks, taken by itself, calls for a switch |
| SchedulerAnswers.ResumeAllYields | nlm_controller/Source/tasks.c:2039-2110 | the outermost resume leaves a yield pending exactly when one was, a pending task has at least the running priority, or one of the ticks held back calls for a switch |
| SchedulerAnswers.FirstWaiterExactly | nlm_controller/Source/tasks.c:2894-2959 | the first waiter leaves the event list and becomes ready, or pending while the scheduler is suspended, nobody else's readiness changes, and a yield is left pending exactly if one was or the waiter outranks the running task |
| SchedulerAnswers.UnorderedWakes | nlm_controller/Source/tasks.c:2962-3004 | the given waiter holds the value stored for it, waits for nothing and is ready, nobody else moves, and a yield is left pending exactly if one was or the waiter outranks the running task |
| SchedulerAnswers.SwitchRunsForemost | nlm_controller/Source/tasks.c:2761-2815 | a context switch leaves a task running that is ready with the highest priority of all, with no yield pending, or, while the scheduler is suspended, changes nothing but leaves a yield pending |
| SchedulerAnswers.ReapsAll | nlm_controller/Source/tasks.c:3365-3406 | the idle task frees exactly the tasks that deleted themselves, and every other task stays in its list |
| SchedulerAnswers.InUseKept | nlm_controller/Source/tasks.c:1506-1515 | a change of priority, set or inherited (3721-3729), leaves an event item value alone that an event group uses |
| SchedulerAnswers.ReadyJoinsTheLine | nlm_controller/Source/tasks.c:255-263 | whatever list a task comes from, becoming ready puts it at the back of the line of its priority, or just before the task whose turn it was last |
| SchedulerAnswers.RefiledInLine | nlm_controller/Source/tasks.c:1517-1538 | so does a change of priority for a ready task, even when the priority in use stays the same |
| SchedulerAnswers.LeavesNextExact | nlm_controller/Source/tasks.c:3635-3656 | after another task is deleted (1112) and after any is suspended (1609) the cached unblock time is the least wake value of the current delayed list, or portMAX_DELAY |
| SchedulerAnswers.TickNextExact | nlm_controller/Source/tasks.c:2534-2607 | so it is after a tick that finds it reached, and when resuming has readied pending tasks (2068) |
| Kernels.StartedValid | nlm_controller/Source/tasks.c:1826-1930 | the state in which the scheduler starts satisfies the invariant |
| Kernels.Kernel.AddCurrentTaskToDelayedList | nlm_controller/Source/tasks.c:4692-4801 | the task is filed at its unbounded wake time, behind every equal one, and the cached unblock time is the earlier of itself and a wake time in this epoch; or it is among the suspended tasks for an unlimited wait; the invariant is kept, whatever the caller did to the task's event item |
| Kernels.Kernel.ResetNextTaskUnblockTime | nlm_controller/Source/tasks.c:3635-3656 | the cached time is the least wake value of the ordered delayed list, or portMAX_DELAY for an empty one |
| Kernels.Kernel.IncrementTick | nlm_controller/Source/tasks.c:2499-2668 | takes the scheduler through one tick, and asks for a switch exactly when a yield is pending or, with the scheduler running, a task made ready by this tick has at least the running priority or another task is ready at the running priority |
| Kernels.Kernel.AdvanceTick | nlm_controller/Source/tasks.c:2509-2526 | one more unbounded tick with every sleeper and list unmoved, across the wrap and the exchange of the delayed lists |
| Kernels.Kernel.UnblockDue | nlm_controller/Source/tasks.c:2534-2607 | the for loop: wakes due tasks until the head is in the future |
| Kernels.Kernel.SuspendAll | nlm_controller/Source/tasks.c:1944-1951 | nests one suspension deeper |
| Kernels.Kernel.MovePendingTasks | nlm_controller/Source/tasks.c:2039-2058 | moves every pending task to its ready list and notes a yield |
| Kernels.Kernel.ProcessPendedTicks | nlm_controller/Source/tasks.c:2071-2099 | runs the tick handler once for each pended tick |
| Kernels.Kernel.ResumeAll | nlm_controller/Source/tasks.c:2017-2124 | takes the scheduler through a resume, keeps the invariant, leaves every pending task ready and no tick pended at the outermost, and reports a yield exactly if that leaves one pending |
| Kernels.Kernel.SwitchContext | nlm_controller/Source/tasks.c:2761-2815 | while suspended changes nothing but records a yield, and otherwise leaves a ready task of the highest priority running with no yield pending |
| Kernels.Kernel.FindHighest | nlm_controller/Source/tasks.c:164-175 | the descending search, which meets a non-empty list before priority 0 is passed |
| Kernels.Kernel.SelectHighestPriorityTask | nlm_controller/Source/tasks.c:164-189 | leaves the cursor and uxTopReadyPriority at the highest non-empty ready list and runs its next task |
| Kernels.Kernel.CreateTask | nlm_controller/Source/tasks.c:963-1041 | adds a ready task with the clamped priority and asks for a yield if it outranks the running one |
| Kernels.Kernel.DeleteTask | nlm_controller/Source/tasks.c:1048-1133 | unlinks the task, leaving its own deletion to the idle task and recomputing the unblock time otherwise |
| Kernels.Kernel.CheckTasksWaitingTermination | nlm_controller/Source/tasks.c:3365-3406 | the idle task's loop frees exactly the tasks that deleted themselves; every other task stays in its list |
| Kernels.Kernel.SuspendTask | nlm_controller/Source/tasks.c:1566-1651 | moves a task out of its lists to the suspended list and recomputes the unblock time |
| Kernels.Kernel.ResumeTask | nlm_controller/Source/tasks.c:1702-1748 | readies the task exactly if it is suspended, waits for no event and is not the running one, and then asks for a yield if it does not rank below that; nobody else moves |
| Kernels.Kernel.ResumeTaskFromISR | nlm_controller/Source/tasks.c:1756-1821 | the interrupt form: the same task becomes ready while the scheduler runs and pending while it is suspended, and nobody else does |
| Kernels.Kernel.PrioritySet | nlm_controller/Source/tasks.c:1402-1557 | sets the base priority whatever, the one in use unless inherited, refiles a ready task, and asks for a yield exactly when another task is raised to at least the running priority or the running task is lowered |
| Kernels.Kernel.PriorityInherit | nlm_controller/Source/tasks.c:3706-3765 | raises the holder to the running task's priority and refiles it if ready |
| Kernels.Kernel.PriorityDisinherit | nlm_controller/Source/tasks.c:3772-3846 | returns the running task to its base priority when it holds no mutex any more, and says so |
| Kernels.Kernel.IncrementMutexHeldCount | nlm_controller/Source/tasks.c:4178-4188 | counts one more mutex for the running task, which becomes the holder, and keeps the invariant |
| Kernels.Kernel.ResetEventItemValue | nlm_controller/Source/tasks.c:4162-4173 | returns the event item value and puts that of the priority back, keeping the invariant |
| Kernels.Kernel.PlaceOnEventList | nlm_controller/Source/tasks.c:2820-2834 | files the running task by its event item value in the event list; for portMAX_DELAY ticks it then is among the suspended tasks, and otherwise filed at its unbounded wake time with every other sleeper where it was |
| Kernels.Kernel.PlaceOnUnorderedEventList | nlm_controller/Source/tasks.c:2837-2858 | files it at the end with the event group's value, and blocks it in the same way |
| Kernels.Kernel.PlaceOnEventListRestricted | nlm_controller/Source/tasks.c:2863-2889 | files it at the end and puts it among the suspended tasks exactly if the wait is to be without limit, and otherwise at its unbounded wake time |
| Kernels.Kernel.RemoveFromEventList | nlm_controller/Source/tasks.c:2894-2959 | exactly the first waiter leaves the list and is ready, or pending while the scheduler is suspended; says whether it outranks the running task, and then leaves a yield pending |
| Kernels.Kernel.RemoveFromUnorderedEventList | nlm_controller/Source/tasks.c:2962-3004 | exactly the given waiter becomes ready, off its list and with the value stored; says whether it outranks the running task, and then leaves a yield pending |
| Kernels.Kernel.Delay | nlm_controller/Source/tasks.c:1224-1262 | suspends the scheduler, files the task for the given ticks and resumes; nothing for zero ticks, whoever calls |
| Kernels.Kernel.DelayUntil | nlm_controller/Source/tasks.c:1140-1217 | advances the wake time and sleeps for the rest of the increment; that is until the target, or not at all when it has passed, exactly when the previous wake time is not ahead and less than one range back, or back by whole ranges and at least one increment |
| Kernels.Kernel.SetTimeOutState | nlm_controller/Source/tasks.c:3007-3012 | records the present unbounded time, wrapped |
| Kernels.Kernel.CheckTimeOut | nlm_controller/Source/tasks.c:3015-3073 | for every wait and however often the count has wrapped: the answer is right exactly when the two counters are not aliased, and a wait that goes on keeps its deadline; portMAX_DELAY never ends |
| Kernels.Kernel.constructor | nlm_controller/Source/tasks.c:1826-1930 | the scheduler starts with the idle task running, in a state that satisfies the invariant |
| Deadlines.SleepsForIs | nlm_controller/Source/tasks.c:1156-1201 | for any two tick counts the branches put the task to sleep exactly when the ticks since the previous wake time, wrapped, are fewer than the increment, and then for the rest of it |
| Deadlines.DelayUntilIsExact | nlm_controller/Source/tasks.c:1140-1217 | for all pairs of times: the task sleeps exactly until its target, or not at all when that has passed, if and only if the previous wake time is not ahead and is less than one range back, or back by whole ranges and at least one increment |
| Deadlines.LateIsWrapped | nlm_controller/Source/tasks.c:1176-1187 | for a previous wake time that is not ahead, the exact condition under which the task sleeps, and under which that is right |
| Deadlines.EarlyIsWrapped | nlm_controller/Source/tasks.c:1160-1175 | and for one that is still ahead |
| Deadlines.DelayUntilTooLate | nlm_controller/Source/tasks.c:1176-1187 | a task one whole range late is put to sleep for a target long past |
| Deadlines.DelayUntilTooEarly | nlm_controller/Source/tasks.c:1176-1187 | a task resumed during its sleep that calls again does not sleep although its target is ahead |
| Deadlines.CheckIsExact | nlm_controller/Source/tasks.c:3015-3073 | for every elapsed time: the answer is right exactly when the counters are not aliased, and a wait that goes on keeps its deadline |
| Deadlines.AliasedCase | nlm_controller/Source/tasks.c:3049-3058 | after two wraps a short wait that is long over is reported as still running |
| Deadlines.DeadlineNeverMoves | nlm_controller/Source/tasks.c:3015-3073 | over any number of checks at most one wrap apart, all before the deadline say not yet and the first at or after it says over |
| Deadlines.RetryLoop | nlm_controller/Source/queue.c:742-917 | the loops of send and receive (1256-1430) give up in the first pass that finds the queue unusable at or after the deadline, or at once for a wait of no ticks, never before, and never for portMAX_DELAY; a receive that times out looks at the queue once more |
| Queues.Queue.constructor | nlm_controller/Source/queue.c:386-470 | a new queue holds no items |
| Queues.Queue.Reset | nlm_controller/Source/queue.c:285-292 | a reset queue holds no items |
| Queues.Queue.CopyDataToQueue | nlm_controller/Source/queue.c:1697-1773 | the byte ring gains the item at its back or front, or replaces the only one, for every length and item size, item size 0 included |
| Queues.Queue.CopyDataFromQueue | nlm_controller/Source/queue.c:1776-1791 | the bytes copied out are those of the front item |
| Queues.Queue.TrySend | nlm_controller/Source/queue.c:744-850 | an item is accepted exactly when there is room or it overwrites, and then takes its place; otherwise nothing changes |
| Queues.Queue.TryReceive | nlm_controller/Source/queue.c:1258-1350 | the front item is returned and removed, or only returned by a peek; an empty queue says so and stays as it is |
| Queues.Queue.SpacesAvailable | nlm_controller/Source/queue.c:1595-1610 | the free places are the length less the items held |
| Queues.Appends | nlm_controller/Source/queue.c:1723-1735 | writing the slot at pcWriteTo appends to the items, across the wrap at pcTail |
| Queues.Prepends | nlm_controller/Source/queue.c:1736-1747 | writing the slot at pcReadFrom and stepping back prepends |
| Queues.Drops | nlm_controller/Source/queue.c:1778-1790 | stepping the read position forward reaches the front item and leaves the rest |
| Queues.DeliversInOrder | nlm_controller/Source/queue.c:1697-1791 | over any run with back-sends alone, the items received and then those held are the items accepted, in order, none lost or repeated |
| Queues.ConservesItems | nlm_controller/Source/queue.c:1697-1791 | over any run with any sends, each accepted item is received once, still held, or was overwritten |
| Queues.StaysBounded | nlm_controller/Source/queue.c:1706-1770 | a queue stays within its length in every state of a run exactly when no send overwrites a full semaphore |
| Queues.OverwrittenSemaphore | nlm_controller/Source/queue.c:1706-1770 | overwriting a full binary semaphore leaves two messages in a queue of length one |
| QueueLocks.StepR | nlm_controller/Source/queue.c:1794-1880 | each step of a task or interrupt keeps the receivers' account exactly when it is not a post that is neither counted nor followed by a wakeup, while a receiver waits and not enough receivers are on their way; the lists stay apart in any case |
| QueueLocks.StepS | nlm_controller/Source/queue.c:1882-1911 | each step keeps the senders' account exactly when it is no such take, and no reset (297-311) that frees more places than senders are on their way to |
| QueueLocks.RunR | nlm_controller/Source/queue.c:723-1069 | over whole runs: while tasks wait to receive, the messages never exceed the woken receivers plus the posts counted in cTxLock, exactly when no post of the run loses a wakeup, overflows that lose none included |
| QueueLocks.RunS | nlm_controller/Source/queue.c:1237-1517 | over whole runs: the same for free places and senders, exactly when no take loses a wakeup and no reset strands senders |
| QueueLocks.NoWakeupLost | nlm_controller/Source/queue.c:1794-1911 | from a new queue, in every interleaving in which no step loses a wakeup: when it is unlocked and a task waits to receive, each message has a woken receiver on its way; likewise for senders and free places |
| QueueLocks.CountingRun | nlm_controller/Source/queue.c:1051-1056 | a run in which neither count overflows and no reset strands senders loses no wakeup |
| QueueLocks.LostWakeup | nlm_controller/Source/queue.c:1051-1056 | 128 interrupt posts during one lock leave a receiver blocked on 128 messages with nobody on the way: the int8_t count wraps |
| QueueLocks.LockedQueue.LockQueue | nlm_controller/Source/queue.c:264-276 | both counts begin at zero, and no account changes |
| QueueLocks.LockedQueue.UnlockTx | nlm_controller/Source/queue.c:1802-1880 | the first loop wakes the receivers at the front, exactly one for each counted post while there are receivers, and the account stays right |
| QueueLocks.LockedQueue.UnlockRx | nlm_controller/Source/queue.c:1882-1910 | the second loop does exactly so for senders and counted takes |
| QueueLocks.LockedQueue.Send | nlm_controller/Source/queue.c:744-850 | posts or refuses; an accepted item counts and puts exactly the first waiting receiver on its way, and the accounts stay right |
| QueueLocks.LockedQueue.Receive | nlm_controller/Source/queue.c:1258-1350 | takes or peeks, or finds nothing; a take counts and puts exactly the first sender on its way, a peek the first receiver; the accounts stay right although the caller is no longer on its way |
| QueueLocks.LockedQueue.SendFromISR | nlm_controller/Source/queue.c:921-1069 | posts or refuses; an accepted item puts exactly the first receiver of an unlocked queue on its way, and is counted modulo 256 for a locked one; the account stays right exactly when the post loses no wakeup |
| QueueLocks.LockedQueue.ReceiveFromISR | nlm_controller/Source/queue.c:1434-1517 | the same for a take |
| QueueLocks.LockedQueue.Reset | nlm_controller/Source/queue.c:287-311 | no message is left, the queue is unlocked and exactly the first waiting sender is on its way; the senders' account stays right exactly when no sender is stranded |
| Mutexes.StepBooks | nlm_controller/Source/queue.c:1279-1292 | each step keeps uxMutexesHeld equal to the number of mutexes held, a task that holds none at its base priority, and a recursive mutex free exactly at call count zero |
| Mutexes.RunBooks | nlm_controller/Source/queue.c:572-662 | over any run, nested, with timeouts and changed priorities: that, and a recursive mutex is free at the end exactly when its gives match its takes |
| Mutexes.StepKeepsM | nlm_controller/Source/queue.c:1237-1431 | each step of the restricted runs keeps the order of priorities between holders, waiters and woken tasks |
| Mutexes.HolderOutranksWaiters | nlm_controller/Source/tasks.c:3706-3846 | in every run with one mutex at a time, no wait that times out and no changed priorities, takes without waiting included, a holder has at least the priority of each waiter, also after the mutex was given and taken by another task, and the running task the highest ready priority |
| Mutexes.SwitchDueExactly | nlm_controller/Source/queue.c:744-850 | the steps that ask for a switch, in terms of priorities: blocking, a give whose first waiter outranks the giver as it then is or, with nobody waiting, that drops an inherited priority, a timeout or wake of a task that ranks high enough, and a change of priority across the running one (tasks.c:1433-1481) |
| Inversions.PlacedStep | nlm_controller/Source/queue.c:1376-1413 | each step of any run keeps every waiter in the list of the mutex it waits for, once, and nowhere else |
| Inversions.HighestStep | nlm_controller/Source/queue.c:808-830 | for every step of any run: the running task still has the highest ready priority, or a switch is due, exactly when the step is not a give that drops an inherited priority below another ready task's while a task of no more than the base priority waits first for the mutex |
| Inversions.HighestThroughout | nlm_controller/Source/tasks.c:1460-1463 | over every run, nested, with timeouts and changed priorities: that holds all the way through exactly when no such give comes |
| Inversions.OutrankStep | nlm_controller/Source/tasks.c:3706-3765 | for every step of any run: holders still have at least the priority of their waiters exactly when the step is none of these: taking a free mutex below a waiter, blocking on a holder that is raised past another holder it waits for, and setting a priority across one |
| Inversions.OutrankThroughout | nlm_controller/Source/tasks.c:3706-3765 | over every run: that holds all the way through exactly when no such step comes |
| Inversions.NestingBreaksIt | nlm_controller/Source/tasks.c:3706-3765 | a task that waits while it holds does not pass an inherited priority on: a holder then ranks below its waiter |
| Inversions.TimeoutBreaksIt | nlm_controller/Source/queue.c:808-830 | after a waiter timed out, giving the mutex to a low waiter asks for no switch although a higher task is ready |
| Inversions.LoweringBreaksIt | nlm_controller/Source/tasks.c:1486-1500 | lowering a woken task before it takes the mutex, or the holder after, puts it below a waiter |
| MutualExclusion.Mutual.Take | nlm_controller/Source/queue.c:1258-1292 | a free mutex is held by the running task, which counts one more, and otherwise nothing is taken; books and lists stay right, and the order of priorities is kept exactly when no waiter outranks the taker |
| MutualExclusion.Mutual.PriorityInherit | nlm_controller/Source/tasks.c:3706-3765 | a holder of a lower priority gets exactly the running task's priority, nobody else's changes, and the books stay right |
| MutualExclusion.Mutual.BlockOrRetry | nlm_controller/Source/queue.c:1376-1413 | the running task waits in the list of the mutex, whose holder is raised to exactly its priority if it had a lower one, or looks again if it was given; books and lists stay right, and the order of priorities is kept exactly when the holder is not raised past another it waits for |
| MutualExclusion.Mutual.PriorityDisinherit | nlm_controller/Source/tasks.c:3772-3846 | with its last mutex given the running task is at its base priority, and with another one held at the priority it had |
| MutualExclusion.Mutual.Give | nlm_controller/Source/queue.c:1706-1722 | the mutex is free, one less is held, the last one brings the base priority back and before that priorities stay, the first waiter is ready and off the list, and a switch is asked for exactly when that waiter outranks the giver as it then is or, with nobody waiting, an inherited priority is dropped; books and lists stay right, and the running task stays the highest exactly when no due yield is dropped (808-830) |
| MutualExclusion.Mutual.TakeRecursive | nlm_controller/Source/queue.c:627-662 | success exactly when the mutex was free or held by the caller, whose call count is one more; books and lists stay right |
| MutualExclusion.Mutual.GiveRecursive | nlm_controller/Source/queue.c:572-618 | success exactly for the holder, whose call count is one less and who frees the mutex exactly at zero; books and lists stay right |
| TimerService.OnSchedule | nlm_controller/Source/timers.c:478-515 | an auto-reload timer started at tick S with period p has callbacks for exactly S+p, S+2p, ..., each once, in order and none early, over every run of the service in unbounded time in which only the daemon sends it commands and no restart finds the queue full; Timers.TimerDaemon.Serve carries it to the code |
| TimerService.NoneMissed | nlm_controller/Source/timers.c:554-611 | when the daemon has nothing left to do for the timer, every expiry up to the last sample has had its callback |
| TimerService.RunTracks | nlm_controller/Source/timers.c:518-907 | each step of the daemon, with any commands for other timers and any lateness, keeps the timer's schedule |
| TimerService.DrainTracks | nlm_controller/Source/timers.c:851-907 | draining the old list at an overflow keeps the schedule, whether a reload falls into the same epoch or not |
| TimerService.CommandStepTracks | nlm_controller/Source/timers.c:704-848 | obeying a command, its own restart or one for another timer, keeps the schedule |
| TimerService.SwitchWorks | nlm_controller/Source/timers.c:851-900 | each round of the draining loop brings the active timers closer to the end of the epoch, so it stops |
| Timers.ProcessNowIs | nlm_controller/Source/timers.c:669-698 | for all tick counts the branches say process now exactly when one period has passed, within one range, since the reference time |
| Timers.InsertIsExact | nlm_controller/Source/timers.c:663-701 | for all times: the timer is processed when its expiry has passed and otherwise filed at its expiry if and only if the reference time has come and is less than one range old, or old by whole ranges and at least one period |
| Timers.ProcessNowIsExact | nlm_controller/Source/timers.c:669-698 | for a reference time that has come, the exact condition under which the answer is right |
| Timers.SampleIsExact | nlm_controller/Source/timers.c:640-660 | comparing the wrapped times tells how often the count has wrapped since the last sample exactly when that is less than one range back |
| Timers.InsertTooLate | nlm_controller/Source/timers.c:663-701 | with a reference one range old, an expiry long past is filed as if it were to come |
| TimerOneShot.CallsBackOnce | nlm_controller/Source/timers.c:478-515 | a one-shot timer started at tick S with period p calls back once, for S+p and not before that tick, over every run in which nobody else sends it commands, however late the daemon and whatever is lost for others; then it is off the lists and the queue, and until then its expiry or its start command is there |
| TimerOneShot.RunSingle | nlm_controller/Source/timers.c:518-907 | each step of the daemon keeps that of a one-shot timer, its own start included |
| TimerOneShot.ExpiresExactly | nlm_controller/Source/timers.c:478-515 | the first timer calls back once; an auto-reload timer is filed at its next expiry exactly when that is still to come and otherwise restarted by a command sent before those of the callback; a one-shot timer is neither filed nor started |
| TimerOneShot.SwitchesExactly | nlm_controller/Source/timers.c:851-900 | when the lists switch it calls back once too; it is filed again exactly while the next expiry lies before the end of the old epoch, and otherwise restarted by a command sent after those of the callback |
| TimerOneShot.OffersInOrder | nlm_controller/Source/timers.c:397-436 | commands join the queue in the order in which they are sent, up to its capacity |
| Timers.WaitEndsInTime | nlm_controller/Source/timers.c:554-611 | a limited wait never outlasts the next expiry, and is of no ticks exactly when the tick count is 0 and nothing expires in the new epoch |
| Timers.TimerDaemon.GenericCommand | nlm_controller/Source/timers.c:397-436 | appends the command exactly when there is room |
| Timers.TimerDaemon.SwitchTimerLists | nlm_controller/Source/timers.c:851-907 | drains the current list as the unbounded service does and exchanges the lists |
| Timers.TimerDaemon.SampleTimeNow | nlm_controller/Source/timers.c:640-660 | notices the overflow from the wrapped times alone and reports it |
| Timers.TimerDaemon.InsertTimerInActiveList | nlm_controller/Source/timers.c:663-701 | for any reference time, files the timer at the next time with its expiry value or reports it, which is right exactly under the condition of Timers.InsertIsExact |
| Timers.TimerDaemon.ProcessExpiredTimer | nlm_controller/Source/timers.c:478-515 | takes the first timer off, files its next expiry or sends its restart, and calls back |
| Timers.TimerDaemon.GetNextExpireTime | nlm_controller/Source/timers.c:614-637 | the expiry of the first of all active timers, wrapped, which lies in the present epoch, or that no timer expires before the next epoch |
| Timers.TimerDaemon.ProcessTimerOrBlockTask | nlm_controller/Source/timers.c:554-611 | processes the first timer if it is due; the daemon blocks exactly when the tick count has not wrapped since the last sample and no timer is due, without limit exactly when no timer is active, and otherwise until the first expiry if that lies in the present epoch and until the count is 0 if not |
| Timers.TimerDaemon.ProcessCommand | nlm_controller/Source/timers.c:704-848 | one round: takes the first command, sent less than one range ago, off the queue, its timer off the lists, samples the time and obeys, deletion included |
| Timers.TimerDaemon.ProcessReceivedCommands | nlm_controller/Source/timers.c:704-848 | the loop serves the commands one after another and stops only when the queue is empty, for any timely times and callbacks |
| Timers.TimerDaemon.Serve | nlm_controller/Source/timers.c:518-551 | any timely run of checks, commands and posts: the daemon with its wrapping lists takes the service through it, so every auto-reload timer just started and left alone has had its callbacks for exactly S+p, S+2p, ..., each once, in order and none early |
| Timers.TimerDaemon.StartTimer | nlm_controller/Source/timers.c:765-793 | starts or restarts the timer from the command's time, calling back at once and sending a restart when that expiry has passed |
| Timers.TimerDaemon.ChangeTimerPeriod | nlm_controller/Source/timers.c:801-813 | sets the period and files the timer one new period from now |
| Timers.TimerDaemon.Post | nlm_controller/Source/timers.c:397-436 | commands of tasks, interrupts and callbacks join the queue while there is room |
| Timers.TimerDaemon.constructor | nlm_controller/Source/timers.c:910-958 | the daemon starts with no active timer |
| EventGroups.TestIsSatisfied | nlm_controller/Source/event_groups.c:682-712 | the test says, in bits, that some bit waited for is set, or that every one is, as the wait asks |
| EventGroups.MatchesIsOver | nlm_controller/Source/event_groups.c:556-586 | a waiter on the list is complete exactly when its wait for any, or for all, of its bits is over |
| EventGroups.ClearedBits | nlm_controller/Source/event_groups.c:588-616 | a bit is cleared exactly when a task whose wait is over asked for that bit to be cleared on exit |
| EventGroups.WordsRoundTrip | nlm_controller/Source/event_groups.c:372-400 | the value a task blocks with says what it waits for, and the value it wakes with is the bits handed to it, told apart from a timeout (428) |
| EventGroups.KeptIsUnmatched | nlm_controller/Source/event_groups.c:556-612 | exactly the waiters whose wait is not complete stay, in order |
| EventGroups.ClearedIsUnion | nlm_controller/Source/event_groups.c:588-616 | a bit is cleared exactly when a woken task that clears on exit waited for it |
| EventGroups.FewerBitsMatchLess | nlm_controller/Source/event_groups.c:682-712 | fewer bits complete no more waits |
| EventGroups.EventGroup.constructor | nlm_controller/Source/event_groups.c:174-205 | a new group has no bits and no waiters |
| EventGroups.EventGroup.SetBits | nlm_controller/Source/event_groups.c:530-621 | walks the linked list while unlinking from it: exactly the tasks that wait for some bit among old-or-set bits, or for bits that are all among them, are woken and handed these; then exactly the bits that a woken task asked to clear are cleared, and no task left waiting is complete |
| EventGroups.EventGroup.WaitBits | nlm_controller/Source/event_groups.c:324-409 | blocks exactly when no bit waited for is set, or not all of them if all are asked for, and the caller may wait; otherwise returns the bits, which are cleared exactly if so asked and the wait is complete |
| EventGroups.EventGroup.Sync | nlm_controller/Source/event_groups.c:208-265 | completes exactly when the bits before the call with those set contain the bits waited for, and then clears these; otherwise blocks or returns |
| EventGroups.EventGroup.AfterBlocking | nlm_controller/Source/event_groups.c:411-469 | a woken task returns the bits it was handed; one that timed out the present bits, clearing them if some bit, or every bit, it waits for is set by then (282-315) |
| EventGroups.EventGroup.ClearBits | nlm_controller/Source/event_groups.c:472-496 | clears the bits, returns the previous ones and completes no wait |
| EventGroups.EventGroup.Expire | nlm_controller/Source/tasks.c:2570-2586 | a waiter whose time is over leaves the list and nothing else changes |
| EventGroups.EventGroup.Wake | nlm_controller/Source/tasks.c:2962-3004 | the woken task's item holds the value handed to it and has left the list |
| CoRoutines.CoScheduler.constructor | nlm_controller/Source/croutine.c:350-367 | at the start no co-routine is delayed and the clock is 0 |
| CoRoutines.CoScheduler.CheckDelayedList | nlm_controller/Source/croutine.c:262-317 | the clock ends at the sampled tick count, and all lists are as that many single ticks leave them, overflows included: those asleep are exactly those still to wake, and every other sleeper is ready |
| CoRoutines.CoScheduler.Tick | nlm_controller/Source/croutine.c:267-314 | one round: the clock steps and the lists are switched when it wraps, the old one being empty |
| CoRoutines.CoScheduler.ReleaseExpired | nlm_controller/Source/croutine.c:284-313 | readies exactly the co-routines that are due, out of their event lists |
| CoRoutines.CoScheduler.AddToDelayedList | nlm_controller/Source/croutine.c:201-229 | files the running co-routine at its unbounded wake time, behind every equal one, takes it off its ready list, and joins the list of an event behind every waiter of its priority or more, with every other event list as it was |
| CoRoutines.CoScheduler.RemoveFromEventList | nlm_controller/Source/croutine.c:370-393 | the interrupt readies a waiter of the highest priority for the pending list, and says whether it ranks below the running co-routine |
| CoRoutines.CoScheduler.CheckPendingReadyList | nlm_controller/Source/croutine.c:239-259 | exactly the co-routines readied by an interrupt leave the delayed lists for the ready lists of their priorities, and nobody else moves |
| CoRoutines.CoScheduler.Select | nlm_controller/Source/croutine.c:328-341 | finds the next in turn of the highest priority with a ready co-routine, and none exactly when none is ready |
| CoRoutines.CatchesUp | nlm_controller/Source/croutine.c:262-317 | from ordered sleepers still to wake, which CoRoutines.ReadyToTick derives from every valid state, and however many ticks below M have passed: those left asleep are exactly those still to wake, and the others have been readied in the order of their wake times |
| CoRoutines.ReadyToTick | nlm_controller/Source/croutine.c:262-317 | in every valid state the sleepers of the two lists are in order of unbounded wake time, still to wake, and each has a ready list |
| AbiPatterns.WordLineIs | nlm_application/devtools/update_version_map_abi.py:18-35 | the reader takes a line for a header, or for a function, exactly when it is blanks, a word of the allowed characters, blanks, the brace or semicolon, and blanks |
| AbiPatterns.EndLineIs | nlm_application/devtools/update_version_map_abi.py:39-46 | a line ends a section exactly when it is blanks, a brace, blanks, an optional word, blanks, a semicolon, and blanks |
| AbiPatterns.StripIs | nlm_application/devtools/update_version_map_abi.py:62-64 | stripping takes exactly the blanks off both ends |
| AbiPatterns.BeforeIs | nlm_application/devtools/update_version_map_abi.py:106-108 | the order of names is that of the first characters at which they differ, a prefix coming first |
| AbiPatterns.ParseMeans | nlm_application/devtools/update_version_map_abi.py:62-93 | what the reading finds, over positions of the file: a line lies inside the experimental section when that was the last section begun and no line since ended one; lines inside are copied in order, and outside a stable header is noted and exactly the names of function lines are gathered |
| AbiPatterns.WrittenStands | nlm_application/devtools/update_version_map_abi.py:96-174 | the written file, over positions: with a stable section the first line is its header, the last two of the section are the local line and the closing brace; with names, the global label comes first and every name stands, in order, between the two labels; one blank line stands between two sections, and the experimental lines stand between their header and closing brace |
| AbiScript.ParseMapFile | nlm_application/devtools/update_version_map_abi.py:18-93 | one pass over the lines yields the map that the line-by-line reading defines, in which every position of the file means what AbiPatterns.ParseMeans says |
| AbiMap.SortNames | nlm_application/devtools/update_version_map_abi.py:106-108 | the names in ascending order, each once |
| AbiScript.GenerateStableAbi | nlm_application/devtools/update_version_map_abi.py:96-117 | the written section begins with the header of the version and ends with the local line and the closing brace; with names, the global label precedes them and every name stands between the two labels, with a blank line at both ends |
| AbiScript.GenerateExperimentalAbi | nlm_application/devtools/update_version_map_abi.py:120-133 | the experimental lines, in order, between their header and the closing brace, each indented unless empty |
| AbiScript.Update | nlm_application/devtools/update_version_map_abi.py:136-174 | refuses a wrong file name or version argument, and otherwise writes the map it read, merged under the version and laid out as AbiPatterns.WrittenStands says |
| AbiScript.AcceptedIs | nlm_application/devtools/update_version_map_abi.py:154 | a version argument is accepted exactly when it begins with one or two digits, a dot and a digit |
| AbiMap.HeaderWord | nlm_application/devtools/update_version_map_abi.py:27-35 | a written header is read as a section exactly when its version is section-name characters and then blanks |
| AbiMap.ReadsBack | nlm_application/devtools/update_version_map_abi.py:18-133 | reading a written file recovers the experimental lines verbatim and, with a stable section, its set of functions |
| AbiMap.RewritingTwice | nlm_application/devtools/update_version_map_abi.py:18-174 | rewriting twice gives the same file as rewriting once exactly when the file has no stable section or the header pattern accepts the version |
| AbiScript.AcceptedIsNotGood | nlm_application/devtools/update_version_map_abi.py:154 | the check of the argument lets versions through that the header pattern does not accept |

## Left out

- Kernels.Kernel.AddCurrentTaskToDelayedList: in tasks.c the lists are linked structures; `Kernel` holds each as a sequence with a cursor, which `Lists` proves the linked form to implement.
- Kernels.Kernel.CheckTimeOut: the overflow counter is unbounded here and does not wrap at 32 bits.
- Kernels.Kernel.CreateTask: the steps begin when the scheduler has started with the idle task; creating and suspending tasks before that is left out.
- Mutexes.HolderOutranksWaiters: the use of event item values by event groups, and ready lists, are in `SchedulerEvents` and `Kernels` only. A recursive take counts in the step that takes the mutex, while queue.c:627-662 counts right after that critical section, where only the holder looks.
- QueueLocks.NoWakeupLost: the place of a waiter in its list is arbitrary, and woken tasks are neither suspended nor deleted before they look at the queue again.
- Timers.TimerDaemon.ProcessCommand: the command must be less than one range old and the time sampled within one range of the last sample; `Timers.InsertIsExact` and `Timers.SampleIsExact` say exactly what happens otherwise.
- Timers.TimerDaemon.Post: the commands of a callback are given as data.
- TimerService.OnSchedule: one timer at a time; that the queue always has room when there are no more timers than places is not proved.
- CoRoutines.CoScheduler.constructor: the co-routines' own code, their creation and co-routine queues are left out.
- EventGroups.EventGroup.SetBits: words are sets of bit positions; moving the woken task to its ready list is `Kernels.Kernel.RemoveFromUnorderedEventList`. Deleting a group is left out.
- Queues.Queue.TrySend: the wakeups beside the copying are in `QueueLocks`; the lock counts and the storage are proved apart.
- AbiScript.ParseMapFile: blanks and digits are the ASCII ones with the single-byte separators; a version argument that contains a line end, and reading and writing the disk, are left out.
- Task notifications, tickless idle, xTaskAbortDelay, queue sets, the queue registry, MPU settings, allocation, stacks, run-time statistics and trace macros: port-specific, debugging only, or more cases of the same arguments.
- The port layer: real interrupts and assembly context switches appear only as steps between critical sections.
- Overflow of 32-bit counts of tasks, list items, messages and pended ticks: these counters are unbounded.
- nlm_vspa, nlm_common_headers, the DPDK application and the other scripts: register access, intrinsics, libraries that are not part of this model, and user interfaces.
