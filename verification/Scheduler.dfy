/**
 * The specification of tasks.c: the scheduler's variables as one value, and each critical section,
 * suspended block or interrupt as a function on it.  `Kernels` proves its methods against these.
 */
module Scheduler {
  import opened Rings
  import opened Stores
  import opened Clock
  import opened Timeline
  import opened TwoLists

  /** Where a state list item can be; the flag tells the two delayed lists apart. */
  datatype ListId = ReadyL(p: nat) | DelayedL(which: bool) | SuspendedL | TerminationL

  type States = Store<ListId, Task>
  type Events = Store<EventId, Task>

  /** The event list item value of a task of priority `p`: high priorities sort first. */
  function EventValue(p: nat, priorities: nat): nat {
    if p <= priorities then priorities - p else 0
  }

  /** Priorities that are too large become the largest one. */
  function Clamp(p: nat, priorities: nat): nat {
    if p < priorities then p else if priorities > 0 then priorities - 1 else 0
  }

  datatype Sched = Sched(
    ticks: Modulus,               // how many values TickType_t has; portMAX_DELAY is the last
    priorities: nat,              // configMAX_PRIORITIES
    inUse: nat,                   // taskEVENT_LIST_ITEM_VALUE_IN_USE
    idle: Task,                   // xIdleTaskHandle
    states: States,               // the lists that state list items are linked into
    events: Events,               // the lists that event list items are linked into
    value: map<Task, nat>,        // xStateListItem.xItemValue
    eventValue: map<Task, nat>,   // xEventListItem.xItemValue
    prio: map<Task, nat>,         // uxPriority
    base: map<Task, nat>,         // uxBasePriority
    held: map<Task, nat>,         // uxMutexesHeld
    current: Task,                // pxCurrentTCB
    delayed: bool,                // the list pxDelayedTaskList points at
    tick: nat,                    // xTickCount
    overflows: nat,               // xNumOfOverflows
    next: nat,                    // xNextTaskUnblockTime
    top: nat,                     // uxTopReadyPriority
    suspended: nat,               // uxSchedulerSuspended
    pended: nat,                  // uxPendedTicks
    yieldPending: bool,           // xYieldPending
    count: nat,                   // uxCurrentNumberOfTasks
    deleted: nat)                 // uxDeletedTasksWaitingCleanUp
  {
    function MaxDelay(): nat { ticks - 1 }

    function Prio(t: Task): nat { At(prio, t) }

    function Delayed(): seq<Task> { states.Items(DelayedL(delayed)) }

    function OverflowDelayed(): seq<Task> { states.Items(DelayedL(!delayed)) }

    function Pending(): seq<Task> { events.Items(PendingL) }

    predicate IsReady(t: Task) {
      t in states.container && states.container[t].ReadyL?
    }

    // ----- private helpers of tasks.c -----

    /** `prvAddTaskToReadyList`. */
    function AddToReady(t: Task): Sched {
      this.(top := if top < Prio(t) then Prio(t) else top, states := states.InsertEnd(ReadyL(Prio(t)), t))
    }

    /** Unlink the state item of `t` and file it in the ready list of its priority. */
    function MoveToReady(t: Task): Sched {
      this.(states := states.Remove(t)).AddToReady(t)
    }

    /** Give `t` priority `p`, refiling it if it is in the ready list of its present priority. */
    function Reprioritise(t: Task, p: nat): Sched {
      var s := this.(prio := prio[t := p]);
      if states.In(t, ReadyL(Prio(t))) then s.MoveToReady(t) else s
    }

    /** `prvResetNextTaskUnblockTime`. */
    function ResetNext(): Sched {
      this.(next := if Delayed() == [] then MaxDelay() else At(value, Delayed()[0]))
    }

    /** `prvTaskIsTaskSuspended`. */
    predicate IsTaskSuspended(t: Task) {
      states.In(t, SuspendedL) && t !in events.container
    }

    function SetEventValue(t: Task, p: nat): Sched {
      if At(eventValue, t) < inUse then this.(eventValue := eventValue[t := EventValue(p, priorities)]) else this
    }

    // ----- task management -----

    /** `prvInitialiseNewTask` and `prvAddNewTaskToReadyList` while the scheduler is running. */
    function Create(t: Task, p: nat): Sched {
      var q := Clamp(p, priorities);
      this.(prio := prio[t := q], base := base[t := q], held := held[t := 0],
            eventValue := eventValue[t := EventValue(q, priorities)], count := count + 1).AddToReady(t)
    }

    /** `vTaskDelete`. */
    function Delete(t: Task): Sched {
      var s := this.(states := states.Remove(t), events := events.Remove(t));
      if t == current then
        s.(states := s.states.InsertEnd(TerminationL, t), deleted := deleted + 1)
      else
        s.(count := if count > 0 then count - 1 else 0).ResetNext()
    }

    /** One round of `prvCheckTasksWaitingTermination`. */
    function Reap(): Sched {
      if deleted == 0 || states.Items(TerminationL) == [] then this else
        this.(states := states.Remove(states.Items(TerminationL)[0]),
              count := if count > 0 then count - 1 else 0, deleted := deleted - 1)
    }

    /** `vTaskSuspend`. */
    function Suspend(t: Task): Sched {
      this.(states := states.Remove(t).InsertEnd(SuspendedL, t), events := events.Remove(t)).ResetNext()
    }

    /** `vTaskResume`. */
    function Resume(t: Task): Sched {
      if t != current && IsTaskSuspended(t) then MoveToReady(t) else this
    }

    /** `xTaskResumeFromISR`. */
    function ResumeFromISR(t: Task): Sched {
      if !IsTaskSuspended(t) then this
      else if suspended == 0 then MoveToReady(t)
      else this.(events := events.InsertEnd(PendingL, t))
    }

    /** `vTaskPrioritySet`: an inherited priority is left alone, the base priority is set regardless. */
    function PrioritySet(t: Task, p: nat): Sched {
      var q := Clamp(p, priorities);
      if At(base, t) == q then this else
        this.(base := base[t := q]).SetEventValue(t, q).Reprioritise(t, if At(base, t) == Prio(t) then q else Prio(t))
    }

    /** `vTaskPriorityInherit`, on behalf of the running task. */
    function Inherit(t: Task): Sched {
      if Prio(current) <= Prio(t) then this else SetEventValue(t, Prio(current)).Reprioritise(t, Prio(current))
    }

    /** `xTaskPriorityDisinherit`: the running task gives a mutex back. */
    function Disinherit(t: Task): Sched {
      var s := this.(held := held[t := if At(held, t) > 0 then At(held, t) - 1 else 0]);
      if Prio(t) == At(base, t) || At(s.held, t) > 0 then s else
        s.(eventValue := eventValue[t := EventValue(At(base, t), priorities)]).Reprioritise(t, At(base, t))
    }

    /** `pvTaskIncrementMutexHeldCount`: the running task has taken a mutex. */
    function IncrementHeld(): Sched { this.(held := held[current := At(held, current) + 1]) }

    /** `uxTaskResetEventItemValue`: the running task's event item gets its normal value back. */
    function ResetEventItemValue(): Sched {
      this.(eventValue := eventValue[current := EventValue(Prio(current), priorities)])
    }

    // ----- blocking -----

    /** File the running task in the delayed list of its wake time. */
    function SleepCurrent(wait: nat): Sched {
      var wake := Wrap(tick + wait, ticks);
      var list := DelayedL(if wake < tick then !delayed else delayed);
      var s := states.Remove(current);
      var place := InsertPlace(ValuesOf(s.Items(list), value), wake);
      this.(value := value[current := wake], states := s.InsertAt(list, place, current),
            next := if tick <= wake < next then wake else next)
    }

    /** `prvAddCurrentTaskToDelayedList`. */
    function DelayCurrent(wait: nat, canBlock: bool): Sched {
      if wait == MaxDelay() && canBlock then
        this.(states := states.Remove(current).InsertEnd(SuspendedL, current))
      else
        SleepCurrent(wait)
    }

    /** `vTaskPlaceOnEventList`: in priority order. */
    function PlaceOnEventList(e: nat, wait: nat): Sched {
      var place := InsertPlace(ValuesOf(events.Items(EventL(e)), eventValue), At(eventValue, current));
      this.(events := events.InsertAt(EventL(e), place, current)).DelayCurrent(wait, true)
    }

    /** `vTaskPlaceOnUnorderedEventList`; `v` is the value the event group stores in the item. */
    function PlaceOnUnorderedEventList(e: nat, v: nat, wait: nat): Sched {
      this.(eventValue := eventValue[current := v], events := events.InsertEnd(EventL(e), current))
      .DelayCurrent(wait, true)
    }

    /** `vTaskPlaceOnEventListRestricted`. */
    function PlaceOnEventListRestricted(e: nat, wait: nat, forever: bool): Sched {
      this.(events := events.InsertEnd(EventL(e), current)).DelayCurrent(if forever then MaxDelay() else wait, forever)
    }

    /** `xTaskRemoveFromEventList`: the head of the list is woken, now or when the scheduler resumes. */
    function RemoveFromEventList(e: nat): Sched {
      if events.Items(EventL(e)) == [] then this else
        var t := events.Items(EventL(e))[0];
        var s := this.(events := events.Remove(t));
        var s' := if suspended == 0 then s.MoveToReady(t) else s.(events := s.events.InsertEnd(PendingL, t));
        s'.(yieldPending := yieldPending || Prio(current) < Prio(t))
    }

    /** `xTaskRemoveFromUnorderedEventList`. */
    function RemoveFromUnorderedEventList(t: Task, v: nat): Sched {
      this.(eventValue := eventValue[t := v], events := events.Remove(t)).MoveToReady(t)
      .(yieldPending := yieldPending || Prio(current) < Prio(t))
    }

    // ----- the tick -----

    /** Wake the task at the head of the current delayed list. */
    function WakeFirst(): Sched
      requires Delayed() != []
    {
      this.(events := events.Remove(Delayed()[0])).MoveToReady(Delayed()[0])
    }

    /** The `for(;;)` of `xTaskIncrementTick`. */
    function WakeDue(): Sched
      decreases |Delayed()|
    {
      if Delayed() == [] then this.(next := MaxDelay())
      else if tick < At(value, Delayed()[0]) then this.(next := At(value, Delayed()[0]))
      else if |WakeFirst().Delayed()| < |Delayed()| then WakeFirst().WakeDue() else this
    }

    /** Does that loop wake a task of priority `p` or more? */
    function WakesAtLeast(p: nat): bool
      decreases |Delayed()|
    {
      Delayed() != [] && At(value, Delayed()[0]) <= tick &&
      (p <= Prio(Delayed()[0]) || (|WakeFirst().Delayed()| < |Delayed()| && WakeFirst().WakesAtLeast(p)))
    }

    /** Advance the tick count, switching the delayed lists when it wraps. */
    function Advance(): Sched {
      if tick + 1 < ticks then this.(tick := tick + 1)
      else this.(tick := 0, delayed := !delayed, overflows := overflows + 1).ResetNext()
    }

    /** `xTaskIncrementTick`. */
    function Tick(): Sched {
      if suspended > 0 then this.(pended := pended + 1)
      else if Advance().next <= Advance().tick then Advance().WakeDue() else Advance()
    }

    /** The value `xTaskIncrementTick` returns: should the tick interrupt switch tasks? */
    predicate TickSwitches() {
      yieldPending ||
      (suspended == 0 &&
       ((Advance().next <= Advance().tick && Advance().WakesAtLeast(Prio(current))) ||
        |Tick().states.Items(ReadyL(Prio(current)))| > 1))
    }

    // ----- suspending the scheduler -----

    function SuspendAll(): Sched { this.(suspended := suspended + 1) }

    /** Move the first pending-ready task to its ready list. */
    function MoveOnePending(): Sched
      requires Pending() != []
    {
      this.(events := events.Remove(Pending()[0])).MoveToReady(Pending()[0])
      .(yieldPending := yieldPending || Prio(current) <= Prio(Pending()[0]))
    }

    function MovePending(): Sched
      decreases |Pending()|
    {
      if Pending() == [] then this
      else if |MoveOnePending().Pending()| < |Pending()| then MoveOnePending().MovePending() else this
    }

    /** The pended ticks, each processed as a tick interrupt would have. */
    function RunPended(n: nat): Sched
      decreases n
    {
      if n == 0 then this else Tick().(yieldPending := yieldPending || TickSwitches()).RunPended(n - 1)
    }

    /** `xTaskResumeAll`. */
    function ResumeAll(): Sched {
      if suspended == 0 then this else
        var s := this.(suspended := suspended - 1);
        if s.suspended > 0 || count == 0 then s else
          var m := if s.Pending() == [] then s else s.MovePending().ResetNext();
          m.RunPended(pended).(pended := 0)
    }

    // ----- choosing the task to run -----

    /** The search of `taskSELECT_HIGHEST_PRIORITY_TASK`. */
    function HighestReady(p: nat): (q: nat)
      ensures q <= p && (q > 0 ==> states.Items(ReadyL(q)) != [])
      ensures forall r :: q < r <= p ==> states.Items(ReadyL(r)) == []
    {
      if p == 0 || states.Items(ReadyL(p)) != [] then p else HighestReady(p - 1)
    }

    /** `vTaskSwitchContext`. */
    function SwitchContext(): Sched {
      if suspended > 0 then this.(yieldPending := true) else
        var p := HighestReady(top);
        var s := this.(yieldPending := false, top := p);
        if ReadyL(p) in states.lists && states.Items(ReadyL(p)) != [] && states.lists[ReadyL(p)].index <= |states.Items(ReadyL(p))|
        then s.(states := states.Next(ReadyL(p)), current := states.lists[ReadyL(p)].Selected())
        else s
    }
  }
}
