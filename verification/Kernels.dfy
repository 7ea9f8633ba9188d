/**
 * tasks.c in its own form: one object whose methods update the scheduler's variables in place.
 * Each method is proved to take the state where the function of `Scheduler` takes it, and to keep
 * the invariant.
 */
module Kernels {
  import opened Rings
  import opened Stores
  import opened Clock
  import opened Deadlines
  import opened Timeline
  import opened TwoLists
  import opened Scheduler
  import opened SchedulerInvariant
  import opened SchedulerTicks
  import opened SchedulerResume
  import opened SchedulerRuns
  import opened SchedulerSleep
  import opened SchedulerBlocking
  import opened SchedulerSlices
  import opened SchedulerPreemption
  import opened SchedulerEffects
  import opened SchedulerAnswers

  /** `vListInsert` of the state item of `t` with value `wake` into the delayed list `l`. */
  function FiledUntil(s: States, l: ListId, value: map<Task, nat>, t: Task, wake: nat): States {
    s.InsertAt(l, InsertPlace(ValuesOf(s.Items(l), value), wake), t)
  }

  lemma AheadStays(s: Sched)
    requires Ahead(s.(suspended := 1))
    ensures Ahead(s)
  {
  }

  lemma SwitchIs(s: Sched)
    requires Inv(s)
    ensures s.suspended > 0 ==> s.SwitchContext() == s.(yieldPending := true)
    ensures s.suspended == 0 ==> var p := s.HighestReady(s.top);
      && ReadyL(p) in s.states.lists && s.states.Items(ReadyL(p)) != []
      && s.states.lists[ReadyL(p)].index <= |s.states.Items(ReadyL(p))|
      && s.SwitchContext() == s.(yieldPending := false, top := p, states := s.states.Next(ReadyL(p)),
                                 current := s.states.lists[ReadyL(p)].Selected())
    ensures Inv(s.SwitchContext())
  {
    hide Inv;
    if s.suspended == 0 { SwitchPicksHighest(s); } else { SwitchDeferred(s); }
  }

  lemma SwitchKeepsInv(s: Sched)
    requires Inv(s)
    ensures Inv(s.SwitchContext())
    ensures s.suspended > 0 ==> s.SwitchContext() == s.(yieldPending := true)
  {
    SwitchIs(s);
    hide Inv, Store.Items, Store.Next, Sched.HighestReady, Sched.SwitchContext, Ring.Selected;
  }

  lemma DelayIs(s: Sched, wait: nat, canBlock: bool)
    ensures var wake, u := Wrap(s.tick + wait, s.ticks), s.states.Remove(s.current);
      s.DelayCurrent(wait, canBlock) ==
      if wait == s.MaxDelay() && canBlock then s.(states := u.InsertEnd(SuspendedL, s.current)) else
        s.(value := s.value[s.current := wake], next := if s.tick <= wake < s.next then wake else s.next,
           states := FiledUntil(u, DelayedL(if wake < s.tick then !s.delayed else s.delayed), s.value, s.current, wake))
  {
    hide Wrap, InsertPlace, ValuesOf, Store.Remove, Store.InsertAt, Store.InsertEnd, Store.Items;
  }

  lemma WakeDueStep(s: Sched, p: nat)
    ensures s.Delayed() == [] ==> s.WakeDue() == s.(next := s.MaxDelay()) && !s.WakesAtLeast(p)
    ensures s.Delayed() != [] && s.tick < At(s.value, s.Delayed()[0]) ==>
      s.WakeDue() == s.(next := At(s.value, s.Delayed()[0])) && !s.WakesAtLeast(p)
    ensures s.Delayed() != [] && At(s.value, s.Delayed()[0]) <= s.tick && |s.WakeFirst().Delayed()| < |s.Delayed()| ==>
      s.WakeDue() == s.WakeFirst().WakeDue() &&
      (s.WakesAtLeast(p) <==> p <= s.Prio(s.Delayed()[0]) || s.WakeFirst().WakesAtLeast(p))
  {
    hide Sched.WakeFirst, Sched.Delayed;
  }

  lemma MovePendingStep(s: Sched)
    ensures s.Pending() == [] ==> s.MovePending() == s
    ensures s.Pending() != [] && |s.MoveOnePending().Pending()| < |s.Pending()| ==> s.MovePending() == s.MoveOnePending().MovePending()
  {
    hide Sched.MoveOnePending, Sched.Pending;
  }

  lemma {:induction false} WakeDueYield(s: Sched)
    ensures s.WakeDue().yieldPending == s.yieldPending
    decreases |s.Delayed()|
  {
    hide Store.Remove, Store.InsertEnd, Store.Items;
    if s.Delayed() != [] && At(s.value, s.Delayed()[0]) <= s.tick && |s.WakeFirst().Delayed()| < |s.Delayed()| {
      WakeDueYield(s.WakeFirst());
    }
  }

  lemma YieldKept(s: Sched)
    ensures s.Tick().yieldPending == s.yieldPending
  {
    WakeDueYield(s.Advance());
    AdvanceFields(s);
    hide Sched.Advance, Sched.WakeDue;
  }

  /** The answer of the tick handler, in terms of who is ready. */
  lemma TickAnswers(s: Sched)
    requires Inv(s)
    ensures s.suspended == 0 ==> var r, p := s.Tick(), s.Prio(s.current);
      r.prio == s.prio && r.current == s.current &&
      (s.TickSwitches() <==> s.yieldPending || Shares(r, p) || exists t :: Readied(s, r, t, p))
    ensures s.suspended > 0 ==> (s.TickSwitches() <==> s.yieldPending)
  {
    hide Inv, Sched.Advance, Sched.WakeDue, Sched.WakesAtLeast, Shares, Readied;
    if s.suspended == 0 {
      TickSwitchesExactly(s);
      TickIsOneTick(s);
    }
  }

  lemma DeleteFacts(s: Sched, t: Task)
    requires Inv(s) && Live(s, t) && t != s.idle
    ensures Inv(s.Delete(t)) && s.count > 0
  {
    hide Inv;
    DeleteKeeps(s, t);
    InvCore(s);
    CountPositive(s);
  }

  lemma ReapFacts(s: Sched)
    requires Inv(s) && !s.states.In(s.current, TerminationL)
    ensures Inv(s.Reap()) && !s.Reap().states.In(s.current, TerminationL) && s.count > 0
    ensures s.deleted == |s.states.Items(TerminationL)|
  {
    ReapKeeps(s);
    InvCore(s);
    CountPositive(s);
    TerminationCount(s);
    hide Inv, Store.Items, Ring.Remove;
  }

  lemma TerminationCount(s: Sched)
    requires Core(s)
    ensures s.deleted == |s.states.Items(TerminationL)|
  {
    hide Structured, ReadyOk, EventsOk, DelaysSorted, Store.Items;
  }

  lemma PriorityFacts(s: Sched, t: Task, p: nat)
    requires Inv(s) && Live(s, t)
    ensures Inv(s.PrioritySet(t, p)) && Inv(s.Inherit(t))
  {
    hide Inv;
    PrioritySetKeeps(s, t, p);
    InheritKeeps(s, t);
  }

  lemma DeleteIs(s: Sched, t: Task)
    requires s.count > 0
    ensures t == s.current ==>
      s.Delete(t) == s.(states := s.states.Remove(t).InsertEnd(TerminationL, t), events := s.events.Remove(t), deleted := s.deleted + 1)
    ensures t != s.current ==>
      s.Delete(t) == s.(states := s.states.Remove(t), events := s.events.Remove(t), count := s.count - 1).ResetNext()
  {
    hide Store.Remove, Store.InsertEnd, Sched.ResetNext;
  }

  lemma DisinheritIs(s: Sched, t: Task)
    requires s.states.In(t, ReadyL(s.Prio(t))) && At(s.held, t) > 0
    ensures var r := s.(held := s.held[t := At(s.held, t) - 1]);
      s.Disinherit(t) == if s.Prio(t) == At(s.base, t) || At(s.held, t) > 1 then r else
        r.(eventValue := s.eventValue[t := EventValue(At(s.base, t), s.priorities)], prio := s.prio[t := At(s.base, t)],
           states := s.states.Remove(t)).AddToReady(t)
  {
    hide Store.Remove, Sched.AddToReady, EventValue;
  }

  lemma DisinheritFacts(s: Sched, t: Task)
    requires Inv(s) && t == s.current && s.IsReady(t)
    ensures Inv(s.Disinherit(t)) && s.states.In(t, ReadyL(s.Prio(t)))
  {
    hide Inv;
    InvCore(s);
    TaskFacts(s, t);
    DisinheritKeeps(s, t);
  }

  lemma SuspendedFacts(s: Sched, wait: nat)
    requires Inv(s)
    ensures Inv(s.SuspendAll())
    ensures MayBlock(s, wait) ==> MayBlock(s.SuspendAll(), wait) && Inv(s.SuspendAll().DelayCurrent(wait, false))
  {
    SuspendAllKeeps(s);
    SuspendedMayBlock(s, wait);
    hide Inv, MayBlock;
    if MayBlock(s, wait) { DelayCurrentKeeps(s.SuspendAll(), wait, false); }
  }

  lemma SuspendedMayBlock(s: Sched, wait: nat)
    ensures MayBlock(s, wait) <==> MayBlock(s.SuspendAll(), wait)
  {
  }

  /** The tick and overflow counts are the unbounded time, wrapped. */
  lemma TickIsNow(s: Sched)
    requires Inv(s)
    ensures Wrap(ViewOf(s).now, s.ticks) == s.tick && Wraps(ViewOf(s).now, s.ticks) == s.overflows
  {
    InvCore(s);
    CoreTick(s);
    ViewNow(s);
    hide Inv, Core, ViewOf;
    WrapUnique(ViewOf(s).now, s.overflows, s.tick, s.ticks);
  }

  /** `vTaskDelayUntil` against the unbounded times, for any time that its variable can stand for. */
  lemma UntilFacts(s: Sched, previous: nat, increment: nat)
    requires Inv(s) && 0 < increment < s.ticks
    ensures var p, now := Wrap(previous, s.ticks), ViewOf(s).now;
      && s.tick < s.ticks
      && (ShouldDelay(s.tick, p, Wrap(p + increment, s.ticks)) <==> Minus(s.tick, p, s.ticks) < increment)
      && (Minus(s.tick, p, s.ticks) < increment ==>
            Minus(Wrap(p + increment, s.ticks), s.tick, s.ticks) == increment - Minus(s.tick, p, s.ticks))
      && (SleptTicks(s, p, increment) == (if now < previous + increment then previous + increment - now else 0) <==>
          previous <= now && (now < previous + s.ticks || increment <= Wrap(now - previous, s.ticks)))
  {
    hide *;
    TickIsNow(s);
    InvCore(s);
    CoreTick(s);
    SleptTicksIs(s, Wrap(previous, s.ticks), increment);
    SleepsForIs(s.tick, Wrap(previous, s.ticks), increment, s.ticks);
    DelayUntilIsExact(previous, ViewOf(s).now, increment, s.ticks);
  }

  lemma SleptTicksIs(s: Sched, p: nat, increment: nat)
    requires s.tick < s.ticks && p < s.ticks && 0 < increment < s.ticks
    ensures SleptTicks(s, p, increment) == SleepsFor(s.tick, p, increment, s.ticks)
    ensures ShouldDelay(s.tick, p, Wrap(p + increment, s.ticks)) ==>
      SleepsFor(s.tick, p, increment, s.ticks) == Minus(Wrap(p + increment, s.ticks), s.tick, s.ticks)
  {
    SleepsForIs(s.tick, p, increment, s.ticks);
    hide ShouldDelay, Wrap;
  }

  /** For how long a periodic task sleeps: the rest of its increment, or not at all. */
  function SleptTicks(s: Sched, previous: nat, increment: nat): nat {
    if s.tick < s.ticks && previous < s.ticks && Minus(s.tick, previous, s.ticks) < increment
    then increment - Minus(s.tick, previous, s.ticks) else 0
  }

  /** A check against the unbounded times, for any wait and however often the tick count has wrapped. */
  lemma CheckFacts(s: Sched, start: nat, wait: nat)
    requires Inv(s) && wait < s.ticks && start <= ViewOf(s).now
    ensures s.tick < s.ticks
    ensures var now, r := ViewOf(s).now, CheckForTimeOut(s.overflows, s.tick, Moment(start, s.ticks), wait, s.ticks);
      && (wait == s.ticks - 1 ==> r == Check(false, Moment(start, s.ticks), wait))
      && (wait < s.ticks - 1 ==>
            ((r.expired <==> start + wait <= now) <==>
             !(Wraps(start, s.ticks) + 2 <= s.overflows && s.tick < Wrap(start, s.ticks) && Wrap(now - start, s.ticks) < wait)))
      && (r.expired ==> start + wait <= now && r.entry == Moment(start, s.ticks) && r.left == wait)
      && (!r.expired && wait < s.ticks - 1 && now < start + wait ==> r.entry == Moment(now, s.ticks) && now + r.left == start + wait)
  {
    hide *;
    TickIsNow(s);
    InvCore(s);
    CoreTick(s);
    CheckIs(start, ViewOf(s).now, wait, s.ticks);
  }

  // ----- the state in which the scheduler starts -----

  function ListIds(priorities: nat): set<ListId> {
    (set p: nat | p < priorities :: ReadyL(p)) + {DelayedL(true), DelayedL(false), SuspendedL, TerminationL}
  }

  function Started(ticks: Modulus, priorities: nat, inUse: nat, idle: Task, objects: set<nat>): Sched {
    Sched(ticks, priorities, inUse, idle,
          Store(map l | l in ListIds(priorities) :: Ring([], 0), map[]).InsertEnd(ReadyL(0), idle),
          Store(map l | l in EventIds(objects) :: Ring([], 0), map[]),
          map[], map[idle := EventValue(0, priorities)], map[idle := 0], map[idle := 0], map[idle := 0],
          idle, true, 0, 0, ticks - 1, 0, 0, 0, false, 1, 0)
  }

  /** The invariant holds when the scheduler starts, so runs that keep it exist. */
  lemma StartedValid(ticks: Modulus, priorities: nat, inUse: nat, idle: Task, objects: set<nat>)
    requires 0 < priorities
    ensures Inv(Started(ticks, priorities, inUse, idle, objects))
  {
    var s := Started(ticks, priorities, inUse, idle, objects);
    FirstLists(priorities, idle);
    assert Valid(s.events) && PendingL in s.events.lists;
    assert EventsOk(s.events, s.states.container, s.suspended);
    hide Structured, Valid, Store.InsertEnd, EventsOk;
    MakeCore(s);
  }

  lemma FirstLists(priorities: nat, idle: Task)
    requires 0 < priorities
    ensures var s: States := Store(map l | l in ListIds(priorities) :: Ring([], 0), map[]).InsertEnd(ReadyL(0), idle);
      && Structured(s, priorities) && s.container == map[idle := ReadyL(0)]
      && s.Items(DelayedL(true)) == s.Items(DelayedL(false)) == s.Items(TerminationL) == []
  {
    var empty: States := Store(map l | l in ListIds(priorities) :: Ring([], 0), map[]);
    assert ReadyL(0) in empty.lists && empty.Items(ReadyL(0)) == [];
    InsertEndKeeps(empty, ReadyL(0), idle);
    hide Store.InsertEnd, Valid;
  }

  class Kernel {
    const ticks: Modulus
    const priorities: nat
    const inUse: nat
    const xIdleTaskHandle: Task
    var states: States
    var events: Events
    var value: map<Task, nat>
    var eventValue: map<Task, nat>
    var uxPriority: map<Task, nat>
    var uxBasePriority: map<Task, nat>
    var uxMutexesHeld: map<Task, nat>
    var pxCurrentTCB: Task
    var delayed: bool
    var xTickCount: nat
    var xNumOfOverflows: nat
    var xNextTaskUnblockTime: nat
    var uxTopReadyPriority: nat
    var uxSchedulerSuspended: nat
    var uxPendedTicks: nat
    var xYieldPending: bool
    var uxCurrentNumberOfTasks: nat
    var uxDeletedTasksWaitingCleanUp: nat

    /** `vTaskStartScheduler`, when the idle task is the only one; `objects` numbers the event lists. */
    constructor (ticks: Modulus, priorities: nat, inUse: nat, idle: Task, objects: set<nat>)
      requires 0 < priorities
      ensures State() == Started(ticks, priorities, inUse, idle, objects) && Valid()
    {
      this.ticks, this.priorities, this.inUse, xIdleTaskHandle := ticks, priorities, inUse, idle;
      states := Store(map l | l in ListIds(priorities) :: Ring([], 0), map[]).InsertEnd(ReadyL(0), idle);
      events := Store(map l | l in EventIds(objects) :: Ring([], 0), map[]);
      value, eventValue := map[], map[idle := EventValue(0, priorities)];
      uxPriority, uxBasePriority, uxMutexesHeld := map[idle := 0], map[idle := 0], map[idle := 0];
      pxCurrentTCB, delayed := idle, true;
      xTickCount, xNumOfOverflows, xNextTaskUnblockTime := 0, 0, ticks - 1;
      uxTopReadyPriority, uxSchedulerSuspended, uxPendedTicks := 0, 0, 0;
      xYieldPending, uxCurrentNumberOfTasks, uxDeletedTasksWaitingCleanUp := false, 1, 0;
      new;
      StartedValid(ticks, priorities, inUse, idle, objects);
    }

    function State(): Sched
      reads this
    {
      Sched(ticks, priorities, inUse, xIdleTaskHandle, states, events, value, eventValue, uxPriority, uxBasePriority,
            uxMutexesHeld, pxCurrentTCB, delayed, xTickCount, xNumOfOverflows, xNextTaskUnblockTime, uxTopReadyPriority,
            uxSchedulerSuspended, uxPendedTicks, xYieldPending, uxCurrentNumberOfTasks, uxDeletedTasksWaitingCleanUp)
    }

    ghost predicate Valid()
      reads this
    {
      Inv(State())
    }

    function Prio(t: Task): nat
      reads this
    {
      At(uxPriority, t)
    }

    // ----- private helpers -----

    /** `prvAddTaskToReadyList`. */
    method AddTaskToReadyList(t: Task)
      modifies this`uxTopReadyPriority, this`states
      ensures State() == old(State()).AddToReady(t)
      ensures uxTopReadyPriority == if old(uxTopReadyPriority) < Prio(t) then Prio(t) else old(uxTopReadyPriority)
    {
      if Prio(t) > uxTopReadyPriority {
        uxTopReadyPriority := Prio(t);
      }
      states := states.InsertEnd(ReadyL(Prio(t)), t);
    }

    method MoveToReadyList(t: Task)
      modifies this`uxTopReadyPriority, this`states
      ensures State() == old(State()).MoveToReady(t)
    {
      states := states.Remove(t);
      AddTaskToReadyList(t);
    }

    /** Take the event item of `t` out of its list, if it is in one. */
    method LeaveEventList(t: Task)
      modifies this`events
      ensures events == old(events).Remove(t)
    {
      if t in events.container {
        events := events.Remove(t);
      }
    }

    /** `prvResetNextTaskUnblockTime`. */
    method ResetNextTaskUnblockTime()
      modifies this`xNextTaskUnblockTime
      ensures State() == old(State()).ResetNext()
      ensures var list := states.Items(DelayedL(delayed));
        if list == [] then xNextTaskUnblockTime == ticks - 1
        else ByValue(list, value) ==>
          At(value, list[0]) == xNextTaskUnblockTime && forall i :: 0 <= i < |list| ==> xNextTaskUnblockTime <= At(value, list[i])
    {
      var list := states.Items(DelayedL(delayed));
      if list == [] {
        xNextTaskUnblockTime := ticks - 1;
      } else {
        xNextTaskUnblockTime := At(value, list[0]);
      }
    }

    /**
     * `prvAddCurrentTaskToDelayedList`.  `entry` is the state before the caller put the event item of
     * the task into a list, if it did.
     */
    method AddCurrentTaskToDelayedList(ticksToWait: nat, canBlockIndefinitely: bool, ghost entry: Sched)
      requires Inv(entry) && MayBlock(entry, ticksToWait) && State() == entry.(events := events, eventValue := eventValue)
      modifies this`states, this`value, this`xNextTaskUnblockTime
      ensures State() == old(State()).DelayCurrent(ticksToWait, canBlockIndefinitely)
      ensures Inv(State().(events := entry.events, eventValue := entry.eventValue))
      ensures var wake := Wrap(xTickCount + ticksToWait, ticks);
        xNextTaskUnblockTime == if !(ticksToWait == ticks - 1 && canBlockIndefinitely) && xTickCount <= wake < old(xNextTaskUnblockTime)
                                then wake else old(xNextTaskUnblockTime)
      ensures BlockedFor(entry, State(), ticksToWait, ticksToWait == ticks - 1 && canBlockIndefinitely)
    {
      hide Inv, MayBlock, BlockedFor, Wrap, FiledUntil, Store.In, Store.Remove, Store.InsertEnd, Sched.DelayCurrent, Sched.SleepCurrent;
      DelayIs(State(), ticksToWait, canBlockIndefinitely);
      BlockingFacts(entry, State(), ticksToWait, canBlockIndefinitely);
      states := states.Remove(pxCurrentTCB);
      if ticksToWait == ticks - 1 && canBlockIndefinitely {
        states := states.InsertEnd(SuspendedL, pxCurrentTCB);
      } else {
        FileUntil(Wrap(xTickCount + ticksToWait, ticks));
      }
    }

    /** File the running task, in no list now, in the delayed list of its wake time. */
    method FileUntil(timeToWake: nat)
      modifies this`states, this`value, this`xNextTaskUnblockTime
      ensures value == old(value)[pxCurrentTCB := timeToWake]
      ensures states == FiledUntil(old(states), DelayedL(if timeToWake < xTickCount then !delayed else delayed),
                                   old(value), pxCurrentTCB, timeToWake)
      ensures xNextTaskUnblockTime ==
        if xTickCount <= timeToWake < old(xNextTaskUnblockTime) then timeToWake else old(xNextTaskUnblockTime)
    {
      hide InsertPlace, ValuesOf, Store.InsertAt, Store.Items;
      if timeToWake < xTickCount {
        states := FiledUntil(states, DelayedL(!delayed), value, pxCurrentTCB, timeToWake);
      } else {
        states := FiledUntil(states, DelayedL(delayed), value, pxCurrentTCB, timeToWake);
        if timeToWake < xNextTaskUnblockTime {
          xNextTaskUnblockTime := timeToWake;
        }
      }
      value := value[pxCurrentTCB := timeToWake];
    }

    /** `vTaskDelay`: the scheduler is suspended around the filing, and ticks may be pended meanwhile. */
    method Delay(ticksToDelay: nat) returns (alreadyYielded: bool)
      requires Valid() && (ticksToDelay > 0 ==> uxSchedulerSuspended == 0 && MayBlock(State(), ticksToDelay))
      modifies this
      ensures State() == if ticksToDelay == 0 then old(State()) else old(State()).SuspendAll().DelayCurrent(ticksToDelay, false).ResumeAll()
      ensures Valid()
      ensures alreadyYielded <==> ticksToDelay > 0 && xYieldPending
    {
      hide Inv, MayBlock, Sched.DelayCurrent, Sched.ResumeAll, Sched.SuspendAll;
      alreadyYielded := false;
      if ticksToDelay > 0 {
        alreadyYielded := SleepFor(ticksToDelay, true);
      }
    }

    /** Suspend the scheduler, file the running task if it is to sleep, and resume. */
    method SleepFor(ticksToDelay: nat, shouldDelay: bool) returns (alreadyYielded: bool)
      requires Valid() && uxSchedulerSuspended == 0 && (shouldDelay ==> MayBlock(State(), ticksToDelay))
      modifies this
      ensures var s := old(State()).SuspendAll();
        State() == if shouldDelay then s.DelayCurrent(ticksToDelay, false).ResumeAll() else s.ResumeAll()
      ensures Valid() && (alreadyYielded <==> xYieldPending)
    {
      hide Inv, MayBlock, BlockedFor, Sched.DelayCurrent, Sched.ResumeAll;
      SuspendedFacts(State(), ticksToDelay);
      SuspendAll();
      if shouldDelay {
        AddCurrentTaskToDelayedList(ticksToDelay, false, State());
      }
      alreadyYielded := ResumeAll();
    }

    /**
     * `vTaskDelayUntil`.  `previous` is any unbounded time that the caller's variable can stand for.
     * The task sleeps for the rest of its increment, which is until previous + increment or not at
     * all exactly when `previous` is not ahead and less than one range back, or as good as that.
     */
    method DelayUntil(previousWakeTime: nat, timeIncrement: nat, ghost previous: nat)
      returns (nextWakeTime: nat, alreadyYielded: bool)
      requires Valid() && uxSchedulerSuspended == 0 && 0 < timeIncrement < ticks && previousWakeTime == Wrap(previous, ticks)
      requires var sleep := SleptTicks(State(), previousWakeTime, timeIncrement); sleep > 0 ==> MayBlock(State(), sleep)
      modifies this
      ensures nextWakeTime == Wrap(previous + timeIncrement, ticks)
      ensures var s, sleep := old(State()).SuspendAll(), old(SleptTicks(State(), previousWakeTime, timeIncrement));
        State() == if sleep > 0 then s.DelayCurrent(sleep, false).ResumeAll() else s.ResumeAll()
      ensures var now, target := old(ViewOf(State()).now), previous + timeIncrement;
        old(SleptTicks(State(), previousWakeTime, timeIncrement)) == (if now < target then target - now else 0) <==>
        previous <= now && (now < previous + ticks || timeIncrement <= Wrap(now - previous, ticks))
      ensures Valid() && (alreadyYielded <==> xYieldPending)
    {
      hide Inv, MayBlock, ShouldDelay, Wrap, Minus, ViewOf, Sched.DelayCurrent, Sched.ResumeAll, Sched.SuspendAll;
      var constTickCount := xTickCount;
      var timeToWake := Wrap(previousWakeTime + timeIncrement, ticks);
      UntilFacts(State(), previous, timeIncrement);
      WrapPlus(previous, timeIncrement, ticks);
      var shouldDelay := ShouldDelay(constTickCount, previousWakeTime, timeToWake);
      nextWakeTime := timeToWake;
      alreadyYielded := SleepFor(Minus(timeToWake, constTickCount, ticks), shouldDelay);
    }

    /** `vTaskSetTimeOutState`. */
    method SetTimeOutState() returns (timeOut: TimeOut)
      requires Valid()
      ensures timeOut == Moment(ViewOf(State()).now, ticks)
    {
      TickIsNow(State());
      timeOut := TimeOut(xNumOfOverflows, xTickCount);
    }

    /** `xTaskCheckForTimeOut`, for a timeout set or checked at time `start`. */
    method CheckTimeOut(timeOut: TimeOut, ticksToWait: nat, ghost start: nat) returns (expired: bool, entry: TimeOut, left: nat)
      requires Valid() && ticksToWait < ticks && start <= ViewOf(State()).now && timeOut == Moment(start, ticks)
      ensures xTickCount < ticks && Check(expired, entry, left) == CheckForTimeOut(xNumOfOverflows, xTickCount, timeOut, ticksToWait, ticks)
      ensures ticksToWait == ticks - 1 ==> !expired && entry == timeOut && left == ticksToWait
      ensures ticksToWait < ticks - 1 ==>
        ((expired <==> start + ticksToWait <= ViewOf(State()).now) <==>
         !(Wraps(start, ticks) + 2 <= xNumOfOverflows && xTickCount < Wrap(start, ticks) && Wrap(ViewOf(State()).now - start, ticks) < ticksToWait))
      ensures expired ==> start + ticksToWait <= ViewOf(State()).now && entry == timeOut && left == ticksToWait
      ensures !expired && ticksToWait < ticks - 1 && ViewOf(State()).now < start + ticksToWait ==>
        entry == Moment(ViewOf(State()).now, ticks) && ViewOf(State()).now + left == start + ticksToWait
    {
      hide Inv, Wrap, Wraps, ViewOf;
      CheckFacts(State(), start, ticksToWait);
      var constTickCount := xTickCount;
      if ticksToWait == ticks - 1 {
        return false, timeOut, ticksToWait;
      } else if xNumOfOverflows != timeOut.overflows && constTickCount >= timeOut.entered {
        return true, timeOut, ticksToWait;
      } else if Minus(constTickCount, timeOut.entered, ticks) < ticksToWait {
        return false, TimeOut(xNumOfOverflows, constTickCount), ticksToWait - Minus(constTickCount, timeOut.entered, ticks);
      } else {
        return true, timeOut, ticksToWait;
      }
    }

    // ----- the tick -----

    /** Move the head of the current delayed list to its ready list, out of any event list. */
    method UnblockHead() returns (t: Task)
      requires Core(State()) && State().Delayed() != []
      modifies this`states, this`events, this`uxTopReadyPriority
      ensures State() == old(State()).WakeFirst() && t == old(State()).Delayed()[0]
      ensures Core(State()) && |State().Delayed()| < old(|State().Delayed()|)
    {
      hide Core, Store.Remove, Store.InsertEnd, Store.Items;
      WakeFirstKeeps(State());
      t := states.Items(DelayedL(delayed))[0];
      LeaveEventList(t);
      MoveToReadyList(t);
    }

    /** `xTaskIncrementTick`; the result asks for a context switch. */
    method IncrementTick() returns (switchRequired: bool)
      requires Valid()
      modifies this
      ensures State() == old(State()).Tick() && (switchRequired <==> old(State()).TickSwitches())
      ensures Valid()
      ensures old(uxSchedulerSuspended) == 0 ==>
        (switchRequired <==> old(xYieldPending) || Shares(State(), Prio(pxCurrentTCB)) ||
                             exists t :: Readied(old(State()), State(), t, Prio(pxCurrentTCB)))
      ensures old(uxSchedulerSuspended) > 0 ==> (switchRequired <==> old(xYieldPending))
    {
      hide Inv, Core, Ahead, ViewOf, Sched.Advance, Sched.WakeDue, Sched.WakesAtLeast, Store.Items;
      ghost var s := State();
      TickKeeps(s);
      TickAnswers(s);
      switchRequired := false;
      if uxSchedulerSuspended == 0 {
        AdvanceTick();
        if xTickCount >= xNextTaskUnblockTime {
          switchRequired := UnblockDue();
        }
        if |states.Items(ReadyL(Prio(pxCurrentTCB)))| > 1 {
          switchRequired := true;
        }
      } else {
        uxPendedTicks := uxPendedTicks + 1;
      }
      if xYieldPending {
        switchRequired := true;
      }
    }

    /** The first part of `xTaskIncrementTick`, with `taskSWITCH_DELAYED_LISTS`. */
    method AdvanceTick()
      requires Valid()
      modifies this`xTickCount, this`delayed, this`xNumOfOverflows, this`xNextTaskUnblockTime
      ensures State() == old(State()).Advance()
      ensures Core(State()) && ViewOf(State()) == old(ViewOf(State()).(now := ViewOf(State()).now + 1))
      ensures xTickCount < xNextTaskUnblockTime ==> Ahead(State())
    {
      hide Inv, Core, Ahead, ViewOf, Sched.Advance;
      AdvanceCounts(State());
      CountTick();
    }

    method CountTick()
      modifies this`xTickCount, this`delayed, this`xNumOfOverflows, this`xNextTaskUnblockTime
      ensures State() == old(State()).Advance()
    {
      hide Store.Items, ByValue;
      xTickCount := if xTickCount + 1 < ticks then xTickCount + 1 else 0;
      if xTickCount == 0 {
        delayed := !delayed;
        xNumOfOverflows := xNumOfOverflows + 1;
        ResetNextTaskUnblockTime();
      }
    }

    /** The `for(;;)` of `xTaskIncrementTick`. */
    method UnblockDue() returns (switchRequired: bool)
      requires Core(State())
      modifies this`states, this`events, this`uxTopReadyPriority, this`xNextTaskUnblockTime
      ensures State() == old(State()).WakeDue() && (switchRequired <==> old(State()).WakesAtLeast(old(Prio(pxCurrentTCB))))
    {
      hide Core, Sched.WakeDue, Sched.WakesAtLeast, Sched.WakeFirst, Store.Items, At;
      ghost var s := State();
      switchRequired := false;
      while true
        invariant Core(State()) && s.WakeDue() == State().WakeDue() && uxPriority == s.prio && pxCurrentTCB == s.current
        invariant s.WakesAtLeast(s.Prio(s.current)) <==> switchRequired || State().WakesAtLeast(s.Prio(s.current))
        decreases |State().Delayed()|
      {
        WakeDueStep(State(), s.Prio(s.current));
        if states.Items(DelayedL(delayed)) == [] {
          xNextTaskUnblockTime := ticks - 1;
          break;
        }
        if xTickCount < At(value, states.Items(DelayedL(delayed))[0]) {
          xNextTaskUnblockTime := At(value, states.Items(DelayedL(delayed))[0]);
          break;
        }
        var t := UnblockHead();
        if Prio(t) >= Prio(pxCurrentTCB) {
          switchRequired := true;
        }
      }
    }

    // ----- suspending the scheduler -----

    /** `vTaskSuspendAll`. */
    method SuspendAll()
      requires Valid()
      modifies this`uxSchedulerSuspended
      ensures State() == old(State()).SuspendAll()
      ensures Valid()
    {
      hide Inv;
      SuspendAllKeeps(State());
      uxSchedulerSuspended := uxSchedulerSuspended + 1;
    }

    /** The first loop of `xTaskResumeAll`. */
    method MovePendingTasks() returns (moved: bool)
      requires Core(State().(suspended := 1)) && Ahead(State())
      modifies this`states, this`events, this`uxTopReadyPriority, this`xYieldPending
      ensures State() == old(State()).MovePending() && (moved <==> old(State().Pending()) != [])
    {
      hide Core, Ahead, Sched.MovePending, Sched.MoveOnePending, Store.Items;
      ghost var s := State();
      moved := false;
      while events.Items(PendingL) != []
        invariant Core(State().(suspended := 1)) && Ahead(State()) && s.MovePending() == State().MovePending()
        invariant moved <==> s.Pending() != State().Pending() || (moved && s.Pending() != [])
        decreases |State().Pending()|
      {
        MoveOnePendingKeeps(State());
        MovePendingStep(State());
        MovePendingHead();
        moved := true;
      }
      MovePendingStep(State());
    }

    method MovePendingHead()
      requires State().Pending() != []
      modifies this`states, this`events, this`uxTopReadyPriority, this`xYieldPending
      ensures State() == old(State()).MoveOnePending()
    {
      hide Store.Items, Store.Remove, Store.InsertEnd;
      var t := events.Items(PendingL)[0];
      events := events.Remove(t);
      MoveToReadyList(t);
      if Prio(t) >= Prio(pxCurrentTCB) {
        xYieldPending := true;
      }
    }

    /** One tick that was held back. */
    method ProcessTick()
      requires Valid() && uxSchedulerSuspended == 0
      modifies this
      ensures Valid() && uxSchedulerSuspended == 0
      ensures var s := old(State()); State() == WithFlags(s.Tick(), s.yieldPending || s.TickSwitches(), s.Tick().pended)
    {
      hide Inv, Sched.Tick, Sched.TickSwitches;
      ghost var s := State();
      TickIsOneTick(s);
      FlagFacts(s.Tick(), s.yieldPending || s.TickSwitches(), s.Tick().pended, false, 0);
      YieldKept(s);
      var switchRequired := IncrementTick();
      if switchRequired {
        xYieldPending := true;
      }
    }

    /** The second loop of `xTaskResumeAll`: the ticks that were held back. */
    method ProcessPendedTicks()
      requires Valid() && uxSchedulerSuspended == 0
      modifies this
      ensures Valid() && uxSchedulerSuspended == 0
      ensures State() == WithFlags(old(State().RunPended(State().pended)), xYieldPending, 0)
      ensures xYieldPending == old(State().RunPended(State().pended)).yieldPending
    {
      hide Inv, Sched.RunPended;
      ghost var s := State();
      var pendedCounts := uxPendedTicks;
      RunPendedStep(s, 0);
      if pendedCounts > 0 {
        while pendedCounts > 0
          invariant Valid() && uxSchedulerSuspended == 0
          invariant s.RunPended(s.pended) == State().RunPended(pendedCounts)
        {
          RunPendedStep(State(), pendedCounts);
          ProcessTick();
          pendedCounts := pendedCounts - 1;
        }
        RunPendedStep(State(), 0);
        Clear();
      }
    }

    method Clear()
      requires Valid() && uxSchedulerSuspended == 0
      modifies this`uxPendedTicks
      ensures State() == WithFlags(old(State()), xYieldPending, 0)
      ensures Valid()
    {
      hide Inv;
      FlagFacts(State(), xYieldPending, 0, false, 0);
      uxPendedTicks := 0;
    }

    /** `xTaskResumeAll`; the result says that a context switch was asked for. */
    method ResumeAll() returns (alreadyYielded: bool)
      requires Valid()
      modifies this
      ensures State() == old(State()).ResumeAll()
      ensures Valid()
      ensures alreadyYielded <==> old(uxSchedulerSuspended) == 1 && xYieldPending
      ensures old(uxSchedulerSuspended) == 1 ==> Resumed(old(State()), State())
    {
      hide Inv, Resumed, Sched.ResumeAll;
      ghost var s := State();
      InnerResume(s);
      alreadyYielded := false;
      if uxSchedulerSuspended == 0 {
        return;
      }
      uxSchedulerSuspended := uxSchedulerSuspended - 1;
      if uxSchedulerSuspended == 0 && uxCurrentNumberOfTasks > 0 {
        assert State().(suspended := 1) == s;
        ResumeTasks();
        alreadyYielded := xYieldPending;
      }
    }

    /** What `xTaskResumeAll` does once the scheduler runs again. */
    method ResumeTasks()
      requires Inv(State().(suspended := 1)) && uxSchedulerSuspended == 0
      modifies this
      ensures State() == old(State().(suspended := 1)).ResumeAll() && Valid()
      ensures Resumed(old(State().(suspended := 1)), State())
    {
      hide Inv, AfterPending, Resumed, Sched.RunPended, Sched.ResumeAll;
      ResumeIsPended(State().(suspended := 1));
      ResumeReadies(State().(suspended := 1));
      ReadyPending();
      ProcessPendedTicks();
    }

    method ReadyPending()
      requires Inv(State().(suspended := 1)) && uxSchedulerSuspended == 0
      modifies this`states, this`events, this`uxTopReadyPriority, this`xYieldPending, this`xNextTaskUnblockTime
      ensures Valid() && uxSchedulerSuspended == 0
      ensures State() == AfterPending(old(State()).(suspended := 1))
    {
      hide Inv, Core, Ahead, Sched.MovePending, Sched.ResetNext, Sched.Pending;
      ghost var s := State();
      ghost var m := if s.Pending() == [] then s else s.MovePending().ResetNext();
      OutermostMove(s.(suspended := 1), s, m);
      InvCore(s.(suspended := 1));
      AheadStays(s);
      MovePendingStep(s);
      var moved := MovePendingTasks();
      if moved {
        ResetNextTaskUnblockTime();
      }
    }

    // ----- choosing the task to run -----

    /** `vTaskSwitchContext`. */
    method SwitchContext()
      requires Valid()
      modifies this
      ensures State() == old(State()).SwitchContext()
      ensures Valid()
      ensures if uxSchedulerSuspended > 0 then State() == old(State()).(yieldPending := true)
              else Foremost(State(), pxCurrentTCB) && !xYieldPending
    {
      hide Inv, Core, Foremost, Store.Items, Store.Next, Sched.HighestReady, Sched.SwitchContext, Ring.Selected;
      SwitchKeepsInv(State());
      SwitchRunsForemost(State());
      ghost var s := State();
      if uxSchedulerSuspended > 0 {
        xYieldPending := true;
      } else {
        SelectHighestPriorityTask();
        xYieldPending := false;
        assert State() == s.SwitchContext();
      }
    }

    /** `taskSELECT_HIGHEST_PRIORITY_TASK`. */
    method SelectHighestPriorityTask()
      requires Valid() && uxSchedulerSuspended == 0
      modifies this`states, this`pxCurrentTCB, this`uxTopReadyPriority
      ensures var s, p := old(State()), old(State().HighestReady(uxTopReadyPriority));
        && ReadyL(p) in s.states.lists && s.states.Items(ReadyL(p)) != []
        && s.states.lists[ReadyL(p)].index <= |s.states.Items(ReadyL(p))|
        && uxTopReadyPriority == p && states == s.states.Next(ReadyL(p)) && pxCurrentTCB == s.states.lists[ReadyL(p)].Selected()
      ensures State().(yieldPending := false) == old(State()).SwitchContext()
    {
      hide Inv, Core, Store.Items, Store.Next, Sched.HighestReady, Sched.SwitchContext, Ring.Selected;
      SwitchIs(State());
      InvCore(State());
      var topPriority := FindHighest();
      SelectNext(topPriority);
      uxTopReadyPriority := topPriority;
    }

    /** The search for the highest non-empty ready list, which cannot run below priority 0. */
    method FindHighest() returns (topPriority: nat)
      requires Core(State())
      ensures topPriority == State().HighestReady(uxTopReadyPriority)
    {
      hide Core, Store.Items;
      HighestReadyIsHighest(State());
      topPriority := uxTopReadyPriority;
      while states.Items(ReadyL(topPriority)) == []
        invariant State().HighestReady(uxTopReadyPriority) == State().HighestReady(topPriority)
        decreases topPriority
      {
        topPriority := topPriority - 1;
      }
    }

    /** `listGET_OWNER_OF_NEXT_ENTRY` on the ready list of priority `p`. */
    method SelectNext(p: nat)
      requires ReadyL(p) in states.lists && states.Items(ReadyL(p)) != []
      requires states.lists[ReadyL(p)].index <= |states.Items(ReadyL(p))|
      modifies this`states, this`pxCurrentTCB
      ensures states == old(states).Next(ReadyL(p))
      ensures pxCurrentTCB == old(states.lists[ReadyL(p)].Selected())
    {
      states := states.Next(ReadyL(p));
      pxCurrentTCB := states.lists[ReadyL(p)].items[states.lists[ReadyL(p)].index - 1];
    }

    // ----- task management -----

    /** Priorities that are too large become the largest one. */
    method LegalPriority(p: nat) returns (q: nat)
      ensures q == Clamp(p, priorities)
      ensures priorities > 0 ==> q < priorities && q <= p && (q == p || q == priorities - 1)
    {
      q := p;
      if q >= priorities {
        q := if priorities > 0 then priorities - 1 else 0;
      }
    }

    /** `prvInitialiseNewTask`. */
    method InitialiseNewTask(t: Task, priority: nat)
      modifies this`uxPriority, this`uxBasePriority, this`uxMutexesHeld, this`eventValue
      ensures var s, q := old(State()), Clamp(priority, priorities);
        State() == s.(prio := s.prio[t := q], base := s.base[t := q], held := s.held[t := 0],
                      eventValue := s.eventValue[t := EventValue(q, priorities)])
    {
      var p := LegalPriority(priority);
      uxPriority, uxBasePriority, uxMutexesHeld := uxPriority[t := p], uxBasePriority[t := p], uxMutexesHeld[t := 0];
      eventValue := eventValue[t := EventValue(p, priorities)];
    }

    /** `xTaskCreate` while the scheduler runs, ending with `prvAddNewTaskToReadyList`. */
    method CreateTask(t: Task, priority: nat) returns (switchNow: bool)
      requires Valid() && t !in states.container
      modifies this
      ensures State() == old(State()).Create(t, priority)
      ensures Valid()
      ensures switchNow <==> Prio(pxCurrentTCB) < Prio(t)
    {
      hide Inv, Sched.AddToReady, Clamp, EventValue;
      CreateKeeps(State(), t, priority);
      InitialiseNewTask(t, priority);
      uxCurrentNumberOfTasks := uxCurrentNumberOfTasks + 1;
      AddTaskToReadyList(t);
      switchNow := Prio(pxCurrentTCB) < Prio(t);
    }

    /** `vTaskDelete`; the result says that the running task deleted itself and must yield. */
    method DeleteTask(t: Task) returns (switchNow: bool)
      requires Valid() && Live(State(), t) && t != xIdleTaskHandle
      modifies this
      ensures State() == old(State()).Delete(t)
      ensures Valid()
      ensures switchNow <==> t == pxCurrentTCB
    {
      hide Inv, Live, Store.Remove, Store.InsertEnd, Sched.ResetNext, Sched.Delete;
      DeleteFacts(State(), t);
      DeleteIs(State(), t);
      switchNow := t == pxCurrentTCB;
      UnlinkTask(t);
      if switchNow {
        AwaitTermination(t);
      } else {
        ForgetTask();
      }
    }

    method ForgetTask()
      requires uxCurrentNumberOfTasks > 0
      modifies this`uxCurrentNumberOfTasks, this`xNextTaskUnblockTime
      ensures var s := old(State()); State() == s.(count := s.count - 1).ResetNext()
    {
      hide Sched.ResetNext;
      uxCurrentNumberOfTasks := uxCurrentNumberOfTasks - 1;
      ResetNextTaskUnblockTime();
    }

    method UnlinkTask(t: Task)
      modifies this`states, this`events
      ensures var s := old(State()); State() == s.(states := s.states.Remove(t), events := s.events.Remove(t))
    {
      hide Store.Remove;
      states := states.Remove(t);
      LeaveEventList(t);
    }

    method AwaitTermination(t: Task)
      modifies this`states, this`uxDeletedTasksWaitingCleanUp
      ensures var s := old(State()); State() == s.(states := s.states.InsertEnd(TerminationL, t), deleted := s.deleted + 1)
    {
      hide Store.InsertEnd;
      states := states.InsertEnd(TerminationL, t);
      uxDeletedTasksWaitingCleanUp := uxDeletedTasksWaitingCleanUp + 1;
    }

    /** `prvCheckTasksWaitingTermination`, run by the idle task. */
    method CheckTasksWaitingTermination()
      requires Valid() && !State().states.In(pxCurrentTCB, TerminationL)
      modifies this`states, this`uxCurrentNumberOfTasks, this`uxDeletedTasksWaitingCleanUp
      ensures Valid() && uxDeletedTasksWaitingCleanUp == 0
      ensures State() == ReapTimes(old(State()), old(uxDeletedTasksWaitingCleanUp))
      ensures forall t, l :: states.In(t, l) <==> old(states).In(t, l) && l != TerminationL
    {
      hide Inv, Store.Remove, Store.Items, Store.In;
      ghost var s := State();
      ReapsAll(s);
      while uxDeletedTasksWaitingCleanUp > 0
        invariant Valid() && !states.In(pxCurrentTCB, TerminationL)
        invariant ReapTimes(State(), uxDeletedTasksWaitingCleanUp) == ReapTimes(s, s.deleted)
      {
        ReapFacts(State());
        var list := states.Items(TerminationL);
        if list != [] {
          states := states.Remove(list[0]);
          uxCurrentNumberOfTasks := uxCurrentNumberOfTasks - 1;
          uxDeletedTasksWaitingCleanUp := uxDeletedTasksWaitingCleanUp - 1;
        }
      }
    }

    /** `vTaskSuspend`. */
    method SuspendTask(t: Task)
      requires Valid() && Live(State(), t) && t != xIdleTaskHandle
      modifies this
      ensures State() == old(State()).Suspend(t)
      ensures Valid()
    {
      hide Inv, Store.Remove, Store.InsertEnd, Store.Items;
      SuspendKeeps(State(), t);
      states := states.Remove(t);
      LeaveEventList(t);
      states := states.InsertEnd(SuspendedL, t);
      ResetNextTaskUnblockTime();
    }

    /** `vTaskResume`; the result asks for a yield. */
    method ResumeTask(t: Task) returns (switchNow: bool)
      requires Valid()
      modifies this
      ensures State() == old(State()).Resume(t)
      ensures Valid()
      ensures switchNow <==> t != pxCurrentTCB && old(Dormant(State(), t)) && Prio(pxCurrentTCB) <= Prio(t)
      ensures forall u :: State().IsReady(u) <==> old(State()).IsReady(u) || (u == t && t != pxCurrentTCB && old(Dormant(State(), t)))
      ensures pxCurrentTCB == old(pxCurrentTCB) && OthersStay(old(State()), State(), t)
    {
      hide Inv, Dormant, OthersStay, Store.In, Sched.MoveToReady, Sched.IsReady;
      ResumeKeeps(State(), t);
      ResumeExactly(State(), t);
      DormantIs(State(), t);
      switchNow := false;
      if t != pxCurrentTCB && State().IsTaskSuspended(t) {
        MoveToReadyList(t);
        switchNow := Prio(t) >= Prio(pxCurrentTCB);
      }
    }

    /** `xTaskResumeFromISR`; the result asks for a yield. */
    method ResumeTaskFromISR(t: Task) returns (switchNow: bool)
      requires Valid()
      modifies this
      ensures State() == old(State()).ResumeFromISR(t)
      ensures Valid()
      ensures var wakes := old(Dormant(State(), t));
        && (switchNow <==> wakes && uxSchedulerSuspended == 0 && Prio(pxCurrentTCB) <= Prio(t))
        && (forall u :: State().IsReady(u) <==> old(State()).IsReady(u) || (u == t && wakes && uxSchedulerSuspended == 0))
        && (forall u, e :: events.In(u, e) <==> old(events).In(u, e) || (u == t && e == PendingL && wakes && uxSchedulerSuspended > 0))
    {
      hide Inv, Dormant, OthersStay, Store.In, Store.InsertEnd, Sched.MoveToReady, Sched.IsReady;
      ResumeFromISRKeeps(State(), t);
      ResumeFromISRExactly(State(), t);
      DormantIs(State(), t);
      switchNow := false;
      if State().IsTaskSuspended(t) {
        if uxSchedulerSuspended == 0 {
          switchNow := Prio(t) >= Prio(pxCurrentTCB);
          MoveToReadyList(t);
        } else {
          events := events.InsertEnd(PendingL, t);
        }
      }
    }

    // ----- priorities -----

    /** Give `t` priority `p`; a task in its ready list is refiled. */
    method ChangePriority(t: Task, p: nat)
      modifies this`uxPriority, this`states, this`uxTopReadyPriority
      ensures State() == old(State()).Reprioritise(t, p)
    {
      hide Sched.MoveToReady, Store.In;
      var usedOnEntry := Prio(t);
      uxPriority := uxPriority[t := p];
      if states.In(t, ReadyL(usedOnEntry)) {
        MoveToReadyList(t);
      }
    }

    /** Set the event item's value for priority `p`, unless an event group is using the value. */
    method SetEventItemValue(t: Task, p: nat)
      modifies this`eventValue
      ensures State() == old(State()).SetEventValue(t, p)
    {
      if At(eventValue, t) < inUse {
        eventValue := eventValue[t := EventValue(p, priorities)];
      }
    }

    /** `vTaskPrioritySet`; the result asks for a yield. */
    method PrioritySet(t: Task, newPriority: nat) returns (switchNow: bool)
      requires Valid() && Live(State(), t)
      modifies this
      ensures State() == old(State()).PrioritySet(t, newPriority)
      ensures Valid()
      ensures var base, q := old(At(uxBasePriority, t)), Clamp(newPriority, priorities);
        switchNow <==> (base < q && t != pxCurrentTCB && old(Prio(pxCurrentTCB)) <= q) || (q < base && t == pxCurrentTCB)
      ensures switchNow <==> PrioritySetYields(old(State()), t, newPriority)
    {
      hide Inv, Live, Sched.Reprioritise, Sched.SetEventValue, Clamp, Sched.PrioritySet;
      PriorityFacts(State(), t, newPriority);
      PrioritySetIs(State(), t, newPriority);
      var p := LegalPriority(newPriority);
      var currentBase := At(uxBasePriority, t);
      switchNow := false;
      if currentBase != p {
        if p > currentBase {
          if t != pxCurrentTCB && p >= Prio(pxCurrentTCB) {
            switchNow := true;
          }
        } else if t == pxCurrentTCB {
          switchNow := true;
        }
        SetBasePriority(t, p);
      }
    }

    /** The base priority is set whatever; the priority in use only when it is not inherited. */
    method SetBasePriority(t: Task, p: nat)
      modifies this`uxBasePriority, this`uxPriority, this`eventValue, this`states, this`uxTopReadyPriority
      ensures var s := old(State());
        State() == s.(base := s.base[t := p]).SetEventValue(t, p).Reprioritise(t, if At(s.base, t) == s.Prio(t) then p else s.Prio(t))
    {
      hide Sched.Reprioritise, Sched.SetEventValue;
      var used := if At(uxBasePriority, t) == Prio(t) then p else Prio(t);
      uxBasePriority := uxBasePriority[t := p];
      SetEventItemValue(t, p);
      ChangePriority(t, used);
    }

    /** `vTaskPriorityInherit`. */
    method PriorityInherit(t: Task)
      requires Valid() && Live(State(), t)
      modifies this
      ensures State() == old(State()).Inherit(t)
      ensures Valid()
    {
      hide Inv, Live, Sched.Reprioritise, Sched.SetEventValue;
      PriorityFacts(State(), t, 0);
      if Prio(t) < Prio(pxCurrentTCB) {
        SetEventItemValue(t, Prio(pxCurrentTCB));
        ChangePriority(t, Prio(pxCurrentTCB));
      }
    }

    /** `xTaskPriorityDisinherit`; the result asks for a yield. */
    method PriorityDisinherit(t: Task) returns (switchNow: bool)
      requires Valid() && t == pxCurrentTCB && State().IsReady(t) && At(uxMutexesHeld, t) > 0
      modifies this
      ensures State() == old(State()).Disinherit(t)
      ensures Valid()
      ensures switchNow <==> old(Prio(t)) != At(uxBasePriority, t) && At(uxMutexesHeld, t) == 0
    {
      hide Inv, Store.Remove, Store.In, Sched.AddToReady, EventValue, Sched.Disinherit;
      DisinheritFacts(State(), t);
      DisinheritIs(State(), t);
      uxMutexesHeld := uxMutexesHeld[t := At(uxMutexesHeld, t) - 1];
      switchNow := false;
      if Prio(t) != At(uxBasePriority, t) && At(uxMutexesHeld, t) == 0 {
        DropInheritedPriority(t);
        switchNow := true;
      }
    }

    method DropInheritedPriority(t: Task)
      modifies this`states, this`uxPriority, this`eventValue, this`uxTopReadyPriority
      ensures var s, p := old(State()), At(uxBasePriority, t);
        State() == s.(eventValue := s.eventValue[t := EventValue(p, priorities)], prio := s.prio[t := p],
                      states := s.states.Remove(t)).AddToReady(t)
    {
      hide Store.Remove, Sched.AddToReady, EventValue;
      states := states.Remove(t);
      uxPriority := uxPriority[t := At(uxBasePriority, t)];
      eventValue := eventValue[t := EventValue(Prio(t), priorities)];
      AddTaskToReadyList(t);
    }

    /** `pvTaskIncrementMutexHeldCount`, which returns the new holder. */
    method IncrementMutexHeldCount() returns (holder: Task)
      requires Valid()
      modifies this`uxMutexesHeld
      ensures State() == old(State()).IncrementHeld() && holder == pxCurrentTCB
      ensures At(uxMutexesHeld, holder) == old(At(uxMutexesHeld, pxCurrentTCB)) + 1
      ensures Valid()
    {
      hide Inv;
      AsideInv(State(), State().IncrementHeld());
      uxMutexesHeld := uxMutexesHeld[pxCurrentTCB := At(uxMutexesHeld, pxCurrentTCB) + 1];
      holder := pxCurrentTCB;
    }

    // ----- events -----

    /** `uxTaskResetEventItemValue`. */
    method ResetEventItemValue() returns (itemValue: nat)
      requires Valid()
      modifies this`eventValue
      ensures State() == old(State()).ResetEventItemValue() && itemValue == old(At(eventValue, pxCurrentTCB))
      ensures Valid()
    {
      hide Inv, EventValue;
      AsideInv(State(), State().ResetEventItemValue());
      itemValue := At(eventValue, pxCurrentTCB);
      eventValue := eventValue[pxCurrentTCB := EventValue(Prio(pxCurrentTCB), priorities)];
    }

    /** `vTaskPlaceOnEventList`. */
    method PlaceOnEventList(list: nat, ticksToWait: nat)
      requires Valid() && MayBlock(State(), ticksToWait) && EventL(list) in events.lists
      modifies this
      ensures State() == old(State()).PlaceOnEventList(list, ticksToWait)
      ensures Valid() && BlockedFor(old(State()), State(), ticksToWait, ticksToWait == ticks - 1)
    {
      hide Inv, MayBlock, BlockedFor, InsertPlace, ValuesOf, Sched.DelayCurrent, Store.InsertAt, Store.Items;
      ghost var s := State();
      PlaceOnEventListKeeps(s, list, ticksToWait);
      var place := InsertPlace(ValuesOf(events.Items(EventL(list)), eventValue), At(eventValue, pxCurrentTCB));
      events := events.InsertAt(EventL(list), place, pxCurrentTCB);
      AddCurrentTaskToDelayedList(ticksToWait, true, s);
    }

    /** `vTaskPlaceOnUnorderedEventList`. */
    method PlaceOnUnorderedEventList(list: nat, itemValue: nat, ticksToWait: nat)
      requires Valid() && MayBlock(State(), ticksToWait) && EventL(list) in events.lists
      modifies this
      ensures State() == old(State()).PlaceOnUnorderedEventList(list, itemValue, ticksToWait)
      ensures Valid() && BlockedFor(old(State()), State(), ticksToWait, ticksToWait == ticks - 1)
    {
      hide Inv, MayBlock, BlockedFor, Sched.DelayCurrent, Store.InsertEnd;
      ghost var s := State();
      PlaceOnUnorderedEventListKeeps(s, list, itemValue, ticksToWait);
      eventValue := eventValue[pxCurrentTCB := itemValue];
      events := events.InsertEnd(EventL(list), pxCurrentTCB);
      AddCurrentTaskToDelayedList(ticksToWait, true, s);
    }

    /** `vTaskPlaceOnEventListRestricted`. */
    method PlaceOnEventListRestricted(list: nat, ticksToWait: nat, waitIndefinitely: bool)
      requires Valid() && MayBlock(State(), ticksToWait) && EventL(list) in events.lists
      modifies this
      ensures State() == old(State()).PlaceOnEventListRestricted(list, ticksToWait, waitIndefinitely)
      ensures Valid() && BlockedFor(old(State()), State(), ticksToWait, waitIndefinitely)
    {
      hide Inv, MayBlock, BlockedFor, Sched.DelayCurrent, Store.InsertEnd;
      ghost var s := State();
      PlaceOnEventListRestrictedKeeps(s, list, ticksToWait, waitIndefinitely);
      BlockedForever(s, ticksToWait);
      ForeverMayBlock(s, ticksToWait);
      events := events.InsertEnd(EventL(list), pxCurrentTCB);
      AddCurrentTaskToDelayedList(if waitIndefinitely then ticks - 1 else ticksToWait, waitIndefinitely, s);
    }

    /** `xTaskRemoveFromEventList`; the result asks for a yield. */
    method RemoveFromEventList(list: nat) returns (switchNow: bool)
      requires Valid() && events.Items(EventL(list)) != []
      modifies this
      ensures State() == old(State()).RemoveFromEventList(list)
      ensures Valid()
      ensures var t := old(events.Items(EventL(list))[0]);
        && (switchNow <==> Prio(pxCurrentTCB) < Prio(t)) && (xYieldPending <==> old(xYieldPending) || switchNow)
        && events.Items(EventL(list)) == old(events.Items(EventL(list))[1..])
        && (forall u :: State().IsReady(u) <==> old(State()).IsReady(u) || (u == t && uxSchedulerSuspended == 0))
        && (uxSchedulerSuspended > 0 ==> events.In(t, PendingL))
    {
      hide Inv, Store.In, Sched.IsReady, Store.Remove, Store.InsertEnd, Store.Items, Sched.MoveToReady, Sched.RemoveFromEventList;
      RemoveFromEventListKeeps(State(), list);
      RemoveFromEventListIs(State(), list);
      FirstWaiterExactly(State(), list);
      var t := events.Items(EventL(list))[0];
      events := events.Remove(t);
      MakeReadyOrPending(t);
      switchNow := Prio(t) > Prio(pxCurrentTCB);
      if switchNow {
        xYieldPending := true;
      }
    }

    method MakeReadyOrPending(t: Task)
      modifies this`states, this`events, this`uxTopReadyPriority
      ensures var s := old(State());
        State() == if s.suspended == 0 then s.MoveToReady(t) else s.(events := s.events.InsertEnd(PendingL, t))
    {
      hide Store.InsertEnd, Sched.MoveToReady;
      if uxSchedulerSuspended == 0 {
        MoveToReadyList(t);
      } else {
        events := events.InsertEnd(PendingL, t);
      }
    }

    /** `xTaskRemoveFromUnorderedEventList`; the result asks for a yield. */
    method RemoveFromUnorderedEventList(t: Task, itemValue: nat) returns (switchNow: bool)
      requires Valid() && t in events.container
      modifies this
      ensures State() == old(State()).RemoveFromUnorderedEventList(t, itemValue)
      ensures Valid()
      ensures (switchNow <==> Prio(pxCurrentTCB) < Prio(t)) && (xYieldPending <==> old(xYieldPending) || switchNow)
      ensures At(eventValue, t) == itemValue && t !in events.container
      ensures forall u :: State().IsReady(u) <==> u == t || old(State()).IsReady(u)
    {
      hide Inv, OthersStay, Sched.IsReady, Store.Remove, Sched.MoveToReady;
      UnorderedWakes(State(), t, itemValue);
      RemoveFromUnorderedEventListKeeps(State(), t, itemValue);
      eventValue := eventValue[t := itemValue];
      events := events.Remove(t);
      MoveToReadyList(t);
      switchNow := Prio(t) > Prio(pxCurrentTCB);
      if switchNow {
        xYieldPending := true;
      }
    }
  }
}
