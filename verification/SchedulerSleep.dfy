/** How long a blocked task sleeps, over every interleaving of other steps. */
module SchedulerSleep {
  import opened Rings
  import opened Stores
  import opened Clock
  import opened Timeline
  import opened TwoLists
  import opened Scheduler
  import opened SchedulerInvariant
  import opened SchedulerTicks
  import opened SchedulerResume
  import opened SchedulerRuns

  // ----- the two delayed lists as one ordered list -----

  ghost predicate Sleeping(s: Sched, x: Sleeper) {
    || (s.states.In(x.task, DelayedL(s.delayed)) && x.wake == Epoch(s.overflows, s.ticks) + At(s.value, x.task))
    || (s.states.In(x.task, DelayedL(!s.delayed)) && x.wake == Epoch(s.overflows + 1, s.ticks) + At(s.value, x.task))
  }

  lemma SleeperMeans(s: Sched, x: Sleeper)
    requires Core(s)
    ensures x in Sleepers(s) <==> Sleeping(s, x)
  {
    DelayedIn(s, x.task);
    hide *;
    SleepersAre(s);
    SleepingIs(s, x);
    WakesMembers(s.Delayed(), s.value, Epoch(s.overflows, s.ticks), x);
    WakesMembers(s.OverflowDelayed(), s.value, Epoch(s.overflows + 1, s.ticks), x);
  }

  lemma DelayedIn(s: Sched, t: Task)
    requires Core(s)
    ensures t in s.Delayed() <==> s.states.In(t, DelayedL(s.delayed))
    ensures t in s.OverflowDelayed() <==> s.states.In(t, DelayedL(!s.delayed))
  {
    ListFacts(s);
    hide Core;
  }

  lemma SleepingIs(s: Sched, x: Sleeper)
    ensures Sleeping(s, x) <==>
      || (s.states.In(x.task, DelayedL(s.delayed)) && x.wake == Epoch(s.overflows, s.ticks) + At(s.value, x.task))
      || (s.states.In(x.task, DelayedL(!s.delayed)) && x.wake == Epoch(s.overflows + 1, s.ticks) + At(s.value, x.task))
  {
  }

  lemma DelayedLists(s: Sched)
    requires Core(s)
    ensures ByValue(s.Delayed(), s.value) && NoDup(s.Delayed())
    ensures ByValue(s.OverflowDelayed(), s.value) && NoDup(s.OverflowDelayed())
    ensures forall t :: t in s.Delayed() ==> At(s.value, t) < s.ticks && t !in s.OverflowDelayed()
  {
    ListFacts(s);
    StateLists(s);
    hide ReadyOk, EventsOk, Counted, Valid;
  }

  /** The sleepers of the two lists together are in order of unbounded wake time. */
  lemma SleepersOrdered(s: Sched)
    requires Core(s)
    ensures WakeOrder(Sleepers(s))
  {
    hide *;
    var a, b := Epoch(s.overflows, s.ticks), Epoch(s.overflows + 1, s.ticks);
    DelayedLists(s);
    EpochStep(s.overflows, s.ticks);
    SleepersAre(s);
    WakesOrdered(s.Delayed(), s.value, a);
    WakesOrdered(s.OverflowDelayed(), s.value, b);
    WakesWithin(s.Delayed(), s.value, a, b);
    WakesWithin(s.OverflowDelayed(), s.value, b, b);
    JoinOrdered(Wakes(s.Delayed(), s.value, a), Wakes(s.OverflowDelayed(), s.value, b), b, s.Delayed());
  }

  lemma ViewHasLists(s: Sched)
    requires Core(s)
    ensures HasLists(ViewOf(s), s.prio)
  {
    StateLists(s);
    forall x | x in Sleepers(s) ensures x.task in s.prio && s.prio[x.task] < s.priorities {
      SleeperMeans(s, x);
      TaskFacts(s, x.task);
    }
    hide Core, Wakes, Epoch, Sleepers;
  }

  lemma ReadyInView(s: Sched, t: Task)
    requires Core(s) && Timeline.IsReady(ViewOf(s), s.prio, t)
    ensures s.IsReady(t)
  {
    ListFacts(s);
    hide Core, Wakes, Epoch, Sleepers;
    assert t in s.states.Items(ReadyL(s.prio[t]));
  }

  // ----- ticks -----

  /** n processed ticks keep exactly the sleepers whose time has not come, and ready the others. */
  lemma TicksAndSleeper(s: Sched, n: nat, x: Sleeper)
    requires Inv(s) && s.suspended == 0 && x in Sleepers(s) && ViewOf(s).now < x.wake
    ensures Inv(TickTimes(s, n)) && ViewOf(TickTimes(s, n)).now == ViewOf(s).now + n
    ensures x in Sleepers(TickTimes(s, n)) <==> ViewOf(s).now + n < x.wake
    ensures x.wake <= ViewOf(s).now + n ==> TickTimes(s, n).IsReady(x.task)
  {
    hide *;
    ViewSleepers(s);
    TickTimesIsTicks(s, n);
    ViewSleepers(TickTimes(s, n));
    InvCore(s);
    InvCore(TickTimes(s, n));
    SleepersOrdered(s);
    WakesOnItsTick(ViewOf(s), s.prio, x, n);
    if x.wake <= ViewOf(s).now + n {
      ViewHasLists(s);
      ReadyFromItsTick(ViewOf(s), s.prio, x, n);
      ReadyInView(TickTimes(s, n), x.task);
    }
  }

  lemma ViewSleepers(s: Sched)
    ensures ViewOf(s).sleepers == Sleepers(s)
  {
  }

  // ----- steps that leave a sleeper alone -----

  /** Nothing that says when `t` wakes has changed. */
  ghost predicate SameSleep(s: Sched, r: Sched, t: Task) {
    && r.delayed == s.delayed && r.overflows == s.overflows && r.ticks == s.ticks && r.tick == s.tick
    && At(r.value, t) == At(s.value, t)
    && (forall b :: r.states.In(t, DelayedL(b)) <==> s.states.In(t, DelayedL(b)))
    && (r.states.In(t, SuspendedL) <==> s.states.In(t, SuspendedL))
  }

  lemma MoveToReadyOthers(s: Sched, x: Task, t: Task)
    requires t != x
    ensures SameSleep(s, s.MoveToReady(x), t)
  {
    Others(s.states, t, x, ReadyL(0), 0);
    Others(s.states.Remove(x), t, x, ReadyL(s.Prio(x)), 0);
    hide Store.Remove, Store.InsertEnd, Store.In, Store.Next, Store.InsertAt;
  }

  lemma ReprioritiseOthers(s: Sched, x: Task, p: nat, t: Task)
    requires !s.IsReady(t)
    ensures SameSleep(s, s.Reprioritise(x, p), t)
  {
    if t != x { MoveToReadyOthers(s.(prio := s.prio[x := p]), x, t); }
    hide Sched.MoveToReady;
  }

  lemma SleepOthers(s: Sched, wait: nat, canBlock: bool, t: Task)
    requires t != s.current
    ensures SameSleep(s, s.DelayCurrent(wait, canBlock), t)
  {
    var r := s.DelayCurrent(wait, canBlock);
    hide Store.Remove, Store.InsertEnd, Store.InsertAt, Store.In, Store.Items, Sched.DelayCurrent;
    var l, k := DelayFields(s, wait, canBlock);
    Others(s.states, t, s.current, l, k);
    Others(s.states.Remove(s.current), t, s.current, l, k);
    SameSleepIf(s, r, t);
  }

  lemma SameSleepIf(s: Sched, r: Sched, t: Task)
    requires r.delayed == s.delayed && r.overflows == s.overflows && r.ticks == s.ticks && r.tick == s.tick
    requires At(r.value, t) == At(s.value, t) && forall m :: r.states.In(t, m) <==> s.states.In(t, m)
    ensures SameSleep(s, r, t)
  {
  }

  lemma DelayFields(s: Sched, wait: nat, canBlock: bool) returns (l: ListId, k: nat)
    ensures var r := s.DelayCurrent(wait, canBlock);
      && r.delayed == s.delayed && r.overflows == s.overflows && r.ticks == s.ticks && r.tick == s.tick
      && (forall t :: t != s.current ==> At(r.value, t) == At(s.value, t))
      && (r.states == s.states.Remove(s.current).InsertAt(l, k, s.current) ||
          r.states == s.states.Remove(s.current).InsertEnd(l, s.current))
  {
    hide Store.Remove, Store.InsertEnd, Store.InsertAt, Store.Items, ValuesOf, InsertPlace, Wrap;
    if wait == s.MaxDelay() && canBlock {
      l, k := SuspendedL, 0;
    } else {
      var w := Wrap(s.tick + wait, s.ticks);
      l := DelayedL(if w < s.tick then !s.delayed else s.delayed);
      k := InsertPlace(ValuesOf(s.states.Remove(s.current).Items(l), s.value), w);
    }
  }

  // ----- which steps end a sleep -----

  /** The steps that unblock, suspend or delete the sleeping task `t`. */
  ghost predicate Disturbs(s: Sched, step: Step, t: Task) {
    match step
    case Delete(u) => u == t
    case Suspend(u) => u == t
    case RemoveFromEventList(e) => s.events.Items(EventL(e)) != [] && s.events.Items(EventL(e))[0] == t
    case RemoveFromUnorderedEventList(u, v) => u == t
    case ResumeAll => s.events.In(t, PendingL)
    case _ => false
  }

  ghost predicate Blocked(s: Sched, t: Task) {
    s.states.In(t, DelayedL(true)) || s.states.In(t, DelayedL(false))
  }

  /** The steps that end the wait of a blocked or suspended task; a resume does if the task waits for nothing. */
  ghost predicate EndsWait(s: Sched, step: Step, t: Task) {
    Disturbs(s, step, t) || ((step.Resume? || step.ResumeFromISR?) && step.t == t && s.IsTaskSuspended(t))
  }

  /** In a delayed list or among the suspended tasks. */
  ghost predicate Waits(s: Sched, t: Task) { Blocked(s, t) || s.states.In(t, SuspendedL) }

  lemma WakeOneOthers(s: Sched, e: nat, t: Task)
    requires !Disturbs(s, Step.RemoveFromEventList(e), t)
    ensures SameSleep(s, s.RemoveFromEventList(e), t)
  {
    hide Sched.MoveToReady, Store.Remove, Store.InsertEnd, Store.Items, SameSleep;
    if s.events.Items(EventL(e)) != [] {
      var x := s.events.Items(EventL(e))[0];
      var u := s.(events := s.events.Remove(x));
      assert x != t;
      MoveToReadyOthers(u, x, t);
      SleepAside(s, u, t);
      SleepThen(s, u, u.MoveToReady(x), t);
      SleepAside(u.MoveToReady(x), u.MoveToReady(x).(yieldPending := s.RemoveFromEventList(e).yieldPending), t);
      SleepThen(s, u.MoveToReady(x), u.MoveToReady(x).(yieldPending := s.RemoveFromEventList(e).yieldPending), t);
      SleepAside(s, s.(events := u.events.InsertEnd(PendingL, x), yieldPending := s.RemoveFromEventList(e).yieldPending), t);
    } else {
      SleepAside(s, s, t);
    }
  }

  lemma SleepAside(s: Sched, r: Sched, t: Task)
    requires r == s.(events := r.events, yieldPending := r.yieldPending)
    ensures SameSleep(s, r, t)
  {
  }

  lemma SleepThen(s: Sched, q: Sched, r: Sched, t: Task)
    requires SameSleep(s, q, t) && SameSleep(q, r, t)
    ensures SameSleep(s, r, t)
  {
  }

  lemma DeleteOthers(s: Sched, x: Task, t: Task)
    requires x != t
    ensures SameSleep(s, s.Delete(x), t)
  {
    var r := s.Delete(x);
    DeleteFields(s, x);
    hide *;
    Others(s.states, t, x, TerminationL, 0);
    Others(s.states.Remove(x), t, x, TerminationL, 0);
    SameSleepIf(s, r, t);
  }

  lemma DeleteFields(s: Sched, x: Task)
    ensures var r := s.Delete(x);
      && r.delayed == s.delayed && r.overflows == s.overflows && r.ticks == s.ticks && r.tick == s.tick && r.value == s.value
      && (r.states == s.states.Remove(x) || r.states == s.states.Remove(x).InsertEnd(TerminationL, x))
  {
    hide Store.Remove, Store.InsertEnd, Store.Items, Sched.ResetNext;
    if x != s.current {
      ResetNextFields(s.(states := s.states.Remove(x), events := s.events.Remove(x), count := if s.count > 0 then s.count - 1 else 0));
    }
  }

  lemma SuspendOthers(s: Sched, x: Task, t: Task)
    requires x != t
    ensures SameSleep(s, s.Suspend(x), t)
  {
    Others(s.states, t, x, SuspendedL, 0);
    Others(s.states.Remove(x), t, x, SuspendedL, 0);
    hide Store.Remove, Store.InsertEnd, Store.InsertAt, Store.Next, Store.Items, Store.In;
    var r := s.(states := s.states.Remove(x).InsertEnd(SuspendedL, x), events := s.events.Remove(x));
    ResetNextFields(r);
    hide Sched.ResetNext;
  }

  lemma CreateOthers(s: Sched, x: Task, p: nat, t: Task)
    requires x != t
    ensures SameSleep(s, s.Create(x, p), t)
  {
    Others(s.states, t, x, ReadyL(Clamp(p, s.priorities)), 0);
    hide Store.InsertEnd, Store.In, Clamp;
  }

  lemma ReapOthers(s: Sched, t: Task)
    requires Core(s) && Waits(s, t)
    ensures SameSleep(s, s.Reap(), t)
  {
    if s.deleted != 0 && s.states.Items(TerminationL) != [] {
      ListFacts(s);
      var x := s.states.Items(TerminationL)[0];
      assert x in s.states.Items(TerminationL);
      Others(s.states, t, x, TerminationL, 0);
    }
    hide Core, Store.Remove, Store.Items;
  }

  lemma PrioritySetOthers(s: Sched, x: Task, p: nat, t: Task)
    requires !s.IsReady(t)
    ensures SameSleep(s, s.PrioritySet(x, p), t)
  {
    hide Sched.Reprioritise, Clamp, EventValue, Store.In;
    var q := Clamp(p, s.priorities);
    var r := s.(base := s.base[x := q]).SetEventValue(x, q);
    ReprioritiseOthers(r, x, if At(s.base, x) == s.Prio(x) then q else s.Prio(x), t);
  }

  lemma InheritOthers(s: Sched, x: Task, t: Task)
    requires !s.IsReady(t)
    ensures SameSleep(s, s.Inherit(x), t) && SameSleep(s, s.Disinherit(x), t)
  {
    RaiseOthers(s, x, t);
    DropOthers(s, x, t);
    hide *;
  }

  lemma RaiseOthers(s: Sched, x: Task, t: Task)
    requires !s.IsReady(t)
    ensures SameSleep(s, s.Inherit(x), t)
  {
    hide Sched.Reprioritise, EventValue, Store.In;
    ReprioritiseOthers(s.SetEventValue(x, s.Prio(s.current)), x, s.Prio(s.current), t);
  }

  lemma DropOthers(s: Sched, x: Task, t: Task)
    requires !s.IsReady(t)
    ensures SameSleep(s, s.Disinherit(x), t)
  {
    hide Sched.Reprioritise, EventValue, Store.In;
    var h := s.(held := s.held[x := if At(s.held, x) > 0 then At(s.held, x) - 1 else 0]);
    ReprioritiseOthers(h.(eventValue := s.eventValue[x := EventValue(At(s.base, x), s.priorities)]), x, At(s.base, x), t);
  }

  lemma PlaceOthers(s: Sched, e: nat, v: nat, wait: nat, forever: bool, t: Task)
    requires t != s.current
    ensures SameSleep(s, s.PlaceOnEventList(e, wait), t) && SameSleep(s, s.PlaceOnUnorderedEventList(e, v, wait), t)
    ensures SameSleep(s, s.PlaceOnEventListRestricted(e, wait, forever), t)
  {
    var k := InsertPlace(ValuesOf(s.events.Items(EventL(e)), s.eventValue), At(s.eventValue, s.current));
    SleepOthers(s.(events := s.events.InsertAt(EventL(e), k, s.current)), wait, true, t);
    SleepOthers(s.(events := s.events.InsertEnd(EventL(e), s.current), eventValue := s.eventValue[s.current := v]), wait, true, t);
    SleepOthers(s.(events := s.events.InsertEnd(EventL(e), s.current)), if forever then s.MaxDelay() else wait, forever, t);
    hide Sched.DelayCurrent, Store.In, Store.InsertAt, Store.InsertEnd, Store.Items, ValuesOf, InsertPlace;
  }

  lemma SwitchOthers(s: Sched, t: Task)
    ensures SameSleep(s, s.SwitchContext(), t)
  {
    var r := s.SwitchContext();
    SwitchFields(s);
    hide *;
    Others(s.states, t, t + 1, ReadyL(s.HighestReady(s.top)), 0);
    SameSleepIf(s, r, t);
  }

  lemma SwitchFields(s: Sched)
    ensures var r := s.SwitchContext();
      && r.delayed == s.delayed && r.overflows == s.overflows && r.ticks == s.ticks && r.tick == s.tick && r.value == s.value
      && (r.states == s.states || r.states == s.states.Next(ReadyL(s.HighestReady(s.top))))
  {
    hide Sched.HighestReady, Store.Next, Store.Items, Ring.Selected;
    assert s.suspended > 0 ==> s.SwitchContext() == s.(yieldPending := true);
  }

  lemma UnorderedOthers(s: Sched, x: Task, v: nat, t: Task)
    requires t != x
    ensures SameSleep(s, s.RemoveFromUnorderedEventList(x, v), t)
  {
    MoveToReadyOthers(s.(eventValue := s.eventValue[x := v], events := s.events.Remove(x)), x, t);
    hide Sched.MoveToReady, Store.Remove, Store.In;
  }

  lemma AsideOthers(s: Sched, t: Task)
    ensures SameSleep(s, s.IncrementHeld(), t) && SameSleep(s, s.ResetEventItemValue(), t)
  {
  }

  lemma SuspendAllOthers(s: Sched, t: Task)
    ensures SameSleep(s, s.SuspendAll(), t)
  {
  }

  /** A step other than a tick or a resume, and aimed at another task, leaves a sleeper as it was. */
  lemma QuietStep(s: Sched, step: Step, t: Task)
    requires Core(s) && Enabled(s, step) && Waits(s, t) && !EndsWait(s, step, t)
    requires !step.Tick? && !step.ResumeAll?
    ensures SameSleep(s, Apply(s, step), t)
  {
    hide Core, SameSleep, Store.Remove, Store.InsertEnd, Store.InsertAt, Sched.DelayCurrent, Sched.Reprioritise;
    match step {
      case Create(x, p) => CreateOthers(s, x, p, t);
      case Delete(x) => DeleteOthers(s, x, t);
      case Reap => ReapOthers(s, t);
      case Suspend(x) => SuspendOthers(s, x, t);
      case Resume(x) => ResumeOthers(s, x, t);
      case ResumeFromISR(x) => ResumeOthers(s, x, t);
      case PrioritySet(x, p) => PrioritySetOthers(s, x, p, t);
      case Inherit(x) => InheritOthers(s, x, t);
      case Disinherit(x) => InheritOthers(s, x, t);
      case IncrementHeld => AsideOthers(s, t);
      case ResetEventItemValue => AsideOthers(s, t);
      case Delay(wait) => SleepOthers(s, wait, false, t);
      case PlaceOnEventList(e, wait) => PlaceOthers(s, e, 0, wait, false, t);
      case PlaceOnUnorderedEventList(e, v, wait) => PlaceOthers(s, e, v, wait, false, t);
      case PlaceOnEventListRestricted(e, wait, forever) => PlaceOthers(s, e, 0, wait, forever, t);
      case RemoveFromEventList(e) => WakeOneOthers(s, e, t);
      case RemoveFromUnorderedEventList(x, v) => UnorderedOthers(s, x, v, t);
      case SuspendAll => SuspendAllOthers(s, t);
      case SwitchContext => SwitchOthers(s, t);
    }
  }

  lemma ResumeOthers(s: Sched, x: Task, t: Task)
    requires t == x ==> !s.IsTaskSuspended(t)
    ensures SameSleep(s, s.Resume(x), t) && SameSleep(s, s.ResumeFromISR(x), t)
  {
    if t != x { MoveToReadyOthers(s, x, t); }
    hide Sched.MoveToReady;
  }

  // ----- the sleep of one task over a run -----

  lemma ViewNow(s: Sched)
    ensures ViewOf(s).now == Epoch(s.overflows, s.ticks) + s.tick
  {
  }

  lemma SameSleeper(s: Sched, r: Sched, x: Sleeper)
    requires Core(s) && Core(r) && SameSleep(s, r, x.task)
    ensures x in Sleepers(r) <==> x in Sleepers(s)
    ensures ViewOf(r).now == ViewOf(s).now
  {
    SleeperMeans(s, x);
    SleeperMeans(r, x);
    hide *;
    SameSleeping(s, r, x);
  }

  lemma SameSleeping(s: Sched, r: Sched, x: Sleeper)
    requires SameSleep(s, r, x.task)
    ensures Sleeping(s, x) <==> Sleeping(r, x)
    ensures ViewOf(r).now == ViewOf(s).now
  {
    ViewNow(s);
    ViewNow(r);
    hide ViewOf, Epoch, Store.In;
  }

  lemma {:induction false} MovePendingOthers(s: Sched, t: Task)
    requires Core(s.(suspended := 1)) && Ahead(s) && !s.events.In(t, PendingL)
    ensures SameSleep(s, s.MovePending(), t)
    decreases |s.Pending()|
  {
    hide Core, Ahead, Sched.MoveOnePending;
    if s.Pending() != [] {
      MoveOneOthers(s, t);
      MoveOnePendingKeeps(s);
      MovePendingOthers(s.MoveOnePending(), t);
    }
    hide Store.In;
  }

  lemma MoveOneOthers(s: Sched, t: Task)
    requires Core(s.(suspended := 1)) && !s.events.In(t, PendingL) && s.Pending() != []
    ensures SameSleep(s, s.MoveOnePending(), t) && !s.MoveOnePending().events.In(t, PendingL)
  {
    PendingHead(s.(suspended := 1));
    hide Core;
    var u := s.Pending()[0];
    MoveToReadyOthers(s.(events := s.events.Remove(u)), u, t);
    Others(s.events, t, u, PendingL, 0);
    hide Store.Remove, Store.In, Store.InsertEnd;
  }

  /** Resuming processes the pended ticks on top of the tasks moved from the pending list. */
  lemma ResumeAndSleeper(s: Sched, x: Sleeper)
    requires Inv(s) && s.suspended == 1 && x in Sleepers(s) && ViewOf(s).now < x.wake && !s.events.In(x.task, PendingL)
    ensures ViewOf(s.ResumeAll()).now == ViewOf(s).now + s.pended
    ensures x in Sleepers(s.ResumeAll()) <==> ViewOf(s.ResumeAll()).now < x.wake
    ensures x.wake <= ViewOf(s.ResumeAll()).now ==> s.ResumeAll().IsReady(x.task)
  {
    var r := s.(suspended := 0);
    var m := if r.Pending() == [] then r else r.MovePending().ResetNext();
    ResumeVia(s, r, m);
    OutermostMove(s, r, m);
    assert r.(suspended := 1) == s;
    InvCore(s);
    AheadSame(s, r);
    hide *;
    MovedSame(s, r, m, x.task);
    InvCore(m);
    SameSleeper(s, m, x);
    TicksAndSleeper(m, s.pended, x);
    RunPendedIsTicks(m, s.pended, false, 0);
    FlagsAside(m.RunPended(s.pended), TickTimes(m, s.pended));
    FlagsAside(m.RunPended(s.pended), s.ResumeAll());
  }

  lemma AheadSame(s: Sched, r: Sched)
    requires Ahead(s) && r == s.(suspended := 0)
    ensures Ahead(r)
  {
  }

  lemma MovedSame(s: Sched, r: Sched, m: Sched, t: Task)
    requires Core(s) && s.suspended == 1 && r == s.(suspended := 0) && Ahead(r) && !s.events.In(t, PendingL)
    requires m == if r.Pending() == [] then r else r.MovePending().ResetNext()
    ensures SameSleep(s, m, t)
  {
    hide Core, Ahead;
    assert r.(suspended := 1) == s;
    MovePendingOthers(r, t);
    ResetNextFields(r.MovePending());
    hide Sched.MovePending, Sched.ResetNext, Store.In;
  }

  lemma ResumeVia(s: Sched, r: Sched, m: Sched)
    requires Inv(s) && s.suspended == 1 && r == s.(suspended := 0)
    requires m == if r.Pending() == [] then r else r.MovePending().ResetNext()
    ensures WithFlags(s.ResumeAll(), false, 0) == WithFlags(m.RunPended(s.pended), false, 0)
  {
    CountPositive(s);
    hide Inv, Sched.RunPended, Sched.MovePending, Sched.ResetNext, Sched.Pending;
  }

  lemma FlagsAside(a: Sched, b: Sched)
    requires WithFlags(a, false, 0) == WithFlags(b, false, 0)
    ensures Sleepers(a) == Sleepers(b) && ViewOf(a).now == ViewOf(b).now
    ensures forall t :: a.IsReady(t) <==> b.IsReady(t)
  {
    FlagsDoNotShow(a);
    FlagsDoNotShow(b);
    hide Sleepers, ViewOf, Sched.IsReady, WithFlags;
  }

  lemma FlagsDoNotShow(a: Sched)
    ensures Sleepers(a) == Sleepers(WithFlags(a, false, 0)) && ViewOf(a).now == ViewOf(WithFlags(a, false, 0)).now
    ensures forall t :: a.IsReady(t) <==> WithFlags(a, false, 0).IsReady(t)
  {
  }

  /**
   * No step that is not aimed at a sleeping task wakes it early or keeps it asleep: after the step
   * it is asleep exactly when its wake time has not come, and otherwise ready.
   */
  lemma StepAndSleeper(s: Sched, step: Step, x: Sleeper)
    requires Inv(s) && Enabled(s, step) && x in Sleepers(s) && ViewOf(s).now < x.wake && !Disturbs(s, step, x.task)
    ensures ViewOf(s).now <= ViewOf(Apply(s, step)).now
    ensures x in Sleepers(Apply(s, step)) <==> ViewOf(Apply(s, step)).now < x.wake
    ensures x.wake <= ViewOf(Apply(s, step)).now ==> Apply(s, step).IsReady(x.task)
  {
    hide *;
    if step.Tick? && s.suspended == 0 {
      TicksAndSleeper(s, 1, x);
      TickTimesStep(s, 1);
      TickTimesStep(s.Tick(), 0);
      ClockApplies(s, step);
    } else if step.ResumeAll? && s.suspended == 1 {
      PendingDisturbs(s, step, x.task);
      ResumeAndSleeper(s, x);
      ClockApplies(s, step);
    } else {
      OtherStepAndSleeper(s, step, x);
    }
  }

  lemma ClockApplies(s: Sched, step: Step)
    ensures step.Tick? ==> Apply(s, step) == s.Tick()
    ensures step.ResumeAll? ==> Apply(s, step) == s.ResumeAll()
  {
    hide Sched.Tick, Sched.ResumeAll;
  }

  lemma PendingDisturbs(s: Sched, step: Step, t: Task)
    requires step.ResumeAll? && !Disturbs(s, step, t)
    ensures !s.events.In(t, PendingL)
  {
  }

  /** A step in which no time passes. */
  lemma OtherStepAndSleeper(s: Sched, step: Step, x: Sleeper)
    requires Inv(s) && Enabled(s, step) && x in Sleepers(s) && ViewOf(s).now < x.wake && !Disturbs(s, step, x.task)
    requires !(step.Tick? && s.suspended == 0) && !(step.ResumeAll? && s.suspended == 1)
    ensures ViewOf(Apply(s, step)).now == ViewOf(s).now && x in Sleepers(Apply(s, step))
  {
    hide *;
    StepKeeps(s, step);
    InvCore(s);
    InvCore(Apply(s, step));
    SleeperMeans(s, x);
    SleeperBlocked(s, x);
    if !step.Tick? && !step.ResumeAll? { QuietStep(s, step, x.task); } else { HeldStep(s, step, x.task); }
    SameSleeper(s, Apply(s, step), x);
  }

  lemma SleeperBlocked(s: Sched, x: Sleeper)
    requires Sleeping(s, x)
    ensures Blocked(s, x.task) && Waits(s, x.task) && forall step :: EndsWait(s, step, x.task) ==> Disturbs(s, step, x.task)
  {
  }

  lemma HeldStep(s: Sched, step: Step, t: Task)
    requires (step.Tick? && s.suspended > 0) || (step.ResumeAll? && s.suspended != 1)
    ensures SameSleep(s, Apply(s, step), t)
  {
    hide Sched.RunPended, Sched.MovePending, Sched.ResetNext, Sched.Pending, Sched.Advance, Sched.WakeDue, Store.In;
  }

  /** Until its wake time no step of the run is aimed at `x`. */
  ghost predicate Undisturbed(s: Sched, steps: seq<Step>, x: Sleeper)
    decreases |steps|
  {
    steps == [] || x.wake <= ViewOf(s).now ||
    (Enabled(s, steps[0]) && !Disturbs(s, steps[0], x.task) && Undisturbed(Apply(s, steps[0]), steps[1..], x))
  }

  /** `x` is asleep in every state of the run before its wake time, and ready in the first state at or after it. */
  ghost predicate WakesOnTime(s: Sched, steps: seq<Step>, x: Sleeper)
    decreases |steps|
  {
    if x.wake <= ViewOf(s).now then s.IsReady(x.task) && x !in Sleepers(s)
    else x in Sleepers(s) && (steps == [] || WakesOnTime(Apply(s, steps[0]), steps[1..], x))
  }

  /**
   * In every run of scheduler steps, in any interleaving, with ticks pended or not and the tick
   * count wrapping or not, a sleeper that no step is aimed at wakes on its tick, not before or after.
   */
  lemma {:induction false} SleeperWakesOnTime(s: Sched, steps: seq<Step>, x: Sleeper)
    requires Inv(s) && x in Sleepers(s) && ViewOf(s).now < x.wake && Undisturbed(s, steps, x)
    ensures WakesOnTime(s, steps, x)
    decreases |steps|
  {
    hide Inv, Enabled, Apply, Disturbs, ViewOf, Sleepers, Sched.IsReady;
    if steps != [] {
      StepAndSleeper(s, steps[0], x);
      StepKeeps(s, steps[0]);
      if ViewOf(Apply(s, steps[0])).now < x.wake { SleeperWakesOnTime(Apply(s, steps[0]), steps[1..], x); }
    }
  }

  // ----- going to sleep -----

  lemma MoveWith(s: States, t: Task, l: ListId, k: nat, other: ListId)
    requires Valid(s) && t in s.container && l in s.lists && other in s.lists && k <= |s.Items(l)|
    requires l != s.container[t] && other != s.container[t] && other != l
    ensures s.Remove(t).Items(l) == s.Items(l)
    ensures s.Remove(t).InsertAt(l, k, t).Items(l) == With(s.Items(l), k, t)
    ensures s.Remove(t).InsertAt(l, k, t).Items(other) == s.Items(other)
  {
    RemoveKeeps(s, t);
    InsertAtKeeps(s.Remove(t), l, k, t);
    hide Valid, Store.Remove, Store.InsertAt;
  }

  lemma CurrentAwake(s: Sched)
    requires Core(s) && s.IsReady(s.current)
    ensures Valid(s.states) && DelayedL(true) in s.states.lists && DelayedL(false) in s.states.lists
    ensures s.current in s.states.container && s.states.container[s.current].ReadyL?
    ensures s.current !in s.Delayed() && s.current !in s.OverflowDelayed()
  {
    StateLists(s);
    DelayedIn(s, s.current);
    hide Core, Valid;
  }

  lemma SleepFields(s: Sched, l: ListId, wait: nat)
    requires l == DelayedL(if Wrap(s.tick + wait, s.ticks) < s.tick then !s.delayed else s.delayed)
    ensures var r, w, u := s.SleepCurrent(wait), Wrap(s.tick + wait, s.ticks), s.states.Remove(s.current);
      && r.value == s.value[s.current := w] && r.overflows == s.overflows && r.ticks == s.ticks && r.tick == s.tick
      && r.delayed == s.delayed
      && r.states == u.InsertAt(l, InsertPlace(ValuesOf(u.Items(l), s.value), w), s.current)
  {
    hide Wrap, InsertPlace, ValuesOf, Store.Remove, Store.InsertAt, Store.Items;
  }

  lemma AwakeLists(s: Sched, wait: nat)
    requires Inv(s) && MayBlock(s, wait)
    ensures Valid(s.states) && DelayedL(true) in s.states.lists && DelayedL(false) in s.states.lists
    ensures s.current in s.states.container && s.states.container[s.current].ReadyL?
  {
    CurrentAwake(s);
    hide Core;
  }

  /** The list `b` gains the running task, and the other delayed list stays as it is. */
  lemma SleepLists(s: Sched, wait: nat, b: bool)
    requires Inv(s) && MayBlock(s, wait) && b == (if s.tick + wait < s.ticks then s.delayed else !s.delayed)
    ensures var list, w := s.states.Items(DelayedL(b)), Wrap(s.tick + wait, s.ticks);
      s.SleepCurrent(wait).states.Items(DelayedL(b)) == With(list, InsertPlace(ValuesOf(list, s.value), w), s.current)
    ensures s.SleepCurrent(wait).states.Items(DelayedL(!b)) == s.states.Items(DelayedL(!b))
  {
    hide *;
    var t, w, l := s.current, Wrap(s.tick + wait, s.ticks), DelayedL(b);
    WakeFacts(s, wait);
    SleepFields(s, l, wait);
    AwakeLists(s, wait);
    var k := InsertPlace(ValuesOf(s.states.Items(l), s.value), w);
    ValuesLength(s.states.Items(l), s.value);
    MoveWith(s.states, t, l, k, DelayedL(!b));
  }

  lemma DelayedAre(s: Sched)
    ensures s.Delayed() == s.states.Items(DelayedL(s.delayed)) && s.OverflowDelayed() == s.states.Items(DelayedL(!s.delayed))
  {
  }

  lemma WakeFacts(s: Sched, wait: nat)
    requires Inv(s) && MayBlock(s, wait)
    ensures Wrap(s.tick + wait, s.ticks) == if s.tick + wait < s.ticks then s.tick + wait else s.tick + wait - s.ticks
    ensures Wrap(s.tick + wait, s.ticks) < s.tick <==> s.tick + wait >= s.ticks
    ensures s.current !in s.Delayed() && s.current !in s.OverflowDelayed()
    ensures forall t :: t in s.Delayed() ==> At(s.value, t) <= s.ticks
  {
    WakeValue(s.tick, wait, s.ticks);
    CurrentAwake(s);
    DelayedLists(s);
    hide Core, Wrap, Sched.Delayed, Sched.OverflowDelayed;
  }

  lemma SleepSoon(s: Sched, wait: nat, x: Sleeper)
    requires Inv(s) && MayBlock(s, wait) && s.tick + wait < s.ticks && x == Sleeper(s.current, ViewOf(s).now + wait)
    ensures Sleepers(s.SleepCurrent(wait)) == With(Sleepers(s), WakePlace(Sleepers(s), x.wake), x)
  {
    var r, w := s.SleepCurrent(wait), s.tick + wait;
    hide *;
    EpochStep(s.overflows, s.ticks);
    WakeFacts(s, wait);
    ViewNow(s);
    SleepFields(s, DelayedL(s.delayed), wait);
    SleepLists(s, wait, s.delayed);
    DelayedAre(s);
    DelayedAre(r);
    SleepersAre(s);
    SleepersAre(r);
    FileSoon(s.Delayed(), s.OverflowDelayed(), s.value, Epoch(s.overflows, s.ticks), Epoch(s.overflows + 1, s.ticks), s.current, w);
  }

  lemma SleepLate(s: Sched, wait: nat, x: Sleeper)
    requires Inv(s) && MayBlock(s, wait) && s.tick + wait >= s.ticks && x == Sleeper(s.current, ViewOf(s).now + wait)
    ensures Sleepers(s.SleepCurrent(wait)) == With(Sleepers(s), WakePlace(Sleepers(s), x.wake), x)
  {
    var r, w := s.SleepCurrent(wait), s.tick + wait - s.ticks;
    hide *;
    EpochStep(s.overflows, s.ticks);
    WakeFacts(s, wait);
    ViewNow(s);
    SleepFields(s, DelayedL(!s.delayed), wait);
    SleepLists(s, wait, !s.delayed);
    DelayedAre(s);
    DelayedAre(r);
    SleepersAre(s);
    SleepersAre(r);
    FileLate(s.Delayed(), s.OverflowDelayed(), s.value, Epoch(s.overflows, s.ticks), Epoch(s.overflows + 1, s.ticks), s.current, w);
  }

  /**
   * Blocking for `wait` ticks puts the running task into the ordered list of sleepers at the place
   * of its unbounded wake time, behind every equal one, whichever delayed list that takes.
   */
  lemma BlockingFilesSleeper(s: Sched, wait: nat)
    requires Inv(s) && MayBlock(s, wait)
    ensures var x := Sleeper(s.current, ViewOf(s).now + wait);
      Sleepers(s.SleepCurrent(wait)) == With(Sleepers(s), WakePlace(Sleepers(s), x.wake), x)
    ensures ViewOf(s.SleepCurrent(wait)).now == ViewOf(s).now
  {
    var x := Sleeper(s.current, ViewOf(s).now + wait);
    SleepFields(s, DelayedL(if Wrap(s.tick + wait, s.ticks) < s.tick then !s.delayed else s.delayed), wait);
    ViewNow(s);
    ViewNow(s.SleepCurrent(wait));
    hide *;
    if s.tick + wait < s.ticks { SleepSoon(s, wait, x); } else { SleepLate(s, wait, x); }
  }

  lemma Joins(before: seq<Sleeper>, after: seq<Sleeper>, x: Sleeper)
    requires after == With(before, WakePlace(before, x.wake), x)
    ensures x in after
  {
    WithMembers(before, WakePlace(before, x.wake), x);
  }

  lemma DelayIsSleep(s: Sched, d: nat)
    ensures s.DelayCurrent(d, false) == s.SleepCurrent(d)
  {
    hide Sched.SleepCurrent;
  }

  /**
   * A task that delays itself for d ticks (0 < d < M) is asleep in every later state until the d-th
   * processed tick and ready from that tick on, in every run with no step aimed at it.
   */
  lemma DelayLastsExactly(s: Sched, d: nat, steps: seq<Step>)
    requires Inv(s) && MayBlock(s, d) && d > 0
    requires Undisturbed(s.DelayCurrent(d, false), steps, Sleeper(s.current, ViewOf(s).now + d))
    ensures WakesOnTime(s.DelayCurrent(d, false), steps, Sleeper(s.current, ViewOf(s).now + d))
  {
    var x := Sleeper(s.current, ViewOf(s).now + d);
    hide *;
    DelayIsSleep(s, d);
    DelayCurrentKeeps(s, d, false);
    BlockingFilesSleeper(s, d);
    Joins(Sleepers(s), Sleepers(s.SleepCurrent(d)), x);
    SleeperWakesOnTime(s.DelayCurrent(d, false), steps, x);
  }
}
