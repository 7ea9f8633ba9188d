/** Blocking: for how long the operations that block a task take it off the ready lists, over whole runs. */
module SchedulerBlocking {
  import opened Rings
  import opened Stores
  import opened Clock
  import opened Timeline
  import opened TwoLists
  import opened Scheduler
  import opened SchedulerInvariant
  import opened SchedulerTicks
  import opened SchedulerResume
  import opened SchedulerRuns
  import opened SchedulerSleep
  import opened SchedulerEffects

  /** Blocking, for a caller that may have put the event item of the task into a list already. */
  lemma BlockingFacts(entry: Sched, s: Sched, wait: nat, canBlock: bool)
    requires Inv(entry) && MayBlock(entry, wait) && s == entry.(events := s.events, eventValue := s.eventValue)
    ensures var r := s.DelayCurrent(wait, canBlock);
      && Inv(r.(events := entry.events, eventValue := entry.eventValue))
      && BlockedFor(entry, r, wait, wait == s.ticks - 1 && canBlock)
  {
    hide *;
    MaxDelayIs(s);
    MaxDelayIs(entry);
    var r := s.DelayCurrent(wait, canBlock);
    DelayIgnoresEvents(entry, s.events, s.eventValue, wait, canBlock);
    DelayIgnoresEvents(entry, entry.events, entry.eventValue, wait, canBlock);
    DelayCurrentKeeps(entry, wait, canBlock);
    assert r.(events := entry.events, eventValue := entry.eventValue) == entry.DelayCurrent(wait, canBlock);
    if wait == s.MaxDelay() && canBlock {
      SuspendsCurrent(entry, wait);
      SleepersAlone(entry.DelayCurrent(wait, canBlock), r);
    } else {
      DelayIsShort(entry, wait, canBlock);
      BlockingFilesSleeper(entry, wait);
      SleepersAlone(entry.DelayCurrent(wait, canBlock), r);
    }
    OthersKeepPlaces(entry, wait, canBlock);
    BlockedForIs(entry, r, wait, wait == s.ticks - 1 && canBlock);
  }

  /**
   * The running task of `before` waits in `after`: among the suspended tasks if its wait has no limit,
   * and else asleep until `wait` ticks from now, behind every task that wakes then or earlier.  No
   * other task has moved.
   */
  ghost predicate BlockedFor(before: Sched, after: Sched, wait: nat, forever: bool) {
    var x, sleepers := Sleeper(before.current, ViewOf(before).now + wait), Sleepers(before);
    && (if forever then after.states.In(before.current, SuspendedL) && Sleepers(after) == sleepers
        else Sleepers(after) == With(sleepers, WakePlace(sleepers, x.wake), x))
    && ViewOf(after).now == ViewOf(before).now
    && forall t, l :: t != before.current ==> (after.states.In(t, l) <==> before.states.In(t, l))
  }

  lemma BlockedForIs(before: Sched, after: Sched, wait: nat, forever: bool)
    requires var x, sleepers := Sleeper(before.current, ViewOf(before).now + wait), Sleepers(before);
      if forever then after.states.In(before.current, SuspendedL) && Sleepers(after) == sleepers
      else Sleepers(after) == With(sleepers, WakePlace(sleepers, x.wake), x)
    requires ViewOf(after).now == ViewOf(before).now
    requires forall t, l :: t != before.current ==> (after.states.In(t, l) <==> before.states.In(t, l))
    ensures BlockedFor(before, after, wait, forever)
  {
  }

  lemma MaxDelayIs(s: Sched)
    ensures s.MaxDelay() == s.ticks - 1
  {
  }

  lemma OthersKeepPlaces(s: Sched, wait: nat, canBlock: bool)
    ensures forall t, l :: t != s.current ==> (s.DelayCurrent(wait, canBlock).states.In(t, l) <==> s.states.In(t, l))
  {
    var l, k := DelayFields(s, wait, canBlock);
    StoreStays(s.states, s.current, l, k);
    StoreStays(s.states.Remove(s.current), s.current, l, k);
    hide Sched.DelayCurrent, Store.Remove, Store.InsertAt, Store.InsertEnd, Store.In;
  }

  lemma SleepersAlone(s: Sched, r: Sched)
    requires r == s.(events := r.events, eventValue := r.eventValue)
    ensures Sleepers(r) == Sleepers(s) && ViewOf(r).now == ViewOf(s).now
  {
  }

  /** Without a limit the running task joins the suspended tasks, and no sleeper is touched. */
  lemma SuspendsCurrent(s: Sched, wait: nat)
    requires Inv(s) && MayBlock(s, wait) && wait == s.MaxDelay()
    ensures var r := s.DelayCurrent(wait, true);
      r.states.In(s.current, SuspendedL) && Sleepers(r) == Sleepers(s) && ViewOf(r).now == ViewOf(s).now
  {
    hide *;
    var r := s.DelayCurrent(wait, true);
    MaxDelayIs(s);
    CurrentListed(s);
    SuspendsIs(s, wait);
    MoveToSuspended(s.states, s.current, DelayedL(s.delayed));
    MoveToSuspended(s.states, s.current, DelayedL(!s.delayed));
    DelayedAre(s);
    DelayedAre(r);
    SleepersAre(s);
    SleepersAre(r);
    ViewNow(s);
    ViewNow(r);
  }

  lemma SuspendsIs(s: Sched, wait: nat)
    requires wait == s.MaxDelay()
    ensures s.DelayCurrent(wait, true) == s.(states := s.states.Remove(s.current).InsertEnd(SuspendedL, s.current))
  {
    hide Store.Remove, Store.InsertEnd;
  }

  lemma CurrentListed(s: Sched)
    requires Inv(s) && MayBlock(s, s.MaxDelay())
    ensures Valid(s.states) && SuspendedL in s.states.lists && DelayedL(true) in s.states.lists && DelayedL(false) in s.states.lists
    ensures s.current in s.states.container && s.states.container[s.current].ReadyL?
  {
    hide Valid, ReadyOk, EventsOk, DelaysSorted, Counted, DelaysAhead;
  }

  lemma MoveToSuspended(s: States, t: Task, other: ListId)
    requires Valid(s) && t in s.container && s.container[t].ReadyL? && SuspendedL in s.lists && other in s.lists && other.DelayedL?
    ensures s.Remove(t).InsertEnd(SuspendedL, t).In(t, SuspendedL)
    ensures s.Remove(t).InsertEnd(SuspendedL, t).Items(other) == s.Items(other)
  {
    RemoveKeeps(s, t);
    InsertEndKeeps(s.Remove(t), SuspendedL, t);
    hide Valid, Store.Remove, Store.InsertEnd;
  }

  lemma ForeverMayBlock(s: Sched, wait: nat)
    requires MayBlock(s, wait)
    ensures MayBlock(s, s.ticks - 1)
  {
  }

  lemma DelayIsShort(s: Sched, wait: nat, canBlock: bool)
    requires !(wait == s.MaxDelay() && canBlock)
    ensures s.DelayCurrent(wait, canBlock) == s.SleepCurrent(wait)
  {
    hide Sched.SleepCurrent;
  }

  lemma BlockedForever(s: Sched, wait: nat)
    ensures forall r :: BlockedFor(s, r, wait, true) <==> BlockedFor(s, r, s.ticks - 1, true)
  {
    hide ViewOf, Sleepers, Store.In;
  }

  /**
   * Blocking on a kernel object: portMAX_DELAY ticks are a wait without limit, and every other number
   * of ticks ends by itself; the restricted form has no limit exactly when it is told so.
   */
  lemma EventBlocks(s: Sched, e: nat, v: nat, wait: nat, forever: bool)
    requires Inv(s) && MayBlock(s, wait) && EventL(e) in s.events.lists
    ensures BlockedFor(s, s.PlaceOnEventList(e, wait), wait, wait == s.ticks - 1)
    ensures BlockedFor(s, s.PlaceOnUnorderedEventList(e, v, wait), wait, wait == s.ticks - 1)
    ensures BlockedFor(s, s.PlaceOnEventListRestricted(e, wait, forever), wait, forever)
  {
    hide Inv, MayBlock, BlockedFor, Sched.DelayCurrent, InsertPlace, ValuesOf, Store.InsertAt, Store.InsertEnd, Store.Items;
    var k := InsertPlace(ValuesOf(s.events.Items(EventL(e)), s.eventValue), At(s.eventValue, s.current));
    var w := if forever then s.ticks - 1 else wait;
    var a, b := s.(events := s.events.InsertAt(EventL(e), k, s.current)), s.(events := s.events.InsertEnd(EventL(e), s.current));
    var c := b.(eventValue := s.eventValue[s.current := v]);
    BlockingFacts(s, a, wait, true);
    BlockingFacts(s, c, wait, true);
    ForeverMayBlock(s, wait);
    BlockingFacts(s, b, w, forever);
    BlockedForever(s, wait);
    MaxDelayIs(s);
  }

  /** A wait for an object that is not signalled ends on its last tick, not before or after, over any run. */
  lemma EventWaitLastsExactly(s: Sched, e: nat, v: nat, d: nat, r: Sched, steps: seq<Step>)
    requires Inv(s) && MayBlock(s, d) && EventL(e) in s.events.lists && 0 < d < s.ticks - 1
    requires r == s.PlaceOnEventList(e, d) || r == s.PlaceOnUnorderedEventList(e, v, d) || r == s.PlaceOnEventListRestricted(e, d, false)
    requires Undisturbed(r, steps, Sleeper(s.current, ViewOf(s).now + d))
    ensures WakesOnTime(r, steps, Sleeper(s.current, ViewOf(s).now + d))
  {
    var x := Sleeper(s.current, ViewOf(s).now + d);
    hide *;
    EventBlocks(s, e, v, d, false);
    PlaceOnEventListKeeps(s, e, d);
    PlaceOnUnorderedEventListKeeps(s, e, v, d);
    PlaceOnEventListRestrictedKeeps(s, e, d, false);
    BlockedSleeps(s, r, d);
    SleeperWakesOnTime(r, steps, x);
  }

  lemma BlockedSleeps(s: Sched, r: Sched, d: nat)
    requires BlockedFor(s, r, d, false)
    ensures var x := Sleeper(s.current, ViewOf(s).now + d); x in Sleepers(r) && ViewOf(r).now == ViewOf(s).now
  {
    hide *;
    BlockedForMeans(s, r, d);
    Joins(Sleepers(s), Sleepers(r), Sleeper(s.current, ViewOf(s).now + d));
  }

  lemma BlockedForMeans(s: Sched, r: Sched, d: nat)
    requires BlockedFor(s, r, d, false)
    ensures var x := Sleeper(s.current, ViewOf(s).now + d);
      Sleepers(r) == With(Sleepers(s), WakePlace(Sleepers(s), x.wake), x) && ViewOf(r).now == ViewOf(s).now
  {
  }

  // ----- a wait without limit -----

  ghost predicate Suspended(s: Sched, t: Task) { s.states.In(t, SuspendedL) }

  lemma StillSuspended(s: Sched, r: Sched, t: Task)
    requires Suspended(s, t) && SameSleep(s, r, t)
    ensures Suspended(r, t)
  {
  }

  lemma {:induction false} WakeDueSuspended(s: Sched, t: Task)
    requires Core(s) && Suspended(s, t)
    ensures Suspended(s.WakeDue(), t)
    decreases |s.Delayed()|
  {
    hide Core, Suspended, Sched.WakeFirst, Sched.Delayed;
    if s.Delayed() != [] && At(s.value, s.Delayed()[0]) <= s.tick {
      WakeFirstKeeps(s);
      WakeFirstSuspended(s, t);
      WakeDueSuspended(s.WakeFirst(), t);
    } else {
      StatesSuspended(s, s.WakeDue(), t);
    }
  }

  lemma StatesSuspended(s: Sched, r: Sched, t: Task)
    requires r.states == s.states
    ensures Suspended(r, t) <==> Suspended(s, t)
  {
  }

  lemma WakeFirstSuspended(s: Sched, t: Task)
    requires Core(s) && Suspended(s, t) && s.Delayed() != []
    ensures Suspended(s.WakeFirst(), t)
  {
    var x := s.Delayed()[0];
    var u := s.(events := s.events.Remove(x));
    DelayedIn(s, x);
    hide Core, Store.Remove, Sched.MoveToReady, Sched.Delayed;
    MoveToReadyOthers(u, x, t);
  }

  lemma TickSuspended(s: Sched, t: Task)
    requires Inv(s) && Suspended(s, t)
    ensures Suspended(s.Tick(), t)
  {
    hide Inv, Core, Suspended, Sched.Advance, Sched.WakeDue;
    AdvanceCounts(s);
    AdvanceStates(s);
    StatesSuspended(s, s.Advance(), t);
    WakeDueSuspended(s.Advance(), t);
    if s.suspended > 0 { StatesSuspended(s, s.Tick(), t); }
  }

  lemma AdvanceStates(s: Sched)
    ensures s.Advance().states == s.states
  {
    hide Sched.ResetNext;
    ResetNextFields(s.(tick := 0, delayed := !s.delayed, overflows := s.overflows + 1));
  }

  lemma {:induction false} TicksSuspended(s: Sched, n: nat, t: Task)
    requires Inv(s) && Suspended(s, t)
    ensures Inv(TickTimes(s, n)) && Suspended(TickTimes(s, n), t)
    decreases n
  {
    hide *;
    TickTimesStep(s, n);
    if n > 0 {
      TickKeeps(s);
      TickSuspended(s, t);
      TicksSuspended(s.Tick(), n - 1, t);
    }
  }

  lemma ResumeSuspended(s: Sched, t: Task)
    requires Inv(s) && s.suspended == 1 && Suspended(s, t) && !s.events.In(t, PendingL)
    ensures Suspended(s.ResumeAll(), t)
  {
    var r := s.(suspended := 0);
    var m := if r.Pending() == [] then r else r.MovePending().ResetNext();
    ResumeVia(s, r, m);
    OutermostMove(s, r, m);
    assert r.(suspended := 1) == s;
    InvCore(s);
    AheadSame(s, r);
    hide *;
    MovedSame(s, r, m, t);
    StillSuspended(s, m, t);
    TicksSuspended(m, s.pended, t);
    RunPendedIsTicks(m, s.pended, false, 0);
    FlagsSuspended(m.RunPended(s.pended), TickTimes(m, s.pended), t);
    FlagsSuspended(m.RunPended(s.pended), s.ResumeAll(), t);
  }

  lemma FlagsSuspended(a: Sched, b: Sched, t: Task)
    requires WithFlags(a, false, 0) == WithFlags(b, false, 0)
    ensures Suspended(a, t) <==> Suspended(b, t)
  {
    assert WithFlags(a, false, 0).states == a.states && WithFlags(b, false, 0).states == b.states;
  }

  lemma SuspendedWaits(s: Sched, step: Step, t: Task)
    requires Suspended(s, t)
    ensures Waits(s, t) && (step.ResumeAll? && !EndsWait(s, step, t) ==> !s.events.In(t, PendingL))
  {
  }

  /** Neither a tick, nor a resume of the scheduler, nor a step aimed at another task ends the wait. */
  lemma StepSuspended(s: Sched, step: Step, t: Task)
    requires Inv(s) && Enabled(s, step) && Suspended(s, t) && !EndsWait(s, step, t)
    ensures Suspended(Apply(s, step), t)
  {
    hide *;
    InvCore(s);
    ClockApplies(s, step);
    SuspendedWaits(s, step, t);
    if step.Tick? {
      TickSuspended(s, t);
    } else if step.ResumeAll? && s.suspended == 1 {
      ResumeSuspended(s, t);
    } else {
      if step.ResumeAll? { HeldStep(s, step, t); } else { QuietStep(s, step, t); }
      StillSuspended(s, Apply(s, step), t);
    }
  }

  ghost predicate NeverEnded(s: Sched, steps: seq<Step>, t: Task)
    decreases |steps|
  {
    steps == [] || (Enabled(s, steps[0]) && !EndsWait(s, steps[0], t) && NeverEnded(Apply(s, steps[0]), steps[1..], t))
  }

  /**
   * A task that blocks on a kernel object for portMAX_DELAY ticks waits until a step is aimed at it:
   * however many ticks pass, it is not made ready.
   */
  lemma UnlimitedWaitHolds(s: Sched, e: nat, v: nat, r: Sched, steps: seq<Step>)
    requires Inv(s) && MayBlock(s, s.ticks - 1) && EventL(e) in s.events.lists
    requires r == s.PlaceOnEventList(e, s.ticks - 1) || r == s.PlaceOnUnorderedEventList(e, v, s.ticks - 1) ||
             r == s.PlaceOnEventListRestricted(e, s.ticks - 1, true)
    requires NeverEnded(r, steps, s.current)
    ensures Suspended(Run(r, steps), s.current) && !Run(r, steps).IsReady(s.current)
  {
    hide *;
    EventBlocks(s, e, v, s.ticks - 1, true);
    PlaceOnEventListKeeps(s, e, s.ticks - 1);
    PlaceOnUnorderedEventListKeeps(s, e, v, s.ticks - 1);
    PlaceOnEventListRestrictedKeeps(s, e, s.ticks - 1, true);
    BlockedSuspended(s, r, s.ticks - 1);
    RunSuspended(r, steps, s.current);
    SuspendedIsNotReady(Run(r, steps), s.current);
  }

  lemma BlockedSuspended(s: Sched, r: Sched, d: nat)
    requires BlockedFor(s, r, d, true)
    ensures Suspended(r, s.current)
  {
  }

  lemma SuspendedIsNotReady(s: Sched, t: Task)
    requires Suspended(s, t)
    ensures !s.IsReady(t)
  {
  }

  lemma {:induction false} RunSuspended(s: Sched, steps: seq<Step>, t: Task)
    requires Inv(s) && Suspended(s, t) && NeverEnded(s, steps, t)
    ensures Suspended(Run(s, steps), t)
    decreases |steps|
  {
    hide Inv, Suspended, Enabled, EndsWait, Apply;
    if steps != [] {
      StepSuspended(s, steps[0], t);
      StepKeeps(s, steps[0]);
      RunSuspended(Apply(s, steps[0]), steps[1..], t);
    }
  }
}
