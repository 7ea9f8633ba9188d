/**
 * Who each operation of tasks.c makes ready, where the task queues up, and when a yield is asked for,
 * in terms of lists, priorities and readiness alone.
 */
module SchedulerAnswers {
  import opened Rings
  import opened Stores
  import opened Clock
  import opened Timeline
  import opened TwoLists
  import opened RoundRobin
  import opened Scheduler
  import opened SchedulerInvariant
  import opened SchedulerTicks
  import opened SchedulerResume
  import opened SchedulerRuns
  import opened SchedulerSleep
  import opened SchedulerPreemption
  import opened SchedulerEffects
  import opened SchedulerEvents
  import opened SchedulerSlices

  // ----- resuming tasks -----

  /** Among the suspended tasks, and not there because of a wait for an event. */
  ghost predicate Dormant(s: Sched, t: Task) { s.states.In(t, SuspendedL) && t !in s.events.container }

  lemma DormantIs(s: Sched, t: Task)
    ensures s.IsTaskSuspended(t) <==> Dormant(s, t)
  {
  }

  /** Resuming readies the task exactly if it was suspended, waits for nothing and is not the running one. */
  lemma ResumeExactly(s: Sched, t: Task)
    requires Inv(s)
    ensures var r := s.Resume(t);
      && (forall u :: r.IsReady(u) <==> s.IsReady(u) || (u == t && t != s.current && Dormant(s, t)))
      && r.prio == s.prio && r.events == s.events && OthersStay(s, r, t)
  {
    hide *;
    InvCore(s);
    DormantIs(s, t);
    ResumeCases(s, t);
    if s.IsTaskSuspended(t) {
      SuspendedMoves(s, t);
      MovedIsReady(s, t);
      MoveFields(s, t);
      MoveKeepsOthers(s, t);
    }
    StaysItself(s, t);
  }

  lemma ResumeCases(s: Sched, t: Task)
    ensures s.Resume(t) == if t != s.current && s.IsTaskSuspended(t) then s.MoveToReady(t) else s
    ensures s.ResumeFromISR(t) ==
      if !s.IsTaskSuspended(t) then s else if s.suspended == 0 then s.MoveToReady(t) else s.(events := s.events.InsertEnd(PendingL, t))
  {
    hide Sched.MoveToReady, Sched.IsTaskSuspended, Store.InsertEnd;
  }

  lemma SuspendedMoves(s: Sched, t: Task)
    requires s.IsTaskSuspended(t)
    ensures t in s.states.container && t !in s.events.container && !s.states.In(t, TerminationL) && !s.IsReady(t)
  {
  }

  lemma MoveKeepsOthers(s: Sched, t: Task)
    ensures OthersStay(s, s.MoveToReady(t), t)
  {
    MoveFields(s, t);
    hide Sched.MoveToReady, OthersStay, Store.In, Store.Remove, Store.InsertEnd, Store.InsertAt;
    StoreStays(s.states, t, ReadyL(s.Prio(t)), 0);
    StoreStays(s.states.Remove(t), t, ReadyL(s.Prio(t)), 0);
    OthersStayIf(s, s.MoveToReady(t), t);
  }

  lemma StaysItself(s: Sched, t: Task)
    ensures OthersStay(s, s, t)
  {
  }

  /**
   * From an interrupt, the same also for the running task; while the scheduler is suspended the task
   * becomes pending instead, and resuming the scheduler will make it ready.
   */
  lemma ResumeFromISRExactly(s: Sched, t: Task)
    requires Inv(s)
    ensures var r := s.ResumeFromISR(t);
      && (forall u :: r.IsReady(u) <==> s.IsReady(u) || (u == t && s.suspended == 0 && Dormant(s, t)))
      && (forall u, e :: r.events.In(u, e) <==> s.events.In(u, e) || (u == t && e == PendingL && s.suspended > 0 && Dormant(s, t)))
      && r.prio == s.prio && OthersStay(s, r, t)
  {
    hide *;
    InvCore(s);
    DormantIs(s, t);
    ResumeCases(s, t);
    if s.IsTaskSuspended(t) {
      SuspendedMoves(s, t);
      MovedIsReady(s, t);
      MoveFields(s, t);
      MoveKeepsOthers(s, t);
      EventsValid(s);
      PendsExactly(s, t);
    }
    StaysItself(s, t);
  }

  lemma PendsExactly(s: Sched, t: Task)
    requires Stores.Valid(s.events) && PendingL in s.events.lists && t !in s.events.container
    ensures var r := s.(events := s.events.InsertEnd(PendingL, t));
      && (forall u, e :: r.events.In(u, e) <==> s.events.In(u, e) || (u == t && e == PendingL))
      && (forall u :: r.IsReady(u) <==> s.IsReady(u)) && OthersStay(s, r, t)
  {
    InsertEndKeeps(s.events, PendingL, t);
    hide Stores.Valid, Store.InsertEnd;
  }

  // ----- the tasks that are pending when the scheduler resumes -----

  lemma {:induction false} MovePendingExactly(s: Sched)
    requires Core(s.(suspended := 1)) && Ahead(s)
    ensures var r := s.MovePending();
      && (forall t :: r.IsReady(t) <==> s.IsReady(t) || t in s.Pending())
      && (r.yieldPending <==> s.yieldPending || exists t :: t in s.Pending() && s.Prio(s.current) <= s.Prio(t))
      && r.prio == s.prio && r.current == s.current
    decreases |s.Pending()|
  {
    hide Core, Ahead, Sched.MoveOnePending, Sched.Pending, Sched.MovePending, Sched.IsReady;
    MovePendingUnfolds(s);
    if s.Pending() != [] {
      var x, u := s.Pending()[0], s.MoveOnePending();
      MoveOnePendingKeeps(s);
      MoveOneExactly(s);
      MovePendingExactly(u);
      HeadOrTail(s.Pending(), u.Pending());
    }
  }

  lemma HeadOrTail(ts: seq<Task>, us: seq<Task>)
    requires ts != [] && us == ts[1..]
    ensures forall t :: t in ts <==> t == ts[0] || t in us
  {
  }

  lemma MovePendingUnfolds(s: Sched)
    requires Core(s.(suspended := 1)) && Ahead(s)
    ensures s.MovePending() == if s.Pending() == [] then s else s.MoveOnePending().MovePending()
  {
    if s.Pending() != [] { MoveOnePendingKeeps(s); }
    hide Core, Ahead, Sched.MoveOnePending, Sched.Pending;
  }

  lemma MoveOneExactly(s: Sched)
    requires Core(s.(suspended := 1)) && s.Pending() != []
    ensures var r, x := s.MoveOnePending(), s.Pending()[0];
      && r.Pending() == s.Pending()[1..] && r.prio == s.prio && r.current == s.current
      && (forall t :: r.IsReady(t) <==> t == x || s.IsReady(t))
      && (r.yieldPending <==> s.yieldPending || s.Prio(s.current) <= s.Prio(x))
  {
    hide *;
    var z, x := s.(suspended := 1), s.Pending()[0];
    var u := z.(events := z.events.Remove(x));
    PendingIs(s);
    PendingIs(z);
    PendingHead(z);
    PendingWaits(z, x);
    WaiterIsBlocked(z, x);
    LeaveEvents(z, x);
    EventsValid(z);
    RemoveKeeps(z.events, x);
    HeadGone(z.events, PendingL, x);
    MovedIsReady(u, x);
    MoveFields(u, x);
    MoveOneFields(s, x);
    ReadySame(z, u);
    ReadySame(s, z);
    ReadySame(u.MoveToReady(x), s.MoveOnePending());
    PendingIs(s.MoveOnePending());
  }

  lemma WaiterIsBlocked(s: Sched, t: Task)
    requires Core(s) && t in s.events.container
    ensures t in s.states.container && !s.states.In(t, TerminationL)
  {
    TaskFacts(s, t);
    hide Core;
  }

  lemma PendingIs(s: Sched)
    ensures s.Pending() == s.events.Items(PendingL)
  {
  }

  lemma PendingWaits(s: Sched, x: Task)
    requires s.events.In(x, PendingL)
    ensures x in s.events.container
  {
  }

  lemma MoveOneFields(s: Sched, x: Task)
    requires s.Pending() != [] && x == s.Pending()[0]
    ensures var r, u := s.MoveOnePending(), s.(suspended := 1, events := s.events.Remove(x)).MoveToReady(x);
      && r.states == u.states && r.events == s.events.Remove(x) && r.prio == s.prio && r.current == s.current
      && (r.yieldPending <==> s.yieldPending || s.Prio(s.current) <= s.Prio(x))
  {
    hide Store.Remove, Store.InsertEnd;
  }

  lemma ReadySame(s: Sched, r: Sched)
    requires r.states == s.states
    ensures forall t :: r.IsReady(t) <==> s.IsReady(t)
  {
  }

  lemma {:induction false} TicksKeepReady(s: Sched, n: nat, t: Task)
    requires Inv(s) && s.suspended == 0 && s.IsReady(t)
    ensures TickTimes(s, n).IsReady(t)
    decreases n
  {
    hide *;
    TickTimesStep(s, n);
    if n > 0 {
      TickKeepsReady(s);
      TickIsOneTick(s);
      TicksKeepReady(s.Tick(), n - 1, t);
    }
  }

  lemma TickKeepsReady(s: Sched)
    requires Inv(s) && s.suspended == 0
    ensures forall t :: s.IsReady(t) ==> s.Tick().IsReady(t)
  {
    hide *;
    AdvanceCounts(s);
    AdvanceReady(s);
    WakesAtLeastIs(s.Advance(), 0);
    TickIs(s, 0);
  }

  /** The state in which `xTaskResumeAll` begins to process the pended ticks. */
  function AfterPending(s: Sched): Sched {
    var r := s.(suspended := 0);
    if r.Pending() == [] then r else r.MovePending().ResetNext()
  }

  lemma AfterPendingIs(s: Sched)
    requires Inv(s) && s.suspended == 1
    ensures var m := AfterPending(s);
      && Inv(m) && m.suspended == 0 && m.prio == s.prio && m.current == s.current
      && (forall t :: m.IsReady(t) <==> s.IsReady(t) || s.events.In(t, PendingL))
      && (m.yieldPending <==> s.yieldPending || exists t :: s.events.In(t, PendingL) && s.Prio(s.current) <= s.Prio(t))
  {
    var r := s.(suspended := 0);
    InvCore(s);
    OutermostMove(s, r, AfterPending(s));
    assert r.(suspended := 1) == s;
    AheadSame(s, r);
    ListFacts(s);
    hide Inv, Core, Ahead, Sched.MovePending, Sched.ResetNext, Sched.Pending;
    PendingIs(r);
    PendingIs(s);
    MovePendingExactly(r);
    ReadySame(s, r);
    ResetNextFields(r.MovePending());
    ReadySame(r.MovePending(), r.MovePending().ResetNext());
  }

  /** Resuming the scheduler makes every pending task ready, and leaves ready whoever was. */
  lemma PendingBecomeReady(s: Sched, t: Task)
    requires Inv(s) && s.suspended == 1 && (s.events.In(t, PendingL) || s.IsReady(t))
    ensures s.ResumeAll().IsReady(t)
  {
    hide *;
    var m := AfterPending(s);
    AfterPendingIs(s);
    ResumeIsPended(s);
    TicksKeepReady(m, s.pended, t);
    RunPendedIsTicks(m, s.pended, false, 0);
    FlagsAside(m.RunPended(s.pended), TickTimes(m, s.pended));
    FlagsAside(m.RunPended(s.pended), s.ResumeAll());
  }

  ghost predicate Resumed(s: Sched, r: Sched) {
    r.pended == 0 && forall t :: s.events.In(t, PendingL) || s.IsReady(t) ==> r.IsReady(t)
  }

  /** A resume that is not the outermost only counts. */
  lemma InnerResume(s: Sched)
    requires Inv(s)
    ensures s.count > 0 && (s.suspended != 1 ==> Inv(s.ResumeAll()))
    ensures s.suspended == 0 ==> s.ResumeAll() == s
    ensures s.suspended > 1 ==> s.ResumeAll() == s.(suspended := s.suspended - 1)
  {
    CountPositive(s);
    ResumeAllKeeps(s);
    hide Inv, Sched.RunPended, Sched.MovePending, Sched.ResetNext, Sched.Pending;
  }

  /** After the outermost resume every pending task is ready and no tick is held back. */
  lemma ResumeReadies(s: Sched)
    requires Inv(s)
    ensures Inv(s.ResumeAll())
    ensures s.suspended == 1 ==> Resumed(s, s.ResumeAll())
  {
    ResumeAllKeeps(s);
    hide Inv, AfterPending, Sched.IsReady, Store.In, Sched.RunPended, Sched.MovePending, Sched.ResetNext, Sched.Pending;
    if s.suspended == 1 {
      ResumeIsPended(s);
      forall t | s.events.In(t, PendingL) || s.IsReady(t) ensures s.ResumeAll().IsReady(t) { PendingBecomeReady(s, t); }
    }
  }

  lemma ResumeIsPended(s: Sched)
    requires Inv(s) && s.suspended == 1
    ensures s.ResumeAll() == AfterPending(s).RunPended(s.pended).(pended := 0)
    ensures WithFlags(s.ResumeAll(), false, 0) == WithFlags(AfterPending(s).RunPended(s.pended), false, 0)
  {
    CountPositive(s);
    hide Inv, Sched.RunPended, Sched.MovePending, Sched.ResetNext, Sched.Pending;
  }

  /** A tick in state `s` calls for a switch: by a woken task, or by a time slice. */
  ghost predicate SwitchDue(s: Sched) {
    Shares(s.Tick(), s.Prio(s.current)) || exists t :: Readied(s, s.Tick(), t, s.Prio(s.current))
  }

  lemma SwitchDueIs(s: Sched)
    requires Inv(s) && s.suspended == 0
    ensures s.TickSwitches() <==> s.yieldPending || SwitchDue(s)
  {
    TickSwitchesExactly(s);
    hide Inv, Sched.TickSwitches, Sched.Tick, Shares, Readied;
  }

  lemma SwitchDueFlags(s: Sched, y: bool, k: nat)
    requires Inv(s) && s.suspended == 0
    ensures SwitchDue(WithFlags(s, y, k)) <==> SwitchDue(s)
  {
    var a := WithFlags(s, y, k);
    TickIgnoresFlags(s, y, k);
    SharesSame(s.Tick(), a.Tick(), s.Prio(s.current));
    ReadiedSameBoth(s, a, s.Tick(), a.Tick(), s.Prio(s.current));
    hide Inv, Shares, Readied, Sched.Tick;
  }

  lemma TickIgnoresFlags(s: Sched, y: bool, k: nat)
    requires Inv(s) && s.suspended == 0
    ensures var a := WithFlags(s, y, k); a.Tick().states == s.Tick().states && a.Tick().prio == s.Tick().prio
    ensures var a := WithFlags(s, y, k); a.states == s.states && a.prio == s.prio && a.current == s.current
  {
    hide *;
    TickTimesIgnoresFlags(s, 1, y, k);
    TickTimesStep(s, 1);
    TickTimesStep(s.Tick(), 0);
    TickTimesStep(WithFlags(s, y, k), 1);
    TickTimesStep(WithFlags(s, y, k).Tick(), 0);
    FlagFields(s, y, k);
    FlagFields(s.Tick(), y, k);
  }

  lemma FlagFields(s: Sched, y: bool, k: nat)
    ensures var a := WithFlags(s, y, k); a.states == s.states && a.prio == s.prio && a.current == s.current && a.yieldPending == y
  {
  }

  lemma SharesSame(s: Sched, r: Sched, p: nat)
    requires r.states == s.states && r.prio == s.prio
    ensures Shares(r, p) <==> Shares(s, p)
  {
    ReadySame(s, r);
    hide Sched.IsReady;
    if t, u :| t != u && s.IsReady(t) && s.IsReady(u) && s.Prio(t) == p == s.Prio(u) { assert r.IsReady(t) && r.IsReady(u) && r.Prio(t) == p == r.Prio(u); }
    if t, u :| t != u && r.IsReady(t) && r.IsReady(u) && r.Prio(t) == p == r.Prio(u) { assert s.IsReady(t) && s.IsReady(u) && s.Prio(t) == p == s.Prio(u); }
  }

  lemma ReadiedSameBoth(s: Sched, a: Sched, r: Sched, b: Sched, p: nat)
    requires a.states == s.states && a.prio == s.prio && b.states == r.states
    ensures (exists t :: Readied(s, r, t, p)) <==> exists t :: Readied(a, b, t, p)
  {
    ReadySame(s, a);
    ReadySame(r, b);
    hide Sched.IsReady;
    if t :| Readied(s, r, t, p) { assert Readied(a, b, t, p); }
    if t :| Readied(a, b, t, p) { assert Readied(s, r, t, p); }
  }

  /** Processing pended ticks leaves a yield pending exactly when one was or one of the ticks calls for it. */
  lemma {:induction false} RunPendedYields(s: Sched, n: nat)
    requires Inv(s) && s.suspended == 0
    ensures s.RunPended(n).yieldPending <==> s.yieldPending || exists i: nat :: i < n && SwitchDue(TickTimes(s, i))
    decreases n
  {
    hide *;
    RunPendedStep(s, n);
    if n > 0 {
      var y := s.yieldPending || s.TickSwitches();
      var u := WithFlags(s.Tick(), y, s.Tick().pended);
      TickIsOneTick(s);
      FlagFacts(s.Tick(), y, s.Tick().pended, false, 0);
      FlagFields(s.Tick(), y, s.Tick().pended);
      SwitchDueIs(s);
      RunPendedYields(u, n - 1);
      LaterDue(s, u, n, y);
    }
  }

  lemma LaterDue(s: Sched, u: Sched, n: nat, y: bool)
    requires Inv(s) && s.suspended == 0 && n > 0 && u == WithFlags(s.Tick(), y, s.Tick().pended)
    ensures (exists i: nat :: i < n && SwitchDue(TickTimes(s, i))) <==> SwitchDue(s) || exists i: nat :: i < n - 1 && SwitchDue(TickTimes(u, i))
  {
    hide *;
    TickTimesStep(s, 0);
    if i: nat :| i < n - 1 && SwitchDue(TickTimes(u, i)) {
      DueLater(s, u, i, y);
      assert i + 1 < n && SwitchDue(TickTimes(s, i + 1));
    }
    if i: nat :| i < n && SwitchDue(TickTimes(s, i)) {
      if i > 0 {
        DueLater(s, u, i - 1, y);
        assert i - 1 < n - 1 && SwitchDue(TickTimes(u, i - 1));
      }
    }
    if SwitchDue(s) { assert 0 < n && SwitchDue(TickTimes(s, 0)); }
  }

  lemma DueLater(s: Sched, u: Sched, i: nat, y: bool)
    requires Inv(s) && s.suspended == 0 && u == WithFlags(s.Tick(), y, s.Tick().pended)
    ensures SwitchDue(TickTimes(u, i)) <==> SwitchDue(TickTimes(s, i + 1))
  {
    hide *;
    TickIsOneTick(s);
    TickTimesStep(s, i + 1);
    TickTimesIgnoresFlags(s.Tick(), i, y, s.Tick().pended);
    TickTimesIsTicks(s.Tick(), i);
    SwitchDueFlags(TickTimes(s.Tick(), i), y, s.Tick().pended);
  }

  /**
   * Resuming the scheduler leaves a yield pending exactly when one was, or a pending task has at least
   * the running priority, or one of the ticks held back calls for a switch.
   */
  lemma ResumeAllYields(s: Sched)
    requires Inv(s) && s.suspended == 1
    ensures s.ResumeAll().yieldPending <==>
      || s.yieldPending
      || (exists t :: s.events.In(t, PendingL) && s.Prio(s.current) <= s.Prio(t))
      || (exists i: nat :: i < s.pended && SwitchDue(TickTimes(AfterPending(s), i)))
  {
    hide *;
    AfterPendingIs(s);
    RunPendedYields(AfterPending(s), s.pended);
    ResumeIsPended(s);
    PendedAside(AfterPending(s).RunPended(s.pended));
  }

  lemma PendedAside(s: Sched)
    ensures s.(pended := 0).yieldPending == s.yieldPending
  {
  }

  // ----- waking -----

  /** Waking a given waiter stores the value, takes it off its list, makes it ready, and asks for a yield exactly if it outranks. */
  lemma UnorderedWakes(s: Sched, t: Task, v: nat)
    requires Inv(s) && t in s.events.container
    ensures var r := s.RemoveFromUnorderedEventList(t, v);
      && r.IsReady(t) && t !in r.events.container && At(r.eventValue, t) == v
      && (r.yieldPending <==> s.yieldPending || s.Prio(s.current) < s.Prio(t))
      && (forall u :: r.IsReady(u) <==> u == t || s.IsReady(u)) && OthersStay(s, r, t)
  {
    hide *;
    var u := s.(eventValue := s.eventValue[t := v], events := s.events.Remove(t));
    InvCore(s);
    WaiterIsBlocked(s, t);
    AsideInv(s, s.(eventValue := s.eventValue[t := v]));
    InvCore(s.(eventValue := s.eventValue[t := v]));
    LeaveEvents(s.(eventValue := s.eventValue[t := v]), t);
    EventsValid(s);
    RemoveKeeps(s.events, t);
    MovedIsReady(u, t);
    MoveFields(u, t);
    UnorderedFields(s, t, v);
    ReadySame(s, u);
    ReadySame(u.MoveToReady(t), s.RemoveFromUnorderedEventList(t, v));
    StoreStays(s.events, t, PendingL, 0);
    StoreStays(s.states, t, ReadyL(u.Prio(t)), 0);
    StoreStays(s.states.Remove(t), t, ReadyL(u.Prio(t)), 0);
    PrioSame(s, s.RemoveFromUnorderedEventList(t, v));
    OthersStayIf(s, s.RemoveFromUnorderedEventList(t, v), t);
  }

  lemma PrioSame(s: Sched, r: Sched)
    requires r.prio == s.prio && r.base == s.base
    ensures forall u :: At(r.prio, u) == At(s.prio, u) && At(r.base, u) == At(s.base, u)
  {
  }

  lemma UnorderedFields(s: Sched, t: Task, v: nat)
    ensures var r, u := s.RemoveFromUnorderedEventList(t, v), s.(eventValue := s.eventValue[t := v], events := s.events.Remove(t));
      && r.states == u.MoveToReady(t).states && u.states == s.states && u.prio == s.prio && u.events == s.events.Remove(t)
      && r.events == s.events.Remove(t) && At(r.eventValue, t) == v && r.prio == s.prio && r.base == s.base
      && (r.yieldPending <==> s.yieldPending || s.Prio(s.current) < s.Prio(t))
  {
    hide Store.Remove, Store.InsertEnd;
  }

  /** Waking the first waiter asks for a yield exactly if it outranks the running task. */
  lemma FirstWaiterYields(s: Sched, e: nat)
    ensures var ws := s.events.Items(EventL(e));
      s.RemoveFromEventList(e).yieldPending <==> s.yieldPending || (ws != [] && s.Prio(s.current) < s.Prio(ws[0]))
  {
    hide Store.Remove, Store.InsertEnd, Store.Items;
  }

  lemma RemoveFromEventListIs(s: Sched, e: nat)
    requires s.events.Items(EventL(e)) != []
    ensures var t := s.events.Items(EventL(e))[0];
      var u := s.(events := s.events.Remove(t));
      var r := if u.suspended == 0 then u.MoveToReady(t) else u.(events := u.events.InsertEnd(PendingL, t));
      s.RemoveFromEventList(e) == if s.Prio(s.current) < s.Prio(t) then r.(yieldPending := true) else r
  {
    hide Store.Remove, Store.InsertEnd, Store.Items;
  }

  /** The first waiter is woken: it becomes ready, or pending while the scheduler is suspended, and no other task's readiness changes. */
  lemma FirstWaiterExactly(s: Sched, e: nat)
    requires Inv(s) && s.events.Items(EventL(e)) != []
    ensures var r, t := s.RemoveFromEventList(e), s.events.Items(EventL(e))[0];
      && r.events.Items(EventL(e)) == s.events.Items(EventL(e))[1..] && r.prio == s.prio
      && (forall u :: r.IsReady(u) <==> s.IsReady(u) || (u == t && s.suspended == 0))
      && (s.suspended == 0 ==> t !in r.events.container) && (s.suspended > 0 ==> r.events.In(t, PendingL))
      && (r.yieldPending <==> s.yieldPending || s.Prio(s.current) < s.Prio(t))
  {
    hide *;
    var r, t := s.RemoveFromEventList(e), s.events.Items(EventL(e))[0];
    FirstWaiterWakes(s, e);
    FirstWaiterYields(s, e);
    StaysReady(s, r, t);
    WakeStores(s, e, t);
    if s.suspended > 0 { ReadySame(s, r); }
    WaitsUnready(s, e, t);
  }

  lemma StaysReady(s: Sched, r: Sched, t: Task)
    requires OthersStay(s, r, t)
    ensures forall u :: u != t ==> (r.IsReady(u) <==> s.IsReady(u))
  {
    forall u | u != t ensures r.IsReady(u) <==> s.IsReady(u) {
      assert r.Prio(u) == s.Prio(u);
      if r.IsReady(u) { assert r.states.In(u, r.states.container[u]) && s.states.In(u, r.states.container[u]); }
      if s.IsReady(u) { assert s.states.In(u, s.states.container[u]) && r.states.In(u, s.states.container[u]); }
    }
  }

  lemma WaitsUnready(s: Sched, e: nat, t: Task)
    requires Inv(s) && t in s.events.Items(EventL(e))
    ensures !s.IsReady(t)
  {
    InvCore(s);
    ListFacts(s);
    TaskFacts(s, t);
    hide Inv, Core, Store.Items;
  }

  // ----- choosing the task to run -----

  /** A context switch runs a task of the highest ready priority; while the scheduler is suspended it only leaves a yield pending. */
  lemma SwitchRunsForemost(s: Sched)
    requires Inv(s)
    ensures var r := s.SwitchContext();
      if s.suspended > 0 then r == s.(yieldPending := true) else
        && Foremost(r, r.current) && !r.yieldPending && r.prio == s.prio && forall t :: r.IsReady(t) <==> s.IsReady(t)
  {
    hide *;
    SwitchYields(s);
    if s.suspended == 0 {
      var p := s.HighestReady(s.top);
      SwitchTakesTurn(s);
      InvCore(s);
      ForemostIs(s, p);
      ReadyListIs(s, p);
      SelectedIn(s.states.lists[ReadyL(p)]);
      ItemsOf(s.states, ReadyL(p));
      SwitchSame(s);
      ForemostSame(s, s.SwitchContext(), s.SwitchContext().current);
    }
  }

  lemma ForemostSame(s: Sched, r: Sched, t: Task)
    requires Foremost(s, t) && r.prio == s.prio && forall u :: r.IsReady(u) <==> s.IsReady(u)
    ensures Foremost(r, t)
  {
    hide Sched.IsReady;
  }

  lemma SelectedIn<T>(r: Ring<T>)
    requires r.items != [] && r.Valid()
    ensures r.Selected() in r.items
  {
  }

  lemma ItemsOf<L, T>(s: Store<L, T>, l: L)
    requires l in s.lists
    ensures s.Items(l) == s.lists[l].items
  {
  }

  lemma SwitchYields(s: Sched)
    ensures s.suspended > 0 ==> s.SwitchContext() == s.(yieldPending := true)
    ensures s.suspended == 0 ==> !s.SwitchContext().yieldPending
  {
    hide Sched.HighestReady, Store.Next, Store.Items, Ring.Selected;
  }

  // ----- tasks that deleted themselves -----

  function ReapTimes(s: Sched, n: nat): Sched
    decreases n
  {
    if n == 0 then s else ReapTimes(s.Reap(), n - 1)
  }

  /** The idle task frees exactly the tasks that deleted themselves. */
  lemma {:induction false} ReapsAll(s: Sched)
    requires Inv(s) && !s.states.In(s.current, TerminationL)
    ensures var r := ReapTimes(s, s.deleted);
      forall t, l :: r.states.In(t, l) <==> s.states.In(t, l) && l != TerminationL
    decreases s.deleted
  {
    hide *;
    ReapTimesIs(s, s.deleted);
    TerminationTasks(s);
    if s.deleted > 0 {
      ReapOne(s);
      ReapKeeps(s);
      ReapsAll(s.Reap());
    }
  }

  lemma ReapTimesIs(s: Sched, n: nat)
    ensures ReapTimes(s, n) == if n == 0 then s else ReapTimes(s.Reap(), n - 1)
  {
  }

  lemma TerminationTasks(s: Sched)
    requires Inv(s)
    ensures s.deleted == 0 ==> forall t :: !s.states.In(t, TerminationL)
    ensures s.deleted > 0 <==> s.states.Items(TerminationL) != []
    ensures s.states.Items(TerminationL) != [] ==> s.states.In(s.states.Items(TerminationL)[0], TerminationL)
  {
    InvCore(s);
    ListFacts(s);
    assert s.deleted == |s.states.Items(TerminationL)| by { hide Structured, ReadyOk, EventsOk, DelaysSorted, Store.Items; }
    hide Inv, Core, Store.Items, Store.In;
  }

  lemma ReapOne(s: Sched)
    requires Inv(s) && s.deleted > 0 && s.states.Items(TerminationL) != []
    requires s.states.In(s.states.Items(TerminationL)[0], TerminationL)
    ensures var r, x := s.Reap(), s.states.Items(TerminationL)[0];
      && r.deleted == s.deleted - 1 && r.current == s.current
      && (forall l :: s.states.In(x, l) ==> l == TerminationL)
      && forall t, l :: r.states.In(t, l) <==> s.states.In(t, l) && t != x
  {
    var x := s.states.Items(TerminationL)[0];
    InvCore(s);
    StoresValid(s);
    RemoveKeeps(s.states, x);
    hide Inv, Core, Store.Items, Store.Remove, Stores.Valid;
  }

  // ----- values in use -----

  /** The largest legal priority that does not exceed `p`. */
  lemma ClampIs(p: nat, priorities: nat)
    requires priorities > 0
    ensures var q := Clamp(p, priorities); q < priorities && q <= p && (q == p || q == priorities - 1)
  {
  }

  /** The item value of a priority is its complement, from configMAX_PRIORITIES down. */
  lemma EventValueIs(p: nat, priorities: nat)
    requires p < priorities
    ensures EventValue(p, priorities) + p == priorities
  {
  }

  /** A value that an event group uses survives a change of the task's priority. */
  lemma InUseKept(s: Sched, t: Task, p: nat)
    requires At(s.eventValue, t) >= s.inUse
    ensures At(s.PrioritySet(t, p).eventValue, t) == At(s.eventValue, t) == At(s.Inherit(t).eventValue, t)
  {
    hide Sched.Reprioritise, Clamp, EventValue, Sched.PrioritySet;
    PrioritySetIs(s, t, p);
    var q := Clamp(p, s.priorities);
    RepriEvents(s.(base := s.base[t := q]).SetEventValue(t, q), t, if At(s.base, t) == s.Prio(t) then q else s.Prio(t));
    RepriEvents(s.SetEventValue(t, s.Prio(s.current)), t, s.Prio(s.current));
  }

  // ----- queueing up -----

  /** The line of a ready list after `t` has joined it: at the back, or just before the task whose turn it was last. */
  function Joined(r: Ring<Task>, t: Task): seq<Task>
    requires r.index <= |r.items|
  {
    var u := r.Upcoming();
    if r.index == 0 then u + [t] else u[..|u| - 1] + [t] + u[|u| - 1..]
  }

  /** A task in no list that is made ready joins the line of its priority. */
  lemma JoinsTheLine(s: Sched, t: Task)
    requires Structured(s.states, s.priorities) && s.Prio(t) < s.priorities && t !in s.states.container
    ensures var l := ReadyL(s.Prio(t));
      && l in s.states.lists && s.states.lists[l].Valid() && l in s.AddToReady(t).states.lists
      && s.AddToReady(t).states.lists[l].Valid() && s.AddToReady(t).states.lists[l].Upcoming() == Joined(s.states.lists[l], t)
  {
    var l := ReadyL(s.Prio(t));
    ReadyRing(s, t);
    AddsToRing(s, t);
    InsertEndJoinsLine(s.states.lists[l], t);
    hide Structured, Sched.AddToReady, Ring.InsertEnd, Ring.Upcoming;
  }

  lemma ReadyRing(s: Sched, t: Task)
    requires Structured(s.states, s.priorities) && s.Prio(t) < s.priorities && t !in s.states.container
    ensures ReadyL(s.Prio(t)) in s.states.lists
    ensures var r := s.states.lists[ReadyL(s.Prio(t))]; r.Valid() && t !in r.items
  {
    hide Ring.Valid, Store.Linked;
  }

  lemma AddsToRing(s: Sched, t: Task)
    requires ReadyL(s.Prio(t)) in s.states.lists && s.states.lists[ReadyL(s.Prio(t))].Valid()
    ensures s.AddToReady(t).states.lists == s.states.lists[ReadyL(s.Prio(t)) := s.states.lists[ReadyL(s.Prio(t))].InsertEnd(t)]
  {
    hide Ring.InsertAt;
  }

  /** Whatever list a task comes from, becoming ready puts it into the line of its priority. */
  lemma ReadyJoinsTheLine(s: Sched, t: Task)
    requires Structured(s.states, s.priorities) && s.Prio(t) < s.priorities && t in s.states.container
    ensures var l, rest, r := ReadyL(s.Prio(t)), s.states.Remove(t), s.MoveToReady(t);
      && l in rest.lists && rest.lists[l].Valid() && l in r.states.lists && r.states.lists[l].Valid()
      && r.states.lists[l].Upcoming() == Joined(rest.lists[l], t)
  {
    var u := s.(states := s.states.Remove(t));
    RemoveKeeps(s.states, t);
    RemovedStructured(s.states, t, s.priorities);
    hide Structured, Sched.AddToReady, Store.Remove, Joined, Ring.Upcoming, Ring.Valid;
    JoinsTheLine(u, t);
  }

  lemma RemovedStructured(s: States, t: Task, priorities: nat)
    requires Structured(s, priorities) && t in s.container
    ensures Structured(s.Remove(t), priorities) && t !in s.Remove(t).container
  {
    RemoveKeeps(s, t);
    hide Store.Remove, Stores.Valid;
  }

  /** A ready task whose priority is set joins the line of the new priority, even if that is the old one. */
  lemma RefiledInLine(s: Sched, t: Task, p: nat)
    requires Inv(s) && s.IsReady(t) && p < s.priorities
    ensures var l, rest, r := ReadyL(p), s.states.Remove(t), s.Reprioritise(t, p);
      && l in rest.lists && rest.lists[l].Valid() && l in r.states.lists && r.states.lists[l].Valid()
      && r.states.lists[l].Upcoming() == Joined(rest.lists[l], t) && r.Prio(t) == p
  {
    var u := s.(prio := s.prio[t := p]);
    InvCore(s);
    TaskFacts(s, t);
    ReadyIsIn(s, t);
    hide Inv, Core, Structured, Joined, Sched.MoveToReady, Store.Remove, Store.In, Ring.Upcoming, Ring.Valid;
    ReadyJoinsTheLine(u, t);
    MoveFields(u, t);
  }

  lemma ReadyIsIn(s: Sched, t: Task)
    requires Inv(s) && s.IsReady(t)
    ensures t in s.states.container && Structured(s.states, s.priorities)
  {
  }

  // ----- the cached time of the next wake -----

  /** The cached time is the least wake value of the current delayed list, or the last value if the list is empty. */
  ghost predicate NextIsEarliest(s: Sched) {
    && (forall t :: s.states.In(t, DelayedL(s.delayed)) ==> s.next <= At(s.value, t))
    && (s.next == s.MaxDelay() || exists t :: s.states.In(t, DelayedL(s.delayed)) && s.next == At(s.value, t))
  }

  lemma ResetIsEarliest(s: Sched)
    requires Inv(s) && s.ResetNext() == s
    ensures NextIsEarliest(s)
  {
    var ts := s.Delayed();
    InvCore(s);
    ListFacts(s);
    DelayedByValue(s);
    assert forall t :: t in ts <==> s.states.In(t, DelayedL(s.delayed));
    hide Inv, Core, Store.Items, Store.In;
    if ts != [] { assert ts[0] in ts; }
  }

  lemma DelayedByValue(s: Sched)
    requires Inv(s)
    ensures ByValue(s.Delayed(), s.value)
  {
    hide Structured, ReadyOk, EventsOk, Counted, DelaysAhead, ByValue;
  }

  lemma LiveIs(s: Sched, t: Task)
    ensures Live(s, t) <==> t in s.states.container && !s.states.In(t, TerminationL)
  {
  }

  lemma ResetAgain(s: Sched)
    ensures s.ResetNext().ResetNext() == s.ResetNext()
  {
    hide Store.Items;
  }

  lemma ResetsLast(s: Sched, t: Task)
    ensures s.Suspend(t).ResetNext() == s.Suspend(t)
    ensures t != s.current ==> s.Delete(t).ResetNext() == s.Delete(t)
  {
    var u := s.(states := s.states.Remove(t), events := s.events.Remove(t));
    hide Sched.ResetNext, Store.Remove, Store.InsertEnd;
    ResetAgain(u.(states := u.states.InsertEnd(SuspendedL, t)));
    ResetAgain(u.(count := if u.count > 0 then u.count - 1 else 0));
  }

  lemma {:induction false} WakeDueResets(s: Sched)
    requires Core(s)
    ensures s.WakeDue().ResetNext() == s.WakeDue()
    decreases |s.Delayed()|
  {
    hide Core, Sched.WakeFirst, Store.Items;
    if s.Delayed() != [] && At(s.value, s.Delayed()[0]) <= s.tick {
      WakeFirstKeeps(s);
      WakeDueResets(s.WakeFirst());
    }
  }

  /** So does a tick that finds the cached time reached, and the resume that readies pending tasks. */
  lemma TickNextExact(s: Sched)
    requires Inv(s)
    ensures s.suspended == 0 && s.Advance().next <= s.Advance().tick ==> NextIsEarliest(s.Tick())
    ensures s.suspended == 1 && s.Pending() != [] ==> NextIsEarliest(AfterPending(s))
  {
    hide *;
    if s.suspended == 0 {
      AdvanceCounts(s);
      TickIsOneTick(s);
      TickIs(s, 0);
      if s.Advance().next <= s.Advance().tick {
        WakeDueResets(s.Advance());
        ResetIsEarliest(s.Tick());
      }
    } else if s.suspended == 1 && s.Pending() != [] {
      AfterPendingIs(s);
      AfterPendingResets(s);
      ResetIsEarliest(AfterPending(s));
    }
  }

  lemma AfterPendingResets(s: Sched)
    requires s.Pending() != []
    ensures AfterPending(s).ResetNext() == AfterPending(s)
  {
    PendingIs(s);
    PendingIs(s.(suspended := 0));
    ResetAgain(s.(suspended := 0).MovePending());
    hide Sched.MovePending, Sched.ResetNext, Sched.Pending;
  }

  /** Deleting another task and suspending any task leave the cached time exact. */
  lemma LeavesNextExact(s: Sched, t: Task)
    requires Inv(s) && Live(s, t) && t != s.idle
    ensures t != s.current ==> NextIsEarliest(s.Delete(t))
    ensures NextIsEarliest(s.Suspend(t))
  {
    hide *;
    LiveIs(s, t);
    DeleteKeeps(s, t);
    SuspendKeeps(s, t);
    ResetsLast(s, t);
    if t != s.current { ResetIsEarliest(s.Delete(t)); }
    ResetIsEarliest(s.Suspend(t));
  }
}
