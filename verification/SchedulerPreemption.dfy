/** Preemption: whenever a ready task comes to outrank the running one, a switch is asked for. */
module SchedulerPreemption {
  import opened Rings
  import opened Stores
  import opened Clock
  import opened Timeline
  import opened TwoLists
  import opened Scheduler
  import opened SchedulerInvariant
  import opened SchedulerTicks
  import opened SchedulerResume
  import opened SchedulerRuns

  /** The running task is ready and no ready task outranks it. */
  ghost predicate RunsHighest(s: Sched) {
    s.IsReady(s.current) && forall t :: s.IsReady(t) ==> s.Prio(t) <= s.Prio(s.current)
  }

  /** The code asks for a switch, by its result, by a yield before it returns, or by leaving one pending. */
  predicate AsksToSwitch(s: Sched, step: Step) {
    match step
    case Create(t, p) => s.Prio(s.current) < Clamp(p, s.priorities)
    case Delete(t) => t == s.current
    case Reap => false
    case Suspend(t) => t == s.current
    case Resume(t) => t != s.current && s.IsTaskSuspended(t) && s.Prio(s.current) <= s.Prio(t)
    case ResumeFromISR(t) => s.suspended == 0 && s.IsTaskSuspended(t) && s.Prio(s.current) <= s.Prio(t)
    case PrioritySet(t, p) => PrioritySetYields(s, t, p)
    case Inherit(t) => false
    case Disinherit(t) => s.Prio(t) != At(s.base, t) && At(s.held, t) <= 1
    case IncrementHeld => false
    case ResetEventItemValue => false
    case Delay(wait) => true
    case PlaceOnEventList(e, wait) => true
    case PlaceOnUnorderedEventList(e, v, wait) => true
    case PlaceOnEventListRestricted(e, wait, forever) => true
    case RemoveFromEventList(e) => s.events.Items(EventL(e)) != [] && s.Prio(s.current) < s.Prio(s.events.Items(EventL(e))[0])
    case RemoveFromUnorderedEventList(t, v) => s.Prio(s.current) < s.Prio(t)
    case Tick => s.TickSwitches()
    case SuspendAll => false
    case ResumeAll => s.suspended == 1 && s.ResumeAll().yieldPending
    case SwitchContext => false
  }

  /** When `vTaskPrioritySet` asks for a yield. */
  predicate PrioritySetYields(s: Sched, t: Task, p: nat) {
    var q, base := Clamp(p, s.priorities), At(s.base, t);
    if base < q then t != s.current && s.Prio(s.current) <= q else q < base && t == s.current
  }

  lemma SameRuns(s: Sched, r: Sched)
    requires RunsHighest(s) && r.current == s.current && r.prio == s.prio && r.states.container == s.states.container
    ensures RunsHighest(r)
  {
    assert forall t :: r.IsReady(t) <==> s.IsReady(t);
  }

  /** The priority of one task changes, and nobody's readiness. */
  lemma ChangedRuns(s: Sched, r: Sched, t: Task, q: nat)
    requires RunsHighest(s) && r.current == s.current && r.prio == s.prio[t := q] && forall u :: r.IsReady(u) <==> s.IsReady(u)
    requires if t == s.current then s.Prio(t) <= q else q <= s.Prio(s.current) || !s.IsReady(t)
    ensures RunsHighest(r)
  {
  }

  lemma MovedIsReady(s: Sched, x: Task)
    requires Core(s) && x in s.states.container && x !in s.events.container && !s.states.In(x, TerminationL)
    ensures forall t :: s.MoveToReady(x).IsReady(t) <==> t == x || s.IsReady(t)
    ensures s.MoveToReady(x).prio == s.prio && s.MoveToReady(x).current == s.current
  {
    MoveToReadyKeeps(s, x);
    hide Core, Store.Remove, Store.InsertEnd;
  }

  lemma ResumeRuns(s: Sched, x: Task)
    requires Core(s) && RunsHighest(s) && s.IsTaskSuspended(x) && s.Prio(x) < s.Prio(s.current)
    ensures RunsHighest(s.MoveToReady(x))
  {
    MovedIsReady(s, x);
    hide Core, Sched.MoveToReady;
  }

  /** Removing an event item changes nobody's state. */
  lemma EventsAside(s: Sched, e: Events)
    ensures s.(events := e).prio == s.prio && s.(events := e).current == s.current
    ensures forall t :: s.(events := e).IsReady(t) <==> s.IsReady(t)
  {
  }

  lemma WokenRuns(s: Sched, x: Task)
    requires Core(s) && RunsHighest(s) && x in s.events.container && s.Prio(x) <= s.Prio(s.current)
    ensures RunsHighest(s.(events := s.events.Remove(x)).MoveToReady(x))
  {
    var u := s.(events := s.events.Remove(x));
    TaskFacts(s, x);
    LeaveEvents(s, x);
    EventsAside(s, s.events.Remove(x));
    MovedIsReady(u, x);
    hide Core, Store.Remove, Sched.MoveToReady;
  }

  lemma CreateRuns(s: Sched, t: Task, p: nat)
    requires Inv(s) && RunsHighest(s) && t !in s.states.container && Clamp(p, s.priorities) <= s.Prio(s.current)
    ensures RunsHighest(s.Create(t, p))
  {
    InvCore(s);
    StateLists(s);
    TaskFacts(s, s.current);
    CreateIs(s, t, p);
    hide Inv, Core, Sched.Create;
  }

  lemma CreateIs(s: Sched, t: Task, p: nat)
    requires Core(s) && t !in s.states.container
    ensures var r := s.Create(t, p);
      && r.current == s.current && (forall u :: r.Prio(u) == if u == t then Clamp(p, s.priorities) else s.Prio(u))
      && (forall u :: r.IsReady(u) <==> u == t || s.IsReady(u))
  {
    StateLists(s);
    TaskFacts(s, s.current);
    InsertEndKeeps(s.states, ReadyL(Clamp(p, s.priorities)), t);
    hide Core, Store.InsertEnd;
  }

  lemma ReprioritiseIs(s: Sched, t: Task, q: nat)
    requires Inv(s) && t in s.states.container && q < s.priorities
    ensures var r := s.Reprioritise(t, q);
      && r.current == s.current && r.prio == s.prio[t := q] && forall u :: r.IsReady(u) <==> s.IsReady(u)
  {
    InvCore(s);
    TaskFacts(s, t);
    hide Inv, Core, Sched.MoveToReady;
    if s.states.In(t, ReadyL(s.Prio(t))) {
      RepriMoves(s, t, q);
    }
  }

  lemma RepriMoves(s: Sched, t: Task, q: nat)
    requires Core(s) && s.states.In(t, ReadyL(s.Prio(t))) && q < s.priorities
    ensures var r := s.(prio := s.prio[t := q]).MoveToReady(t);
      && r.current == s.current && r.prio == s.prio[t := q] && forall u :: r.IsReady(u) <==> s.IsReady(u)
  {
    StateLists(s);
    RemoveKeeps(s.states, t);
    InsertEndKeeps(s.states.Remove(t), ReadyL(q), t);
    hide Core, Store.Remove, Store.InsertEnd;
  }

  lemma PrioritySetRuns(s: Sched, t: Task, p: nat)
    requires Inv(s) && RunsHighest(s) && t in s.states.container && !PrioritySetYields(s, t, p)
    ensures RunsHighest(s.PrioritySet(t, p))
  {
    hide Inv, Core, RunsHighest, Sched.Reprioritise, Sched.PrioritySet, Sched.SetEventValue, Sched.IsReady, Ahead;
    var q := Clamp(p, s.priorities);
    InvCore(s);
    TaskFacts(s, t);
    PrioritySetIs(s, t, p);
    if At(s.base, t) != q {
      var u, used := s.(base := s.base[t := q]).SetEventValue(t, q), if At(s.base, t) == s.Prio(t) then q else s.Prio(t);
      BaseAside(s, t, q);
      SameRuns(s, u);
      Outranked(s, t);
      ReprioritiseIs(u, t, used);
      ChangedOrSame(s, u, u.Reprioritise(t, used), t, used);
    }
  }

  lemma Outranked(s: Sched, t: Task)
    requires RunsHighest(s)
    ensures s.IsReady(t) ==> s.Prio(t) <= s.Prio(s.current)
  {
  }

  lemma PrioritySetIs(s: Sched, t: Task, p: nat)
    ensures var q := Clamp(p, s.priorities);
      s.PrioritySet(t, p) == if At(s.base, t) == q then s else
        s.(base := s.base[t := q]).SetEventValue(t, q).Reprioritise(t, if At(s.base, t) == s.Prio(t) then q else s.Prio(t))
  {
    hide Sched.Reprioritise, Sched.SetEventValue, Clamp;
  }

  lemma ChangedOrSame(s: Sched, u: Sched, r: Sched, t: Task, q: nat)
    requires RunsHighest(u) && u.prio == s.prio && u.states == s.states && u.current == s.current
    requires r.current == u.current && r.prio == u.prio[t := q] && forall v :: r.IsReady(v) <==> u.IsReady(v)
    requires q == s.Prio(t) || if t == s.current then s.Prio(t) <= q else q <= s.Prio(s.current) || !s.IsReady(t)
    ensures RunsHighest(r)
  {
    if q == s.Prio(t) { assert forall v :: r.Prio(v) == u.Prio(v); } else { ChangedRuns(u, r, t, q); }
  }

  lemma BaseAside(s: Sched, t: Task, q: nat)
    requires Inv(s) && q < s.priorities
    ensures var u := s.(base := s.base[t := q]).SetEventValue(t, q);
      Inv(u) && u.prio == s.prio && u.states == s.states && u.current == s.current && u.priorities == s.priorities
  {
    hide Structured, ReadyOk, EventsOk, DelaysSorted, Counted, DelaysAhead;
  }

  lemma InheritRuns(s: Sched, t: Task)
    requires Inv(s) && RunsHighest(s) && t in s.states.container
    ensures RunsHighest(s.Inherit(t))
  {
    InvCore(s);
    TaskFacts(s, s.current);
    ValueAside(s, t);
    hide Inv, Core, Sched.Reprioritise, Sched.SetEventValue;
    if s.Prio(t) < s.Prio(s.current) {
      var u := s.SetEventValue(t, s.Prio(s.current));
      SameRuns(s, u);
      hide RunsHighest;
      ReprioritiseIs(u, t, s.Prio(s.current));
      ChangedOrSame(s, u, u.Reprioritise(t, s.Prio(s.current)), t, s.Prio(s.current));
    }
  }

  lemma ValueAside(s: Sched, t: Task)
    requires Inv(s)
    ensures var u := s.SetEventValue(t, s.Prio(s.current));
      Inv(u) && u.prio == s.prio && u.states == s.states && u.current == s.current && u.priorities == s.priorities
  {
    hide Structured, ReadyOk, EventsOk, DelaysSorted, Counted, DelaysAhead;
  }

  // ----- ticks -----

  /** The tick handler wakes tasks below the running one only, unless it says so. */
  lemma {:induction false} WakeDueRuns(s: Sched)
    requires Core(s) && RunsHighest(s) && !s.WakesAtLeast(s.Prio(s.current))
    ensures RunsHighest(s.WakeDue()) && s.WakeDue().current == s.current
    decreases |s.Delayed()|
  {
    hide Core, Sched.WakeFirst, RunsHighest;
    if s.Delayed() != [] && At(s.value, s.Delayed()[0]) <= s.tick {
      WakeFirstKeeps(s);
      WakeFirstRuns(s);
      WakeDueRuns(s.WakeFirst());
    } else {
      SameRuns(s, s.WakeDue());
    }
    hide Sched.Delayed;
  }

  lemma WakeFirstRuns(s: Sched)
    requires Core(s) && RunsHighest(s) && s.Delayed() != [] && s.Prio(s.Delayed()[0]) < s.Prio(s.current)
    ensures RunsHighest(s.WakeFirst()) && s.WakeFirst().current == s.current && s.WakeFirst().prio == s.prio
  {
    var x := s.Delayed()[0];
    ListFacts(s);
    assert x in s.states.Items(DelayedL(s.delayed));
    LeaveEvents(s, x);
    EventsAside(s, s.events.Remove(x));
    MovedIsReady(s.(events := s.events.Remove(x)), x);
    hide Core, Store.Remove, Sched.MoveToReady, Store.Items;
  }

  lemma AdvanceAside(s: Sched)
    requires RunsHighest(s)
    ensures RunsHighest(s.Advance()) && s.Advance().current == s.current && s.Advance().prio == s.prio
  {
    SameRuns(s, s.Advance());
    hide RunsHighest;
  }

  lemma TickRuns(s: Sched)
    requires Inv(s) && RunsHighest(s) && !s.TickSwitches()
    ensures RunsHighest(s.Tick()) && s.Tick().current == s.current
  {
    hide Inv, Core, Sched.Advance, Sched.WakeDue, Sched.WakesAtLeast, Store.Items, RunsHighest;
    if s.suspended > 0 {
      SameRuns(s, s.Tick());
    } else {
      AdvanceCounts(s);
      AdvanceAside(s);
      if s.Advance().next <= s.Advance().tick { WakeDueRuns(s.Advance()); }
    }
  }

  // ----- resuming -----

  /** A yield once pending stays pending until the next switch. */
  lemma {:induction false} PendingYieldStays(s: Sched, n: nat)
    requires s.yieldPending
    ensures s.RunPended(n).yieldPending
    decreases n
  {
    hide Sched.Tick, Sched.TickSwitches;
    if n > 0 { PendingYieldStays(WithFlags(s.Tick(), true, s.Tick().pended), n - 1); }
  }

  lemma {:induction false} RunPendedRuns(s: Sched, n: nat)
    requires Inv(s) && s.suspended == 0 && RunsHighest(s) && !s.RunPended(n).yieldPending
    ensures RunsHighest(s.RunPended(n))
    decreases n
  {
    hide Inv, Sched.Tick, Sched.TickSwitches, RunsHighest;
    RunPendedStep(s, n);
    if n > 0 {
      var u := WithFlags(s.Tick(), s.yieldPending || s.TickSwitches(), s.Tick().pended);
      if u.yieldPending { PendingYieldStays(u, n - 1); }
      TickRuns(s);
      TickIsOneTick(s);
      FlagFacts(s.Tick(), u.yieldPending, s.Tick().pended, false, 0);
      FlagsRun(s.Tick(), u.yieldPending, s.Tick().pended);
      RunPendedRuns(u, n - 1);
    }
  }

  lemma FlagsRun(s: Sched, y: bool, n: nat)
    ensures RunsHighest(WithFlags(s, y, n)) <==> RunsHighest(s)
  {
    if RunsHighest(s) { SameRuns(s, WithFlags(s, y, n)); }
    if RunsHighest(WithFlags(s, y, n)) { SameRuns(WithFlags(s, y, n), s); }
    hide RunsHighest;
  }

  lemma MoveOneRuns(s: Sched)
    requires Core(s.(suspended := 1)) && Ahead(s) && s.Pending() != [] && RunsHighest(s) && !s.MoveOnePending().yieldPending
    ensures RunsHighest(s.MoveOnePending())
  {
    var z, x := s.(suspended := 1), s.Pending()[0];
    PendingHead(z);
    SameRuns(s, z);
    hide Core, Ahead, RunsHighest;
    WokenRuns(z, x);
    MoveOneIs(s, z, x);
    SameRuns(z.(events := z.events.Remove(x)).MoveToReady(x), s.MoveOnePending());
    hide Sched.MoveOnePending, Sched.MoveToReady;
  }

  lemma MoveOneIs(s: Sched, z: Sched, x: Task)
    requires z == s.(suspended := 1) && s.Pending() != [] && x == s.Pending()[0]
    ensures var a, b := s.MoveOnePending(), z.(events := z.events.Remove(x)).MoveToReady(x);
      && a.current == b.current && a.prio == b.prio && a.states == b.states
      && (!a.yieldPending ==> s.Prio(x) <= s.Prio(s.current)) && (s.yieldPending ==> a.yieldPending)
  {
    hide Store.Remove, Store.InsertEnd;
  }

  lemma {:induction false} MovePendingRuns(s: Sched)
    requires Core(s.(suspended := 1)) && Ahead(s) && RunsHighest(s) && !s.MovePending().yieldPending
    ensures RunsHighest(s.MovePending())
    decreases |s.Pending()|
  {
    hide Core, Ahead, Sched.MoveOnePending, RunsHighest;
    if s.Pending() != [] {
      MoveOnePendingKeeps(s);
      if s.MoveOnePending().yieldPending { YieldMoves(s.MoveOnePending()); }
      MoveOneRuns(s);
      MovePendingRuns(s.MoveOnePending());
    }
  }

  lemma {:induction false} YieldMoves(s: Sched)
    requires s.yieldPending
    ensures s.MovePending().yieldPending
    decreases |s.Pending()|
  {
    if s.Pending() != [] {
      MoveOneIs(s, s.(suspended := 1), s.Pending()[0]);
      hide Sched.MoveOnePending;
      if |s.MoveOnePending().Pending()| < |s.Pending()| { YieldMoves(s.MoveOnePending()); }
    }
    hide Sched.MoveOnePending;
  }

  lemma ResumeAllRuns(s: Sched)
    requires Inv(s) && RunsHighest(s) && s.suspended == 1 && !s.ResumeAll().yieldPending
    ensures RunsHighest(s.ResumeAll())
  {
    var r := s.(suspended := 0);
    var m := if r.Pending() == [] then r else r.MovePending().ResetNext();
    ResumeEnds(s, r, m);
    InvCore(s);
    assert r.(suspended := 1) == s;
    SameRuns(s, r);
    hide *;
    OutermostMove(s, r, m);
    if m.yieldPending { PendingYieldStays(m, s.pended); }
    MovedRuns(s, r, m);
    RunPendedRuns(m, s.pended);
    SameRuns(m.RunPended(s.pended), s.ResumeAll());
  }

  lemma MovedRuns(s: Sched, r: Sched, m: Sched)
    requires Core(s) && Ahead(s) && s.suspended == 1 && r == s.(suspended := 0) && RunsHighest(r) && !m.yieldPending
    requires m == if r.Pending() == [] then r else r.MovePending().ResetNext()
    ensures RunsHighest(m)
  {
    hide Core, RunsHighest, Sched.MovePending;
    assert r.(suspended := 1) == s;
    if r.Pending() != [] {
      MovePendingRuns(r);
      SameRuns(r.MovePending(), m);
    }
  }

  lemma ResumeEnds(s: Sched, r: Sched, m: Sched)
    requires Inv(s) && s.suspended == 1 && r == s.(suspended := 0)
    requires m == if r.Pending() == [] then r else r.MovePending().ResetNext()
    ensures var u, v := s.ResumeAll(), m.RunPended(s.pended);
      && u.current == v.current && u.prio == v.prio && u.states == v.states && u.yieldPending == v.yieldPending
  {
    CountPositive(s);
    hide Inv, Sched.RunPended, Sched.MovePending, Sched.ResetNext, Sched.Pending;
  }

  // ----- the other steps -----

  lemma DeleteRuns(s: Sched, x: Task)
    requires RunsHighest(s) && x != s.current
    ensures RunsHighest(s.Delete(x))
  {
    var r := s.Delete(x);
    DeleteIsFor(s, x);
    FewerRun(s, r, x);
    hide Sched.Delete;
  }

  lemma DeleteIsFor(s: Sched, x: Task)
    requires x != s.current
    ensures var r := s.Delete(x); r.states == s.states.Remove(x) && r.prio == s.prio && r.current == s.current
    ensures var r := s.Suspend(x); r.states == s.states.Remove(x).InsertEnd(SuspendedL, x) && r.prio == s.prio && r.current == s.current
  {
    hide Store.Remove, Store.InsertEnd, Store.Items;
  }

  /** A task other than the running one stops being ready, if it was. */
  lemma FewerRun(s: Sched, r: Sched, x: Task)
    requires RunsHighest(s) && x != s.current && r.prio == s.prio && r.current == s.current
    requires r.states == s.states.Remove(x) || r.states == s.states.Remove(x).InsertEnd(SuspendedL, x)
    ensures RunsHighest(r)
  {
    forall t ensures t != x ==> (r.IsReady(t) <==> s.IsReady(t)) {
      if t != x {
        Others(s.states, t, x, SuspendedL, 0);
        Others(s.states.Remove(x), t, x, SuspendedL, 0);
        SameListsReady(s, r, t);
      }
    }
    GoneNotReady(s, x);
    hide Store.Remove, Store.InsertEnd, Store.InsertAt, Store.Next;
  }

  lemma SameListsReady(s: Sched, r: Sched, t: Task)
    requires forall l :: r.states.In(t, l) <==> s.states.In(t, l)
    ensures r.IsReady(t) <==> s.IsReady(t)
  {
    if s.IsReady(t) { assert r.states.In(t, s.states.container[t]); }
    if r.IsReady(t) { assert s.states.In(t, r.states.container[t]); }
  }

  /** Nor does the task itself become ready. */
  lemma GoneNotReady(s: Sched, x: Task)
    ensures s.(states := s.states.Remove(x)).IsReady(x) ==> s.IsReady(x)
    ensures s.(states := s.states.Remove(x).InsertEnd(SuspendedL, x)).IsReady(x) ==> s.IsReady(x)
  {
    hide Ring.Remove, Ring.InsertAt, Ring.EndPlace;
  }

  lemma ReapRuns(s: Sched)
    requires Core(s) && RunsHighest(s)
    ensures RunsHighest(s.Reap())
  {
    hide Store.Remove, Store.Items;
    if s.deleted != 0 && s.states.Items(TerminationL) != [] {
      var x := s.states.Items(TerminationL)[0];
      ListFacts(s);
      assert x in s.states.Items(TerminationL);
      FewerRun(s, s.Reap(), x);
    }
    hide Core, RunsHighest;
  }

  lemma WakeOneRuns(s: Sched, e: nat)
    requires Core(s) && RunsHighest(s) && !AsksToSwitch(s, Step.RemoveFromEventList(e))
    ensures RunsHighest(s.RemoveFromEventList(e))
  {
    hide RunsHighest, Store.Remove, Store.InsertEnd;
    if s.events.Items(EventL(e)) != [] {
      var x := s.events.Items(EventL(e))[0];
      ListFacts(s);
      assert x in s.events.Items(EventL(e));
      hide Core, Store.Items;
      if s.suspended == 0 {
        WokenRuns(s, x);
        SameRuns(s.(events := s.events.Remove(x)).MoveToReady(x), s.RemoveFromEventList(e));
      } else {
        SameRuns(s, s.RemoveFromEventList(e));
      }
      hide Sched.MoveToReady;
    }
  }

  lemma UnorderedRuns(s: Sched, x: Task, v: nat)
    requires Core(s) && RunsHighest(s) && x in s.events.container && s.Prio(x) <= s.Prio(s.current)
    ensures RunsHighest(s.RemoveFromUnorderedEventList(x, v))
  {
    hide Core, RunsHighest, Store.Remove, Store.InsertEnd;
    WokenRuns(s, x);
    SameRuns(s.(events := s.events.Remove(x)).MoveToReady(x), s.RemoveFromUnorderedEventList(x, v));
  }

  lemma ResumeTaskRuns(s: Sched, x: Task)
    requires Core(s) && RunsHighest(s) && !AsksToSwitch(s, Step.Resume(x))
    ensures RunsHighest(s.Resume(x))
  {
    hide Core, RunsHighest, Sched.MoveToReady, Sched.IsTaskSuspended;
    if x != s.current && s.IsTaskSuspended(x) { ResumeRuns(s, x); }
  }

  lemma ResumeFromISRRuns(s: Sched, x: Task)
    requires Core(s) && RunsHighest(s) && !AsksToSwitch(s, Step.ResumeFromISR(x))
    ensures RunsHighest(s.ResumeFromISR(x))
  {
    hide Core, RunsHighest, Sched.MoveToReady, Sched.IsTaskSuspended, Store.InsertEnd;
    if s.IsTaskSuspended(x) {
      if s.suspended == 0 { ResumeRuns(s, x); } else { SameRuns(s, s.(events := s.events.InsertEnd(PendingL, x))); }
    }
  }

  lemma DisinheritRuns(s: Sched, t: Task)
    requires RunsHighest(s) && (s.Prio(t) == At(s.base, t) || At(s.held, t) > 1)
    ensures RunsHighest(s.Disinherit(t))
  {
    SameRuns(s, s.Disinherit(t));
    hide RunsHighest, Sched.Reprioritise;
  }

  lemma SuspendRuns(s: Sched, t: Task)
    requires Core(s) && RunsHighest(s) && t != s.current
    ensures RunsHighest(s.Suspend(t))
  {
    hide Core, RunsHighest;
    DeleteIsFor(s, t);
    FewerRun(s, s.Suspend(t), t);
  }

  lemma ManagingRuns(s: Sched, step: Step)
    requires Inv(s) && Enabled(s, step) && RunsHighest(s) && !AsksToSwitch(s, step)
    requires step.Create? || step.Delete? || step.Reap? || step.Suspend? || step.Resume? || step.ResumeFromISR?
    ensures RunsHighest(Apply(s, step))
  {
    InvCore(s);
    hide Inv, Core, RunsHighest, Store.Remove, Store.InsertEnd, Sched.MoveToReady;
    match step {
      case Create(t, p) => CreateRuns(s, t, p);
      case Delete(t) => DeleteRuns(s, t);
      case Reap => ReapRuns(s);
      case Suspend(t) => SuspendRuns(s, t);
      case Resume(t) => ResumeTaskRuns(s, t);
      case ResumeFromISR(t) => ResumeFromISRRuns(s, t);
    }
  }

  lemma RankingRuns(s: Sched, step: Step)
    requires Inv(s) && Enabled(s, step) && RunsHighest(s) && !AsksToSwitch(s, step)
    requires step.PrioritySet? || step.Inherit? || step.Disinherit? || step.IncrementHeld? || step.ResetEventItemValue? ||
             step.RemoveFromEventList? || step.RemoveFromUnorderedEventList?
    ensures RunsHighest(Apply(s, step))
  {
    hide Inv, Core, RunsHighest, Clamp, PrioritySetYields, EventValue, Store.Items, MayBlock;
    hide Sched.PrioritySet, Sched.Inherit, Sched.Disinherit, Sched.RemoveFromEventList, Sched.RemoveFromUnorderedEventList;
    InvCore(s);
    match step {
      case PrioritySet(t, p) => PrioritySetRuns(s, t, p);
      case Inherit(t) => InheritRuns(s, t);
      case Disinherit(t) => DisinheritRuns(s, t);
      case IncrementHeld => AsideRuns(s);
      case ResetEventItemValue => AsideRuns(s);
      case RemoveFromEventList(e) => WakeOneRuns(s, e);
      case RemoveFromUnorderedEventList(t, v) => UnorderedRuns(s, t, v);
    }
  }

  /**
   * A step after which some ready task outranks the running one asks for a switch: if the running
   * task had the highest ready priority and no switch was asked for, it still has.
   */
  lemma NoSwitchMissed(s: Sched, step: Step)
    requires Inv(s) && Enabled(s, step) && RunsHighest(s) && !AsksToSwitch(s, step)
    requires step.SwitchContext? ==> s.suspended == 0
    ensures RunsHighest(Apply(s, step))
  {
    InvCore(s);
    hide Inv, Core, RunsHighest, Enabled;
    match step {
      case Create(t, p) => ManagingRuns(s, step);
      case Delete(t) => ManagingRuns(s, step);
      case Reap => ManagingRuns(s, step);
      case Suspend(t) => ManagingRuns(s, step);
      case Resume(t) => ManagingRuns(s, step);
      case ResumeFromISR(t) => ManagingRuns(s, step);
      case Tick => TickRuns(s);
      case SuspendAll => SuspendAllRuns(s);
      case ResumeAll => if s.suspended == 1 { ResumeAllRuns(s); } else { StaySuspended(s); }
      case SwitchContext => SwitchRuns(s);
      case Delay(_) =>
      case PlaceOnEventList(_, _) =>
      case PlaceOnUnorderedEventList(_, _, _) =>
      case PlaceOnEventListRestricted(_, _, _) =>
      case _ => RankingRuns(s, step);
    }
    hide Apply, AsksToSwitch;
  }

  lemma SuspendAllRuns(s: Sched)
    requires RunsHighest(s)
    ensures RunsHighest(s.SuspendAll())
  {
    SameRuns(s, s.SuspendAll());
    hide RunsHighest;
  }

  lemma AsideRuns(s: Sched)
    requires RunsHighest(s)
    ensures RunsHighest(s.IncrementHeld()) && RunsHighest(s.ResetEventItemValue())
  {
    SameRuns(s, s.IncrementHeld());
    SameRuns(s, s.ResetEventItemValue());
    hide RunsHighest;
  }

  lemma StaySuspended(s: Sched)
    requires RunsHighest(s) && s.suspended != 1
    ensures RunsHighest(s.ResumeAll())
  {
    SameRuns(s, s.ResumeAll());
    hide RunsHighest, Sched.RunPended, Sched.MovePending, Sched.ResetNext;
  }

  lemma SwitchRuns(s: Sched)
    requires Inv(s) && s.suspended == 0
    ensures RunsHighest(s.SwitchContext())
  {
    hide Inv;
    SwitchPicksHighest(s);
    SwitchSame(s);
    hide Sched.SwitchContext;
  }

  lemma SwitchSame(s: Sched)
    requires Inv(s) && s.suspended == 0
    ensures s.SwitchContext().prio == s.prio && s.SwitchContext().states.container == s.states.container
    ensures forall t :: s.SwitchContext().IsReady(t) <==> s.IsReady(t)
  {
    hide Inv, Ring.Next, Ring.Selected, Sched.HighestReady, Store.Items;
    SwitchPicksHighest(s);
    var r := s.SwitchContext();
    assert r.prio == s.prio && r.states == s.states.Next(ReadyL(s.HighestReady(s.top)));
    assert r.states.container == s.states.container;
    hide Sched.SwitchContext, Store.Next;
  }
}
