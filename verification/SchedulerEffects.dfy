/** What each operation on a task achieves, and that it leaves every other task where it was. */
module SchedulerEffects {
  import opened Rings
  import opened Stores
  import opened Clock
  import opened Timeline
  import opened TwoLists
  import opened Scheduler
  import opened SchedulerInvariant
  import opened SchedulerTicks
  import opened SchedulerRuns
  import opened SchedulerPreemption

  /** All tasks but `t` are in the same state lists and event lists, with the same priorities. */
  ghost predicate OthersStay(s: Sched, r: Sched, t: Task) {
    forall u :: u != t ==>
      && (forall l :: r.states.In(u, l) <==> s.states.In(u, l)) && (forall e :: r.events.In(u, e) <==> s.events.In(u, e))
      && r.Prio(u) == s.Prio(u) && At(r.base, u) == At(s.base, u)
  }

  lemma StoreStays<L, T>(s: Store<L, T>, t: T, l: L, k: nat)
    ensures forall u, m :: u != t ==> (s.Remove(t).In(u, m) <==> s.In(u, m))
    ensures forall u, m :: u != t ==> (s.InsertAt(l, k, t).In(u, m) <==> s.In(u, m))
    ensures forall u, m :: u != t ==> (s.InsertEnd(l, t).In(u, m) <==> s.In(u, m))
  {
    hide Ring.Remove, Ring.InsertAt, Ring.EndPlace;
  }

  lemma OthersStayIf(s: Sched, r: Sched, t: Task)
    requires forall u, l :: u != t ==> (r.states.In(u, l) <==> s.states.In(u, l))
    requires forall u, e :: u != t ==> (r.events.In(u, e) <==> s.events.In(u, e))
    requires forall u :: u != t ==> At(r.prio, u) == At(s.prio, u) && At(r.base, u) == At(s.base, u)
    ensures OthersStay(s, r, t)
  {
    hide Store.In;
  }

  lemma EndOf<L, T>(s: Store<L, T>, l: L, t: T)
    requires Valid(s) && l in s.lists && t !in s.container
    ensures s.InsertEnd(l, t).In(t, l) && forall m :: s.InsertEnd(l, t).In(t, m) ==> m == l
  {
    InsertEndKeeps(s, l, t);
    hide Store.InsertEnd, Valid;
  }

  lemma GoneFrom<L, T>(s: Store<L, T>, t: T)
    requires Valid(s)
    ensures Valid(s.Remove(t)) && s.Remove(t).lists.Keys == s.lists.Keys && t !in s.Remove(t).container
  {
    if t in s.container { RemoveKeeps(s, t); }
    hide Ring.Remove;
  }

  /** A new task is ready with the clamped priority as its base priority. */
  lemma CreatedIsReady(s: Sched, t: Task, p: nat)
    requires Inv(s) && t !in s.states.container
    ensures var r := s.Create(t, p);
      && r.IsReady(t) && r.Prio(t) == At(r.base, t) == Clamp(p, s.priorities) && At(r.held, t) == 0 && OthersStay(s, r, t)
  {
    InvCore(s);
    CreateIs(s, t, p);
    StoreStays(s.states, t, ReadyL(Clamp(p, s.priorities)), 0);
    var r := s.Create(t, p);
    CreateStores(s, t, p);
    hide *;
    OthersStayIf(s, r, t);
  }

  lemma CreateStores(s: Sched, t: Task, p: nat)
    ensures var r, q := s.Create(t, p), Clamp(p, s.priorities);
      && r.states == s.states.InsertEnd(ReadyL(q), t) && r.events == s.events
      && r.prio == s.prio[t := q] && r.base == s.base[t := q] && r.held == s.held[t := 0]
    ensures forall u :: u != t ==> At(s.Create(t, p).prio, u) == At(s.prio, u) && At(s.Create(t, p).base, u) == At(s.base, u)
    ensures At(s.Create(t, p).base, t) == Clamp(p, s.priorities) && At(s.Create(t, p).held, t) == 0
  {
    hide Store.InsertEnd, Clamp, EventValue;
  }

  lemma DeleteStores(s: Sched, t: Task)
    ensures var r := s.Delete(t);
      && r.events == s.events.Remove(t) && r.prio == s.prio && r.base == s.base
      && r.states == if t == s.current then s.states.Remove(t).InsertEnd(TerminationL, t) else s.states.Remove(t)
  {
    hide Store.Remove, Store.InsertEnd, Sched.ResetNext;
    if t != s.current {
      ResetNextFields(s.(states := s.states.Remove(t), events := s.events.Remove(t), count := if s.count > 0 then s.count - 1 else 0));
    }
  }

  lemma SuspendStores(s: Sched, t: Task)
    ensures var r := s.Suspend(t);
      && r.events == s.events.Remove(t) && r.prio == s.prio && r.base == s.base && r.current == s.current
      && r.states == s.states.Remove(t).InsertEnd(SuspendedL, t)
  {
    hide Store.Remove, Store.InsertEnd, Sched.ResetNext;
    ResetNextFields(s.(states := s.states.Remove(t).InsertEnd(SuspendedL, t), events := s.events.Remove(t)));
  }

  /** A deleted task waits for nothing and is in no list, but for the termination list if it deleted itself. */
  lemma DeletedIsGone(s: Sched, t: Task)
    requires Inv(s)
    ensures var r := s.Delete(t);
      && t !in r.events.container && OthersStay(s, r, t)
      && (if t == s.current then r.states.In(t, TerminationL) else t !in r.states.container)
  {
    var r := s.Delete(t);
    StoresValid(s);
    hide *;
    DeleteStores(s, t);
    GoneFrom(s.states, t);
    GoneFrom(s.events, t);
    EndOf(s.states.Remove(t), TerminationL, t);
    StoreStays(s.states, t, TerminationL, 0);
    StoreStays(s.states.Remove(t), t, TerminationL, 0);
    StoreStays(s.events, t, PendingL, 0);
    OthersStayIf(s, r, t);
  }

  lemma StoresValid(s: Sched)
    requires Inv(s)
    ensures Valid(s.states) && Valid(s.events) && TerminationL in s.states.lists && SuspendedL in s.states.lists
  {
    hide Valid, ReadyOk, DelaysSorted, Counted, DelaysAhead;
  }

  /** The switch that follows when the running task is suspended. */
  function SwitchedFrom(s: Sched, r: Sched, t: Task): Sched { if t == s.current then r.SwitchContext() else r }

  /**
   * Any task but the idle one, running, ready or blocked, is known as suspended once suspended; the
   * running task is switched away from.  Resuming it makes it ready with its priority.
   */
  lemma SuspendThenResume(s: Sched, t: Task)
    requires Inv(s) && Live(s, t) && t != s.idle && (t == s.current ==> s.suspended == 0)
    ensures s.Suspend(t).IsTaskSuspended(t) && OthersStay(s, s.Suspend(t), t)
    ensures var r := SwitchedFrom(s, s.Suspend(t), t);
      && r.IsTaskSuspended(t) && r.current != t
      && r.Resume(t).IsReady(t) && r.Resume(t).Prio(t) == s.Prio(t)
  {
    var u, r := s.Suspend(t), SwitchedFrom(s, s.Suspend(t), t);
    SuspendIs(s, t);
    SuspendKeeps(s, t);
    hide *;
    SuspendPrio(s, t);
    SwitchedFromIs(s, u, t);
    if t == s.current {
      SuspendedNotReady(u, t);
      SwitchPicksHighest(u);
      SwitchSame(u);
      SwitchLeaves(u, t);
    }
    InvCore(r);
    ResumeIs(r, t);
    ResumesReady(r, t);
  }

  lemma SwitchedFromIs(s: Sched, r: Sched, t: Task)
    ensures SwitchedFrom(s, r, t) == if t == s.current then r.SwitchContext() else r
  {
  }

  lemma SuspendedNotReady(s: Sched, t: Task)
    ensures s.IsTaskSuspended(t) ==> !s.IsReady(t)
  {
  }

  lemma SwitchLeaves(s: Sched, t: Task)
    requires s.IsTaskSuspended(t) && s.SwitchContext().states.container == s.states.container && s.SwitchContext().prio == s.prio
    ensures s.SwitchContext().IsTaskSuspended(t) && s.SwitchContext().Prio(t) == s.Prio(t)
  {
    hide Sched.HighestReady, Store.Next, Store.Items, Ring.Selected;
    var u := s.(yieldPending := false, top := s.HighestReady(s.top));
    if s.suspended == 0 {
      assert s.SwitchContext() == u.(states := s.SwitchContext().states, current := s.SwitchContext().current);
    }
    hide Sched.SwitchContext;
  }

  lemma SuspendIs(s: Sched, t: Task)
    requires Inv(s)
    ensures s.Suspend(t).IsTaskSuspended(t) && OthersStay(s, s.Suspend(t), t) && s.Suspend(t).current == s.current
    ensures s.Suspend(t).suspended == s.suspended
  {
    var r := s.Suspend(t);
    StoresValid(s);
    hide Inv, Valid, Store.In, Store.Remove, Store.InsertEnd, Store.InsertAt, Sched.Suspend, OthersStay;
    SuspendStores(s, t);
    GoneFrom(s.states, t);
    GoneFrom(s.events, t);
    EndOf(s.states.Remove(t), SuspendedL, t);
    StoreStays(s.states, t, SuspendedL, 0);
    StoreStays(s.states.Remove(t), t, SuspendedL, 0);
    StoreStays(s.events, t, PendingL, 0);
    OthersStayIf(s, r, t);
  }

  lemma SuspendPrio(s: Sched, t: Task)
    ensures s.Suspend(t).Prio(t) == s.Prio(t)
  {
    SuspendStores(s, t);
    hide Sched.Suspend;
  }

  lemma ResumeIs(s: Sched, t: Task)
    requires t != s.current && s.IsTaskSuspended(t)
    ensures s.Resume(t) == s.MoveToReady(t)
  {
    hide Sched.MoveToReady;
  }

  lemma ResumesReady(s: Sched, t: Task)
    requires Core(s) && s.IsTaskSuspended(t)
    ensures s.MoveToReady(t).IsReady(t) && s.MoveToReady(t).Prio(t) == s.Prio(t)
  {
    MovedIsReady(s, t);
    hide Core, Sched.MoveToReady;
  }

  // ----- priorities -----

  /** Changing a priority sets the base priority whatever, and the one in use unless it is inherited. */
  lemma PrioritySetSets(s: Sched, t: Task, p: nat)
    requires Inv(s) && Live(s, t)
    ensures var r, q := s.PrioritySet(t, p), Clamp(p, s.priorities);
      && At(r.base, t) == q && r.Prio(t) == (if s.Prio(t) == At(s.base, t) then q else s.Prio(t))
      && (forall u :: r.IsReady(u) <==> s.IsReady(u)) && forall u :: u != t ==> r.Prio(u) == s.Prio(u)
  {
    hide Inv, Core, Sched.Reprioritise, Sched.PrioritySet, Sched.SetEventValue, Ahead, Clamp;
    var q := Clamp(p, s.priorities);
    InvCore(s);
    TaskFacts(s, t);
    PrioritySetIs(s, t, p);
    if At(s.base, t) != q {
      var u, used := s.(base := s.base[t := q]).SetEventValue(t, q), if At(s.base, t) == s.Prio(t) then q else s.Prio(t);
      ClampBelow(p, s.priorities);
      BaseAside(s, t, q);
      ReprioritiseIs(u, t, used);
      RepriBase(u, t, used);
      SetBase(s, t, q);
      ReadyByStates(s, u);
    }
  }

  lemma ReadyByStates(s: Sched, r: Sched)
    requires r.states == s.states
    ensures forall t :: r.IsReady(t) <==> s.IsReady(t)
  {
  }

  lemma ClampBelow(p: nat, priorities: nat)
    ensures priorities > 0 ==> Clamp(p, priorities) < priorities
  {
  }

  lemma RepriBase(s: Sched, t: Task, q: nat)
    ensures s.Reprioritise(t, q).base == s.base && s.Reprioritise(t, q).held == s.held
  {
    hide Store.Remove, Store.InsertEnd, Store.In;
  }

  lemma SetBase(s: Sched, t: Task, q: nat)
    ensures s.(base := s.base[t := q]).SetEventValue(t, q).base == s.base[t := q]
  {
  }

  lemma InheritIs(s: Sched, t: Task)
    requires Inv(s) && Live(s, t)
    ensures var r := s.Inherit(t);
      && r.Prio(t) == (if s.Prio(t) < s.Prio(s.current) then s.Prio(s.current) else s.Prio(t)) && r.base == s.base && r.held == s.held
      && (forall u :: r.IsReady(u) <==> s.IsReady(u)) && t in r.states.container
  {
    InvCore(s);
    TaskFacts(s, s.current);
    ValueAside(s, t);
    hide Inv, Core, Sched.Reprioritise, Sched.SetEventValue;
    if s.Prio(t) < s.Prio(s.current) {
      var u := s.SetEventValue(t, s.Prio(s.current));
      ReprioritiseIs(u, t, s.Prio(s.current));
      RepriBase(u, t, s.Prio(s.current));
      RepriStays(u, t, s.Prio(s.current));
      ValueOnly(s, t, s.Prio(s.current));
      ReadyByStates(s, u);
    }
  }

  lemma ValueOnly(s: Sched, t: Task, p: nat)
    ensures s.SetEventValue(t, p).base == s.base && s.SetEventValue(t, p).held == s.held
  {
  }

  lemma RepriStays(s: Sched, t: Task, q: nat)
    requires t in s.states.container
    ensures t in s.Reprioritise(t, q).states.container || s.IsReady(t)
  {
    hide Store.Remove, Store.InsertEnd;
  }

  lemma DropsToBase(s: Sched, t: Task)
    requires Inv(s) && t in s.states.container && At(s.held, t) == 1
    ensures var r := s.Disinherit(t);
      && r.Prio(t) == At(s.base, t) && At(r.held, t) == 0 && (forall u :: r.IsReady(u) <==> s.IsReady(u))
  {
    var u := s.(held := s.held[t := 0]);
    InvCore(s);
    TaskFacts(s, t);
    BaseInRange(s, t);
    DisinheritSteps(s, t, u);
    hide Core, Sched.Reprioritise, Sched.Disinherit;
    if s.Prio(t) != At(s.base, t) {
      var v := u.(eventValue := s.eventValue[t := EventValue(At(s.base, t), s.priorities)]);
      AsideInv(s, v);
      hide Inv;
      ReprioritiseIs(v, t, At(s.base, t));
      RepriBase(v, t, At(s.base, t));
      ReadyByStates(s, v);
    } else {
      ReadyByStates(s, u);
    }
    hide Inv, EventValue;
  }

  lemma BaseInRange(s: Sched, t: Task)
    requires Core(s)
    ensures At(s.base, t) < s.priorities
  {
    TaskFacts(s, s.current);
    hide Structured, ReadyOk, EventsOk, DelaysSorted, Counted;
  }

  lemma DisinheritSteps(s: Sched, t: Task, u: Sched)
    requires At(s.held, t) == 1 && u == s.(held := s.held[t := 0])
    ensures s.Disinherit(t) == if s.Prio(t) == At(s.base, t) then u else
      u.(eventValue := s.eventValue[t := EventValue(At(s.base, t), s.priorities)]).Reprioritise(t, At(s.base, t))
  {
    hide Sched.Reprioritise, EventValue;
  }

  // ----- waiting and waking -----

  /** The first waiter leaves the list, which keeps its other waiters, and is ready, or pending while suspended. */
  lemma FirstWaiterWakes(s: Sched, e: nat)
    requires Inv(s) && s.events.Items(EventL(e)) != []
    ensures var r, t := s.RemoveFromEventList(e), s.events.Items(EventL(e))[0];
      && r.events.Items(EventL(e)) == s.events.Items(EventL(e))[1..]
      && (if s.suspended == 0 then r.IsReady(t) && t !in r.events.container else r.events.In(t, PendingL))
      && OthersStay(s, r, t)
  {
    hide Inv, Core, Sched.RemoveFromEventList, Sched.MoveToReady, OthersStay, Store.In, Store.Items, Valid;
    hide Store.Remove, Store.InsertEnd;
    var r, t := s.RemoveFromEventList(e), s.events.Items(EventL(e))[0];
    InvCore(s);
    WaiterFacts(s, e, t);
    WakeStores(s, e, t);
    WakeOthers(s, r, t);
  }

  lemma WakeOthers(s: Sched, r: Sched, t: Task)
    requires r.prio == s.prio && r.base == s.base
    requires r.events == s.events.Remove(t) || r.events == s.events.Remove(t).InsertEnd(PendingL, t)
    requires r.states == s.states || r.states == s.states.Remove(t).InsertEnd(ReadyL(s.Prio(t)), t)
    ensures OthersStay(s, r, t)
  {
    hide OthersStay, Store.In, Store.Remove, Store.InsertEnd, Store.InsertAt;
    StoreStays(s.events, t, PendingL, 0);
    StoreStays(s.events.Remove(t), t, PendingL, 0);
    StoreStays(s.states, t, ReadyL(s.Prio(t)), 0);
    StoreStays(s.states.Remove(t), t, ReadyL(s.Prio(t)), 0);
    OthersStayIf(s, r, t);
  }

  lemma WaiterFacts(s: Sched, e: nat, t: Task)
    requires Core(s) && s.events.Items(EventL(e)) != [] && t == s.events.Items(EventL(e))[0]
    ensures t in s.events.container && Valid(s.events.Remove(t)) && t !in s.events.Remove(t).container
    ensures s.events.Remove(t).Items(EventL(e)) == s.events.Items(EventL(e))[1..]
    ensures s.events.Remove(t).InsertEnd(PendingL, t).Items(EventL(e)) == s.events.Items(EventL(e))[1..]
    ensures s.events.Remove(t).InsertEnd(PendingL, t).In(t, PendingL)
    ensures s.(events := s.events.Remove(t)).MoveToReady(t).IsReady(t)
  {
    ListFacts(s);
    assert t in s.events.Items(EventL(e));
    TaskFacts(s, t);
    LeaveEvents(s, t);
    EventsValid(s);
    RemoveKeeps(s.events, t);
    HeadGone(s.events, EventL(e), t);
    EndOf(s.events.Remove(t), PendingL, t);
    InsertEndKeeps(s.events.Remove(t), PendingL, t);
    MovedIsReady(s.(events := s.events.Remove(t)), t);
    hide Core, Valid, Store.Remove, Store.InsertEnd, Sched.MoveToReady;
  }

  lemma EventsValid(s: Sched)
    requires Core(s)
    ensures Valid(s.events) && PendingL in s.events.lists
  {
    hide Structured, ReadyOk, DelaysSorted, Counted, Valid;
  }

  lemma HeadGone(s: Events, l: EventId, t: Task)
    requires Valid(s) && s.Items(l) != [] && s.Items(l)[0] == t && s.In(t, l)
    ensures s.Remove(t).Items(l) == s.Items(l)[1..]
  {
    RemoveKeeps(s, t);
    RemoveHead(s.lists[l]);
  }

  lemma WakeStores(s: Sched, e: nat, t: Task)
    requires s.events.Items(EventL(e)) != [] && t == s.events.Items(EventL(e))[0]
    ensures var r := s.RemoveFromEventList(e);
      && r.prio == s.prio && r.base == s.base
      && r.events == (if s.suspended == 0 then s.events.Remove(t) else s.events.Remove(t).InsertEnd(PendingL, t))
      && r.states == (if s.suspended == 0 then s.(events := s.events.Remove(t)).MoveToReady(t).states else s.states)
    ensures s.(events := s.events.Remove(t)).MoveToReady(t).states == s.states.Remove(t).InsertEnd(ReadyL(s.Prio(t)), t)
  {
    var u := s.(events := s.events.Remove(t));
    MoveFields(u, t);
    hide Store.Remove, Store.InsertEnd, Store.Items, Sched.MoveToReady;
    assert s.suspended == 0 ==> s.RemoveFromEventList(e) == u.MoveToReady(t).(yieldPending := s.RemoveFromEventList(e).yieldPending);
  }

  lemma MoveFields(s: Sched, t: Task)
    ensures var r := s.MoveToReady(t);
      && r == s.(top := r.top, states := r.states) && r.states == s.states.Remove(t).InsertEnd(ReadyL(s.Prio(t)), t)
  {
    hide Store.Remove, Store.InsertEnd;
  }

  /** A task that blocks on a kernel object is filed by its event item value, behind every equal one, and is blocked. */
  lemma FiledByValue(s: Sched, e: nat, wait: nat)
    requires Inv(s) && MayBlock(s, wait) && EventL(e) in s.events.lists
    ensures var r, ws := s.PlaceOnEventList(e, wait), s.events.Items(EventL(e));
      var k := InsertPlace(ValuesOf(ws, s.eventValue), At(s.eventValue, s.current));
      && k <= |ws| && r.events.Items(EventL(e)) == With(ws, k, s.current) && r.events.In(s.current, EventL(e))
      && (r.states.In(s.current, SuspendedL) || r.states.In(s.current, DelayedL(true)) || r.states.In(s.current, DelayedL(false)))
  {
    var ws := s.events.Items(EventL(e));
    var k := InsertPlace(ValuesOf(ws, s.eventValue), At(s.eventValue, s.current));
    InvCore(s);
    EventsValid(s);
    NotWaiting(s, wait);
    ValuesLength(ws, s.eventValue);
    InsertAtKeeps(s.events, EventL(e), k, s.current);
    PlaceOnEventListKeeps(s, e, wait);
    InvCore(s.PlaceOnEventList(e, wait));
    PlacedIs(s, e, wait, k);
    TaskFacts(s.PlaceOnEventList(e, wait), s.current);
    hide Inv, Core, Valid, MayBlock, Sched.PlaceOnEventList, ValuesOf, Store.InsertAt;
  }

  lemma NotWaiting(s: Sched, wait: nat)
    requires MayBlock(s, wait)
    ensures s.current !in s.events.container
  {
  }

  lemma PlacedIs(s: Sched, e: nat, wait: nat, k: nat)
    requires k == InsertPlace(ValuesOf(s.events.Items(EventL(e)), s.eventValue), At(s.eventValue, s.current))
    ensures s.PlaceOnEventList(e, wait).events == s.events.InsertAt(EventL(e), k, s.current)
  {
    hide Sched.DelayCurrent, InsertPlace, ValuesOf, Store.InsertAt, Store.Items;
    var u := s.(events := s.events.InsertAt(EventL(e), k, s.current));
    DelayIgnoresEvents(u, u.events, u.eventValue, wait, true);
  }
}
