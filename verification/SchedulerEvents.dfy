/**
 * Event lists: when the value in a task's event item agrees with its priority, and when the list of
 * an object has its waiters in order of priority.
 */
module SchedulerEvents {
  import opened Rings
  import opened Stores
  import opened Clock
  import opened Timeline
  import opened TwoLists
  import opened Scheduler
  import opened SchedulerInvariant
  import opened SchedulerTicks
  import opened SchedulerResume
  import opened SchedulerRuns
  import opened SchedulerPreemption
  import opened SchedulerEffects

  /** The event item of `t` holds the value that belongs to its priority. */
  ghost predicate Agrees(s: Sched, t: Task) { At(s.eventValue, t) == EventValue(s.Prio(t), s.priorities) }

  function Waiters(s: Sched, e: nat): seq<Task> { s.events.Items(EventL(e)) }

  /** The list of object `e` is sorted, and by the priorities of the tasks in it. */
  ghost predicate Ordered(s: Sched, e: nat) {
    && (forall t :: t in Waiters(s, e) ==> Agrees(s, t))
    && ByValue(Waiters(s, e), s.eventValue)
  }

  ghost predicate ByPriority(s: Sched, ts: seq<Task>) {
    forall i, j :: 0 <= i < j < |ts| ==> s.Prio(ts[j]) <= s.Prio(ts[i])
  }

  // ----- what order is good for -----

  lemma WaiterPrio(s: Sched, e: nat, t: Task)
    requires Core(s) && t in Waiters(s, e)
    ensures s.Prio(t) < s.priorities && t in s.events.container && t in s.states.container && !s.IsReady(t)
  {
    ListFacts(s);
    TaskFacts(s, t);
    hide Core;
  }

  /** In an ordered list priorities descend, so its head is a highest waiter. */
  lemma OrderedDescends(s: Sched, e: nat)
    requires Core(s) && Ordered(s, e)
    ensures ByPriority(s, Waiters(s, e))
  {
    var ws := Waiters(s, e);
    hide Core;
    forall i, j | 0 <= i < j < |ws| ensures s.Prio(ws[j]) <= s.Prio(ws[i]) {
      WaiterPrio(s, e, ws[i]);
      WaiterPrio(s, e, ws[j]);
      assert Agrees(s, ws[i]) && Agrees(s, ws[j]);
    }
  }

  /** Then the task that a kernel object wakes is one of the highest priority of all that wait for it. */
  lemma HighestWaiterWakes(s: Sched, e: nat)
    requires Inv(s) && Ordered(s, e) && Waiters(s, e) != []
    ensures var r, t := s.RemoveFromEventList(e), Waiters(s, e)[0];
      && (forall u :: u in Waiters(s, e) ==> s.Prio(u) <= s.Prio(t))
      && (if s.suspended == 0 then r.IsReady(t) && t !in r.events.container else r.events.In(t, PendingL))
      && Waiters(r, e) == Waiters(s, e)[1..]
  {
    var ws := Waiters(s, e);
    InvCore(s);
    OrderedDescends(s, e);
    FirstWaiterWakes(s, e);
    hide *;
    HeadIsHighest(s, ws);
  }

  lemma HeadIsHighest(s: Sched, ws: seq<Task>)
    requires ByPriority(s, ws) && ws != []
    ensures forall u :: u in ws ==> s.Prio(u) <= s.Prio(ws[0])
  {
    forall u | u in ws ensures s.Prio(u) <= s.Prio(ws[0]) {
      var j := IndexOf(ws, u);
    }
  }

  /** Where `vListInsert` files the running task in the list of `e`. */
  function SortedPlaceOf(s: Sched, e: nat): nat { InsertPlace(ValuesOf(Waiters(s, e), s.eventValue), At(s.eventValue, s.current)) }

  /** The running task of `s` stands behind every waiter of its priority or more, and before the others. */
  ghost predicate JoinsInOrder(s: Sched, r: Sched, e: nat) {
    var ws := Waiters(s, e);
    exists k :: 0 <= k <= |ws| && Waiters(r, e) == With(ws, k, s.current) &&
      (forall i :: 0 <= i < k ==> s.Prio(s.current) <= s.Prio(ws[i])) &&
      (forall i :: k <= i < |ws| ==> s.Prio(ws[i]) < s.Prio(s.current))
  }

  /** A task that blocks with its own value goes behind every waiter of its priority or more, before the others. */
  lemma FiledByPriority(s: Sched, e: nat, wait: nat)
    requires Inv(s) && MayBlock(s, wait) && EventL(e) in s.events.lists && Ordered(s, e) && Agrees(s, s.current)
    ensures JoinsInOrder(s, s.PlaceOnEventList(e, wait), e)
  {
    hide *;
    var r := s.PlaceOnEventList(e, wait);
    InvCore(s);
    NotWaiting(s, wait);
    PlaceOnFacts(s, e);
    PlaceEvents(s, e, 0, wait, false);
    PlacedAt(s, r, e);
    SortedPlace(s, e);
    JoinsIs(s, r, e);
  }

  lemma JoinsIs(s: Sched, r: Sched, e: nat)
    requires var ws, k := Waiters(s, e), SortedPlaceOf(s, e);
      && k <= |ws| && Waiters(r, e) == With(ws, k, s.current)
      && forall i :: 0 <= i < |ws| ==> if i < k then s.Prio(s.current) <= s.Prio(ws[i]) else s.Prio(ws[i]) < s.Prio(s.current)
    ensures JoinsInOrder(s, r, e)
  {
    hide Waiters, SortedPlaceOf, With;
  }

  lemma SortedPlace(s: Sched, e: nat)
    requires Core(s) && Ordered(s, e) && Agrees(s, s.current)
    ensures var ws, k := Waiters(s, e), SortedPlaceOf(s, e);
      forall i :: 0 <= i < |ws| ==> if i < k then s.Prio(s.current) <= s.Prio(ws[i]) else s.Prio(ws[i]) < s.Prio(s.current)
  {
    hide Core;
    var ws := Waiters(s, e);
    var vs := ValuesOf(ws, s.eventValue);
    var k := InsertPlace(vs, At(s.eventValue, s.current));
    TaskFacts(s, s.current);
    assert forall i :: 0 <= i < |ws| ==> vs[i] == At(s.eventValue, ws[i]);
    hide ValuesOf;
    forall i | 0 <= i < |ws| ensures if i < k then s.Prio(s.current) <= s.Prio(ws[i]) else s.Prio(ws[i]) < s.Prio(s.current) {
      WaiterPrio(s, e, ws[i]);
      assert Agrees(s, ws[i]);
      if i >= k { assert At(s.eventValue, ws[k]) <= At(s.eventValue, ws[i]); }
    }
  }

  // ----- steps that leave a list alone, or thin it -----

  ghost predicate Thins(a: seq<Task>, b: seq<Task>) {
    (forall v: map<Task, nat> :: ByValue(a, v) ==> ByValue(b, v)) && forall t :: t in b ==> t in a
  }

  /** The list of `e` only loses waiters, and those that stay keep their values and priorities. */
  ghost predicate Calm(s: Sched, r: Sched, e: nat) {
    && r.priorities == s.priorities && Thins(Waiters(s, e), Waiters(r, e))
    && forall t :: t in Waiters(r, e) ==> At(r.eventValue, t) == At(s.eventValue, t) && r.Prio(t) == s.Prio(t)
  }

  /** No priority and no event item value has changed. */
  ghost predicate SameRanks(s: Sched, r: Sched) {
    r.priorities == s.priorities && r.inUse == s.inUse && r.prio == s.prio && r.base == s.base && r.eventValue == s.eventValue
  }

  lemma CalmOrdered(s: Sched, r: Sched, e: nat)
    requires Ordered(s, e) && Calm(s, r, e)
    ensures Ordered(r, e)
  {
    hide EventValue;
    var ws := Waiters(r, e);
    assert ByValue(ws, s.eventValue);
    forall t | t in ws ensures Agrees(r, t) { assert Agrees(s, t); }
  }

  lemma CalmThen(s: Sched, q: Sched, r: Sched, e: nat)
    requires Calm(s, q, e) && Calm(q, r, e)
    ensures Calm(s, r, e)
  {
    hide ByValue;
  }

  /** The same list and the same values and priorities in it. */
  lemma CalmSame(s: Sched, r: Sched, e: nat)
    requires r.priorities == s.priorities && Waiters(r, e) == Waiters(s, e)
    requires forall t :: t in Waiters(s, e) ==> At(r.eventValue, t) == At(s.eventValue, t) && r.Prio(t) == s.Prio(t)
    ensures Calm(s, r, e)
  {
  }

  lemma DroppedThins(ts: seq<Task>, t: Task)
    requires NoDup(ts)
    ensures Thins(ts, Dropped(ts, t))
  {
    forall v: map<Task, nat> | ByValue(ts, v) ensures ByValue(Dropped(ts, t), v) { DroppedFacts(ts, v, t); }
    if t in ts { WithoutMembers(ts, IndexOf(ts, t)); }
  }

  lemma PendingApart(s: Events, t: Task, e: nat)
    ensures s.InsertEnd(PendingL, t).Items(EventL(e)) == s.Items(EventL(e))
  {
    hide Ring.InsertAt, Ring.EndPlace;
  }

  /** `x` leaves its event list, and perhaps becomes pending. */
  lemma CalmRemove(s: Sched, r: Sched, e: nat, x: Task)
    requires Core(s) && r.priorities == s.priorities && (r.events == s.events.Remove(x) || r.events == s.events.Remove(x).InsertEnd(PendingL, x))
    requires forall t :: t != x ==> At(r.eventValue, t) == At(s.eventValue, t) && r.Prio(t) == s.Prio(t)
    ensures Calm(s, r, e)
  {
    EventsValid(s);
    RemoveDrops(s.events, x, EventL(e));
    PendingApart(s.events.Remove(x), x, e);
    DroppedThins(Waiters(s, e), x);
    DroppedNot(Waiters(s, e), x);
    hide Core, Thins, NoDup, Store.Remove, Store.InsertEnd, Store.Items, Dropped;
  }

  lemma RepriEvents(s: Sched, t: Task, q: nat)
    ensures var r := s.Reprioritise(t, q);
      && r.events == s.events && r.eventValue == s.eventValue && r.priorities == s.priorities && r.inUse == s.inUse
      && r.prio == s.prio[t := q] && r.base == s.base
  {
    MoveFields(s.(prio := s.prio[t := q]), t);
    hide Sched.MoveToReady, Store.In;
  }

  lemma ResetNextAside(s: Sched)
    ensures s.ResetNext().events == s.events && SameRanks(s, s.ResetNext())
  {
    ResetNextFields(s);
    hide Sched.ResetNext;
  }

  lemma DeleteCalm(s: Sched, t: Task, e: nat)
    requires Core(s)
    ensures Calm(s, s.Delete(t), e) && SameRanks(s, s.Delete(t))
  {
    hide Core, Calm, Store.Remove, Store.InsertEnd, Sched.ResetNext;
    if t != s.current {
      ResetNextAside(s.(states := s.states.Remove(t), events := s.events.Remove(t), count := if s.count > 0 then s.count - 1 else 0));
    }
    CalmRemove(s, s.Delete(t), e, t);
  }

  lemma SuspendCalm(s: Sched, t: Task, e: nat)
    requires Core(s)
    ensures Calm(s, s.Suspend(t), e) && SameRanks(s, s.Suspend(t))
  {
    hide Core, Calm, Store.Remove, Store.InsertEnd, Sched.ResetNext;
    ResetNextAside(s.(states := s.states.Remove(t).InsertEnd(SuspendedL, t), events := s.events.Remove(t)));
    CalmRemove(s, s.Suspend(t), e, t);
  }

  lemma CreateCalm(s: Sched, t: Task, p: nat, e: nat)
    requires Core(s) && t !in s.states.container
    ensures Calm(s, s.Create(t, p), e)
  {
    hide Core, Store.InsertEnd, Clamp, EventValue;
    if t in Waiters(s, e) { WaiterPrio(s, e, t); }
    CalmSame(s, s.Create(t, p), e);
  }

  lemma ResumeCalm(s: Sched, t: Task, e: nat)
    ensures Calm(s, s.Resume(t), e) && Calm(s, s.ResumeFromISR(t), e) && SameRanks(s, s.Resume(t)) && SameRanks(s, s.ResumeFromISR(t))
  {
    hide Calm, Store.InsertEnd, Store.Items, Sched.MoveToReady, Sched.IsTaskSuspended;
    PendingApart(s.events, t, e);
    MoveFields(s, t);
    CalmSame(s, s, e);
    CalmSame(s, s.MoveToReady(t), e);
    CalmSame(s, s.(events := s.events.InsertEnd(PendingL, t)), e);
  }

  lemma ReapCalm(s: Sched, e: nat)
    ensures Calm(s, s.Reap(), e) && SameRanks(s, s.Reap())
  {
    hide Calm, Store.Remove, Store.Items;
    CalmSame(s, s.Reap(), e);
  }

  lemma SuspendAllCalm(s: Sched, e: nat)
    ensures Calm(s, s.SuspendAll(), e) && SameRanks(s, s.SuspendAll())
  {
    CalmSame(s, s.SuspendAll(), e);
  }

  lemma SwitchCalm(s: Sched, e: nat)
    ensures Calm(s, s.SwitchContext(), e) && SameRanks(s, s.SwitchContext())
  {
    hide Calm, Sched.HighestReady, Store.Next, Store.Items, Ring.Selected;
    SwitchAside(s);
    hide Sched.SwitchContext;
    CalmSame(s, s.SwitchContext(), e);
  }

  lemma SwitchAside(s: Sched)
    ensures s.SwitchContext().events == s.events && SameRanks(s, s.SwitchContext())
  {
    hide Sched.HighestReady, Store.Next, Store.Items, Ring.Selected;
    var u := s.(yieldPending := false, top := s.HighestReady(s.top));
    if s.suspended == 0 {
      assert s.SwitchContext() == u.(states := s.SwitchContext().states, current := s.SwitchContext().current);
    }
  }

  lemma DelayCalm(s: Sched, wait: nat, e: nat)
    ensures Calm(s, s.DelayCurrent(wait, false), e) && SameRanks(s, s.DelayCurrent(wait, false))
  {
    hide Calm, Sched.DelayCurrent;
    DelayIgnoresEvents(s, s.events, s.eventValue, wait, false);
    DelayAside(s, wait, false);
    CalmSame(s, s.DelayCurrent(wait, false), e);
  }

  lemma DelayAside(s: Sched, wait: nat, canBlock: bool)
    ensures SameRanks(s, s.DelayCurrent(wait, canBlock))
  {
    hide Store.Remove, Store.InsertEnd, Store.InsertAt, Store.Items, ValuesOf, InsertPlace, Wrap;
  }

  /** Only `t` may have another event item value and priority. */
  ghost predicate OthersRank(s: Sched, r: Sched, t: Task) {
    && r.priorities == s.priorities && r.inUse == s.inUse
    && forall u :: u != t ==> At(r.eventValue, u) == At(s.eventValue, u) && r.Prio(u) == s.Prio(u) && At(r.base, u) == At(s.base, u)
  }

  ghost predicate Ranked(s: Sched, r: Sched, t: Task) { r.events == s.events && OthersRank(s, r, t) }

  lemma RankedCalm(s: Sched, r: Sched, t: Task, e: nat)
    requires t !in Waiters(s, e) && Ranked(s, r, t)
    ensures Calm(s, r, e)
  {
    CalmSame(s, r, e);
  }

  lemma ValueRanked(s: Sched, t: Task, p: nat, q: nat)
    ensures Ranked(s, s.SetEventValue(t, p).Reprioritise(t, q), t)
  {
    hide Sched.Reprioritise, EventValue;
    RepriEvents(s.SetEventValue(t, p), t, q);
  }

  lemma PrioritySetRanked(s: Sched, t: Task, p: nat)
    ensures Ranked(s, s.PrioritySet(t, p), t)
  {
    hide Sched.Reprioritise, Sched.SetEventValue, Sched.PrioritySet, Clamp;
    var q := Clamp(p, s.priorities);
    PrioritySetIs(s, t, p);
    ValueRanked(s.(base := s.base[t := q]), t, q, if At(s.base, t) == s.Prio(t) then q else s.Prio(t));
  }

  lemma InheritRanked(s: Sched, t: Task)
    ensures Ranked(s, s.Inherit(t), t)
  {
    hide Sched.Reprioritise, Sched.SetEventValue;
    ValueRanked(s, t, s.Prio(s.current), s.Prio(s.current));
  }

  lemma DisinheritRanked(s: Sched, t: Task)
    ensures Ranked(s, s.Disinherit(t), t)
  {
    hide Sched.Reprioritise, EventValue;
    var h := s.(held := s.held[t := if At(s.held, t) > 0 then At(s.held, t) - 1 else 0]);
    RepriEvents(h.(eventValue := s.eventValue[t := EventValue(At(s.base, t), s.priorities)]), t, At(s.base, t));
  }

  /** Changing the priority of a task that is not in the list. */
  lemma RankCalm(s: Sched, t: Task, p: nat, e: nat)
    requires t !in Waiters(s, e)
    ensures Calm(s, s.PrioritySet(t, p), e) && Calm(s, s.Inherit(t), e) && Calm(s, s.Disinherit(t), e)
  {
    hide Ranked, Calm, Sched.PrioritySet, Sched.Inherit, Sched.Disinherit, Waiters;
    PrioritySetRanked(s, t, p);
    InheritRanked(s, t);
    DisinheritRanked(s, t);
    RankedCalm(s, s.PrioritySet(t, p), t, e);
    RankedCalm(s, s.Inherit(t), t, e);
    RankedCalm(s, s.Disinherit(t), t, e);
  }

  lemma AsideCalm(s: Sched, e: nat)
    requires Core(s) && s.IsReady(s.current)
    ensures Calm(s, s.IncrementHeld(), e) && Calm(s, s.ResetEventItemValue(), e) && SameRanks(s, s.IncrementHeld())
  {
    hide Core, Calm, EventValue, Store.Items;
    if s.current in Waiters(s, e) { WaiterPrio(s, e, s.current); }
    CalmSame(s, s.IncrementHeld(), e);
    CalmSame(s, s.ResetEventItemValue(), e);
  }

  /** Blocking on another object. */
  lemma PlaceCalm(s: Sched, a: nat, v: nat, wait: nat, forever: bool, e: nat)
    requires Core(s) && a != e && s.current !in s.events.container
    ensures Calm(s, s.PlaceOnEventList(a, wait), e) && Calm(s, s.PlaceOnUnorderedEventList(a, v, wait), e)
    ensures Calm(s, s.PlaceOnEventListRestricted(a, wait, forever), e)
  {
    if s.current in Waiters(s, e) { WaiterPrio(s, e, s.current); }
    hide Core, Calm, Sched.DelayCurrent, InsertPlace, ValuesOf, Store.InsertAt, Store.InsertEnd, Store.Items;
    var k := InsertPlace(ValuesOf(s.events.Items(EventL(a)), s.eventValue), At(s.eventValue, s.current));
    PlaceEvents(s, a, v, wait, forever);
    InsertApart(s.events, a, k, s.current, e);
    CalmSame(s, s.PlaceOnEventList(a, wait), e);
    CalmSame(s, s.PlaceOnUnorderedEventList(a, v, wait), e);
    CalmSame(s, s.PlaceOnEventListRestricted(a, wait, forever), e);
  }

  lemma InsertApart(s: Events, a: nat, k: nat, t: Task, e: nat)
    requires a != e
    ensures s.InsertEnd(EventL(a), t).Items(EventL(e)) == s.Items(EventL(e)) == s.InsertAt(EventL(a), k, t).Items(EventL(e))
  {
    hide Ring.InsertAt, Ring.EndPlace;
  }

  /** What blocking on an object does to the event lists and values. */
  lemma PlaceEvents(s: Sched, e: nat, v: nat, wait: nat, forever: bool)
    ensures var k := InsertPlace(ValuesOf(s.events.Items(EventL(e)), s.eventValue), At(s.eventValue, s.current));
      var r := s.PlaceOnEventList(e, wait);
      r.events == s.events.InsertAt(EventL(e), k, s.current) && SameRanks(s, r)
    ensures var r := s.PlaceOnUnorderedEventList(e, v, wait);
      r.events == s.events.InsertEnd(EventL(e), s.current) && SameRanks(s.(eventValue := s.eventValue[s.current := v]), r)
    ensures var r := s.PlaceOnEventListRestricted(e, wait, forever);
      r.events == s.events.InsertEnd(EventL(e), s.current) && SameRanks(s, r)
  {
    hide Sched.DelayCurrent, InsertPlace, ValuesOf, Store.InsertAt, Store.InsertEnd, Store.Items;
    var k := InsertPlace(ValuesOf(s.events.Items(EventL(e)), s.eventValue), At(s.eventValue, s.current));
    var a, b := s.(events := s.events.InsertAt(EventL(e), k, s.current)), s.(events := s.events.InsertEnd(EventL(e), s.current));
    var c := b.(eventValue := s.eventValue[s.current := v]);
    DelayIgnoresEvents(a, a.events, a.eventValue, wait, true);
    DelayIgnoresEvents(b, b.events, b.eventValue, if forever then s.MaxDelay() else wait, forever);
    DelayIgnoresEvents(c, c.events, c.eventValue, wait, true);
    DelayAside(a, wait, true);
    DelayAside(b, if forever then s.MaxDelay() else wait, forever);
    DelayAside(c, wait, true);
  }

  /** Waking a waiter of any object. */
  lemma WakeCalm(s: Sched, a: nat, t: Task, v: nat, e: nat)
    requires Core(s)
    ensures Calm(s, s.RemoveFromEventList(a), e) && Calm(s, s.RemoveFromUnorderedEventList(t, v), e)
    ensures SameRanks(s, s.RemoveFromEventList(a)) && SameRanks(s.(eventValue := s.eventValue[t := v]), s.RemoveFromUnorderedEventList(t, v))
  {
    hide Core, Calm, Store.Remove, Store.InsertEnd, Store.Items, Sched.RemoveFromEventList, Sched.MoveToReady;
    MoveFields(s.(eventValue := s.eventValue[t := v], events := s.events.Remove(t)), t);
    WakeAside(s, a);
    if s.events.Items(EventL(a)) == [] {
      CalmSame(s, s.RemoveFromEventList(a), e);
    } else {
      var x := s.events.Items(EventL(a))[0];
      CalmRemove(s, s.RemoveFromEventList(a), e, x);
    }
    CalmRemove(s, s.RemoveFromUnorderedEventList(t, v), e, t);
  }

  lemma WakeAside(s: Sched, a: nat)
    ensures var r := s.RemoveFromEventList(a);
      && SameRanks(s, r)
      && if s.events.Items(EventL(a)) == [] then r == s else
           var x := s.events.Items(EventL(a))[0]; r.events == s.events.Remove(x) || r.events == s.events.Remove(x).InsertEnd(PendingL, x)
  {
    hide Store.Remove, Store.InsertEnd, Store.Items, Sched.MoveToReady;
    if s.events.Items(EventL(a)) != [] {
      var x := s.events.Items(EventL(a))[0];
      MoveFields(s.(events := s.events.Remove(x)), x);
    }
  }

  // ----- ticks and resuming -----

  lemma {:induction false} WakeDueCalm(s: Sched, e: nat)
    requires Core(s)
    ensures Calm(s, s.WakeDue(), e) && SameRanks(s, s.WakeDue())
    decreases |s.Delayed()|
  {
    hide Core, Calm, Sched.WakeFirst, Sched.Delayed;
    if s.Delayed() != [] && At(s.value, s.Delayed()[0]) <= s.tick {
      WakeFirstKeeps(s);
      WakeFirstCalm(s, e);
      WakeDueCalm(s.WakeFirst(), e);
      CalmThen(s, s.WakeFirst(), s.WakeDue(), e);
    } else {
      CalmSame(s, s.WakeDue(), e);
    }
  }

  lemma WakeFirstCalm(s: Sched, e: nat)
    requires Core(s) && s.Delayed() != []
    ensures Calm(s, s.WakeFirst(), e) && SameRanks(s, s.WakeFirst())
  {
    hide Core, Calm, Store.Remove, Store.InsertEnd, Sched.Delayed;
    CalmRemove(s, s.WakeFirst(), e, s.Delayed()[0]);
  }

  lemma TickCalm(s: Sched, e: nat)
    requires Inv(s)
    ensures Calm(s, s.Tick(), e) && SameRanks(s, s.Tick())
  {
    hide Inv, Core, Calm, SameRanks, Sched.Advance, Sched.WakeDue;
    AdvanceCounts(s);
    AdvanceCalm(s, e);
    WakeDueCalm(s.Advance(), e);
    CalmThen(s, s.Advance(), s.Advance().WakeDue(), e);
    SameThen(s, s.Advance(), s.Advance().WakeDue());
    if s.suspended > 0 { PendCalm(s, e); }
  }

  lemma AdvanceCalm(s: Sched, e: nat)
    ensures Calm(s, s.Advance(), e) && SameRanks(s, s.Advance())
  {
    hide Calm, Sched.ResetNext;
    ResetNextAside(s.(tick := 0, delayed := !s.delayed, overflows := s.overflows + 1));
    CalmSame(s, s.Advance(), e);
  }

  lemma PendCalm(s: Sched, e: nat)
    ensures Calm(s, s.(pended := s.pended + 1), e) && SameRanks(s, s.(pended := s.pended + 1))
  {
    CalmSame(s, s.(pended := s.pended + 1), e);
  }

  lemma MoveOneCalm(s: Sched, e: nat)
    requires Core(s.(suspended := 1)) && s.Pending() != []
    ensures Calm(s, s.MoveOnePending(), e) && SameRanks(s, s.MoveOnePending())
  {
    hide Core, Calm, Store.Remove, Store.InsertEnd, Sched.Pending;
    var z := s.(suspended := 1);
    CalmSame(s, z, e);
    CalmRemove(z, s.MoveOnePending(), e, s.Pending()[0]);
    CalmThen(s, z, s.MoveOnePending(), e);
  }

  lemma {:induction false} MovePendingCalm(s: Sched, e: nat)
    requires Core(s.(suspended := 1)) && Ahead(s)
    ensures Calm(s, s.MovePending(), e) && SameRanks(s, s.MovePending())
    decreases |s.Pending()|
  {
    hide Core, Ahead, Calm, Sched.MoveOnePending, Sched.Pending;
    if s.Pending() != [] {
      MoveOnePendingKeeps(s);
      MoveOneCalm(s, e);
      MovePendingCalm(s.MoveOnePending(), e);
      CalmThen(s, s.MoveOnePending(), s.MovePending(), e);
    } else {
      CalmSame(s, s, e);
    }
  }

  lemma {:induction false} RunPendedCalm(s: Sched, n: nat, e: nat)
    requires Inv(s) && s.suspended == 0
    ensures Calm(s, s.RunPended(n), e) && SameRanks(s, s.RunPended(n))
    decreases n
  {
    hide *;
    RunPendedStep(s, n);
    if n > 0 {
      var y := s.yieldPending || s.TickSwitches();
      var u := WithFlags(s.Tick(), y, s.Tick().pended);
      TickIsOneTick(s);
      FlagFacts(s.Tick(), y, s.Tick().pended, false, 0);
      TickCalm(s, e);
      FlagsCalm(s.Tick(), y, s.Tick().pended, e);
      RunPendedCalm(u, n - 1, e);
      CalmThen(s, s.Tick(), u, e);
      CalmThen(s, u, u.RunPended(n - 1), e);
      SameThen(s, s.Tick(), u);
      SameThen(s, u, u.RunPended(n - 1));
    } else {
      CalmSame(s, s, e);
      SameItself(s);
    }
  }

  lemma SameThen(s: Sched, q: Sched, r: Sched)
    requires SameRanks(s, q) && SameRanks(q, r)
    ensures SameRanks(s, r)
  {
  }

  lemma SameItself(s: Sched)
    ensures SameRanks(s, s)
  {
  }

  lemma FlagsCalm(s: Sched, y: bool, k: nat, e: nat)
    ensures Calm(s, WithFlags(s, y, k), e) && SameRanks(s, WithFlags(s, y, k))
  {
    CalmSame(s, WithFlags(s, y, k), e);
  }

  lemma ResumeAllCalm(s: Sched, e: nat)
    requires Inv(s)
    ensures Calm(s, s.ResumeAll(), e) && SameRanks(s, s.ResumeAll())
  {
    if s.suspended == 1 {
      OutermostCalm(s, e);
    } else {
      CalmSame(s, s.ResumeAll(), e);
    }
    hide Calm, Sched.RunPended, Sched.MovePending, Sched.ResetNext;
  }

  lemma OutermostCalm(s: Sched, e: nat)
    requires Inv(s) && s.suspended == 1
    ensures Calm(s, s.ResumeAll(), e) && SameRanks(s, s.ResumeAll())
  {
    hide Inv, Core, Ahead, Calm, Sched.RunPended, Sched.MovePending, Sched.ResetNext, Sched.Pending;
    var r := s.(suspended := 0);
    var m := if r.Pending() == [] then r else r.MovePending().ResetNext();
    InvCore(s);
    CountPositive(s);
    OutermostMove(s, r, m);
    MovedCalm(s, r, m, e);
    RunPendedCalm(m, s.pended, e);
    CalmThen(s, m, m.RunPended(s.pended), e);
    var u := m.RunPended(s.pended);
    CalmSame(u, u.(pended := 0), e);
    CalmThen(s, u, u.(pended := 0), e);
    assert s.ResumeAll() == u.(pended := 0);
  }

  lemma MovedCalm(s: Sched, r: Sched, m: Sched, e: nat)
    requires Core(s) && Ahead(s) && s.suspended == 1 && r == s.(suspended := 0)
    requires m == if r.Pending() == [] then r else r.MovePending().ResetNext()
    ensures Calm(s, m, e) && SameRanks(s, m)
  {
    hide Core, Ahead, Calm, Sched.MovePending, Sched.ResetNext, Sched.Pending;
    CalmSame(s, r, e);
    assert r.(suspended := 1) == s;
    AheadStands(s, r);
    MovePendingCalm(r, e);
    ResetNextAside(r.MovePending());
    CalmSame(r.MovePending(), r.MovePending().ResetNext(), e);
    CalmThen(s, r, r.MovePending(), e);
    CalmThen(s, r.MovePending(), r.MovePending().ResetNext(), e);
  }

  lemma AheadStands(s: Sched, r: Sched)
    requires Ahead(s) && r == s.(suspended := r.suspended)
    ensures Ahead(r)
  {
  }

  // ----- filing -----

  lemma ByValueSame(ts: seq<Task>, v: map<Task, nat>, w: map<Task, nat>)
    requires forall t :: t in ts ==> At(v, t) == At(w, t)
    ensures ByValue(ts, v) <==> ByValue(ts, w)
  {
  }

  /** The running task has no more priority than the waiters before place `k`, and no less than those behind. */
  ghost predicate FitsAt(s: Sched, e: nat, k: nat) {
    forall i :: 0 <= i < |Waiters(s, e)| ==>
      if i < k then s.Prio(s.current) <= s.Prio(Waiters(s, e)[i]) else s.Prio(Waiters(s, e)[i]) <= s.Prio(s.current)
  }

  /** The running task joins the list at place `k`. */
  lemma JoinOrdered(s: Sched, r: Sched, e: nat, k: nat)
    requires Core(s) && Ordered(s, e) && k <= |Waiters(s, e)| && s.current !in s.events.container
    requires Waiters(r, e) == With(Waiters(s, e), k, s.current) && r.prio == s.prio && r.priorities == s.priorities
    requires forall t :: t != s.current ==> At(r.eventValue, t) == At(s.eventValue, t)
    ensures Ordered(r, e) <==> Agrees(r, s.current) && FitsAt(s, e, k)
  {
    var ws, c := Waiters(s, e), s.current;
    TaskFacts(s, c);
    forall t | t in ws ensures s.Prio(t) < s.priorities && t != c && (Agrees(r, t) <==> Agrees(s, t)) { WaiterPrio(s, e, t); }
    WithMembers(ws, k, c);
    hide Core, NoDup;
    if Agrees(r, c) { JoinSorted(s, r, ws, k, c); }
    assert Waiters(r, e)[k] == c;
  }

  lemma JoinSorted(s: Sched, r: Sched, ws: seq<Task>, k: nat, c: Task)
    requires k <= |ws| && c !in ws && ByValue(ws, s.eventValue) && s.Prio(c) < s.priorities
    requires forall t :: t in ws ==> s.Prio(t) < s.priorities && Agrees(s, t) && At(r.eventValue, t) == At(s.eventValue, t)
    requires Agrees(r, c) && r.prio == s.prio && r.priorities == s.priorities
    ensures ByValue(With(ws, k, c), r.eventValue) <==>
      forall i :: 0 <= i < |ws| ==> if i < k then s.Prio(c) <= s.Prio(ws[i]) else s.Prio(ws[i]) <= s.Prio(c)
  {
    var us := With(ws, k, c);
    forall i | 0 <= i < |ws| ensures (At(s.eventValue, ws[i]) <= At(r.eventValue, c) <==> s.Prio(c) <= s.Prio(ws[i])) &&
                                     (At(r.eventValue, c) <= At(s.eventValue, ws[i]) <==> s.Prio(ws[i]) <= s.Prio(c)) {
      assert Agrees(s, ws[i]);
    }
    hide EventValue, Agrees;
    if ByValue(us, r.eventValue) {
      forall i | 0 <= i < |ws| ensures if i < k then s.Prio(c) <= s.Prio(ws[i]) else s.Prio(ws[i]) <= s.Prio(c) {
        assert us[k] == c && us[if i < k then i else i + 1] == ws[i];
      }
    }
  }

  /** Where `vListInsertEnd` files in the list of `e`. */
  function EndPlace(s: Sched, e: nat): nat {
    if EventL(e) in s.events.lists && s.events.lists[EventL(e)].index <= |Waiters(s, e)| then s.events.lists[EventL(e)].EndPlace() else 0
  }

  lemma PlaceOnFacts(s: Sched, e: nat)
    requires Core(s) && EventL(e) in s.events.lists && s.current !in s.events.container
    ensures var ws, k := Waiters(s, e), InsertPlace(ValuesOf(Waiters(s, e), s.eventValue), At(s.eventValue, s.current));
      && k <= |ws| && s.events.InsertAt(EventL(e), k, s.current).Items(EventL(e)) == With(ws, k, s.current)
      && EndPlace(s, e) <= |ws| && s.events.InsertEnd(EventL(e), s.current).Items(EventL(e)) == With(ws, EndPlace(s, e), s.current)
  {
    EventsValid(s);
    ValuesLength(Waiters(s, e), s.eventValue);
    InsertAtKeeps(s.events, EventL(e), InsertPlace(ValuesOf(Waiters(s, e), s.eventValue), At(s.eventValue, s.current)), s.current);
    InsertEndKeeps(s.events, EventL(e), s.current);
    hide Core, ValuesOf, InsertPlace, Store.InsertAt, Store.InsertEnd;
  }

  /** Sorted insertion by a task whose value agrees keeps the order; by any other task it does not. */
  lemma PlaceOrdered(s: Sched, e: nat, wait: nat)
    requires Inv(s) && MayBlock(s, wait) && EventL(e) in s.events.lists && Ordered(s, e)
    ensures Ordered(s.PlaceOnEventList(e, wait), e) <==> Agrees(s, s.current)
  {
    hide *;
    var r, k := s.PlaceOnEventList(e, wait), SortedPlaceOf(s, e);
    InvCore(s);
    NotWaiting(s, wait);
    PlaceOnFacts(s, e);
    PlaceEvents(s, e, 0, wait, false);
    PlacedAt(s, r, e);
    JoinOrdered(s, r, e, k);
    if Agrees(s, s.current) { SortedFits(s, e); }
  }

  lemma PlacedAt(s: Sched, r: Sched, e: nat)
    requires var ws, k := Waiters(s, e), InsertPlace(ValuesOf(Waiters(s, e), s.eventValue), At(s.eventValue, s.current));
      k <= |ws| && s.events.InsertAt(EventL(e), k, s.current).Items(EventL(e)) == With(ws, k, s.current)
    requires var k := InsertPlace(ValuesOf(s.events.Items(EventL(e)), s.eventValue), At(s.eventValue, s.current));
      r.events == s.events.InsertAt(EventL(e), k, s.current) && SameRanks(s, r)
    ensures SortedPlaceOf(s, e) <= |Waiters(s, e)| && Waiters(r, e) == With(Waiters(s, e), SortedPlaceOf(s, e), s.current)
    ensures r.prio == s.prio && r.priorities == s.priorities && r.eventValue == s.eventValue && (Agrees(r, s.current) <==> Agrees(s, s.current))
  {
    hide Store.InsertAt, ValuesOf, With, InsertPlace;
  }

  lemma SortedFits(s: Sched, e: nat)
    requires Core(s) && Ordered(s, e) && Agrees(s, s.current)
    ensures FitsAt(s, e, SortedPlaceOf(s, e))
  {
    SortedPlace(s, e);
    hide Core, Ordered, Agrees, ValuesOf;
  }

  /** Filing at the end keeps the order when the value agrees and the end is the right place. */
  lemma AppendOrdered(s: Sched, e: nat, v: nat, wait: nat, forever: bool)
    requires Inv(s) && MayBlock(s, wait) && EventL(e) in s.events.lists && Ordered(s, e)
    ensures var k := EndPlace(s, e);
      && (Ordered(s.PlaceOnUnorderedEventList(e, v, wait), e) <==> v == EventValue(s.Prio(s.current), s.priorities) && FitsAt(s, e, k))
      && (Ordered(s.PlaceOnEventListRestricted(e, wait, forever), e) <==> Agrees(s, s.current) && FitsAt(s, e, k))
  {
    var a, b := s.PlaceOnUnorderedEventList(e, v, wait), s.PlaceOnEventListRestricted(e, wait, forever);
    InvCore(s);
    NotWaiting(s, wait);
    PlaceOnFacts(s, e);
    PlaceEvents(s, e, v, wait, forever);
    hide Inv, Core, MayBlock, Ordered, FitsAt, Sched.PlaceOnUnorderedEventList, Sched.PlaceOnEventListRestricted, Store.InsertEnd, ValuesOf;
    hide EndPlace;
    JoinOrdered(s, a, e, EndPlace(s, e));
    JoinOrdered(s, b, e, EndPlace(s, e));
    assert Agrees(b, s.current) <==> Agrees(s, s.current);
  }

  // ----- changing the rank of a waiter -----

  /** Priority `q` is right for `t` where it stands among the waiters. */
  ghost predicate Fits(s: Sched, e: nat, t: Task, q: nat) {
    forall i, j :: 0 <= i < j < |Waiters(s, e)| ==>
      && (Waiters(s, e)[j] == t ==> q <= s.Prio(Waiters(s, e)[i]))
      && (Waiters(s, e)[i] == t ==> s.Prio(Waiters(s, e)[j]) <= q)
  }

  lemma RankedOrdered(s: Sched, r: Sched, e: nat, t: Task)
    requires Core(s) && Ordered(s, e) && t in Waiters(s, e) && Ranked(s, r, t) && r.Prio(t) < s.priorities
    ensures Ordered(r, e) <==> Agrees(r, t) && Fits(s, e, t, r.Prio(t))
  {
    var ws := Waiters(s, e);
    EventsValid(s);
    RemoveDrops(s.events, t, EventL(e));
    forall u | u in ws ensures s.Prio(u) < s.priorities && (u != t ==> (Agrees(r, u) <==> Agrees(s, u))) { WaiterPrio(s, e, u); }
    hide Core;
    if Agrees(r, t) { RankSorted(s, r, e, ws, t); }
    assert Waiters(r, e) == ws;
  }

  lemma RankSorted(s: Sched, r: Sched, e: nat, ws: seq<Task>, t: Task)
    requires ws == Waiters(s, e) && NoDup(ws) && ByValue(ws, s.eventValue) && Ranked(s, r, t) && r.Prio(t) < s.priorities && Agrees(r, t)
    requires forall u :: u in ws ==> s.Prio(u) < s.priorities && Agrees(s, u)
    ensures ByValue(ws, r.eventValue) <==> Fits(s, e, t, r.Prio(t))
  {
    forall i | 0 <= i < |ws| ensures (At(s.eventValue, ws[i]) <= At(r.eventValue, t) <==> r.Prio(t) <= s.Prio(ws[i])) &&
                                     (At(r.eventValue, t) <= At(s.eventValue, ws[i]) <==> s.Prio(ws[i]) <= r.Prio(t)) {
      assert Agrees(s, ws[i]);
    }
    hide EventValue, Agrees;
    if ByValue(ws, r.eventValue) {
      forall i, j | 0 <= i < j < |ws|
        ensures (ws[j] == t ==> r.Prio(t) <= s.Prio(ws[i])) && (ws[i] == t ==> s.Prio(ws[j]) <= r.Prio(t))
      {
        assert ws[i] != ws[j] && At(r.eventValue, ws[i]) <= At(r.eventValue, ws[j]);
      }
    }
    if Fits(s, e, t, r.Prio(t)) {
      forall i, j | 0 <= i < j < |ws| ensures At(r.eventValue, ws[i]) <= At(r.eventValue, ws[j]) {
        assert ws[i] != ws[j] && At(s.eventValue, ws[i]) <= At(s.eventValue, ws[j]);
      }
    }
  }

  /** No priority has a value with the flag of the event groups. */
  ghost predicate Room(s: Sched) { s.priorities < s.inUse }

  /** The value and priorities that `vTaskPrioritySet` leaves. */
  lemma PrioritySetRank(s: Sched, t: Task, p: nat)
    requires Room(s) && Agrees(s, t)
    ensures var r, q := s.PrioritySet(t, p), Clamp(p, s.priorities);
      && Ranked(s, r, t) && r.inUse == s.inUse
      && (At(s.base, t) == q ==> r == s)
      && (At(s.base, t) != q ==> At(r.eventValue, t) == EventValue(q, s.priorities) &&
                                 r.Prio(t) == if s.Prio(t) == At(s.base, t) then q else s.Prio(t))
  {
    var q := Clamp(p, s.priorities);
    PrioritySetRanked(s, t, p);
    PrioritySetIs(s, t, p);
    hide Sched.Reprioritise, Clamp, Sched.PrioritySet;
    if At(s.base, t) != q {
      var u := s.(base := s.base[t := q]).SetEventValue(t, q);
      RepriEvents(u, t, if At(s.base, t) == s.Prio(t) then q else s.Prio(t));
      assert At(u.eventValue, t) == EventValue(q, s.priorities) && u.prio == s.prio;
    }
  }

  /** Changing a priority leaves the value right exactly if the priority in use changes with it, or is already that. */
  lemma PrioritySetAgrees(s: Sched, t: Task, p: nat)
    requires Inv(s) && Room(s) && Live(s, t) && Agrees(s, t)
    ensures var q := Clamp(p, s.priorities);
      Agrees(s.PrioritySet(t, p), t) <==> At(s.base, t) == q || s.Prio(t) == At(s.base, t) || s.Prio(t) == q
  {
    PrioritySetRank(s, t, p);
    InvCore(s);
    TaskFacts(s, t);
    ClampBelow(p, s.priorities);
    EventValueOrder(Clamp(p, s.priorities), s.Prio(t), s.priorities);
    EventValueOrder(s.Prio(t), Clamp(p, s.priorities), s.priorities);
    hide Inv, Core, Room, Sched.PrioritySet, Clamp;
  }

  lemma PrioritySetOrdered(s: Sched, t: Task, p: nat, e: nat)
    requires Inv(s) && Room(s) && Ordered(s, e) && t in Waiters(s, e)
    ensures var q := Clamp(p, s.priorities);
      Ordered(s.PrioritySet(t, p), e) <==>
      At(s.base, t) == q || ((s.Prio(t) == At(s.base, t) || s.Prio(t) == q) && Fits(s, e, t, q))
  {
    var q := Clamp(p, s.priorities);
    InvCore(s);
    PrioritySetRank(s, t, p);
    WaiterPrio(s, e, t);
    ClampBelow(p, s.priorities);
    hide Inv, Core, Room, Ordered, Sched.PrioritySet, Clamp, Fits;
    if At(s.base, t) != q {
      RankedOrdered(s, s.PrioritySet(t, p), e, t);
      EventValueOrder(q, s.Prio(t), s.priorities);
    }
  }

  lemma EventValueOrder(p: nat, q: nat, priorities: nat)
    requires p < priorities && q < priorities
    ensures EventValue(p, priorities) <= EventValue(q, priorities) <==> q <= p
  {
  }

  lemma InheritRank(s: Sched, t: Task)
    requires Room(s) && Agrees(s, t)
    ensures var r := s.Inherit(t);
      && Ranked(s, r, t) && r.inUse == s.inUse && Agrees(r, t) && r.base == s.base
      && r.Prio(t) == if s.Prio(t) < s.Prio(s.current) then s.Prio(s.current) else s.Prio(t)
  {
    InheritRanked(s, t);
    hide Sched.Reprioritise;
    var u := s.SetEventValue(t, s.Prio(s.current));
    RepriEvents(u, t, s.Prio(s.current));
  }

  lemma InheritOrdered(s: Sched, t: Task, e: nat)
    requires Inv(s) && Room(s) && Ordered(s, e) && t in Waiters(s, e)
    ensures Ordered(s.Inherit(t), e) <==> s.Prio(s.current) <= s.Prio(t) || Fits(s, e, t, s.Prio(s.current))
  {
    InvCore(s);
    InheritRank(s, t);
    WaiterPrio(s, e, t);
    TaskFacts(s, s.current);
    InheritNothing(s, t);
    hide Inv, Core, Room, Ordered, Sched.Inherit, Fits;
    if s.Prio(t) < s.Prio(s.current) { RankedOrdered(s, s.Inherit(t), e, t); }
  }

  lemma InheritNothing(s: Sched, t: Task)
    ensures s.Prio(s.current) <= s.Prio(t) ==> s.Inherit(t) == s
  {
  }

  // ----- every step -----

  /** The steps after which the list of `e` is not ordered any more. */
  ghost predicate Disorders(s: Sched, step: Step, e: nat) {
    match step
    case PlaceOnEventList(a, wait) => a == e && !Agrees(s, s.current)
    case PlaceOnUnorderedEventList(a, v, wait) =>
      a == e && !(v == EventValue(s.Prio(s.current), s.priorities) && FitsAt(s, e, EndPlace(s, e)))
    case PlaceOnEventListRestricted(a, wait, forever) =>
      a == e && !(Agrees(s, s.current) && FitsAt(s, e, EndPlace(s, e)))
    case PrioritySet(t, p) =>
      var q := Clamp(p, s.priorities);
      t in Waiters(s, e) && At(s.base, t) != q && !((s.Prio(t) == At(s.base, t) || s.Prio(t) == q) && Fits(s, e, t, q))
    case Inherit(t) => t in Waiters(s, e) && s.Prio(t) < s.Prio(s.current) && !Fits(s, e, t, s.Prio(s.current))
    case _ => false
  }

  /** One step keeps the list of an object ordered exactly if it is none of those. */
  lemma OrderedStep(s: Sched, step: Step, e: nat)
    requires Inv(s) && Room(s) && Enabled(s, step) && Ordered(s, e)
    ensures Ordered(Apply(s, step), e) <==> !Disorders(s, step, e)
  {
    hide Inv, Room, Ordered, MayBlock, FitsAt, Fits, Clamp, EventValue, Agrees, Apply, Waiters;
    match step {
      case PlaceOnEventList(a, wait) => if a == e { PlaceOrdered(s, e, wait); } else { PlaceStepCalm(s, step, e); }
      case PlaceOnUnorderedEventList(a, v, wait) => if a == e { AppendOrdered(s, e, v, wait, false); } else { PlaceStepCalm(s, step, e); }
      case PlaceOnEventListRestricted(a, wait, forever) =>
        if a == e { AppendOrdered(s, e, 0, wait, forever); } else { PlaceStepCalm(s, step, e); }
      case PrioritySet(t, p) => if t in Waiters(s, e) { PrioritySetOrdered(s, t, p, e); } else { RankCalm(s, t, p, e); CalmOrdered(s, s.PrioritySet(t, p), e); }
      case Inherit(t) => if t in Waiters(s, e) { InheritOrdered(s, t, e); } else { RankCalm(s, t, 0, e); CalmOrdered(s, s.Inherit(t), e); }
      case _ => OtherStepCalm(s, step, e); CalmOrdered(s, Apply(s, step), e);
    }
    ApplyIs(s, step);
  }

  lemma ApplyIs(s: Sched, step: Step)
    ensures match step
      case PlaceOnEventList(a, wait) => Apply(s, step) == s.PlaceOnEventList(a, wait)
      case PlaceOnUnorderedEventList(a, v, wait) => Apply(s, step) == s.PlaceOnUnorderedEventList(a, v, wait)
      case PlaceOnEventListRestricted(a, wait, forever) => Apply(s, step) == s.PlaceOnEventListRestricted(a, wait, forever)
      case PrioritySet(t, p) => Apply(s, step) == s.PrioritySet(t, p)
      case Inherit(t) => Apply(s, step) == s.Inherit(t)
      case _ => true
  {
  }

  lemma PlaceStepCalm(s: Sched, step: Step, e: nat)
    requires Inv(s) && Enabled(s, step) && Ordered(s, e)
    requires (step.PlaceOnEventList? || step.PlaceOnUnorderedEventList? || step.PlaceOnEventListRestricted?) && step.e != e
    ensures Ordered(Apply(s, step), e)
  {
    hide Inv, Core, Ordered, Calm, SameRanks, Sched.PlaceOnEventList, Sched.PlaceOnUnorderedEventList, Sched.PlaceOnEventListRestricted;
    InvCore(s);
    match step {
      case PlaceOnEventList(a, wait) => PlaceCalm(s, a, 0, wait, false, e);
      case PlaceOnUnorderedEventList(a, v, wait) => PlaceCalm(s, a, v, wait, false, e);
      case PlaceOnEventListRestricted(a, wait, forever) => PlaceCalm(s, a, 0, wait, forever, e);
    }
    CalmOrdered(s, Apply(s, step), e);
  }

  lemma OtherStepCalm(s: Sched, step: Step, e: nat)
    requires Inv(s) && Enabled(s, step)
    requires !step.PlaceOnEventList? && !step.PlaceOnUnorderedEventList? && !step.PlaceOnEventListRestricted?
    requires !step.PrioritySet? && !step.Inherit?
    ensures Calm(s, Apply(s, step), e)
  {
    hide Inv, Core, Calm, MayBlock, Waiters;
    InvCore(s);
    match step {
      case Create(t, p) => CreateCalm(s, t, p, e);
      case Delete(t) => DeleteCalm(s, t, e);
      case Reap => ReapCalm(s, e);
      case Suspend(t) => SuspendCalm(s, t, e);
      case Resume(t) => ResumeCalm(s, t, e);
      case ResumeFromISR(t) => ResumeCalm(s, t, e);
      case Disinherit(t) => CurrentApart(s, e); RankCalm(s, t, 0, e);
      case IncrementHeld => AsideCalm(s, e);
      case ResetEventItemValue => AsideCalm(s, e);
      case Delay(wait) => DelayCalm(s, wait, e);
      case RemoveFromEventList(a) => WakeCalm(s, a, 0, 0, e);
      case RemoveFromUnorderedEventList(t, v) => WakeCalm(s, 0, t, v, e);
      case Tick => TickCalm(s, e);
      case SuspendAll => SuspendAllCalm(s, e);
      case ResumeAll => ResumeAllCalm(s, e);
      case SwitchContext => SwitchCalm(s, e);
    }
  }

  lemma CurrentApart(s: Sched, e: nat)
    requires Core(s) && s.IsReady(s.current)
    ensures s.current !in Waiters(s, e)
  {
    if s.current in Waiters(s, e) { WaiterPrio(s, e, s.current); }
  }

  // ----- every run -----

  ghost predicate NeverDisorders(s: Sched, steps: seq<Step>, e: nat)
    decreases |steps|
  {
    steps == [] || (!Disorders(s, steps[0], e) && NeverDisorders(Apply(s, steps[0]), steps[1..], e))
  }

  ghost predicate AlwaysOrdered(s: Sched, steps: seq<Step>, e: nat)
    decreases |steps|
  {
    Ordered(s, e) && (steps == [] || AlwaysOrdered(Apply(s, steps[0]), steps[1..], e))
  }

  /**
   * Over any legal run the list of an object is in order of priority all the way through exactly
   * when no task files itself there with a value that is not its priority's or at the wrong end, and
   * no waiter's priority is changed past another's or away from its value.
   */
  lemma {:induction false} OrderedThroughout(s: Sched, steps: seq<Step>, e: nat)
    requires Inv(s) && Room(s) && Ordered(s, e) && Legal(s, steps)
    ensures AlwaysOrdered(s, steps, e) <==> NeverDisorders(s, steps, e)
    decreases |steps|
  {
    hide Inv, Room, Ordered, Disorders, Enabled, Apply;
    if steps != [] {
      OrderedStep(s, steps[0], e);
      StepKeeps(s, steps[0]);
      RoomStays(s, steps[0]);
      NotOrdered(s, steps, e);
      if !Disorders(s, steps[0], e) { OrderedThroughout(Apply(s, steps[0]), steps[1..], e); }
    }
  }

  lemma NotOrdered(s: Sched, steps: seq<Step>, e: nat)
    ensures AlwaysOrdered(s, steps, e) && steps != [] ==> Ordered(Apply(s, steps[0]), e)
  {
    hide Ordered, Apply;
    if AlwaysOrdered(s, steps, e) && steps != [] { assert AlwaysOrdered(Apply(s, steps[0]), steps[1..], e); }
  }

  // ----- the value of one task -----

  /** The steps that leave the event item of `t` with a value that is not its priority's. */
  predicate Unsettles(s: Sched, step: Step, t: Task) {
    match step
    case PrioritySet(u, p) => u == t && !(At(s.base, t) == Clamp(p, s.priorities) || s.Prio(t) == At(s.base, t) || s.Prio(t) == Clamp(p, s.priorities))
    case PlaceOnUnorderedEventList(a, v, wait) => t == s.current && v != EventValue(s.Prio(t), s.priorities)
    case RemoveFromUnorderedEventList(u, v) => u == t && v != EventValue(s.Prio(t), s.priorities)
    case _ => false
  }

  /** The one task whose rank a step may change. */
  function Subject(s: Sched, step: Step): Task {
    match step
    case Create(t, p) => t
    case PrioritySet(t, p) => t
    case Inherit(t) => t
    case Disinherit(t) => t
    case RemoveFromUnorderedEventList(t, v) => t
    case _ => s.current
  }

  lemma SameOthers(s: Sched, r: Sched, t: Task)
    requires SameRanks(s, r)
    ensures OthersRank(s, r, t)
  {
  }

  /** The steps that change no rank. */
  predicate RanksStay(step: Step) {
    !step.Create? && !step.PrioritySet? && !step.Inherit? && !step.Disinherit? && !step.ResetEventItemValue? &&
    !step.PlaceOnUnorderedEventList? && !step.RemoveFromUnorderedEventList?
  }

  lemma StepSame(s: Sched, step: Step)
    requires Inv(s) && Enabled(s, step) && RanksStay(step)
    ensures SameRanks(s, Apply(s, step))
  {
    hide Inv, Core, Calm, MayBlock, SameRanks, Waiters;
    hide Sched.PlaceOnEventList, Sched.PlaceOnEventListRestricted, Sched.RemoveFromEventList;
    InvCore(s);
    match step {
      case Delete(t) => DeleteCalm(s, t, 0);
      case Reap => ReapCalm(s, 0);
      case Suspend(t) => SuspendCalm(s, t, 0);
      case Resume(t) => ResumeCalm(s, t, 0);
      case ResumeFromISR(t) => ResumeCalm(s, t, 0);
      case IncrementHeld => AsideCalm(s, 0);
      case Delay(wait) => DelayCalm(s, wait, 0);
      case PlaceOnEventList(a, wait) => PlaceEvents(s, a, 0, wait, false);
      case PlaceOnEventListRestricted(a, wait, forever) => PlaceEvents(s, a, 0, wait, forever);
      case RemoveFromEventList(a) => WakeCalm(s, a, 0, 0, 0);
      case Tick => TickCalm(s, 0);
      case SuspendAll => SuspendAllCalm(s, 0);
      case ResumeAll => ResumeAllCalm(s, 0);
      case SwitchContext => SwitchCalm(s, 0);
    }
  }

  /** A step changes the rank of at most one task. */
  lemma StepRanks(s: Sched, step: Step)
    requires Inv(s) && Enabled(s, step)
    ensures OthersRank(s, Apply(s, step), Subject(s, step))
  {
    if RanksStay(step) {
      StepSame(s, step);
      SameOthers(s, Apply(s, step), Subject(s, step));
    } else {
      StepRanksOne(s, step);
    }
    hide Inv, Enabled, Apply, OthersRank, RanksStay;
  }

  lemma StepRanksOne(s: Sched, step: Step)
    requires Inv(s) && Enabled(s, step) && !RanksStay(step)
    ensures OthersRank(s, Apply(s, step), Subject(s, step))
  {
    hide Inv, Core, MayBlock, SameRanks, OthersRank, Sched.PrioritySet, Sched.Inherit, Sched.Disinherit;
    hide Sched.PlaceOnUnorderedEventList, Sched.RemoveFromUnorderedEventList, Sched.Create, Sched.ResetEventItemValue;
    InvCore(s);
    match step {
      case Create(t, p) => CreateRanks(s, t, p);
      case PrioritySet(t, p) => PrioritySetRanked(s, t, p);
      case Inherit(t) => InheritRanked(s, t);
      case Disinherit(t) => DisinheritRanked(s, t);
      case ResetEventItemValue => ResetRanks(s);
      case PlaceOnUnorderedEventList(a, v, wait) => PlaceEvents(s, a, v, wait, false); ValueRanks(s, Apply(s, step), s.current, v);
      case RemoveFromUnorderedEventList(t, v) => WakeCalm(s, 0, t, v, 0); ValueRanks(s, Apply(s, step), t, v);
    }
  }

  lemma ValueRanks(s: Sched, r: Sched, t: Task, v: nat)
    requires SameRanks(s.(eventValue := s.eventValue[t := v]), r)
    ensures OthersRank(s, r, t) && At(r.eventValue, t) == v && r.Prio(t) == s.Prio(t)
  {
  }

  lemma CreateRanks(s: Sched, t: Task, p: nat)
    ensures OthersRank(s, s.Create(t, p), t) && Agrees(s.Create(t, p), t)
  {
    hide Store.InsertEnd, Clamp, EventValue;
  }

  lemma ResetRanks(s: Sched)
    ensures OthersRank(s, s.ResetEventItemValue(), s.current) && Agrees(s.ResetEventItemValue(), s.current)
  {
    hide EventValue;
  }

  lemma RoomStays(s: Sched, step: Step)
    requires Inv(s) && Room(s) && Enabled(s, step)
    ensures Room(Apply(s, step))
  {
    StepRanks(s, step);
    hide Inv, Enabled, Apply;
  }

  lemma DisinheritAgrees(s: Sched, t: Task)
    requires Agrees(s, t)
    ensures Agrees(s.Disinherit(t), t)
  {
    hide Sched.Reprioritise, EventValue;
    var h := s.(held := s.held[t := if At(s.held, t) > 0 then At(s.held, t) - 1 else 0]);
    RepriEvents(h.(eventValue := s.eventValue[t := EventValue(At(s.base, t), s.priorities)]), t, At(s.base, t));
  }

  /**
   * A task's value stays that of its priority in every step but these: its base priority is changed
   * to one that is not in use while it has an inherited priority, or an event group borrows the value.
   */
  lemma AgreesStep(s: Sched, step: Step, t: Task)
    requires Inv(s) && Room(s) && Enabled(s, step) && Agrees(s, t)
    ensures Agrees(Apply(s, step), t) <==> !Unsettles(s, step, t)
  {
    StepRanks(s, step);
    if t == Subject(s, step) {
      if RanksStay(step) { StepSame(s, step); } else { SubjectAgrees(s, step, t); }
    }
    hide Inv, Enabled, Apply, Clamp, EventValue, Room;
  }

  lemma SubjectAgrees(s: Sched, step: Step, t: Task)
    requires Inv(s) && Room(s) && Enabled(s, step) && Agrees(s, t) && t == Subject(s, step) && !RanksStay(step)
    ensures Agrees(Apply(s, step), t) <==> !Unsettles(s, step, t)
  {
    hide Inv, Core, Room, MayBlock, SameRanks, OthersRank, Clamp, Live, Sched.PrioritySet, Sched.Inherit, Sched.Disinherit;
    hide Sched.PlaceOnUnorderedEventList, Sched.RemoveFromUnorderedEventList, Sched.Create, Sched.ResetEventItemValue, EventValue;
    InvCore(s);
    match step {
      case Create(u, p) => CreateRanks(s, u, p);
      case PrioritySet(u, p) => PrioritySetAgrees(s, u, p);
      case Inherit(u) => InheritRank(s, u);
      case Disinherit(u) => DisinheritAgrees(s, u);
      case ResetEventItemValue => ResetRanks(s);
      case PlaceOnUnorderedEventList(a, v, wait) =>
        PlaceEvents(s, a, v, wait, false);
        ValueRanks(s, Apply(s, step), s.current, v);
        SamePriorities(s, Apply(s, step), v, t);
      case RemoveFromUnorderedEventList(u, v) =>
        WakeCalm(s, 0, u, v, 0);
        ValueRanks(s, Apply(s, step), u, v);
        SamePriorities(s, Apply(s, step), v, t);
    }
  }

  lemma SamePriorities(s: Sched, r: Sched, v: nat, t: Task)
    requires SameRanks(s.(eventValue := s.eventValue[t := v]), r)
    ensures r.priorities == s.priorities
  {
  }

  ghost predicate NeverUnsettles(s: Sched, steps: seq<Step>, t: Task)
    decreases |steps|
  {
    steps == [] || (!Unsettles(s, steps[0], t) && NeverUnsettles(Apply(s, steps[0]), steps[1..], t))
  }

  ghost predicate AlwaysAgrees(s: Sched, steps: seq<Step>, t: Task)
    decreases |steps|
  {
    Agrees(s, t) && (steps == [] || AlwaysAgrees(Apply(s, steps[0]), steps[1..], t))
  }

  /** Over any legal run the value of a task is that of its priority all the way through exactly when no such step comes. */
  lemma {:induction false} AgreesThroughout(s: Sched, steps: seq<Step>, t: Task)
    requires Inv(s) && Room(s) && Agrees(s, t) && Legal(s, steps)
    ensures AlwaysAgrees(s, steps, t) <==> NeverUnsettles(s, steps, t)
    decreases |steps|
  {
    hide Inv, Room, Agrees, Unsettles, Enabled, Apply;
    if steps != [] {
      AgreesStep(s, steps[0], t);
      StepKeeps(s, steps[0]);
      RoomStays(s, steps[0]);
      NotAgrees(s, steps, t);
      if !Unsettles(s, steps[0], t) { AgreesThroughout(Apply(s, steps[0]), steps[1..], t); }
    }
  }

  lemma NotAgrees(s: Sched, steps: seq<Step>, t: Task)
    ensures AlwaysAgrees(s, steps, t) && steps != [] ==> Agrees(Apply(s, steps[0]), t)
  {
    hide Agrees, Apply;
    if AlwaysAgrees(s, steps, t) && steps != [] { assert AlwaysAgrees(Apply(s, steps[0]), steps[1..], t); }
  }
}
