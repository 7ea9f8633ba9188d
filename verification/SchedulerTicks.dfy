/**
 * The tick handler against unbounded time: the two delayed lists, the wrapping tick count and the
 * cached next-unblock time implement the single ordered list of sleepers of `Timeline`.
 */
module SchedulerTicks {
  import opened Rings
  import opened Stores
  import opened Clock
  import opened Timeline
  import opened TwoLists
  import opened Scheduler
  import opened SchedulerInvariant

  /** The sleepers of the current epoch, then those of the next. */
  function Sleepers(s: Sched): seq<Sleeper> {
    Wakes(s.Delayed(), s.value, Epoch(s.overflows, s.ticks)) +
    Wakes(s.OverflowDelayed(), s.value, Epoch(s.overflows + 1, s.ticks))
  }

  function ReadyMap(s: Sched): ReadyLists {
    map p: nat | p < s.priorities && ReadyL(p) in s.states.lists :: s.states.lists[ReadyL(p)]
  }

  /** The scheduler in unbounded time. */
  function ViewOf(s: Sched): View {
    View(Epoch(s.overflows, s.ticks) + s.tick, Sleepers(s), ReadyMap(s), s.events)
  }

  // ----- waking one task -----

  /** Waking the head of the current delayed list changes that list and one ready list. */
  lemma WakeFirstLists(s: Sched)
    requires Core(s) && s.Delayed() != []
    ensures var r, t := s.WakeFirst(), s.Delayed()[0];
      && t in s.prio && r.Delayed() == s.Delayed()[1..] && r.OverflowDelayed() == s.OverflowDelayed()
      && ReadyMap(r) == MakeReady(ReadyMap(s), s.prio, t)
  {
    hide Structured, ReadyOk, EventsOk, DelaysSorted, Counted, Valid;
    var t, l := s.Delayed()[0], DelayedL(s.delayed);
    ListFacts(s);
    assert t in s.states.Items(l);
    TaskFacts(s, t);
    StateLists(s);
    MoveLists(s.states, t, ReadyL(s.Prio(t)));
    hide Store.Remove, Store.InsertEnd;
    RemoveHead(s.states.lists[l]);
    assert s.WakeFirst().states.lists ==
      s.states.lists[l := s.states.lists[l].Remove(t)][ReadyL(s.Prio(t)) := s.states.lists[ReadyL(s.Prio(t))].InsertEnd(t)];
    hide Ring.Remove, Ring.InsertEnd;
  }

  lemma StateLists(s: Sched)
    requires Core(s)
    ensures Valid(s.states)
    ensures forall p: nat :: ReadyL(p) in s.states.lists <==> p < s.priorities
    ensures forall l :: l in s.states.lists ==> s.states.lists[l].Valid()
    ensures forall b :: DelayedL(b) in s.states.lists
  {
  }

  lemma WakeFirstFields(s: Sched)
    requires s.Delayed() != []
    ensures var r := s.WakeFirst();
      && r.value == s.value && r.overflows == s.overflows && r.ticks == s.ticks && r.tick == s.tick && r.prio == s.prio
      && r.events == s.events.Remove(s.Delayed()[0])
  {
    hide Store.Remove, Store.InsertEnd;
  }

  lemma WakeFirstView(s: Sched)
    requires Core(s) && s.Delayed() != []
    ensures Sleepers(s) != [] && ViewOf(s.WakeFirst()) == Release(ViewOf(s), s.prio)
    ensures Sleepers(s)[0] == Sleeper(s.Delayed()[0], Epoch(s.overflows, s.ticks) + At(s.value, s.Delayed()[0]))
  {
    hide *;
    WakeFirstLists(s);
    WakeFirstFields(s);
    var t, a, b := s.Delayed()[0], Epoch(s.overflows, s.ticks), Epoch(s.overflows + 1, s.ticks);
    WakesTail(s.Delayed(), s.value, a, Wakes(s.OverflowDelayed(), s.value, b));
    SleepersAre(s);
    SleepersAre(s.WakeFirst());
    ReleaseIs(ViewOf(s), s.prio);
  }

  lemma SleepersAre(s: Sched)
    ensures ViewOf(s) == View(Epoch(s.overflows, s.ticks) + s.tick, Sleepers(s), ReadyMap(s), s.events)
    ensures Sleepers(s) == Wakes(s.Delayed(), s.value, Epoch(s.overflows, s.ticks)) +
                           Wakes(s.OverflowDelayed(), s.value, Epoch(s.overflows + 1, s.ticks))
    ensures s.Delayed() != [] ==> Sleepers(s) != []
  {
  }

  lemma ReleaseIs(v: View, prio: map<Task, nat>)
    requires v.sleepers != []
    ensures Release(v, prio) == View(v.now, v.sleepers[1..], MakeReady(v.ready, prio, v.sleepers[0].task),
                                     v.events.Remove(v.sleepers[0].task))
  {
  }

  lemma WakeFirstKeeps(s: Sched)
    requires Core(s) && s.Delayed() != []
    ensures Core(s.WakeFirst()) && |s.WakeFirst().Delayed()| < |s.Delayed()|
    ensures s.WakeFirst().states.container == s.states.container[s.Delayed()[0] := ReadyL(s.Prio(s.Delayed()[0]))]
  {
    hide Structured, ReadyOk, EventsOk, DelaysSorted, Counted, Valid;
    var t := s.Delayed()[0];
    ListFacts(s);
    assert t in s.states.Items(DelayedL(s.delayed));
    TaskFacts(s, t);
    LeaveEvents(s, t);
    MoveToReadyKeeps(s.(events := s.events.Remove(t)), t);
    WakeFirstLists(s);
  }

  // ----- the loop of the tick handler -----

  /** The loop of the tick handler releases exactly the sleepers that are due. */
  lemma {:induction false} WakeDueReleases(s: Sched)
    requires Core(s)
    ensures Core(s.WakeDue()) && Ahead(s.WakeDue())
    ensures ViewOf(s.WakeDue()) == ReleaseDue(ViewOf(s), s.prio)
    decreases |s.Delayed()|
  {
    hide Structured, ReadyOk, EventsOk, DelaysSorted, Counted, ViewOf, Sched.WakeFirst;
    if s.Delayed() == [] {
      WakeDueStops(s);
    } else {
      WakeFirstView(s);
      if s.tick < At(s.value, s.Delayed()[0]) {
        WakeDueStops(s);
      } else {
        WakeFirstKeeps(s);
        WakeDueReleases(s.WakeFirst());
        ViewFields(s);
      }
    }
  }

  lemma ViewFields(s: Sched)
    ensures ViewOf(s).sleepers == Sleepers(s) && ViewOf(s).now == Epoch(s.overflows, s.ticks) + s.tick
    ensures s.Delayed() != [] ==> s.WakeFirst().prio == s.prio
  {
  }

  /** Once the head of the current delayed list is in the future, so is the whole list. */
  lemma HeadIsEarliest(s: Sched, t: Task)
    requires Core(s) && s.states.In(t, DelayedL(s.delayed))
    ensures s.Delayed() != [] && At(s.value, s.Delayed()[0]) <= At(s.value, t) < s.ticks
  {
    hide ReadyOk, EventsOk, Counted;
    assert s.states.Linked(t) && t in s.Delayed();
    var i := IndexOf(s.Delayed(), t);
  }

  lemma NextEpochIsLater(s: Sched)
    requires s.tick < s.ticks && s.Delayed() == [] && Sleepers(s) != []
    ensures ViewOf(s).now < Sleepers(s)[0].wake
  {
    EpochStep(s.overflows, s.ticks);
  }

  lemma WakeDueStops(s: Sched)
    requires Core(s) && (s.Delayed() == [] || s.tick < At(s.value, s.Delayed()[0]))
    ensures Core(s.WakeDue()) && Ahead(s.WakeDue())
    ensures ViewOf(s.WakeDue()) == ViewOf(s) == ReleaseDue(ViewOf(s), s.prio)
  {
    hide Structured, ReadyOk, EventsOk, DelaysSorted, Counted;
    var r := s.(next := if s.Delayed() == [] then s.MaxDelay() else At(s.value, s.Delayed()[0]));
    assert s.WakeDue() == r;
    StopsAhead(s, r);
    StopsView(s, r);
    hide Ahead, ViewOf, ReleaseDue, Sched.WakeDue;
  }

  lemma StopsAhead(s: Sched, r: Sched)
    requires Core(s) && (s.Delayed() == [] || s.tick < At(s.value, s.Delayed()[0]))
    requires r == s.(next := if s.Delayed() == [] then s.MaxDelay() else At(s.value, s.Delayed()[0]))
    ensures Ahead(r)
  {
    hide Structured, ReadyOk, EventsOk, DelaysSorted, Counted;
    if s.Delayed() != [] { HeadInList(s); }
    forall t | t in s.states.container && s.states.container[t] == DelayedL(s.delayed)
      ensures s.tick + 1 < s.ticks && s.tick <= At(s.value, t) && r.next <= At(s.value, t)
    {
      HeadIsEarliest(s, t);
    }
  }

  lemma StopsView(s: Sched, r: Sched)
    requires Core(s) && (s.Delayed() == [] || s.tick < At(s.value, s.Delayed()[0]))
    requires r == s.(next := if s.Delayed() == [] then s.MaxDelay() else At(s.value, s.Delayed()[0]))
    ensures ViewOf(r) == ViewOf(s) == ReleaseDue(ViewOf(s), s.prio)
  {
    CoreTick(s);
    hide *;
    if s.Delayed() != [] { WakeFirstView(s); } else if Sleepers(s) != [] { NextEpochIsLater(s); }
    SleepersAre(s);
    NextOnly(s, r.next);
    NotDue(ViewOf(s), s.prio);
  }

  lemma CoreTick(s: Sched)
    requires Core(s)
    ensures s.tick < s.ticks
  {
    hide Structured, ReadyOk, EventsOk, DelaysSorted, Counted;
  }

  lemma NextOnly(s: Sched, n: nat)
    ensures ViewOf(s.(next := n)) == ViewOf(s)
  {
  }

  lemma NotDue(v: View, prio: map<Task, nat>)
    requires v.sleepers != [] ==> v.now < v.sleepers[0].wake
    ensures ReleaseDue(v, prio) == v
  {
    hide Release;
  }

  lemma HeadInList(s: Sched)
    requires Core(s) && s.Delayed() != []
    ensures s.states.In(s.Delayed()[0], DelayedL(s.delayed)) && At(s.value, s.Delayed()[0]) < s.ticks
  {
    hide ReadyOk, EventsOk, Counted;
    assert s.Delayed()[0] in s.Delayed();
  }

  // ----- the whole tick -----

  /** At the last tick value no task is left in the current delayed list, so the lists may be switched. */
  lemma DelayedEmptyAtSwitch(s: Sched)
    requires Inv(s) && s.tick + 1 == s.ticks
    ensures s.Delayed() == []
  {
    if s.Delayed() != [] { HeadInList(s); }
  }

  /** Advancing the tick count, with the switch of the lists, is one more unbounded tick. */
  lemma AdvanceCounts(s: Sched)
    requires Inv(s)
    ensures Core(s.Advance()) && ViewOf(s.Advance()) == ViewOf(s).(now := ViewOf(s).now + 1)
    ensures s.Advance().tick < s.Advance().next ==> Ahead(s.Advance())
  {
    hide Structured, ReadyOk, EventsOk, DelaysSorted, Counted;
    if s.tick + 1 == s.ticks {
      DelayedEmptyAtSwitch(s);
      SwitchView(s);
      var r := s.(tick := 0, delayed := !s.delayed, overflows := s.overflows + 1);
      ResetNextKeeps(r);
      assert s.Advance() == r.ResetNext();
    } else {
      assert Core(s.Advance());
      forall t | s.states.In(t, DelayedL(s.delayed)) && s.tick + 1 < s.next
        ensures s.tick + 2 < s.ticks
      {
        HeadIsEarliest(s, t);
      }
    }
  }

  lemma SwitchView(s: Sched)
    requires s.tick + 1 == s.ticks && s.Delayed() == []
    ensures var r := s.(tick := 0, delayed := !s.delayed, overflows := s.overflows + 1);
      ViewOf(r) == ViewOf(s).(now := ViewOf(s).now + 1) && ViewOf(r.ResetNext()) == ViewOf(r)
  {
    var r := s.(tick := 0, delayed := !s.delayed, overflows := s.overflows + 1);
    var k, t := s.overflows, s.ticks;
    assert r.Delayed() == s.OverflowDelayed() && r.OverflowDelayed() == s.Delayed() && ReadyMap(r) == ReadyMap(s);
    NoWakes(s.value, Epoch(k, t));
    NoWakes(s.value, Epoch(k + 2, t));
    EpochStep(k, t);
    hide *;
    SleepersAre(s);
    SleepersAre(r);
    ResetView(r);
  }

  lemma NoWakes(value: map<Task, nat>, origin: nat)
    ensures Wakes([], value, origin) == []
  {
  }

  lemma ResetView(s: Sched)
    ensures ViewOf(s.ResetNext()) == ViewOf(s)
  {
    hide Wakes, Epoch;
  }

  /** No sleeper is due while the new tick value is below the cached next-unblock time. */
  lemma EarlyOutIsSafe(s: Sched)
    requires Core(s) && Ahead(s) && s.tick < s.next
    ensures ReleaseDue(ViewOf(s), s.prio) == ViewOf(s)
  {
    SleepersAre(s);
    if s.Delayed() != [] {
      HeadInList(s);
      WakeFirstView(s);
    } else if Sleepers(s) != [] {
      NextEpochIsLater(s);
    }
    hide Core, Epoch, Wakes, ReadyMap, Sleepers, Sched.Delayed, Release;
  }

  /**
   * One tick interrupt is one tick of unbounded time: the sleepers that are due become ready, in
   * wake order and leaving their event lists, and nothing else changes.
   */
  lemma TickIsOneTick(s: Sched)
    requires Inv(s) && s.suspended == 0
    ensures Inv(s.Tick()) && ViewOf(s.Tick()) == TickOnce(ViewOf(s), s.prio)
    ensures s.Tick().suspended == 0 && s.Tick().prio == s.prio && s.Tick().count == s.count && s.Tick().pended == s.pended
    ensures s.Tick().current == s.current && s.Tick().yieldPending == s.yieldPending
  {
    hide Structured, ReadyOk, EventsOk, DelaysSorted, Counted, ViewOf, ReleaseDue;
    AdvanceCounts(s);
    var a := s.Advance();
    WakeDueFields(a);
    hide Sched.Advance, Sched.WakeDue;
    assert a.prio == s.prio && a.suspended == 0 && a.count == s.count && a.pended == s.pended && a.current == s.current &&
           a.yieldPending == s.yieldPending by { AdvanceFields(s); }
    if a.next <= a.tick {
      WakeDueReleases(a);
    } else {
      EarlyOutIsSafe(a);
    }
  }

  lemma AdvanceFields(s: Sched)
    ensures var a := s.Advance();
      a.prio == s.prio && a.suspended == s.suspended && a.count == s.count && a.pended == s.pended && a.yieldPending == s.yieldPending &&
      a.current == s.current
  {
    hide Sched.ResetNext;
    ResetNextFields(s.(tick := 0, delayed := !s.delayed, overflows := s.overflows + 1));
  }

  lemma {:induction false} WakeDueFields(s: Sched)
    ensures var r := s.WakeDue();
      r.prio == s.prio && r.suspended == s.suspended && r.count == s.count && r.pended == s.pended && r.tick == s.tick &&
      r.base == s.base && r.priorities == s.priorities && r.current == s.current && r.yieldPending == s.yieldPending
    decreases |s.Delayed()|
  {
    hide Store.Remove, Store.InsertEnd;
    if s.Delayed() != [] && At(s.value, s.Delayed()[0]) <= s.tick && |s.WakeFirst().Delayed()| < |s.Delayed()| {
      WakeDueFields(s.WakeFirst());
    }
  }

  /** A tick taken while the scheduler is suspended is only counted. */
  lemma TickKeeps(s: Sched)
    requires Inv(s)
    ensures Inv(s.Tick())
  {
    if s.suspended == 0 { TickIsOneTick(s); }
    hide Structured, ReadyOk, EventsOk, DelaysSorted, Counted, Sched.Advance, Sched.WakeDue;
  }
}
