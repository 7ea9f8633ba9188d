/** When a tick asks for a context switch, and the turns that tasks of one priority take. */
module SchedulerSlices {
  import opened Rings
  import opened Stores
  import opened Clock
  import opened Timeline
  import opened TwoLists
  import opened RoundRobin
  import opened Scheduler
  import opened SchedulerInvariant
  import opened SchedulerTicks
  import opened SchedulerResume
  import opened SchedulerRuns
  import opened SchedulerPreemption
  import opened SchedulerEffects

  // ----- the tasks that a tick makes ready -----

  /** `t` becomes ready between `s` and `r`, with at least priority `p`. */
  ghost predicate Readied(s: Sched, r: Sched, t: Task, p: nat) { !s.IsReady(t) && r.IsReady(t) && p <= s.Prio(t) }

  /** Some other task of the same priority is ready as well. */
  ghost predicate Shares(s: Sched, p: nat) {
    exists t, u :: t != u && s.IsReady(t) && s.IsReady(u) && s.Prio(t) == p == s.Prio(u)
  }

  lemma WakeFirstReady(s: Sched)
    requires Core(s) && s.Delayed() != []
    ensures var r, x := s.WakeFirst(), s.Delayed()[0];
      !s.IsReady(x) && r.prio == s.prio && forall t :: r.IsReady(t) <==> t == x || s.IsReady(t)
  {
    hide *;
    WakeFirstKeeps(s);
    HeadInList(s);
    ViewFields(s);
    OneMoreReady(s, s.WakeFirst(), s.Delayed()[0]);
  }

  lemma OneMoreReady(s: Sched, r: Sched, x: Task)
    requires s.states.In(x, DelayedL(s.delayed)) && r.states.container == s.states.container[x := ReadyL(s.Prio(x))]
    ensures !s.IsReady(x) && forall t :: r.IsReady(t) <==> t == x || s.IsReady(t)
  {
  }

  lemma WakeDueUnfolds(s: Sched, p: nat)
    requires Core(s)
    ensures s.Delayed() == [] || s.tick < At(s.value, s.Delayed()[0]) ==>
      s.WakeDue() == s.(next := s.WakeDue().next) && !s.WakesAtLeast(p)
    ensures s.Delayed() != [] && At(s.value, s.Delayed()[0]) <= s.tick ==>
      && s.WakeDue() == s.WakeFirst().WakeDue()
      && (s.WakesAtLeast(p) <==> p <= s.Prio(s.Delayed()[0]) || s.WakeFirst().WakesAtLeast(p))
  {
    if s.Delayed() != [] { WakeFirstKeeps(s); }
    hide Core, Sched.WakeFirst, Sched.Delayed;
  }

  /** The loop of the tick handler reports exactly whether it wakes a task of priority `p` or more. */
  lemma {:induction false} WakesAtLeastIs(s: Sched, p: nat)
    requires Core(s)
    ensures s.WakeDue().prio == s.prio && forall t :: s.IsReady(t) ==> s.WakeDue().IsReady(t)
    ensures s.WakesAtLeast(p) <==> exists t :: Readied(s, s.WakeDue(), t, p)
    decreases |s.Delayed()|
  {
    hide Core, Sched.WakeDue, Sched.WakesAtLeast, Sched.WakeFirst, Sched.Delayed;
    WakeDueUnfolds(s, p);
    if s.Delayed() == [] || s.tick < At(s.value, s.Delayed()[0]) {
      SameReady(s, s.WakeDue());
    } else {
      var x, u := s.Delayed()[0], s.WakeFirst();
      WakeFirstKeeps(s);
      WakeFirstReady(s);
      WakesAtLeastIs(u, p);
      OneMoreReadied(s, u, s.WakeDue(), x, p);
    }
  }

  lemma SameReady(s: Sched, r: Sched)
    requires r.states == s.states && r.prio == s.prio
    ensures forall t :: r.IsReady(t) <==> s.IsReady(t)
  {
  }

  lemma OneMoreReadied(s: Sched, u: Sched, r: Sched, x: Task, p: nat)
    requires !s.IsReady(x) && u.prio == s.prio && (forall t :: u.IsReady(t) <==> t == x || s.IsReady(t))
    requires forall t :: u.IsReady(t) ==> r.IsReady(t)
    ensures (exists t :: Readied(s, r, t, p)) <==> p <= s.Prio(x) || exists t :: Readied(u, r, t, p)
    ensures forall t :: s.IsReady(t) ==> r.IsReady(t)
  {
    hide Sched.IsReady;
    if p <= s.Prio(x) { assert Readied(s, r, x, p); }
    if t :| Readied(s, r, t, p) {
      if t != x { assert Readied(u, r, t, p); }
    }
    if t :| Readied(u, r, t, p) { assert Readied(s, r, t, p); }
  }

  /** Two tasks in one ready list are two ready tasks of that priority. */
  lemma TwoInList(s: Sched, p: nat)
    requires Core(s)
    ensures |s.states.Items(ReadyL(p))| > 1 <==> Shares(s, p)
  {
    var ts := s.states.Items(ReadyL(p));
    ReadyListIs(s, p);
    hide Core, Sched.IsReady, Store.Items;
    if |ts| > 1 {
      assert ts[0] in ts && ts[1] in ts && ts[0] != ts[1];
    }
    if t, u :| t != u && s.IsReady(t) && s.IsReady(u) && s.Prio(t) == p == s.Prio(u) {
      assert ts[IndexOf(ts, t)] != ts[IndexOf(ts, u)];
    }
  }

  lemma ReadyListIs(s: Sched, p: nat)
    requires Core(s)
    ensures NoDup(s.states.Items(ReadyL(p))) && forall t :: t in s.states.Items(ReadyL(p)) <==> s.IsReady(t) && s.Prio(t) == p
  {
    ListFacts(s);
    forall t ensures s.states.In(t, ReadyL(p)) <==> s.IsReady(t) && s.Prio(t) == p { TaskFacts(s, t); }
    assert ReadyL(p) in s.states.lists ==> s.states.lists[ReadyL(p)].Valid() by { hide ReadyOk, EventsOk, DelaysSorted, Counted; }
    hide Core, Valid;
  }

  /**
   * With the scheduler running, a tick asks for a switch exactly when a yield is pending, or a task
   * that this tick makes ready has at least the running priority, or two tasks are ready at the
   * running priority afterwards.
   */
  lemma TickSwitchesExactly(s: Sched)
    requires Inv(s) && s.suspended == 0
    ensures var r, p := s.Tick(), s.Prio(s.current);
      s.TickSwitches() <==> s.yieldPending || (exists t :: Readied(s, r, t, p)) || Shares(r, p)
  {
    hide Inv, Core, Ahead, Sched.Advance, Sched.WakeDue, Sched.WakesAtLeast, Sched.Tick, Readied, Shares, Store.Items;
    var a, p := s.Advance(), s.Prio(s.current);
    AdvanceCounts(s);
    AdvanceReady(s);
    TickKeeps(s);
    InvCore(s.Tick());
    TwoInList(s.Tick(), p);
    WakesAtLeastIs(a, p);
    TickIs(s, p);
    if a.next <= a.tick { ReadiedSame(s, a, a.WakeDue(), p); } else { ReadiedSame(s, a, a, p); NoneReadied(a, p); }
  }

  lemma TickIs(s: Sched, p: nat)
    requires s.suspended == 0
    ensures s.Tick() == if s.Advance().next <= s.Advance().tick then s.Advance().WakeDue() else s.Advance()
    ensures s.TickSwitches() <==> s.yieldPending || (s.Advance().next <= s.Advance().tick && s.Advance().WakesAtLeast(s.Prio(s.current))) ||
                                  |s.Tick().states.Items(ReadyL(s.Prio(s.current)))| > 1
  {
    hide Sched.Advance, Sched.WakeDue, Sched.WakesAtLeast, Store.Items;
  }

  lemma AdvanceReady(s: Sched)
    ensures s.Advance().prio == s.prio && forall t :: s.Advance().IsReady(t) <==> s.IsReady(t)
  {
    hide Sched.ResetNext;
    ResetNextFields(s.(tick := 0, delayed := !s.delayed, overflows := s.overflows + 1));
    SameReady(s, s.Advance());
  }

  lemma ReadiedSame(s: Sched, a: Sched, r: Sched, p: nat)
    requires a.prio == s.prio && forall t :: a.IsReady(t) <==> s.IsReady(t)
    ensures (exists t :: Readied(s, r, t, p)) <==> exists t :: Readied(a, r, t, p)
  {
    hide Sched.IsReady;
    if t :| Readied(s, r, t, p) { assert Readied(a, r, t, p); }
    if t :| Readied(a, r, t, p) { assert Readied(s, r, t, p); }
  }

  lemma NoneReadied(s: Sched, p: nat)
    ensures !exists t :: Readied(s, s, t, p)
  {
  }

  /** For a running task that is ready: some other ready task shares its priority. */
  lemma SharesWith(s: Sched, c: Task)
    requires s.IsReady(c)
    ensures Shares(s, s.Prio(c)) <==> exists t :: t != c && s.IsReady(t) && s.Prio(t) == s.Prio(c)
  {
    hide Sched.IsReady;
    if t, u :| t != u && s.IsReady(t) && s.IsReady(u) && s.Prio(t) == s.Prio(c) == s.Prio(u) {
      var w := if t != c then t else u;
      assert w != c && s.IsReady(w) && s.Prio(w) == s.Prio(c);
    }
  }

  // ----- taking turns -----

  /** The tasks that run after each of `n` context switches with nothing between them. */
  function Runners(s: Sched, n: nat): seq<Task>
    decreases n
  {
    if n == 0 then [] else [s.SwitchContext().current] + Runners(s.SwitchContext(), n - 1)
  }

  /** A switch serves the front of the line of the highest priority, sends it to the back, and touches no other list. */
  lemma SwitchTakesTurn(s: Sched)
    requires Inv(s) && s.suspended == 0
    ensures var r, l := s.SwitchContext(), ReadyL(s.HighestReady(s.top));
      && l in s.states.lists && s.states.lists[l].Valid() && s.states.lists[l].items != []
      && r.states.lists == s.states.lists[l := s.states.lists[l].Next()] && r.current == s.states.lists[l].Selected()
      && r.top == l.p && r.suspended == 0 && r.prio == s.prio
      && r.current == s.states.lists[l].Upcoming()[0]
      && r.states.lists[l].Upcoming() == s.states.lists[l].Upcoming()[1..] + [r.current]
  {
    var p := s.HighestReady(s.top);
    SwitchPicksHighest(s);
    SwitchSame(s);
    InvCore(s);
    HighestReadyIsHighest(s);
    SwitchStructured(s, p);
    hide Inv, Core, Sched.HighestReady, Ring.Selected, Ring.Next, Ring.Upcoming, Structured;
    NextServesFront(s.states.lists[ReadyL(p)]);
    SwitchIsNext(s, p);
  }

  lemma SwitchIsNext(s: Sched, p: nat)
    requires s.suspended == 0 && p == s.HighestReady(s.top)
    requires ReadyL(p) in s.states.lists && s.states.lists[ReadyL(p)].Valid() && s.states.lists[ReadyL(p)].items != []
    ensures var r := s.SwitchContext();
      r.states.lists == s.states.lists[ReadyL(p) := s.states.lists[ReadyL(p)].Next()] && r.top == p && r.suspended == 0
  {
    hide Sched.HighestReady, Ring.Selected, Ring.Next;
  }

  lemma HighestAgain(s: Sched, r: Sched)
    requires r.top == s.HighestReady(s.top) && r.states.Items(ReadyL(r.top)) != []
    ensures r.HighestReady(r.top) == r.top
  {
  }

  lemma {:induction false} RunnersAre(s: Sched, n: nat)
    requires Inv(s) && s.suspended == 0
    ensures var l := ReadyL(s.HighestReady(s.top));
      && l in s.states.lists && s.states.lists[l].Valid() && s.states.lists[l].items != []
      && Runners(s, n) == Selections(s.states.lists[l], n)
    decreases n
  {
    hide Inv, Sched.SwitchContext, Sched.HighestReady, Ring.Selected, Ring.Next, Ring.Upcoming;
    SwitchTakesTurn(s);
    if n > 0 {
      var r, l := s.SwitchContext(), ReadyL(s.HighestReady(s.top));
      SwitchPicksHighest(s);
      NextServesFront(s.states.lists[l]);
      HighestAgain(s, r);
      RunnersAre(r, n - 1);
    }
  }

  /** Is `t` ready with the highest priority of all that are ready? */
  ghost predicate Foremost(s: Sched, t: Task) { s.IsReady(t) && forall u :: s.IsReady(u) ==> s.Prio(u) <= s.Prio(t) }

  /**
   * Time slices go round: of n ready tasks of the highest priority, each runs after exactly one of n
   * consecutive context switches, and no other task does.
   */
  lemma EachHasItsTurn(s: Sched)
    requires Inv(s) && s.suspended == 0
    ensures var n := |s.states.Items(ReadyL(s.HighestReady(s.top)))|;
      && NoDup(Runners(s, n)) && |Runners(s, n)| == n && forall t :: t in Runners(s, n) <==> Foremost(s, t)
  {
    var p := s.HighestReady(s.top);
    var n := |s.states.Items(ReadyL(p))|;
    InvCore(s);
    RunnersAre(s, n);
    ReadyListIs(s, p);
    ForemostIs(s, p);
    hide Inv, Core, Foremost, Sched.HighestReady, Sched.IsReady;
    EveryRoundServesAll(s.states.lists[ReadyL(p)], n);
  }

  lemma ForemostIs(s: Sched, p: nat)
    requires Core(s) && p == s.HighestReady(s.top)
    ensures forall t :: Foremost(s, t) <==> s.IsReady(t) && s.Prio(t) == p
  {
    HighestReadyIsHighest(s);
    ReadyListIs(s, p);
    hide Core, Sched.HighestReady, Sched.IsReady;
    var first := s.states.Items(ReadyL(p))[0];
    assert first in s.states.Items(ReadyL(p));
  }
}
