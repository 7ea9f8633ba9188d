/** Runs of the scheduler from its start in which event lists stop being in order of priority. */
module SchedulerWitnesses {
  import opened Rings
  import opened Stores
  import opened Clock
  import opened Timeline
  import opened TwoLists
  import opened Scheduler
  import opened SchedulerInvariant
  import opened SchedulerTicks
  import opened SchedulerRuns
  import opened SchedulerPreemption
  import opened SchedulerEffects
  import opened SchedulerEvents
  import Kernels

  /** The steps lead from `s` to `r`. */
  ghost predicate Reaches(s: Sched, steps: seq<Step>, r: Sched) { Legal(s, steps) && Run(s, steps) == r }

  lemma {:induction false} OneMore(s: Sched, steps: seq<Step>, r: Sched, step: Step)
    requires Reaches(s, steps, r) && Enabled(r, step)
    ensures Reaches(s, steps + [step], Apply(r, step))
    decreases |steps|
  {
    hide Enabled, Apply;
    if steps == [] {
      assert steps + [step] == [step] && [step][1..] == [];
      assert Legal(s, [step]) && Run(s, [step]) == Run(Apply(s, step), []);
    } else {
      OneMore(Apply(s, steps[0]), steps[1..], r, step);
      assert (steps + [step])[1..] == steps[1..] + [step];
    }
  }

  /** Exactly the tasks of `prio` exist, with these priorities and the values that belong to them; the scheduler runs. */
  ghost predicate Known(s: Sched, prio: map<Task, nat>) {
    && Inv(s) && Room(s) && s.suspended == 0 && s.priorities == 4 && 2 < s.ticks && s.idle == 0
    && s.states.container.Keys == prio.Keys && (forall t :: t in prio ==> s.Prio(t) == prio[t] && Agrees(s, t))
  }

  /** The scheduler of four priorities when it starts, with one kernel object. */
  function Start(ticks: Modulus, inUse: nat): Sched { Kernels.Started(ticks, 4, inUse, 0, {0}) }

  lemma StartKnown(ticks: Modulus, inUse: nat)
    requires 4 < inUse && 2 < ticks
    ensures Known(Start(ticks, inUse), map[0 := 0]) && At(Start(ticks, inUse).base, 0) == 0
    ensures EventL(0) in Start(ticks, inUse).events.lists && Waiters(Start(ticks, inUse), 0) == []
  {
    var s := Start(ticks, inUse);
    Kernels.StartedValid(ticks, 4, inUse, 0, {0});
    Kernels.FirstLists(4, 0);
    hide Inv, Structured, Store.InsertEnd;
    assert s.states.container == map[0 := ReadyL(0)];
  }

  lemma CreatesKnown(s: Sched, prio: map<Task, nat>, t: Task, p: nat)
    requires Known(s, prio) && t !in prio && p < 4
    ensures Enabled(s, Step.Create(t, p)) && Known(s.Create(t, p), prio[t := p]) && s.Create(t, p).IsReady(t)
    ensures var r := s.Create(t, p); At(r.base, t) == p && At(r.held, t) == 0 && OthersStay(s, r, t) && r.events == s.events
  {
    var r := s.Create(t, p);
    hide Inv, Room, OthersStay, EventValue, Sched.Create, Store.InsertEnd, Clamp, OthersRank;
    KnownLists(s, p);
    CreateKeeps(s, t, p);
    CreatedIsReady(s, t, p);
    RoomStays(s, Step.Create(t, p));
    CreateFixed(s, t, p);
    CreateStores(s, t, p);
    CreateRanks(s, t, p);
    EndKeys(s.states, ReadyL(p), t);
    ClampSmall(p);
    OthersKnown(s, r, prio, t);
    assert r.states.container.Keys == prio[t := p].Keys;
  }

  lemma ClampSmall(p: nat)
    ensures p < 4 ==> Clamp(p, 4) == p
  {
  }

  /** Tasks other than `t` keep their priorities and the values that belong to them. */
  lemma OthersKnown(s: Sched, r: Sched, prio: map<Task, nat>, t: Task)
    requires OthersRank(s, r, t) && forall u :: u in prio ==> s.Prio(u) == prio[u] && Agrees(s, u)
    ensures forall u :: u in prio && u != t ==> r.Prio(u) == prio[u] && Agrees(r, u)
  {
    hide EventValue;
    forall u | u in prio && u != t ensures r.Prio(u) == prio[u] && Agrees(r, u) { assert Agrees(s, u); }
  }

  lemma KnownLists(s: Sched, p: nat)
    requires Inv(s) && p < s.priorities
    ensures ReadyL(p) in s.states.lists && s.states.lists[ReadyL(p)].Valid()
  {
    hide ReadyOk, EventsOk, DelaysSorted, Counted, DelaysAhead;
  }

  lemma CreateFixed(s: Sched, t: Task, p: nat)
    ensures var r := s.Create(t, p);
      r.suspended == s.suspended && r.ticks == s.ticks && r.idle == s.idle && r.current == s.current && r.priorities == s.priorities
  {
    hide Store.InsertEnd;
  }

  lemma EndKeys(s: States, l: ListId, t: Task)
    ensures l in s.lists && s.lists[l].Valid() ==> s.InsertEnd(l, t).container.Keys == s.container.Keys + {t}
  {
    hide Ring.InsertAt;
  }

  /** The task that runs next is one of those with the highest priority that are ready. */
  lemma SwitchesKnown(s: Sched, prio: map<Task, nat>, t: Task)
    requires Known(s, prio) && s.IsReady(t) && forall u :: u in prio && u != t && s.IsReady(u) ==> prio[u] < prio[t]
    ensures var r := s.SwitchContext();
      Known(r, prio) && r.current == t && r.states.container == s.states.container && r.base == s.base && r.held == s.held && r.events == s.events
  {
    var r := s.SwitchContext();
    SwitchPicksHighest(s);
    SwitchSame(s);
    SwitchAside(s);
    SwitchFixed(s);
    KnownLike(s, r, prio);
    hide Known, Inv, Sched.SwitchContext, Sched.IsReady, SameRanks;
    HighestKnown(s, r, prio, t);
  }

  lemma HighestKnown(s: Sched, r: Sched, prio: map<Task, nat>, t: Task)
    requires Known(s, prio) && s.IsReady(t) && forall u :: u in prio && u != t && s.IsReady(u) ==> prio[u] < prio[t]
    requires s.IsReady(r.current) && forall u :: s.IsReady(u) ==> s.Prio(u) <= s.Prio(r.current)
    ensures r.current == t
  {
    ReadyCreated(s, t);
    ReadyCreated(s, r.current);
    hide Inv, Room, Agrees, Sched.IsReady;
    assert s.Prio(t) <= s.Prio(r.current);
  }

  lemma KnownLike(s: Sched, r: Sched, prio: map<Task, nat>)
    requires Known(s, prio) && SameRanks(s, r) && Inv(r) && r.suspended == s.suspended && r.ticks == s.ticks && r.idle == s.idle
    requires r.states.container.Keys == s.states.container.Keys
    ensures Known(r, prio)
  {
    hide Inv, EventValue;
    assert forall u :: u in prio ==> Agrees(s, u) && Agrees(r, u);
  }

  lemma ReadyCreated(s: Sched, t: Task)
    ensures s.IsReady(t) ==> t in s.states.container
  {
  }

  lemma SwitchFixed(s: Sched)
    ensures var r := s.SwitchContext(); r.suspended == s.suspended && r.ticks == s.ticks && r.idle == s.idle && r.held == s.held
  {
    hide Sched.HighestReady, Store.Next, Store.Items, Ring.Selected;
    var u := s.(yieldPending := false, top := s.HighestReady(s.top));
    if s.suspended == 0 {
      assert s.SwitchContext() == u.(states := s.SwitchContext().states, current := s.SwitchContext().current);
    }
  }

  // ----- a value that is not its priority's -----

  lemma ReadyThrough(s: Sched, r: Sched, t: Task, x: Task)
    requires s.IsReady(t) && t != x && OthersStay(s, r, x)
    ensures r.IsReady(t)
  {
    var l := s.states.container[t];
    assert r.Prio(t) == s.Prio(t) && s.states.In(t, l);
    assert r.states.In(t, l) <==> s.states.In(t, l);
  }

  lemma HeldKnown(s: Sched, prio: map<Task, nat>)
    requires Known(s, prio) && s.IsReady(s.current)
    ensures Enabled(s, IncrementHeld) && Known(s.IncrementHeld(), prio) && s.IncrementHeld() == s.(held := s.IncrementHeld().held)
    ensures At(s.IncrementHeld().held, s.current) == At(s.held, s.current) + 1
  {
    var r := s.IncrementHeld();
    AsideInv(s, r);
    SameItself(s);
    KnownLike(s, r, prio);
    hide Inv, Known, EventValue;
  }

  /** Task 1, of base priority 1 and in use 3, holds a mutex and has a value that is not its priority's. */
  ghost predicate Stale(r: Sched) {
    At(r.held, 1) == 1 && At(r.base, 1) == 2 && r.Prio(1) == 3 && At(r.eventValue, 1) != EventValue(r.Prio(1), r.priorities)
  }

  function StaleSteps(): seq<Step> {
    [Step.Create(1, 1), SwitchContext, IncrementHeld, Step.Create(2, 3), SwitchContext, Step.Inherit(1), Step.PrioritySet(1, 2)]
  }

  /**
   * Reached from the start: task 1 takes a mutex, inherits the priority of task 2, which waits for
   * it, and has its base priority changed meanwhile.
   */
  lemma StaleReached(ticks: Modulus, inUse: nat)
    requires 4 < inUse && 2 < ticks
    ensures var s := Start(ticks, inUse); Inv(s) && Legal(s, StaleSteps()) && Stale(Run(s, StaleSteps()))
  {
    var s0 := Start(ticks, inUse);
    hide *;
    StartKnown(ticks, inUse);
    KnownInv(s0, map[0 := 0]);
    Itself(s0);
    var s3 := FirstHolder(s0);
    var s5 := SecondRuns(s0, s3);
    var steps := [Step.Create(1, 1), SwitchContext, IncrementHeld, Step.Create(2, 3), SwitchContext];
    var s6 := s5.Inherit(1);
    KnownOutranked(s5);
    InheritApplies(s5);
    OneMore(s0, steps, s5, Step.Inherit(1));
    PriorityApplies(s5, s6);
    OneMore(s0, steps + [Step.Inherit(1)], s6, Step.PrioritySet(1, 2));
    StepsAre();
    ReachesIs(s0, StaleSteps(), s6.PrioritySet(1, 2));
  }

  lemma StepsAre()
    ensures StaleSteps() == [Step.Create(1, 1), SwitchContext, IncrementHeld, Step.Create(2, 3), SwitchContext] + [Step.Inherit(1)] + [Step.PrioritySet(1, 2)]
  {
  }

  lemma KnownInv(s: Sched, prio: map<Task, nat>)
    requires Known(s, prio)
    ensures Inv(s) && Room(s)
  {
  }

  lemma Itself(s: Sched)
    ensures Reaches(s, [], s)
  {
  }

  lemma ReachesIs(s: Sched, steps: seq<Step>, r: Sched)
    requires Reaches(s, steps, r)
    ensures Legal(s, steps) && Run(s, steps) == r
  {
  }

  /** Task 1 is created, runs and takes a mutex. */
  lemma FirstHolder(s0: Sched) returns (s3: Sched)
    requires Known(s0, map[0 := 0]) && Reaches(s0, [], s0)
    ensures Reaches(s0, [Step.Create(1, 1), SwitchContext, IncrementHeld], s3)
    ensures Known(s3, map[0 := 0, 1 := 1]) && s3.IsReady(1) && At(s3.base, 1) == 1 && At(s3.held, 1) == 1
  {
    hide Inv, OthersStay, Sched.SwitchContext, Sched.Create, Sched.IsReady, Reaches, Agrees, Sched.IncrementHeld, Room;
    CreatesKnown(s0, map[0 := 0], 1, 1);
    var s1 := s0.Create(1, 1);
    OneMore(s0, [], s0, Step.Create(1, 1));
    SwitchesKnown(s1, map[0 := 0, 1 := 1], 1);
    var s2 := s1.SwitchContext();
    OneMore(s0, [] + [Step.Create(1, 1)], s1, SwitchContext);
    SameReady(s1, s2);
    HeldKnown(s2, map[0 := 0, 1 := 1]);
    s3 := s2.IncrementHeld();
    OneMore(s0, [] + [Step.Create(1, 1)] + [SwitchContext], s2, IncrementHeld);
    SameReady(s2, s3);
    assert [] + [Step.Create(1, 1)] + [SwitchContext] + [IncrementHeld] == [Step.Create(1, 1), SwitchContext, IncrementHeld];
  }

  lemma SameReady(s: Sched, r: Sched)
    requires r.states.container == s.states.container
    ensures forall t :: r.IsReady(t) <==> s.IsReady(t)
  {
  }

  /** Task 2 is created with a higher priority and runs. */
  lemma SecondRuns(s0: Sched, s3: Sched) returns (s5: Sched)
    requires Reaches(s0, [Step.Create(1, 1), SwitchContext, IncrementHeld], s3)
    requires Known(s3, map[0 := 0, 1 := 1]) && s3.IsReady(1) && At(s3.base, 1) == 1 && At(s3.held, 1) == 1
    ensures Reaches(s0, [Step.Create(1, 1), SwitchContext, IncrementHeld, Step.Create(2, 3), SwitchContext], s5)
    ensures Known(s5, map[0 := 0, 1 := 1, 2 := 3]) && s5.current == 2 && s5.IsReady(1) && At(s5.base, 1) == 1 && At(s5.held, 1) == 1
  {
    hide Inv, OthersStay, Sched.SwitchContext, Sched.Create, Sched.IsReady, Reaches, Agrees, Room;
    var before := [Step.Create(1, 1), SwitchContext, IncrementHeld];
    CreatesKnown(s3, map[0 := 0, 1 := 1], 2, 3);
    var s4 := s3.Create(2, 3);
    OneMore(s0, before, s3, Step.Create(2, 3));
    ReadyThrough(s3, s4, 1, 2);
    CreateBase(s3, 2, 3);
    SwitchesKnown(s4, map[0 := 0, 1 := 1, 2 := 3], 2);
    s5 := s4.SwitchContext();
    OneMore(s0, before + [Step.Create(2, 3)], s4, SwitchContext);
    SameReady(s4, s5);
    assert before + [Step.Create(2, 3)] + [SwitchContext] == [Step.Create(1, 1), SwitchContext, IncrementHeld, Step.Create(2, 3), SwitchContext];
  }

  lemma CreateBase(s: Sched, t: Task, p: nat)
    ensures forall u :: u != t ==> At(s.Create(t, p).base, u) == At(s.base, u) && At(s.Create(t, p).held, u) == At(s.held, u)
  {
    CreateStores(s, t, p);
    hide Sched.Create;
  }

  /** Task 1, ready at its base priority 1, holds a mutex, and task 2 of priority 3 runs. */
  ghost predicate HolderOutranked(s: Sched) {
    && Inv(s) && Room(s) && s.priorities == 4 && s.IsReady(1) && Agrees(s, 1) && s.Prio(1) == At(s.base, 1) == 1 && At(s.held, 1) == 1
    && s.current == 2 && s.Prio(2) == 3
  }

  lemma KnownOutranked(s: Sched)
    requires Known(s, map[0 := 0, 1 := 1, 2 := 3]) && s.current == 2 && s.IsReady(1) && At(s.base, 1) == 1 && At(s.held, 1) == 1
    ensures HolderOutranked(s)
  {
    var prio := map[0 := 0, 1 := 1, 2 := 3];
    assert 1 in prio && 2 in prio;
    hide Inv, Agrees, Sched.IsReady, Room;
  }

  lemma InheritApplies(s: Sched)
    requires HolderOutranked(s)
    ensures Enabled(s, Step.Inherit(1)) && Apply(s, Step.Inherit(1)) == s.Inherit(1)
  {
    hide Inv, Agrees, Sched.Inherit;
  }

  lemma PriorityApplies(s: Sched, r: Sched)
    requires HolderOutranked(s) && r == s.Inherit(1)
    ensures Enabled(r, Step.PrioritySet(1, 2)) && Apply(r, Step.PrioritySet(1, 2)) == r.PrioritySet(1, 2) && Stale(r.PrioritySet(1, 2))
  {
    hide *;
    var q := r.PrioritySet(1, 2);
    RaisedFacts(s);
    LiveReady(r, 1);
    MaySet(r, 1, 2);
    ClampSmall(2);
    PrioritySetAgrees(r, 1, 2);
    PrioritySetSets(r, 1, 2);
    PrioritySetHeld(r, 1, 2);
    StaleIs(q);
  }

  lemma MaySet(s: Sched, t: Task, p: nat)
    requires Live(s, t)
    ensures Enabled(s, Step.PrioritySet(t, p)) && Apply(s, Step.PrioritySet(t, p)) == s.PrioritySet(t, p)
  {
    hide Sched.PrioritySet, Live;
  }

  lemma StaleIs(r: Sched)
    requires At(r.held, 1) == 1 && At(r.base, 1) == 2 && r.Prio(1) == 3 && !Agrees(r, 1)
    ensures Stale(r)
  {
  }

  lemma RaisedFacts(s: Sched)
    requires HolderOutranked(s)
    ensures var r := s.Inherit(1);
      && Inv(r) && Room(r) && r.IsReady(1) && Agrees(r, 1) && r.Prio(1) == 3 && At(r.base, 1) == 1 && At(r.held, 1) == 1
      && r.priorities == 4
  {
    LiveReady(s, 1);
    InheritKeeps(s, 1);
    InheritIs(s, 1);
    InheritRank(s, 1);
    hide Inv, Sched.Inherit, EventValue;
  }

  lemma LiveReady(s: Sched, t: Task)
    requires s.IsReady(t)
    ensures Live(s, t)
  {
  }

  lemma PrioritySetHeld(s: Sched, t: Task, p: nat)
    ensures s.PrioritySet(t, p).held == s.held && s.PrioritySet(t, p).priorities == s.priorities
  {
    PrioritySetIs(s, t, p);
    var q := Clamp(p, s.priorities);
    RepriBase(s.(base := s.base[t := q]).SetEventValue(t, q), t, if At(s.base, t) == s.Prio(t) then q else s.Prio(t));
    RepriEvents(s.(base := s.base[t := q]).SetEventValue(t, q), t, if At(s.base, t) == s.Prio(t) then q else s.Prio(t));
    hide Sched.PrioritySet, Sched.Reprioritise, Clamp, EventValue;
  }

  // ----- a waiter that outranks the head of its list -----

  /** The running task of a known state blocks on object 0 for one tick. */
  lemma PlacesKnown(s: Sched, prio: map<Task, nat>)
    requires Known(s, prio) && s.IsReady(s.current) && s.current != 0 && EventL(0) in s.events.lists && Ordered(s, 0)
    ensures Enabled(s, Step.PlaceOnEventList(0, 1))
    ensures var r := s.PlaceOnEventList(0, 1);
      && Known(r, prio) && Ordered(r, 0) && EventL(0) in r.events.lists && r.base == s.base
      && (forall u :: r.IsReady(u) <==> u != s.current && s.IsReady(u))
    ensures JoinsInOrder(s, s.PlaceOnEventList(0, 1), 0)
  {
    hide *;
    BlocksKnown(s, prio);
    var r := s.PlaceOnEventList(0, 1);
    PlaceOnEventListKeeps(s, 0, 1);
    PlaceOrdered(s, 0, 1);
    FiledByPriority(s, 0, 1);
    PlaceEvents(s, 0, 0, 1, false);
    PlacedLists(s);
    PlaceStates(s);
    PlaceFixed(s);
    BaseSame(s, r);
    SleepsReady(s, r);
    KnownPrio(s, prio);
    KnownLike(s, r, prio);
  }

  lemma BlocksKnown(s: Sched, prio: map<Task, nat>)
    requires Known(s, prio) && s.IsReady(s.current) && s.current != 0 && EventL(0) in s.events.lists
    ensures Inv(s) && MayBlock(s, 1) && Agrees(s, s.current) && Enabled(s, Step.PlaceOnEventList(0, 1)) && s.MaxDelay() != 1
  {
    InvCore(s);
    TaskFacts(s, s.current);
    ReadyCreated(s, s.current);
    hide Inv, Core, Agrees, Room;
  }

  lemma BaseSame(s: Sched, r: Sched)
    ensures SameRanks(s, r) ==> r.base == s.base && r.prio == s.prio
  {
  }

  lemma KnownPrio(s: Sched, prio: map<Task, nat>)
    requires Known(s, prio)
    ensures s.states.container.Keys == prio.Keys
  {
  }

  lemma PlacedLists(s: Sched)
    requires Inv(s) && MayBlock(s, 1) && EventL(0) in s.events.lists
    ensures var k := InsertPlace(ValuesOf(s.events.Items(EventL(0)), s.eventValue), At(s.eventValue, s.current));
      EventL(0) in s.events.InsertAt(EventL(0), k, s.current).lists
  {
    hide Inv, MayBlock, ValuesOf, Ring.InsertAt;
  }

  lemma PlaceStates(s: Sched)
    requires Inv(s) && MayBlock(s, 1) && s.MaxDelay() != 1
    ensures exists b :: s.PlaceOnEventList(0, 1).states.container == s.states.container[s.current := DelayedL(b)]
  {
    hide Inv, MayBlock, Sched.SleepCurrent, ValuesOf, InsertPlace, Store.InsertAt, Store.Items;
    SleepCurrentKeeps(s, 1);
    var k := InsertPlace(ValuesOf(s.events.Items(EventL(0)), s.eventValue), At(s.eventValue, s.current));
    SleepIgnoresEvents(s, s.events.InsertAt(EventL(0), k, s.current), s.eventValue, 1);
    assert s.PlaceOnEventList(0, 1).states == s.SleepCurrent(1).states;
    assert s.PlaceOnEventList(0, 1).states.container ==
           s.states.container[s.current := DelayedL(if s.tick + 1 < s.ticks then s.delayed else !s.delayed)];
  }

  lemma PlaceFixed(s: Sched)
    ensures var r := s.PlaceOnEventList(0, 1); r.suspended == s.suspended && r.ticks == s.ticks && r.idle == s.idle
  {
    hide Sched.DelayCurrent, ValuesOf, InsertPlace, Store.InsertAt, Store.Items;
    var k := InsertPlace(ValuesOf(s.events.Items(EventL(0)), s.eventValue), At(s.eventValue, s.current));
    DelayFixed(s.(events := s.events.InsertAt(EventL(0), k, s.current)), 1);
  }

  lemma DelayFixed(s: Sched, wait: nat)
    ensures var r := s.DelayCurrent(wait, true); r.suspended == s.suspended && r.ticks == s.ticks && r.idle == s.idle
  {
    Kernels.DelayIs(s, wait, true);
    hide Sched.DelayCurrent, Kernels.FiledUntil, Store.InsertEnd, Store.Remove, Wrap;
  }

  lemma SleepsReady(s: Sched, r: Sched)
    requires s.IsReady(s.current) && exists b :: r.states.container == s.states.container[s.current := DelayedL(b)]
    ensures forall u :: r.IsReady(u) <==> u != s.current && s.IsReady(u)
    ensures r.states.container.Keys == s.states.container.Keys
  {
  }

  /** Task 2 waits behind task 1, which has less priority. */
  ghost predicate HeadOutranked(r: Sched) { Waiters(r, 0) == [1, 2] && r.Prio(1) == 2 && r.Prio(2) == 3 }

  function OutrankSteps(): seq<Step> {
    [Step.Create(1, 2), SwitchContext, Step.PlaceOnEventList(0, 1), Step.Create(2, 1), SwitchContext, Step.PlaceOnEventList(0, 1), Step.PrioritySet(2, 3)]
  }

  /** Task `t` is created and runs next, if it outranks those that are ready, and blocks on object 0. */
  lemma ComesAndWaits(s0: Sched, before: seq<Step>, s: Sched, prio: map<Task, nat>, t: Task, p: nat) returns (r: Sched)
    requires Known(s, prio) && t !in prio && t != 0 && p < 4 && Reaches(s0, before, s)
    requires EventL(0) in s.events.lists && Ordered(s, 0) && forall u :: u in prio && s.IsReady(u) ==> prio[u] < p
    ensures Reaches(s0, before + [Step.Create(t, p)] + [SwitchContext] + [Step.PlaceOnEventList(0, 1)], r)
    ensures Known(r, prio[t := p]) && Ordered(r, 0) && EventL(0) in r.events.lists && At(r.base, t) == p
    ensures forall u :: r.IsReady(u) ==> u != t && s.IsReady(u)
    ensures Joined(Waiters(s, 0), Waiters(r, 0), prio[t := p], t)
  {
    hide *;
    var now := prio[t := p];
    var a := s.Create(t, p);
    CreatesKnown(s, prio, t, p);
    CreateApplies(s, t, p);
    OneMore(s0, before, s, Step.Create(t, p));
    KnownParts(s, prio);
    CreateCalm(s, t, p, 0);
    CalmOrdered(s, a, 0);
    FewReady(s, a, prio, t, p);
    SwitchesKnown(a, now, t);
    var b := a.SwitchContext();
    SwitchApplies(a);
    OneMore(s0, before + [Step.Create(t, p)], a, SwitchContext);
    SwitchCalm(a, 0);
    CalmOrdered(a, b, 0);
    SameReady(a, b);
    PlacesKnown(b, now);
    r := b.PlaceOnEventList(0, 1);
    PlaceApplies(b);
    OneMore(s0, before + [Step.Create(t, p)] + [SwitchContext], b, Step.PlaceOnEventList(0, 1));
    EventsSame(s, a, b);
    WaitersKnown(s, prio, b, now, t, p);
    JoinedIs(b, r, now, t);
  }

  lemma KnownParts(s: Sched, prio: map<Task, nat>)
    requires Known(s, prio)
    ensures Core(s) && (forall t :: t !in prio ==> t !in s.states.container)
  {
    InvCore(s);
    hide Inv, Core, Room, Agrees;
  }

  lemma CreateApplies(s: Sched, t: Task, p: nat)
    ensures Apply(s, Step.Create(t, p)) == s.Create(t, p)
  {
    hide Sched.Create;
  }

  lemma SwitchApplies(s: Sched)
    ensures Enabled(s, SwitchContext) && Apply(s, SwitchContext) == s.SwitchContext()
  {
    hide Sched.SwitchContext;
  }

  lemma PlaceApplies(s: Sched)
    ensures Apply(s, Step.PlaceOnEventList(0, 1)) == s.PlaceOnEventList(0, 1)
  {
    hide Sched.PlaceOnEventList;
  }

  lemma EventsSame(s: Sched, a: Sched, b: Sched)
    requires a.events == s.events && b.events == a.events
    ensures Waiters(b, 0) == Waiters(s, 0)
  {
  }

  /** After the creation the new task is the highest of all that are ready. */
  lemma FewReady(s: Sched, a: Sched, prio: map<Task, nat>, t: Task, p: nat)
    requires OthersStay(s, a, t) && t !in prio && forall u :: u in prio && s.IsReady(u) ==> prio[u] < p
    ensures forall u :: a.IsReady(u) && u != t ==> s.IsReady(u)
    ensures forall u :: u in prio[t := p] && u != t && a.IsReady(u) ==> prio[t := p][u] < prio[t := p][t]
  {
    forall u | a.IsReady(u) && u != t ensures s.IsReady(u) {
      var l := a.states.container[u];
      assert a.Prio(u) == s.Prio(u) && a.states.In(u, l);
      assert a.states.In(u, l) <==> s.states.In(u, l);
    }
  }

  /** The waiters are tasks that were known before, with their priorities. */
  lemma WaitersKnown(s: Sched, prio: map<Task, nat>, b: Sched, now: map<Task, nat>, t: Task, p: nat)
    requires Known(s, prio) && t !in prio && Core(s) && now == prio[t := p] && Known(b, now) && Waiters(b, 0) == Waiters(s, 0)
    ensures forall w :: w in Waiters(b, 0) ==> w in now && w != t && b.Prio(w) == now[w]
    ensures b.Prio(t) == p
  {
    hide Inv, Core, Room, Agrees;
    forall w | w in Waiters(s, 0) ensures w in prio { WaiterPrio(s, 0, w); }
    assert t in now;
  }

  /** `t` joined the waiters in order of the priorities `prio`. */
  ghost predicate Joined(ws: seq<Task>, us: seq<Task>, prio: map<Task, nat>, t: Task) {
    exists k :: 0 <= k <= |ws| && us == With(ws, k, t) &&
      (forall i :: 0 <= i < k ==> At(prio, t) <= At(prio, ws[i])) &&
      (forall i :: k <= i < |ws| ==> At(prio, ws[i]) < At(prio, t))
  }

  lemma JoinedIs(b: Sched, r: Sched, now: map<Task, nat>, t: Task)
    requires JoinsInOrder(b, r, 0) && b.current == t && t in now && b.Prio(t) == now[t]
    requires forall w :: w in Waiters(b, 0) ==> w in now && w != t && b.Prio(w) == now[w]
    ensures Joined(Waiters(b, 0), Waiters(r, 0), now, t)
  {
    var k :| 0 <= k <= |Waiters(b, 0)| && Waiters(r, 0) == With(Waiters(b, 0), k, b.current) &&
      (forall i :: 0 <= i < k ==> b.Prio(b.current) <= b.Prio(Waiters(b, 0)[i])) &&
      forall i :: k <= i < |Waiters(b, 0)| ==> b.Prio(Waiters(b, 0)[i]) < b.Prio(b.current);
    hide With;
    assert forall i :: 0 <= i < |Waiters(b, 0)| ==> Waiters(b, 0)[i] in Waiters(b, 0);
  }

  lemma FirstJoins(us: seq<Task>, prio: map<Task, nat>)
    requires Joined([], us, prio, 1)
    ensures us == [1]
  {
  }

  lemma SecondJoins(us: seq<Task>)
    requires Joined([1], us, map[0 := 0, 1 := 2][2 := 1], 2)
    ensures us == [1, 2]
  {
    var ws: seq<Task> := [1];
    assert ws[0] == 1;
  }

  /**
   * Reached from the start: tasks 1 and 2 wait for an object in order of their priorities 2 and 1, and
   * then task 2 is given priority 3.  The object wakes task 1 first.
   */
  lemma HeadOutrankedReached(ticks: Modulus, inUse: nat)
    requires 4 < inUse && 2 < ticks
    ensures var s := Start(ticks, inUse);
      var r := Run(s, OutrankSteps());
      Inv(s) && Legal(s, OutrankSteps()) && HeadOutranked(r) && r.RemoveFromEventList(0).IsReady(1) && Waiters(r.RemoveFromEventList(0), 0) == [2]
  {
    hide *;
    var s0, prio := Start(ticks, inUse), map[0 := 0];
    StartKnown(ticks, inUse);
    KnownInv(s0, prio);
    Itself(s0);
    EmptyOrdered(s0);
    OnlyIdle(s0, 2);
    var a := ComesAndWaits(s0, [], s0, prio, 1, 2);
    FirstJoins(Waiters(a, 0), prio[1 := 2]);
    StillIdle(s0, a, prio);
    var b := ComesAndWaits(s0, [] + [Step.Create(1, 2)] + [SwitchContext] + [Step.PlaceOnEventList(0, 1)], a, prio[1 := 2], 2, 1);
    assert prio[1 := 2] == map[0 := 0, 1 := 2];
    SecondJoins(Waiters(b, 0));
    Outranks(b);
    var before := [] + [Step.Create(1, 2)] + [SwitchContext] + [Step.PlaceOnEventList(0, 1)] + [Step.Create(2, 1)] + [SwitchContext] + [Step.PlaceOnEventList(0, 1)];
    OneMore(s0, before, b, Step.PrioritySet(2, 3));
    OutrankStepsAre();
    ReachesIs(s0, OutrankSteps(), b.PrioritySet(2, 3));
  }

  lemma OutrankStepsAre()
    ensures OutrankSteps() == [] + [Step.Create(1, 2)] + [SwitchContext] + [Step.PlaceOnEventList(0, 1)] + [Step.Create(2, 1)] + [SwitchContext] +
                              [Step.PlaceOnEventList(0, 1)] + [Step.PrioritySet(2, 3)]
  {
  }

  lemma EmptyOrdered(s: Sched)
    requires Waiters(s, 0) == []
    ensures Ordered(s, 0)
  {
  }

  lemma OnlyIdle(s: Sched, p: nat)
    requires Known(s, map[0 := 0]) && p > 0
    ensures forall u :: u in map[0 := 0] && s.IsReady(u) ==> map[0 := 0][u] < p
  {
  }

  lemma StillIdle(s: Sched, a: Sched, prio: map<Task, nat>)
    requires prio == map[0 := 0] && forall u :: a.IsReady(u) ==> u != 1 && s.IsReady(u)
    ensures forall u :: u in prio[1 := 2] && a.IsReady(u) ==> prio[1 := 2][u] < 1
  {
    hide Sched.IsReady;
  }

  lemma Outranks(b: Sched)
    requires Known(b, map[0 := 0, 1 := 2][2 := 1]) && Waiters(b, 0) == [1, 2] && At(b.base, 2) == 1
    ensures var r := b.PrioritySet(2, 3);
      && Enabled(b, Step.PrioritySet(2, 3)) && Apply(b, Step.PrioritySet(2, 3)) == r
      && HeadOutranked(r) && r.RemoveFromEventList(0).IsReady(1) && Waiters(r.RemoveFromEventList(0), 0) == [2]
  {
    hide *;
    var r := b.PrioritySet(2, 3);
    KnownThree(b);
    LiveWaiter(b, 2);
    MaySet(b, 2, 3);
    ClampSmall(3);
    PrioritySetSets(b, 2, 3);
    PrioritySetRanked(b, 2, 3);
    PrioritySetKeeps(b, 2, 3);
    RankedWaiters(b, r, 2);
    PrioritySetRuns(b, r);
    FirstWaiterWakes(r, 0);
    HeadWakes(r);
  }

  lemma KnownThree(b: Sched)
    requires Known(b, map[0 := 0, 1 := 2][2 := 1])
    ensures Inv(b) && b.suspended == 0 && b.Prio(1) == 2 && b.Prio(2) == 1 && b.priorities == 4
  {
    var prio := map[0 := 0, 1 := 2][2 := 1];
    assert 1 in prio && 2 in prio;
    hide Inv, Room, Agrees;
  }

  lemma LiveWaiter(s: Sched, t: Task)
    requires Inv(s) && Waiters(s, 0) == [1, 2] && (t == 1 || t == 2)
    ensures Live(s, t) && t in s.states.container
  {
    hide Inv, Core, Waiters, Live;
    InvCore(s);
    var ws := Waiters(s, 0);
    assert ws[t - 1] == t && t in ws;
    WaiterPrio(s, 0, t);
    TaskFacts(s, t);
    BlockedLive(s, t);
  }

  lemma BlockedLive(s: Sched, t: Task)
    requires s.states.In(t, SuspendedL) || s.states.In(t, DelayedL(true)) || s.states.In(t, DelayedL(false))
    ensures Live(s, t)
  {
  }

  lemma RankedWaiters(s: Sched, r: Sched, t: Task)
    requires Ranked(s, r, t)
    ensures Waiters(r, 0) == Waiters(s, 0) == r.events.Items(EventL(0))
  {
  }

  lemma PrioritySetRuns(b: Sched, r: Sched)
    requires r == b.PrioritySet(2, 3) && b.suspended == 0
    ensures r.suspended == 0
  {
    hide Store.Remove, Store.InsertEnd, Clamp, EventValue;
  }

  lemma HeadWakes(r: Sched)
    requires Waiters(r, 0) == [1, 2] && r.Prio(1) == 2 && r.Prio(2) == 3 && r.suspended == 0 && r.events.Items(EventL(0)) != []
    requires var u, t := r.RemoveFromEventList(0), r.events.Items(EventL(0))[0];
      u.events.Items(EventL(0)) == r.events.Items(EventL(0))[1..] && u.IsReady(t)
    ensures HeadOutranked(r) && r.RemoveFromEventList(0).IsReady(1) && Waiters(r.RemoveFromEventList(0), 0) == [2]
  {
    hide Sched.RemoveFromEventList, Sched.IsReady;
  }
}
