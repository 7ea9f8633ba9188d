/** Whole runs of the scheduler: the invariant holds after any sequence of steps. */
module SchedulerRuns {
  import opened Rings
  import opened Stores
  import opened Clock
  import opened Timeline
  import opened TwoLists
  import opened Scheduler
  import opened SchedulerInvariant
  import opened SchedulerTicks
  import opened SchedulerResume

  // ----- choosing the task to run -----

  lemma SwitchStructured(s: Sched, p: nat)
    requires Core(s) && s.states.Items(ReadyL(p)) != [] && p < s.priorities
    ensures ReadyL(p) in s.states.lists && s.states.lists[ReadyL(p)].Valid()
    ensures Structured(s.states.Next(ReadyL(p)), s.priorities) && s.states.Next(ReadyL(p)).container == s.states.container
    ensures forall l :: s.states.Next(ReadyL(p)).Items(l) == s.states.Items(l)
    ensures s.states.In(s.states.lists[ReadyL(p)].Selected(), ReadyL(p))
  {
    NextStructured(s.states, p, s.priorities);
    StateLists(s);
    ListFacts(s);
    hide Structured, ReadyOk, EventsOk, DelaysSorted, Counted, Valid;
    assert s.states.lists[ReadyL(p)].Selected() in s.states.Items(ReadyL(p));
  }

  /**
   * A context switch picks the task whose turn it is in the ready list of the highest priority
   * that has a ready task; with the idle task ready the search never passes priority 0.
   */
  lemma SwitchPicksHighest(s: Sched)
    requires Inv(s) && s.suspended == 0
    ensures var p := s.HighestReady(s.top);
      && ReadyL(p) in s.states.lists && s.states.Items(ReadyL(p)) != []
      && s.states.lists[ReadyL(p)].index <= |s.states.Items(ReadyL(p))|
      && s.SwitchContext().current == s.states.lists[ReadyL(p)].Selected()
    ensures s.SwitchContext().IsReady(s.SwitchContext().current)
    ensures forall t :: s.IsReady(t) ==> s.Prio(t) <= s.Prio(s.SwitchContext().current)
    ensures Inv(s.SwitchContext())
  {
    var p := s.HighestReady(s.top);
    HighestReadyIsHighest(s);
    SwitchStructured(s, p);
    var r := s.SwitchContext();
    assert r == s.(yieldPending := false, top := p, states := s.states.Next(ReadyL(p)),
                   current := s.states.lists[ReadyL(p)].Selected());
    SwitchParts(s, r, p);
    TaskFacts(s, r.current);
    hide Structured, ReadyOk, EventsOk, DelaysSorted, Counted, DelaysAhead, Sched.SwitchContext;
    MakeCore(r);
  }

  lemma SwitchParts(s: Sched, r: Sched, p: nat)
    requires Core(s) && (forall t :: s.IsReady(t) ==> s.Prio(t) <= p) && p < s.priorities
    requires r.states.container == s.states.container && forall l :: r.states.Items(l) == s.states.Items(l)
    requires s.IsReady(r.current)
    requires r == s.(yieldPending := false, top := p, states := r.states, current := r.current)
    ensures ReadyOk(r.states.container, r.prio, r.top, r.priorities) && EventsOk(r.events, r.states.container, r.suspended)
    ensures DelaysSorted(r.states, r.value, r.ticks) && Counted(r.states, r.count, r.deleted, r.idle, r.current)
  {
    hide Structured, Valid;
    forall t | t in s.states.container && s.states.container[t].ReadyL? ensures s.prio[t] <= p {
      assert s.IsReady(t);
    }
  }

  // ----- runs -----

  datatype Step =
    | Create(t: Task, p: nat) | Delete(t: Task) | Reap
    | Suspend(t: Task) | Resume(t: Task) | ResumeFromISR(t: Task)
    | PrioritySet(t: Task, p: nat) | Inherit(t: Task) | Disinherit(t: Task) | IncrementHeld | ResetEventItemValue
    | Delay(wait: nat)
    | PlaceOnEventList(e: nat, wait: nat)
    | PlaceOnUnorderedEventList(e: nat, v: nat, wait: nat)
    | PlaceOnEventListRestricted(e: nat, wait: nat, forever: bool)
    | RemoveFromEventList(e: nat) | RemoveFromUnorderedEventList(t: Task, v: nat)
    | Tick | SuspendAll | ResumeAll | SwitchContext

  function Apply(s: Sched, step: Step): Sched {
    match step
    case Create(t, p) => s.Create(t, p)
    case Delete(t) => s.Delete(t)
    case Reap => s.Reap()
    case Suspend(t) => s.Suspend(t)
    case Resume(t) => s.Resume(t)
    case ResumeFromISR(t) => s.ResumeFromISR(t)
    case PrioritySet(t, p) => s.PrioritySet(t, p)
    case Inherit(t) => s.Inherit(t)
    case Disinherit(t) => s.Disinherit(t)
    case IncrementHeld => s.IncrementHeld()
    case ResetEventItemValue => s.ResetEventItemValue()
    case Delay(wait) => s.DelayCurrent(wait, false)
    case PlaceOnEventList(e, wait) => s.PlaceOnEventList(e, wait)
    case PlaceOnUnorderedEventList(e, v, wait) => s.PlaceOnUnorderedEventList(e, v, wait)
    case PlaceOnEventListRestricted(e, wait, forever) => s.PlaceOnEventListRestricted(e, wait, forever)
    case RemoveFromEventList(e) => s.RemoveFromEventList(e)
    case RemoveFromUnorderedEventList(t, v) => s.RemoveFromUnorderedEventList(t, v)
    case Tick => s.Tick()
    case SuspendAll => s.SuspendAll()
    case ResumeAll => s.ResumeAll()
    case SwitchContext => s.SwitchContext()
  }

  /** A task handle that has been created and not deleted. */
  ghost predicate Live(s: Sched, t: Task) {
    t in s.states.container && !s.states.In(t, TerminationL)
  }

  /** What the source demands of the caller of each step; the idle task is never deleted or made to wait. */
  ghost predicate Enabled(s: Sched, step: Step) {
    match step
    case Create(t, p) => t !in s.states.container
    case Delete(t) => Live(s, t) && t != s.idle
    case Reap => !s.states.In(s.current, TerminationL)
    case Suspend(t) => Live(s, t) && t != s.idle
    case Resume(t) => true
    case ResumeFromISR(t) => true
    case PrioritySet(t, p) => Live(s, t)
    case Inherit(t) => Live(s, t)
    case Disinherit(t) => t == s.current && s.IsReady(t) && At(s.held, t) > 0
    case IncrementHeld => s.IsReady(s.current)
    case ResetEventItemValue => s.IsReady(s.current)
    case Delay(wait) => MayBlock(s, wait)
    case PlaceOnEventList(e, wait) => MayBlock(s, wait) && EventL(e) in s.events.lists
    case PlaceOnUnorderedEventList(e, v, wait) => MayBlock(s, wait) && EventL(e) in s.events.lists
    case PlaceOnEventListRestricted(e, wait, forever) => MayBlock(s, wait) && EventL(e) in s.events.lists
    case RemoveFromEventList(e) => true
    case RemoveFromUnorderedEventList(t, v) => t in s.events.container
    case Tick => true
    case SuspendAll => true
    case ResumeAll => true
    case SwitchContext => true
  }

  lemma ManagingKeeps(s: Sched, step: Step)
    requires Inv(s) && Enabled(s, step)
    requires step.Create? || step.Delete? || step.Reap? || step.Suspend? || step.Resume? || step.ResumeFromISR?
    ensures Inv(Apply(s, step))
  {
    hide Inv;
    match step {
      case Create(t, p) => CreateKeeps(s, t, p);
      case Delete(t) => DeleteKeeps(s, t);
      case Reap => ReapKeeps(s);
      case Suspend(t) => SuspendKeeps(s, t);
      case Resume(t) => ResumeKeeps(s, t);
      case ResumeFromISR(t) => ResumeFromISRKeeps(s, t);
    }
  }

  lemma RankingKeeps(s: Sched, step: Step)
    requires Inv(s) && Enabled(s, step)
    requires step.PrioritySet? || step.Inherit? || step.Disinherit? || step.IncrementHeld? || step.ResetEventItemValue? ||
             step.RemoveFromEventList? || step.RemoveFromUnorderedEventList?
    ensures Inv(Apply(s, step))
  {
    hide Inv, Core, Sched.PrioritySet, Sched.Inherit, Sched.Disinherit, Sched.RemoveFromEventList;
    InvCore(s);
    TaskFacts(s, s.current);
    match step {
      case PrioritySet(t, p) => PrioritySetKeeps(s, t, p);
      case Inherit(t) => InheritKeeps(s, t);
      case Disinherit(t) => DisinheritKeeps(s, t);
      case IncrementHeld => AsideInv(s, s.IncrementHeld());
      case ResetEventItemValue => AsideInv(s, s.ResetEventItemValue());
      case RemoveFromEventList(e) => RemoveFromEventListKeeps(s, e);
      case RemoveFromUnorderedEventList(t, v) => RemoveFromUnorderedEventListKeeps(s, t, v);
    }
  }

  lemma BlockingKeeps(s: Sched, step: Step)
    requires Inv(s) && Enabled(s, step)
    requires step.Delay? || step.PlaceOnEventList? || step.PlaceOnUnorderedEventList? || step.PlaceOnEventListRestricted?
    ensures Inv(Apply(s, step))
  {
    hide Inv, MayBlock;
    match step {
      case Delay(wait) => DelayCurrentKeeps(s, wait, false);
      case PlaceOnEventList(e, wait) => PlaceOnEventListKeeps(s, e, wait);
      case PlaceOnUnorderedEventList(e, v, wait) => PlaceOnUnorderedEventListKeeps(s, e, v, wait);
      case PlaceOnEventListRestricted(e, wait, forever) => PlaceOnEventListRestrictedKeeps(s, e, wait, forever);
    }
  }

  lemma ClockKeeps(s: Sched, step: Step)
    requires Inv(s) && (step.Tick? || step.SuspendAll? || step.ResumeAll? || step.SwitchContext?)
    ensures Inv(Apply(s, step))
  {
    hide Inv;
    match step {
      case Tick => TickKeeps(s);
      case SuspendAll => SuspendAllKeeps(s);
      case ResumeAll => ResumeAllKeeps(s);
      case SwitchContext => if s.suspended == 0 { SwitchPicksHighest(s); } else { SwitchDeferred(s); }
    }
  }

  /** Each step keeps the invariant. */
  lemma StepKeeps(s: Sched, step: Step)
    requires Inv(s) && Enabled(s, step)
    ensures Inv(Apply(s, step))
  {
    hide Inv, Enabled, Apply;
    match step {
      case Create(_, _) => ManagingKeeps(s, step);
      case Delete(_) => ManagingKeeps(s, step);
      case Reap => ManagingKeeps(s, step);
      case Suspend(_) => ManagingKeeps(s, step);
      case Resume(_) => ManagingKeeps(s, step);
      case ResumeFromISR(_) => ManagingKeeps(s, step);
      case PrioritySet(_, _) => RankingKeeps(s, step);
      case Inherit(_) => RankingKeeps(s, step);
      case Disinherit(_) => RankingKeeps(s, step);
      case IncrementHeld => RankingKeeps(s, step);
      case ResetEventItemValue => RankingKeeps(s, step);
      case RemoveFromEventList(_) => RankingKeeps(s, step);
      case RemoveFromUnorderedEventList(_, _) => RankingKeeps(s, step);
      case Delay(_) => BlockingKeeps(s, step);
      case PlaceOnEventList(_, _) => BlockingKeeps(s, step);
      case PlaceOnUnorderedEventList(_, _, _) => BlockingKeeps(s, step);
      case PlaceOnEventListRestricted(_, _, _) => BlockingKeeps(s, step);
      case _ => ClockKeeps(s, step);
    }
  }

  lemma SuspendAllKeeps(s: Sched)
    requires Inv(s)
    ensures Inv(s.SuspendAll())
  {
    hide Structured, ReadyOk, DelaysSorted, Counted, DelaysAhead;
  }

  lemma SwitchDeferred(s: Sched)
    requires Inv(s) && s.suspended > 0
    ensures Inv(s.SwitchContext())
  {
    hide Structured, ReadyOk, EventsOk, DelaysSorted, Counted, DelaysAhead;
  }

  ghost predicate Legal(s: Sched, steps: seq<Step>)
    decreases |steps|
  {
    steps == [] || (Enabled(s, steps[0]) && Legal(Apply(s, steps[0]), steps[1..]))
  }

  function Run(s: Sched, steps: seq<Step>): Sched
    decreases |steps|
  {
    if steps == [] then s else Run(Apply(s, steps[0]), steps[1..])
  }

  /** The invariant holds after every run of legal steps, in any order and interleaving. */
  lemma {:induction false} RunKeeps(s: Sched, steps: seq<Step>)
    requires Inv(s) && Legal(s, steps)
    ensures Inv(Run(s, steps))
    decreases |steps|
  {
    hide Inv, Enabled, Apply;
    if steps != [] {
      StepKeeps(s, steps[0]);
      RunKeeps(Apply(s, steps[0]), steps[1..]);
    }
  }

  // ----- every task in exactly one list -----

  function AllLists(priorities: nat): seq<ListId> {
    seq(priorities, p requires 0 <= p < priorities => ReadyL(p)) +
    [DelayedL(true), DelayedL(false), SuspendedL, TerminationL]
  }

  function TotalLength(s: States, ls: seq<ListId>): nat {
    if ls == [] then 0 else |s.Items(ls[0])| + TotalLength(s, ls[1..])
  }

  ghost function FiledUnder(s: States, ls: seq<ListId>): set<Task> {
    set t | t in s.container && s.container[t] in ls
  }

  lemma {:induction false} DistinctCount(ts: seq<Task>, s: set<Task>)
    requires NoDup(ts) && forall t :: t in ts <==> t in s
    ensures |ts| == |s|
    decreases |ts|
  {
    if ts == [] {
      assert s == {};
    } else {
      assert ts == [ts[0]] + ts[1..];
      DistinctCount(ts[1..], s - {ts[0]});
    }
  }

  lemma ListCount(s: States, l: ListId, priorities: nat)
    requires Structured(s, priorities)
    ensures |s.Items(l)| == |FiledUnder(s, [l])|
  {
    forall t ensures t in s.Items(l) <==> t in FiledUnder(s, [l]) {
      if t in FiledUnder(s, [l]) { assert s.Linked(t); }
    }
    if l in s.lists { assert s.lists[l].Valid(); }
    DistinctCount(s.Items(l), FiledUnder(s, [l]));
  }

  lemma {:induction false} LengthsCount(s: States, ls: seq<ListId>, priorities: nat)
    requires Structured(s, priorities) && NoDup(ls)
    ensures TotalLength(s, ls) == |FiledUnder(s, ls)|
    decreases |ls|
  {
    hide Structured;
    if ls == [] {
      assert FiledUnder(s, ls) == {};
    } else {
      LengthsCount(s, ls[1..], priorities);
      ListCount(s, ls[0], priorities);
      FiledApart(s, ls);
      hide FiledUnder;
    }
  }

  lemma FiledApart(s: States, ls: seq<ListId>)
    requires NoDup(ls) && ls != []
    ensures FiledUnder(s, ls) == FiledUnder(s, [ls[0]]) + FiledUnder(s, ls[1..])
    ensures FiledUnder(s, [ls[0]]) !! FiledUnder(s, ls[1..])
  {
    assert ls == [ls[0]] + ls[1..];
    assert ls[0] !in ls[1..];
  }

  /** Every created task that is not yet freed has its state item in one list of the scheduler, and in no other. */
  lemma TaskInOneList(s: Sched, t: Task)
    requires Inv(s) && t in s.states.container
    ensures exists l :: l in AllLists(s.priorities) && t in s.states.Items(l) && forall m :: t in s.states.Items(m) ==> m == l
  {
    ListFacts(s);
    AllListsComplete(s, t);
    hide *;
    var l := s.states.container[t];
    InItsList(s.states, t);
    assert t in s.states.Items(l);
  }

  lemma InItsList(s: States, t: Task)
    requires t in s.container
    ensures s.In(t, s.container[t]) && forall m :: s.In(t, m) ==> m == s.container[t]
  {
  }

  /** The lengths of the state lists add up to the task count, and no task is pending while the scheduler runs. */
  lemma LengthsAddUp(s: Sched)
    requires Inv(s)
    ensures TotalLength(s.states, AllLists(s.priorities)) == s.count
    ensures s.suspended == 0 ==> s.Pending() == []
  {
    var ls := AllLists(s.priorities);
    LengthsCount(s.states, ls, s.priorities);
    forall t | t in s.states.container ensures s.states.container[t] in ls {
      AllListsComplete(s, t);
    }
    assert FiledUnder(s.states, ls) == s.states.container.Keys;
    if s.Pending() != [] {
      PendingHead(s);
      TaskFacts(s, s.Pending()[0]);
    }
    hide Structured, ReadyOk, EventsOk, DelaysSorted, DelaysAhead, TotalLength, AllLists;
  }

  lemma AllListsComplete(s: Sched, t: Task)
    requires Core(s) && t in s.states.container
    ensures s.states.container[t] in AllLists(s.priorities)
  {
    var ls, l := AllLists(s.priorities), s.states.container[t];
    TaskFacts(s, t);
    hide Structured, ReadyOk, EventsOk, DelaysSorted, Counted;
    var P := s.priorities;
    match l {
      case ReadyL(p) => assert s.IsReady(t); assert ls[p] == l;
      case DelayedL(b) => assert ls[if b then P else P + 1] == l;
      case SuspendedL => assert ls[P + 2] == l;
      case TerminationL => assert ls[P + 3] == l;
    }
  }
}
