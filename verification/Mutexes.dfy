/**
 * Mutexes: the mutex parts of queue.c with the priority inheritance of tasks.c, as steps of tasks
 * that take, block on and give mutexes under the preemptive scheduler.
 */
module Mutexes {
  import opened Rings
  import Timeline
  import opened TwoLists

  type Task = Timeline.Task
  type Id = nat

  datatype Holder = Nobody | HeldBy(t: Task)

  /** A mutex: a queue of length one whose message is there when nobody holds it. */
  datatype Mutex = Mutex(
    recursive: bool,
    holder: Holder,        // pxMutexHolder
    waiters: seq<Task>,    // xTasksWaitingToReceive
    count: nat)            // uxRecursiveCallCount

  /** Where a task is: outside, or in the retry loop of a take. */
  datatype Place =
    | Outside               // not in a take, ready to run
    | Asleep                // blocked for another reason
    | Trying(m: Id)         // ready, about to look at the mutex
    | Deciding(m: Id)       // ready, found the mutex taken and is about to block
    | Waiting(m: Id)        // in the mutex's list

  predicate CanRun(p: Place) { p.Outside? || p.Trying? || p.Deciding? }

  /** The place of rank `p` in a list in descending order of rank: behind every equal one. */
  function PriorityPlace(waiters: seq<Task>, rank: map<Task, nat>, p: nat): (k: nat)
    ensures k <= |waiters|
    ensures forall j :: 0 <= j < k ==> p <= At(rank, waiters[j])
    ensures k < |waiters| ==> At(rank, waiters[k]) < p
  {
    if waiters == [] || At(rank, waiters[0]) < p then 0 else PriorityPlace(waiters[1..], rank, p) + 1
  }

  datatype System = System(
    current: Task,               // pxCurrentTCB
    switchDue: bool,             // a yield has been asked for
    prio: map<Task, nat>,        // uxPriority
    base: map<Task, nat>,        // uxBasePriority
    rank: map<Task, nat>,        // the priority from which the value of xEventListItem was made
    held: map<Task, nat>,        // uxMutexesHeld
    place: map<Task, Place>,
    mutexes: map<Id, Mutex>)
  {
    function Prio(t: Task): nat { At(prio, t) }

    predicate IsReady(t: Task) { t in place && CanRun(place[t]) }

    predicate Holds(t: Task, m: Id) { m in mutexes && mutexes[m].holder == HeldBy(t) }

    /** The critical section of `xQueueGenericReceive` on a mutex. */
    function Take(m: Id): System
      requires m in mutexes
    {
      var mu := mutexes[m];
      if mu.holder == Nobody then
        this.(mutexes := mutexes[m := mu.(holder := HeldBy(current), count := if mu.recursive then mu.count + 1 else mu.count)],
              held := held[current := At(held, current) + 1], place := place[current := Outside])
      else this.(place := place[current := Deciding(m)])
    }

    /** `vTaskPriorityInherit` on behalf of the running task. */
    function Inherit(h: Task): System {
      if Prio(h) < Prio(current) then this.(prio := prio[h := Prio(current)], rank := rank[h := Prio(current)]) else this
    }

    /** The part of the take that runs with the scheduler suspended, when the time is not over. */
    function Decide(m: Id): System
      requires m in mutexes
    {
      match mutexes[m].holder
      case Nobody => this.(place := place[current := Trying(m)])
      case HeldBy(h) =>
        var s := Inherit(h);
        var k := PriorityPlace(mutexes[m].waiters, s.rank, At(s.rank, current));
        s.(mutexes := mutexes[m := mutexes[m].(waiters := With(mutexes[m].waiters, k, current))],
           place := place[current := Waiting(m)], switchDue := true)
    }

    /** The same when the time is over. */
    function GiveUp(): System { this.(place := place[current := Outside]) }

    predicate Drops() { Prio(current) != At(base, current) && At(held, current) <= 1 }

    /** `xTaskPriorityDisinherit` for the running task. */
    function Disinherit(): System {
      var s := this.(held := held[current := if At(held, current) > 0 then At(held, current) - 1 else 0]);
      if Drops() then s.(prio := prio[current := At(base, current)], rank := rank[current := At(base, current)]) else s
    }

    /** The critical section of `xQueueGenericSend` on a mutex that the running task holds. */
    function Give(m: Id): System
      requires m in mutexes
    {
      var s, mu := Disinherit(), mutexes[m];
      if mu.waiters == [] then
        s.(mutexes := mutexes[m := mu.(holder := Nobody)], switchDue := switchDue || Drops())
      else
        var w := mu.waiters[0];
        s.(mutexes := mutexes[m := mu.(holder := Nobody, waiters := mu.waiters[1..])], place := place[w := Trying(m)],
           switchDue := switchDue || s.Prio(current) < s.Prio(w))
    }

    /** `xQueueTakeMutexRecursive`, up to the take. */
    function TakeRecursive(m: Id): System
      requires m in mutexes
    {
      if Holds(current, m) then this.(mutexes := mutexes[m := mutexes[m].(count := mutexes[m].count + 1)]) else Take(m)
    }

    /** `xQueueGiveMutexRecursive`. */
    function GiveRecursive(m: Id): System
      requires m in mutexes
    {
      if !Holds(current, m) || mutexes[m].count == 0 then this
      else
        var s := this.(mutexes := mutexes[m := mutexes[m].(count := mutexes[m].count - 1)]);
        if mutexes[m].count == 1 then s.Give(m) else s
    }

    /** A waiting task's time ends: it leaves the list and looks at the mutex again. */
    function Timeout(t: Task): System {
      if t in place && place[t].Waiting? && place[t].m in mutexes && t in mutexes[place[t].m].waiters then
        var m := place[t].m;
        this.(mutexes := mutexes[m := mutexes[m].(waiters := Without(mutexes[m].waiters, IndexOf(mutexes[m].waiters, t)))],
              place := place[t := Trying(m)], switchDue := switchDue || Prio(current) <= Prio(t))
      else this
    }

    /** `vTaskPrioritySet`. */
    function SetPriority(t: Task, p: nat): System {
      if At(base, t) == p then this else
        this.(base := base[t := p], prio := if At(base, t) == Prio(t) then prio[t := p] else prio, rank := rank[t := p],
              switchDue := switchDue || if At(base, t) < p then t != current && Prio(current) <= p else t == current)
    }

    /** The running task blocks for something else. */
    function Sleep(): System { this.(place := place[current := Asleep], switchDue := true) }

    /** A task blocked for something else becomes ready. */
    function Wake(t: Task): System { this.(place := place[t := Outside], switchDue := switchDue || Prio(current) < Prio(t)) }

    /** `vTaskSwitchContext` selects `t`. */
    function Switch(t: Task): System { this.(current := t, switchDue := false) }
  }

  datatype Step =
    | Take(m: Id) | Decide(m: Id) | GiveUp | Give(m: Id) | TakeRecursive(m: Id) | GiveRecursive(m: Id)
    | Timeout(t: Task) | SetPriority(t: Task, p: nat) | Sleep | Wake(t: Task) | Switch(t: Task)

  /** The running task acts when no switch is due; interrupts and the scheduler act at any time. */
  ghost predicate Enabled(s: System, step: Step) {
    match step
    case Take(m) => Runs(s) && m in s.mutexes && !s.mutexes[m].recursive && Starts(s, m)
    case Decide(m) => Runs(s) && m in s.mutexes && s.place[s.current] == Deciding(m)
    case GiveUp => Runs(s) && s.place[s.current].Deciding?
    case Give(m) => Runs(s) && s.place[s.current] == Outside && s.Holds(s.current, m) && !s.mutexes[m].recursive
    case TakeRecursive(m) => Runs(s) && m in s.mutexes && s.mutexes[m].recursive && Starts(s, m)
    case GiveRecursive(m) => Runs(s) && m in s.mutexes && s.mutexes[m].recursive && s.place[s.current] == Outside
    case Timeout(t) => t in s.place && s.place[t].Waiting?
    case SetPriority(t, p) => t in s.place
    case Sleep => Runs(s) && s.place[s.current] == Outside
    case Wake(t) => t in s.place && s.place[t] == Asleep
    case Switch(t) => s.IsReady(t) && forall u :: s.IsReady(u) ==> s.Prio(u) <= s.Prio(t)
  }

  ghost predicate Runs(s: System) { !s.switchDue && s.IsReady(s.current) }

  ghost predicate Starts(s: System, m: Id)
    requires s.IsReady(s.current)
  {
    s.place[s.current] == Outside || s.place[s.current] == Trying(m)
  }

  function Apply(s: System, step: Step): System {
    match step
    case Take(m) => if m in s.mutexes then s.Take(m) else s
    case Decide(m) => if m in s.mutexes then s.Decide(m) else s
    case GiveUp => s.GiveUp()
    case Give(m) => if m in s.mutexes then s.Give(m) else s
    case TakeRecursive(m) => if m in s.mutexes then s.TakeRecursive(m) else s
    case GiveRecursive(m) => if m in s.mutexes then s.GiveRecursive(m) else s
    case Timeout(t) => s.Timeout(t)
    case SetPriority(t, p) => s.SetPriority(t, p)
    case Sleep => s.Sleep()
    case Wake(t) => s.Wake(t)
    case Switch(t) => s.Switch(t)
  }

  // ----- the count of mutexes held -----

  ghost function HeldSet(mutexes: map<Id, Mutex>, t: Task): set<Id> {
    set m | m in mutexes && mutexes[m].holder == HeldBy(t)
  }

  /** Counts and base priorities, for every task. */
  ghost predicate Counts(s: System) {
    && (forall t :: At(s.held, t) == |HeldSet(s.mutexes, t)|)
    && (forall t :: At(s.held, t) == 0 ==> s.Prio(t) == At(s.base, t))
  }

  /** A recursive mutex is free exactly when its call count is zero. */
  ghost predicate Recursion(s: System) {
    forall m :: m in s.mutexes && s.mutexes[m].recursive ==> (s.mutexes[m].holder == Nobody <==> s.mutexes[m].count == 0)
  }

  ghost predicate Books(s: System) { Counts(s) && Recursion(s) }

  lemma HeldMore(ms: map<Id, Mutex>, m: Id, mu: Mutex, t: Task)
    requires m in ms && ms[m].holder == Nobody && mu.holder == HeldBy(t)
    ensures forall u :: |HeldSet(ms[m := mu], u)| == |HeldSet(ms, u)| + if u == t then 1 else 0
  {
    forall u ensures |HeldSet(ms[m := mu], u)| == |HeldSet(ms, u)| + if u == t then 1 else 0 {
      assert HeldSet(ms[m := mu], u) == HeldSet(ms, u) + if u == t then {m} else {};
    }
  }

  lemma HeldLess(ms: map<Id, Mutex>, m: Id, mu: Mutex, t: Task)
    requires m in ms && ms[m].holder == HeldBy(t) && mu.holder == Nobody
    ensures forall u :: |HeldSet(ms, u)| == |HeldSet(ms[m := mu], u)| + if u == t then 1 else 0
  {
    forall u ensures |HeldSet(ms, u)| == |HeldSet(ms[m := mu], u)| + if u == t then 1 else 0 {
      assert HeldSet(ms, u) == HeldSet(ms[m := mu], u) + if u == t then {m} else {};
      assert m !in HeldSet(ms[m := mu], u);
    }
  }

  lemma HeldSame(ms: map<Id, Mutex>, m: Id, mu: Mutex)
    requires m in ms && ms[m].holder == mu.holder
    ensures forall u :: HeldSet(ms[m := mu], u) == HeldSet(ms, u)
  {
  }

  lemma SomeHeld(ms: map<Id, Mutex>, m: Id, t: Task)
    requires m in ms && ms[m].holder == HeldBy(t)
    ensures |HeldSet(ms, t)| > 0
  {
    assert m in HeldSet(ms, t);
  }

  lemma TakeBooks(s: System, m: Id)
    requires Books(s) && m in s.mutexes
    ensures Books(s.Take(m))
  {
    var r := s.Take(m);
    if s.mutexes[m].holder == Nobody {
      var mu := r.mutexes[m];
      assert r == s.(mutexes := s.mutexes[m := mu], held := s.held[s.current := At(s.held, s.current) + 1], place := r.place);
      assert mu.holder == HeldBy(s.current) && mu.recursive == s.mutexes[m].recursive && (mu.recursive ==> mu.count > 0);
      hide HeldSet, System.Take;
      TakenBooks(s, r, m, mu);
    }
    hide HeldSet;
  }

  lemma TakenBooks(s: System, r: System, m: Id, mu: Mutex)
    requires Books(s) && m in s.mutexes && s.mutexes[m].holder == Nobody && mu.holder == HeldBy(s.current)
    requires mu.recursive == s.mutexes[m].recursive && (mu.recursive ==> mu.count > 0)
    requires r == s.(mutexes := s.mutexes[m := mu], held := s.held[s.current := At(s.held, s.current) + 1], place := r.place)
    ensures Books(r)
  {
    HeldMore(s.mutexes, m, mu, s.current);
    hide HeldSet;
    assert forall t :: At(r.held, t) == At(s.held, t) + if t == s.current then 1 else 0;
  }

  lemma DecideBooks(s: System, m: Id)
    requires Books(s) && m in s.mutexes
    ensures Books(s.Decide(m))
  {
    hide HeldSet, With, PriorityPlace;
    if s.mutexes[m].holder != Nobody {
      HeldSame(s.mutexes, m, s.Decide(m).mutexes[m]);
      SomeHeld(s.mutexes, m, s.mutexes[m].holder.t);
    }
  }

  /** What a give does to priorities, places and the pending switch. */
  lemma GiveSwitches(s: System, m: Id)
    requires m in s.mutexes
    ensures var r, ws := s.Give(m), s.mutexes[m].waiters;
      && r.current == s.current
      && (forall t :: r.Prio(t) == if t == s.current && s.Drops() then At(s.base, t) else s.Prio(t))
      && r.place == (if ws == [] then s.place else s.place[ws[0] := Trying(m)])
      && (r.switchDue <==> s.switchDue || if ws == [] then s.Drops() else r.Prio(s.current) < r.Prio(ws[0]))
  {
    DropIs(s);
    hide System.Disinherit, System.Drops;
  }

  /** A give asks for a switch if the waiter it wakes outranks the giver afterwards, or, with no waiter, if the giver's priority is dropped. */
  ghost predicate GiveIsDue(s: System, m: Id)
    requires m in s.mutexes
  {
    var c, ws := s.current, s.mutexes[m].waiters;
    var drops := s.Prio(c) != At(s.base, c) && At(s.held, c) <= 1;
    if ws == [] then drops else (if drops then At(s.base, c) else s.Prio(c)) < s.Prio(ws[0])
  }

  /** The steps that ask for a switch, in terms of priorities alone. */
  lemma SwitchDueExactly(s: System, step: Step)
    requires Enabled(s, step) && forall m :: m in s.mutexes ==> s.current !in s.mutexes[m].waiters
    ensures var c := s.current;
      Apply(s, step).switchDue <==> match step
        case Decide(m) => s.mutexes[m].holder != Nobody
        case Give(m) => GiveIsDue(s, m)
        case GiveRecursive(m) => s.Holds(c, m) && s.mutexes[m].count == 1 && GiveIsDue(s, m)
        case Timeout(t) => s.switchDue || (s.place[t].m in s.mutexes && t in s.mutexes[s.place[t].m].waiters && s.Prio(c) <= s.Prio(t))
        case Wake(t) => s.switchDue || s.Prio(c) < s.Prio(t)
        case SetPriority(t, p) =>
          s.switchDue || (At(s.base, t) < p && t != c && s.Prio(c) <= p) || (p < At(s.base, t) && t == c)
        case Sleep => true
        case _ => false
  {
    hide With, Without, PriorityPlace, System.Disinherit, System.Inherit;
    match step {
      case Decide(m) => RaisesOnly(s, m);
      case Give(m) => GivesDue(s, m);
      case GiveRecursive(m) =>
        if s.Holds(s.current, m) && s.mutexes[m].count > 0 {
          GivesDue(s.(mutexes := s.mutexes[m := s.mutexes[m].(count := s.mutexes[m].count - 1)]), m);
        }
      case _ =>
    }
  }

  lemma RaisesOnly(s: System, m: Id)
    requires m in s.mutexes
    ensures s.Decide(m).switchDue <==> s.switchDue || s.mutexes[m].holder != Nobody
  {
    hide With, PriorityPlace;
  }

  lemma GivesDue(s: System, m: Id)
    requires m in s.mutexes && s.current !in s.mutexes[m].waiters
    ensures s.Give(m).switchDue <==> s.switchDue || GiveIsDue(s, m)
  {
    GiveSwitches(s, m);
    hide System.Give;
  }

  lemma DropIs(s: System)
    ensures var r := s.Disinherit();
      && r == s.(held := r.held, prio := r.prio, rank := r.rank)
      && r.held == s.held[s.current := if At(s.held, s.current) > 0 then At(s.held, s.current) - 1 else 0]
      && forall t :: r.Prio(t) == if t == s.current && s.Drops() then At(s.base, t) else s.Prio(t)
  {
    hide System.Drops;
  }

  lemma GiveCounts(s: System, m: Id)
    requires Counts(s) && s.Holds(s.current, m)
    ensures Counts(s.Give(m))
  {
    var r, mu := s.Give(m), s.Give(m).mutexes[m];
    GiveSwitches(s, m);
    HeldLess(s.mutexes, m, mu, s.current);
    SomeHeld(s.mutexes, m, s.current);
    GiveHeld(s, m);
    hide HeldSet, System.Give;
    assert forall t :: At(s.held, t) == At(r.held, t) + if t == s.current then 1 else 0;
  }

  lemma GiveHeld(s: System, m: Id)
    requires m in s.mutexes
    ensures var r := s.Give(m);
      && r.held == s.held[s.current := if At(s.held, s.current) > 0 then At(s.held, s.current) - 1 else 0]
      && r.base == s.base && m in r.mutexes && r.mutexes[m].holder == Nobody && r.mutexes == s.mutexes[m := r.mutexes[m]]
  {
    DropIs(s);
    hide System.Drops, System.Disinherit;
  }

  lemma GiveBooks(s: System, m: Id)
    requires Counts(s) && s.Holds(s.current, m)
    requires forall n :: n in s.mutexes && s.mutexes[n].recursive ==>
      (s.mutexes[n].holder == Nobody || n == m <==> s.mutexes[n].count == 0)
    ensures Books(s.Give(m))
  {
    GiveCounts(s, m);
    hide Counts, System.Disinherit;
  }

  lemma GiveRecursiveBooks(s: System, m: Id)
    requires Books(s) && m in s.mutexes && s.mutexes[m].recursive
    ensures Books(s.GiveRecursive(m))
  {
    hide HeldSet, System.Give;
    if s.Holds(s.current, m) && s.mutexes[m].count > 0 {
      var r := s.(mutexes := s.mutexes[m := s.mutexes[m].(count := s.mutexes[m].count - 1)]);
      HeldSame(s.mutexes, m, r.mutexes[m]);
      if s.mutexes[m].count == 1 { GiveBooks(r, m); }
    }
  }

  lemma OthersBooks(s: System, step: Step)
    requires Books(s) && (step.GiveUp? || step.SetPriority? || step.Sleep? || step.Wake? || step.Switch?)
    ensures Books(Apply(s, step))
  {
    hide HeldSet;
  }

  lemma TimeoutBooks(s: System, t: Task)
    requires Books(s)
    ensures Books(s.Timeout(t))
  {
    hide HeldSet, Without;
    if t in s.place && s.place[t].Waiting? && s.place[t].m in s.mutexes && t in s.mutexes[s.place[t].m].waiters {
      HeldSame(s.mutexes, s.place[t].m, s.Timeout(t).mutexes[s.place[t].m]);
    }
  }

  /**
   * Every step keeps the books: the held count of each task is the number of mutexes it holds, a
   * task that holds none runs at its base priority, and a recursive mutex is free exactly when its
   * call count is zero.  Takes may nest and time out and priorities may change.
   */
  lemma StepBooks(s: System, step: Step)
    requires Books(s) && Enabled(s, step)
    ensures Books(Apply(s, step))
  {
    match step {
      case Take(m) => TakeBooks(s, m);
      case Decide(m) => DecideBooks(s, m);
      case Give(m) => GiveBooks(s, m);
      case TakeRecursive(m) =>
        if s.Holds(s.current, m) { TakeAgainBooks(s, m); } else { TakeBooks(s, m); }
      case GiveRecursive(m) => GiveRecursiveBooks(s, m);
      case Timeout(t) => TimeoutBooks(s, t);
      case _ => OthersBooks(s, step);
    }
    hide Books, System.Take, System.Decide, System.Give, System.GiveRecursive, System.Timeout;
  }

  lemma TakeAgainBooks(s: System, m: Id)
    requires Books(s) && s.Holds(s.current, m)
    ensures Books(s.(mutexes := s.mutexes[m := s.mutexes[m].(count := s.mutexes[m].count + 1)]))
  {
    hide HeldSet;
    HeldSame(s.mutexes, m, s.mutexes[m].(count := s.mutexes[m].count + 1));
  }

  // ----- whole runs of the books -----

  ghost predicate Legal(s: System, steps: seq<Step>)
    decreases |steps|
  {
    steps == [] || (Enabled(s, steps[0]) && Legal(Apply(s, steps[0]), steps[1..]))
  }

  function Run(s: System, steps: seq<Step>): System
    decreases |steps|
  {
    if steps == [] then s else Run(Apply(s, steps[0]), steps[1..])
  }

  /** Does this step take, or give back, recursive mutex `m` with success? */
  predicate Takes(s: System, step: Step, m: Id) {
    step == TakeRecursive(m) && m in s.mutexes && (s.Holds(s.current, m) || s.mutexes[m].holder == Nobody)
  }

  predicate Gives(s: System, step: Step, m: Id) {
    step == GiveRecursive(m) && s.Holds(s.current, m) && s.mutexes[m].count > 0
  }

  function TakesIn(s: System, steps: seq<Step>, m: Id): nat
    decreases |steps|
  {
    if steps == [] then 0 else (if Takes(s, steps[0], m) then 1 else 0) + TakesIn(Apply(s, steps[0]), steps[1..], m)
  }

  function GivesIn(s: System, steps: seq<Step>, m: Id): nat
    decreases |steps|
  {
    if steps == [] then 0 else (if Gives(s, steps[0], m) then 1 else 0) + GivesIn(Apply(s, steps[0]), steps[1..], m)
  }

  lemma StepBalance(s: System, step: Step, m: Id)
    requires Enabled(s, step) && m in s.mutexes && s.mutexes[m].recursive
    ensures var r := Apply(s, step);
      && m in r.mutexes && r.mutexes[m].recursive
      && r.mutexes[m].count == s.mutexes[m].count + (if Takes(s, step, m) then 1 else 0) - (if Gives(s, step, m) then 1 else 0)
  {
    match step {
      case Take(n) => TakeBalance(s, n, m);
      case TakeRecursive(n) => TakeBalance(s, n, m);
      case Decide(n) => DecideBalance(s, n, m);
      case Give(n) => GiveBalance(s, n, m);
      case GiveRecursive(n) => GiveRecursiveBalance(s, n, m);
      case _ => OthersBalance(s, step, m);
    }
    hide System.Take, System.Decide, System.Give, System.GiveRecursive, System.Timeout, System.SetPriority;
  }

  lemma GiveRecursiveBalance(s: System, n: Id, m: Id)
    requires n in s.mutexes && m in s.mutexes
    ensures var r := s.GiveRecursive(n);
      m in r.mutexes && r.mutexes[m].recursive == s.mutexes[m].recursive &&
      r.mutexes[m].count == s.mutexes[m].count - if n == m && Gives(s, Step.GiveRecursive(n), n) then 1 else 0
  {
    hide System.Give;
    if s.Holds(s.current, n) && s.mutexes[n].count > 0 {
      GiveBalance(s.(mutexes := s.mutexes[n := s.mutexes[n].(count := s.mutexes[n].count - 1)]), n, m);
    }
  }

  lemma TakeBalance(s: System, n: Id, m: Id)
    requires n in s.mutexes && m in s.mutexes
    ensures var r := s.Take(n);
      m in r.mutexes && r.mutexes[m].recursive == s.mutexes[m].recursive &&
      r.mutexes[m].count == s.mutexes[m].count + if n == m && s.mutexes[m].recursive && s.mutexes[m].holder == Nobody then 1 else 0
  {
  }

  lemma DecideBalance(s: System, n: Id, m: Id)
    requires n in s.mutexes && m in s.mutexes
    ensures var r := s.Decide(n); m in r.mutexes && r.mutexes[m].recursive == s.mutexes[m].recursive && r.mutexes[m].count == s.mutexes[m].count
  {
    hide With, PriorityPlace;
  }

  lemma GiveBalance(s: System, n: Id, m: Id)
    requires n in s.mutexes && m in s.mutexes
    ensures var r := s.Give(n); m in r.mutexes && r.mutexes[m].recursive == s.mutexes[m].recursive && r.mutexes[m].count == s.mutexes[m].count
  {
    DropIs(s);
    hide System.Disinherit, System.Drops;
  }

  lemma OthersBalance(s: System, step: Step, m: Id)
    requires m in s.mutexes && (step.GiveUp? || step.Timeout? || step.SetPriority? || step.Sleep? || step.Wake? || step.Switch?)
    ensures var r := Apply(s, step); m in r.mutexes && r.mutexes[m].recursive == s.mutexes[m].recursive && r.mutexes[m].count == s.mutexes[m].count
  {
    hide Without;
  }

  /**
   * Over any run, nested or not, with timeouts and changes of priority, the books are kept, and a
   * recursive mutex that was free at the start is free at the end exactly when it has been given as
   * often as it was taken.
   */
  lemma {:induction false} RunBooks(s: System, steps: seq<Step>, m: Id)
    requires Books(s) && Legal(s, steps) && m in s.mutexes && s.mutexes[m].recursive
    ensures Books(Run(s, steps)) && m in Run(s, steps).mutexes && Run(s, steps).mutexes[m].recursive
    ensures Run(s, steps).mutexes[m].count + GivesIn(s, steps, m) == s.mutexes[m].count + TakesIn(s, steps, m)
    ensures s.mutexes[m].holder == Nobody ==>
      (Run(s, steps).mutexes[m].holder == Nobody <==> TakesIn(s, steps, m) == GivesIn(s, steps, m))
    decreases |steps|
  {
    RunCounts(s, steps, m);
    hide Counts, Legal;
  }

  lemma {:induction false} RunCounts(s: System, steps: seq<Step>, m: Id)
    requires Books(s) && Legal(s, steps) && m in s.mutexes && s.mutexes[m].recursive
    ensures Books(Run(s, steps)) && m in Run(s, steps).mutexes && Run(s, steps).mutexes[m].recursive
    ensures Run(s, steps).mutexes[m].count + GivesIn(s, steps, m) == s.mutexes[m].count + TakesIn(s, steps, m)
    decreases |steps|
  {
    hide Books, Enabled, Apply, Takes, Gives;
    if steps != [] {
      StepBooks(s, steps[0]);
      StepBalance(s, steps[0], m);
      RunCounts(Apply(s, steps[0]), steps[1..], m);
    }
  }

  // ----- priority inheritance -----

  /** No two mutexes and no waiting beside holding; no wait times out and nobody changes a priority. */
  ghost predicate Simple(s: System, step: Step) {
    match step
    case Take(m) => At(s.held, s.current) == 0
    case TakeRecursive(m) => At(s.held, s.current) == 0 || s.Holds(s.current, m)
    case Timeout(t) => false
    case SetPriority(t, p) => false
    case _ => true
  }

  ghost predicate Below(s: System, ws: seq<Task>, p: nat) { forall w :: w in ws ==> s.Prio(w) <= p }

  /** The holder has at least the priority of every waiter, and no more than that or its own. */
  ghost predicate Fair(s: System, mu: Mutex, m: Id) {
    match mu.holder
    case HeldBy(h) =>
      && Below(s, mu.waiters, s.Prio(h))
      && (s.Prio(h) == At(s.base, h) || exists w :: w in mu.waiters && s.Prio(w) == s.Prio(h))
    case Nobody =>
      // whoever was woken when it was given has at least the priority of the rest
      mu.waiters == [] || exists t :: t in s.place && s.place[t] == Trying(m) && Below(s, mu.waiters, s.Prio(t))
  }

  ghost predicate Descending(s: System, ws: seq<Task>) {
    forall i, j :: 0 <= i < j < |ws| ==> s.Prio(ws[j]) <= s.Prio(ws[i])
  }

  /** The lists agree with where the tasks are, and are in priority order. */
  ghost predicate Queues(s: System) {
    && (forall m :: m in s.mutexes ==> NoDup(s.mutexes[m].waiters) && Descending(s, s.mutexes[m].waiters))
    && (forall m, t :: m in s.mutexes && t in s.mutexes[m].waiters ==> t in s.place && s.place[t] == Waiting(m))
  }

  /** Who is in the loop of a take holds no mutex, and nobody holds two. */
  ghost predicate OneEach(s: System) {
    && (forall t :: t in s.place && (s.place[t].Trying? || s.place[t].Deciding? || s.place[t].Waiting?) ==> At(s.held, t) == 0)
    && (forall t :: At(s.held, t) <= 1 && At(s.base, t) <= s.Prio(t))
  }

  /** The running task has the highest priority of all that are ready, unless a switch is due. */
  ghost predicate Highest(s: System) {
    s.switchDue || (s.IsReady(s.current) && forall t :: s.IsReady(t) ==> s.Prio(t) <= s.Prio(s.current))
  }

  ghost predicate AllFair(s: System) { forall m :: m in s.mutexes ==> Fair(s, s.mutexes[m], m) }

  ghost predicate Core(s: System) {
    Counts(s) && AllFair(s) && Queues(s) && OneEach(s) && Highest(s)
  }

  /** Every event item value was made from the priority in use. */
  ghost predicate Ranks(s: System) { forall t :: At(s.rank, t) == s.Prio(t) }

  ghost predicate InvM(s: System) {
    Core(s) && Recursion(s) && Ranks(s)
  }

  /** Fairness of a mutex depends on a few priorities and places only. */
  lemma FairSame(s: System, r: System, mu: Mutex, m: Id)
    requires Fair(s, mu, m)
    requires forall w :: w in mu.waiters ==> r.Prio(w) == s.Prio(w)
    requires mu.holder.HeldBy? ==> r.Prio(mu.holder.t) == s.Prio(mu.holder.t) && At(r.base, mu.holder.t) == At(s.base, mu.holder.t)
    requires mu.holder == Nobody ==>
      forall t :: t in s.place && s.place[t] == Trying(m) ==> t in r.place && r.place[t] == Trying(m) && r.Prio(t) == s.Prio(t)
    ensures Fair(r, mu, m)
  {
    match mu.holder {
      case HeldBy(h) =>
      case Nobody =>
        if mu.waiters != [] {
          var t :| t in s.place && s.place[t] == Trying(m) && Below(s, mu.waiters, s.Prio(t));
          assert t in r.place && r.place[t] == Trying(m) && Below(r, mu.waiters, r.Prio(t));
        }
    }
  }

  lemma TakeFreeFair(s: System, m: Id)
    requires Counts(s) && AllFair(s) && Highest(s) && m in s.mutexes && s.mutexes[m].holder == Nobody
    requires At(s.held, s.current) == 0 && Runs(s) && Starts(s, m)
    ensures AllFair(s.Take(m))
  {
    var r, mu := s.Take(m), s.mutexes[m];
    BaseWhenFree(s, s.current);
    hide Counts;
    assert Fair(s, mu, m);
    forall w | w in mu.waiters ensures r.Prio(w) <= r.Prio(s.current) {
      var t :| t in s.place && s.place[t] == Trying(m) && Below(s, mu.waiters, s.Prio(t));
      assert s.IsReady(t);
    }
    forall n | n in r.mutexes ensures Fair(r, r.mutexes[n], n) {
      assert Fair(s, s.mutexes[n], n);
      if n != m { FairSame(s, r, s.mutexes[n], n); }
    }
  }

  lemma BaseWhenFree(s: System, t: Task)
    requires Counts(s) && At(s.held, t) == 0
    ensures s.Prio(t) == At(s.base, t)
  {
    hide HeldSet;
  }

  lemma TakeMissFair(s: System, m: Id)
    requires AllFair(s) && m in s.mutexes && s.mutexes[m].holder != Nobody && Runs(s) && Starts(s, m)
    ensures AllFair(s.Take(m))
  {
    var r := s.Take(m);
    forall n | n in r.mutexes ensures Fair(r, r.mutexes[n], n) {
      assert Fair(s, s.mutexes[n], n);
      FairSame(s, r, s.mutexes[n], n);
    }
    hide Fair;
  }

  lemma TakeQueues(s: System, m: Id)
    requires Queues(s) && m in s.mutexes && Runs(s) && Starts(s, m)
    ensures Queues(s.Take(m))
  {
    var r := s.Take(m);
    assert forall n :: n in s.mutexes ==> n in r.mutexes && r.mutexes[n].waiters == s.mutexes[n].waiters;
    hide NoDup;
  }

  lemma TakeOneEach(s: System, m: Id)
    requires Highest(s) && OneEach(s) && m in s.mutexes && At(s.held, s.current) == 0 && Runs(s) && Starts(s, m)
    ensures OneEach(s.Take(m)) && Highest(s.Take(m))
  {
    var r := s.Take(m);
    assert r.held == s.held[s.current := 1] || r.held == s.held;
    assert r.prio == s.prio && r.base == s.base && r.switchDue == s.switchDue && r.current == s.current;
    assert r.place == s.place[s.current := r.place[s.current]] && (r.place[s.current].Outside? || r.held == s.held);
    hide System.Take;
    TakeOneEachIs(s, r);
  }

  lemma TakeOneEachIs(s: System, r: System)
    requires Highest(s) && OneEach(s) && At(s.held, s.current) == 0 && s.IsReady(s.current)
    requires r.prio == s.prio && r.base == s.base && r.switchDue == s.switchDue && r.current == s.current
    requires s.current in r.place && CanRun(r.place[s.current]) && r.place == s.place[s.current := r.place[s.current]]
    requires r.held == s.held || (r.held == s.held[s.current := 1] && r.place[s.current].Outside?)
    ensures OneEach(r) && Highest(r)
  {
  }

  lemma TakeKeeps(s: System, m: Id)
    requires Core(s) && m in s.mutexes && At(s.held, s.current) == 0 && Runs(s) && Starts(s, m)
    ensures AllFair(s.Take(m)) && Queues(s.Take(m)) && OneEach(s.Take(m)) && Highest(s.Take(m))
  {
    hide AllFair, Queues, OneEach, Highest, Counts, System.Take, Runs, Starts;
    if s.mutexes[m].holder == Nobody { TakeFreeFair(s, m); } else { TakeMissFair(s, m); }
    TakeQueues(s, m);
    TakeOneEach(s, m);
  }

  lemma InsertDescending(ws: seq<Task>, rank: map<Task, nat>, c: Task)
    requires NoDup(ws) && c !in ws && forall i, j :: 0 <= i < j < |ws| ==> At(rank, ws[j]) <= At(rank, ws[i])
    ensures var r := With(ws, PriorityPlace(ws, rank, At(rank, c)), c);
      NoDup(r) && (forall i, j :: 0 <= i < j < |r| ==> At(rank, r[j]) <= At(rank, r[i])) && forall w :: w in r <==> w == c || w in ws
  {
    WithMembers(ws, PriorityPlace(ws, rank, At(rank, c)), c);
    WithNoDup(ws, PriorityPlace(ws, rank, At(rank, c)), c);
  }

  /** What blocking on a mutex held by `h` does. */
  lemma DecideIs(s: System, m: Id, h: Task)
    requires m in s.mutexes && s.mutexes[m].holder == HeldBy(h)
    ensures var r, c := s.Decide(m), s.current;
      && r == s.(prio := r.prio, rank := r.rank, switchDue := true, place := s.place[c := Waiting(m)],
                 mutexes := s.mutexes[m := s.mutexes[m].(waiters := r.mutexes[m].waiters)])
      && r.mutexes[m].waiters == With(s.mutexes[m].waiters, PriorityPlace(s.mutexes[m].waiters, r.rank, At(r.rank, c)), c)
      && (forall t :: r.Prio(t) == if t == h && s.Prio(h) < s.Prio(c) then s.Prio(c) else s.Prio(t))
      && forall t :: At(r.rank, t) == if t == h && s.Prio(h) < s.Prio(c) then s.Prio(c) else At(s.rank, t)
  {
    hide With, PriorityPlace;
  }

  /** Where the parties to a block stand. */
  lemma DecideParties(s: System, m: Id, h: Task)
    requires Core(s) && m in s.mutexes && s.mutexes[m].holder == HeldBy(h) && s.IsReady(s.current) && s.place[s.current] == Deciding(m)
    ensures h != s.current && forall n :: n in s.mutexes ==> s.current !in s.mutexes[n].waiters && h !in s.mutexes[n].waiters
    ensures forall n :: n in s.mutexes && s.mutexes[n].holder == HeldBy(h) ==> n == m
    ensures h in s.place ==> !s.place[h].Trying?
    ensures NoDup(s.mutexes[m].waiters) && Descending(s, s.mutexes[m].waiters)
  {
    hide Counts, AllFair, Highest, NoDup, Descending;
    HolderHolds(s, m, h);
    HolderFree(s, h);
    assert At(s.held, h) == 1;
  }

  /** A holder waits for nothing. */
  lemma HolderFree(s: System, h: Task)
    requires Queues(s) && OneEach(s) && At(s.held, h) > 0
    ensures (forall n :: n in s.mutexes ==> h !in s.mutexes[n].waiters) && (h in s.place ==> !s.place[h].Trying? && !s.place[h].Deciding?)
    ensures At(s.held, h) <= 1
  {
    hide NoDup, Descending;
  }

  lemma DecideQueues(s: System, r: System, m: Id, c: Task, h: Task)
    requires Queues(s) && m in s.mutexes && c in s.place && s.place[c] == Deciding(m)
    requires r.mutexes.Keys == s.mutexes.Keys && forall n :: n in s.mutexes && n != m ==> r.mutexes[n] == s.mutexes[n]
    requires r.place == s.place[c := Waiting(m)]
    requires forall n :: n in s.mutexes ==> h !in s.mutexes[n].waiters
    requires forall t :: t != h ==> r.Prio(t) == s.Prio(t)
    requires NoDup(r.mutexes[m].waiters) && Descending(r, r.mutexes[m].waiters)
    requires forall w :: w in r.mutexes[m].waiters ==> w == c || w in s.mutexes[m].waiters
    ensures Queues(r)
  {
    forall n | n in r.mutexes ensures NoDup(r.mutexes[n].waiters) && Descending(r, r.mutexes[n].waiters) {
      if n != m {
        assert NoDup(s.mutexes[n].waiters) && Descending(s, s.mutexes[n].waiters);
        StillDescends(s, r, s.mutexes[n].waiters, h);
      }
    }
    hide NoDup, Descending;
  }

  lemma StillDescends(s: System, r: System, ws: seq<Task>, h: Task)
    requires Descending(s, ws) && h !in ws && forall t :: t != h ==> r.Prio(t) == s.Prio(t)
    ensures Descending(r, ws)
  {
  }

  lemma DecideOneEach(s: System, r: System, c: Task)
    requires OneEach(s) && s.IsReady(c) && s.place[c].Deciding?
    requires r.held == s.held && r.base == s.base && (forall t :: s.Prio(t) <= r.Prio(t))
    requires exists m :: r.place == s.place[c := Waiting(m)]
    ensures OneEach(r)
  {
  }

  lemma DecideHeld(s: System, m: Id, h: Task)
    requires Core(s) && Ranks(s) && m in s.mutexes && s.mutexes[m].holder == HeldBy(h) && s.IsReady(s.current) && s.place[s.current] == Deciding(m)
    ensures AllFair(s.Decide(m)) && Queues(s.Decide(m)) && OneEach(s.Decide(m)) && Highest(s.Decide(m))
  {
    hide AllFair, Queues, OneEach, Counts, Fair, NoDup, With, PriorityPlace, System.Decide;
    var r, c := s.Decide(m), s.current;
    DecideIs(s, m, h);
    DecideParties(s, m, h);
    InsertDescending(s.mutexes[m].waiters, r.rank, c);
    DecideQueues(s, r, m, c, h);
    DecideOneEach(s, r, c);
    DecideFair(s, r, m, h);
  }

  lemma HolderHolds(s: System, m: Id, h: Task)
    requires Counts(s) && m in s.mutexes && s.mutexes[m].holder == HeldBy(h)
    ensures At(s.held, h) > 0
    ensures At(s.held, h) <= 1 ==> forall n :: n in s.mutexes && s.mutexes[n].holder == HeldBy(h) ==> n == m
  {
    SomeHeld(s.mutexes, m, h);
    forall n | n in s.mutexes && s.mutexes[n].holder == HeldBy(h) && n != m ensures At(s.held, h) > 1 {
      assert {m, n} <= HeldSet(s.mutexes, h);
      SubsetSize({m, n}, HeldSet(s.mutexes, h));
    }
  }

  lemma {:induction false} SubsetSize(a: set<Id>, b: set<Id>)
    requires a <= b
    ensures |a| <= |b|
    decreases |a|
  {
    if a != {} {
      var x :| x in a;
      SubsetSize(a - {x}, b - {x});
    }
  }

  lemma DecideFair(s: System, r: System, m: Id, h: Task)
    requires AllFair(s) && m in s.mutexes && s.mutexes[m].holder == HeldBy(h)
    requires r.mutexes.Keys == s.mutexes.Keys && forall n :: n in s.mutexes && n != m ==> r.mutexes[n] == s.mutexes[n]
    requires r.mutexes[m].holder == HeldBy(h) && (forall w :: w in r.mutexes[m].waiters <==> w == s.current || w in s.mutexes[m].waiters)
    requires r.place == s.place[s.current := Waiting(m)] && r.base == s.base && h != s.current
    requires forall t :: r.Prio(t) == if t == h && s.Prio(h) < s.Prio(s.current) then s.Prio(s.current) else s.Prio(t)
    requires forall n :: n in s.mutexes ==> h !in s.mutexes[n].waiters
    requires forall n :: n in s.mutexes && s.mutexes[n].holder == HeldBy(h) ==> n == m
    requires s.current in s.place && s.place[s.current] == Deciding(m) && (h in s.place ==> !s.place[h].Trying?)
    ensures AllFair(r)
  {
    forall n | n in r.mutexes && n != m ensures Fair(r, r.mutexes[n], n) {
      assert Fair(s, s.mutexes[n], n);
      FairSame(s, r, s.mutexes[n], n);
    }
    assert Fair(s, s.mutexes[m], m);
    JoinFair(s, r, m, h);
    hide Fair;
  }

  lemma JoinFair(s: System, r: System, m: Id, h: Task)
    requires m in s.mutexes && m in r.mutexes && s.mutexes[m].holder == r.mutexes[m].holder == HeldBy(h) && Fair(s, s.mutexes[m], m)
    requires forall w :: w in r.mutexes[m].waiters <==> w == s.current || w in s.mutexes[m].waiters
    requires r.base == s.base && h != s.current && h !in s.mutexes[m].waiters
    requires forall t :: r.Prio(t) == if t == h && s.Prio(h) < s.Prio(s.current) then s.Prio(s.current) else s.Prio(t)
    ensures Fair(r, r.mutexes[m], m)
  {
    if s.Prio(h) >= s.Prio(s.current) && s.Prio(h) != At(s.base, h) {
      var w :| w in s.mutexes[m].waiters && s.Prio(w) == s.Prio(h);
      assert w in r.mutexes[m].waiters && r.Prio(w) == r.Prio(h);
    } else if s.Prio(h) < s.Prio(s.current) {
      assert s.current in r.mutexes[m].waiters && r.Prio(s.current) == r.Prio(h);
    }
  }

  // ----- giving -----

  /** What giving the only mutex that the running task holds does. */
  lemma GiveIs(s: System, m: Id)
    requires m in s.mutexes && At(s.held, s.current) == 1
    ensures var r, ws := s.Give(m), s.mutexes[m].waiters;
      && r.base == s.base && r.current == s.current && At(r.held, s.current) == 0
      && (forall t :: t != s.current ==> At(r.held, t) == At(s.held, t) && r.Prio(t) == s.Prio(t))
      && r.Prio(s.current) == At(s.base, s.current)
      && r.mutexes == s.mutexes[m := s.mutexes[m].(holder := Nobody, waiters := if ws == [] then [] else ws[1..])]
      && r.place == (if ws == [] then s.place else s.place[ws[0] := Trying(m)])
      && (ws == [] && s.Prio(s.current) == At(s.base, s.current) ==> r.switchDue == s.switchDue)
      && (ws != [] && r.Prio(s.current) < r.Prio(ws[0]) ==> r.switchDue)
  {
    DisinheritIs(s);
    hide System.Disinherit;
  }

  lemma DisinheritIs(s: System)
    requires At(s.held, s.current) == 1
    ensures var r := s.Disinherit();
      && r == s.(held := s.held[s.current := 0], prio := r.prio, rank := r.rank) && r.Prio(s.current) == At(s.base, s.current)
      && forall t :: t != s.current ==> r.Prio(t) == s.Prio(t)
  {
  }

  lemma GiveQueues(s: System, r: System, m: Id)
    requires Queues(s) && m in s.mutexes && r.mutexes.Keys == s.mutexes.Keys
    requires forall n :: n in s.mutexes && n != m ==> r.mutexes[n] == s.mutexes[n]
    requires var ws := s.mutexes[m].waiters;
      && r.mutexes[m].waiters == (if ws == [] then [] else ws[1..])
      && r.place == (if ws == [] then s.place else s.place[ws[0] := Trying(m)])
    requires forall n, t :: n in s.mutexes && t in s.mutexes[n].waiters ==> r.Prio(t) == s.Prio(t)
    ensures Queues(r)
  {
    forall n | n in r.mutexes ensures NoDup(r.mutexes[n].waiters) && Descending(r, r.mutexes[n].waiters) {
      var ws, us := s.mutexes[n].waiters, r.mutexes[n].waiters;
      assert NoDup(ws) && Descending(s, ws);
      assert us == ws || (ws != [] && us == ws[1..]);
      TailDescends(s, r, ws, us);
    }
    forall n, t | n in r.mutexes && t in r.mutexes[n].waiters ensures t in r.place && r.place[t] == Waiting(n) {
      StillWaiting(s, r, m, n, t);
    }
    hide Descending, NoDup;
  }

  lemma StillWaiting(s: System, r: System, m: Id, n: Id, t: Task)
    requires Queues(s) && m in s.mutexes && n in s.mutexes
    requires var ws := s.mutexes[m].waiters;
      && t in (if n != m then s.mutexes[n].waiters else if ws == [] then [] else ws[1..])
      && r.place == (if ws == [] then s.place else s.place[ws[0] := Trying(m)])
    ensures t in r.place && r.place[t] == Waiting(n)
  {
    var ws := s.mutexes[m].waiters;
    if ws != [] {
      assert ws[0] in ws && s.place[ws[0]] == Waiting(m);
      if n != m {
        assert s.place[t] == Waiting(n);
      } else {
        var j := IndexOf(ws[1..], t);
        assert NoDup(ws) && ws[0] != ws[j + 1];
        assert ws[j + 1] == t && t in ws;
      }
    }
  }

  lemma TailDescends(s: System, r: System, ws: seq<Task>, us: seq<Task>)
    requires NoDup(ws) && Descending(s, ws) && (us == ws || (ws != [] && us == ws[1..]))
    requires forall t :: t in ws ==> r.Prio(t) == s.Prio(t)
    ensures NoDup(us) && Descending(r, us)
  {
    forall i, j | 0 <= i < j < |us| ensures us[i] != us[j] && r.Prio(us[j]) <= r.Prio(us[i]) {
      if us != ws { assert us[i] == ws[i + 1] && us[j] == ws[j + 1]; }
    }
  }

  lemma GiveFair(s: System, r: System, m: Id)
    requires AllFair(s) && s.Holds(s.current, m) && r.mutexes.Keys == s.mutexes.Keys && r.base == s.base
    requires forall n :: n in s.mutexes && n != m ==> r.mutexes[n] == s.mutexes[n]
    requires forall n :: n in s.mutexes && s.mutexes[n].holder == HeldBy(s.current) ==> n == m
    requires forall t :: t != s.current ==> r.Prio(t) == s.Prio(t)
    requires s.current in s.place && s.place[s.current] == Outside
    requires forall n :: n in s.mutexes ==> s.current !in s.mutexes[n].waiters
    requires Descending(s, s.mutexes[m].waiters)
    requires var ws := s.mutexes[m].waiters;
      && r.mutexes[m] == s.mutexes[m].(holder := Nobody, waiters := if ws == [] then [] else ws[1..])
      && (if ws == [] then r.place == s.place else ws[0] in s.place && s.place[ws[0]] == Waiting(m) && r.place == s.place[ws[0] := Trying(m)])
    ensures AllFair(r)
  {
    forall n | n in r.mutexes ensures Fair(r, r.mutexes[n], n) {
      assert Fair(s, s.mutexes[n], n);
      if n != m {
        FairSame(s, r, s.mutexes[n], n);
      } else {
        var ws := s.mutexes[m].waiters;
        if ws != [] {
          forall w | w in ws[1..] ensures r.Prio(w) <= r.Prio(ws[0]) {
            var j := IndexOf(ws[1..], w);
            assert ws[j + 1] == w && w in ws && ws[0] in ws;
          }
          assert r.place[ws[0]] == Trying(m) && Below(r, ws[1..], r.Prio(ws[0]));
        }
      }
    }
  }

  lemma GiveHighest(s: System, r: System, m: Id)
    requires Highest(s) && !s.switchDue && s.Holds(s.current, m) && Fair(s, s.mutexes[m], m) && Descending(s, s.mutexes[m].waiters)
    requires r.current == s.current && r.base == s.base && At(s.base, s.current) <= s.Prio(s.current)
    requires forall t :: t != s.current ==> r.Prio(t) == s.Prio(t)
    requires r.Prio(s.current) == At(s.base, s.current) && s.current !in s.mutexes[m].waiters
    requires var ws := s.mutexes[m].waiters;
      && r.place == (if ws == [] then s.place else s.place[ws[0] := Trying(m)])
      && (ws == [] && s.Prio(s.current) == At(s.base, s.current) ==> r.switchDue == s.switchDue)
      && (ws != [] && r.Prio(s.current) < r.Prio(ws[0]) ==> r.switchDue)
    ensures Highest(r)
  {
    var ws, c := s.mutexes[m].waiters, s.current;
    if s.Prio(c) != At(s.base, c) {
      var w :| w in ws && s.Prio(w) == s.Prio(c);
      assert s.Prio(w) <= s.Prio(ws[0]) by { var j := IndexOf(ws, w); }
      assert ws[0] in ws;
    }
  }

  lemma GiveKeeps(s: System, m: Id)
    requires Core(s) && s.Holds(s.current, m) && Runs(s) && s.place[s.current] == Outside
    ensures AllFair(s.Give(m)) && Queues(s.Give(m)) && OneEach(s.Give(m)) && Highest(s.Give(m))
  {
    var r := s.Give(m);
    GiveParties(s, m);
    GiveIs(s, m);
    hide AllFair, Queues, Counts, Fair, NoDup, Descending, Highest, System.Give, OneEach;
    GiveQueues(s, r, m);
    GiveFair(s, r, m);
    GiveHighest(s, r, m);
    GiveOneEach(s, r, m);
  }

  lemma GiveOneEach(s: System, r: System, m: Id)
    requires OneEach(s) && m in s.mutexes && At(r.held, s.current) == 0 && r.base == s.base && r.Prio(s.current) == At(s.base, s.current)
    requires forall t :: t != s.current ==> At(r.held, t) == At(s.held, t) && r.Prio(t) == s.Prio(t)
    requires var ws := s.mutexes[m].waiters;
      if ws == [] then r.place == s.place else ws[0] in s.place && s.place[ws[0]] == Waiting(m) && r.place == s.place[ws[0] := Trying(m)]
    ensures OneEach(r)
  {
  }

  lemma GiveParties(s: System, m: Id)
    requires Core(s) && s.Holds(s.current, m) && s.IsReady(s.current)
    ensures At(s.held, s.current) == 1 && At(s.base, s.current) <= s.Prio(s.current)
    ensures forall n :: n in s.mutexes && s.mutexes[n].holder == HeldBy(s.current) ==> n == m
    ensures forall n :: n in s.mutexes ==> s.current !in s.mutexes[n].waiters
    ensures Fair(s, s.mutexes[m], m) && Descending(s, s.mutexes[m].waiters)
    ensures s.mutexes[m].waiters != [] ==>
      s.mutexes[m].waiters[0] in s.place && s.place[s.mutexes[m].waiters[0]] == Waiting(m)
  {
    HolderHolds(s, m, s.current);
    if s.mutexes[m].waiters != [] { assert s.mutexes[m].waiters[0] in s.mutexes[m].waiters; }
    hide Counts, Fair, NoDup, Descending, Highest;
  }

  lemma StepKeepsM(s: System, step: Step)
    requires InvM(s) && Enabled(s, step) && Simple(s, step)
    ensures InvM(Apply(s, step))
  {
    hide Counts, Recursion, AllFair, Queues, OneEach, Highest, Ranks, System.Take, System.Decide, System.Give, System.GiveRecursive;
    StepBooks(s, step);
    StepRanks(s, step);
    match step {
      case Take(m) => TakeKeeps(s, m);
      case Decide(m) => DecideKeeps(s, m);
      case Give(m) => GiveCore(s, m);
      case TakeRecursive(m) => if s.Holds(s.current, m) { RecountKeeps(s, m, s.mutexes[m].count + 1); } else { TakeKeeps(s, m); }
      case GiveRecursive(m) => GiveRecursiveKeeps(s, m);
      case GiveUp => GiveUpKeeps(s);
      case Sleep => SleepKeeps(s);
      case Wake(t) => WakeKeeps(s, t);
      case Switch(t) => SwitchKeeps(s, t);
      case _ =>
    }
  }

  lemma StepRanks(s: System, step: Step)
    requires Ranks(s) && Simple(s, step)
    ensures Ranks(Apply(s, step))
  {
    match step {
      case Decide(m) => if m in s.mutexes { DecideRanks(s, m); }
      case Give(m) => if m in s.mutexes { GiveRanks(s, m); }
      case GiveRecursive(m) =>
        if m in s.mutexes && s.mutexes[m].count == 1 { GiveRanks(s.(mutexes := s.mutexes[m := s.mutexes[m].(count := 0)]), m); }
      case _ =>
    }
    hide System.Decide, System.Give, System.Timeout, System.SetPriority, Ranks;
  }

  lemma DecideRanks(s: System, m: Id)
    requires Ranks(s) && m in s.mutexes
    ensures Ranks(s.Decide(m))
  {
    hide With, PriorityPlace;
    match s.mutexes[m].holder {
      case Nobody => RanksSame(s, s.Decide(m));
      case HeldBy(h) =>
        RaiseRanks(s, h, s.Prio(s.current));
        RanksSame(s.Inherit(h), s.Decide(m));
    }
    hide Ranks;
  }

  lemma RaiseRanks(s: System, h: Task, p: nat)
    requires Ranks(s)
    ensures Ranks(s.(prio := s.prio[h := p], rank := s.rank[h := p]))
  {
    var r := s.(prio := s.prio[h := p], rank := s.rank[h := p]);
    forall t ensures At(r.rank, t) == r.Prio(t) { assert At(s.rank, t) == s.Prio(t); }
  }

  lemma GiveRanks(s: System, m: Id)
    requires Ranks(s) && m in s.mutexes
    ensures Ranks(s.Give(m))
  {
    hide System.Drops;
    RaiseRanks(s, s.current, At(s.base, s.current));
    hide Ranks;
    RanksSame(if s.Drops() then s.(prio := s.prio[s.current := At(s.base, s.current)], rank := s.rank[s.current := At(s.base, s.current)]) else s, s.Disinherit());
    RanksSame(s.Disinherit(), s.Give(m));
  }

  lemma RanksSame(s: System, r: System)
    requires Ranks(s) && r.prio == s.prio && r.rank == s.rank
    ensures Ranks(r)
  {
  }

  lemma DecideKeeps(s: System, m: Id)
    requires Core(s) && Ranks(s) && m in s.mutexes && Runs(s) && s.place[s.current] == Deciding(m)
    ensures AllFair(s.Decide(m)) && Queues(s.Decide(m)) && OneEach(s.Decide(m)) && Highest(s.Decide(m))
  {
    match s.mutexes[m].holder {
      case HeldBy(h) => DecideHeld(s, m, h);
      case Nobody => DecideFree(s, m);
    }
    hide *;
  }

  lemma DecideFree(s: System, m: Id)
    requires Core(s) && m in s.mutexes && Runs(s) && s.place[s.current] == Deciding(m) && s.mutexes[m].holder == Nobody
    ensures AllFair(s.Decide(m)) && Queues(s.Decide(m)) && OneEach(s.Decide(m)) && Highest(s.Decide(m))
  {
    var r := s.Decide(m);
    assert r == s.(place := s.place[s.current := Trying(m)]);
    hide Counts, System.Decide;
    forall n | n in r.mutexes ensures Fair(r, r.mutexes[n], n) {
      assert Fair(s, s.mutexes[n], n);
      FairSame(s, r, s.mutexes[n], n);
    }
    hide Fair, NoDup;
  }

  /** Changing the call count of a mutex that stays held. */
  lemma RecountKeeps(s: System, m: Id, count: nat)
    requires Core(s) && m in s.mutexes
    ensures Core(s.(mutexes := s.mutexes[m := s.mutexes[m].(count := count)]))
  {
    var r := s.(mutexes := s.mutexes[m := s.mutexes[m].(count := count)]);
    RecountCounts(s, r, m);
    assert forall n :: n in s.mutexes ==> n in r.mutexes && r.mutexes[n] == s.mutexes[n].(count := r.mutexes[n].count);
    hide Counts, AllFair, Queues;
    RecountFair(s, r);
    RecountQueues(s, r);
    RecountRanks(s, r);
    hide OneEach, Highest;
  }

  lemma RecountRanks(s: System, r: System)
    requires OneEach(s) && Highest(s) && r == s.(mutexes := r.mutexes)
    ensures OneEach(r) && Highest(r)
  {
  }

  lemma RecountCounts(s: System, r: System, m: Id)
    requires Counts(s) && m in s.mutexes && r == s.(mutexes := r.mutexes)
    requires m in r.mutexes && r.mutexes == s.mutexes[m := r.mutexes[m]] && r.mutexes[m].holder == s.mutexes[m].holder
    ensures Counts(r)
  {
    HeldSame(s.mutexes, m, r.mutexes[m]);
    hide HeldSet;
  }

  lemma RecountFair(s: System, r: System)
    requires AllFair(s) && r == s.(mutexes := r.mutexes) && r.mutexes.Keys == s.mutexes.Keys
    requires forall n :: n in s.mutexes ==> r.mutexes[n] == s.mutexes[n].(count := r.mutexes[n].count)
    ensures AllFair(r)
  {
    forall n | n in r.mutexes ensures Fair(r, r.mutexes[n], n) {
      assert Fair(s, s.mutexes[n], n);
      RecountOne(s, r, s.mutexes[n], r.mutexes[n], n);
    }
    hide Fair;
  }

  lemma RecountOne(s: System, r: System, mu: Mutex, nu: Mutex, n: Id)
    requires Fair(s, mu, n) && nu == mu.(count := nu.count) && r == s.(mutexes := r.mutexes)
    ensures Fair(r, nu, n)
  {
    FairSame(s, r, mu, n);
  }

  lemma RecountQueues(s: System, r: System)
    requires Queues(s) && r == s.(mutexes := r.mutexes) && r.mutexes.Keys == s.mutexes.Keys
    requires forall n :: n in s.mutexes ==> r.mutexes[n] == s.mutexes[n].(count := r.mutexes[n].count)
    ensures Queues(r)
  {
    forall m | m in r.mutexes ensures NoDup(r.mutexes[m].waiters) && Descending(r, r.mutexes[m].waiters) {
      assert NoDup(s.mutexes[m].waiters) && Descending(s, s.mutexes[m].waiters);
    }
    hide NoDup;
  }

  lemma GiveRecursiveKeeps(s: System, m: Id)
    requires Core(s) && m in s.mutexes && Runs(s) && s.place[s.current] == Outside
    ensures Core(s.GiveRecursive(m))
  {
    hide Core, System.Give;
    if s.Holds(s.current, m) && s.mutexes[m].count > 0 {
      RecountKeeps(s, m, s.mutexes[m].count - 1);
      if s.mutexes[m].count == 1 { GiveCore(s.(mutexes := s.mutexes[m := s.mutexes[m].(count := 0)]), m); }
    }
  }

  lemma GiveCore(s: System, m: Id)
    requires Core(s) && s.Holds(s.current, m) && Runs(s) && s.place[s.current] == Outside
    ensures Core(s.Give(m))
  {
    GiveKeeps(s, m);
    GiveCounts(s, m);
    hide Counts, AllFair, Queues, OneEach, Highest, System.Give;
  }

  /** Fairness does not depend on who runs or sleeps. */
  lemma AllFairSame(s: System, r: System)
    requires AllFair(s) && r.mutexes == s.mutexes && r.prio == s.prio && r.base == s.base
    requires forall t :: t in s.place && s.place[t].Trying? ==> t in r.place && r.place[t] == s.place[t]
    ensures AllFair(r)
  {
    forall n | n in r.mutexes ensures Fair(r, r.mutexes[n], n) {
      assert Fair(s, s.mutexes[n], n);
      FairSame(s, r, s.mutexes[n], n);
    }
    hide Fair;
  }

  lemma CountsSame(s: System, r: System)
    requires Counts(s) && r.mutexes == s.mutexes && r.prio == s.prio && r.base == s.base && r.held == s.held
    ensures Counts(r)
  {
    hide HeldSet;
  }

  lemma SleepKeeps(s: System)
    requires Core(s) && Runs(s) && s.place[s.current] == Outside
    ensures Core(s.Sleep())
  {
    hide Counts, AllFair, Queues;
    var r := s.Sleep();
    PlaceQueues(s, r, s.current);
    AllFairSame(s, r);
    CountsSame(s, r);
  }

  lemma GiveUpKeeps(s: System)
    requires Core(s) && Runs(s) && s.place[s.current].Deciding?
    ensures Core(s.GiveUp())
  {
    hide Counts, AllFair, Queues;
    var r := s.GiveUp();
    PlaceQueues(s, r, s.current);
    AllFairSame(s, r);
    CountsSame(s, r);
  }

  lemma WakeKeeps(s: System, t: Task)
    requires Core(s) && t in s.place && s.place[t] == Asleep
    ensures Core(s.Wake(t))
  {
    hide Counts, AllFair, Queues;
    var r := s.Wake(t);
    PlaceQueues(s, r, t);
    AllFairSame(s, r);
    CountsSame(s, r);
  }

  lemma PlaceQueues(s: System, r: System, t: Task)
    requires Queues(s) && r.mutexes == s.mutexes && r.prio == s.prio && t in s.place && !s.place[t].Waiting?
    requires forall u :: u in s.place && u != t ==> u in r.place && r.place[u] == s.place[u]
    ensures Queues(r)
  {
    forall m | m in r.mutexes ensures NoDup(r.mutexes[m].waiters) && Descending(r, r.mutexes[m].waiters) {
      assert NoDup(s.mutexes[m].waiters) && Descending(s, s.mutexes[m].waiters);
    }
    hide NoDup;
  }

  lemma SwitchKeeps(s: System, t: Task)
    requires Core(s) && Enabled(s, Step.Switch(t))
    ensures Core(s.Switch(t))
  {
    var r := s.Switch(t);
    assert r.mutexes == s.mutexes && r.prio == s.prio && r.held == s.held && r.base == s.base && r.place == s.place;
    AllFairSame(s, r);
    CountsSame(s, r);
    QueuesSame(s, r);
    hide Counts, AllFair, Queues;
  }

  lemma QueuesSame(s: System, r: System)
    requires Queues(s) && r.mutexes == s.mutexes && r.prio == s.prio && r.place == s.place
    ensures Queues(r)
  {
    forall m | m in r.mutexes ensures NoDup(r.mutexes[m].waiters) && Descending(r, r.mutexes[m].waiters) {
      assert NoDup(s.mutexes[m].waiters) && Descending(s, s.mutexes[m].waiters);
    }
    hide NoDup;
  }

  // ----- whole runs of the inheritance -----

  ghost predicate SimpleRun(s: System, steps: seq<Step>)
    decreases |steps|
  {
    steps == [] || (Enabled(s, steps[0]) && Simple(s, steps[0]) && SimpleRun(Apply(s, steps[0]), steps[1..]))
  }

  /**
   * In every run in which tasks hold or wait for one mutex at a time, without timeouts and changes
   * of priority, the holder of a mutex has at least the priority of each task in its list, whoever
   * took it after it was given, and the running task the highest priority of all that are ready,
   * unless a switch is due.
   */
  lemma {:induction false} HolderOutranksWaiters(s: System, steps: seq<Step>)
    requires InvM(s) && SimpleRun(s, steps)
    ensures InvM(Run(s, steps))
    ensures var r := Run(s, steps);
      && (forall m, h, w :: m in r.mutexes && r.mutexes[m].holder == HeldBy(h) && w in r.mutexes[m].waiters ==> r.Prio(w) <= r.Prio(h))
      && (!r.switchDue ==> forall t :: r.IsReady(t) ==> r.Prio(t) <= r.Prio(r.current))
    decreases |steps|
  {
    hide Core, Recursion, Ranks, Enabled, Simple, Apply;
    if steps == [] {
      Outranked(s);
    } else {
      StepKeepsM(s, steps[0]);
      HolderOutranksWaiters(Apply(s, steps[0]), steps[1..]);
    }
  }

  lemma Outranked(r: System)
    requires Core(r)
    ensures forall m, h, w :: m in r.mutexes && r.mutexes[m].holder == HeldBy(h) && w in r.mutexes[m].waiters ==> r.Prio(w) <= r.Prio(h)
    ensures !r.switchDue ==> forall t :: r.IsReady(t) ==> r.Prio(t) <= r.Prio(r.current)
  {
    hide Counts, Queues, OneEach;
    forall m, h, w | m in r.mutexes && r.mutexes[m].holder == HeldBy(h) && w in r.mutexes[m].waiters ensures r.Prio(w) <= r.Prio(h) {
      assert Fair(r, r.mutexes[m], m) && Below(r, r.mutexes[m].waiters, r.Prio(h));
    }
  }
}
