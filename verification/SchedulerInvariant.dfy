/** What every step of the scheduler keeps. */
module SchedulerInvariant {
  import opened Rings
  import opened Stores
  import opened Clock
  import opened Timeline
  import opened TwoLists
  import opened Scheduler

  // ----- the parts of the invariant -----

  /** The state lists exist, are disjoint, and agree with the container links. */
  ghost predicate Structured(s: States, priorities: nat) {
    && Valid(s)
    && (forall p: nat :: ReadyL(p) in s.lists <==> p < priorities)
    && DelayedL(true) in s.lists && DelayedL(false) in s.lists
    && SuspendedL in s.lists && TerminationL in s.lists
  }

  /** Ready tasks are filed under their own priority, and `top` bounds every non-empty ready list. */
  ghost predicate ReadyOk(c: map<Task, ListId>, prio: map<Task, nat>, top: nat, priorities: nat) {
    && top < priorities
    && (forall t :: t in c ==> t in prio && prio[t] < priorities)
    && (forall t :: t in c && c[t].ReadyL? ==> c[t].p == prio[t] && prio[t] <= top)
  }

  /** Only blocked tasks wait for events, and none is pending while the scheduler runs. */
  ghost predicate EventsOk(e: Events, c: map<Task, ListId>, suspended: nat) {
    && Valid(e) && PendingL in e.lists
    && (forall t :: t in e.container ==> t in c && (c[t].DelayedL? || c[t] == SuspendedL))
    && (suspended == 0 ==> forall t :: t in e.container ==> e.container[t] != PendingL)
  }

  /** Both delayed lists are ordered by wake value, and no value reaches `ticks`. */
  ghost predicate DelaysSorted(s: States, value: map<Task, nat>, ticks: nat) {
    && ByValue(s.Items(DelayedL(true)), value) && ByValue(s.Items(DelayedL(false)), value)
    && (forall t :: t in s.container && s.container[t].DelayedL? ==> At(value, t) < ticks)
  }

  /** The current delayed list holds nothing past due, nothing before `next`, and is empty at the last tick. */
  ghost predicate DelaysAhead(c: map<Task, ListId>, cur: bool, value: map<Task, nat>, tick: nat, next: nat, ticks: nat) {
    && next < ticks
    && (forall t :: t in c && c[t] == DelayedL(cur) ==>
          tick <= At(value, t) && next <= At(value, t) && tick + 1 < ticks)
  }

  /** The task counters, and the tasks that must always be there. */
  ghost predicate Counted(s: States, count: nat, deleted: nat, idle: Task, current: Task) {
    && count == |s.container| && deleted == |s.Items(TerminationL)|
    && idle in s.container && s.container[idle].ReadyL? && current in s.container
  }

  ghost predicate InRange(base: map<Task, nat>, priorities: nat) {
    forall t :: t in base ==> base[t] < priorities
  }

  /** What holds even while the tick handler is at work. */
  ghost predicate Core(s: Sched) {
    && Structured(s.states, s.priorities)
    && ReadyOk(s.states.container, s.prio, s.top, s.priorities)
    && EventsOk(s.events, s.states.container, s.suspended)
    && DelaysSorted(s.states, s.value, s.ticks)
    && Counted(s.states, s.count, s.deleted, s.idle, s.current)
    && s.tick < s.ticks && InRange(s.base, s.priorities)
  }

  ghost predicate Inv(s: Sched) {
    Core(s) && DelaysAhead(s.states.container, s.delayed, s.value, s.tick, s.next, s.ticks)
  }

  // ----- unlinking and relinking one state item -----

  /** The core invariant while the state item of `t` is in no list. */
  ghost predicate Loose(s: Sched, t: Task) {
    && t !in s.states.container
    && Structured(s.states, s.priorities)
    && ReadyOk(s.states.container, s.prio, s.top, s.priorities)
    && EventsOk(s.events, s.states.container, s.suspended)
    && DelaysSorted(s.states, s.value, s.ticks)
    && s.tick < s.ticks && InRange(s.base, s.priorities)
    && CountedBut(s.states, s.count, s.deleted, s.idle, s.current, t)
  }

  ghost predicate CountedBut(s: States, count: nat, deleted: nat, idle: Task, current: Task, t: Task) {
    && count == |s.container| + 1 && deleted == |s.Items(TerminationL)|
    && (idle != t ==> idle in s.container && s.container[idle].ReadyL?)
    && (current != t ==> current in s.container)
  }

  lemma RemovedParts(s: States, s': States, t: Task, prio: map<Task, nat>, top: nat, priorities: nat,
                     e: Events, suspended: nat, value: map<Task, nat>, ticks: nat)
    requires Structured(s, priorities) && Removed(s, s', t) && Valid(s')
    requires ReadyOk(s.container, prio, top, priorities) && EventsOk(e, s.container, suspended) && t !in e.container
    requires DelaysSorted(s, value, ticks)
    ensures Structured(s', priorities) && ReadyOk(s'.container, prio, top, priorities)
    ensures EventsOk(e, s'.container, suspended) && DelaysSorted(s', value, ticks)
  {
    if s.container[t].DelayedL? {
      WithoutByValue(s.Items(s.container[t]), IndexOf(s.Items(s.container[t]), t), value);
    }
  }

  lemma RemovedCounted(s: States, s': States, t: Task, count: nat, deleted: nat, idle: Task, current: Task)
    requires Removed(s, s', t) && Counted(s, count, deleted, idle, current) && TerminationL in s.lists
    ensures s.In(t, TerminationL) ==> deleted > 0
    ensures CountedBut(s', count, if s.container[t] == TerminationL then deleted - 1 else deleted, idle, current, t)
  {
    assert s'.container.Keys == s.container.Keys - {t};
  }

  /** Take `t` out of the list it is in. */
  lemma Unlink(s: Sched, t: Task) returns (r: Sched)
    requires Core(s) && t in s.states.container && t !in s.events.container
    ensures r == s.(states := s.states.Remove(t), deleted := if s.states.In(t, TerminationL) then s.deleted - 1 else s.deleted)
    ensures Loose(r, t) && r.states.container == s.states.container - {t}
    ensures t in s.prio && s.prio[t] < s.priorities
  {
    RemoveKeeps(s.states, t);
    assert TerminationL in s.states.lists && s.states.Remove(t).container == s.states.container - {t};
    assert s.states.In(t, TerminationL) ==> s.deleted > 0;
    r := s.(states := s.states.Remove(t), deleted := if s.states.In(t, TerminationL) then s.deleted - 1 else s.deleted);
    hide *;
    RemovedParts(s.states, r.states, t, s.prio, s.top, s.priorities, s.events, s.suspended, s.value, s.ticks);
    RemovedCounted(s.states, r.states, t, s.count, s.deleted, s.idle, s.current);
  }

  lemma AddedParts(s: States, s': States, t: Task, l: ListId, k: nat, prio: map<Task, nat>, top: nat, top': nat,
                   priorities: nat, e: Events, suspended: nat)
    requires Structured(s, priorities) && Added(s, s', t, l, k) && Valid(s')
    requires ReadyOk(s.container, prio, top, priorities) && EventsOk(e, s.container, suspended)
    requires t in prio && prio[t] < priorities
    requires top' == if l.ReadyL? && top < prio[t] then prio[t] else top
    requires l.ReadyL? ==> l.p == prio[t]
    ensures Structured(s', priorities) && ReadyOk(s'.container, prio, top', priorities)
    ensures EventsOk(e, s'.container, suspended)
  {
  }

  lemma AddedElsewhere(s: States, s': States, t: Task, l: ListId, k: nat, value: map<Task, nat>, ticks: nat, priorities: nat)
    requires Structured(s, priorities) && Added(s, s', t, l, k) && !l.DelayedL? && DelaysSorted(s, value, ticks)
    ensures DelaysSorted(s', value, ticks)
  {
  }

  lemma AddedCounted(s: States, s': States, t: Task, l: ListId, k: nat, count: nat, deleted: nat, idle: Task, current: Task)
    requires Added(s, s', t, l, k) && CountedBut(s, count, deleted, idle, current, t) && TerminationL in s.lists
    requires t == idle ==> l.ReadyL?
    ensures Counted(s', count, if l == TerminationL then deleted + 1 else deleted, idle, current)
  {
    assert s'.container.Keys == s.container.Keys + {t};
  }

  lemma LooseLists(s: Sched, t: Task)
    requires Loose(s, t)
    ensures t !in s.events.container && t !in s.states.container && Valid(s.states)
    ensures SuspendedL in s.states.lists && TerminationL in s.states.lists && DelayedL(true) in s.states.lists && DelayedL(false) in s.states.lists
    ensures forall p: nat :: p < s.priorities ==> ReadyL(p) in s.states.lists
  {
  }

  lemma InsertEndAdds(s: States, l: ListId, t: Task) returns (k: nat)
    requires Valid(s) && l in s.lists && t !in s.container
    ensures Valid(s.InsertEnd(l, t)) && Added(s, s.InsertEnd(l, t), t, l, k)
    ensures s.InsertEnd(l, t).container == s.container[t := l]
  {
    k := s.lists[l].EndPlace();
    InsertEndKeeps(s, l, t);
  }

  lemma MakeCore(s: Sched)
    requires Structured(s.states, s.priorities) && ReadyOk(s.states.container, s.prio, s.top, s.priorities)
    requires EventsOk(s.events, s.states.container, s.suspended) && DelaysSorted(s.states, s.value, s.ticks)
    requires Counted(s.states, s.count, s.deleted, s.idle, s.current) && s.tick < s.ticks && InRange(s.base, s.priorities)
    ensures Core(s)
  {
  }

  /** Link `t` at the end of list `l`. */
  lemma LinkEnd(s: Sched, t: Task, l: ListId) returns (r: Sched)
    requires Loose(s, t) && t in s.prio && s.prio[t] < s.priorities
    requires l == SuspendedL || l == TerminationL || l == ReadyL(s.prio[t])
    requires t == s.idle ==> l.ReadyL?
    ensures r == s.(states := s.states.InsertEnd(l, t), top := if l.ReadyL? && s.top < s.prio[t] then s.prio[t] else s.top,
                    deleted := if l == TerminationL then s.deleted + 1 else s.deleted)
    ensures Core(r) && r.states.container == s.states.container[t := l]
  {
    LooseLists(s, t);
    hide *;
    r := s.(states := s.states.InsertEnd(l, t), top := if l.ReadyL? && s.top < s.prio[t] then s.prio[t] else s.top,
            deleted := if l == TerminationL then s.deleted + 1 else s.deleted);
    var k := InsertEndAdds(s.states, l, t);
    AddedParts(s.states, r.states, t, l, k, s.prio, s.top, r.top, s.priorities, s.events, s.suspended);
    AddedElsewhere(s.states, r.states, t, l, k, s.value, s.ticks, s.priorities);
    AddedCounted(s.states, r.states, t, l, k, s.count, s.deleted, s.idle, s.current);
    MakeCore(r);
  }

  /** Forget a task whose state item is in no list. */
  lemma DropKeeps(s: Sched, t: Task)
    requires Loose(s, t) && t != s.idle && t != s.current
    ensures s.count > 0 && Core(s.(count := s.count - 1))
  {
    assert s.count > 0;
    hide Structured, ReadyOk, EventsOk, DelaysSorted;
  }

  lemma AddedDelay(s: States, s': States, t: Task, b: bool, k: nat, value: map<Task, nat>, w: nat, ticks: nat, priorities: nat)
    requires Structured(s, priorities) && Added(s, s', t, DelayedL(b), k)
    requires DelaysSorted(s, value, ticks) && w < ticks
    requires k == InsertPlace(ValuesOf(s.Items(DelayedL(b)), value), w)
    ensures DelaysSorted(s', value[t := w], ticks)
  {
    NotListed(s, t, b, priorities);
    hide Structured, Valid, ByValue, InsertPlace, With, ValuesOf, Store.Items;
    WithByValue(s.Items(DelayedL(b)), t, value, w);
    SameByValue(s.Items(DelayedL(!b)), t, value, w);
    AddedItems(s, s', t, b, k);
  }

  lemma NotListed(s: States, t: Task, b: bool, priorities: nat)
    requires Structured(s, priorities) && t !in s.container
    ensures t !in s.Items(DelayedL(b)) && t !in s.Items(DelayedL(!b))
    ensures DelayedL(b) in s.lists && DelayedL(!b) in s.lists
  {
  }

  lemma AddedItems(s: States, s': States, t: Task, b: bool, k: nat)
    requires Added(s, s', t, DelayedL(b), k) && DelayedL(!b) in s.lists
    ensures k <= |s.Items(DelayedL(b))| && s'.Items(DelayedL(b)) == With(s.Items(DelayedL(b)), k, t)
    ensures s'.Items(DelayedL(!b)) == s.Items(DelayedL(!b))
  {
  }

  /** Link `t` into a delayed list at the place of its wake value. */
  lemma LinkDelayed(s: Sched, t: Task, b: bool, w: nat) returns (r: Sched)
    requires Loose(s, t) && t in s.prio && s.prio[t] < s.priorities && t != s.idle && w < s.ticks
    ensures r == s.(value := s.value[t := w], states := s.states.InsertAt(
                      DelayedL(b), InsertPlace(ValuesOf(s.states.Items(DelayedL(b)), s.value), w), t))
    ensures Core(r) && r.states.container == s.states.container[t := DelayedL(b)]
  {
    LooseLists(s, t);
    hide *;
    var k := InsertPlace(ValuesOf(s.states.Items(DelayedL(b)), s.value), w);
    r := s.(value := s.value[t := w], states := s.states.InsertAt(DelayedL(b), k, t));
    InsertAtAdds(s.states, DelayedL(b), k, t);
    AddedDelay(s.states, r.states, t, b, k, s.value, w, s.ticks, s.priorities);
    AddedParts(s.states, r.states, t, DelayedL(b), k, s.prio, s.top, s.top, s.priorities, s.events, s.suspended);
    AddedCounted(s.states, r.states, t, DelayedL(b), k, s.count, s.deleted, s.idle, s.current);
    MakeCore(r);
  }

  lemma InsertAtAdds(s: States, l: ListId, k: nat, t: Task)
    requires Valid(s) && l in s.lists && t !in s.container && k <= |s.Items(l)|
    ensures Valid(s.InsertAt(l, k, t)) && Added(s, s.InsertAt(l, k, t), t, l, k)
    ensures s.InsertAt(l, k, t).container == s.container[t := l]
  {
    InsertAtKeeps(s, l, k, t);
  }

  /** File `t` in its ready list, wherever it was. */
  lemma MoveToReadyKeeps(s: Sched, t: Task)
    requires Core(s) && t in s.states.container && t !in s.events.container && !s.states.In(t, TerminationL)
    ensures Core(s.MoveToReady(t)) && t in s.prio
    ensures s.MoveToReady(t).states.container == s.states.container[t := ReadyL(s.prio[t])]
  {
    hide Structured, ReadyOk, EventsOk, DelaysSorted, Counted, Valid;
    var r := Unlink(s, t);
    var r' := LinkEnd(r, t, ReadyL(s.prio[t]));
    assert s.MoveToReady(t) == r';
  }

  // ----- moving one event item -----

  /** Take the event item of `t` out of the list it is in, if any. */
  lemma LeaveEvents(s: Sched, t: Task)
    requires Core(s)
    ensures Core(s.(events := s.events.Remove(t))) && t !in s.events.Remove(t).container
    ensures forall x :: x in s.events.Remove(t).container <==> x in s.events.container && x != t
  {
    hide Structured, ReadyOk, DelaysSorted, Counted;
    if t in s.events.container { RemoveKeeps(s.events, t); }
  }

  /** Link the event item of the blocked task `t` into list `l`. */
  lemma EnterEvents(s: Sched, t: Task, l: EventId, k: nat)
    requires Core(s) && t !in s.events.container && t in s.states.container
    requires s.states.container[t].DelayedL? || s.states.container[t] == SuspendedL
    requires l in s.events.lists && k <= |s.events.Items(l)| && (l == PendingL ==> s.suspended > 0)
    ensures Core(s.(events := s.events.InsertAt(l, k, t)))
    ensures s.events.InsertAt(l, k, t).container == s.events.container[t := l]
  {
    hide Structured, ReadyOk, DelaysSorted, Counted;
    InsertAtKeeps(s.events, l, k, t);
  }

  // ----- the steps -----

  /** What the core invariant says about one task. */
  lemma TaskFacts(s: Sched, t: Task)
    requires Core(s)
    ensures t in s.states.container ==> t in s.prio && s.Prio(t) < s.priorities
    ensures s.IsReady(t) ==> s.states.In(t, ReadyL(s.Prio(t))) && s.Prio(t) <= s.top
    ensures t in s.events.container ==> s.states.In(t, SuspendedL) || s.states.In(t, DelayedL(true)) || s.states.In(t, DelayedL(false))
    ensures t in s.events.container && s.suspended == 0 ==> !s.events.In(t, PendingL)
    ensures s.IsReady(s.idle) && s.current in s.states.container && 0 < s.priorities
  {
    hide Structured, DelaysSorted;
  }

  /** A task is in a list exactly when its container link says so. */
  lemma ListFacts(s: Sched)
    requires Core(s)
    ensures forall l, t :: t in s.states.Items(l) <==> s.states.In(t, l)
    ensures forall l, t :: t in s.events.Items(l) <==> s.events.In(t, l)
    ensures PendingL in s.events.lists && forall l :: l in s.events.lists ==> s.events.lists[l].Valid()
  {
    hide ReadyOk, DelaysSorted, Counted;
    forall l, t ensures t in s.states.Items(l) <==> s.states.In(t, l) {
      if s.states.In(t, l) { assert s.states.Linked(t); }
    }
    forall l, t ensures t in s.events.Items(l) <==> s.events.In(t, l) {
      if s.events.In(t, l) { assert s.events.Linked(t); }
    }
  }

  ghost predicate Ahead(s: Sched) {
    DelaysAhead(s.states.container, s.delayed, s.value, s.tick, s.next, s.ticks)
  }

  lemma InvCore(s: Sched)
    requires Inv(s)
    ensures Core(s) && Ahead(s)
  {
    hide Core;
  }

  lemma ResetNextFields(s: Sched)
    ensures s.ResetNext() == s.(next := s.ResetNext().next)
  {
  }

  /** `prvResetNextTaskUnblockTime` names the earliest wake value of the current delayed list. */
  lemma ResetNextKeeps(s: Sched)
    requires Core(s)
    requires forall t :: s.states.In(t, DelayedL(s.delayed)) ==> s.tick <= At(s.value, t) && s.tick + 1 < s.ticks
    ensures Core(s.ResetNext()) && Ahead(s.ResetNext())
  {
    var ts := s.Delayed();
    EarliestNext(s, ts);
    hide Structured, ReadyOk, EventsOk, Counted, DelaysSorted;
  }

  /** The head of the current delayed list has the earliest wake value. */
  lemma EarliestNext(s: Sched, ts: seq<Task>)
    requires Core(s) && ts == s.Delayed()
    ensures forall t :: s.states.In(t, DelayedL(s.delayed)) ==> ts != [] && At(s.value, ts[0]) <= At(s.value, t)
    ensures ts != [] ==> At(s.value, ts[0]) < s.ticks
  {
    hide ReadyOk, EventsOk, Counted;
    forall t | s.states.In(t, DelayedL(s.delayed)) ensures ts != [] && At(s.value, ts[0]) <= At(s.value, t) {
      assert s.states.Linked(t) && t in ts;
      var i := IndexOf(ts, t);
    }
    if ts != [] { assert ts[0] in ts && s.states.In(ts[0], DelayedL(s.delayed)); }
  }

  lemma FreshLoose(s: Sched, t: Task, q: nat)
    requires Core(s) && t !in s.states.container && q < s.priorities
    ensures Loose(s.(prio := s.prio[t := q], base := s.base[t := q], count := s.count + 1), t)
  {
    hide Valid, DelaysSorted;
  }

  lemma CreateKeeps(s: Sched, t: Task, p: nat)
    requires Inv(s) && t !in s.states.container
    ensures Inv(s.Create(t, p))
  {
    hide Structured, ReadyOk, EventsOk, DelaysSorted, CountedBut, Counted;
    var q := Clamp(p, s.priorities);
    TaskFacts(s, s.current);
    FreshLoose(s, t, q);
    var r := s.(prio := s.prio[t := q], base := s.base[t := q], held := s.held[t := 0],
                eventValue := s.eventValue[t := EventValue(q, s.priorities)], count := s.count + 1);
    var r' := LinkEnd(r, t, ReadyL(q));
    assert s.Create(t, p) == r';
  }

  lemma DeleteKeeps(s: Sched, t: Task)
    requires Inv(s) && t in s.states.container && !s.states.In(t, TerminationL) && t != s.idle
    ensures Inv(s.Delete(t))
  {
    hide Structured, ReadyOk, EventsOk, DelaysSorted, CountedBut, Counted;
    LeaveEvents(s, t);
    var r := Unlink(s.(events := s.events.Remove(t)), t);
    if t == s.current {
      var r' := LinkEnd(r, t, TerminationL);
      assert s.Delete(t) == r';
    } else {
      DropKeeps(r, t);
      ResetNextKeeps(r.(count := r.count - 1));
      assert s.Delete(t) == r.(count := r.count - 1).ResetNext();
    }
  }

  lemma ReapKeeps(s: Sched)
    requires Inv(s) && !s.states.In(s.current, TerminationL)
    ensures Inv(s.Reap())
  {
    hide Structured, ReadyOk, EventsOk, DelaysSorted, CountedBut, Counted;
    if s.deleted != 0 && s.states.Items(TerminationL) != [] {
      var t := s.states.Items(TerminationL)[0];
      ListFacts(s);
      assert t in s.states.Items(TerminationL);
      TaskFacts(s, t);
      var r := Unlink(s, t);
      DropKeeps(r, t);
      assert s.Reap() == r.(count := r.count - 1);
    }
  }

  lemma SuspendKeeps(s: Sched, t: Task)
    requires Inv(s) && t in s.states.container && !s.states.In(t, TerminationL) && t != s.idle
    ensures Inv(s.Suspend(t))
  {
    hide Structured, ReadyOk, EventsOk, DelaysSorted, CountedBut, Counted;
    LeaveEvents(s, t);
    var r := Unlink(s.(events := s.events.Remove(t)), t);
    var r' := LinkEnd(r, t, SuspendedL);
    ResetNextKeeps(r');
    assert s.Suspend(t) == r'.ResetNext();
  }

  lemma ResumeKeeps(s: Sched, t: Task)
    requires Inv(s)
    ensures Inv(s.Resume(t))
  {
    hide Structured, ReadyOk, EventsOk, DelaysSorted, CountedBut, Counted;
    if s.IsTaskSuspended(t) { MoveToReadyKeeps(s, t); }
  }

  lemma ResumeFromISRKeeps(s: Sched, t: Task)
    requires Inv(s)
    ensures Inv(s.ResumeFromISR(t))
  {
    hide Structured, ReadyOk, EventsOk, DelaysSorted, CountedBut, Counted;
    if s.IsTaskSuspended(t) {
      MoveToReadyKeeps(s, t);
      ListFacts(s);
      if s.suspended > 0 { EnterEvents(s, t, PendingL, s.events.lists[PendingL].EndPlace()); }
    }
  }

  lemma ReprioritiseKeeps(s: Sched, t: Task, q: nat)
    requires Inv(s) && q < s.priorities && t in s.states.container
    ensures Inv(s.Reprioritise(t, q))
  {
    hide Structured, ReadyOk, EventsOk, DelaysSorted, Counted, CountedBut;
    TaskFacts(s, t);
    if s.IsReady(t) {
      var r := Unlink(s, t);
      LoosePrio(r, t, q);
      var r' := LinkEnd(r.(prio := r.prio[t := q]), t, ReadyL(q));
      assert s.Reprioritise(t, q) == r';
    } else {
      UnreadyPrio(s, t, q);
    }
  }

  lemma UnreadyPrio(s: Sched, t: Task, q: nat)
    requires Core(s) && !s.IsReady(t) && q < s.priorities
    ensures Core(s.(prio := s.prio[t := q]))
  {
    hide Structured, EventsOk, DelaysSorted, Counted;
  }

  lemma LoosePrio(s: Sched, t: Task, q: nat)
    requires Loose(s, t)
    ensures Loose(s.(prio := s.prio[t := q]), t)
  {
    hide Structured, EventsOk, DelaysSorted, CountedBut;
  }

  lemma PrioritySetKeeps(s: Sched, t: Task, p: nat)
    requires Inv(s) && t in s.states.container
    ensures Inv(s.PrioritySet(t, p))
  {
    hide Structured, ReadyOk, EventsOk, DelaysSorted, Counted;
    TaskFacts(s, t);
    var q := Clamp(p, s.priorities);
    if At(s.base, t) != q {
      var r := s.(base := s.base[t := q]).SetEventValue(t, q);
      ReprioritiseKeeps(r, t, if At(s.base, t) == s.Prio(t) then q else s.Prio(t));
    }
  }

  lemma InheritKeeps(s: Sched, t: Task)
    requires Inv(s) && t in s.states.container
    ensures Inv(s.Inherit(t))
  {
    hide Structured, ReadyOk, EventsOk, DelaysSorted, Counted;
    TaskFacts(s, s.current);
    ReprioritiseKeeps(s.SetEventValue(t, s.Prio(s.current)), t, s.Prio(s.current));
  }

  lemma DisinheritKeeps(s: Sched, t: Task)
    requires Inv(s) && t in s.states.container
    ensures Inv(s.Disinherit(t))
  {
    TaskFacts(s, t);
    hide Structured, ReadyOk, EventsOk, DelaysSorted, Counted;
    var r := s.(held := s.held[t := if At(s.held, t) > 0 then At(s.held, t) - 1 else 0]);
    if s.Prio(t) != At(s.base, t) && At(r.held, t) == 0 {
      ReprioritiseKeeps(r.(eventValue := s.eventValue[t := EventValue(At(s.base, t), s.priorities)]), t, At(s.base, t));
    }
  }

  /** The invariant does not look at event item values and mutex counts. */
  lemma AsideInv(s: Sched, v: Sched)
    requires Inv(s) && v == s.(held := v.held, eventValue := v.eventValue)
    ensures Inv(v)
  {
    hide Structured, ReadyOk, EventsOk, DelaysSorted, Counted, DelaysAhead;
  }

  // ----- blocking -----

  /** The source blocks only the running task, never the idle task, and never for no time at the last tick. */
  ghost predicate MayBlock(s: Sched, wait: nat) {
    && s.IsReady(s.current) && s.current != s.idle && s.current !in s.events.container
    && wait < s.ticks && (wait > 0 || s.tick + 1 < s.ticks)
  }

  ghost predicate Blocked(c: map<Task, ListId>, t: Task) {
    t in c && (c[t].DelayedL? || c[t] == SuspendedL)
  }

  lemma SleepCurrentKeeps(s: Sched, wait: nat)
    requires Inv(s) && MayBlock(s, wait)
    ensures Core(s.SleepCurrent(wait))
    ensures s.SleepCurrent(wait).states.container ==
      s.states.container[s.current := DelayedL(if s.tick + wait < s.ticks then s.delayed else !s.delayed)]
  {
    hide Structured, ReadyOk, EventsOk, DelaysSorted, Counted, CountedBut, InsertPlace, ValuesOf, Wrap, Ahead, DelaysAhead;
    var t, wake := s.current, Wrap(s.tick + wait, s.ticks);
    TaskFacts(s, t);
    var r := Unlink(s, t);
    WakeValue(s.tick, wait, s.ticks);
    var r' := LinkDelayed(r, t, if wake < s.tick then !s.delayed else s.delayed, wake);
    assert s.SleepCurrent(wait) == r'.(next := if s.tick <= wake < s.next then wake else s.next);
  }

  lemma SleepCurrentAhead(s: Sched, wait: nat)
    requires Ahead(s) && wait < s.ticks && (wait > 0 || s.tick + 1 < s.ticks) && s.tick < s.ticks
    requires s.SleepCurrent(wait).states.container ==
      s.states.container[s.current := DelayedL(if s.tick + wait < s.ticks then s.delayed else !s.delayed)]
    ensures Ahead(s.SleepCurrent(wait))
  {
    hide InsertPlace, ValuesOf, Wrap;
    WakeValue(s.tick, wait, s.ticks);
  }

  lemma DelayCurrentKeeps(s: Sched, wait: nat, canBlock: bool)
    requires Inv(s) && MayBlock(s, wait)
    ensures Inv(s.DelayCurrent(wait, canBlock)) && Blocked(s.DelayCurrent(wait, canBlock).states.container, s.current)
  {
    hide Structured, ReadyOk, EventsOk, DelaysSorted, Counted, CountedBut, InsertPlace, ValuesOf, Wrap;
    if wait == s.MaxDelay() && canBlock {
      TaskFacts(s, s.current);
      var r := Unlink(s, s.current);
      var r' := LinkEnd(r, s.current, SuspendedL);
    } else {
      SleepCurrentKeeps(s, wait);
      SleepCurrentAhead(s, wait);
    }
  }

  /** The wrapped wake value, and what its comparison with the tick count tells. */
  lemma WakeValue(tick: nat, wait: nat, ticks: Modulus)
    requires tick < ticks && wait < ticks
    ensures Wrap(tick + wait, ticks) == if tick + wait < ticks then tick + wait else tick + wait - ticks
    ensures Wrap(tick + wait, ticks) < tick <==> tick + wait >= ticks
  {
    WrapSmall(tick, ticks);
    WrapAdd(tick, wait, ticks);
  }

  /** Blocking the running task does not look at the event lists. */
  lemma SleepIgnoresEvents(s: Sched, e: Events, v: map<Task, nat>, wait: nat)
    ensures s.(events := e, eventValue := v).SleepCurrent(wait) == s.SleepCurrent(wait).(events := e, eventValue := v)
  {
    hide InsertPlace, ValuesOf, Wrap;
    hide Store.Remove, Store.InsertAt, Store.InsertEnd, Store.Items;
  }

  lemma DelayIgnoresEvents(s: Sched, e: Events, v: map<Task, nat>, wait: nat, canBlock: bool)
    ensures s.(events := e, eventValue := v).DelayCurrent(wait, canBlock) ==
            s.DelayCurrent(wait, canBlock).(events := e, eventValue := v)
    ensures s.DelayCurrent(wait, canBlock).events == s.events && s.DelayCurrent(wait, canBlock).eventValue == s.eventValue
  {
    SleepIgnoresEvents(s, e, v, wait);
    SleepIgnoresEvents(s, s.events, s.eventValue, wait);
    assert s.(events := s.events, eventValue := s.eventValue) == s;
    hide Sched.SleepCurrent, Store.Remove, Store.InsertEnd;
  }

  lemma PlaceOnEventListKeeps(s: Sched, e: nat, wait: nat)
    requires Inv(s) && MayBlock(s, wait) && EventL(e) in s.events.lists
    ensures Inv(s.PlaceOnEventList(e, wait))
  {
    hide Structured, ReadyOk, EventsOk, DelaysSorted, Counted;
    hide Sched.DelayCurrent;
    var k := InsertPlace(ValuesOf(s.events.Items(EventL(e)), s.eventValue), At(s.eventValue, s.current));
    DelayCurrentKeeps(s, wait, true);
    DelayIgnoresEvents(s, s.events.InsertAt(EventL(e), k, s.current), s.eventValue, wait, true);
    EnterEvents(s.DelayCurrent(wait, true), s.current, EventL(e), k);
  }

  lemma EnterAtEnd(s: Sched, t: Task, e: nat)
    requires Core(s) && t !in s.events.container && Blocked(s.states.container, t) && EventL(e) in s.events.lists
    ensures Core(s.(events := s.events.InsertEnd(EventL(e), t)))
  {
    hide Structured, ReadyOk, EventsOk, DelaysSorted, Counted;
    ListFacts(s);
    EnterEvents(s, t, EventL(e), s.events.lists[EventL(e)].EndPlace());
  }

  lemma PlaceOnUnorderedEventListKeeps(s: Sched, e: nat, v: nat, wait: nat)
    requires Inv(s) && MayBlock(s, wait) && EventL(e) in s.events.lists
    ensures Inv(s.PlaceOnUnorderedEventList(e, v, wait))
  {
    hide Structured, ReadyOk, EventsOk, DelaysSorted, Counted;
    hide Sched.DelayCurrent;
    DelayCurrentKeeps(s, wait, true);
    DelayIgnoresEvents(s, s.events.InsertEnd(EventL(e), s.current), s.eventValue[s.current := v], wait, true);
    EnterAtEnd(s.DelayCurrent(wait, true), s.current, e);
  }

  lemma PlaceOnEventListRestrictedKeeps(s: Sched, e: nat, wait: nat, forever: bool)
    requires Inv(s) && MayBlock(s, wait) && EventL(e) in s.events.lists
    ensures Inv(s.PlaceOnEventListRestricted(e, wait, forever))
  {
    hide Structured, ReadyOk, EventsOk, DelaysSorted, Counted;
    hide Sched.DelayCurrent;
    var w := if forever then s.MaxDelay() else wait;
    DelayCurrentKeeps(s, w, forever);
    DelayIgnoresEvents(s, s.events.InsertEnd(EventL(e), s.current), s.eventValue, w, forever);
    EnterAtEnd(s.DelayCurrent(w, forever), s.current, e);
  }

  /** Take a waiting task out of its event list and make it ready. */
  lemma WakeWaiterKeeps(s: Sched, t: Task)
    requires Core(s) && t in s.events.container
    ensures Core(s.(events := s.events.Remove(t)).MoveToReady(t)) && t in s.states.container && t in s.prio
    ensures s.MoveToReady(t).states.container == s.states.container[t := ReadyL(s.prio[t])]
  {
    hide Structured, ReadyOk, EventsOk, DelaysSorted, Counted;
    TaskFacts(s, t);
    LeaveEvents(s, t);
    MoveToReadyKeeps(s.(events := s.events.Remove(t)), t);
  }

  lemma RemoveFromEventListKeeps(s: Sched, e: nat)
    requires Inv(s)
    ensures Inv(s.RemoveFromEventList(e))
  {
    hide Structured, ReadyOk, EventsOk, DelaysSorted, Counted;
    if s.events.Items(EventL(e)) != [] {
      var t := s.events.Items(EventL(e))[0];
      ListFacts(s);
      assert t in s.events.Items(EventL(e));
      WakeWaiterKeeps(s, t);
      if s.suspended > 0 {
        TaskFacts(s, t);
        LeaveEvents(s, t);
        var r := s.(events := s.events.Remove(t));
        ListFacts(r);
        EnterEvents(r, t, PendingL, r.events.lists[PendingL].EndPlace());
      }
    }
  }

  lemma RemoveFromUnorderedEventListKeeps(s: Sched, t: Task, v: nat)
    requires Inv(s) && t in s.events.container
    ensures Inv(s.RemoveFromUnorderedEventList(t, v))
  {
    hide Structured, ReadyOk, EventsOk, DelaysSorted, Counted;
    WakeWaiterKeeps(s, t);
  }

  // ----- choosing the task to run -----

  lemma NextStructured(s: States, p: nat, priorities: nat)
    requires Structured(s, priorities) && s.Items(ReadyL(p)) != []
    ensures Structured(s.Next(ReadyL(p)), priorities) && s.Next(ReadyL(p)).container == s.container
    ensures forall l :: s.Next(ReadyL(p)).Items(l) == s.Items(l)
  {
  }

  /** The running task's list is the highest non-empty one, and the search never runs below priority 0. */
  lemma HighestReadyIsHighest(s: Sched)
    requires Core(s)
    ensures s.states.Items(ReadyL(s.HighestReady(s.top))) != [] && s.HighestReady(s.top) < s.priorities
    ensures forall t :: s.IsReady(t) ==> s.Prio(t) <= s.HighestReady(s.top)
  {
    hide Structured, DelaysSorted, EventsOk, Counted;
    ListFacts(s);
    TaskFacts(s, s.idle);
    forall t | s.IsReady(t) ensures s.Prio(t) <= s.HighestReady(s.top) {
      TaskFacts(s, t);
      assert t in s.states.Items(ReadyL(s.Prio(t)));
    }
    assert s.idle in s.states.Items(ReadyL(s.Prio(s.idle)));
  }
}
