/** The mutex code of queue.c and tasks.c in place, on the variables of the kernel. */
module MutualExclusion {
  import opened Rings
  import opened TwoLists
  import opened Mutexes
  import opened Inversions

  /** The running task's view: the mutexes, the priorities and counts of the tasks, and where the tasks are. */
  class Mutual {
    var pxCurrentTCB: Task
    var switchDue: bool
    var uxPriority: map<Task, nat>
    var uxBasePriority: map<Task, nat>
    var rank: map<Task, nat>
    var uxMutexesHeld: map<Task, nat>
    var place: map<Task, Place>
    var mutexes: map<Id, Mutex>

    function State(): System
      reads this
    {
      System(pxCurrentTCB, switchDue, uxPriority, uxBasePriority, rank, uxMutexesHeld, place, mutexes)
    }

    /** The counts are right, and the lists hold the tasks that wait. */
    ghost predicate Valid()
      reads this
    {
      Books(State()) && Placed(State())
    }

    /** What a step keeps of the order of priorities, and when it does not. */
    ghost predicate Kept(s: System, step: Step)
      reads this
    {
      && (Highest(s) ==> (Highest(State()) <==> !LosesYield(s, step)))
      && (Outrank(s) ==> (Outrank(State()) <==> !Inverts(s, step)))
    }

    /** `xQueueGenericReceive` on a mutex: take it if it is free. */
    method Take(m: Id) returns (taken: bool)
      requires Valid() && Enabled(State(), Step.Take(m))
      modifies this`mutexes, this`uxMutexesHeld, this`place
      ensures State() == old(State()).Take(m)
      ensures Valid() && Kept(old(State()), Step.Take(m))
      ensures taken <==> old(mutexes)[m].holder == Nobody
      ensures taken <==> State().Holds(pxCurrentTCB, m) && At(uxMutexesHeld, pxCurrentTCB) == old(At(uxMutexesHeld, pxCurrentTCB)) + 1
    {
      hide Books, Placed;
      StepIs(State(), Step.Take(m));
      taken := TryTake(m);
      hide Enabled, Highest, Outrank, LosesYield, Inverts;
    }

    /** The critical section. */
    method TryTake(m: Id) returns (taken: bool)
      requires m in mutexes
      modifies this`mutexes, this`uxMutexesHeld, this`place
      ensures State() == old(State()).Take(m) && taken == (old(mutexes)[m].holder == Nobody)
    {
      taken := mutexes[m].holder == Nobody;
      if taken {
        uxMutexesHeld := uxMutexesHeld[pxCurrentTCB := At(uxMutexesHeld, pxCurrentTCB) + 1];
        mutexes := mutexes[m := mutexes[m].(holder := HeldBy(pxCurrentTCB),
                                            count := if mutexes[m].recursive then mutexes[m].count + 1 else mutexes[m].count)];
        place := place[pxCurrentTCB := Outside];
      } else {
        place := place[pxCurrentTCB := Deciding(m)];
      }
    }

    /** `vTaskPriorityInherit`. */
    method PriorityInherit(h: Task)
      requires Valid() && At(uxMutexesHeld, h) > 0
      modifies this`uxPriority, this`rank
      ensures State() == old(State()).Inherit(h)
      ensures Valid() && At(uxPriority, pxCurrentTCB) <= At(uxPriority, h)
      ensures forall t :: t != h ==> At(uxPriority, t) == old(At(uxPriority, t))
      ensures var raised := old(At(uxPriority, h) < At(uxPriority, pxCurrentTCB));
        if raised then At(uxPriority, h) == At(rank, h) == old(At(uxPriority, pxCurrentTCB)) else uxPriority == old(uxPriority) && rank == old(rank)
    {
      if At(uxPriority, h) < At(uxPriority, pxCurrentTCB) {
        uxPriority := uxPriority[h := At(uxPriority, pxCurrentTCB)];
        rank := rank[h := At(uxPriority, pxCurrentTCB)];
      }
      hide HeldSet, Placed;
      PlacedSame(old(State()), State());
    }

    /** The blocking part of `xQueueGenericReceive` on a mutex. */
    method BlockOrRetry(m: Id)
      requires Valid() && Enabled(State(), Step.Decide(m))
      modifies this`uxPriority, this`rank, this`mutexes, this`place, this`switchDue
      ensures State() == old(State()).Decide(m)
      ensures Valid() && Kept(old(State()), Step.Decide(m))
      ensures old(mutexes)[m].holder == Nobody ==> place == old(place)[pxCurrentTCB := Trying(m)]
      ensures match old(mutexes)[m].holder
        case Nobody => true
        case HeldBy(h) =>
          && m in mutexes && mutexes[m].holder == HeldBy(h) && pxCurrentTCB in mutexes[m].waiters && switchDue
          && At(uxPriority, h) == (if old(At(uxPriority, h) < At(uxPriority, pxCurrentTCB)) then old(At(uxPriority, pxCurrentTCB)) else old(At(uxPriority, h)))
          && At(uxPriority, pxCurrentTCB) <= At(uxPriority, h)
          && forall t :: t != h ==> At(uxPriority, t) == old(At(uxPriority, t))
    {
      ghost var s := State();
      hide Books, Placed, PriorityPlace, With;
      StepIs(s, Step.Decide(m));
      match mutexes[m].holder
      case Nobody =>
        place := place[pxCurrentTCB := Trying(m)];
        hide Enabled, Highest, Outrank, LosesYield, Inverts;
      case HeldBy(h) =>
        assert At(uxMutexesHeld, h) > 0 by { HolderCounts(s, m, h); }
        hide Enabled, Highest, Outrank, LosesYield, Inverts;
        PriorityInherit(h);
        QueueUp(m);
    }

    /** The running task joins the list of the mutex, behind every waiter of its priority or more. */
    method QueueUp(m: Id)
      requires m in mutexes
      modifies this`mutexes, this`place, this`switchDue
      ensures switchDue && place == old(place)[pxCurrentTCB := Waiting(m)]
      ensures var ws := old(mutexes)[m].waiters; var k := PriorityPlace(ws, rank, At(rank, pxCurrentTCB));
        mutexes == old(mutexes)[m := old(mutexes)[m].(waiters := With(ws, k, pxCurrentTCB))]
      ensures m in mutexes && pxCurrentTCB in mutexes[m].waiters
    {
      hide PriorityPlace, With;
      var k := PriorityPlace(mutexes[m].waiters, rank, At(rank, pxCurrentTCB));
      WithMembers(mutexes[m].waiters, k, pxCurrentTCB);
      mutexes := mutexes[m := mutexes[m].(waiters := With(mutexes[m].waiters, k, pxCurrentTCB))];
      place := place[pxCurrentTCB := Waiting(m)];
      switchDue := true;
    }

    /** `xTaskPriorityDisinherit`; the result asks for a switch. */
    method PriorityDisinherit() returns (dropped: bool)
      requires Valid() && At(uxMutexesHeld, pxCurrentTCB) > 0
      modifies this`uxMutexesHeld, this`uxPriority, this`rank
      ensures State() == old(State()).Disinherit() && dropped == old(State()).Drops()
      ensures At(uxMutexesHeld, pxCurrentTCB) == 0 ==> At(uxPriority, pxCurrentTCB) == At(uxBasePriority, pxCurrentTCB)
      ensures At(uxMutexesHeld, pxCurrentTCB) > 0 ==> uxPriority == old(uxPriority)
      ensures dropped <==> At(uxPriority, pxCurrentTCB) != old(At(uxPriority, pxCurrentTCB))
    {
      dropped := Disinherits();
      hide Books, Placed;
    }

    method Disinherits() returns (dropped: bool)
      modifies this`uxMutexesHeld, this`uxPriority, this`rank
      ensures State() == old(State()).Disinherit() && dropped == old(State()).Drops()
    {
      dropped := At(uxPriority, pxCurrentTCB) != At(uxBasePriority, pxCurrentTCB) && At(uxMutexesHeld, pxCurrentTCB) <= 1;
      uxMutexesHeld := uxMutexesHeld[pxCurrentTCB := if At(uxMutexesHeld, pxCurrentTCB) > 0 then At(uxMutexesHeld, pxCurrentTCB) - 1 else 0];
      if dropped {
        uxPriority := uxPriority[pxCurrentTCB := At(uxBasePriority, pxCurrentTCB)];
        rank := rank[pxCurrentTCB := At(uxBasePriority, pxCurrentTCB)];
      }
    }

    /** The critical section of `xQueueGenericSend` on a mutex. */
    method Send(m: Id)
      requires m in mutexes
      modifies this`mutexes, this`uxMutexesHeld, this`uxPriority, this`rank, this`place, this`switchDue
      ensures State() == old(State()).Give(m)
    {
      hide System.Disinherit, System.Drops;
      var dropped := Disinherits();
      mutexes := mutexes[m := mutexes[m].(holder := Nobody)];
      if mutexes[m].waiters != [] {
        var w := mutexes[m].waiters[0];
        mutexes := mutexes[m := mutexes[m].(waiters := mutexes[m].waiters[1..])];
        place := place[w := Trying(m)];
        if At(uxPriority, w) > At(uxPriority, pxCurrentTCB) { switchDue := true; }
      } else if dropped {
        switchDue := true;
      }
    }

    /** `xQueueGenericSend` on a mutex that the running task holds. */
    method Give(m: Id)
      requires Valid() && Enabled(State(), Step.Give(m))
      modifies this`mutexes, this`uxMutexesHeld, this`uxPriority, this`rank, this`place, this`switchDue
      ensures State() == old(State()).Give(m)
      ensures Valid() && Kept(old(State()), Step.Give(m))
      ensures m in mutexes && mutexes[m].holder == Nobody
      ensures At(uxMutexesHeld, pxCurrentTCB) == old(At(uxMutexesHeld, pxCurrentTCB)) - 1
      ensures At(uxMutexesHeld, pxCurrentTCB) == 0 ==> At(uxPriority, pxCurrentTCB) == At(uxBasePriority, pxCurrentTCB)
      ensures old(mutexes)[m].waiters != [] ==>
        var w := old(mutexes)[m].waiters[0]; State().IsReady(w) && w !in mutexes[m].waiters
      ensures At(uxMutexesHeld, pxCurrentTCB) > 0 ==> forall t :: At(uxPriority, t) == old(At(uxPriority, t))
      ensures switchDue <==> GiveIsDue(old(State()), m)
    {
      ghost var s := State();
      StepIs(s, Step.Give(m));
      GivenIs(s, m);
      hide Books, Placed, GiveIsDue, System.Give;
      Send(m);
      hide Enabled, Highest, Outrank, LosesYield, Inverts;
    }

    /** `xQueueTakeMutexRecursive`. */
    method TakeRecursive(m: Id) returns (taken: bool)
      requires Valid() && Enabled(State(), Step.TakeRecursive(m))
      modifies this`mutexes, this`uxMutexesHeld, this`place
      ensures State() == old(State()).TakeRecursive(m)
      ensures Valid() && Kept(old(State()), Step.TakeRecursive(m))
      ensures taken <==> Takes(old(State()), Step.TakeRecursive(m), m)
      ensures taken <==> m in mutexes && State().Holds(pxCurrentTCB, m) && mutexes[m].count == old(mutexes)[m].count + 1
    {
      ghost var s := State();
      StepIs(s, Step.TakeRecursive(m));
      hide Books, Placed;
      if mutexes[m].holder == HeldBy(pxCurrentTCB) {
        mutexes := mutexes[m := mutexes[m].(count := mutexes[m].count + 1)];
        taken := true;
      } else {
        taken := TryTake(m);
      }
      hide Highest, Outrank, LosesYield, Inverts;
    }

    /** `xQueueGiveMutexRecursive`. */
    method GiveRecursive(m: Id) returns (given: bool)
      requires Valid() && Enabled(State(), Step.GiveRecursive(m))
      modifies this`mutexes, this`uxMutexesHeld, this`uxPriority, this`rank, this`place, this`switchDue
      ensures State() == old(State()).GiveRecursive(m)
      ensures Valid() && Kept(old(State()), Step.GiveRecursive(m))
      ensures given <==> Gives(old(State()), Step.GiveRecursive(m), m)
      ensures given <==> old(State().Holds(pxCurrentTCB, m))
      ensures given ==> m in mutexes && mutexes[m].count == old(mutexes)[m].count - 1 && (mutexes[m].holder == Nobody <==> mutexes[m].count == 0)
    {
      ghost var s := State();
      StepIs(s, Step.GiveRecursive(m));
      if s.Holds(s.current, m) { GivenCount(s, m); }
      hide Books, Placed, System.GiveRecursive;
      given := CountDown(m);
      hide Enabled, Highest, Outrank, LosesYield, Inverts;
    }

    method CountDown(m: Id) returns (given: bool)
      requires m in mutexes && (State().Holds(pxCurrentTCB, m) ==> mutexes[m].count > 0)
      modifies this`mutexes, this`uxMutexesHeld, this`uxPriority, this`rank, this`place, this`switchDue
      ensures State() == old(State()).GiveRecursive(m) && given == old(State().Holds(pxCurrentTCB, m))
    {
      hide System.Give;
      given := mutexes[m].holder == HeldBy(pxCurrentTCB);
      if given {
        mutexes := mutexes[m := mutexes[m].(count := mutexes[m].count - 1)];
        if mutexes[m].count == 0 { Send(m); }
      }
    }
  }

  lemma HolderCounts(s: System, m: Id, h: Task)
    requires Books(s) && m in s.mutexes && s.mutexes[m].holder == HeldBy(h)
    ensures At(s.held, h) > 0
  {
    SomeHeld(s.mutexes, m, h);
    hide HeldSet;
  }

  lemma GivenIs(s: System, m: Id)
    requires Books(s) && Placed(s) && Enabled(s, Step.Give(m))
    ensures var r := s.Give(m);
      && r.current == s.current && m in r.mutexes && r.mutexes[m].holder == Nobody
      && At(r.held, s.current) == At(s.held, s.current) - 1
      && (At(r.held, s.current) == 0 ==> r.Prio(s.current) == At(r.base, s.current))
      && (s.mutexes[m].waiters != [] ==> var w := s.mutexes[m].waiters[0]; r.IsReady(w) && w !in r.mutexes[m].waiters)
      && (At(r.held, s.current) > 0 ==> forall t :: At(r.prio, t) == At(s.prio, t)) && (r.switchDue <==> GiveIsDue(s, m))
  {
    HolderCounts(s, m, s.current);
    NotInLine(s, m);
    GivesDue(s, m);
    GivesPriority(s, m);
    if s.mutexes[m].waiters != [] { TailIs(s.mutexes[m].waiters); }
    hide Counts, Recursion, GiveIsDue;
  }

  lemma NotInLine(s: System, m: Id)
    requires Placed(s) && m in s.mutexes && s.current in s.place && s.place[s.current] == Outside
    ensures s.current !in s.mutexes[m].waiters
  {
  }

  lemma GivesPriority(s: System, m: Id)
    requires m in s.mutexes
    ensures At(s.held, s.current) > 1 ==> forall t :: At(s.Give(m).prio, t) == At(s.prio, t)
  {
    GiveSwitches(s, m);
    forall t ensures At(s.held, s.current) > 1 ==> At(s.Give(m).prio, t) == At(s.prio, t) {
      assert At(s.held, s.current) > 1 ==> s.Give(m).Prio(t) == s.Prio(t);
    }
    hide System.Give;
  }

  lemma GivenCount(s: System, m: Id)
    requires Books(s) && Enabled(s, Step.GiveRecursive(m)) && s.Holds(s.current, m)
    ensures s.mutexes[m].count > 0
    ensures var r := s.GiveRecursive(m);
      m in r.mutexes && r.mutexes[m].count == s.mutexes[m].count - 1 && (r.mutexes[m].holder == Nobody <==> r.mutexes[m].count == 0)
  {
    hide Counts, System.Disinherit;
  }

  /** What every step keeps, in one place. */
  lemma StepIs(s: System, step: Step)
    requires Books(s) && Placed(s) && Enabled(s, step)
    ensures Books(Apply(s, step)) && Placed(Apply(s, step))
    ensures Highest(s) ==> (Highest(Apply(s, step)) <==> !LosesYield(s, step))
    ensures Outrank(s) ==> (Outrank(Apply(s, step)) <==> !Inverts(s, step))
  {
    StepBooks(s, step);
    PlacedStep(s, step);
    if Highest(s) { HighestStep(s, step); }
    if Outrank(s) { OutrankStep(s, step); }
    hide Counts, Recursion, Placed, Highest, Outrank, Apply, Enabled, LosesYield, Inverts;
  }
}
