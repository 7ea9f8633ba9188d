/** A mutex holder between inheriting a priority and giving its last mutex back. */
module SchedulerInheritance {
  import opened Rings
  import opened Stores
  import opened Clock
  import opened Timeline
  import opened TwoLists
  import opened Scheduler
  import opened SchedulerInvariant
  import opened SchedulerRuns
  import opened SchedulerEffects
  import opened SchedulerEvents

  /** The step does not set the base priority of `t`. */
  predicate KeepsBase(step: Step, t: Task) { !(step.PrioritySet? && step.t == t) && !(step.Create? && step.t == t) }

  lemma StepBase(s: Sched, step: Step, t: Task)
    requires Inv(s) && Enabled(s, step) && KeepsBase(step, t)
    ensures At(Apply(s, step).base, t) == At(s.base, t)
  {
    StepRanks(s, step);
    if RanksStay(step) { StepSame(s, step); } else if t == Subject(s, step) { SubjectBase(s, step, t); }
    hide Inv, Enabled, Apply, RanksStay, Agrees;
  }

  lemma SubjectBase(s: Sched, step: Step, t: Task)
    requires Inv(s) && Enabled(s, step) && KeepsBase(step, t) && t == Subject(s, step) && !RanksStay(step)
    ensures At(Apply(s, step).base, t) == At(s.base, t)
  {
    hide Inv, Core, MayBlock, Live, OthersRank, Sched.PlaceOnUnorderedEventList, Sched.RemoveFromUnorderedEventList, Sched.Inherit, Sched.Disinherit;
    InvCore(s);
    match step {
      case Inherit(u) => InheritIs(s, u);
      case Disinherit(u) => DisinheritBase(s, u);
      case ResetEventItemValue =>
      case PlaceOnUnorderedEventList(a, v, wait) => PlaceEvents(s, a, v, wait, false);
      case RemoveFromUnorderedEventList(u, v) => WakeCalm(s, 0, u, v, 0);
    }
  }

  lemma DisinheritBase(s: Sched, t: Task)
    ensures s.Disinherit(t).base == s.base
    ensures At(s.held, t) > 1 ==> s.Disinherit(t) == s.(held := s.held[t := At(s.held, t) - 1])
  {
    hide Sched.Reprioritise, EventValue;
    var h := s.(held := s.held[t := if At(s.held, t) > 0 then At(s.held, t) - 1 else 0]);
    RepriEvents(h.(eventValue := s.eventValue[t := EventValue(At(s.base, t), s.priorities)]), t, At(s.base, t));
  }

  ghost predicate KeepBase(steps: seq<Step>, t: Task) { forall i :: 0 <= i < |steps| ==> KeepsBase(steps[i], t) }

  lemma {:induction false} RunBase(s: Sched, steps: seq<Step>, t: Task)
    requires Inv(s) && Legal(s, steps) && KeepBase(steps, t)
    ensures Inv(Run(s, steps)) && At(Run(s, steps).base, t) == At(s.base, t)
    decreases |steps|
  {
    hide Inv, Enabled, Apply, KeepsBase;
    if steps != [] {
      StepKeeps(s, steps[0]);
      StepBase(s, steps[0], t);
      RunBase(Apply(s, steps[0]), steps[1..], t);
    }
  }

  /**
   * A task inherits a priority, and after any run in which its base priority is not set it gives a
   * mutex: it keeps its priority while it holds another, and with the last it is back at the base
   * priority it had before, wherever it was ready it still is, and so is every other task.
   */
  lemma InheritThenDisinherit(s: Sched, t: Task, steps: seq<Step>)
    requires Inv(s) && Live(s, t) && Legal(s.Inherit(t), steps) && KeepBase(steps, t)
    requires Enabled(Run(s.Inherit(t), steps), Step.Disinherit(t))
    ensures s.Inherit(t).Prio(t) == if s.Prio(t) < s.Prio(s.current) then s.Prio(s.current) else s.Prio(t)
    ensures var r := Run(s.Inherit(t), steps);
      var u := r.Disinherit(t);
      && At(u.held, t) == At(r.held, t) - 1 && (forall x :: u.IsReady(x) <==> r.IsReady(x))
      && u.Prio(t) == if At(r.held, t) > 1 then r.Prio(t) else At(s.base, t)
  {
    var r := Run(s.Inherit(t), steps);
    hide Inv, Legal, KeepBase, Sched.Inherit, Sched.Disinherit, Run;
    InheritIs(s, t);
    InheritKeeps(s, t);
    RunBase(s.Inherit(t), steps, t);
    ReadyTask(r);
    if At(r.held, t) > 1 { DisinheritBase(r, t); ReadyByStates(r, r.Disinherit(t)); } else { DropsToBase(r, t); }
    hide Sched.IsReady;
  }

  lemma ReadyTask(s: Sched)
    ensures s.IsReady(s.current) ==> s.current in s.states.container
  {
  }
}
