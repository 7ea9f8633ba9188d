/**
 * What the mutexes keep in runs where tasks hold several mutexes, time out and change priority: the
 * steps that let a ready task outrank the running one, or a waiter outrank a holder, and only those.
 */
module Inversions {
  import opened Rings
  import opened TwoLists
  import opened Mutexes

  // ----- where the waiters are -----

  /** Each list of waiters holds each task once, and only tasks that wait for that mutex. */
  ghost predicate Placed(s: System) {
    && (forall m :: m in s.mutexes ==> NoDup(s.mutexes[m].waiters))
    && (forall m, t :: m in s.mutexes && t in s.mutexes[m].waiters ==> t in s.place && s.place[t] == Waiting(m))
  }

  /** Tasks other than the waiters may move as they like. */
  lemma PlacedSame(s: System, r: System)
    requires Placed(s) && r.mutexes.Keys == s.mutexes.Keys
    requires forall m :: m in s.mutexes ==> r.mutexes[m].waiters == s.mutexes[m].waiters
    requires forall t :: t in s.place && s.place[t].Waiting? ==> t in r.place && r.place[t] == s.place[t]
    ensures Placed(r)
  {
  }

  lemma PlacedTake(s: System, m: Id)
    requires Placed(s) && m in s.mutexes && s.IsReady(s.current)
    ensures Placed(s.Take(m))
  {
    var r := s.Take(m);
    assert forall n :: n in s.mutexes ==> r.mutexes[n].waiters == s.mutexes[n].waiters;
    assert forall t :: t != s.current && t in s.place ==> t in r.place && r.place[t] == s.place[t];
    hide System.Take, NoDup;
    PlacedSame(s, r);
  }

  lemma PlacedDecide(s: System, m: Id)
    requires Placed(s) && m in s.mutexes && s.IsReady(s.current)
    ensures Placed(s.Decide(m))
  {
    hide PriorityPlace, With, System.Inherit;
    var r, ws, c := s.Decide(m), s.mutexes[m].waiters, s.current;
    if s.mutexes[m].holder.HeldBy? {
      var k := PriorityPlace(ws, r.rank, At(r.rank, c));
      assert r.mutexes == s.mutexes[m := s.mutexes[m].(waiters := With(ws, k, c))] && r.place == s.place[c := Waiting(m)];
      WithNoDup(ws, k, c);
      WithMembers(ws, k, c);
      PlacedJoin(s, r, m);
    } else {
      PlacedSame(s, r);
    }
  }

  lemma PlacedJoin(s: System, r: System, m: Id)
    requires Placed(s) && m in s.mutexes && m in r.mutexes && r.mutexes == s.mutexes[m := r.mutexes[m]]
    requires s.IsReady(s.current) && r.place == s.place[s.current := Waiting(m)]
    requires NoDup(r.mutexes[m].waiters) && forall t :: t in r.mutexes[m].waiters ==> t == s.current || t in s.mutexes[m].waiters
    ensures Placed(r)
  {
    hide NoDup;
  }

  /** `w` leaves the list of `m` and looks at the mutex again. */
  lemma PlacedLeave(s: System, r: System, m: Id, w: Task)
    requires Placed(s) && m in s.mutexes && m in r.mutexes && r.mutexes == s.mutexes[m := r.mutexes[m]]
    requires w in s.place && s.place[w] == Waiting(m) && r.place == s.place[w := Trying(m)]
    requires NoDup(r.mutexes[m].waiters) && forall t :: t in r.mutexes[m].waiters ==> t != w && t in s.mutexes[m].waiters
    ensures Placed(r)
  {
    hide NoDup;
  }

  lemma TailIs(ws: seq<Task>)
    requires NoDup(ws) && ws != []
    ensures NoDup(ws[1..]) && forall t :: t in ws[1..] ==> t != ws[0] && t in ws
  {
  }

  lemma FirstWaits(s: System, m: Id)
    requires Placed(s) && m in s.mutexes && s.mutexes[m].waiters != []
    ensures s.mutexes[m].waiters[0] in s.place && s.place[s.mutexes[m].waiters[0]] == Waiting(m)
  {
    assert s.mutexes[m].waiters[0] in s.mutexes[m].waiters;
  }

  lemma PlacedGive(s: System, m: Id)
    requires Placed(s) && m in s.mutexes
    ensures Placed(s.Give(m))
  {
    var r, ws := s.Give(m), s.mutexes[m].waiters;
    GiveSwitches(s, m);
    GiveMutexes(s, m);
    hide System.Give, NoDup;
    if ws == [] {
      PlacedSame(s, r);
    } else {
      assert NoDup(ws);
      TailIs(ws);
      FirstWaits(s, m);
      hide Placed;
      PlacedLeave(s, r, m, ws[0]);
    }
  }

  lemma GiveMutexes(s: System, m: Id)
    requires m in s.mutexes
    ensures var ws := s.mutexes[m].waiters;
      s.Give(m).mutexes == s.mutexes[m := s.mutexes[m].(holder := Nobody, waiters := if ws == [] then [] else ws[1..])]
  {
    DropIs(s);
    hide System.Disinherit, System.Drops;
  }

  lemma PlacedGiveRecursive(s: System, m: Id)
    requires Placed(s) && m in s.mutexes
    ensures Placed(s.GiveRecursive(m))
  {
    hide System.Give;
    if s.Holds(s.current, m) && s.mutexes[m].count > 0 {
      var u := s.(mutexes := s.mutexes[m := s.mutexes[m].(count := s.mutexes[m].count - 1)]);
      PlacedSame(s, u);
      hide Placed;
      PlacedGive(u, m);
    }
  }

  lemma PlacedTimeout(s: System, t: Task)
    requires Placed(s)
    ensures Placed(s.Timeout(t))
  {
    var r := s.Timeout(t);
    if t in s.place && s.place[t].Waiting? && s.place[t].m in s.mutexes && t in s.mutexes[s.place[t].m].waiters {
      var m := s.place[t].m;
      var ws := s.mutexes[m].waiters;
      var k := IndexOf(ws, t);
      WithoutMembers(ws, k);
      assert NoDup(Without(ws, k));
      hide Without;
      PlacedLeave(s, r, m, t);
    }
  }

  lemma PlacedStep(s: System, step: Step)
    requires Placed(s) && Enabled(s, step)
    ensures Placed(Apply(s, step))
  {
    hide System.Take, System.Decide, System.Give, System.GiveRecursive, System.Timeout;
    match step {
      case Take(m) => PlacedTake(s, m);
      case Decide(m) => PlacedDecide(s, m);
      case Give(m) => PlacedGive(s, m);
      case TakeRecursive(m) =>
        if s.Holds(s.current, m) { PlacedSame(s, s.TakeRecursive(m)); } else { PlacedTake(s, m); }
      case GiveRecursive(m) => PlacedGiveRecursive(s, m);
      case Timeout(t) => PlacedTimeout(s, t);
      case _ => PlacedSame(s, Apply(s, step));
    }
  }

  // ----- the running task -----

  /**
   * Giving `m` loses the yield that dropping to the base priority is due: a task waits for `m`, so
   * only its priority is looked at, and another ready task has more than the base priority.
   */
  ghost predicate DropsYield(s: System, m: Id) {
    && m in s.mutexes && s.Drops() && s.mutexes[m].waiters != []
    && s.Prio(s.mutexes[m].waiters[0]) <= At(s.base, s.current)
    && exists t :: t != s.current && s.IsReady(t) && At(s.base, s.current) < s.Prio(t)
  }

  ghost predicate LosesYield(s: System, step: Step) {
    match step
    case Give(m) => DropsYield(s, m)
    case GiveRecursive(m) => s.Holds(s.current, m) && s.mutexes[m].count == 1 && DropsYield(s, m)
    case _ => false
  }

  /** After a give the running task is still the highest, or a switch is due, unless the give drops its yield. */
  lemma GiveHighestExactly(s: System, m: Id)
    requires Highest(s) && Runs(s) && m in s.mutexes
    requires s.mutexes[m].waiters != [] ==> s.mutexes[m].waiters[0] != s.current && !s.IsReady(s.mutexes[m].waiters[0])
    ensures Highest(s.Give(m)) <==> !DropsYield(s, m)
  {
    var r, ws, c := s.Give(m), s.mutexes[m].waiters, s.current;
    GiveSwitches(s, m);
    hide System.Give, System.Drops;
    if ws == [] {
      if !s.Drops() { assert forall t :: r.IsReady(t) <==> s.IsReady(t); }
    } else {
      assert forall t :: r.IsReady(t) <==> t == ws[0] || s.IsReady(t);
      assert forall t :: t != c ==> r.Prio(t) == s.Prio(t);
    }
  }

  lemma HighestSame(s: System, r: System)
    requires Highest(s) && r.prio == s.prio && r.current == s.current && (s.switchDue ==> r.switchDue)
    requires r.switchDue || (r.IsReady(r.current) && forall t :: r.IsReady(t) ==> s.IsReady(t) || s.Prio(t) <= s.Prio(s.current))
    ensures Highest(r)
  {
  }

  lemma TimeoutHighest(s: System, t: Task)
    requires Highest(s)
    ensures Highest(s.Timeout(t))
  {
    hide Without;
    var r := s.Timeout(t);
    assert r.prio == s.prio && r.current == s.current;
    assert forall u :: u != t ==> (r.IsReady(u) <==> s.IsReady(u));
    assert r == s || r.switchDue || s.Prio(t) <= s.Prio(s.current);
    hide System.Timeout;
    HighestSame(s, r);
  }

  lemma SetPriorityHighest(s: System, t: Task, p: nat)
    requires Highest(s)
    ensures Highest(s.SetPriority(t, p))
  {
    assert forall u :: u != t ==> s.SetPriority(t, p).Prio(u) == s.Prio(u);
  }

  lemma GiveRecursiveHighest(s: System, m: Id)
    requires Highest(s) && Placed(s) && Runs(s) && m in s.mutexes
    ensures Highest(s.GiveRecursive(m)) <==> !LosesYield(s, GiveRecursive(m))
  {
    hide System.Give;
    if s.Holds(s.current, m) && s.mutexes[m].count > 0 {
      var u := s.(mutexes := s.mutexes[m := s.mutexes[m].(count := s.mutexes[m].count - 1)]);
      if s.mutexes[m].waiters != [] { FirstWaits(s, m); }
      HighestSame(s, u);
      if s.mutexes[m].count == 1 {
        GiveHighestExactly(u, m);
        assert DropsYield(u, m) <==> DropsYield(s, m) by { DropsYieldSame(s, u, m); }
      }
    }
  }

  lemma DropsYieldSame(s: System, u: System, m: Id)
    requires m in s.mutexes && m in u.mutexes && u == s.(mutexes := u.mutexes) && u.mutexes[m].waiters == s.mutexes[m].waiters
    ensures DropsYield(u, m) <==> DropsYield(s, m)
  {
    assert forall t :: u.IsReady(t) <==> s.IsReady(t);
  }

  /** One step keeps the running task the highest, unless a switch is due, exactly when it loses no yield. */
  lemma HighestStep(s: System, step: Step)
    requires Highest(s) && Placed(s) && Enabled(s, step)
    ensures Highest(Apply(s, step)) <==> !LosesYield(s, step)
  {
    hide System.Give, System.GiveRecursive, System.Timeout, System.SetPriority, DropsYield, With, PriorityPlace;
    match step {
      case Take(m) => HighestSame(s, s.Take(m));
      case Give(m) =>
        if s.mutexes[m].waiters != [] { FirstWaits(s, m); }
        GiveHighestExactly(s, m);
      case TakeRecursive(m) => HighestSame(s, s.TakeRecursive(m));
      case GiveRecursive(m) => GiveRecursiveHighest(s, m);
      case Timeout(t) => TimeoutHighest(s, t);
      case SetPriority(t, p) => SetPriorityHighest(s, t, p);
      case Decide(m) => DecideHighest(s, m);
      case _ => OthersHighest(s, step);
    }
  }

  lemma DecideHighest(s: System, m: Id)
    requires Highest(s) && m in s.mutexes && s.IsReady(s.current)
    ensures Highest(s.Decide(m))
  {
    hide With, PriorityPlace;
    if s.mutexes[m].holder == Nobody { HighestSame(s, s.Decide(m)); }
  }

  lemma OthersHighest(s: System, step: Step)
    requires Highest(s) && Enabled(s, step) && (step.GiveUp? || step.Sleep? || step.Wake? || step.Switch?)
    ensures Highest(Apply(s, step))
  {
    match step {
      case GiveUp => HighestSame(s, s.GiveUp());
      case Wake(t) =>
        assert forall u :: u != t ==> (s.Wake(t).IsReady(u) <==> s.IsReady(u));
        HighestSame(s, s.Wake(t));
      case Switch(t) => assert forall u :: s.Switch(t).IsReady(u) <==> s.IsReady(u);
      case _ =>
    }
  }

  ghost predicate NeverLosesYield(s: System, steps: seq<Step>)
    decreases |steps|
  {
    steps == [] || (!LosesYield(s, steps[0]) && NeverLosesYield(Apply(s, steps[0]), steps[1..]))
  }

  ghost predicate AlwaysHighest(s: System, steps: seq<Step>)
    decreases |steps|
  {
    Highest(s) && (steps == [] || AlwaysHighest(Apply(s, steps[0]), steps[1..]))
  }

  /**
   * Over any run, nested or not, with timeouts and changes of priority: the running task has the
   * highest priority of all that are ready, or a switch is due, all the way through exactly when no
   * give loses its yield.
   */
  lemma {:induction false} HighestThroughout(s: System, steps: seq<Step>)
    requires Highest(s) && Placed(s) && Legal(s, steps)
    ensures AlwaysHighest(s, steps) <==> NeverLosesYield(s, steps)
    decreases |steps|
  {
    hide Highest, Placed, Enabled, Apply, LosesYield;
    if steps != [] {
      HighestStep(s, steps[0]);
      PlacedStep(s, steps[0]);
      if !LosesYield(s, steps[0]) { HighestThroughout(Apply(s, steps[0]), steps[1..]); }
      NotHighest(s, steps);
    }
  }

  lemma NotHighest(s: System, steps: seq<Step>)
    ensures AlwaysHighest(s, steps) ==> Highest(s)
    ensures AlwaysHighest(s, steps) && steps != [] ==> Highest(Apply(s, steps[0]))
  {
    hide Highest, Apply;
    if AlwaysHighest(s, steps) && steps != [] { assert AlwaysHighest(Apply(s, steps[0]), steps[1..]); }
  }

  // ----- holders and waiters -----

  /** Every holder has at least the priority of each task in the list of its mutex. */
  ghost predicate Outrank(s: System) {
    forall m, h, w :: m in s.mutexes && s.mutexes[m].holder == HeldBy(h) && w in s.mutexes[m].waiters ==> s.Prio(w) <= s.Prio(h)
  }

  /** Taking the free mutex `m` puts the running task below a waiter. */
  ghost predicate TakesBelow(s: System, m: Id) {
    m in s.mutexes && s.mutexes[m].holder == Nobody && exists w :: w in s.mutexes[m].waiters && s.Prio(s.current) < s.Prio(w)
  }

  /** Blocking on `m` raises its holder, and the holder waits in its turn for a task below the new priority. */
  ghost predicate LiftsPast(s: System, m: Id) {
    && m in s.mutexes && s.mutexes[m].holder.HeldBy?
    && var h := s.mutexes[m].holder.t;
      && s.Prio(h) < s.Prio(s.current)
      && exists n, g :: n in s.mutexes && g != h && s.mutexes[n].holder == HeldBy(g) && h in s.mutexes[n].waiters && s.Prio(g) < s.Prio(s.current)
  }

  /** The change applies to the priority in use and moves `t` below a waiter of its own or above a holder it waits for. */
  ghost predicate SetsAcross(s: System, t: Task, p: nat) {
    && At(s.base, t) != p && At(s.base, t) == s.Prio(t)
    && exists n, g, w :: n in s.mutexes && s.mutexes[n].holder == HeldBy(g) && w in s.mutexes[n].waiters && g != w &&
                         ((t == g && p < s.Prio(w)) || (t == w && s.Prio(g) < p))
  }

  ghost predicate Inverts(s: System, step: Step) {
    match step
    case Take(m) => TakesBelow(s, m)
    case TakeRecursive(m) => TakesBelow(s, m)
    case Decide(m) => LiftsPast(s, m)
    case SetPriority(t, p) => SetsAcross(s, t, p)
    case _ => false
  }

  /** Fewer waiters, fewer holders and the same priorities. */
  lemma OutrankFewer(s: System, r: System)
    requires Outrank(s) && r.mutexes.Keys == s.mutexes.Keys && r.prio == s.prio
    requires forall m :: m in s.mutexes ==>
      (r.mutexes[m].holder == s.mutexes[m].holder || r.mutexes[m].holder == Nobody) &&
      forall w :: w in r.mutexes[m].waiters ==> w in s.mutexes[m].waiters
    ensures Outrank(r)
  {
    forall m, h, w | m in r.mutexes && r.mutexes[m].holder == HeldBy(h) && w in r.mutexes[m].waiters ensures r.Prio(w) <= r.Prio(h) {
      assert s.Prio(w) <= s.Prio(h);
    }
  }

  lemma TakeOutranks(s: System, m: Id)
    requires Outrank(s) && m in s.mutexes
    ensures Outrank(s.Take(m)) <==> !TakesBelow(s, m)
  {
    var r := s.Take(m);
    if s.mutexes[m].holder == Nobody {
      assert r.mutexes == s.mutexes[m := r.mutexes[m]] && r.mutexes[m].holder == HeldBy(s.current) && r.mutexes[m].waiters == s.mutexes[m].waiters;
      hide System.Take;
      TakenOutranks(s, r, m);
    } else {
      OutrankFewer(s, r);
    }
  }

  lemma TakenOutranks(s: System, r: System, m: Id)
    requires Outrank(s) && m in s.mutexes && s.mutexes[m].holder == Nobody && m in r.mutexes && r.prio == s.prio
    requires r.mutexes == s.mutexes[m := r.mutexes[m]] && r.mutexes[m].holder == HeldBy(s.current) && r.mutexes[m].waiters == s.mutexes[m].waiters
    ensures Outrank(r) <==> !TakesBelow(s, m)
  {
    if TakesBelow(s, m) {
      var w :| w in s.mutexes[m].waiters && s.Prio(s.current) < s.Prio(w);
      assert r.Prio(s.current) < r.Prio(w);
    } else {
      forall n, h, w | n in r.mutexes && r.mutexes[n].holder == HeldBy(h) && w in r.mutexes[n].waiters ensures r.Prio(w) <= r.Prio(h) {
        assert s.Prio(w) <= s.Prio(h);
      }
    }
  }

  lemma DecideOutranks(s: System, m: Id)
    requires Outrank(s) && Placed(s) && m in s.mutexes && s.IsReady(s.current)
    ensures Outrank(s.Decide(m)) <==> !LiftsPast(s, m)
  {
    var r := s.Decide(m);
    match s.mutexes[m].holder {
      case Nobody => OutrankFewer(s, r);
      case HeldBy(h) =>
        DecideIs(s, m, h);
        var ws, c := s.mutexes[m].waiters, s.current;
        WithMembers(ws, PriorityPlace(ws, r.rank, At(r.rank, c)), c);
        hide System.Decide, With, PriorityPlace, NoDup;
        JoinOutranks(s, r, m, h);
    }
  }

  lemma JoinOutranks(s: System, r: System, m: Id, h: Task)
    requires Outrank(s) && Placed(s) && s.IsReady(s.current) && s.mutexes.Keys == r.mutexes.Keys
    requires m in s.mutexes && s.mutexes[m].holder == HeldBy(h) == r.mutexes[m].holder
    requires forall n :: n in s.mutexes && n != m ==> r.mutexes[n] == s.mutexes[n]
    requires forall w :: w in r.mutexes[m].waiters <==> w == s.current || w in s.mutexes[m].waiters
    requires forall t :: r.Prio(t) == if t == h && s.Prio(h) < s.Prio(s.current) then s.Prio(s.current) else s.Prio(t)
    ensures Outrank(r) <==> !LiftsPast(s, m)
  {
    if LiftsPast(s, m) {
      var n, g :| n in s.mutexes && g != h && s.mutexes[n].holder == HeldBy(g) && h in s.mutexes[n].waiters && s.Prio(g) < s.Prio(s.current);
      assert r.mutexes[n].holder == HeldBy(g) && h in r.mutexes[n].waiters;
    }
  }

  lemma GiveOutranks(s: System, m: Id)
    requires Outrank(s) && Placed(s) && Counts(s) && s.Holds(s.current, m) && s.IsReady(s.current)
    ensures Outrank(s.Give(m))
  {
    var r, ws, c := s.Give(m), s.mutexes[m].waiters, s.current;
    GiveSwitches(s, m);
    HolderHolds(s, m, c);
    GiveMutexes(s, m);
    hide System.Give, Counts;
  }

  lemma SetPriorityOutranks(s: System, t: Task, p: nat)
    requires Outrank(s)
    ensures Outrank(s.SetPriority(t, p)) <==> !SetsAcross(s, t, p)
  {
    var r := s.SetPriority(t, p);
    assert r.mutexes == s.mutexes;
    assert forall u :: r.Prio(u) == if u == t && At(s.base, t) != p && At(s.base, t) == s.Prio(t) then p else s.Prio(u);
    hide System.SetPriority;
    if SetsAcross(s, t, p) { AcrossInverts(s, r, t, p); } else { NotAcross(s, r, t, p); }
  }

  lemma AcrossInverts(s: System, r: System, t: Task, p: nat)
    requires SetsAcross(s, t, p) && r.mutexes == s.mutexes && forall u :: r.Prio(u) == if u == t then p else s.Prio(u)
    ensures !Outrank(r)
  {
    var n, g, w :| n in s.mutexes && s.mutexes[n].holder == HeldBy(g) && w in s.mutexes[n].waiters && g != w &&
                   ((t == g && p < s.Prio(w)) || (t == w && s.Prio(g) < p));
    assert r.Prio(g) < r.Prio(w);
  }

  lemma NotAcross(s: System, r: System, t: Task, p: nat)
    requires Outrank(s) && !SetsAcross(s, t, p) && r.mutexes == s.mutexes
    requires forall u :: r.Prio(u) == if u == t && At(s.base, t) != p && At(s.base, t) == s.Prio(t) then p else s.Prio(u)
    ensures Outrank(r)
  {
    forall n, g, w | n in r.mutexes && r.mutexes[n].holder == HeldBy(g) && w in r.mutexes[n].waiters ensures r.Prio(w) <= r.Prio(g) {
      assert s.Prio(w) <= s.Prio(g);
    }
  }

  lemma GiveRecursiveOutranks(s: System, m: Id)
    requires Outrank(s) && Placed(s) && Counts(s) && m in s.mutexes && s.IsReady(s.current)
    ensures Outrank(s.GiveRecursive(m))
  {
    hide System.Give, Counts;
    if s.Holds(s.current, m) && s.mutexes[m].count > 0 {
      var u := s.(mutexes := s.mutexes[m := s.mutexes[m].(count := s.mutexes[m].count - 1)]);
      PlacedSame(s, u);
      OutrankFewer(s, u);
      RecountCounts(s, u, m);
      hide Placed, Outrank;
      if s.mutexes[m].count == 1 { GiveOutranks(u, m); }
    }
  }

  lemma TimeoutOutranks(s: System, t: Task)
    requires Outrank(s) && Placed(s)
    ensures Outrank(s.Timeout(t))
  {
    var r := s.Timeout(t);
    if t in s.place && s.place[t].Waiting? && s.place[t].m in s.mutexes && t in s.mutexes[s.place[t].m].waiters {
      var ws := s.mutexes[s.place[t].m].waiters;
      WithoutMembers(ws, IndexOf(ws, t));
    }
    hide Without;
    OutrankFewer(s, r);
  }

  /** One step keeps every holder above its waiters exactly when it is none of the three that invert. */
  lemma OutrankStep(s: System, step: Step)
    requires Outrank(s) && Placed(s) && Counts(s) && Enabled(s, step)
    ensures Outrank(Apply(s, step)) <==> !Inverts(s, step)
  {
    hide Counts, NoDup, System.Take, System.Decide, System.Give, System.GiveRecursive, System.Timeout, System.SetPriority;
    hide LiftsPast, SetsAcross, Placed;
    match step {
      case Take(m) => TakeOutranks(s, m);
      case Decide(m) => DecideOutranks(s, m);
      case Give(m) => GiveOutranks(s, m);
      case TakeRecursive(m) => if s.Holds(s.current, m) { OutrankFewer(s, s.TakeRecursive(m)); } else { TakeOutranks(s, m); }
      case GiveRecursive(m) => GiveRecursiveOutranks(s, m);
      case Timeout(t) => TimeoutOutranks(s, t);
      case SetPriority(t, p) => SetPriorityOutranks(s, t, p);
      case _ => OutrankFewer(s, Apply(s, step));
    }
  }

  ghost predicate NeverInverts(s: System, steps: seq<Step>)
    decreases |steps|
  {
    steps == [] || (!Inverts(s, steps[0]) && NeverInverts(Apply(s, steps[0]), steps[1..]))
  }

  ghost predicate AlwaysOutrank(s: System, steps: seq<Step>)
    decreases |steps|
  {
    Outrank(s) && (steps == [] || AlwaysOutrank(Apply(s, steps[0]), steps[1..]))
  }

  /**
   * Over any run: every holder has at least the priority of each task that waits for its mutex, all
   * the way through, exactly when no step takes a mutex below a waiter, lifts a holder past another
   * holder that it waits for, or sets a priority across one.
   */
  lemma {:induction false} OutrankThroughout(s: System, steps: seq<Step>)
    requires Outrank(s) && Placed(s) && Books(s) && Legal(s, steps)
    ensures AlwaysOutrank(s, steps) <==> NeverInverts(s, steps)
    decreases |steps|
  {
    hide Outrank, Placed, Counts, Recursion, Enabled, Apply, Inverts;
    if steps != [] {
      OutrankStep(s, steps[0]);
      PlacedStep(s, steps[0]);
      StepBooks(s, steps[0]);
      if !Inverts(s, steps[0]) { OutrankThroughout(Apply(s, steps[0]), steps[1..]); }
      NotOutrank(s, steps);
    }
  }

  lemma NotOutrank(s: System, steps: seq<Step>)
    ensures AlwaysOutrank(s, steps) && steps != [] ==> Outrank(Apply(s, steps[0]))
  {
    hide Outrank, Apply;
    if AlwaysOutrank(s, steps) && steps != [] { assert AlwaysOutrank(Apply(s, steps[0]), steps[1..]); }
  }
  // ----- the conditions are needed -----

  lemma OneMore(s: System, step: Step, rest: seq<Step>)
    ensures Run(s, [step] + rest) == Run(Apply(s, step), rest)
    ensures Legal(s, [step] + rest) <==> Enabled(s, step) && Legal(Apply(s, step), rest)
  {
    assert ([step] + rest)[1..] == rest;
  }

  /** Tasks 0, 1 and 2 of base priorities 1, 2 and 3, and two mutexes held by tasks 0 and 1. */
  function Three(current: Task, due: bool, prio: map<Task, nat>, place: map<Task, Place>, ws0: seq<Task>, ws1: seq<Task>): System {
    System(current, due, prio, map[0 := 1, 1 := 2, 2 := 3], prio, map[0 := 1, 1 := 1, 2 := 0], place,
           map[0 := Mutex(false, HeldBy(0), ws0, 0), 1 := Mutex(false, HeldBy(1), ws1, 0)])
  }

  /** Task 1 runs, task 0 is ready and task 2 sleeps. */
  function BothHeld(): System {
    Three(1, false, map[0 := 1, 1 := 2, 2 := 3], map[0 := Outside, 1 := Outside, 2 := Asleep], [], [])
  }

  /** Mutex 0 is held by task 0 and task 1 waits for it with a higher priority. */
  predicate Inverted(r: System) {
    0 in r.mutexes && r.mutexes[0].holder == HeldBy(0) && 1 in r.mutexes[0].waiters && r.Prio(0) < r.Prio(1)
  }

  /** Task 1 blocks on mutex 0 while it holds mutex 1. */
  lemma FirstBlock(rest: seq<Step>)
    ensures var u := Three(1, true, map[0 := 2, 1 := 2, 2 := 3], map[0 := Outside, 1 := Waiting(0), 2 := Asleep], [1], []);
      Run(BothHeld(), [Take(0)] + ([Decide(0)] + rest)) == Run(u, rest) &&
      (Legal(BothHeld(), [Take(0)] + ([Decide(0)] + rest)) <==> Legal(u, rest))
  {
    var s := BothHeld();
    var t := Three(1, false, s.prio, map[0 := Outside, 1 := Deciding(0), 2 := Asleep], [], []);
    OneMore(s, Take(0), [Decide(0)] + rest);
    OneMore(t, Decide(0), rest);
    hide Run, Legal, System.Decide;
    FirstTakes(s, t);
    FirstDecides(t);
    hide Apply, Enabled;
  }

  lemma FirstTakes(s: System, t: System)
    requires s == BothHeld() && t == Three(1, false, s.prio, map[0 := Outside, 1 := Deciding(0), 2 := Asleep], [], [])
    ensures Enabled(s, Take(0)) && Apply(s, Take(0)) == t && Enabled(t, Decide(0)) && Apply(t, Decide(0)) == t.Decide(0)
  {
    hide System.Decide;
  }

  lemma FirstDecides(t: System)
    requires t == Three(1, false, map[0 := 1, 1 := 2, 2 := 3], map[0 := Outside, 1 := Deciding(0), 2 := Asleep], [], [])
    ensures t.Decide(0) == Three(1, true, map[0 := 2, 1 := 2, 2 := 3], map[0 := Outside, 1 := Waiting(0), 2 := Asleep], [1], [])
  {
    var none: seq<Task> := [];
    assert With(none, 0, 1) == [1];
    assert PriorityPlace(none, t.Inherit(0).prio, 2) == 0;
    assert t.mutexes[0].holder == HeldBy(0) && t.Inherit(0).prio == map[0 := 2, 1 := 2, 2 := 3];
  }

  /** Task 2 wakes and is chosen to run. */
  lemma ThenWakes(rest: seq<Step>)
    ensures var prio := map[0 := 2, 1 := 2, 2 := 3];
      var s := Three(1, true, prio, map[0 := Outside, 1 := Waiting(0), 2 := Asleep], [1], []);
      var u := Three(2, false, prio, map[0 := Outside, 1 := Waiting(0), 2 := Outside], [1], []);
      Run(s, [Wake(2)] + ([Switch(2)] + rest)) == Run(u, rest) &&
      (Legal(s, [Wake(2)] + ([Switch(2)] + rest)) <==> Legal(u, rest))
  {
    var prio := map[0 := 2, 1 := 2, 2 := 3];
    var s := Three(1, true, prio, map[0 := Outside, 1 := Waiting(0), 2 := Asleep], [1], []);
    var t := Three(1, true, prio, map[0 := Outside, 1 := Waiting(0), 2 := Outside], [1], []);
    OneMore(s, Wake(2), [Switch(2)] + rest);
    OneMore(t, Switch(2), rest);
    hide Run, Legal;
    TaskWakes(s, t);
    TaskSwitches(t, prio);
    hide Enabled, Apply;
  }

  lemma TaskWakes(s: System, t: System)
    requires s.place == map[0 := Outside, 1 := Waiting(0), 2 := Asleep] && s.switchDue && t == s.(place := map[0 := Outside, 1 := Waiting(0), 2 := Outside])
    ensures Enabled(s, Wake(2)) && Apply(s, Wake(2)) == t
  {
  }

  lemma TaskSwitches(t: System, prio: map<Task, nat>)
    requires t == Three(1, true, prio, map[0 := Outside, 1 := Waiting(0), 2 := Outside], [1], []) && t.Prio(0) == 2 && t.Prio(2) == 3
    ensures Enabled(t, Switch(2)) && Apply(t, Switch(2)) == Three(2, false, prio, map[0 := Outside, 1 := Waiting(0), 2 := Outside], [1], [])
  {
  }

  /** Task 2 blocks on mutex 1: its priority reaches task 1 but not task 0. */
  lemma SecondBlock()
    ensures var s := Three(2, false, map[0 := 2, 1 := 2, 2 := 3], map[0 := Outside, 1 := Waiting(0), 2 := Outside], [1], []);
      Legal(s, [Take(1)] + ([Decide(1)] + [])) && Inverted(Run(s, [Take(1)] + ([Decide(1)] + [])))
  {
    var prio := map[0 := 2, 1 := 2, 2 := 3];
    var s := Three(2, false, prio, map[0 := Outside, 1 := Waiting(0), 2 := Outside], [1], []);
    var t := Three(2, false, prio, map[0 := Outside, 1 := Waiting(0), 2 := Deciding(1)], [1], []);
    OneMore(s, Take(1), [Decide(1)] + []);
    OneMore(t, Decide(1), []);
    hide Run, Legal, Inverted, System.Decide;
    SecondTakes(s, t);
    SecondDecides(t);
    hide Apply, Enabled;
  }

  lemma SecondTakes(s: System, t: System)
    requires s == Three(2, false, map[0 := 2, 1 := 2, 2 := 3], map[0 := Outside, 1 := Waiting(0), 2 := Outside], [1], [])
    requires t == Three(2, false, map[0 := 2, 1 := 2, 2 := 3], map[0 := Outside, 1 := Waiting(0), 2 := Deciding(1)], [1], [])
    ensures Enabled(s, Take(1)) && Apply(s, Take(1)) == t
  {
  }

  lemma SecondDecides(t: System)
    requires t == Three(2, false, map[0 := 2, 1 := 2, 2 := 3], map[0 := Outside, 1 := Waiting(0), 2 := Deciding(1)], [1], [])
    ensures Enabled(t, Decide(1)) && Legal(Apply(t, Decide(1)), []) && Inverted(Run(Apply(t, Decide(1)), []))
  {
    assert Apply(t, Decide(1)) == t.Decide(1);
    SecondInverts(t);
    hide Inverted, System.Decide;
  }

  lemma SecondInverts(t: System)
    requires t == Three(2, false, map[0 := 2, 1 := 2, 2 := 3], map[0 := Outside, 1 := Waiting(0), 2 := Deciding(1)], [1], [])
    ensures Inverted(t.Decide(1))
  {
    hide With, PriorityPlace;
  }

  /**
   * Reached when a task waits while it holds: the priority that task 1 inherits through mutex 1 is
   * not passed on through mutex 0, whose holder then ranks below its waiter.
   */
  lemma NestingBreaksIt()
    ensures var steps := [Take(0)] + ([Decide(0)] + ([Wake(2)] + ([Switch(2)] + ([Take(1)] + ([Decide(1)] + [])))));
      Legal(BothHeld(), steps) && Inverted(Run(BothHeld(), steps))
    ensures InvM(BothHeld())
  {
    FirstBlock([Wake(2)] + ([Switch(2)] + ([Take(1)] + ([Decide(1)] + []))));
    ThenWakes([Take(1)] + ([Decide(1)] + []));
    SecondBlock();
    BothHeldFine();
    hide Run, Legal, InvM;
  }

  lemma BothHeldFine()
    ensures InvM(BothHeld())
  {
    var s := BothHeld();
    CountTwo(s);
    NoWaiters(s);
    TwoRanks(s);
    hide Counts, AllFair, Queues, OneEach, Highest, Recursion;
  }

  lemma TwoRanks(s: System)
    requires s == BothHeld()
    ensures OneEach(s) && Highest(s) && Recursion(s)
  {
  }

  lemma NoWaiters(s: System)
    requires s == BothHeld()
    ensures AllFair(s) && Queues(s)
  {
  }

  lemma CountTwo(s: System)
    requires s == BothHeld()
    ensures Counts(s)
  {
    TwoHolders(s);
    hide HeldSet;
  }

  lemma TwoHolders(s: System)
    requires s == BothHeld()
    ensures HeldSet(s.mutexes, 0) == {0} && HeldSet(s.mutexes, 1) == {1} && forall t :: t != 0 && t != 1 ==> HeldSet(s.mutexes, t) == {}
  {
  }

  // ----- a timeout can leave a higher priority unserved -----

  /** Task 0 of priority 1 holds mutex 0; tasks 2 and 3, of priorities 3 and 1, wait for it. */
  function TwoWait(due: bool, place: map<Task, Place>, ws: seq<Task>): System {
    System(0, due, map[0 := 3, 2 := 3, 3 := 1], map[0 := 1, 2 := 3, 3 := 1], map[0 := 3, 2 := 3, 3 := 1], map[0 := 1, 2 := 0, 3 := 0], place,
           map[0 := Mutex(false, HeldBy(0), ws, 0)])
  }

  function TimeoutStart(): System { TwoWait(false, map[0 := Outside, 2 := Waiting(0), 3 := Waiting(0)], [2, 3]) }

  /** A ready task outranks the running one and no switch is due. */
  predicate Outranks(r: System, t: Task) { !r.switchDue && r.IsReady(t) && r.Prio(r.current) < r.Prio(t) }

  /**
   * Reached when a waiter times out: the holder keeps the inherited priority, and when it gives the
   * mutex to a waiter of low priority no switch is asked for, although the task that timed out is
   * ready with a higher one.
   */
  lemma TimeoutBreaksIt()
    ensures InvM(TimeoutStart())
    ensures var steps := [Timeout(2)] + ([Switch(0)] + ([Give(0)] + []));
      Legal(TimeoutStart(), steps) && Outranks(Run(TimeoutStart(), steps), 2)
  {
    TimeoutStartFine();
    TimeoutSteps();
    hide InvM, Legal, Run;
  }

  lemma TimeoutStartFine()
    ensures InvM(TimeoutStart())
  {
    var s := TimeoutStart();
    CountOne(s);
    OneFair(s);
    OneQueue(s);
    OneRanks(s);
    hide Counts, Queues, AllFair, OneEach, Highest, Recursion;
  }

  lemma OneFair(s: System)
    requires s == TimeoutStart()
    ensures AllFair(s)
  {
    assert 2 in s.mutexes[0].waiters && s.Prio(2) == s.Prio(0);
  }

  lemma OneRanks(s: System)
    requires s == TimeoutStart()
    ensures OneEach(s) && Highest(s) && Recursion(s)
  {
  }

  lemma OneQueue(s: System)
    requires s == TimeoutStart()
    ensures Queues(s)
  {
  }

  lemma CountOne(s: System)
    requires s == TimeoutStart()
    ensures Counts(s)
  {
    assert HeldSet(s.mutexes, 0) == {0};
    assert forall t :: t != 0 ==> HeldSet(s.mutexes, t) == {};
    hide HeldSet;
  }

  lemma TimeoutSteps()
    ensures var steps := [Timeout(2)] + ([Switch(0)] + ([Give(0)] + []));
      Legal(TimeoutStart(), steps) && Outranks(Run(TimeoutStart(), steps), 2)
  {
    var s := TimeoutStart();
    var t := TwoWait(true, map[0 := Outside, 2 := Trying(0), 3 := Waiting(0)], [3]);
    var u := TwoWait(false, map[0 := Outside, 2 := Trying(0), 3 := Waiting(0)], [3]);
    OneMore(s, Timeout(2), [Switch(0)] + ([Give(0)] + []));
    OneMore(t, Switch(0), [Give(0)] + []);
    OneMore(u, Give(0), []);
    FirstTimesOut(s, t);
    ThenSwitches(t, u);
    ThenGives(u);
    hide System.Timeout, System.Give, System.Switch, Outranks;
  }

  lemma ThenSwitches(t: System, u: System)
    requires t == TwoWait(true, map[0 := Outside, 2 := Trying(0), 3 := Waiting(0)], [3])
    requires u == TwoWait(false, map[0 := Outside, 2 := Trying(0), 3 := Waiting(0)], [3])
    ensures Enabled(t, Switch(0)) && Apply(t, Switch(0)) == u
  {
  }

  lemma ThenGives(u: System)
    requires u == TwoWait(false, map[0 := Outside, 2 := Trying(0), 3 := Waiting(0)], [3])
    ensures Enabled(u, Give(0)) && Outranks(Apply(u, Give(0)), 2)
  {
  }

  lemma FirstTimesOut(s: System, t: System)
    requires s == TimeoutStart() && t == TwoWait(true, map[0 := Outside, 2 := Trying(0), 3 := Waiting(0)], [3])
    ensures Apply(s, Timeout(2)) == t
  {
    var ws: seq<Task> := [2, 3];
    assert ws[0] == 2 && s.mutexes[0].waiters == ws;
    assert IndexOf(ws, 2) == 0;
    assert Without(ws, 0) == [3];
    assert s.Timeout(2).mutexes == t.mutexes && s.Timeout(2).place == t.place;
  }

  // ----- a change of priority can put a holder below a waiter -----

  /** Mutex 0 was given to task 0, of priority `p`, and task 1 of priority 2 still waits for it. */
  function Handed(p: nat, base: nat, due: bool, place: Place, holder: Holder, held: nat): System {
    System(0, due, map[0 := p, 1 := 2], map[0 := base, 1 := 2], map[0 := p, 1 := 2], map[0 := held],
           map[0 := place, 1 := Waiting(0)], map[0 := Mutex(false, holder, [1], 0)])
  }

  /** Reached by lowering a task before it takes the mutex, and by lowering it after. */
  lemma LoweringBreaksIt()
    ensures var s := Handed(3, 3, false, Trying(0), Nobody, 0);
      var before := [SetPriority(0, 1)] + ([Switch(0)] + ([Take(0)] + []));
      var after := [Take(0)] + ([SetPriority(0, 1)] + []);
      InvM(s) && Legal(s, before) && Inverted(Run(s, before)) && Legal(s, after) && Inverted(Run(s, after))
  {
    var s := Handed(3, 3, false, Trying(0), Nobody, 0);
    HandedFine(s);
    LowerFirst(s);
    LowerLast(s);
    hide InvM, Legal, Run;
  }

  lemma HandedFine(s: System)
    requires s == Handed(3, 3, false, Trying(0), Nobody, 0)
    ensures InvM(s)
  {
    assert Counts(s) by { assert forall t :: HeldSet(s.mutexes, t) == {}; }
    hide Counts;
    assert s.place[0] == Trying(0) && Below(s, s.mutexes[0].waiters, s.Prio(0));
    assert forall m :: m in s.mutexes ==> m == 0;
  }

  lemma LowerFirst(s: System)
    requires s == Handed(3, 3, false, Trying(0), Nobody, 0)
    ensures var before := [SetPriority(0, 1)] + ([Switch(0)] + ([Take(0)] + []));
      Legal(s, before) && Inverted(Run(s, before))
  {
    var t, u := Handed(1, 1, true, Trying(0), Nobody, 0), Handed(1, 1, false, Trying(0), Nobody, 0);
    OneMore(s, SetPriority(0, 1), [Switch(0)] + ([Take(0)] + []));
    OneMore(t, Switch(0), [Take(0)] + []);
    hide Run, Legal, Inverted, System.Take;
    HandedLowers(s, t);
    HandedSwitches(t, u);
    HandedTakes(u);
    hide Enabled, Apply;
  }

  lemma HandedLowers(s: System, t: System)
    requires s == Handed(3, 3, false, Trying(0), Nobody, 0) && t == Handed(1, 1, true, Trying(0), Nobody, 0)
    ensures Enabled(s, SetPriority(0, 1)) && Apply(s, SetPriority(0, 1)) == t
  {
  }

  lemma HandedSwitches(t: System, u: System)
    requires t == Handed(1, 1, true, Trying(0), Nobody, 0) && u == Handed(1, 1, false, Trying(0), Nobody, 0)
    ensures Enabled(t, Switch(0)) && Apply(t, Switch(0)) == u
  {
  }

  lemma HandedTakes(u: System)
    requires u == Handed(1, 1, false, Trying(0), Nobody, 0)
    ensures Legal(u, [Take(0)] + []) && Inverted(Run(u, [Take(0)] + []))
  {
    OneMore(u, Take(0), []);
    assert Apply(u, Take(0)) == Handed(1, 1, false, Outside, HeldBy(0), 1);
  }

  lemma LowerLast(s: System)
    requires s == Handed(3, 3, false, Trying(0), Nobody, 0)
    ensures var after := [Take(0)] + ([SetPriority(0, 1)] + []);
      Legal(s, after) && Inverted(Run(s, after))
  {
    var t := Handed(3, 3, false, Outside, HeldBy(0), 1);
    OneMore(s, Take(0), [SetPriority(0, 1)] + []);
    OneMore(t, SetPriority(0, 1), []);
    hide Run, Legal, Inverted;
    HandedHolds(s, t);
    HolderLowered(t);
    hide Enabled, Apply;
  }

  lemma HandedHolds(s: System, t: System)
    requires s == Handed(3, 3, false, Trying(0), Nobody, 0) && t == Handed(3, 3, false, Outside, HeldBy(0), 1)
    ensures Enabled(s, Take(0)) && Apply(s, Take(0)) == t
  {
  }

  lemma HolderLowered(t: System)
    requires t == Handed(3, 3, false, Outside, HeldBy(0), 1)
    ensures Enabled(t, SetPriority(0, 1)) && Legal(Apply(t, SetPriority(0, 1)), []) && Inverted(Run(Apply(t, SetPriority(0, 1)), []))
  {
    assert Apply(t, SetPriority(0, 1)) == Handed(1, 1, true, Outside, HeldBy(0), 1);
  }
}
