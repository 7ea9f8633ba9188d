/** Ticks held back while the scheduler is suspended, and tasks woken meanwhile. */
module SchedulerResume {
  import opened Rings
  import opened Stores
  import opened Clock
  import opened Timeline
  import opened TwoLists
  import opened Scheduler
  import opened SchedulerInvariant
  import opened SchedulerTicks

  /** `n` tick interrupts. */
  function TickTimes(s: Sched, n: nat): Sched
    decreases n
  {
    if n == 0 then s else TickTimes(s.Tick(), n - 1)
  }

  function SuspendTimes(s: Sched, n: nat): Sched
    decreases n
  {
    if n == 0 then s else SuspendTimes(s.SuspendAll(), n - 1)
  }

  function ResumeTimes(s: Sched, n: nat): Sched
    decreases n
  {
    if n == 0 then s else ResumeTimes(s.ResumeAll(), n - 1)
  }

  lemma TickTimesStep(s: Sched, n: nat)
    ensures TickTimes(s, n) == if n == 0 then s else TickTimes(s.Tick(), n - 1)
  {
  }

  lemma TicksStep(v: View, prio: map<Task, nat>, n: nat)
    ensures Ticks(v, prio, n) == if n == 0 then v else Ticks(TickOnce(v, prio), prio, n - 1)
  {
  }

  /** Tick interrupts taken while the scheduler runs are ticks of unbounded time. */
  lemma {:induction false} TickTimesIsTicks(s: Sched, n: nat)
    requires Inv(s) && s.suspended == 0
    ensures Inv(TickTimes(s, n)) && ViewOf(TickTimes(s, n)) == Ticks(ViewOf(s), s.prio, n)
    ensures TickTimes(s, n).suspended == 0 && TickTimes(s, n).prio == s.prio && TickTimes(s, n).pended == s.pended
    decreases n
  {
    hide *;
    TickTimesStep(s, n);
    TicksStep(ViewOf(s), s.prio, n);
    if n > 0 {
      TickIsOneTick(s);
      TickTimesIsTicks(s.Tick(), n - 1);
    }
  }

  // ----- the flags a tick does not read -----

  function WithFlags(s: Sched, y: bool, n: nat): Sched {
    s.(yieldPending := y, pended := n)
  }

  lemma {:induction false} WakeDueIgnoresFlags(s: Sched, y: bool, n: nat)
    ensures WithFlags(s, y, n).WakeDue() == WithFlags(s.WakeDue(), y, n)
    decreases |s.Delayed()|
  {
    hide Store.Remove, Store.InsertEnd;
    WakeFirstIgnoresFlags(s, y, n);
    hide Sched.WakeFirst;
    if s.Delayed() != [] && At(s.value, s.Delayed()[0]) <= s.tick && |s.WakeFirst().Delayed()| < |s.Delayed()| {
      WakeDueIgnoresFlags(s.WakeFirst(), y, n);
    }
  }

  lemma WakeFirstIgnoresFlags(s: Sched, y: bool, n: nat)
    ensures s.Delayed() != [] ==> WithFlags(s, y, n).WakeFirst() == WithFlags(s.WakeFirst(), y, n)
  {
    hide Store.Remove, Store.InsertEnd;
  }

  lemma TickIgnoresFlags(s: Sched, y: bool, n: nat)
    requires s.suspended == 0
    ensures WithFlags(s, y, n).Tick() == WithFlags(s.Tick(), y, n)
  {
    AdvanceIgnoresFlags(s, y, n);
    hide Sched.Advance, Sched.WakeDue;
    WakeDueIgnoresFlags(s.Advance(), y, n);
  }

  lemma AdvanceIgnoresFlags(s: Sched, y: bool, n: nat)
    ensures WithFlags(s, y, n).Advance() == WithFlags(s.Advance(), y, n)
  {
    hide Sched.ResetNext;
    if s.tick + 1 >= s.ticks {
      var r := s.(tick := 0, delayed := !s.delayed, overflows := s.overflows + 1);
      ResetIgnoresFlags(r, y, n);
      hide WithFlags;
      FlagsWrap(s, y, n, r);
    }
  }

  lemma FlagsWrap(s: Sched, y: bool, n: nat, r: Sched)
    requires s.tick + 1 >= s.ticks && r == s.(tick := 0, delayed := !s.delayed, overflows := s.overflows + 1)
    ensures WithFlags(s, y, n).Advance() == WithFlags(r, y, n).ResetNext() && s.Advance() == r.ResetNext()
  {
    hide Sched.ResetNext;
  }

  lemma ResetIgnoresFlags(s: Sched, y: bool, n: nat)
    ensures WithFlags(s, y, n).ResetNext() == WithFlags(s.ResetNext(), y, n)
  {
    hide Store.Items;
  }

  lemma FlagFacts(s: Sched, y: bool, n: nat, z: bool, k: nat)
    ensures WithFlags(WithFlags(s, y, n), z, k) == WithFlags(s, z, k)
    ensures Inv(WithFlags(s, y, n)) <==> Inv(s)
    ensures WithFlags(s, y, n).suspended == s.suspended
  {
    hide Structured, ReadyOk, EventsOk, DelaysSorted, Counted, DelaysAhead;
  }

  lemma {:induction false} TickTimesIgnoresFlags(s: Sched, n: nat, y: bool, k: nat)
    requires Inv(s) && s.suspended == 0
    ensures TickTimes(WithFlags(s, y, k), n) == WithFlags(TickTimes(s, n), y, k)
    decreases n
  {
    hide *;
    TickTimesStep(s, n);
    TickTimesStep(WithFlags(s, y, k), n);
    if n > 0 {
      TickIsOneTick(s);
      TickIgnoresFlags(s, y, k);
      TickTimesIgnoresFlags(s.Tick(), n - 1, y, k);
    }
  }

  lemma RunPendedStep(s: Sched, n: nat)
    ensures s.RunPended(n) == if n == 0 then s else WithFlags(s.Tick(), s.yieldPending || s.TickSwitches(), s.Tick().pended).RunPended(n - 1)
  {
    hide Sched.Tick, Sched.TickSwitches;
  }

  /** Processing pended ticks is taking that many tick interrupts, but for the yield flag. */
  lemma {:induction false} RunPendedIsTicks(s: Sched, n: nat, y: bool, k: nat)
    requires Inv(s) && s.suspended == 0
    ensures WithFlags(s.RunPended(n), y, k) == WithFlags(TickTimes(s, n), y, k)
    decreases n
  {
    hide *;
    RunPendedStep(s, n);
    TickTimesStep(s, n);
    if n > 0 {
      var t, z := s.Tick(), s.yieldPending || s.TickSwitches();
      TickIsOneTick(s);
      FlagFacts(t, z, t.pended, y, k);
      RunPendedIsTicks(WithFlags(t, z, t.pended), n - 1, y, k);
      TickTimesIgnoresFlags(t, n - 1, z, t.pended);
      FlagFacts(TickTimes(t, n - 1), z, t.pended, y, k);
    }
  }

  // ----- no tick is lost or repeated -----

  lemma {:induction false} SuspendCounts(s: Sched, d: nat)
    ensures SuspendTimes(s, d) == s.(suspended := s.suspended + d)
    decreases d
  {
    if d > 0 { SuspendCounts(s.SuspendAll(), d - 1); }
  }

  lemma {:induction false} SuspendedTicksPend(s: Sched, k: nat)
    requires s.suspended > 0
    ensures TickTimes(s, k) == s.(pended := s.pended + k)
    decreases k
  {
    hide Sched.Advance, Sched.WakeDue;
    if k > 0 { SuspendedTicksPend(s.Tick(), k - 1); }
  }

  lemma {:induction false} InnerResumes(s: Sched, d: nat)
    requires s.suspended >= d > 0
    ensures ResumeTimes(s, d) == s.(suspended := s.suspended - (d - 1)).ResumeAll()
    decreases d
  {
    hide Sched.RunPended, Sched.MovePending, Sched.ResetNext, Sched.Pending;
    if d > 1 { InnerResumes(s.ResumeAll(), d - 1); }
  }

  function Held(s: Sched, depth: nat, k: nat): Sched {
    s.(suspended := depth, pended := k)
  }

  lemma TicksAreHeld(s: Sched, depth: nat, k: nat)
    requires s.suspended == 0 && s.pended == 0 && depth > 0
    ensures TickTimes(SuspendTimes(s, depth), k) == Held(s, depth, k)
  {
    SuspendCounts(s, depth);
    SuspendedTicksPend(s.(suspended := depth), k);
  }

  lemma ResumesReachOutermost(s: Sched, depth: nat, k: nat)
    requires depth > 0
    ensures ResumeTimes(Held(s, depth, k), depth) == Held(s, 1, k).ResumeAll()
  {
    InnerResumes(Held(s, depth, k), depth);
    hide Sched.ResumeAll;
  }

  /**
   * k tick interrupts taken under any depth of scheduler suspension, followed by the matching
   * resumes, leave every variable of the scheduler (tick and overflow counts, delayed and ready
   * lists, next-unblock time) as k ticks taken directly do, but for the pending-yield flag.
   */
  lemma NoTickLost(s: Sched, depth: nat, k: nat)
    requires Inv(s) && s.suspended == 0 && s.pended == 0 && s.Pending() == [] && depth > 0
    ensures WithFlags(ResumeTimes(TickTimes(SuspendTimes(s, depth), k), depth), s.yieldPending, 0) ==
            WithFlags(TickTimes(s, k), s.yieldPending, 0)
  {
    hide *;
    var y := s.yieldPending;
    TicksAreHeld(s, depth, k);
    ResumesReachOutermost(s, depth, k);
    OutermostResume(s, k);
    FlagFacts(s, y, k, y, 0);
    RunPendedIsTicks(WithFlags(s, y, k), k, y, 0);
    TickTimesIgnoresFlags(s, k, y, k);
    FlagFacts(TickTimes(s, k), y, k, y, 0);
  }

  lemma CountPositive(s: Sched)
    requires Core(s)
    ensures s.count > 0
  {
    hide Structured, ReadyOk, EventsOk, DelaysSorted;
  }

  lemma OutermostResume(s: Sched, k: nat)
    requires Inv(s) && s.suspended == 0 && s.Pending() == []
    ensures WithFlags(Held(s, 1, k).ResumeAll(), s.yieldPending, 0) ==
            WithFlags(WithFlags(s, s.yieldPending, k).RunPended(k), s.yieldPending, 0)
  {
    CountPositive(s);
    hide *;
    ResumeIs(Held(s, 1, k));
    HeldFacts(s, k);
    FlagFacts(WithFlags(s, s.yieldPending, k).RunPended(k), Held(s, 1, k).ResumeAll().yieldPending, 0, s.yieldPending, 0);
  }

  /** What the outermost resume does when nothing is pending. */
  lemma ResumeIs(s: Sched)
    requires s.suspended == 1 && s.count > 0 && s.(suspended := 0).Pending() == []
    ensures s.ResumeAll() == WithFlags(s.(suspended := 0).RunPended(s.pended), s.ResumeAll().yieldPending, 0)
    ensures s.ResumeAll().yieldPending == s.(suspended := 0).RunPended(s.pended).yieldPending
  {
    hide Sched.RunPended, Sched.MovePending, Sched.ResetNext, Sched.Pending;
  }

  lemma HeldFacts(s: Sched, k: nat)
    requires s.suspended == 0
    ensures Held(s, 1, k).(suspended := 0) == WithFlags(s, s.yieldPending, k)
    ensures Held(s, 1, k).suspended == 1 && Held(s, 1, k).pended == k && Held(s, 1, k).count == s.count
    ensures Held(s, 1, k).(suspended := 0).Pending() == s.Pending()
  {
  }

  // ----- resuming keeps the invariant -----

  lemma PendingHead(s: Sched)
    requires Core(s) && s.Pending() != []
    ensures s.events.In(s.Pending()[0], PendingL)
  {
    hide Structured, ReadyOk, EventsOk, DelaysSorted, Counted;
    ListFacts(s);
    assert s.Pending()[0] in s.events.Items(PendingL);
  }

  lemma MoveOnePendingKeeps(s: Sched)
    requires Core(s.(suspended := 1)) && Ahead(s) && s.Pending() != []
    ensures Core(s.MoveOnePending().(suspended := 1)) && Ahead(s.MoveOnePending())
    ensures |s.MoveOnePending().Pending()| < |s.Pending()|
    ensures s.MoveOnePending().suspended == s.suspended && s.MoveOnePending().count == s.count
  {
    hide Structured, ReadyOk, EventsOk, DelaysSorted, Counted;
    var z := s.(suspended := 1);
    PendingHead(z);
    WakeWaiterKeeps(z, s.Pending()[0]);
    assert s.MoveOnePending().(suspended := 1, yieldPending := s.yieldPending) == z.(events := s.events.Remove(s.Pending()[0])).MoveToReady(s.Pending()[0]);
  }

  lemma {:induction false} MovePendingKeeps(s: Sched)
    requires Core(s.(suspended := 1)) && Ahead(s)
    ensures Core(s.MovePending().(suspended := 1)) && Ahead(s.MovePending()) && s.MovePending().Pending() == []
    ensures s.MovePending().suspended == s.suspended && s.MovePending().count == s.count
    decreases |s.Pending()|
  {
    hide Core, Ahead, Sched.MoveOnePending;
    if s.Pending() != [] {
      MoveOnePendingKeeps(s);
      MovePendingKeeps(s.MoveOnePending());
    }
  }

  /** With the pending list empty the scheduler may run again. */
  lemma NonePending(s: Sched)
    requires Core(s.(suspended := 1)) && s.Pending() == [] && s.suspended == 0
    ensures Core(s)
  {
    ListFacts(s.(suspended := 1));
    hide Structured, ReadyOk, DelaysSorted, Counted;
    forall t | t in s.events.container ensures s.events.container[t] != PendingL {
      assert t in s.events.Items(PendingL) <==> s.events.In(t, PendingL);
    }
  }

  lemma {:induction false} RunPendedKeeps(s: Sched, n: nat)
    requires Inv(s) && s.suspended == 0
    ensures Inv(s.RunPended(n))
    decreases n
  {
    hide *;
    RunPendedStep(s, n);
    if n > 0 {
      TickIsOneTick(s);
      FlagFacts(s.Tick(), s.yieldPending || s.TickSwitches(), s.Tick().pended, false, 0);
      RunPendedKeeps(WithFlags(s.Tick(), s.yieldPending || s.TickSwitches(), s.Tick().pended), n - 1);
    }
  }

  /** `xTaskResumeAll` keeps the invariant and, when it is the outermost, empties the pending list. */
  lemma ResumeAllKeeps(s: Sched)
    requires Inv(s)
    ensures Inv(s.ResumeAll())
    ensures s.suspended == 1 ==> s.ResumeAll().pended == 0
  {
    if s.suspended == 1 { OutermostKeeps(s); } else { InnerKeeps(s); }
  }

  lemma InnerKeeps(s: Sched)
    requires Inv(s) && s.suspended != 1
    ensures Inv(s.ResumeAll())
  {
    hide Structured, ReadyOk, DelaysSorted, Counted, DelaysAhead, Valid, Sched.RunPended, Sched.MovePending;
  }

  lemma OutermostKeeps(s: Sched)
    requires Inv(s) && s.suspended == 1
    ensures Inv(s.ResumeAll()) && s.ResumeAll().pended == 0
  {
    CountPositive(s);
    var r := s.(suspended := 0);
    var m := if r.Pending() == [] then r else r.MovePending().ResetNext();
    OutermostMove(s, r, m);
    RunPendedKeeps(m, s.pended);
    FlagFacts(m.RunPended(s.pended), m.RunPended(s.pended).yieldPending, 0, false, 0);
    hide Inv, Sched.RunPended, Sched.MovePending, Sched.ResetNext, Sched.Pending;
  }

  lemma OutermostMove(s: Sched, r: Sched, m: Sched)
    requires Inv(s) && s.suspended == 1 && r == s.(suspended := 0)
    requires m == if r.Pending() == [] then r else r.MovePending().ResetNext()
    ensures Inv(m) && m.suspended == 0
  {
    hide Structured, ReadyOk, EventsOk, DelaysSorted, Counted;
    assert r.(suspended := 1) == s;
    if r.Pending() == [] {
      NonePending(r);
    } else {
      MovePendingKeeps(r);
      NonePending(r.MovePending());
      ResetNextKeeps(r.MovePending());
    }
  }
}
