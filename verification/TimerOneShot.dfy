/**
 * What one round of the timer daemon does to every timer and command, and with it the life of a
 * one-shot timer: it calls back exactly once.
 */
module TimerOneShot {
  import opened Rings
  import opened Clock
  import opened Timeline
  import opened TwoLists
  import opened TimerService

  // ----- one round, exactly -----

  /** Commands join the queue in the order in which they are sent, up to its capacity. */
  lemma {:induction false} OffersInOrder(s: Service, ms: seq<Message>)
    requires |s.queue| <= s.capacity
    ensures var room := s.capacity - |s.queue|;
      s.Offer(ms) == s.(queue := s.queue + if |ms| <= room then ms else ms[..room])
    decreases |ms|
  {
    var room := s.capacity - |s.queue|;
    if ms != [] {
      if room > 0 {
        OffersInOrder(s.(queue := s.queue + [ms[0]]), ms[1..]);
        assert ms == [ms[0]] + ms[1..];
        assert |ms| > room ==> ms[..room] == [ms[0]] + ms[1..][..room - 1];
      } else {
        OffersInOrder(s, ms[1..]);
      }
    }
  }

  /** A command of the daemon's own joins the queue while there is room, and is noticed if there is none. */
  lemma SendsInRoom(s: Service, m: Message)
    requires |s.queue| <= s.capacity
    ensures var r := s.Send(m);
      && |r.queue| <= s.capacity && r == s.(queue := r.queue, overflowed := r.overflowed)
      && r.queue == s.queue + (if |s.queue| < s.capacity then [m] else [])
      && (r.overflowed <==> s.overflowed || |s.queue| == s.capacity)
  {
  }

  /**
   * The first timer expires in turn: one callback is made for it.  An auto-reload timer whose next
   * expiry is still to come is filed again, and one that is late is started again by a command sent
   * before those of the callback.  A one-shot timer is neither filed nor started.
   */
  lemma ExpiresExactly(s: Service, at: nat, posts: seq<Message>)
    requires s.active != []
    ensures var x, rest, r := s.active[0], s.active[1..], s.ProcessExpired(at, posts);
      var next := Sleeper(x.task, x.wake + At(s.period, x.task));
      && r.calls == s.calls + [Call(x.task, x.wake, at)]
      && r.active == (if x.task in s.auto && at < next.wake then With(rest, WakePlace(rest, next.wake), next) else rest)
      && r.queue == (if x.task in s.auto && next.wake <= at then s.Send(Start(x.task, x.wake)) else s).Offer(posts).queue
  {
    var x, u := s.active[0], s.(active := s.active[1..]);
    var next, calls := x.wake + At(s.period, x.task), s.calls + [Call(x.task, x.wake, at)];
    OfferSame(s, u.(calls := calls), posts);
    OfferSame(s, u.Insert(x.task, next).(calls := calls), posts);
    OfferSame(s.Send(Start(x.task, x.wake)), u.Send(Start(x.task, x.wake)).(calls := calls), posts);
    hide Service.Offer, With, WakePlace;
  }

  /**
   * The same when the lists switch: an auto-reload timer is filed again while it expires before the
   * end of the old epoch, and otherwise started again by a command sent after those of the callback.
   */
  lemma SwitchesExactly(s: Service, end: nat, at: nat, posts: seq<Message>)
    requires s.active != []
    ensures var x, rest, r := s.active[0], s.active[1..], s.SwitchOne(end, at, posts);
      var next := Sleeper(x.task, x.wake + At(s.period, x.task));
      && r.calls == s.calls + [Call(x.task, x.wake, at)]
      && r.active == (if x.task in s.auto && next.wake < end then With(rest, WakePlace(rest, next.wake), next) else rest)
      && r.queue == (if x.task in s.auto && end <= next.wake then s.Offer(posts).Send(Start(x.task, x.wake)) else s.Offer(posts)).queue
  {
    var x, u := s.active[0], s.(active := s.active[1..]);
    OfferSame(s, s, posts);
    OfferSame(s, u.(calls := s.calls + [Call(x.task, x.wake, at)]), posts);
    hide Service.Offer, With, WakePlace;
  }

  /** What is offered depends on the queue and its capacity only. */
  lemma {:induction false} OfferSame(s: Service, r: Service, ms: seq<Message>)
    requires r.queue == s.queue && r.capacity == s.capacity
    ensures r.Offer(ms) == r.(queue := s.Offer(ms).queue)
    decreases |ms|
  {
    if ms != [] {
      if |s.queue| < s.capacity {
        OfferSame(s.(queue := s.queue + [ms[0]]), r.(queue := r.queue + [ms[0]]), ms[1..]);
      } else {
        OfferSame(s, r, ms[1..]);
      }
    }
  }

  // ----- one one-shot timer -----

  /** `t` has called back `k` times: not yet, and its expiry or its start is to come, or once, and it is gone. */
  ghost predicate Single(s: Service, t: Timer, start: nat, p: nat, k: nat) {
    && k <= 1 && t !in s.auto && At(s.period, t) == p && WakeOrder(s.active)
    && DuesOf(s.calls, t) == (if k == 0 then [] else [start + p]) && (forall c :: c in s.calls ==> c.due <= c.at)
    && if k == 0 && t in TasksOf(s.active) then Sleeper(t, start + p) in s.active && CommandsFor(s.queue, t) == []
       else t !in TasksOf(s.active) && CommandsFor(s.queue, t) == if k == 0 then [Start(t, start)] else []
  }

  /** `t` has not called back, and is off the list and the queue. */
  ghost predicate Off(s: Service, t: Timer, start: nat, p: nat) {
    && t !in s.auto && At(s.period, t) == p && WakeOrder(s.active) && DuesOf(s.calls, t) == [] && (forall c :: c in s.calls ==> c.due <= c.at)
    && t !in TasksOf(s.active) && CommandsFor(s.queue, t) == []
  }

  /** Only the callbacks, the queue and the overflow flag change, and nothing that concerns `t`. */
  ghost predicate AsideFrom(s: Service, r: Service, t: Timer) {
    && r == s.(calls := r.calls, queue := r.queue, overflowed := r.overflowed)
    && DuesOf(r.calls, t) == DuesOf(s.calls, t) && CommandsFor(r.queue, t) == CommandsFor(s.queue, t)
    && ((forall c :: c in s.calls ==> c.due <= c.at) ==> forall c :: c in r.calls ==> c.due <= c.at)
  }

  lemma FireAside(s: Service, t: Timer, u: Timer, due: nat, at: nat, posts: seq<Message>)
    requires u != t && due <= at && NotAbout(posts, t)
    ensures AsideFrom(s, s.Fire(u, due, at, posts), t)
  {
    hide NotAbout, CommandsFor, DuesOf;
    DuesAppend(s.calls, Call(u, due, at), t);
    var q := OfferOther(s.(calls := s.calls + [Call(u, due, at)]), posts, t);
  }

  lemma SendAside(s: Service, t: Timer, m: Message)
    requires !About(m, t)
    ensures AsideFrom(s, s.Send(m), t)
  {
    hide CommandsFor, DuesOf;
    var q := SendTo(s, m, t);
  }

  lemma OfferAside(s: Service, t: Timer, ms: seq<Message>)
    requires NotAbout(ms, t)
    ensures AsideFrom(s, s.Offer(ms), t)
  {
    hide CommandsFor, DuesOf, NotAbout;
    var q := OfferOther(s, ms, t);
  }

  lemma AsideKeeps(s: Service, r: Service, t: Timer, start: nat, p: nat, k: nat)
    requires AsideFrom(s, r, t)
    ensures Single(s, t, start, p, k) ==> Single(r, t, start, p, k)
    ensures Off(s, t, start, p) ==> Off(r, t, start, p)
  {
    hide CommandsFor, DuesOf, WakeOrder, TasksOf;
  }

  lemma InsertKeeps(s: Service, t: Timer, start: nat, p: nat, k: nat, u: Timer, expiry: nat)
    requires u != t && WakeOrder(s.active) && u !in TasksOf(s.active)
    ensures Single(s, t, start, p, k) ==> Single(s.Insert(u, expiry), t, start, p, k)
    ensures Off(s, t, start, p) ==> Off(s.Insert(u, expiry), t, start, p)
  {
    hide CommandsFor, DuesOf, WakeOrder, TasksOf, With, WakePlace;
    InsertTasks(s.active, Sleeper(u, expiry));
  }

  /** Taking the first timer off the list. */
  lemma TailKeeps(s: Service, t: Timer, start: nat, p: nat, k: nat)
    requires s.active != [] && WakeOrder(s.active)
    ensures var u, x := s.(active := s.active[1..]), s.active[0];
      && WakeOrder(u.active) && x.task !in TasksOf(u.active)
      && (Single(s, t, start, p, k) && x.task != t ==> Single(u, t, start, p, k))
      && (Off(s, t, start, p) ==> x.task != t && Off(u, t, start, p))
      && (Single(s, t, start, p, k) && x.task == t ==> k == 0 && x.wake == start + p && Off(u, t, start, p))
  {
    hide CommandsFor, DuesOf;
    TailTasks(s.active);
    TaskIn(s.active[1..], t);
    hide WakeOrder, TasksOf;
  }

  /** Its callback. */
  lemma FireEnds(s: Service, t: Timer, start: nat, p: nat, at: nat, posts: seq<Message>)
    requires Off(s, t, start, p) && start + p <= at && NotAbout(posts, t)
    ensures Single(s.Fire(t, start + p, at, posts), t, start, p, 1)
  {
    hide NotAbout, CommandsFor, DuesOf, WakeOrder, TasksOf;
    var c := Call(t, start + p, at);
    DuesAppend(s.calls, c, t);
    var q := OfferOther(s.(calls := s.calls + [c]), posts, t);
  }

  // ----- whole steps -----

  lemma RoundSingle(s: Service, t: Timer, start: nat, p: nat, k: nat, end: nat, at: nat, posts: seq<Message>)
    requires NotAbout(posts, t) && s.active != [] && s.active[0].wake <= at && WakeOrder(s.active)
    ensures var k' := if s.active[0].task == t then 1 else k;
      Single(s, t, start, p, k) ==> Single(s.SwitchOne(end, at, posts), t, start, p, k') && Single(s.ProcessExpired(at, posts), t, start, p, k')
    ensures Off(s, t, start, p) ==> Off(s.SwitchOne(end, at, posts), t, start, p)
  {
    hide Single, Off, AsideFrom, NotAbout, WakeOrder, TasksOf, Service.Fire, Service.Insert, Service.Send;
    var x := s.active[0];
    var u, next := s.(active := s.active[1..]), x.wake + At(s.period, x.task);
    var f := u.Fire(x.task, x.wake, at, posts);
    TailKeeps(s, t, start, p, k);
    FireFields(u, x.task, x.wake, at, posts);
    if x.task == t {
      SingleIsOneShot(s, t, start, p, k);
      if Off(u, t, start, p) && x.wake == start + p { FireEnds(u, t, start, p, at, posts); }
    } else {
      FireAside(u, t, x.task, x.wake, at, posts);
      AsideKeeps(u, f, t, start, p, k);
      InsertKeeps(f, t, start, p, k, x.task, next);
      SendAside(f, t, Start(x.task, x.wake));
      AsideKeeps(f, f.Send(Start(x.task, x.wake)), t, start, p, k);
      SendAside(u, t, Start(x.task, x.wake));
      AsideKeeps(u, u.Send(Start(x.task, x.wake)), t, start, p, k);
      InsertKeeps(u, t, start, p, k, x.task, next);
      var v := if x.task !in s.auto then u else if next <= at then u.Send(Start(x.task, x.wake)) else u.Insert(x.task, next);
      FireAside(v, t, x.task, x.wake, at, posts);
      AsideKeeps(v, v.Fire(x.task, x.wake, at, posts), t, start, p, k);
    }
  }

  lemma SingleIsOneShot(s: Service, t: Timer, start: nat, p: nat, k: nat)
    ensures Single(s, t, start, p, k) ==> t !in s.auto && WakeOrder(s.active) && k <= 1
    ensures Off(s, t, start, p) ==> t !in s.auto && WakeOrder(s.active)
  {
  }

  lemma {:induction false} DrainSingle(s: Service, t: Timer, start: nat, p: nat, k: nat, end: nat, at: nat, script: seq<seq<Message>>)
    returns (k': nat)
    requires (Single(s, t, start, p, k) || Off(s, t, start, p)) && NoneAbout(script, t) && end <= at
    ensures Single(s, t, start, p, k) ==> k <= k' && Single(s.Drain(end, at, script), t, start, p, k')
    ensures Off(s, t, start, p) ==> Off(s.Drain(end, at, script), t, start, p)
    decreases Work(s.active, end)
  {
    hide Single, Off, NoneAbout, NotAbout, WakeOrder, Service.SwitchOne;
    k' := k;
    ScriptParts(script, t);
    SingleIsOneShot(s, t, start, p, k);
    if s.active != [] && s.active[0].wake < end {
      var r := s.SwitchOne(end, at, if script == [] then [] else script[0]);
      RoundSingle(s, t, start, p, k, end, at, if script == [] then [] else script[0]);
      if Work(r.active, end) < Work(s.active, end) {
        k' := DrainSingle(r, t, start, p, if s.active[0].task == t then 1 else k, end, at, if script == [] then [] else script[1..]);
      }
    }
  }

  lemma SampleSingle(s: Service, t: Timer, start: nat, p: nat, k: nat, time: nat, script: seq<seq<Message>>) returns (k': nat)
    requires (Single(s, t, start, p, k) || Off(s, t, start, p)) && NoneAbout(script, t)
    ensures Single(s, t, start, p, k) ==> k <= k' && Single(s.Sample(time, script), t, start, p, k')
    ensures Off(s, t, start, p) ==> Off(s.Sample(time, script), t, start, p)
  {
    hide NoneAbout, Service.Drain, Epoch, Wraps, WakeOrder, TasksOf, DuesOf, CommandsFor;
    WrapParts(time, s.ticks);
    k' := k;
    if Wraps(s.last, s.ticks) < Wraps(time, s.ticks) {
      k' := DrainSingle(s, t, start, p, k, Epoch(Wraps(time, s.ticks), s.ticks), time, script);
    }
  }

  lemma CheckSingle(s: Service, t: Timer, start: nat, p: nat, k: nat, time: nat, script: seq<seq<Message>>, posts: seq<Message>)
    returns (k': nat)
    requires Single(s, t, start, p, k) && NoneAbout(script, t) && NotAbout(posts, t)
    ensures k <= k' && Single(s.TimerStep(time, script, posts), t, start, p, k')
  {
    hide Single, NoneAbout, NotAbout, Wraps, WakeOrder, Service.Sample, Service.ProcessExpired;
    k' := SampleSingle(s, t, start, p, k, time, script);
    var u := s.Sample(time, script);
    SingleIsOneShot(u, t, start, p, k');
    if Wraps(s.last, s.ticks) == Wraps(time, s.ticks) && u.active != [] && u.active[0].wake <= time {
      RoundSingle(u, t, start, p, k', 0, time, posts);
      k' := if u.active[0].task == t then 1 else k';
    }
  }

  /** A command for another timer, which is off the list. */
  lemma ObeyKeeps(s: Service, t: Timer, start: nat, p: nat, k: nat, m: Message, time: nat, posts: seq<Message>)
    requires Single(s, t, start, p, k) && !About(m, t) && NotAbout(posts, t)
    requires m.Pended? || m.timer !in TasksOf(s.active)
    ensures Single(s.Obey(m, time, posts), t, start, p, k)
  {
    hide AsideFrom, NotAbout, WakeOrder, TasksOf, DuesOf, CommandsFor, Service.Fire, Service.Insert, Service.Send, Service.Offer;
    match m {
      case Start(u, from) =>
        var due := from + At(s.period, u);
        InsertKeeps(s, t, start, p, k, u, due);
        if due <= time {
          FireAside(s, t, u, due, time, posts);
          AsideKeeps(s, s.Fire(u, due, time, posts), t, start, p, k);
          SendAside(s.Fire(u, due, time, posts), t, Start(u, due));
          AsideKeeps(s.Fire(u, due, time, posts), s.Fire(u, due, time, posts).Send(Start(u, due)), t, start, p, k);
        }
      case Stop(_) =>
      case Delete(u) => assert Single(s.(period := s.period - {u}, auto := s.auto - {u}), t, start, p, k);
      case ChangePeriod(u, q) =>
        var r := s.(period := s.period[u := q]);
        assert Single(r, t, start, p, k);
        InsertKeeps(r, t, start, p, k, u, time + q);
      case Pended =>
        OfferAside(s, t, posts);
        AsideKeeps(s, s.Offer(posts), t, start, p, k);
    }
  }

  /** Its own start command: the expiry is filed, or has passed and the callback is made at once. */
  lemma ObeyStarts(s: Service, t: Timer, start: nat, p: nat, time: nat, posts: seq<Message>) returns (k: nat)
    requires Off(s, t, start, p) && NotAbout(posts, t)
    ensures Single(s.Obey(Start(t, start), time, posts), t, start, p, k)
  {
    k := if start + p <= time then 1 else 0;
    if start + p <= time {
      FireEnds(s, t, start, p, time, posts);
    } else {
      InsertTasks(s.active, Sleeper(t, start + p));
    }
    hide NotAbout, WakeOrder, TasksOf, DuesOf, CommandsFor, Service.Fire, With, WakePlace;
  }

  lemma CommandSingle(s: Service, t: Timer, start: nat, p: nat, k: nat, time: nat, script: seq<seq<Message>>, posts: seq<Message>)
    returns (k': nat)
    requires Single(s, t, start, p, k) && NoneAbout(script, t) && NotAbout(posts, t)
    ensures k <= k' && Single(s.CommandStep(time, script, posts), t, start, p, k')
  {
    hide NoneAbout, NotAbout, WakeOrder, TasksOf, DuesOf, Service.Sample, Service.Obey, Service.Cancel;
    k' := k;
    if s.queue != [] {
      var m, u := s.queue[0], s.(queue := s.queue[1..]);
      if About(m, t) {
        HeadCommand(s.queue, t);
        assert k == 0 && m == Start(t, start) && Off(u, t, start, p);
        CancelAbsent(u, t);
        var j := SampleSingle(u, t, start, p, 0, time, script);
        k' := ObeyStarts(u.Sample(time, script), t, start, p, time, posts);
      } else {
        assert Single(u, t, start, p, k);
        if m.Pended? {
          ObeyKeeps(u, t, start, p, k, m, time, posts);
        } else {
          k' := OtherSingle(u, t, start, p, k, m, time, script, posts);
        }
      }
    }
  }

  lemma OtherSingle(s: Service, t: Timer, start: nat, p: nat, k: nat, m: Message, time: nat, script: seq<seq<Message>>, posts: seq<Message>)
    returns (k': nat)
    requires Single(s, t, start, p, k) && !m.Pended? && m.timer != t && NoneAbout(script, t) && NotAbout(posts, t)
    ensures k <= k' && Single(s.Cancel(m.timer).Sample(time, script).Obey(m, time, posts), t, start, p, k')
  {
    hide NoneAbout, NotAbout, DuesOf, CommandsFor, Service.Drain, Service.Obey, Wraps, WakeOrder, TasksOf;
    var c := s.Cancel(m.timer);
    CancelTasks(s, m.timer);
    assert Single(c, t, start, p, k);
    k' := SampleSingle(c, t, start, p, k, time, script);
    DrainShrinks(c, Epoch(Wraps(time, s.ticks), s.ticks), time, script, m.timer);
    ObeyKeeps(c.Sample(time, script), t, start, p, k', m, time, posts);
  }

  // ----- whole runs -----

  lemma {:induction false} RunSingle(s: Service, t: Timer, start: nat, p: nat, k: nat, steps: seq<Step>) returns (k': nat)
    requires Single(s, t, start, p, k) && Alone(steps, t)
    ensures k <= k' && Single(Run(s, steps), t, start, p, k')
    decreases |steps|
  {
    hide Single, AsideFrom, NoneAbout, NotAbout, Service.Offer, Service.TimerStep, Service.CommandStep;
    k' := k;
    if steps != [] {
      assert LeavesAlone(steps[0], t);
      match steps[0] {
        case Post(ms) =>
          OfferAside(s, t, ms);
          AsideKeeps(s, s.Offer(ms), t, start, p, k);
        case Check(time, script, posts) => k' := CheckSingle(s, t, start, p, k, time, script, posts);
        case Command(time, script, posts) => k' := CommandSingle(s, t, start, p, k, time, script, posts);
      }
      k' := RunSingle(Apply(s, steps[0]), t, start, p, k', steps[1..]);
    }
  }

  /** The start command of the one-shot timer `t`, sent at tick `start`, is in the queue, and `t` has not run before. */
  ghost predicate JustStartedOnce(s: Service, t: Timer, start: nat) {
    && t !in s.auto && WakeOrder(s.active) && t !in TasksOf(s.active)
    && CommandsFor(s.queue, t) == [Start(t, start)] && DuesOf(s.calls, t) == [] && forall c :: c in s.calls ==> c.due <= c.at
  }

  /**
   * A one-shot timer calls back once, for start + period and not before that tick, and then is off the
   * list and the queue; until then its expiry is on the list or its start is in the queue.  This holds
   * however late the daemon runs, whatever else it serves, and even if restarts of others are lost.
   * And when no command is left and every active timer is still to expire, the callback has been made
   * if its time has come.
   */
  lemma CallsBackOnce(s: Service, t: Timer, start: nat, steps: seq<Step>)
    requires JustStartedOnce(s, t, start) && Alone(steps, t)
    ensures var r, due := Run(s, steps), start + At(s.period, t);
      && (forall c :: c in r.calls ==> c.due <= c.at)
      && (if DuesOf(r.calls, t) == [] then Sleeper(t, due) in r.active || CommandsFor(r.queue, t) == [Start(t, start)]
          else DuesOf(r.calls, t) == [due] && t !in TasksOf(r.active) && CommandsFor(r.queue, t) == [])
      && (r.queue == [] && due <= r.last && (forall x :: x in r.active ==> r.last < x.wake) ==> DuesOf(r.calls, t) == [due])
  {
    hide WakeOrder, TasksOf, DuesOf, Run, LeavesAlone;
    var k := RunSingle(s, t, start, At(s.period, t), 0, steps);
  }
}
