/**
 * What the timer daemon of timers.c does, in unbounded time: one list of active timers ordered by
 * expiry, a bounded command queue, and a log of the callbacks.  `Timers` proves that the daemon's
 * two wrapping lists do this.
 */
module TimerService {
  import opened Rings
  import opened Clock
  import opened Timeline
  import opened TwoLists

  type Timer = Task

  /** A command of the queue; `time` is the tick that the command is reckoned from. */
  datatype Message =
    | Start(timer: Timer, time: nat) | Stop(timer: Timer) | ChangePeriod(timer: Timer, period: nat) | Delete(timer: Timer)
    | Pended

  /** A callback of `timer` for its expiry at tick `due`, made at tick `at`. */
  datatype Call = Call(timer: Timer, due: nat, at: nat)

  predicate About(m: Message, t: Timer) { !m.Pended? && m.timer == t }

  datatype Service = Service(
    ticks: Modulus,
    capacity: nat,             // configTIMER_QUEUE_LENGTH
    last: nat,                 // the time of the last sample
    active: seq<Sleeper>,      // timers and expiry times
    queue: seq<Message>,
    period: map<Timer, nat>,
    auto: set<Timer>,          // uxAutoReload
    calls: seq<Call>,
    overflowed: bool)          // a restart command found the queue full: configASSERT fails
  {
    /** `xTimerGenericCommand` from the daemon itself. */
    function Send(m: Message): Service {
      if |queue| < capacity then this.(queue := queue + [m]) else this.(overflowed := true)
    }

    /** Commands from tasks, interrupts and callbacks; the ones that find no room are refused. */
    function Offer(ms: seq<Message>): Service
      decreases |ms|
    {
      if ms == [] then this
      else (if |queue| < capacity then this.(queue := queue + [ms[0]]) else this).Offer(ms[1..])
    }

    /** The callback; `posts` are the commands that it sends. */
    function Fire(t: Timer, due: nat, at: nat, posts: seq<Message>): Service {
      this.(calls := calls + [Call(t, due, at)]).Offer(posts)
    }

    function Insert(t: Timer, expiry: nat): Service {
      this.(active := With(active, WakePlace(active, expiry), Sleeper(t, expiry)))
    }

    /** One round of `prvSwitchTimerLists`, for the timer that expires first; `end` is where the old epoch ended. */
    function SwitchOne(end: nat, at: nat, posts: seq<Message>): Service
      requires active != []
    {
      var x := active[0];
      var s := this.(active := active[1..]).Fire(x.task, x.wake, at, posts);
      if x.task !in auto then s
      else if x.wake + At(period, x.task) < end then s.Insert(x.task, x.wake + At(period, x.task))
      else s.Send(Start(x.task, x.wake))
    }

    /** The loop of `prvSwitchTimerLists`: every timer that expired in the old epoch, again and again. */
    function Drain(end: nat, at: nat, script: seq<seq<Message>>): Service
      decreases Work(active, end)
    {
      if active == [] || end <= active[0].wake then this
      else
        var s := SwitchOne(end, at, if script == [] then [] else script[0]);
        if Work(s.active, end) < Work(active, end) then s.Drain(end, at, if script == [] then [] else script[1..]) else this
    }

    /** `prvSampleTimeNow`. */
    function Sample(time: nat, script: seq<seq<Message>>): Service {
      (if Wraps(last, ticks) < Wraps(time, ticks) then Drain(Epoch(Wraps(time, ticks), ticks), time, script) else this)
      .(last := time)
    }

    /** `prvProcessExpiredTimer`, for the timer that expires first. */
    function ProcessExpired(at: nat, posts: seq<Message>): Service
      requires active != []
    {
      var x := active[0];
      var s := this.(active := active[1..]);
      var s' := if x.task !in auto then s
                else if x.wake + At(period, x.task) <= at then s.Send(Start(x.task, x.wake))
                else s.Insert(x.task, x.wake + At(period, x.task));
      s'.Fire(x.task, x.wake, at, posts)
    }

    /** `prvProcessTimerOrBlockTask`, up to the point where it blocks or returns. */
    function TimerStep(time: nat, script: seq<seq<Message>>, posts: seq<Message>): Service {
      var s := Sample(time, script);
      if Wraps(last, ticks) == Wraps(time, ticks) && s.active != [] && s.active[0].wake <= time
      then s.ProcessExpired(time, posts) else s
    }

    function Cancel(t: Timer): Service {
      this.(active := DroppedSleeper(active, t))
    }

    /** What `prvProcessReceivedCommands` does once it has sampled the time. */
    function Obey(m: Message, time: nat, posts: seq<Message>): Service {
      match m
      case Start(t, from) =>
        var due := from + At(period, t);
        if time < due then Insert(t, due)
        else var s := Fire(t, due, time, posts); if t in auto then s.Send(Start(t, due)) else s
      case Stop(_) => this
      case Delete(t) => this.(period := period - {t}, auto := auto - {t})
      case ChangePeriod(t, p) => this.(period := period[t := p]).Insert(t, time + p)
      case Pended => Offer(posts)
    }

    /** One round of `prvProcessReceivedCommands`. */
    function CommandStep(time: nat, script: seq<seq<Message>>, posts: seq<Message>): Service {
      if queue == [] then this else
        var m, s := queue[0], this.(queue := queue[1..]);
        if m.Pended? then s.Obey(m, time, posts) else s.Cancel(m.timer).Sample(time, script).Obey(m, time, posts)
    }
  }

  /** How many ticks the active timers lie before `end`, all together. */
  function Work(active: seq<Sleeper>, end: nat): nat {
    if active == [] then 0 else (if active[0].wake < end then end - active[0].wake else 0) + Work(active[1..], end)
  }

  // ----- the draining loop ends -----

  lemma {:induction false} WorkWith(active: seq<Sleeper>, k: nat, x: Sleeper, end: nat)
    requires k <= |active|
    ensures Work(With(active, k, x), end) == Work(active, end) + if x.wake < end then end - x.wake else 0
    decreases k
  {
    if k == 0 {
      assert With(active, k, x)[1..] == active;
    } else {
      assert With(active, k, x)[1..] == With(active[1..], k - 1, x);
      WorkWith(active[1..], k - 1, x, end);
    }
  }

  lemma {:induction false} OfferKeeps(s: Service, ms: seq<Message>)
    ensures s.Offer(ms) == s.(queue := s.Offer(ms).queue)
    decreases |ms|
  {
    if ms != [] {
      OfferKeeps(if |s.queue| < s.capacity then s.(queue := s.queue + [ms[0]]) else s, ms[1..]);
    }
  }

  lemma SwitchWorks(s: Service, end: nat, at: nat, posts: seq<Message>)
    requires s.active != [] && s.active[0].wake < end && (s.active[0].task in s.auto ==> At(s.period, s.active[0].task) > 0)
    ensures Work(s.SwitchOne(end, at, posts).active, end) < Work(s.active, end)
  {
    var x := s.active[0];
    var p := At(s.period, x.task);
    OfferKeeps(s.(active := s.active[1..], calls := s.calls + [Call(x.task, x.wake, at)]), posts);
    WorkWith(s.active[1..], WakePlace(s.active[1..], x.wake + p), Sleeper(x.task, x.wake + p), end);
    hide Service.Offer, With, WakePlace;
  }

  // ----- one auto-reload timer -----

  /** The k-th expiry of a timer started at tick `start` with period `p`. */
  function Due(start: nat, p: nat, k: nat): nat { start + k * p }

  lemma DueStep(start: nat, p: nat, k: nat)
    ensures Due(start, p, k + 1) == Due(start, p, k) + p
  {
  }

  /** The expiries that the callbacks of `t` were made for, in order. */
  function DuesOf(calls: seq<Call>, t: Timer): seq<nat> {
    if calls == [] then [] else
      var n := |calls| - 1;
      DuesOf(calls[..n], t) + if calls[n].timer == t then [calls[n].due] else []
  }

  function CommandsFor(queue: seq<Message>, t: Timer): seq<Message> {
    if queue == [] then [] else (if About(queue[0], t) then [queue[0]] else []) + CommandsFor(queue[1..], t)
  }

  lemma {:induction false} CommandsAppend(queue: seq<Message>, m: Message, t: Timer)
    ensures CommandsFor(queue + [m], t) == CommandsFor(queue, t) + if About(m, t) then [m] else []
    decreases |queue|
  {
    CommandsOfFirst(queue + [m], t);
    if queue == [] {
      assert (queue + [m])[1..] == [];
    } else {
      CommandsOfFirst(queue, t);
      assert (queue + [m])[1..] == queue[1..] + [m];
      CommandsAppend(queue[1..], m, t);
      hide CommandsFor, About;
    }
  }

  lemma CommandsOfFirst(queue: seq<Message>, t: Timer)
    requires queue != []
    ensures CommandsFor(queue, t) == (if About(queue[0], t) then [queue[0]] else []) + CommandsFor(queue[1..], t)
  {
  }

  lemma DuesAppend(calls: seq<Call>, c: Call, t: Timer)
    ensures DuesOf(calls + [c], t) == DuesOf(calls, t) + if c.timer == t then [c.due] else []
  {
    assert (calls + [c])[..|calls|] == calls;
  }

  /** The callbacks of `t` so far are exactly those for its first `k` expiries, and no callback at all was early. */
  ghost predicate Book(calls: seq<Call>, t: Timer, start: nat, p: nat, k: nat) {
    && |DuesOf(calls, t)| == k && (forall i :: 0 <= i < k ==> DuesOf(calls, t)[i] == Due(start, p, i + 1))
    && (forall c :: c in calls ==> c.due <= c.at)
  }

  lemma BookOther(calls: seq<Call>, c: Call, t: Timer, start: nat, p: nat, k: nat)
    requires Book(calls, t, start, p, k) && c.timer != t && c.due <= c.at
    ensures Book(calls + [c], t, start, p, k)
  {
    DuesAppend(calls, c, t);
  }

  lemma BookNext(calls: seq<Call>, c: Call, t: Timer, start: nat, p: nat, k: nat)
    requires Book(calls, t, start, p, k) && c.timer == t && c.due == Due(start, p, k + 1) <= c.at
    ensures Book(calls + [c], t, start, p, k + 1)
  {
    DuesAppend(calls, c, t);
  }

  /** `t` is not active and no command names it. */
  ghost predicate Absent(active: seq<Sleeper>, queue: seq<Message>, t: Timer) {
    WakeOrder(active) && t !in TasksOf(active) && CommandsFor(queue, t) == []
  }

  /** `t` is active for its next expiry or its one pending command restarts it from the last one. */
  ghost predicate Waiting(active: seq<Sleeper>, queue: seq<Message>, t: Timer, start: nat, p: nat, k: nat) {
    && WakeOrder(active)
    && if t in TasksOf(active) then Sleeper(t, Due(start, p, k + 1)) in active && CommandsFor(queue, t) == []
       else CommandsFor(queue, t) == [Start(t, Due(start, p, k))]
  }

  lemma TaskIn(active: seq<Sleeper>, t: Timer)
    ensures t in TasksOf(active) <==> exists x :: x in active && x.task == t
  {
    if t in TasksOf(active) {
      var i := IndexOf(TasksOf(active), t);
      assert active[i] in active && active[i].task == t;
    }
    if x :| x in active && x.task == t { assert TasksOf(active)[IndexOf(active, x)] == t; }
  }

  lemma TailTasks(active: seq<Sleeper>)
    requires WakeOrder(active) && active != []
    ensures WakeOrder(active[1..]) && active[0].task !in TasksOf(active[1..])
    ensures forall t :: t in TasksOf(active) <==> t == active[0].task || t in TasksOf(active[1..])
    ensures forall x :: x in active <==> x == active[0] || x in active[1..]
  {
    assert TasksOf(active) == [active[0].task] + TasksOf(active[1..]);
  }

  lemma InsertTasks(active: seq<Sleeper>, x: Sleeper)
    requires WakeOrder(active) && x.task !in TasksOf(active)
    ensures var r := With(active, WakePlace(active, x.wake), x);
      WakeOrder(r) && (forall t :: t in TasksOf(r) <==> t == x.task || t in TasksOf(active)) && forall y :: y in r <==> y == x || y in active
  {
    var k := WakePlace(active, x.wake);
    var r := With(active, k, x);
    WithMembers(active, k, x);
    assert TasksOf(r) == With(TasksOf(active), k, x.task);
    WithMembers(TasksOf(active), k, x.task);
    InsertOrder(active, x);
  }

  lemma InsertOrder(active: seq<Sleeper>, x: Sleeper)
    requires WakeOrder(active) && x.task !in TasksOf(active)
    ensures WakeOrder(With(active, WakePlace(active, x.wake), x))
  {
    var k := WakePlace(active, x.wake);
    assert forall j :: 0 <= j < |active| ==> TasksOf(active)[j] == active[j].task;
    LaterThan(active, k, x.wake);
    hide TasksOf, WakePlace;
    OrderedWith(active, k, x);
  }

  lemma LaterThan(active: seq<Sleeper>, k: nat, w: nat)
    requires WakeOrder(active) && (k < |active| ==> w < active[k].wake)
    ensures forall j :: k <= j < |active| ==> w < active[j].wake
  {
    if k < |active| { assert forall j :: k < j < |active| ==> active[k].wake <= active[j].wake; }
  }

  lemma OrderedWith(active: seq<Sleeper>, k: nat, x: Sleeper)
    requires WakeOrder(active) && k <= |active| && forall j :: 0 <= j < |active| ==> active[j].task != x.task
    requires forall j :: 0 <= j < |active| ==> if j < k then active[j].wake <= x.wake else x.wake < active[j].wake
    ensures WakeOrder(With(active, k, x))
  {
  }

  lemma CancelTasks(s: Service, t: Timer)
    requires WakeOrder(s.active)
    ensures var r := s.Cancel(t).active;
      && WakeOrder(r) && (forall u :: u in TasksOf(r) <==> u != t && u in TasksOf(s.active))
      && (forall x :: x in r <==> x.task != t && x in s.active)
  {
    var ts := TasksOf(s.active);
    if t in ts {
      var k := IndexOf(ts, t);
      assert TasksOf(Without(s.active, k)) == Without(ts, k);
      WithoutMembers(ts, k);
      WithoutMembers(s.active, k);
    } else {
      TaskIn(s.active, t);
    }
  }

  // ----- what each part of a step does to it -----

  /** The timer's settings; nothing but a command changes them. */
  ghost predicate Set(s: Service, t: Timer, p: nat) {
    At(s.period, t) == p > 0 && t in s.auto
  }

  /** Unless a restart was lost to a full queue, `t` is on schedule after `k` callbacks. */
  ghost predicate Tracks(s: Service, t: Timer, start: nat, p: nat, k: nat) {
    s.overflowed || (Set(s, t, p) && Book(s.calls, t, start, p, k) && Waiting(s.active, s.queue, t, start, p, k))
  }

  /** The same while `t` is out of the daemon's books, after it was taken off the list or the queue. */
  ghost predicate Out(s: Service, t: Timer, start: nat, p: nat, k: nat) {
    s.overflowed || (Set(s, t, p) && Book(s.calls, t, start, p, k) && Absent(s.active, s.queue, t))
  }

  ghost predicate NotAbout(ms: seq<Message>, t: Timer) { forall m :: m in ms ==> !About(m, t) }

  lemma OfferOther(s: Service, ms: seq<Message>, t: Timer) returns (q: seq<Message>)
    requires NotAbout(ms, t)
    ensures s.Offer(ms) == s.(queue := q) && CommandsFor(q, t) == CommandsFor(s.queue, t)
    decreases |ms|
  {
    q := s.queue;
    if ms != [] {
      CommandsAppend(s.queue, ms[0], t);
      var u := if |s.queue| < s.capacity then s.(queue := s.queue + [ms[0]]) else s;
      assert NotAbout(ms[1..], t) && !About(ms[0], t);
      q := OfferOther(u, ms[1..], t);
    }
  }

  lemma SendTo(s: Service, m: Message, t: Timer) returns (q: seq<Message>)
    ensures s.Send(m) == if |s.queue| < s.capacity then s.(queue := q) else s.(overflowed := true)
    ensures CommandsFor(q, t) == CommandsFor(s.queue, t) + if About(m, t) then [m] else []
  {
    q := s.queue + [m];
    CommandsAppend(s.queue, m, t);
  }

  lemma OutFires(s: Service, t: Timer, start: nat, p: nat, k: nat, u: Timer, due: nat, at: nat, posts: seq<Message>)
    requires Out(s, t, start, p, k) && u != t && due <= at && NotAbout(posts, t)
    ensures Out(s.Fire(u, due, at, posts), t, start, p, k) && s.Fire(u, due, at, posts).active == s.active
  {
    hide Book, WakeOrder, TasksOf, NotAbout;
    if !s.overflowed { BookOther(s.calls, Call(u, due, at), t, start, p, k); }
    var q := OfferOther(s.(calls := s.calls + [Call(u, due, at)]), posts, t);
  }

  lemma OutFiresItself(s: Service, t: Timer, start: nat, p: nat, k: nat, at: nat, posts: seq<Message>)
    requires Out(s, t, start, p, k) && Due(start, p, k + 1) <= at && NotAbout(posts, t)
    ensures Out(s.Fire(t, Due(start, p, k + 1), at, posts), t, start, p, k + 1)
    ensures s.Fire(t, Due(start, p, k + 1), at, posts).active == s.active
  {
    hide Book, WakeOrder, TasksOf, NotAbout, Due;
    var c := Call(t, Due(start, p, k + 1), at);
    if !s.overflowed { BookNext(s.calls, c, t, start, p, k); }
    var q := OfferOther(s.(calls := s.calls + [c]), posts, t);
  }

  lemma OutInserts(s: Service, t: Timer, start: nat, p: nat, k: nat, u: Timer, expiry: nat)
    requires Out(s, t, start, p, k) && (s.overflowed || u !in TasksOf(s.active))
    ensures u != t ==> Out(s.Insert(u, expiry), t, start, p, k)
    ensures u == t && expiry == Due(start, p, k + 1) ==> Tracks(s.Insert(u, expiry), t, start, p, k)
  {
    hide Book, WakeOrder, TasksOf, Due, With, WakePlace;
    if !s.overflowed { InsertTasks(s.active, Sleeper(u, expiry)); }
  }

  lemma OutSends(s: Service, t: Timer, start: nat, p: nat, k: nat, m: Message)
    requires Out(s, t, start, p, k)
    ensures !About(m, t) ==> Out(s.Send(m), t, start, p, k)
    ensures m == Start(t, Due(start, p, k)) ==> Tracks(s.Send(m), t, start, p, k)
  {
    hide Book, WakeOrder, TasksOf, Due;
    var q := SendTo(s, m, t);
  }

  /** The same for a timer that is in the books. */
  lemma TracksFires(s: Service, t: Timer, start: nat, p: nat, k: nat, u: Timer, due: nat, at: nat, posts: seq<Message>)
    requires Tracks(s, t, start, p, k) && u != t && due <= at && NotAbout(posts, t)
    ensures Tracks(s.Fire(u, due, at, posts), t, start, p, k) && s.Fire(u, due, at, posts).active == s.active
  {
    hide Book, WakeOrder, TasksOf, NotAbout, Due;
    if !s.overflowed { BookOther(s.calls, Call(u, due, at), t, start, p, k); }
    var q := OfferOther(s.(calls := s.calls + [Call(u, due, at)]), posts, t);
  }

  lemma TracksInserts(s: Service, t: Timer, start: nat, p: nat, k: nat, u: Timer, expiry: nat)
    requires Tracks(s, t, start, p, k) && (s.overflowed || u !in TasksOf(s.active)) && u != t
    ensures Tracks(s.Insert(u, expiry), t, start, p, k)
  {
    hide Book, WakeOrder, TasksOf, Due, With, WakePlace;
    if !s.overflowed { InsertTasks(s.active, Sleeper(u, expiry)); }
  }

  lemma TracksSends(s: Service, t: Timer, start: nat, p: nat, k: nat, m: Message)
    requires Tracks(s, t, start, p, k) && !About(m, t)
    ensures Tracks(s.Send(m), t, start, p, k)
  {
    hide Book, WakeOrder, TasksOf, Due;
    var q := SendTo(s, m, t);
  }

  /** Taking the first timer off the list. */
  lemma TracksTail(s: Service, t: Timer, start: nat, p: nat, k: nat)
    requires Tracks(s, t, start, p, k) && s.active != []
    ensures s.overflowed || s.active[0].task !in TasksOf(s.active[1..])
    ensures s.active[0].task != t ==> Tracks(s.(active := s.active[1..]), t, start, p, k)
    ensures s.active[0].task == t ==>
      Out(s.(active := s.active[1..]), t, start, p, k) && (s.overflowed || s.active[0].wake == Due(start, p, k + 1))
  {
    hide Book, TasksOf, Due;
    if !s.overflowed {
      TailTasks(s.active);
      TaskIn(s.active[1..], t);
    }
  }

  lemma OutTail(s: Service, t: Timer, start: nat, p: nat, k: nat)
    requires Out(s, t, start, p, k) && s.active != []
    ensures s.overflowed || (s.active[0].task != t && s.active[0].task !in TasksOf(s.active[1..]))
    ensures Out(s.(active := s.active[1..]), t, start, p, k)
  {
    hide Book, TasksOf, Due;
    if !s.overflowed { TailTasks(s.active); }
  }

  // ----- whole steps -----

  ghost predicate NoneAbout(script: seq<seq<Message>>, t: Timer) { forall ms :: ms in script ==> NotAbout(ms, t) }

  lemma SwitchOneTracks(s: Service, t: Timer, start: nat, p: nat, k: nat, end: nat, at: nat, posts: seq<Message>) returns (k': nat)
    requires Tracks(s, t, start, p, k) && NotAbout(posts, t) && s.active != [] && s.active[0].wake <= at
    ensures k <= k' && Tracks(s.SwitchOne(end, at, posts), t, start, p, k')
  {
    hide Book, Waiting, Absent, NotAbout, TasksOf, Due, Service.Fire, Service.Insert, Service.Send;
    var x := s.active[0];
    var u := s.(active := s.active[1..]);
    TracksTail(s, t, start, p, k);
    FireFields(u, x.task, x.wake, at, posts);
    var f := u.Fire(x.task, x.wake, at, posts);
    k' := k;
    if s.overflowed {
      Overflowed(s, end, at, posts);
    } else if x.task != t {
      TracksFires(u, t, start, p, k, x.task, x.wake, at, posts);
      TracksInserts(f, t, start, p, k, x.task, x.wake + At(s.period, x.task));
      TracksSends(f, t, start, p, k, Start(x.task, x.wake));
    } else {
      k' := k + 1;
      OutFiresItself(u, t, start, p, k, at, posts);
      DueStep(start, p, k + 1);
      OutNotActive(f, t, start, p, k + 1);
      OutInserts(f, t, start, p, k + 1, t, x.wake + p);
      OutSends(f, t, start, p, k + 1, Start(t, x.wake));
    }
  }

  lemma FireFields(s: Service, t: Timer, due: nat, at: nat, posts: seq<Message>)
    ensures var r := s.Fire(t, due, at, posts);
      r.overflowed == s.overflowed && r.active == s.active && r.period == s.period && r.auto == s.auto && r.last == s.last && r.ticks == s.ticks
  {
    OfferKeeps(s.(calls := s.calls + [Call(t, due, at)]), posts);
  }

  /** An overflow is never forgotten. */
  lemma Overflowed(s: Service, end: nat, at: nat, posts: seq<Message>)
    requires s.overflowed && s.active != []
    ensures s.SwitchOne(end, at, posts).overflowed && s.ProcessExpired(at, posts).overflowed
  {
    hide Service.Fire;
    var x := s.active[0];
    var u := s.(active := s.active[1..]);
    FireFields(u, x.task, x.wake, at, posts);
    FireFields(u.Insert(x.task, x.wake + At(s.period, x.task)), x.task, x.wake, at, posts);
    FireFields(u.Send(Start(x.task, x.wake)), x.task, x.wake, at, posts);
  }

  lemma {:induction false} OverflowedDrain(s: Service, end: nat, at: nat, script: seq<seq<Message>>)
    requires s.overflowed
    ensures s.Drain(end, at, script).overflowed
    decreases Work(s.active, end)
  {
    hide Service.SwitchOne;
    if s.active != [] && s.active[0].wake < end {
      var posts := if script == [] then [] else script[0];
      Overflowed(s, end, at, posts);
      if Work(s.SwitchOne(end, at, posts).active, end) < Work(s.active, end) {
        OverflowedDrain(s.SwitchOne(end, at, posts), end, at, if script == [] then [] else script[1..]);
      }
    }
  }

  lemma OverflowedCommand(s: Service, time: nat, script: seq<seq<Message>>, posts: seq<Message>)
    requires s.overflowed
    ensures s.CommandStep(time, script, posts).overflowed
  {
    hide Service.Drain, Service.Obey, Wraps, Epoch;
    if s.queue != [] {
      var m, u := s.queue[0], s.(queue := s.queue[1..]);
      var c := if m.Pended? then u else u.Cancel(m.timer);
      OverflowedDrain(c, Epoch(Wraps(time, s.ticks), s.ticks), time, script);
      OverflowedObey(if m.Pended? then u else c.Sample(time, script), m, time, posts);
    }
  }

  lemma OutNotActive(s: Service, t: Timer, start: nat, p: nat, k: nat)
    requires Out(s, t, start, p, k) && !s.overflowed
    ensures t !in TasksOf(s.active)
  {
  }

  lemma SwitchOneOut(s: Service, t: Timer, start: nat, p: nat, k: nat, end: nat, at: nat, posts: seq<Message>)
    requires Out(s, t, start, p, k) && NotAbout(posts, t) && s.active != [] && s.active[0].wake <= at
    ensures Out(s.SwitchOne(end, at, posts), t, start, p, k)
  {
    hide Book, Absent, NotAbout, TasksOf, Due, Service.Fire, Service.Insert, Service.Send;
    var x := s.active[0];
    var u := s.(active := s.active[1..]);
    OutTail(s, t, start, p, k);
    FireFields(u, x.task, x.wake, at, posts);
    var f := u.Fire(x.task, x.wake, at, posts);
    if s.overflowed {
      Overflowed(s, end, at, posts);
    } else {
      OutFires(u, t, start, p, k, x.task, x.wake, at, posts);
      OutInserts(f, t, start, p, k, x.task, x.wake + At(s.period, x.task));
      OutSends(f, t, start, p, k, Start(x.task, x.wake));
    }
  }

  lemma ScriptParts(script: seq<seq<Message>>, t: Timer)
    requires NoneAbout(script, t)
    ensures NotAbout(if script == [] then [] else script[0], t) && NoneAbout(if script == [] then [] else script[1..], t)
  {
  }

  lemma {:induction false} DrainTracks(s: Service, t: Timer, start: nat, p: nat, k: nat, end: nat, at: nat, script: seq<seq<Message>>)
    returns (k': nat)
    requires Tracks(s, t, start, p, k) && NoneAbout(script, t) && end <= at
    ensures k <= k' && Tracks(s.Drain(end, at, script), t, start, p, k')
    decreases Work(s.active, end)
  {
    hide Tracks, NoneAbout, NotAbout, Service.SwitchOne;
    k' := k;
    ScriptParts(script, t);
    if s.active != [] && s.active[0].wake < end {
      k' := SwitchOneTracks(s, t, start, p, k, end, at, if script == [] then [] else script[0]);
      var r := s.SwitchOne(end, at, if script == [] then [] else script[0]);
      if Work(r.active, end) < Work(s.active, end) {
        k' := DrainTracks(r, t, start, p, k', end, at, if script == [] then [] else script[1..]);
      } else {
        k' := k;
      }
    }
  }

  lemma {:induction false} DrainOut(s: Service, t: Timer, start: nat, p: nat, k: nat, end: nat, at: nat, script: seq<seq<Message>>)
    requires Out(s, t, start, p, k) && NoneAbout(script, t) && end <= at
    ensures Out(s.Drain(end, at, script), t, start, p, k)
    decreases Work(s.active, end)
  {
    hide Out, NoneAbout, NotAbout, Service.SwitchOne;
    ScriptParts(script, t);
    if s.active != [] && s.active[0].wake < end {
      SwitchOneOut(s, t, start, p, k, end, at, if script == [] then [] else script[0]);
      var r := s.SwitchOne(end, at, if script == [] then [] else script[0]);
      if Work(r.active, end) < Work(s.active, end) {
        DrainOut(r, t, start, p, k, end, at, if script == [] then [] else script[1..]);
      }
    }
  }

  lemma SampleTracks(s: Service, t: Timer, start: nat, p: nat, k: nat, time: nat, script: seq<seq<Message>>) returns (k': nat)
    requires Tracks(s, t, start, p, k) && NoneAbout(script, t)
    ensures k <= k' && Tracks(s.Sample(time, script), t, start, p, k')
  {
    hide NoneAbout, Service.Drain, Epoch, Wraps, Book, Waiting;
    WrapParts(time, s.ticks);
    k' := k;
    if Wraps(s.last, s.ticks) < Wraps(time, s.ticks) {
      k' := DrainTracks(s, t, start, p, k, Epoch(Wraps(time, s.ticks), s.ticks), time, script);
    }
  }

  lemma SampleOut(s: Service, t: Timer, start: nat, p: nat, k: nat, time: nat, script: seq<seq<Message>>)
    requires Out(s, t, start, p, k) && NoneAbout(script, t)
    ensures Out(s.Sample(time, script), t, start, p, k)
  {
    hide NoneAbout, Service.Drain, Epoch, Wraps, Book, Absent;
    WrapParts(time, s.ticks);
    if Wraps(s.last, s.ticks) < Wraps(time, s.ticks) {
      DrainOut(s, t, start, p, k, Epoch(Wraps(time, s.ticks), s.ticks), time, script);
    }
  }

  lemma ExpiredTracks(s: Service, t: Timer, start: nat, p: nat, k: nat, at: nat, posts: seq<Message>) returns (k': nat)
    requires Tracks(s, t, start, p, k) && NotAbout(posts, t) && s.active != [] && s.active[0].wake <= at
    ensures k <= k' && Tracks(s.ProcessExpired(at, posts), t, start, p, k')
  {
    hide Book, Waiting, Absent, NotAbout, TasksOf, Due, Service.Offer, Service.Insert, Service.Send;
    var x := s.active[0];
    var u := s.(active := s.active[1..]);
    TracksTail(s, t, start, p, k);
    k' := k;
    if s.overflowed {
      Overflowed(s, 0, at, posts);
    } else if x.task != t {
      TracksInserts(u, t, start, p, k, x.task, x.wake + At(s.period, x.task));
      TracksSends(u, t, start, p, k, Start(x.task, x.wake));
      var v := if x.task !in s.auto then u
               else if x.wake + At(s.period, x.task) <= at then u.Send(Start(x.task, x.wake))
               else u.Insert(x.task, x.wake + At(s.period, x.task));
      TracksFires(v, t, start, p, k, x.task, x.wake, at, posts);
    } else {
      k' := k + 1;
      ExpiredItself(s, t, start, p, k, at, posts);
    }
  }

  lemma TracksOffers(s: Service, t: Timer, start: nat, p: nat, k: nat, ms: seq<Message>)
    requires Tracks(s, t, start, p, k) && NotAbout(ms, t)
    ensures Tracks(s.Offer(ms), t, start, p, k)
  {
    hide Book, WakeOrder, TasksOf, Due, NotAbout;
    var q := OfferOther(s, ms, t);
  }

  /** The timer itself expires: its next expiry is filed, or its restart is sent, before its callback is made. */
  lemma ExpiredItself(s: Service, t: Timer, start: nat, p: nat, k: nat, at: nat, posts: seq<Message>)
    requires Tracks(s, t, start, p, k) && !s.overflowed && NotAbout(posts, t)
    requires s.active != [] && s.active[0].wake <= at && s.active[0].task == t
    ensures Tracks(s.ProcessExpired(at, posts), t, start, p, k + 1)
  {
    hide Book, Waiting, NotAbout, TasksOf, Due, Service.Offer, With, WakePlace;
    TracksTail(s, t, start, p, k);
    DueStep(start, p, k + 1);
    var c := Call(t, s.active[0].wake, at);
    var u := s.(active := s.active[1..], calls := s.calls + [c]);
    BookNext(s.calls, c, t, start, p, k);
    assert Out(u, t, start, p, k + 1);
    OutInserts(u, t, start, p, k + 1, t, c.due + p);
    OutSends(u, t, start, p, k + 1, Start(t, c.due));
    var v := if c.due + p <= at then u.Send(Start(t, c.due)) else u.Insert(t, c.due + p);
    TracksOffers(v, t, start, p, k + 1, posts);
    assert s.ProcessExpired(at, posts) == v.Offer(posts);
  }

  lemma TimerStepTracks(s: Service, t: Timer, start: nat, p: nat, k: nat, time: nat, script: seq<seq<Message>>, posts: seq<Message>)
    returns (k': nat)
    requires Tracks(s, t, start, p, k) && NoneAbout(script, t) && NotAbout(posts, t)
    ensures k <= k' && Tracks(s.TimerStep(time, script, posts), t, start, p, k')
  {
    hide Tracks, NoneAbout, NotAbout, Wraps, Service.Sample, Service.ProcessExpired;
    k' := SampleTracks(s, t, start, p, k, time, script);
    var u := s.Sample(time, script);
    if Wraps(s.last, s.ticks) == Wraps(time, s.ticks) && u.active != [] && u.active[0].wake <= time {
      k' := ExpiredTracks(u, t, start, p, k', time, posts);
    }
  }

  lemma {:induction false} DrainShrinks(s: Service, end: nat, at: nat, script: seq<seq<Message>>, u: Timer)
    requires WakeOrder(s.active) && u !in TasksOf(s.active)
    ensures WakeOrder(s.Drain(end, at, script).active) && u !in TasksOf(s.Drain(end, at, script).active)
    decreases Work(s.active, end)
  {
    hide WakeOrder, TasksOf, Service.SwitchOne;
    if s.active != [] && s.active[0].wake < end {
      var posts := if script == [] then [] else script[0];
      SwitchOneShrinks(s, end, at, posts, u);
      if Work(s.SwitchOne(end, at, posts).active, end) < Work(s.active, end) {
        DrainShrinks(s.SwitchOne(end, at, posts), end, at, if script == [] then [] else script[1..], u);
      }
    }
  }

  lemma SwitchOneShrinks(s: Service, end: nat, at: nat, posts: seq<Message>, u: Timer)
    requires WakeOrder(s.active) && u !in TasksOf(s.active) && s.active != []
    ensures WakeOrder(s.SwitchOne(end, at, posts).active) && u !in TasksOf(s.SwitchOne(end, at, posts).active)
  {
    hide WakeOrder, TasksOf, Service.Fire, With, WakePlace;
    var x := s.active[0];
    TailTasks(s.active);
    FireFields(s.(active := s.active[1..]), x.task, x.wake, at, posts);
    InsertTasks(s.active[1..], Sleeper(x.task, x.wake + At(s.period, x.task)));
  }

  /** A command that names another timer. */
  lemma ObeyOther(s: Service, t: Timer, start: nat, p: nat, k: nat, m: Message, time: nat, posts: seq<Message>)
    requires Tracks(s, t, start, p, k) && !About(m, t) && NotAbout(posts, t)
    requires m.Pended? || s.overflowed || m.timer !in TasksOf(s.active)
    ensures Tracks(s.Obey(m, time, posts), t, start, p, k)
  {
    hide Book, Waiting, NotAbout, TasksOf, Due, Service.Fire, Service.Insert, Service.Send, Service.Offer;
    match m {
      case Start(u, from) =>
        var due := from + At(s.period, u);
        TracksInserts(s, t, start, p, k, u, due);
        if due <= time {
          TracksFires(s, t, start, p, k, u, due, time, posts);
          TracksSends(s.Fire(u, due, time, posts), t, start, p, k, Start(u, due));
        }
      case Stop(_) =>
      case Delete(u) => assert Tracks(s.(period := s.period - {u}, auto := s.auto - {u}), t, start, p, k);
      case ChangePeriod(u, q) =>
        var r := s.(period := s.period[u := q]);
        assert Tracks(r, t, start, p, k);
        TracksInserts(r, t, start, p, k, u, time + q);
      case Pended => TracksOffers(s, t, start, p, k, posts);
    }
  }

  /** Its own restart command. */
  lemma ObeyItself(s: Service, t: Timer, start: nat, p: nat, k: nat, time: nat, posts: seq<Message>) returns (k': nat)
    requires Out(s, t, start, p, k) && NotAbout(posts, t)
    ensures k <= k' && Tracks(s.Obey(Start(t, Due(start, p, k)), time, posts), t, start, p, k')
  {
    hide Book, Absent, NotAbout, TasksOf, Due, Service.Fire, Service.Insert, Service.Send;
    var due := Due(start, p, k) + p;
    DueStep(start, p, k);
    k' := k;
    if s.overflowed {
      OverflowedObey(s, Start(t, Due(start, p, k)), time, posts);
      return;
    }
    OutNotActive(s, t, start, p, k);
    OutInserts(s, t, start, p, k, t, due);
    if due <= time {
      k' := k + 1;
      OutFiresItself(s, t, start, p, k, time, posts);
      OutSends(s.Fire(t, due, time, posts), t, start, p, k + 1, Start(t, due));
    }
  }

  lemma CommandStepTracks(s: Service, t: Timer, start: nat, p: nat, k: nat, time: nat, script: seq<seq<Message>>, posts: seq<Message>)
    returns (k': nat)
    requires Tracks(s, t, start, p, k) && NoneAbout(script, t) && NotAbout(posts, t)
    ensures k <= k' && Tracks(s.CommandStep(time, script, posts), t, start, p, k')
  {
    hide Book, NoneAbout, NotAbout, Due, Service.Sample, Service.Obey, Service.Cancel;
    k' := k;
    if s.queue != [] {
      var m, u := s.queue[0], s.(queue := s.queue[1..]);
      if s.overflowed {
        OverflowedCommand(s, time, script, posts);
      } else if About(m, t) {
        HeadCommand(s.queue, t);
        assert m == Start(t, Due(start, p, k)) && t !in TasksOf(s.active) && Out(u, t, start, p, k);
        CancelAbsent(u, t);
        SampleOut(u, t, start, p, k, time, script);
        k' := ObeyItself(u.Sample(time, script), t, start, p, k, time, posts);
      } else {
        assert Tracks(u, t, start, p, k);
        if m.Pended? {
          ObeyOther(u, t, start, p, k, m, time, posts);
        } else {
          k' := CommandOther(u, t, start, p, k, m, time, script, posts);
        }
      }
    }
  }

  lemma HeadCommand(queue: seq<Message>, t: Timer)
    requires queue != [] && About(queue[0], t) && |CommandsFor(queue, t)| <= 1
    ensures CommandsFor(queue, t) == [queue[0]] && CommandsFor(queue[1..], t) == []
  {
    assert CommandsFor(queue, t) == [queue[0]] + CommandsFor(queue[1..], t);
  }

  lemma OverflowedObey(s: Service, m: Message, time: nat, posts: seq<Message>)
    requires s.overflowed
    ensures s.Obey(m, time, posts).overflowed
  {
    OfferKeeps(s, posts);
    if m.Start? { FireFields(s, m.timer, m.time + At(s.period, m.timer), time, posts); }
    hide Service.Fire, Service.Offer;
  }

  lemma CancelAbsent(s: Service, t: Timer)
    requires t !in TasksOf(s.active)
    ensures s.Cancel(t) == s
  {
  }

  lemma CommandOther(s: Service, t: Timer, start: nat, p: nat, k: nat, m: Message, time: nat, script: seq<seq<Message>>, posts: seq<Message>)
    returns (k': nat)
    requires Tracks(s, t, start, p, k) && !s.overflowed && !m.Pended? && m.timer != t && NoneAbout(script, t) && NotAbout(posts, t)
    ensures k <= k' && Tracks(s.Cancel(m.timer).Sample(time, script).Obey(m, time, posts), t, start, p, k')
  {
    hide Book, NoneAbout, NotAbout, Due, Service.Drain, Service.Obey, Wraps, WakeOrder, TasksOf;
    var c := s.Cancel(m.timer);
    CancelTasks(s, m.timer);
    assert Tracks(c, t, start, p, k);
    k' := SampleTracks(c, t, start, p, k, time, script);
    DrainShrinks(c, Epoch(Wraps(time, s.ticks), s.ticks), time, script, m.timer);
    ObeyOther(c.Sample(time, script), t, start, p, k', m, time, posts);
  }

  // ----- whole runs -----

  datatype Step =
    | Post(ms: seq<Message>)                                              // tasks and interrupts send commands
    | Check(time: nat, script: seq<seq<Message>>, posts: seq<Message>)    // prvProcessTimerOrBlockTask
    | Command(time: nat, script: seq<seq<Message>>, posts: seq<Message>)  // one round of prvProcessReceivedCommands

  function Apply(s: Service, step: Step): Service {
    match step
    case Post(ms) => s.Offer(ms)
    case Check(time, script, posts) => s.TimerStep(time, script, posts)
    case Command(time, script, posts) => s.CommandStep(time, script, posts)
  }

  function Run(s: Service, steps: seq<Step>): Service
    decreases |steps|
  {
    if steps == [] then s else Run(Apply(s, steps[0]), steps[1..])
  }

  /** Nobody but the daemon sends a command for `t`. */
  ghost predicate LeavesAlone(step: Step, t: Timer) {
    match step
    case Post(ms) => NotAbout(ms, t)
    case Check(time, script, posts) => NoneAbout(script, t) && NotAbout(posts, t)
    case Command(time, script, posts) => NoneAbout(script, t) && NotAbout(posts, t)
  }

  lemma {:induction false} RunTracks(s: Service, t: Timer, start: nat, p: nat, k: nat, steps: seq<Step>) returns (k': nat)
    requires Tracks(s, t, start, p, k) && forall i :: 0 <= i < |steps| ==> LeavesAlone(steps[i], t)
    ensures k <= k' && Tracks(Run(s, steps), t, start, p, k')
    decreases |steps|
  {
    hide Tracks, NoneAbout, NotAbout, Service.Offer, Service.TimerStep, Service.CommandStep;
    k' := k;
    if steps != [] {
      assert LeavesAlone(steps[0], t);
      match steps[0] {
        case Post(ms) => TracksOffers(s, t, start, p, k, ms);
        case Check(time, script, posts) => k' := TimerStepTracks(s, t, start, p, k, time, script, posts);
        case Command(time, script, posts) => k' := CommandStepTracks(s, t, start, p, k, time, script, posts);
      }
      k' := RunTracks(Apply(s, steps[0]), t, start, p, k', steps[1..]);
    }
  }

  /** The start command of `t`, sent at tick `start`, is in the queue, and `t` has not run before. */
  ghost predicate JustStarted(s: Service, t: Timer, start: nat) {
    && !s.overflowed && Set(s, t, At(s.period, t)) && WakeOrder(s.active) && t !in TasksOf(s.active)
    && CommandsFor(s.queue, t) == [Start(t, start)] && DuesOf(s.calls, t) == [] && forall c :: c in s.calls ==> c.due <= c.at
  }

  ghost predicate Alone(steps: seq<Step>, t: Timer) { forall i :: 0 <= i < |steps| ==> LeavesAlone(steps[i], t) }

  /**
   * The callbacks of `t` so far are exactly those for start + p, start + 2p, ..., each once, in order
   * and not before its tick, as long as no restart command found the queue full; and the next one is
   * on the list or about to be.
   */
  ghost predicate OnTime(r: Service, t: Timer, start: nat, p: nat) {
    !r.overflowed ==>
      var k := |DuesOf(r.calls, t)|;
      && DuesOf(r.calls, t) == seq(k, i requires 0 <= i < k => Due(start, p, i + 1))
      && (forall c :: c in r.calls ==> c.due <= c.at)
      && Waiting(r.active, r.queue, t, start, p, k)
  }

  /**
   * In unbounded time an auto-reload timer keeps its schedule however late the daemon runs and
   * whatever other timers and commands it serves.
   */
  lemma OnSchedule(s: Service, t: Timer, start: nat, steps: seq<Step>)
    requires JustStarted(s, t, start) && Alone(steps, t)
    ensures OnTime(Run(s, steps), t, start, At(s.period, t))
  {
    hide Waiting, WakeOrder, Run;
    var p := At(s.period, t);
    FirstTracked(s, t, start, p);
    var k := RunTracks(s, t, start, p, 0, steps);
  }

  lemma FirstTracked(s: Service, t: Timer, start: nat, p: nat)
    requires JustStarted(s, t, start) && p == At(s.period, t)
    ensures Tracks(s, t, start, p, 0)
  {
    assert Due(start, p, 0) == start;
  }

  /** When the daemon has nothing left to do for `t`, every expiry up to the last sample has had its callback. */
  lemma NoneMissed(s: Service, t: Timer, start: nat, p: nat, k: nat, j: nat)
    requires Waiting(s.active, s.queue, t, start, p, k) && CommandsFor(s.queue, t) == []
    requires s.active == [] || s.last < s.active[0].wake
    requires Due(start, p, j) <= s.last
    ensures j <= k
  {
    TaskIn(s.active, t);
    var x := Sleeper(t, Due(start, p, k + 1));
    var i := IndexOf(s.active, x);
    if j > k { DueGrows(start, p, k + 1, j); }
  }

  lemma {:induction false} DueGrows(start: nat, p: nat, j: nat, k: nat)
    requires j <= k
    ensures Due(start, p, j) <= Due(start, p, k)
    decreases k
  {
    if j < k {
      DueStep(start, p, k - 1);
      DueGrows(start, p, j, k - 1);
    }
    hide Due;
  }
}
