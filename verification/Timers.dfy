/**
 * timers.c in its own form: a daemon that keeps its active timers in two lists of wrapping expiry
 * values and compares wrapped times.  Proved against `TimerService`, where time does not wrap.
 */
module Timers {
  import opened Rings
  import opened Clock
  import opened Timeline
  import opened TwoLists
  import opened TimerService

  // ----- the modular comparisons -----

  /** The branches of `prvInsertTimerInActiveList` that say "process now". */
  predicate ProcessNow(nextExpiry: nat, now: nat, commandTime: nat, period: nat, ticks: Modulus)
    requires now < ticks && commandTime < ticks
  {
    if nextExpiry <= now then Minus(now, commandTime, ticks) >= period else now < commandTime && commandTime <= nextExpiry
  }

  /** What the branches amount to: has one period passed, within one range, since the reference time? */
  lemma ProcessNowIs(now: nat, from: nat, period: nat, ticks: Modulus)
    requires now < ticks && from < ticks && 0 < period < ticks
    ensures ProcessNow(Wrap(from + period, ticks), now, from, period, ticks) <==> period <= Minus(now, from, ticks)
  {
    WrapSmall(from, ticks);
    WrapAdd(from, period, ticks);
  }

  /**
   * For a reference time that has come, the branches are right exactly when it is less than one
   * range old, or as good as that: old by whole ranges and at least one period.
   */
  lemma ProcessNowIsExact(from: nat, period: nat, now: nat, ticks: Modulus)
    requires 0 < period < ticks && from <= now
    ensures var process := ProcessNow(Wrap(from + period, ticks), Wrap(now, ticks), Wrap(from, ticks), period, ticks);
      && (process <==> period <= Wrap(now - from, ticks))
      && ((process <==> from + period <= now) <==> now < from + ticks || period <= Wrap(now - from, ticks))
  {
    ProcessNowIs(Wrap(now, ticks), Wrap(from, ticks), period, ticks);
    WrapPlus(from, period, ticks);
    MinusIsWrapped(now, from, ticks);
    if now < from + ticks { WrapSmall(now - from, ticks); }
    hide Wrap, ProcessNow;
  }

  /** The unbounded time at which a timer that is not processed now is filed: the next with that wrapped value. */
  function FiledAt(expiry: nat, now: nat, ticks: Modulus): nat {
    Epoch(Wraps(now, ticks) + (if Wrap(expiry, ticks) <= Wrap(now, ticks) then 1 else 0), ticks) + Wrap(expiry, ticks)
  }

  /**
   * The timer is processed at once exactly when its expiry has passed, and otherwise filed at its
   * expiry, if and only if its reference time has come and is less than one range old, or as good.
   */
  lemma InsertIsExact(from: nat, period: nat, now: nat, ticks: Modulus)
    requires 0 < period < ticks
    ensures var expiry := from + period;
      var process := ProcessNow(Wrap(expiry, ticks), Wrap(now, ticks), Wrap(from, ticks), period, ticks);
      (if expiry <= now then process else !process && FiledAt(expiry, now, ticks) == expiry) <==>
      from <= now && (now < from + ticks || period <= Wrap(now - from, ticks))
  {
    hide *;
    if from > now {
      if !ProcessNow(Wrap(from + period, ticks), Wrap(now, ticks), Wrap(from, ticks), period, ticks) { EarlyInsert(from, period, now, ticks); }
    } else if now < from + period {
      ProcessNowIsExact(from, period, now, ticks);
      FiledNear(from + period, now, ticks);
    } else {
      ProcessNowIsExact(from, period, now, ticks);
    }
  }

  lemma FiledAtParts(expiry: nat, now: nat, ticks: Modulus)
    ensures FiledAt(expiry, now, ticks) ==
      Epoch(Wraps(now, ticks) + (if Wrap(expiry, ticks) <= Wrap(now, ticks) then 1 else 0), ticks) + Wrap(expiry, ticks)
  {
  }

  /** When the tick count reads less than at the last sample it has wrapped: so it has, once, or not at all, exactly within one range. */
  lemma SampleIsExact(last: nat, time: nat, ticks: Modulus)
    requires last <= time
    ensures Wraps(time, ticks) == Wraps(last, ticks) + (if Wrap(time, ticks) < Wrap(last, ticks) then 1 else 0) <==> time < last + ticks
  {
    if time < last + ticks { MinusIsExact(time, last, ticks); }
    WrapParts(last, ticks);
    WrapParts(time, ticks);
    EpochStep(Wraps(last, ticks), ticks);
    hide Wrap, Wraps, Epoch;
  }

  lemma FiledAtIs(expiry: nat, now: nat, ticks: Modulus)
    ensures now < FiledAt(expiry, now, ticks) <= now + ticks
    ensures Wrap(FiledAt(expiry, now, ticks), ticks) == Wrap(expiry, ticks)
  {
    var k := Wraps(now, ticks);
    WrapParts(now, ticks);
    EpochStep(k, ticks);
    WrapUnique(FiledAt(expiry, now, ticks), k + (if Wrap(expiry, ticks) <= Wrap(now, ticks) then 1 else 0), Wrap(expiry, ticks), ticks);
    hide Wrap, Wraps, Epoch;
  }

  lemma FiledNear(expiry: nat, now: nat, ticks: Modulus)
    requires now < expiry < now + ticks
    ensures FiledAt(expiry, now, ticks) == expiry
  {
    WrapParts(expiry, ticks);
    MinusIsExact(expiry, now, ticks);
    hide Wrap, Wraps, Epoch;
  }

  /** With a reference time that is still ahead the timer is processed or filed at the wrong time. */
  lemma EarlyInsert(from: nat, period: nat, now: nat, ticks: Modulus)
    requires 0 < period < ticks && now < from
    requires !ProcessNow(Wrap(from + period, ticks), Wrap(now, ticks), Wrap(from, ticks), period, ticks)
    ensures FiledAt(from + period, now, ticks) != from + period
  {
    FiledAtIs(from + period, now, ticks);
    ProcessNowIs(Wrap(now, ticks), Wrap(from, ticks), period, ticks);
    WrapPlus(from, period, ticks);
    if FiledAt(from + period, now, ticks) == from + period {
      WrapSmall(from - now, ticks);
      MinusIsWrapped(from, now, ticks);
      MinusIsOpposite(Wrap(now, ticks), Wrap(from, ticks), ticks);
    }
    hide Wrap, ProcessNow, FiledAt;
  }

  /** Reached: with a reference one whole range old, an expiry that passed long ago is filed as if it were to come. */
  lemma InsertTooLate(period: nat, ticks: Modulus)
    requires 0 < period < ticks
    ensures !ProcessNow(Wrap(period, ticks), Wrap(ticks, ticks), Wrap(0, ticks), period, ticks)
  {
    WrapSmall(0, ticks);
    WrapSmall(period, ticks);
    WrapUnique(ticks, 1, 0, ticks);
  }

  // ----- the two timer lists as one -----

  ghost predicate Both(cs: seq<Timer>, os: seq<Timer>, value: map<Timer, nat>, ticks: Modulus) {
    && ByValue(cs, value) && ByValue(os, value) && NoDup(cs) && NoDup(os)
    && (forall t :: t in cs ==> t !in os) && (forall t :: t in cs || t in os ==> At(value, t) < ticks)
  }

  function ActiveOf(cs: seq<Timer>, os: seq<Timer>, value: map<Timer, nat>, epoch: nat, ticks: Modulus): seq<Sleeper> {
    Wakes(cs, value, Epoch(epoch, ticks)) + Wakes(os, value, Epoch(epoch + 1, ticks))
  }

  lemma ActiveIs(cs: seq<Timer>, os: seq<Timer>, value: map<Timer, nat>, epoch: nat, ticks: Modulus)
    ensures ActiveOf(cs, os, value, epoch, ticks) ==
            Wakes(cs, value, Epoch(epoch, ticks)) + Wakes(os, value, Epoch(epoch + 1, ticks))
  {
  }

  function Filing(active: seq<Sleeper>, x: Sleeper): seq<Sleeper> { With(active, WakePlace(active, x.wake), x) }

  lemma FilingIs(active: seq<Sleeper>, x: Sleeper)
    ensures Filing(active, x) == With(active, WakePlace(active, x.wake), x)
  {
  }

  lemma BothFiled(cs: seq<Timer>, os: seq<Timer>, value: map<Timer, nat>, t: Timer, w: nat, ticks: Modulus)
    requires Both(cs, os, value, ticks) && t !in cs && t !in os && w < ticks
    ensures Both(cs, os, value[t := w], ticks)
    ensures Both(Filed(cs, value[t := w], w, t), os, value[t := w], ticks)
    ensures Both(cs, Filed(os, value[t := w], w, t), value[t := w], ticks)
    ensures Filed(cs, value[t := w], w, t) == Filed(cs, value, w, t) && Filed(os, value[t := w], w, t) == Filed(os, value, w, t)
  {
    SameByValue(cs, t, value, w);
    SameByValue(os, t, value, w);
    FiledByValue(cs, value, t, w);
    FiledByValue(os, value, t, w);
    hide ByValue, NoDup, ValuesOf, InsertPlace, With;
  }

  lemma FiledByValue(ts: seq<Timer>, value: map<Timer, nat>, t: Timer, w: nat)
    requires ByValue(ts, value) && NoDup(ts) && t !in ts
    ensures ByValue(Filed(ts, value, w, t), value[t := w]) && NoDup(Filed(ts, value, w, t))
    ensures forall u :: u in Filed(ts, value, w, t) <==> u == t || u in ts
  {
    var k := InsertPlace(ValuesOf(ts, value), w);
    FiledIs(ts, value, w, t);
    WithByValue(ts, t, value, w);
    WithNoDup(ts, k, t);
    WithMembers(ts, k, t);
    hide With, ByValue, NoDup, ValuesOf, Filed;
  }

  lemma FiledListed(ts: seq<Timer>, value: map<Timer, nat>, t: Timer, w: nat)
    ensures forall u :: u in Filed(ts, value, w, t) <==> u == t || u in ts
  {
    FiledIs(ts, value, w, t);
    WithMembers(ts, InsertPlace(ValuesOf(ts, value), w), t);
    hide With, Filed, ValuesOf, InsertPlace;
  }

  lemma ActiveSoon(cs: seq<Timer>, os: seq<Timer>, value: map<Timer, nat>, epoch: nat, ticks: Modulus, t: Timer, w: nat)
    requires Both(cs, os, value, ticks) && t !in cs && t !in os && w < ticks
    ensures ActiveOf(Filed(cs, value, w, t), os, value[t := w], epoch, ticks) ==
            Filing(ActiveOf(cs, os, value, epoch, ticks), Sleeper(t, Epoch(epoch, ticks) + w))
  {
    hide *;
    var a, e := Epoch(epoch, ticks), Epoch(epoch + 1, ticks);
    EpochStep(epoch, ticks);
    FiledIs(cs, value, w, t);
    FileSoon(cs, os, value, a, e, t, w);
    ActiveIs(cs, os, value, epoch, ticks);
    ActiveIs(Filed(cs, value, w, t), os, value[t := w], epoch, ticks);
    FilingIs(ActiveOf(cs, os, value, epoch, ticks), Sleeper(t, a + w));
  }

  lemma ActiveLate(cs: seq<Timer>, os: seq<Timer>, value: map<Timer, nat>, epoch: nat, ticks: Modulus, t: Timer, w: nat)
    requires Both(cs, os, value, ticks) && t !in cs && t !in os && w < ticks
    ensures ActiveOf(cs, Filed(os, value, w, t), value[t := w], epoch, ticks) ==
            Filing(ActiveOf(cs, os, value, epoch, ticks), Sleeper(t, Epoch(epoch + 1, ticks) + w))
  {
    hide *;
    var a, e := Epoch(epoch, ticks), Epoch(epoch + 1, ticks);
    EpochStep(epoch, ticks);
    BothBound(cs, os, value, ticks);
    FiledIs(os, value, w, t);
    FileLate(cs, os, value, a, e, t, w);
    ActiveIs(cs, os, value, epoch, ticks);
    ActiveIs(cs, Filed(os, value, w, t), value[t := w], epoch, ticks);
    FilingIs(ActiveOf(cs, os, value, epoch, ticks), Sleeper(t, e + w));
  }

  lemma BothBound(cs: seq<Timer>, os: seq<Timer>, value: map<Timer, nat>, ticks: Modulus)
    requires Both(cs, os, value, ticks)
    ensures forall t :: t in cs ==> At(value, t) <= ticks
    ensures cs != [] ==> At(value, cs[0]) < ticks
  {
    if cs != [] { assert cs[0] in cs; }
  }

  /** A value of a timer in neither list does not matter. */
  lemma ActiveIgnores(cs: seq<Timer>, os: seq<Timer>, value: map<Timer, nat>, epoch: nat, ticks: Modulus, t: Timer, w: nat)
    requires t !in cs && t !in os
    ensures ActiveOf(cs, os, value[t := w], epoch, ticks) == ActiveOf(cs, os, value, epoch, ticks)
  {
    WakesWith(cs, value, Epoch(epoch, ticks), t, 0, w);
    WakesWith(os, value, Epoch(epoch + 1, ticks), t, 0, w);
    hide Epoch, Wakes;
  }

  lemma ActiveHead(cs: seq<Timer>, os: seq<Timer>, value: map<Timer, nat>, epoch: nat, ticks: Modulus)
    requires Both(cs, os, value, ticks) && cs != []
    ensures var active := ActiveOf(cs, os, value, epoch, ticks);
      && active != [] && active[0] == Sleeper(cs[0], Epoch(epoch, ticks) + At(value, cs[0]))
      && active[0].wake < Epoch(epoch + 1, ticks)
      && ActiveOf(cs[1..], os, value, epoch, ticks) == active[1..]
    ensures Both(cs[1..], os, value, ticks) && cs[0] !in cs[1..] && cs[0] !in os
  {
    BothBound(cs, os, value, ticks);
    EpochStep(epoch, ticks);
    WakesTail(cs, value, Epoch(epoch, ticks), Wakes(os, value, Epoch(epoch + 1, ticks)));
    assert cs[0] in cs;
    hide Epoch, Wakes;
  }

  lemma ActiveNone(os: seq<Timer>, value: map<Timer, nat>, epoch: nat, ticks: Modulus)
    ensures ActiveOf([], os, value, epoch, ticks) == ActiveOf(os, [], value, epoch + 1, ticks)
    ensures var active := ActiveOf([], os, value, epoch, ticks); active != [] ==> Epoch(epoch + 1, ticks) <= active[0].wake
  {
    assert Wakes([], value, Epoch(epoch, ticks)) == [] && Wakes([], value, Epoch(epoch + 2, ticks)) == [];
    hide Epoch;
  }

  lemma ActiveDrop(cs: seq<Timer>, os: seq<Timer>, value: map<Timer, nat>, epoch: nat, ticks: Modulus, t: Timer)
    requires Both(cs, os, value, ticks)
    ensures Both(Dropped(cs, t), Dropped(os, t), value, ticks) && t !in Dropped(cs, t) && t !in Dropped(os, t)
    ensures ActiveOf(Dropped(cs, t), Dropped(os, t), value, epoch, ticks) == DroppedSleeper(ActiveOf(cs, os, value, epoch, ticks), t)
  {
    BothDrop(cs, os, value, ticks, t);
    hide Dropped, DroppedSleeper, Wakes, Epoch, ByValue, NoDup;
    DropWakes(cs, os, value, Epoch(epoch, ticks), Epoch(epoch + 1, ticks), t);
  }

  lemma BothDrop(cs: seq<Timer>, os: seq<Timer>, value: map<Timer, nat>, ticks: Modulus, t: Timer)
    requires Both(cs, os, value, ticks)
    ensures Both(Dropped(cs, t), Dropped(os, t), value, ticks) && t !in Dropped(cs, t) && t !in Dropped(os, t)
    ensures t in cs ==> t !in os
  {
    DroppedFacts(cs, value, t);
    DroppedFacts(os, value, t);
    hide Dropped, ByValue, NoDup;
  }

  // ----- the command queue -----

  datatype Id = START | STOP | CHANGE_PERIOD | DELETE | PENDED_CALL

  /** DaemonTaskMessage_t, whose times are TickType_t values. */
  datatype DaemonMessage = DaemonMessage(id: Id, timer: Timer, value: nat)

  function Encode(m: Message, ticks: Modulus): DaemonMessage {
    match m
    case Start(t, time) => DaemonMessage(START, t, Wrap(time, ticks))
    case Stop(t) => DaemonMessage(STOP, t, 0)
    case Delete(t) => DaemonMessage(DELETE, t, 0)
    case ChangePeriod(t, p) => DaemonMessage(CHANGE_PERIOD, t, p)
    case Pended => DaemonMessage(PENDED_CALL, 0, 0)
  }

  function Encoded(ms: seq<Message>, ticks: Modulus): seq<DaemonMessage> {
    seq(|ms|, i requires 0 <= i < |ms| => Encode(ms[i], ticks))
  }

  lemma EncodedParts(ms: seq<Message>, m: Message, ticks: Modulus)
    ensures Encoded(ms + [m], ticks) == Encoded(ms, ticks) + [Encode(m, ticks)]
    ensures ms != [] ==> Encoded(ms[1..], ticks) == Encoded(ms, ticks)[1..] && Encoded(ms, ticks)[0] == Encode(ms[0], ticks)
    ensures |Encoded(ms, ticks)| == |ms|
  {
  }

  ghost predicate Periods(period: map<Timer, nat>, auto: set<Timer>, ticks: Modulus) {
    (forall t :: t in period ==> 0 < period[t] < ticks) && forall t :: t in auto ==> t in period
  }

  lemma SwitchOneIs(s: Service, end: nat, at: nat, posts: seq<Message>)
    requires s.active != []
    ensures var x, f := s.active[0], s.(active := s.active[1..]).Fire(s.active[0].task, s.active[0].wake, at, posts);
      s.SwitchOne(end, at, posts) ==
      if x.task !in s.auto then f
      else if x.wake + At(s.period, x.task) < end then f.(active := Filing(f.active, Sleeper(x.task, x.wake + At(s.period, x.task))))
      else f.Send(Start(x.task, x.wake))
  {
    FireFields(s.(active := s.active[1..]), s.active[0].task, s.active[0].wake, at, posts);
    hide Service.Fire, Service.Send;
  }

  lemma DrainStep(s: Service, end: nat, at: nat, script: seq<seq<Message>>)
    ensures s.active == [] || end <= s.active[0].wake ==> s.Drain(end, at, script) == s
    ensures s.active != [] && s.active[0].wake < end && (s.active[0].task in s.auto ==> At(s.period, s.active[0].task) > 0) ==>
      var r := s.SwitchOne(end, at, if script == [] then [] else script[0]);
      Work(r.active, end) < Work(s.active, end) &&
      s.Drain(end, at, script) == r.Drain(end, at, if script == [] then [] else script[1..])
  {
    hide Service.SwitchOne;
    if s.active != [] && s.active[0].wake < end && (s.active[0].task in s.auto ==> At(s.period, s.active[0].task) > 0) {
      SwitchWorks(s, end, at, if script == [] then [] else script[0]);
    }
  }

  /** Does the reload fall into the same epoch?  Its wrapped value says so. */
  lemma ReloadEpoch(v: nat, p: nat, epoch: nat, ticks: Modulus)
    requires v < ticks && 0 < p < ticks
    ensures v < Wrap(v + p, ticks) <==> Epoch(epoch, ticks) + v + p < Epoch(epoch + 1, ticks)
    ensures v < Wrap(v + p, ticks) ==> Wrap(v + p, ticks) == v + p
    ensures Wrap(Epoch(epoch, ticks) + v, ticks) == v && Wraps(Epoch(epoch, ticks) + v, ticks) == epoch
    ensures Wrap(Epoch(epoch, ticks) + v + p, ticks) == Wrap(v + p, ticks)
  {
    EpochStep(epoch, ticks);
    WrapSmall(v, ticks);
    WrapAdd(v, p, ticks);
    WrapUnique(Epoch(epoch, ticks) + v, epoch, v, ticks);
    WrapAdd(Epoch(epoch, ticks) + v, p, ticks);
    hide Wrap, Wraps, Epoch;
  }

  lemma ProcessExpiredIs(s: Service, at: nat, posts: seq<Message>)
    requires s.active != []
    ensures var x, u := s.active[0], s.(active := s.active[1..]);
      var v := if x.task !in s.auto then u
               else if x.wake + At(s.period, x.task) <= at then u.Send(Start(x.task, x.wake))
               else u.Insert(x.task, x.wake + At(s.period, x.task));
      s.ProcessExpired(at, posts) == v.Fire(x.task, x.wake, at, posts)
  {
    hide Service.Fire, Service.Send, Service.Insert;
  }

  lemma InsertIs(s: Service, t: Timer, expiry: nat)
    ensures s.Insert(t, expiry) == s.(active := Filing(s.active, Sleeper(t, expiry)))
  {
    hide With, WakePlace;
  }

  lemma OverflowActive(os: seq<Timer>, value: map<Timer, nat>, epoch: nat, ticks: Modulus)
    ensures ActiveOf([], os, value, epoch, ticks) == [] <==> os == []
  {
    WakesLength(os, value, Epoch(epoch + 1, ticks));
    WakesLength([], value, Epoch(epoch, ticks));
    hide Wakes, Epoch;
  }

  lemma ObeyPended(s: Service, time: nat, posts: seq<Message>)
    ensures s.Obey(Pended, time, posts) == s.Offer(posts)
  {
    hide Service.Offer;
  }

  lemma ObeyStart(s: Service, t: Timer, from: nat, time: nat, posts: seq<Message>)
    ensures var due := from + At(s.period, t);
      s.Obey(Start(t, from), time, posts) ==
      if time < due then s.Insert(t, due)
      else if t in s.auto then s.Fire(t, due, time, posts).Send(Start(t, due)) else s.Fire(t, due, time, posts)
  {
    hide Service.Fire, Service.Send, Service.Insert;
  }

  lemma ObeyStop(s: Service, m: Message, time: nat, posts: seq<Message>)
    requires m.Stop?
    ensures s.Obey(m, time, posts) == s
  {
  }

  lemma ObeyDelete(s: Service, t: Timer, time: nat, posts: seq<Message>)
    ensures s.Obey(Delete(t), time, posts) == s.(period := s.period - {t}, auto := s.auto - {t})
  {
  }

  lemma ObeyChange(s: Service, t: Timer, p: nat, time: nat, posts: seq<Message>)
    ensures s.Obey(ChangePeriod(t, p), time, posts) == s.(period := s.period[t := p]).Insert(t, time + p)
  {
    hide Service.Insert;
  }

  lemma CommandIs(s: Service, time: nat, script: seq<seq<Message>>, posts: seq<Message>)
    requires s.queue != []
    ensures var m, u := s.queue[0], s.(queue := s.queue[1..]);
      s.CommandStep(time, script, posts) ==
      if m.Pended? then u.Obey(m, time, posts) else u.Cancel(m.timer).Sample(time, script).Obey(m, time, posts)
  {
    hide Service.Obey, Service.Sample, Service.Cancel;
  }

  /** The command is timely: it names a timer that exists, is less than one range old, and has a period below the range. */
  ghost predicate Timely(m: Message, period: map<Timer, nat>, time: nat, ticks: Modulus) {
    match m
    case Start(t, from) => t in period && from <= time < from + ticks
    case Stop(t) => t in period
    case Delete(t) => t in period
    case ChangePeriod(t, p) => t in period && 0 < p < ticks
    case Pended => true
  }

  /** The daemon samples the time within one range of the last sample, and what it obeys is timely. */
  ghost predicate TimelyStep(s: Service, step: Step) {
    match step
    case Post(ms) => true
    case Check(time, script, posts) => s.last <= time < s.last + s.ticks
    case Command(time, script, posts) =>
      s.queue != [] ==> s.last <= time < s.last + s.ticks && Timely(s.queue[0], s.period, time, s.ticks)
  }

  ghost predicate TimelyRun(s: Service, steps: seq<Step>)
    decreases |steps|
  {
    steps == [] || (TimelyStep(s, steps[0]) && TimelyRun(Apply(s, steps[0]), steps[1..]))
  }

  /** One command: when it is served, and what callbacks send meanwhile. */
  datatype Round = Round(time: nat, script: seq<seq<Message>>, posts: seq<Message>)

  function Commands(rounds: seq<Round>): seq<Step> {
    seq(|rounds|, i requires 0 <= i < |rounds| => Command(rounds[i].time, rounds[i].script, rounds[i].posts))
  }

  lemma RoundsStart(rounds: seq<Round>)
    ensures rounds[0..] == rounds && rounds[..0] == [] && Commands([]) == []
  {
  }

  /** Serving one more round. */
  lemma NextRound(s: Service, rounds: seq<Round>, n: nat)
    requires n < |rounds| && TimelyRun(Run(s, Commands(rounds[..n])), Commands(rounds[n..]))
    ensures var u, step := Run(s, Commands(rounds[..n])), Command(rounds[n].time, rounds[n].script, rounds[n].posts);
      && TimelyStep(u, step) && Run(s, Commands(rounds[..n + 1])) == Apply(u, step)
      && TimelyRun(Apply(u, step), Commands(rounds[n + 1..]))
  {
    hide TimelyStep, Apply;
    var step := Command(rounds[n].time, rounds[n].script, rounds[n].posts);
    assert Commands(rounds[n..])[0] == step && Commands(rounds[n..])[1..] == Commands(rounds[n + 1..]);
    assert Commands(rounds[..n + 1]) == Commands(rounds[..n]) + [step];
    RunSnoc(s, Commands(rounds[..n]), step);
  }

  lemma {:induction false} RunSnoc(s: Service, steps: seq<Step>, step: Step)
    ensures Run(s, steps + [step]) == Apply(Run(s, steps), step)
    decreases |steps|
  {
    hide Apply;
    if steps == [] {
      assert steps + [step] == [step] && Run(s, [step]) == Run(Apply(s, step), []);
    } else {
      assert (steps + [step])[1..] == steps[1..] + [step];
      RunSnoc(Apply(s, steps[0]), steps[1..], step);
    }
  }

  lemma NoCommand(s: Service, time: nat, script: seq<seq<Message>>, posts: seq<Message>)
    ensures s.queue == [] ==> s.CommandStep(time, script, posts) == s
  {
    hide Service.Obey, Service.Sample, Service.Cancel;
  }

  lemma NotThisEpoch(x: nat, k: nat, ticks: Modulus)
    requires Epoch(k + 1, ticks) <= x
    ensures Wraps(x, ticks) != k
  {
    WrapParts(x, ticks);
    EpochStep(k, ticks);
    hide Wrap, Wraps, Epoch;
  }

  /**
   * When a limited wait of the daemon that begins at `time` ends: at the first expiry `wake` if that
   * lies in the present epoch, and else when the epoch ends, so that the lists can be switched.  At
   * tick count zero that wait is of zero ticks.
   */
  function WaitEnds(time: nat, wake: nat, ticks: Modulus): nat {
    if Wraps(wake, ticks) == Wraps(time, ticks) then wake
    else if Wrap(time, ticks) == 0 then time
    else Epoch(Wraps(time, ticks) + 1, ticks)
  }

  /**
   * A limited wait ends in time for the next expiry, and ends at once exactly at tick count zero with
   * nothing to expire in the new epoch: then it does not last until the count overflows.
   */
  lemma WaitEndsInTime(time: nat, wake: nat, ticks: Modulus)
    requires time < wake
    ensures time <= WaitEnds(time, wake, ticks) <= wake
    ensures WaitEnds(time, wake, ticks) == time <==> Wrap(time, ticks) == 0 && Wraps(wake, ticks) != Wraps(time, ticks)
  {
    WrapParts(time, ticks);
    WrapParts(wake, ticks);
    EpochStep(Wraps(time, ticks), ticks);
    EpochOrder(Wraps(wake, ticks), Wraps(time, ticks), ticks);
    EpochOrder(Wraps(time, ticks) + 1, Wraps(wake, ticks), ticks);
    hide Wrap, Wraps, Epoch;
  }

  class TimerDaemon {
    const ticks: Modulus
    const capacity: nat
    var pxCurrentTimerList: seq<Timer>
    var pxOverflowTimerList: seq<Timer>
    var value: map<Timer, nat>
    var xTimerPeriodInTicks: map<Timer, nat>
    var uxAutoReload: set<Timer>
    var xTimerQueue: seq<DaemonMessage>
    var xLastTime: nat
    ghost var last: nat               // the time that xLastTime stands for
    ghost var pending: seq<Message>   // the commands that xTimerQueue holds
    ghost var calls: seq<Call>
    ghost var overflowed: bool

    /** The daemon before its first sample, with timers of the given periods that have been created. */
    constructor (ticks: Modulus, capacity: nat, period: map<Timer, nat>, auto: set<Timer>)
      requires Periods(period, auto, ticks)
      ensures Valid() && State() == Service(ticks, capacity, 0, [], [], period, auto, [], false)
    {
      this.ticks, this.capacity := ticks, capacity;
      pxCurrentTimerList, pxOverflowTimerList, value := [], [], map[];
      xTimerPeriodInTicks, uxAutoReload, xTimerQueue, xLastTime := period, auto, [], 0;
      last, pending, calls, overflowed := 0, [], [], false;
      new;
      WrapSmall(0, ticks);
      OverflowActive([], value, Wraps(0, ticks), ticks);
    }

    ghost function State(): Service
      reads this
    {
      Service(ticks, capacity, last, ActiveOf(pxCurrentTimerList, pxOverflowTimerList, value, Wraps(last, ticks), ticks),
              pending, xTimerPeriodInTicks, uxAutoReload, calls, overflowed)
    }

    ghost predicate Core()
      reads this
    {
      && Both(pxCurrentTimerList, pxOverflowTimerList, value, ticks) && xTimerQueue == Encoded(pending, ticks)
      && Periods(xTimerPeriodInTicks, uxAutoReload, ticks)
    }

    ghost predicate Valid()
      reads this
    {
      Core() && xLastTime == Wrap(last, ticks)
    }

    ghost predicate Unlisted(t: Timer)
      reads this
    {
      t !in pxCurrentTimerList && t !in pxOverflowTimerList
    }

    ghost function Listed(): set<Timer>
      reads this
    {
      (set t | t in pxCurrentTimerList) + (set t | t in pxOverflowTimerList)
    }

    /** `xTimerGenericCommand`; the command `c` encodes `m`. */
    method GenericCommand(c: DaemonMessage, ghost m: Message) returns (sent: bool)
      requires xTimerQueue == Encoded(pending, ticks) && c == Encode(m, ticks)
      modifies this`xTimerQueue, this`pending
      ensures xTimerQueue == Encoded(pending, ticks) && sent == (|old(pending)| < capacity)
      ensures pending == if sent then old(pending) + [m] else old(pending)
    {
      EncodedParts(pending, m, ticks);
      hide Encode, Encoded;
      sent := |xTimerQueue| < capacity;
      if sent {
        xTimerQueue := xTimerQueue + [c];
        pending := pending + [m];
      }
    }

    /** A restart command of the daemon itself, which must find room. */
    method Restart(t: Timer, commandTime: nat, ghost time: nat)
      requires xTimerQueue == Encoded(pending, ticks) && commandTime == Wrap(time, ticks)
      modifies this`xTimerQueue, this`pending, this`overflowed
      ensures xTimerQueue == Encoded(pending, ticks) && State() == old(State()).Send(Start(t, time))
    {
      hide Encoded, ActiveOf, Wraps;
      var sent := GenericCommand(DaemonMessage(START, t, commandTime), Start(t, time));
      overflowed := overflowed || !sent;
    }

    /** Commands that tasks, interrupts or a callback send. */
    method Post(ms: seq<Message>)
      requires xTimerQueue == Encoded(pending, ticks)
      modifies this`xTimerQueue, this`pending
      ensures xTimerQueue == Encoded(pending, ticks) && State() == old(State()).Offer(ms)
      decreases |ms|
    {
      hide Encoded, Encode, ActiveOf, Wraps;
      if ms != [] {
        var sent := GenericCommand(Encode(ms[0], ticks), ms[0]);
        Post(ms[1..]);
      }
    }

    /** `pxCallbackFunction`, with the commands it sends. */
    method Callback(t: Timer, ghost due: nat, ghost at: nat, posts: seq<Message>)
      requires xTimerQueue == Encoded(pending, ticks)
      modifies this`xTimerQueue, this`pending, this`calls
      ensures xTimerQueue == Encoded(pending, ticks) && State() == old(State()).Fire(t, due, at, posts)
    {
      hide Encoded, ActiveOf, Wraps;
      calls := calls + [Call(t, due, at)];
      Post(posts);
    }

    /** `vListInsert` of timer `t` with expiry value `w` into one of the lists, whose epoch is `epoch`. */
    method FileTimer(t: Timer, w: nat, overflow: bool)
      requires Both(pxCurrentTimerList, pxOverflowTimerList, value, ticks) && Unlisted(t) && w < ticks && At(value, t) == w && t in value
      modifies this`pxCurrentTimerList, this`pxOverflowTimerList
      ensures Both(pxCurrentTimerList, pxOverflowTimerList, value, ticks)
      ensures var wake := Epoch(Wraps(last, ticks) + (if overflow then 1 else 0), ticks) + w;
        State() == old(State()).(active := Filing(old(State()).active, Sleeper(t, wake)))
      ensures Listed() == old(Listed()) + {t}
    {
      FiledListed(pxCurrentTimerList, value, t, w);
      FiledListed(pxOverflowTimerList, value, t, w);
      hide Both, Filed, Filing, ActiveOf, Epoch, Wraps;
      BothFiled(pxCurrentTimerList, pxOverflowTimerList, value, t, w, ticks);
      ActiveSoon(pxCurrentTimerList, pxOverflowTimerList, value, Wraps(last, ticks), ticks, t, w);
      ActiveLate(pxCurrentTimerList, pxOverflowTimerList, value, Wraps(last, ticks), ticks, t, w);
      assert value[t := w] == value;
      if overflow {
        pxOverflowTimerList := Filed(pxOverflowTimerList, value, w, t);
      } else {
        pxCurrentTimerList := Filed(pxCurrentTimerList, value, w, t);
      }
    }

    /** `listSET_LIST_ITEM_VALUE` for a timer that is in no list. */
    method SetValue(t: Timer, w: nat)
      requires Both(pxCurrentTimerList, pxOverflowTimerList, value, ticks) && Unlisted(t) && w < ticks
      modifies this`value
      ensures Both(pxCurrentTimerList, pxOverflowTimerList, value, ticks) && value == old(value)[t := w]
      ensures State() == old(State())
    {
      hide Both, Filed, ActiveOf, Wraps;
      BothFiled(pxCurrentTimerList, pxOverflowTimerList, value, t, w, ticks);
      ActiveIgnores(pxCurrentTimerList, pxOverflowTimerList, value, Wraps(last, ticks), ticks, t, w);
      value := value[t := w];
    }

    /** Take the timer that expires first off the current list. */
    method PopHead() returns (t: Timer, nextExpireTime: nat, ghost wake: nat)
      requires Core() && pxCurrentTimerList != []
      modifies this`pxCurrentTimerList
      ensures Core() && Unlisted(t) && t == old(pxCurrentTimerList[0]) && nextExpireTime == At(value, t) < ticks
      ensures var s := old(State()); s.active != [] && s.active[0] == Sleeper(t, wake) && State() == s.(active := s.active[1..])
      ensures wake == Epoch(Wraps(last, ticks), ticks) + nextExpireTime < Epoch(Wraps(last, ticks) + 1, ticks)
      ensures Listed() <= old(Listed()) && t in old(Listed())
    {
      hide ActiveOf, Epoch, Wraps, Encoded, Periods;
      ActiveHead(pxCurrentTimerList, pxOverflowTimerList, value, Wraps(last, ticks), ticks);
      BothBound(pxCurrentTimerList, pxOverflowTimerList, value, ticks);
      t, nextExpireTime := pxCurrentTimerList[0], At(value, pxCurrentTimerList[0]);
      wake := Epoch(Wraps(last, ticks), ticks) + nextExpireTime;
      pxCurrentTimerList := pxCurrentTimerList[1..];
      hide Both;
    }

    /** One round of the loop of `prvSwitchTimerLists`. */
    method SwitchOne(ghost at: nat, posts: seq<Message>)
      requires Core() && pxCurrentTimerList != []
      modifies this
      ensures State() == old(State().SwitchOne(Epoch(Wraps(last, ticks) + 1, ticks), at, posts))
      ensures Core() && last == old(last) && xLastTime == old(xLastTime) && Listed() <= old(Listed())
      ensures xTimerPeriodInTicks == old(xTimerPeriodInTicks)
    {
      hide Both, ActiveOf, Epoch, Wraps, Wrap, Encoded, Filing, Service.Fire, Service.Send, Service.SwitchOne;
      ghost var s, end := State(), Epoch(Wraps(last, ticks) + 1, ticks);
      var t, nextExpireTime, wake := PopHead();
      SwitchOneIs(s, end, at, posts);
      FireFields(s.(active := s.active[1..]), t, wake, at, posts);
      Callback(t, wake, at, posts);
      if t in uxAutoReload {
        ReloadEpoch(nextExpireTime, xTimerPeriodInTicks[t], Wraps(last, ticks), ticks);
        var reloadTime := Wrap(nextExpireTime + xTimerPeriodInTicks[t], ticks);
        if reloadTime > nextExpireTime {
          SetValue(t, reloadTime);
          FileTimer(t, reloadTime, false);
        } else {
          Restart(t, nextExpireTime, wake);
        }
      }
    }

    /** `prvSwitchTimerLists`, when the tick count has wrapped on its way to `time`. */
    method SwitchTimerLists(ghost time: nat, script: seq<seq<Message>>)
      requires Core() && Wraps(time, ticks) == Wraps(last, ticks) + 1
      modifies this
      ensures State() == old(State()).Drain(Epoch(Wraps(time, ticks), ticks), time, script).(last := time)
      ensures Core() && last == time && xLastTime == old(xLastTime) && Listed() <= old(Listed())
      ensures xTimerPeriodInTicks == old(xTimerPeriodInTicks)
    {
      hide Both, ActiveOf, Epoch, Wraps, Encoded, Service.SwitchOne, Service.Drain, Work;
      ghost var s, end := State(), Epoch(Wraps(time, ticks), ticks);
      var rest := script;
      while pxCurrentTimerList != []
        invariant Core() && last == s.last && xLastTime == old(xLastTime) && Listed() <= old(Listed())
        invariant xTimerPeriodInTicks == old(xTimerPeriodInTicks)
        invariant s.Drain(end, time, script) == State().Drain(end, time, rest)
        decreases Work(State().active, end)
      {
        HeadIsDue();
        DrainStep(State(), end, time, rest);
        SwitchOne(time, if rest == [] then [] else rest[0]);
        rest := if rest == [] then [] else rest[1..];
      }
      DrainStep(State(), end, time, rest);
      Swap(time);
    }

    lemma HeadIsDue()
      requires Core() && pxCurrentTimerList != []
      ensures var s := State(); s.active != [] && s.active[0].wake < Epoch(Wraps(last, ticks) + 1, ticks)
      ensures State().active[0].task in uxAutoReload ==> At(xTimerPeriodInTicks, State().active[0].task) > 0
    {
      ActiveHead(pxCurrentTimerList, pxOverflowTimerList, value, Wraps(last, ticks), ticks);
      hide Both, ActiveOf, Epoch, Wraps;
    }

    /** The exchange of the two empty and full lists. */
    method Swap(ghost time: nat)
      requires Core() && pxCurrentTimerList == [] && Wraps(time, ticks) == Wraps(last, ticks) + 1
      modifies this`pxCurrentTimerList, this`pxOverflowTimerList, this`last
      ensures State() == old(State()).(last := time) && Core() && last == time && Listed() == old(Listed())
      ensures var active := old(State()).active; active != [] ==> Epoch(Wraps(time, ticks), ticks) <= active[0].wake
    {
      hide ActiveOf, Epoch, Wraps, Encoded, ByValue, NoDup;
      ActiveNone(pxOverflowTimerList, value, Wraps(last, ticks), ticks);
      pxCurrentTimerList, pxOverflowTimerList := pxOverflowTimerList, pxCurrentTimerList;
      last := time;
    }

    /** `prvSampleTimeNow`, when the tick count reads `timeNow`. */
    method SampleTimeNow(timeNow: nat, ghost time: nat, script: seq<seq<Message>>) returns (switched: bool)
      requires Valid() && timeNow == Wrap(time, ticks) && last <= time < last + ticks
      modifies this
      ensures State() == old(State()).Sample(time, script)
      ensures Listed() <= old(Listed()) && xTimerPeriodInTicks == old(xTimerPeriodInTicks)
      ensures Valid() && last == time && switched == (Wraps(time, ticks) != old(Wraps(last, ticks)))
      ensures !switched ==> pxCurrentTimerList == old(pxCurrentTimerList) && pxOverflowTimerList == old(pxOverflowTimerList)
      ensures !switched ==> value == old(value)
    {
      hide Both, ActiveOf, Epoch, Wraps, Wrap, Encoded, Service.Drain;
      MinusIsExact(time, last, ticks);
      switched := timeNow < xLastTime;
      if switched {
        SwitchTimerLists(time, script);
      }
      last := time;
      xLastTime := timeNow;
    }

    /**
     * `prvInsertTimerInActiveList`; `from` is any time that `commandTime` can stand for.  The timer is
     * reported when its expiry has passed and filed at its expiry otherwise exactly when `from` has
     * come and is less than one range back, or as good as that.
     */
    method InsertTimerInActiveList(t: Timer, nextExpiryTime: nat, timeNow: nat, commandTime: nat, ghost from: nat)
      returns (processNow: bool)
      requires Core() && Unlisted(t) && t in xTimerPeriodInTicks
      requires timeNow == Wrap(last, ticks) && commandTime == Wrap(from, ticks)
      requires nextExpiryTime == Wrap(from + xTimerPeriodInTicks[t], ticks)
      modifies this`value, this`pxCurrentTimerList, this`pxOverflowTimerList
      ensures var expiry := from + xTimerPeriodInTicks[t];
        && State() == (if processNow then old(State()) else old(State()).Insert(t, FiledAt(expiry, last, ticks)))
        && ((if expiry <= last then processNow else !processNow && FiledAt(expiry, last, ticks) == expiry) <==>
            from <= last && (last < from + ticks || xTimerPeriodInTicks[t] <= Wrap(last - from, ticks)))
      ensures Core()
    {
      hide Both, ActiveOf, Epoch, Wraps, Wrap, Minus, Encoded, Service.Insert, Filing;
      InsertIsExact(from, xTimerPeriodInTicks[t], last, ticks);
      FiledAtParts(from + xTimerPeriodInTicks[t], last, ticks);
      InsertIs(State(), t, FiledAt(from + xTimerPeriodInTicks[t], last, ticks));
      hide FiledAt;
      processNow := false;
      SetValue(t, nextExpiryTime);
      if nextExpiryTime <= timeNow {
        if Minus(timeNow, commandTime, ticks) >= xTimerPeriodInTicks[t] {
          processNow := true;
        } else {
          FileTimer(t, nextExpiryTime, true);
        }
      } else {
        if timeNow < commandTime && nextExpiryTime >= commandTime {
          processNow := true;
        } else {
          FileTimer(t, nextExpiryTime, false);
        }
      }
    }

    /** `prvProcessExpiredTimer`. */
    method ProcessExpiredTimer(nextExpireTime: nat, timeNow: nat, posts: seq<Message>)
      requires Valid() && pxCurrentTimerList != [] && timeNow == xLastTime
      requires nextExpireTime == At(value, pxCurrentTimerList[0]) <= timeNow
      modifies this
      ensures State() == old(State().ProcessExpired(last, posts))
      ensures Valid() && last == old(last)
    {
      hide Both, ActiveOf, Epoch, Wraps, Wrap, Encoded, Filing, Service.Fire, Service.Send, Service.Insert, Service.ProcessExpired;
      ghost var s := State();
      var t, next, wake := PopHead();
      ProcessExpiredIs(s, last, posts);
      WrapParts(last, ticks);
      EpochStep(Wraps(last, ticks), ticks);
      if t in uxAutoReload {
        ReloadEpoch(next, xTimerPeriodInTicks[t], Wraps(last, ticks), ticks);
        var processNow := InsertTimerInActiveList(t, Wrap(next + xTimerPeriodInTicks[t], ticks), timeNow, next, wake);
        if processNow {
          Restart(t, next, wake);
        }
      }
      Callback(t, wake, last, posts);
    }

    /** `prvGetNextExpireTime`. */
    method GetNextExpireTime() returns (nextExpireTime: nat, listWasEmpty: bool)
      requires Valid()
      ensures listWasEmpty == (pxCurrentTimerList == [])
      ensures nextExpireTime == if listWasEmpty then 0 else At(value, pxCurrentTimerList[0])
      ensures var active := State().active;
        if listWasEmpty then active == [] || Epoch(Wraps(last, ticks) + 1, ticks) <= active[0].wake
        else active != [] && nextExpireTime == Wrap(active[0].wake, ticks) && Wraps(active[0].wake, ticks) == Wraps(last, ticks)
    {
      if pxCurrentTimerList == [] {
        ActiveNone(pxOverflowTimerList, value, Wraps(last, ticks), ticks);
      } else {
        BothBound(pxCurrentTimerList, pxOverflowTimerList, value, ticks);
        ActiveHead(pxCurrentTimerList, pxOverflowTimerList, value, Wraps(last, ticks), ticks);
        WrapUnique(Epoch(Wraps(last, ticks), ticks) + At(value, pxCurrentTimerList[0]), Wraps(last, ticks), At(value, pxCurrentTimerList[0]), ticks);
      }
      hide Both, ActiveOf, Epoch, Wraps, Wrap, Encoded;
      listWasEmpty := pxCurrentTimerList == [];
      nextExpireTime := if listWasEmpty then 0 else At(value, pxCurrentTimerList[0]);
    }

    /**
     * `prvProcessTimerOrBlockTask`.  The daemon blocks exactly when no overflow is noticed and no timer
     * is due.  It blocks without limit exactly when no timer is active, and otherwise until the first
     * expiry, or until the epoch ends if none lies in it.
     */
    method ProcessTimerOrBlockTask(nextExpireTime: nat, listWasEmpty: bool, timeNow: nat, ghost time: nat,
                                   script: seq<seq<Message>>, posts: seq<Message>)
      returns (blocks: bool, ticksToWait: nat, forever: bool)
      requires Valid() && timeNow == Wrap(time, ticks) && last <= time < last + ticks
      requires listWasEmpty == (pxCurrentTimerList == [])
      requires nextExpireTime == if listWasEmpty then 0 else At(value, pxCurrentTimerList[0])
      modifies this
      ensures State() == old(State()).TimerStep(time, script, posts)
      ensures Valid() && last == time
      ensures blocks <==> Wraps(time, ticks) == old(Wraps(last, ticks)) && (old(State()).active == [] || time < old(State()).active[0].wake)
      ensures blocks ==> (forever <==> State().active == [])
      ensures blocks && !forever ==> State().active != [] && time + ticksToWait == WaitEnds(time, State().active[0].wake, ticks)
    {
      hide Both, ActiveOf, Epoch, Wraps, Wrap, Encoded, Minus, Service.Sample, Service.ProcessExpired;
      blocks, ticksToWait, forever := false, 0, false;
      var switched := SampleTimeNow(timeNow, time, script);
      if !switched {
        ListFacts();
        if !listWasEmpty && nextExpireTime <= timeNow {
          ProcessExpiredTimer(nextExpireTime, timeNow, posts);
        } else {
          WaitFacts(nextExpireTime);
          blocks := true;
          ticksToWait := Minus(nextExpireTime, timeNow, ticks);
          forever := listWasEmpty && pxOverflowTimerList == [];
        }
      }
    }

    /** How the lists show in the ordered list of active timers. */
    lemma ListFacts()
      requires Valid()
      ensures xLastTime < ticks && xLastTime == Wrap(last, ticks)
      ensures pxCurrentTimerList != [] ==>
        (State().active != [] && (State().active[0].wake <= last <==> At(value, pxCurrentTimerList[0]) <= xLastTime))
      ensures pxCurrentTimerList == [] ==> (State().active != [] ==> last < State().active[0].wake)
    {
      WrapParts(last, ticks);
      EpochStep(Wraps(last, ticks), ticks);
      if pxCurrentTimerList != [] {
        ActiveHead(pxCurrentTimerList, pxOverflowTimerList, value, Wraps(last, ticks), ticks);
      } else {
        ActiveNone(pxOverflowTimerList, value, Wraps(last, ticks), ticks);
      }
      hide Both, ActiveOf, Epoch, Wraps, Wrap;
    }

    lemma WaitFacts(nextExpireTime: nat)
      requires Valid() && nextExpireTime == if pxCurrentTimerList == [] then 0 else At(value, pxCurrentTimerList[0])
      requires pxCurrentTimerList != [] ==> xLastTime < nextExpireTime
      ensures nextExpireTime < ticks && xLastTime < ticks
      ensures pxCurrentTimerList == [] && pxOverflowTimerList == [] <==> State().active == []
      ensures State().active != [] ==> last + Minus(nextExpireTime, xLastTime, ticks) == WaitEnds(last, State().active[0].wake, ticks)
    {
      WrapParts(last, ticks);
      EpochStep(Wraps(last, ticks), ticks);
      BothBound(pxCurrentTimerList, pxOverflowTimerList, value, ticks);
      if State().active != [] { WrapParts(State().active[0].wake, ticks); }
      if pxCurrentTimerList != [] {
        ActiveHead(pxCurrentTimerList, pxOverflowTimerList, value, Wraps(last, ticks), ticks);
        WrapUnique(State().active[0].wake, Wraps(last, ticks), nextExpireTime, ticks);
      } else {
        ActiveNone(pxOverflowTimerList, value, Wraps(last, ticks), ticks);
        OverflowActive(pxOverflowTimerList, value, Wraps(last, ticks), ticks);
        if State().active != [] { WrapSmall(0, ticks); NotThisEpoch(State().active[0].wake, Wraps(last, ticks), ticks); }
      }
      hide Both, ActiveOf, Epoch, Wraps, Wrap;
    }

    /** One round of the loop of `prvProcessReceivedCommands`, for a command of the present. */
    method ProcessCommand(timeNow: nat, ghost time: nat, script: seq<seq<Message>>, posts: seq<Message>)
      requires Valid() && pending != [] && timeNow == Wrap(time, ticks) && last <= time < last + ticks
      requires Timely(pending[0], xTimerPeriodInTicks, time, ticks)
      modifies this
      ensures State() == old(State()).CommandStep(time, script, posts)
      ensures Valid()
    {
      hide Both, ActiveOf, Epoch, Wraps, Wrap, Encoded, Service.Sample, Service.Obey, Service.Cancel, Service.Offer;
      ghost var s, m := State(), pending[0];
      CommandIs(s, time, script, posts);
      var message := Receive();
      if message.id == PENDED_CALL {
        ObeyPended(s.(queue := s.queue[1..]), time, posts);
        Post(posts);
      } else {
        Unlist(message.timer);
        var switched := SampleTimeNow(timeNow, time, script);
        Execute(message, timeNow, m, posts);
      }
    }

    /** `xQueueReceive` on the command queue. */
    method Receive() returns (message: DaemonMessage)
      requires Core() && pending != []
      modifies this`xTimerQueue, this`pending
      ensures State() == old(State()).(queue := old(State()).queue[1..]) && Core()
      ensures message == Encode(old(pending)[0], ticks)
    {
      hide Both, ActiveOf, Encoded, Encode, Wraps;
      EncodedParts(pending, pending[0], ticks);
      message := xTimerQueue[0];
      xTimerQueue, pending := xTimerQueue[1..], pending[1..];
    }

    /** Take the timer of a command off the list it is in, if any. */
    method Unlist(t: Timer)
      requires Core()
      modifies this`pxCurrentTimerList, this`pxOverflowTimerList
      ensures State() == old(State()).Cancel(t) && Core() && t !in Listed()
    {
      hide Both, ActiveOf, Encoded, Wraps, DroppedSleeper;
      ActiveDrop(pxCurrentTimerList, pxOverflowTimerList, value, Wraps(last, ticks), ticks, t);
      if t in pxCurrentTimerList {
        NotBoth(t);
        pxCurrentTimerList := Without(pxCurrentTimerList, IndexOf(pxCurrentTimerList, t));
      } else if t in pxOverflowTimerList {
        pxOverflowTimerList := Without(pxOverflowTimerList, IndexOf(pxOverflowTimerList, t));
      }
      hide Without;
    }

    lemma NotBoth(t: Timer)
      requires Core() && t in pxCurrentTimerList
      ensures t !in pxOverflowTimerList
    {
    }

    /** The `switch` of `prvProcessReceivedCommands`. */
    method Execute(message: DaemonMessage, timeNow: nat, ghost m: Message, posts: seq<Message>)
      requires Valid() && message == Encode(m, ticks) && !m.Pended? && m.timer !in Listed() && timeNow == xLastTime
      requires Timely(m, xTimerPeriodInTicks, last, ticks)
      modifies this
      ensures State() == old(State().Obey(m, last, posts))
      ensures Valid() && last == old(last)
    {
      hide Both, ActiveOf, Encoded, Wraps, Wrap, Service.Obey;
      match message.id
      case START =>
        StartTimer(message.timer, message.value, timeNow, m.time, posts);
      case STOP =>
        ObeyStop(State(), m, last, posts);
      case DELETE =>
        Forget(message.timer, posts);
      case CHANGE_PERIOD =>
        ChangeTimerPeriod(message.timer, message.value, timeNow, m, posts);
      case PENDED_CALL =>
    }

    /** The memory of the timer is freed. */
    method Forget(t: Timer, posts: seq<Message>)
      requires Valid()
      modifies this`xTimerPeriodInTicks, this`uxAutoReload
      ensures State() == old(State().Obey(Delete(t), last, posts))
      ensures Valid() && t !in xTimerPeriodInTicks
    {
      hide Both, ActiveOf, Encoded, Wraps, Wrap, Service.Obey;
      ObeyDelete(State(), t, last, posts);
      xTimerPeriodInTicks, uxAutoReload := xTimerPeriodInTicks - {t}, uxAutoReload - {t};
    }

    method StartTimer(t: Timer, commandTime: nat, timeNow: nat, ghost from: nat, posts: seq<Message>)
      requires Valid() && t !in Listed() && timeNow == xLastTime && commandTime == Wrap(from, ticks)
      requires t in xTimerPeriodInTicks && from <= last < from + ticks
      modifies this
      ensures State() == old(State().Obey(Start(t, from), last, posts))
      ensures Valid() && last == old(last)
    {
      hide Both, ActiveOf, Encoded, Wraps, Wrap, Service.Obey, Service.Fire, Service.Send, Service.Insert;
      ObeyStart(State(), t, from, last, posts);
      PeriodBound(t);
      WrapPlus(from, xTimerPeriodInTicks[t], ticks);
      var processNow := InsertTimerInActiveList(t, Wrap(commandTime + xTimerPeriodInTicks[t], ticks), timeNow, commandTime, from);
      if processNow {
        Callback(t, from + xTimerPeriodInTicks[t], last, posts);
        if t in uxAutoReload {
          Restart(t, Wrap(commandTime + xTimerPeriodInTicks[t], ticks), from + xTimerPeriodInTicks[t]);
        }
      }
    }

    lemma PeriodBound(t: Timer)
      requires Core() && t in xTimerPeriodInTicks
      ensures 0 < xTimerPeriodInTicks[t] < ticks
    {
    }

    method ChangeTimerPeriod(t: Timer, period: nat, timeNow: nat, ghost m: Message, posts: seq<Message>)
      requires Valid() && t !in Listed() && timeNow == xLastTime && 0 < period < ticks && m == ChangePeriod(t, period)
      modifies this
      ensures State() == old(State().Obey(m, last, posts))
      ensures Valid() && last == old(last)
    {
      hide Both, ActiveOf, Encoded, Wraps, Wrap, Service.Obey, Service.Insert;
      ObeyChange(State(), t, period, last, posts);
      WrapPlus(last, period, ticks);
      xTimerPeriodInTicks := xTimerPeriodInTicks[t := period];
      var processNow := InsertTimerInActiveList(t, Wrap(timeNow + period, ticks), timeNow, timeNow, last);
    }

    /**
     * `prvProcessReceivedCommands`: commands are served, each at its time, until the queue is empty;
     * `rounds` are the commands' times and what their callbacks send, as far as the run is known.
     */
    method ProcessReceivedCommands(rounds: seq<Round>) returns (served: nat)
      requires Valid() && TimelyRun(State(), Commands(rounds))
      modifies this
      ensures Valid() && served <= |rounds| && State() == Run(old(State()), Commands(rounds[..served]))
      ensures served < |rounds| ==> State().queue == []
    {
      hide Both, ActiveOf, Epoch, Wraps, Wrap, Encoded, Service.CommandStep, Timely;
      ghost var s := State();
      served := 0;
      RoundsStart(rounds);
      while served < |rounds| && xTimerQueue != []
        invariant served <= |rounds| && Valid() && State() == Run(s, Commands(rounds[..served]))
        invariant TimelyRun(State(), Commands(rounds[served..]))
      {
        NextRound(s, rounds, served);
        QueueSays();
        ProcessCommand(Wrap(rounds[served].time, ticks), rounds[served].time, rounds[served].script, rounds[served].posts);
        served := served + 1;
      }
      QueueSays();
    }

    lemma QueueSays()
      requires Core()
      ensures xTimerQueue == [] <==> pending == []
    {
      EncodedParts(pending, Pended, ticks);
      hide Encoded;
    }

    /** One step of the daemon, of a task or of an interrupt. */
    method Take(step: Step)
      requires Valid() && TimelyStep(State(), step)
      modifies this
      ensures Valid() && State() == Apply(old(State()), step)
    {
      hide Both, ActiveOf, Epoch, Wraps, Wrap, Encoded, Service.CommandStep, Service.TimerStep, Service.Offer;
      match step
      case Post(ms) =>
        Post(ms);
      case Check(time, script, posts) =>
        var nextExpireTime, listWasEmpty := GetNextExpireTime();
        var blocks, ticksToWait, forever :=
          ProcessTimerOrBlockTask(nextExpireTime, listWasEmpty, Wrap(time, ticks), time, script, posts);
      case Command(time, script, posts) =>
        NoCommand(State(), time, script, posts);
        QueueSays();
        if xTimerQueue != [] {
          ProcessCommand(Wrap(time, ticks), time, script, posts);
        }
    }

    /**
     * A whole timely run of the daemon: it takes the service through that run, so every auto-reload
     * timer that was just started and is left alone has kept its schedule.
     */
    method Serve(steps: seq<Step>)
      requires Valid() && TimelyRun(State(), steps)
      modifies this
      ensures Valid() && State() == Run(old(State()), steps)
      ensures forall t, start :: JustStarted(old(State()), t, start) && Alone(steps, t) ==>
        OnTime(State(), t, start, At(old(xTimerPeriodInTicks), t))
    {
      hide Both, ActiveOf, Epoch, Wraps, Wrap, Encoded, TimelyStep, Apply, OnTime, JustStarted, Alone;
      ghost var s := State();
      for i := 0 to |steps|
        invariant Valid() && Run(s, steps) == Run(State(), steps[i..]) && TimelyRun(State(), steps[i..])
      {
        assert steps[i..][1..] == steps[i + 1..];
        Take(steps[i]);
      }
      forall t, start | JustStarted(s, t, start) && Alone(steps, t) ensures OnTime(Run(s, steps), t, start, At(s.period, t)) {
        OnSchedule(s, t, start, steps);
      }
    }
  }
}
