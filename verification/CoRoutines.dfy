/**
 * croutine.c: a scheduler of its own, run by one task, whose clock may fall behind the tick count
 * and catches up when it is called.  Proved against the unbounded clock of `Timeline`.
 */
module CoRoutines {
  import opened Rings
  import opened Stores
  import opened Clock
  import opened Timeline
  import opened TwoLists

  /** The two delayed lists: ordered, apart, and with nothing due in the one of the current epoch. */
  ghost predicate Delays(ds: seq<Task>, os: seq<Task>, value: map<Task, nat>, clock: nat, ticks: Modulus) {
    && ByValue(ds, value) && ByValue(os, value) && NoDup(ds) && NoDup(os)
    && (forall t :: t in ds ==> clock < At(value, t) < ticks && t !in os)
    && (forall t :: t in os ==> At(value, t) < ticks)
  }

  /** The same while the due ones of this tick have yet to be released. */
  ghost predicate DelaysDue(ds: seq<Task>, os: seq<Task>, value: map<Task, nat>, clock: nat, ticks: Modulus) {
    && ByValue(ds, value) && ByValue(os, value) && NoDup(ds) && NoDup(os)
    && (forall t :: t in ds ==> clock <= At(value, t) < ticks && t !in os)
    && (forall t :: t in os ==> At(value, t) < ticks)
  }

  function ViewAt(clock: nat, epoch: nat, ticks: Modulus, ds: seq<Task>, os: seq<Task>, value: map<Task, nat>,
                  ready: ReadyLists, events: Store<EventId, Task>): View {
    View(Epoch(epoch, ticks) + clock, Wakes(ds, value, Epoch(epoch, ticks)) + Wakes(os, value, Epoch(epoch + 1, ticks)),
         ready, events)
  }

  /** Ready lists exist for all priorities in use, and `top` bounds the ones that are not empty. */
  ghost predicate ReadyBelow(ready: ReadyLists, prio: map<Task, nat>, top: nat) {
    && top in ready && (forall p: nat :: p <= top ==> p in ready)
    && (forall p :: p in ready ==> ready[p].index <= |ready[p].items|)
    && (forall p :: p in ready && ready[p].items != [] ==> p <= top)
    && (forall t :: t in prio ==> forall p: nat :: p <= prio[t] ==> p in ready)
  }

  function NoneReady(priorities: nat): (r: ReadyLists)
    ensures forall p: nat :: p in r <==> p < priorities
    ensures forall p :: p in r ==> r[p] == Ring([], 0)
  {
    if priorities == 0 then map[] else NoneReady(priorities - 1)[priorities - 1 := Ring([], 0)]
  }

  /** Every sleeper has a priority; a ready co-routine is in the list of its priority only, and does not sleep. */
  ghost predicate Homed(ds: seq<Task>, os: seq<Task>, ready: ReadyLists, prio: map<Task, nat>) {
    && (forall t :: t in ds || t in os ==> t in prio)
    && (forall p :: p in ready ==> NoDup(ready[p].items))
    && (forall p, t :: p in ready && t in ready[p].items ==> t in prio && prio[t] == p && t !in ds && t !in os)
  }

  /** Whoever waits for an event, or has been readied by one, sleeps; the lists of events are in order of priority. */
  ghost predicate EventsHome(events: Store<EventId, Task>, ds: seq<Task>, os: seq<Task>, itemValue: map<Task, nat>) {
    && Stores.Valid(events) && PendingL in events.lists
    && (forall t :: t in events.container ==> t in ds || t in os)
    && (forall e :: ByValue(events.Items(EventL(e)), itemValue))
  }

  /** `t` is no longer among the sleepers, and all others are. */
  ghost predicate Left(ds: seq<Task>, os: seq<Task>, ds': seq<Task>, os': seq<Task>, t: Task) {
    forall u :: u in ds' || u in os' <==> u != t && (u in ds || u in os)
  }

  lemma HomedLeave(ds: seq<Task>, os: seq<Task>, ds': seq<Task>, os': seq<Task>, ready: ReadyLists, prio: map<Task, nat>, t: Task)
    requires Homed(ds, os, ready, prio) && Left(ds, os, ds', os', t) && (t in ds || t in os)
    ensures Homed(ds', os', MakeReady(ready, prio, t), prio)
  {
    if t in prio && prio[t] in ready && ready[prio[t]].index <= |ready[prio[t]].items| {
      var r := ready[prio[t]];
      WithMembers(r.items, r.EndPlace(), t);
      WithNoDup(r.items, r.EndPlace(), t);
      hide With;
    }
  }

  lemma EventsLeave(events: Store<EventId, Task>, ds: seq<Task>, os: seq<Task>, ds': seq<Task>, os': seq<Task>, itemValue: map<Task, nat>, t: Task)
    requires EventsHome(events, ds, os, itemValue) && Left(ds, os, ds', os', t)
    ensures EventsHome(events.Remove(t), ds', os', itemValue)
    ensures events.Items(PendingL) != [] && events.Items(PendingL)[0] == t ==> events.Remove(t).Items(PendingL) == events.Items(PendingL)[1..]
  {
    hide NoDup, ByValue, Dropped, Ring.Remove;
    RemoveStaysValid(events, t);
    forall e ensures ByValue(events.Remove(t).Items(EventL(e)), itemValue) {
      RemoveDrops(events, t, EventL(e));
      DroppedFacts(events.Items(EventL(e)), itemValue, t);
    }
    hide Stores.Valid, Left;
    LeftGone(events, ds, os, ds', os', t);
  }

  lemma LeftGone(events: Store<EventId, Task>, ds: seq<Task>, os: seq<Task>, ds': seq<Task>, os': seq<Task>, t: Task)
    requires Stores.Valid(events) && Left(ds, os, ds', os', t) && forall u :: u in events.container ==> u in ds || u in os
    ensures forall u :: u in events.Remove(t).container ==> u in ds' || u in os'
  {
    if t in events.container { assert events.Linked(t); }
    hide Ring.Remove;
  }

  lemma HeadLeft(ds: seq<Task>, os: seq<Task>)
    requires ds != [] && NoDup(ds) && ds[0] !in os
    ensures Left(ds, os, ds[1..], os, ds[0])
  {
    assert forall u :: u in ds[1..] ==> u != ds[0] && u in ds;
    assert ds == [ds[0]] + ds[1..];
  }

  lemma DroppedLeft(ds: seq<Task>, os: seq<Task>, value: map<Task, nat>, t: Task)
    requires ByValue(ds, value) && ByValue(os, value) && NoDup(ds) && NoDup(os)
    ensures Left(ds, os, Dropped(ds, t), Dropped(os, t), t)
  {
    DroppedFacts(ds, value, t);
    DroppedFacts(os, value, t);
    hide Dropped, NoDup, ByValue;
  }

  lemma RemoveStaysValid(s: Store<EventId, Task>, t: Task)
    requires Stores.Valid(s)
    ensures Stores.Valid(s.Remove(t)) && s.Remove(t).lists.Keys == s.lists.Keys && (s.Items(PendingL) != [] && s.Items(PendingL)[0] == t ==>
            s.Remove(t).Items(PendingL) == s.Items(PendingL)[1..])
  {
    if t in s.container { RemoveKeeps(s, t); }
    if s.Items(PendingL) != [] { assert s.Items(PendingL)[0] in s.Items(PendingL); }
    hide Ring.Remove;
  }

  /** What the ticks need to know: the sleepers are in order, still to wake, and have ready lists. */
  lemma ReadyToTick(clock: nat, epoch: nat, ticks: Modulus, ds: seq<Task>, os: seq<Task>, value: map<Task, nat>,
                    ready: ReadyLists, events: Store<EventId, Task>, prio: map<Task, nat>, top: nat)
    requires Delays(ds, os, value, clock, ticks) && clock < ticks && Homed(ds, os, ready, prio) && ReadyBelow(ready, prio, top)
    ensures var v := ViewAt(clock, epoch, ticks, ds, os, value, ready, events);
      WakeOrder(v.sleepers) && HasLists(v, prio) && forall x :: x in v.sleepers ==> v.now < x.wake
  {
    var a, e := Epoch(epoch, ticks), Epoch(epoch + 1, ticks);
    var v := ViewAt(clock, epoch, ticks, ds, os, value, ready, events);
    EpochStep(epoch, ticks);
    WakesOrdered(ds, value, a);
    WakesOrdered(os, value, e);
    WakesWithin(ds, value, a, e);
    WakesWithin(os, value, e, e);
    JoinOrdered(Wakes(ds, value, a), Wakes(os, value, e), e, ds);
    forall x | x in v.sleepers ensures x.task in prio && prio[x.task] in ready && v.now < x.wake {
      WakesMembers(ds, value, a, x);
      WakesMembers(os, value, e, x);
    }
    hide Wakes, Epoch;
  }

  lemma MakeReadyBelow(ready: ReadyLists, prio: map<Task, nat>, top: nat, t: Task)
    requires ReadyBelow(ready, prio, top)
    ensures ReadyBelow(MakeReady(ready, prio, t), prio, if t in prio && top < prio[t] then prio[t] else top)
  {
  }

  lemma TickDelays(ds: seq<Task>, os: seq<Task>, value: map<Task, nat>, clock: nat, ticks: Modulus)
    requires Delays(ds, os, value, clock, ticks) && clock < ticks
    ensures clock + 1 < ticks ==> DelaysDue(ds, os, value, clock + 1, ticks)
    ensures clock + 1 == ticks ==> ds == [] && DelaysDue(os, ds, value, 0, ticks)
  {
    assert ds != [] ==> ds[0] in ds;
  }

  lemma TickView(clock: nat, epoch: nat, ticks: Modulus, ds: seq<Task>, os: seq<Task>, value: map<Task, nat>,
                 ready: ReadyLists, events: Store<EventId, Task>)
    requires clock < ticks && (clock + 1 == ticks ==> ds == [])
    ensures var v := ViewAt(clock, epoch, ticks, ds, os, value, ready, events);
      v.(now := v.now + 1) == if clock + 1 < ticks then ViewAt(clock + 1, epoch, ticks, ds, os, value, ready, events)
                              else ViewAt(0, epoch + 1, ticks, os, ds, value, ready, events)
  {
    EpochStep(epoch, ticks);
    hide Epoch;
  }

  lemma ReleaseView(clock: nat, epoch: nat, ticks: Modulus, ds: seq<Task>, os: seq<Task>, value: map<Task, nat>,
                    ready: ReadyLists, events: Store<EventId, Task>, prio: map<Task, nat>)
    requires ds != []
    ensures var v := ViewAt(clock, epoch, ticks, ds, os, value, ready, events);
      && v.sleepers != [] && v.sleepers[0] == Sleeper(ds[0], Epoch(epoch, ticks) + At(value, ds[0]))
      && Release(v, prio) ==
         ViewAt(clock, epoch, ticks, ds[1..], os, value, MakeReady(ready, prio, ds[0]), events.Remove(ds[0]))
  {
    hide MakeReady, Store.Remove, Epoch;
    WakesTail(ds, value, Epoch(epoch, ticks), Wakes(os, value, Epoch(epoch + 1, ticks)));
    hide Wakes;
  }

  /** When the head of the current list is not due, nothing is. */
  lemma NoneDue(clock: nat, epoch: nat, ticks: Modulus, ds: seq<Task>, os: seq<Task>, value: map<Task, nat>,
                   ready: ReadyLists, events: Store<EventId, Task>, prio: map<Task, nat>)
    requires DelaysDue(ds, os, value, clock, ticks) && clock < ticks && (ds != [] ==> clock < At(value, ds[0]))
    ensures Delays(ds, os, value, clock, ticks)
    ensures var v := ViewAt(clock, epoch, ticks, ds, os, value, ready, events); ReleaseDue(v, prio) == v
  {
    EpochStep(epoch, ticks);
    forall t | t in ds ensures clock < At(value, t) {
      var i := IndexOf(ds, t);
      assert At(value, ds[0]) <= At(value, ds[i]);
    }
    hide Epoch, Release;
  }

  lemma HeadLeaves(ds: seq<Task>, os: seq<Task>, value: map<Task, nat>, clock: nat, ticks: Modulus)
    requires DelaysDue(ds, os, value, clock, ticks) && ds != []
    ensures Left(ds, os, ds[1..], os, ds[0]) && ds[0] in ds
  {
    assert ds[0] in ds;
    HeadLeft(ds, os);
    hide Left;
  }

  lemma Exchanged(ds: seq<Task>, os: seq<Task>, ready: ReadyLists, prio: map<Task, nat>, events: Store<EventId, Task>, itemValue: map<Task, nat>)
    requires Homed(ds, os, ready, prio) && EventsHome(events, ds, os, itemValue)
    ensures Homed(os, ds, ready, prio) && EventsHome(events, os, ds, itemValue)
  {
    hide Stores.Valid, ByValue;
  }

  lemma DropDue(ds: seq<Task>, os: seq<Task>, value: map<Task, nat>, clock: nat, ticks: Modulus)
    requires DelaysDue(ds, os, value, clock, ticks) && ds != []
    ensures DelaysDue(ds[1..], os, value, clock, ticks)
  {
  }

  /** A co-routine that an interrupt has readied stops sleeping. */
  function Wake(v: View, prio: map<Task, nat>, t: Task): View {
    View(v.now, DroppedSleeper(v.sleepers, t), MakeReady(v.ready, prio, t), v.events.Remove(t))
  }

  function WakePending(v: View, prio: map<Task, nat>): View
    decreases |v.events.Items(PendingL)|
  {
    var pending := v.events.Items(PendingL);
    if pending == [] then v
    else if |Wake(v, prio, pending[0]).events.Items(PendingL)| < |pending| then WakePending(Wake(v, prio, pending[0]), prio)
    else v
  }

  /** Is `t` in the ready list of priority `p`? */
  predicate Listed(ready: ReadyLists, p: nat, t: Task) { p in ready && t in ready[p].items }

  /** Co-routines `woken` have left the delayed lists for the ready lists of their priorities, and nobody else has moved. */
  ghost predicate Moved(ds: seq<Task>, os: seq<Task>, ready: ReadyLists, ds': seq<Task>, os': seq<Task>, ready': ReadyLists,
                        prio: map<Task, nat>, woken: seq<Task>) {
    && (forall t :: t in ds' <==> t in ds && t !in woken) && (forall t :: t in os' <==> t in os && t !in woken)
    && (forall p, t :: Listed(ready', p, t) <==> Listed(ready, p, t) || (t in woken && At(prio, t) == p))
  }

  lemma MovesOne(ds: seq<Task>, os: seq<Task>, ready: ReadyLists, prio: map<Task, nat>, top: nat, value: map<Task, nat>, clock: nat, ticks: Modulus, t: Task)
    requires Delays(ds, os, value, clock, ticks) && Homed(ds, os, ready, prio) && ReadyBelow(ready, prio, top) && (t in ds || t in os)
    ensures Moved(ds, os, ready, Dropped(ds, t), Dropped(os, t), MakeReady(ready, prio, t), prio, [t])
  {
    hide Dropped, ByValue, NoDup, MakeReady, Listed;
    DroppedFacts(ds, value, t);
    DroppedFacts(os, value, t);
    MakesListed(ready, prio, t);
  }

  lemma MakesListed(ready: ReadyLists, prio: map<Task, nat>, t: Task)
    requires t in prio && prio[t] in ready && ready[prio[t]].index <= |ready[prio[t]].items|
    ensures forall p, u :: Listed(MakeReady(ready, prio, t), p, u) <==> Listed(ready, p, u) || (u == t && At(prio, t) == p)
  {
    WithMembers(ready[prio[t]].items, ready[prio[t]].EndPlace(), t);
    hide With;
  }

  lemma MovesOn(ds: seq<Task>, os: seq<Task>, ready: ReadyLists, ds': seq<Task>, os': seq<Task>, ready': ReadyLists,
                ds'': seq<Task>, os'': seq<Task>, ready'': ReadyLists, prio: map<Task, nat>, woken: seq<Task>, n: nat)
    requires n < |woken| && Moved(ds, os, ready, ds', os', ready', prio, woken[..n]) && Moved(ds', os', ready', ds'', os'', ready'', prio, [woken[n]])
    ensures Moved(ds, os, ready, ds'', os'', ready'', prio, woken[..n + 1])
  {
    assert woken[..n + 1] == woken[..n] + [woken[n]];
    hide Listed;
  }

  lemma NoneMoved(ds: seq<Task>, os: seq<Task>, ready: ReadyLists, prio: map<Task, nat>)
    ensures Moved(ds, os, ready, ds, os, ready, prio, [])
  {
  }

  lemma DropDelays(ds: seq<Task>, os: seq<Task>, value: map<Task, nat>, clock: nat, ticks: Modulus, t: Task)
    requires Delays(ds, os, value, clock, ticks)
    ensures Delays(Dropped(ds, t), Dropped(os, t), value, clock, ticks)
  {
    DroppedFacts(ds, value, t);
    DroppedFacts(os, value, t);
    hide Dropped, ByValue, NoDup;
  }

  lemma DelaysLeave(ds: seq<Task>, os: seq<Task>, value: map<Task, nat>, clock: nat, ticks: Modulus, t: Task)
    requires Delays(ds, os, value, clock, ticks)
    ensures Left(ds, os, Dropped(ds, t), Dropped(os, t), t)
  {
    DroppedLeft(ds, os, value, t);
    hide Left, Dropped;
  }

  /** A co-routine that an interrupt has readied still sleeps. */
  lemma PendingSleeps(events: Store<EventId, Task>, ds: seq<Task>, os: seq<Task>, itemValue: map<Task, nat>)
    requires EventsHome(events, ds, os, itemValue) && events.Items(PendingL) != []
    ensures events.Items(PendingL)[0] in ds || events.Items(PendingL)[0] in os
  {
    assert events.Items(PendingL)[0] in events.Items(PendingL);
    hide ByValue;
  }

  lemma WakeView(clock: nat, epoch: nat, ticks: Modulus, ds: seq<Task>, os: seq<Task>, value: map<Task, nat>,
                 ready: ReadyLists, events: Store<EventId, Task>, prio: map<Task, nat>, t: Task)
    requires Delays(ds, os, value, clock, ticks)
    ensures var v := ViewAt(clock, epoch, ticks, ds, os, value, ready, events);
      var u := ViewAt(clock, epoch, ticks, Dropped(ds, t), Dropped(os, t), value, MakeReady(ready, prio, t), events.Remove(t));
      && (events.Items(PendingL) == [] ==> WakePending(v, prio) == v)
      && (events.Items(PendingL) != [] && t == events.Items(PendingL)[0] && |events.Remove(t).Items(PendingL)| < |events.Items(PendingL)| ==>
            WakePending(v, prio) == WakePending(u, prio))
  {
    var v := ViewAt(clock, epoch, ticks, ds, os, value, ready, events);
    hide *;
    WakeIs(clock, epoch, ticks, ds, os, value, ready, events, prio, t);
    WakePendingStep(v, prio, t);
    ViewIs(clock, epoch, ticks, ds, os, value, ready, events);
    ViewIs(clock, epoch, ticks, Dropped(ds, t), Dropped(os, t), value, MakeReady(ready, prio, t), events.Remove(t));
  }

  lemma WakeIs(clock: nat, epoch: nat, ticks: Modulus, ds: seq<Task>, os: seq<Task>, value: map<Task, nat>,
               ready: ReadyLists, events: Store<EventId, Task>, prio: map<Task, nat>, t: Task)
    requires Delays(ds, os, value, clock, ticks)
    ensures Wake(ViewAt(clock, epoch, ticks, ds, os, value, ready, events), prio, t) ==
            ViewAt(clock, epoch, ticks, Dropped(ds, t), Dropped(os, t), value, MakeReady(ready, prio, t), events.Remove(t))
  {
    DropWakes(ds, os, value, Epoch(epoch, ticks), Epoch(epoch + 1, ticks), t);
    hide Epoch, Wakes, Dropped, DroppedSleeper, Store.Remove, MakeReady;
  }

  lemma WakePendingStep(v: View, prio: map<Task, nat>, t: Task)
    ensures v.events.Items(PendingL) == [] ==> WakePending(v, prio) == v
    ensures v.events.Items(PendingL) != [] && t == v.events.Items(PendingL)[0] && |Wake(v, prio, t).events.Items(PendingL)| < |v.events.Items(PendingL)| ==>
      WakePending(v, prio) == WakePending(Wake(v, prio, t), prio)
  {
    hide Wake, Store.Items;
  }

  lemma ViewIs(clock: nat, epoch: nat, ticks: Modulus, ds: seq<Task>, os: seq<Task>, value: map<Task, nat>,
               ready: ReadyLists, events: Store<EventId, Task>)
    ensures ViewAt(clock, epoch, ticks, ds, os, value, ready, events) ==
            View(Epoch(epoch, ticks) + clock, Wakes(ds, value, Epoch(epoch, ticks)) + Wakes(os, value, Epoch(epoch + 1, ticks)),
                 ready, events)
  {
  }

  lemma DelaysBound(ds: seq<Task>, os: seq<Task>, value: map<Task, nat>, clock: nat, ticks: Modulus)
    requires Delays(ds, os, value, clock, ticks)
    ensures forall t :: t in ds ==> At(value, t) <= ticks
  {
  }

  ghost function Joined(v: View, x: Sleeper): View {
    v.(sleepers := With(v.sleepers, WakePlace(v.sleepers, x.wake), x))
  }

  lemma DelaySoon(clock: nat, epoch: nat, ticks: Modulus, ds: seq<Task>, os: seq<Task>, value: map<Task, nat>,
                  ready: ReadyLists, events: Store<EventId, Task>, t: Task, d: nat)
    requires Delays(ds, os, value, clock, ticks) && t !in ds && t !in os && 0 < d && clock + d < ticks
    ensures Delays(Filed(ds, value, clock + d, t), os, value[t := clock + d], clock, ticks)
    ensures ViewAt(clock, epoch, ticks, Filed(ds, value, clock + d, t), os, value[t := clock + d], ready, events) ==
            Joined(ViewAt(clock, epoch, ticks, ds, os, value, ready, events), Sleeper(t, Epoch(epoch, ticks) + clock + d))
  {
    hide *;
    var a, e, w := Epoch(epoch, ticks), Epoch(epoch + 1, ticks), clock + d;
    EpochStep(epoch, ticks);
    FiledIs(ds, value, w, t);
    FileSoon(ds, os, value, a, e, t, w);
    JoinDelays(ds, os, value, clock, ticks, t, w);
    ViewIs(clock, epoch, ticks, ds, os, value, ready, events);
    ViewIs(clock, epoch, ticks, Filed(ds, value, w, t), os, value[t := w], ready, events);
    JoinedIs(ViewAt(clock, epoch, ticks, ds, os, value, ready, events), Sleeper(t, a + w));
  }

  lemma DelayLate(clock: nat, epoch: nat, ticks: Modulus, ds: seq<Task>, os: seq<Task>, value: map<Task, nat>,
                  ready: ReadyLists, events: Store<EventId, Task>, t: Task, d: nat)
    requires Delays(ds, os, value, clock, ticks) && t !in ds && t !in os && d < ticks <= clock + d && clock < ticks
    ensures Delays(ds, Filed(os, value, clock + d - ticks, t), value[t := clock + d - ticks], clock, ticks)
    ensures ViewAt(clock, epoch, ticks, ds, Filed(os, value, clock + d - ticks, t), value[t := clock + d - ticks], ready, events) ==
            Joined(ViewAt(clock, epoch, ticks, ds, os, value, ready, events), Sleeper(t, Epoch(epoch, ticks) + clock + d))
  {
    hide *;
    var a, e, w := Epoch(epoch, ticks), Epoch(epoch + 1, ticks), clock + d - ticks;
    EpochStep(epoch, ticks);
    DelaysBound(ds, os, value, clock, ticks);
    FiledIs(os, value, w, t);
    FileLate(ds, os, value, a, e, t, w);
    JoinOverflow(ds, os, value, clock, ticks, t, w);
    ViewIs(clock, epoch, ticks, ds, os, value, ready, events);
    ViewIs(clock, epoch, ticks, ds, Filed(os, value, w, t), value[t := w], ready, events);
    JoinedIs(ViewAt(clock, epoch, ticks, ds, os, value, ready, events), Sleeper(t, e + w));
  }

  /** Both cases, told apart as the code does: did the wake value wrap? */
  lemma DelayView(clock: nat, epoch: nat, ticks: Modulus, ds: seq<Task>, os: seq<Task>, value: map<Task, nat>,
                  ready: ReadyLists, events: Store<EventId, Task>, t: Task, d: nat, ds': seq<Task>, os': seq<Task>)
    requires Delays(ds, os, value, clock, ticks) && t !in ds && t !in os && 0 < d < ticks && clock < ticks
    requires ds' == (if Wrap(clock + d, ticks) < clock then ds else Filed(ds, value, Wrap(clock + d, ticks), t))
    requires os' == (if Wrap(clock + d, ticks) < clock then Filed(os, value, Wrap(clock + d, ticks), t) else os)
    ensures Delays(ds', os', value[t := Wrap(clock + d, ticks)], clock, ticks)
    ensures var v := ViewAt(clock, epoch, ticks, ds, os, value, ready, events);
      ViewAt(clock, epoch, ticks, ds', os', value[t := Wrap(clock + d, ticks)], ready, events) == Joined(v, Sleeper(t, v.now + d))
  {
    hide *;
    WrapSmall(clock, ticks);
    WrapAdd(clock, d, ticks);
    ViewIs(clock, epoch, ticks, ds, os, value, ready, events);
    if clock + d < ticks {
      DelaySoon(clock, epoch, ticks, ds, os, value, ready, events, t, d);
    } else {
      DelayLate(clock, epoch, ticks, ds, os, value, ready, events, t, d);
    }
  }

  lemma OtherReady(clock: nat, epoch: nat, ticks: Modulus, ds: seq<Task>, os: seq<Task>, value: map<Task, nat>,
                   ready: ReadyLists, ready': ReadyLists, events: Store<EventId, Task>)
    ensures ViewAt(clock, epoch, ticks, ds, os, value, ready', events) ==
            ViewAt(clock, epoch, ticks, ds, os, value, ready, events).(ready := ready')
  {
    hide Wakes, Epoch;
  }

  lemma JoinedIs(v: View, x: Sleeper)
    ensures Joined(v, x) == v.(sleepers := With(v.sleepers, WakePlace(v.sleepers, x.wake), x))
  {
  }

  lemma JoinDelays(ds: seq<Task>, os: seq<Task>, value: map<Task, nat>, clock: nat, ticks: Modulus, t: Task, w: nat)
    requires Delays(ds, os, value, clock, ticks) && t !in ds && t !in os && clock < w < ticks
    ensures InsertPlace(ValuesOf(ds, value), w) <= |ds|
    ensures Delays(With(ds, InsertPlace(ValuesOf(ds, value), w), t), os, value[t := w], clock, ticks)
  {
    ValuesLength(ds, value);
    WithByValue(ds, t, value, w);
    SameByValue(os, t, value, w);
    WithMembers(ds, InsertPlace(ValuesOf(ds, value), w), t);
    WithNoDup(ds, InsertPlace(ValuesOf(ds, value), w), t);
    hide With, ByValue, NoDup, InsertPlace, ValuesOf;
  }

  lemma JoinOverflow(ds: seq<Task>, os: seq<Task>, value: map<Task, nat>, clock: nat, ticks: Modulus, t: Task, w: nat)
    requires Delays(ds, os, value, clock, ticks) && t !in ds && t !in os && w < ticks
    ensures InsertPlace(ValuesOf(os, value), w) <= |os|
    ensures Delays(ds, With(os, InsertPlace(ValuesOf(os, value), w), t), value[t := w], clock, ticks)
  {
    ValuesLength(os, value);
    WithByValue(os, t, value, w);
    SameByValue(ds, t, value, w);
    WithMembers(os, InsertPlace(ValuesOf(os, value), w), t);
    WithNoDup(os, InsertPlace(ValuesOf(os, value), w), t);
    hide With, ByValue, NoDup, InsertPlace, ValuesOf;
  }

  lemma LeaveReady(ready: ReadyLists, prio: map<Task, nat>, top: nat, t: Task)
    requires ReadyBelow(ready, prio, top) && t in prio && prio[t] in ready && t in ready[prio[t]].items
    ensures ReadyBelow(ready[prio[t] := ready[prio[t]].Remove(t)], prio, top)
  {
  }

  // ----- going to sleep and waiting for events -----

  datatype MaybeEvent = NoEvent | Event(list: nat)

  lemma FiledMembers(ts: seq<Task>, value: map<Task, nat>, w: nat, t: Task)
    ensures forall u :: u in Filed(ts, value, w, t) <==> u == t || u in ts
  {
    FiledIs(ts, value, w, t);
    WithMembers(ts, InsertPlace(ValuesOf(ts, value), w), t);
    hide Filed, With;
  }

  lemma RunningIs(clock: nat, epoch: nat, ticks: Modulus, ds: seq<Task>, os: seq<Task>, value: map<Task, nat>,
                  ready: ReadyLists, events: Store<EventId, Task>, prio: map<Task, nat>, t: Task)
    requires IsReady(ViewAt(clock, epoch, ticks, ds, os, value, ready, events), prio, t) && Homed(ds, os, ready, prio)
    ensures t in prio && prio[t] in ready && t in ready[prio[t]].items && t !in ds && t !in os
  {
    hide Wakes, Epoch;
  }

  lemma NotWaiting(events: Store<EventId, Task>, ds: seq<Task>, os: seq<Task>, itemValue: map<Task, nat>, t: Task)
    requires EventsHome(events, ds, os, itemValue) && t !in ds && t !in os
    ensures t !in events.container
  {
    hide ByValue;
  }

  lemma HomedSleep(ds: seq<Task>, os: seq<Task>, ds': seq<Task>, os': seq<Task>, ready: ReadyLists, prio: map<Task, nat>, t: Task)
    requires Homed(ds, os, ready, prio) && t in prio && prio[t] in ready && t in ready[prio[t]].items
    requires forall u :: u in ds' || u in os' <==> u == t || u in ds || u in os
    ensures Homed(ds', os', ready[prio[t] := ready[prio[t]].Remove(t)], prio)
  {
    var r := ready[prio[t]];
    WithoutMembers(r.items, IndexOf(r.items, t));
    assert NoDup(Without(r.items, IndexOf(r.items, t)));
    hide Without;
  }

  lemma EventsSleep(events: Store<EventId, Task>, ds: seq<Task>, os: seq<Task>, ds': seq<Task>, os': seq<Task>, itemValue: map<Task, nat>, t: Task)
    requires EventsHome(events, ds, os, itemValue) && forall u :: u in ds' || u in os' <==> u == t || u in ds || u in os
    ensures EventsHome(events, ds', os', itemValue)
  {
    hide ByValue, Stores.Valid;
  }

  lemma EventsJoin(events: Store<EventId, Task>, list: nat, ds: seq<Task>, os: seq<Task>, itemValue: map<Task, nat>, t: Task)
    requires EventsHome(events, ds, os, itemValue) && EventL(list) in events.lists && t !in events.container && (t in ds || t in os) && t in itemValue
    ensures var ws := events.Items(EventL(list));
      var k := InsertPlace(ValuesOf(ws, itemValue), At(itemValue, t));
      && k <= |ws| && EventsHome(events.InsertAt(EventL(list), k, t), ds, os, itemValue)
      && events.InsertAt(EventL(list), k, t).Items(EventL(list)) == With(ws, k, t)
      && forall l :: l != EventL(list) ==> events.InsertAt(EventL(list), k, t).Items(l) == events.Items(l)
  {
    var ws := events.Items(EventL(list));
    var k := InsertPlace(ValuesOf(ws, itemValue), At(itemValue, t));
    var r := events.InsertAt(EventL(list), k, t);
    ValuesLength(ws, itemValue);
    hide ByValue, ValuesOf, Store.InsertAt, With;
    InsertAtKeeps(events, EventL(list), k, t);
    assert t !in ws;
    WithByValue(ws, t, itemValue, At(itemValue, t));
    assert itemValue[t := At(itemValue, t)] == itemValue;
    forall e ensures ByValue(r.Items(EventL(e)), itemValue) {
      assert e != list ==> r.Items(EventL(e)) == events.Items(EventL(e));
      assert ByValue(events.Items(EventL(e)), itemValue);
    }
    hide Stores.Valid;
  }

  /** `t` stands behind every waiter of its priority or more, and before the others. */
  ghost predicate JoinsByPriority(ws: seq<Task>, us: seq<Task>, prio: map<Task, nat>, t: Task) {
    exists k :: 0 <= k <= |ws| && us == With(ws, k, t) &&
      (forall i :: 0 <= i < k ==> At(prio, t) <= At(prio, ws[i])) &&
      (forall i :: k <= i < |ws| ==> At(prio, ws[i]) < At(prio, t))
  }

  ghost predicate Ranking(itemValue: map<Task, nat>, prio: map<Task, nat>) {
    forall t, u :: t in prio && u in prio ==>
      t in itemValue && u in itemValue && (itemValue[t] <= itemValue[u] <==> prio[u] <= prio[t])
  }

  lemma RanksJoin(ws: seq<Task>, itemValue: map<Task, nat>, prio: map<Task, nat>, t: Task)
    requires Ranking(itemValue, prio) && ByValue(ws, itemValue) && t in prio && forall w :: w in ws ==> w in prio
    ensures JoinsByPriority(ws, With(ws, InsertPlace(ValuesOf(ws, itemValue), At(itemValue, t)), t), prio, t)
  {
    var vs := ValuesOf(ws, itemValue);
    var k := InsertPlace(vs, At(itemValue, t));
    assert |vs| == |ws| && forall i :: 0 <= i < |ws| ==> vs[i] == At(itemValue, ws[i]);
    hide ValuesOf, With, JoinsByPriority, InsertPlace;
    forall i | 0 <= i < |ws| ensures if i < k then At(prio, t) <= At(prio, ws[i]) else At(prio, ws[i]) < At(prio, t) {
      assert ws[i] in prio;
      if i >= k { assert At(itemValue, ws[k]) <= At(itemValue, ws[i]); }
    }
    JoinsIs(ws, prio, t, k);
  }

  lemma JoinsIs(ws: seq<Task>, prio: map<Task, nat>, t: Task, k: nat)
    requires k <= |ws| && forall i :: 0 <= i < |ws| ==> if i < k then At(prio, t) <= At(prio, ws[i]) else At(prio, ws[i]) < At(prio, t)
    ensures JoinsByPriority(ws, With(ws, k, t), prio, t)
  {
    hide With;
  }

  lemma NextHomed(ds: seq<Task>, os: seq<Task>, ready: ReadyLists, prio: map<Task, nat>, top: nat)
    requires Homed(ds, os, ready, prio) && ReadyBelow(ready, prio, top) && ready[top].items != []
    ensures Homed(ds, os, ready[top := ready[top].Next()], prio) && ReadyBelow(ready[top := ready[top].Next()], prio, top)
  {
  }

  lemma EventsPend(events: Store<EventId, Task>, ds: seq<Task>, os: seq<Task>, itemValue: map<Task, nat>, list: nat)
    requires EventsHome(events, ds, os, itemValue) && events.Items(EventL(list)) != []
    ensures var t := events.Items(EventL(list))[0]; EventsHome(events.Remove(t).InsertEnd(PendingL, t), ds, os, itemValue)
  {
    var t := events.Items(EventL(list))[0];
    var u, r := events.Remove(t), events.Remove(t).InsertEnd(PendingL, t);
    assert t in events.Items(EventL(list));
    hide ByValue, Store.Remove, Store.InsertEnd, Dropped, NoDup;
    RemoveKeeps(events, t);
    InsertEndKeeps(u, PendingL, t);
    forall e ensures ByValue(r.Items(EventL(e)), itemValue) {
      RemoveDrops(events, t, EventL(e));
      DroppedFacts(events.Items(EventL(e)), itemValue, t);
      assert r.Items(EventL(e)) == u.Items(EventL(e));
    }
    hide Stores.Valid;
  }

  lemma WaitersNamed(events: Store<EventId, Task>, ds: seq<Task>, os: seq<Task>, itemValue: map<Task, nat>, ready: ReadyLists,
                     prio: map<Task, nat>, list: nat)
    requires EventsHome(events, ds, os, itemValue) && Homed(ds, os, ready, prio)
    ensures ByValue(events.Items(EventL(list)), itemValue) && forall u :: u in events.Items(EventL(list)) ==> u in prio
  {
    hide ByValue;
  }

  lemma WaitersRanked(events: Store<EventId, Task>, ds: seq<Task>, os: seq<Task>, itemValue: map<Task, nat>, ready: ReadyLists,
                      prio: map<Task, nat>, list: nat)
    requires EventsHome(events, ds, os, itemValue) && Homed(ds, os, ready, prio) && Ranking(itemValue, prio) && events.Items(EventL(list)) != []
    ensures var ws := events.Items(EventL(list)); forall u :: u in ws ==> u in prio && ws[0] in prio && prio[u] <= prio[ws[0]]
  {
    var ws := events.Items(EventL(list));
    WaitersNamed(events, ds, os, itemValue, ready, prio, list);
    hide EventsHome, Homed, Store.Items;
    forall u | u in ws ensures u in prio && ws[0] in prio && prio[u] <= prio[ws[0]] {
      assert ws[0] in ws;
      var i := IndexOf(ws, u);
      assert At(itemValue, ws[0]) <= At(itemValue, ws[i]);
    }
  }

  class CoScheduler {
    const ticks: Modulus
    const uxPriority: map<Task, nat>
    const itemValue: map<Task, nat>   // xEventListItem.xItemValue
    var delayed: seq<Task>
    var overflowDelayed: seq<Task>
    var value: map<Task, nat>
    var ready: ReadyLists
    var events: Store<EventId, Task>
    var uxTopReadyPriority: nat
    var pxCurrent: Task
    var xCoRoutineTickCount: nat
    var xLastTickCount: nat
    ghost var epoch: nat

    /** `prvInitialiseCoRoutineLists`, for co-routines of the given priorities and event lists of the given numbers. */
    constructor (ticks: Modulus, priorities: nat, prio: map<Task, nat>, objects: set<nat>)
      requires priorities > 0 && forall t :: t in prio ==> prio[t] < priorities
      ensures Valid() && State().now == 0 && State().sleepers == []
    {
      this.ticks, uxPriority := ticks, prio;
      itemValue := map t | t in prio :: priorities - prio[t];
      delayed, overflowDelayed, value := [], [], map[];
      ready := NoneReady(priorities);
      events := Store(map l | l in EventIds(objects) :: Ring([], 0), map[]);
      uxTopReadyPriority, pxCurrent, xCoRoutineTickCount, xLastTickCount, epoch := 0, 0, 0, 0, 0;
    }

    /** The co-routines in unbounded time. */
    ghost function State(): View
      reads this
    {
      ViewAt(xCoRoutineTickCount, epoch, ticks, delayed, overflowDelayed, value, ready, events)
    }

    ghost predicate Valid()
      reads this
    {
      && xCoRoutineTickCount < ticks && xLastTickCount == xCoRoutineTickCount
      && Delays(delayed, overflowDelayed, value, xCoRoutineTickCount, ticks)
      && ReadyBelow(ready, uxPriority, uxTopReadyPriority) && Homed(delayed, overflowDelayed, ready, uxPriority)
      && EventsHome(events, delayed, overflowDelayed, itemValue) && Ranking(itemValue, uxPriority)
    }

    /** `prvAddCoRoutineToReadyQueue`. */
    method AddToReadyQueue(t: Task)
      requires ReadyBelow(ready, uxPriority, uxTopReadyPriority)
      modifies this`ready, this`uxTopReadyPriority
      ensures ready == MakeReady(old(ready), uxPriority, t) && ReadyBelow(ready, uxPriority, uxTopReadyPriority)
    {
      MakeReadyBelow(ready, uxPriority, uxTopReadyPriority, t);
      hide ReadyBelow;
      if t in uxPriority {
        if uxPriority[t] > uxTopReadyPriority { uxTopReadyPriority := uxPriority[t]; }
      }
      ready := MakeReady(ready, uxPriority, t);
    }

    /** The inner loop of `prvCheckDelayedList`. */
    method ReleaseExpired()
      requires xCoRoutineTickCount < ticks && ReadyBelow(ready, uxPriority, uxTopReadyPriority)
      requires Homed(delayed, overflowDelayed, ready, uxPriority) && EventsHome(events, delayed, overflowDelayed, itemValue)
      requires DelaysDue(delayed, overflowDelayed, value, xCoRoutineTickCount, ticks)
      modifies this`delayed, this`ready, this`events, this`uxTopReadyPriority
      ensures State() == ReleaseDue(old(State()), uxPriority)
      ensures Delays(delayed, overflowDelayed, value, xCoRoutineTickCount, ticks)
      ensures ReadyBelow(ready, uxPriority, uxTopReadyPriority)
      ensures Homed(delayed, overflowDelayed, ready, uxPriority) && EventsHome(events, delayed, overflowDelayed, itemValue)
    {
      hide ReadyBelow, Homed, EventsHome, ViewAt, DelaysDue, Delays, MakeReady, Release, Store.Remove;
      ghost var v := State();
      while delayed != []
        invariant ReadyBelow(ready, uxPriority, uxTopReadyPriority)
        invariant Homed(delayed, overflowDelayed, ready, uxPriority) && EventsHome(events, delayed, overflowDelayed, itemValue)
        invariant DelaysDue(delayed, overflowDelayed, value, xCoRoutineTickCount, ticks)
        invariant ReleaseDue(v, uxPriority) == ReleaseDue(State(), uxPriority)
        decreases |delayed|
      {
        var t := delayed[0];
        if xCoRoutineTickCount < At(value, t) { break; }
        ReleaseView(xCoRoutineTickCount, epoch, ticks, delayed, overflowDelayed, value, ready, events, uxPriority);
        StillDue(xCoRoutineTickCount, epoch, ticks, delayed, overflowDelayed, value, ready, events, uxPriority);
        DropDue(delayed, overflowDelayed, value, xCoRoutineTickCount, ticks);
        HeadLeaves(delayed, overflowDelayed, value, xCoRoutineTickCount, ticks);
        HomedLeave(delayed, overflowDelayed, delayed[1..], overflowDelayed, ready, uxPriority, t);
        EventsLeave(events, delayed, overflowDelayed, delayed[1..], overflowDelayed, itemValue, t);
        delayed := delayed[1..];
        events := events.Remove(t);
        AddToReadyQueue(t);
      }
      NoneDue(xCoRoutineTickCount, epoch, ticks, delayed, overflowDelayed, value, ready, events, uxPriority);
    }

    /** One round of the outer loop: the clock steps, and the lists are switched when it wraps. */
    method Tick()
      requires xCoRoutineTickCount < ticks && ReadyBelow(ready, uxPriority, uxTopReadyPriority)
      requires Homed(delayed, overflowDelayed, ready, uxPriority) && EventsHome(events, delayed, overflowDelayed, itemValue)
      requires Delays(delayed, overflowDelayed, value, xCoRoutineTickCount, ticks)
      modifies this`xCoRoutineTickCount, this`delayed, this`overflowDelayed, this`epoch, this`ready, this`events, this`uxTopReadyPriority
      ensures State() == TickOnce(old(State()), uxPriority)
      ensures xCoRoutineTickCount == if old(xCoRoutineTickCount) + 1 < ticks then old(xCoRoutineTickCount) + 1 else 0
      ensures Delays(delayed, overflowDelayed, value, xCoRoutineTickCount, ticks)
      ensures ReadyBelow(ready, uxPriority, uxTopReadyPriority)
      ensures Homed(delayed, overflowDelayed, ready, uxPriority) && EventsHome(events, delayed, overflowDelayed, itemValue)
    {
      hide ReadyBelow, Homed, EventsHome, ViewAt, DelaysDue, Delays;
      TickDelays(delayed, overflowDelayed, value, xCoRoutineTickCount, ticks);
      TickView(xCoRoutineTickCount, epoch, ticks, delayed, overflowDelayed, value, ready, events);
      xCoRoutineTickCount := if xCoRoutineTickCount + 1 < ticks then xCoRoutineTickCount + 1 else 0;
      if xCoRoutineTickCount == 0 {
        Exchanged(delayed, overflowDelayed, ready, uxPriority, events, itemValue);
        delayed, overflowDelayed := overflowDelayed, delayed;
        epoch := epoch + 1;
      }
      ReleaseExpired();
    }

    /**
     * `prvCheckDelayedList`, when the tick count reads `tickCount`: the clock catches up with it, and
     * the co-routines are where that many single ticks would have put them.
     */
    method CheckDelayedList(tickCount: nat)
      requires Valid() && tickCount < ticks
      modifies this
      ensures Valid() && xCoRoutineTickCount == tickCount
      ensures State() == Ticks(old(State()), uxPriority, Minus(tickCount, old(xLastTickCount), ticks))
      ensures State().now == old(State().now) + Minus(tickCount, old(xLastTickCount), ticks)
      ensures forall x :: x in State().sleepers <==> x in old(State().sleepers) && State().now < x.wake
      ensures forall x :: x in old(State().sleepers) && x.wake <= State().now ==> IsReady(State(), uxPriority, x.task)
    {
      hide ReadyBelow, Homed, EventsHome, ViewAt, DelaysDue, Delays, TickOnce;
      ghost var v := State();
      var passed := Minus(tickCount, xLastTickCount, ticks);
      ghost var passedTicks := passed;
      ReadyToTick(xCoRoutineTickCount, epoch, ticks, delayed, overflowDelayed, value, ready, events, uxPriority, uxTopReadyPriority);
      AfterTicks(v, uxPriority, passed);
      while passed > 0
        invariant xCoRoutineTickCount < ticks && Minus(tickCount, xCoRoutineTickCount, ticks) == passed
        invariant ReadyBelow(ready, uxPriority, uxTopReadyPriority)
        invariant Homed(delayed, overflowDelayed, ready, uxPriority) && EventsHome(events, delayed, overflowDelayed, itemValue)
        invariant Delays(delayed, overflowDelayed, value, xCoRoutineTickCount, ticks)
        invariant Ticks(v, uxPriority, passedTicks) == Ticks(State(), uxPriority, passed)
      {
        Tick();
        passed := passed - 1;
      }
      xLastTickCount := xCoRoutineTickCount;
    }

    /** `prvCheckPendingReadyList`. */
    method CheckPendingReadyList()
      requires Valid()
      modifies this`delayed, this`overflowDelayed, this`ready, this`events, this`uxTopReadyPriority
      ensures Valid() && State() == WakePending(old(State()), uxPriority) && events.Items(PendingL) == []
      ensures Moved(old(delayed), old(overflowDelayed), old(ready), delayed, overflowDelayed, ready, uxPriority, old(events.Items(PendingL)))
    {
      hide ReadyBelow, Homed, EventsHome, ViewAt, Delays, Moved, WakePending, Store.Items;
      ghost var v, woken, n := State(), events.Items(PendingL), 0;
      NoneMoved(delayed, overflowDelayed, ready, uxPriority);
      while events.Items(PendingL) != []
        invariant Valid() && WakePending(v, uxPriority) == WakePending(State(), uxPriority)
        invariant n <= |woken| && events.Items(PendingL) == woken[n..]
        invariant Moved(old(delayed), old(overflowDelayed), old(ready), delayed, overflowDelayed, ready, uxPriority, woken[..n])
        decreases |events.Items(PendingL)|
      {
        ghost var ds, os, rs := delayed, overflowDelayed, ready;
        WakeFirst();
        MovesOn(old(delayed), old(overflowDelayed), old(ready), ds, os, rs, delayed, overflowDelayed, ready, uxPriority, woken, n);
        n := n + 1;
      }
      assert woken[..n] == woken;
      WakeView(xCoRoutineTickCount, epoch, ticks, delayed, overflowDelayed, value, ready, events, uxPriority, 0);
    }

    method WakeFirst()
      requires Valid() && events.Items(PendingL) != []
      modifies this`delayed, this`overflowDelayed, this`ready, this`events, this`uxTopReadyPriority
      ensures WakePending(State(), uxPriority) == WakePending(old(State()), uxPriority)
      ensures events.Items(PendingL) == old(events.Items(PendingL)[1..])
      ensures Moved(old(delayed), old(overflowDelayed), old(ready), delayed, overflowDelayed, ready, uxPriority, [old(events.Items(PendingL)[0])])
      ensures Valid()
    {
      hide ReadyBelow, Homed, EventsHome, ViewAt, Delays, Moved, WakePending, Store.Items, Store.Remove, Dropped;
      var t := events.Items(PendingL)[0];
      ghost var ds, os, rs := delayed, overflowDelayed, ready;
      PendingSleeps(events, delayed, overflowDelayed, itemValue);
      DelaysLeave(delayed, overflowDelayed, value, xCoRoutineTickCount, ticks, t);
      HomedLeave(delayed, overflowDelayed, Dropped(delayed, t), Dropped(overflowDelayed, t), ready, uxPriority, t);
      EventsLeave(events, delayed, overflowDelayed, Dropped(delayed, t), Dropped(overflowDelayed, t), itemValue, t);
      DropDelays(delayed, overflowDelayed, value, xCoRoutineTickCount, ticks, t);
      MovesOne(ds, os, rs, uxPriority, uxTopReadyPriority, value, xCoRoutineTickCount, ticks, t);
      WakeView(xCoRoutineTickCount, epoch, ticks, delayed, overflowDelayed, value, ready, events, uxPriority, t);
      events := events.Remove(t);
      delayed, overflowDelayed := Dropped(delayed, t), Dropped(overflowDelayed, t);
      AddToReadyQueue(t);
    }

    /**
     * `vCoRoutineAddToDelayedList`: the running co-routine leaves its ready list, is filed at the place
     * of its unbounded wake time, and joins the list of an event, if it waits for one.
     */
    method AddToDelayedList(ticksToDelay: nat, event: MaybeEvent)
      requires Valid() && 0 < ticksToDelay < ticks && IsReady(State(), uxPriority, pxCurrent)
      requires event.Event? ==> EventL(event.list) in events.lists
      modifies this`delayed, this`overflowDelayed, this`ready, this`value, this`events
      ensures ready == old(ready)[uxPriority[pxCurrent] := old(ready)[uxPriority[pxCurrent]].Remove(pxCurrent)]
      ensures State() == Joined(old(State()), Sleeper(pxCurrent, old(State()).now + ticksToDelay)).(ready := ready, events := events)
      ensures if event.NoEvent? then events == old(events)
              else JoinsByPriority(old(events).Items(EventL(event.list)), events.Items(EventL(event.list)), uxPriority, pxCurrent) &&
                   forall l :: l != EventL(event.list) ==> events.Items(l) == old(events).Items(l)
      ensures Valid()
    {
      hide ReadyBelow, Homed, EventsHome, Delays, Joined, ViewAt, Ring.Remove, IsReady, MakeReady, JoinsByPriority, Ranking;
      ghost var v, ds, os := State(), delayed, overflowDelayed;
      RunningIs(xCoRoutineTickCount, epoch, ticks, ds, os, value, ready, events, uxPriority, pxCurrent);
      NotWaiting(events, ds, os, itemValue, pxCurrent);
      LeaveReady(ready, uxPriority, uxTopReadyPriority, pxCurrent);
      FileCurrent(ticksToDelay);
      HomedSleep(ds, os, delayed, overflowDelayed, ready, uxPriority, pxCurrent);
      EventsSleep(events, ds, os, delayed, overflowDelayed, itemValue, pxCurrent);
      OtherReady(xCoRoutineTickCount, epoch, ticks, delayed, overflowDelayed, value, ready,
                 ready[uxPriority[pxCurrent] := ready[uxPriority[pxCurrent]].Remove(pxCurrent)], events);
      ready := ready[uxPriority[pxCurrent] := ready[uxPriority[pxCurrent]].Remove(pxCurrent)];
      ViewIs(xCoRoutineTickCount, epoch, ticks, delayed, overflowDelayed, value, ready, events);
      if event.Event? {
        JoinEvent(event.list);
      }
    }

    /** File the event item of the running co-routine in the list of an event. */
    method JoinEvent(list: nat)
      requires EventL(list) in events.lists && EventsHome(events, delayed, overflowDelayed, itemValue) && Ranking(itemValue, uxPriority)
      requires pxCurrent !in events.container && (pxCurrent in delayed || pxCurrent in overflowDelayed)
      requires Homed(delayed, overflowDelayed, ready, uxPriority)
      modifies this`events
      ensures EventsHome(events, delayed, overflowDelayed, itemValue)
      ensures JoinsByPriority(old(events).Items(EventL(list)), events.Items(EventL(list)), uxPriority, pxCurrent)
      ensures forall l :: l != EventL(list) ==> events.Items(l) == old(events).Items(l)
      ensures State() == old(State()).(events := events)
    {
      hide Stores.Valid, Store.InsertAt, ValuesOf, ByValue, JoinsByPriority, Wakes, Epoch;
      WaitersNamed(events, delayed, overflowDelayed, itemValue, ready, uxPriority, list);
      var place := InsertPlace(ValuesOf(events.Items(EventL(list)), itemValue), At(itemValue, pxCurrent));
      EventsJoin(events, list, delayed, overflowDelayed, itemValue, pxCurrent);
      RanksJoin(events.Items(EventL(list)), itemValue, uxPriority, pxCurrent);
      events := events.InsertAt(EventL(list), place, pxCurrent);
    }

    /**
     * `xCoRoutineRemoveFromEventList`, called from an interrupt: a waiter of the highest priority is
     * readied, which the scheduler will see in its pending list.  The result asks for a switch.
     */
    method RemoveFromEventList(list: nat) returns (outranks: bool)
      requires Valid() && events.Items(EventL(list)) != []
      modifies this`events
      ensures var t := old(events).Items(EventL(list))[0];
        && events == old(events).Remove(t).InsertEnd(PendingL, t) && State() == old(State()).(events := events)
        && t in uxPriority && (forall u :: u in old(events).Items(EventL(list)) ==> u in uxPriority && uxPriority[u] <= uxPriority[t])
        && (outranks <==> At(uxPriority, pxCurrent) <= uxPriority[t])
      ensures Valid()
    {
      hide ReadyBelow, Delays, Stores.Valid, Store.Remove, Store.InsertEnd, ByValue, Wakes, Epoch, Store.Items;
      var t := events.Items(EventL(list))[0];
      WaitersRanked(events, delayed, overflowDelayed, itemValue, ready, uxPriority, list);
      EventsPend(events, delayed, overflowDelayed, itemValue, list);
      events := events.Remove(t).InsertEnd(PendingL, t);
      outranks := At(uxPriority, t) >= At(uxPriority, pxCurrent);
    }

    method FileCurrent(ticksToDelay: nat)
      requires xCoRoutineTickCount < ticks && 0 < ticksToDelay < ticks
      requires Delays(delayed, overflowDelayed, value, xCoRoutineTickCount, ticks)
      requires pxCurrent !in delayed && pxCurrent !in overflowDelayed
      modifies this`delayed, this`overflowDelayed, this`value
      ensures State() == Joined(old(State()), Sleeper(pxCurrent, old(State()).now + ticksToDelay))
      ensures Delays(delayed, overflowDelayed, value, xCoRoutineTickCount, ticks)
      ensures forall u :: u in delayed || u in overflowDelayed <==> u == pxCurrent || u in old(delayed) || u in old(overflowDelayed)
    {
      hide Delays, Filed, Joined, ViewAt, Wrap;
      var timeToWake := Wrap(xCoRoutineTickCount + ticksToDelay, ticks);
      ghost var ds := if timeToWake < xCoRoutineTickCount then delayed else Filed(delayed, value, timeToWake, pxCurrent);
      ghost var os := if timeToWake < xCoRoutineTickCount then Filed(overflowDelayed, value, timeToWake, pxCurrent) else overflowDelayed;
      DelayView(xCoRoutineTickCount, epoch, ticks, delayed, overflowDelayed, value, ready, events, pxCurrent, ticksToDelay, ds, os);
      FiledMembers(delayed, value, timeToWake, pxCurrent);
      FiledMembers(overflowDelayed, value, timeToWake, pxCurrent);
      if timeToWake < xCoRoutineTickCount {
        overflowDelayed := Filed(overflowDelayed, value, timeToWake, pxCurrent);
      } else {
        delayed := Filed(delayed, value, timeToWake, pxCurrent);
      }
      value := value[pxCurrent := timeToWake];
    }

    /**
     * The choice of `vCoRoutineSchedule`: the next in turn of the highest priority that has a ready
     * co-routine, and none exactly when none is ready.
     */
    method Select() returns (found: bool)
      requires Valid()
      modifies this`uxTopReadyPriority, this`ready, this`pxCurrent
      ensures Valid() && (found <==> exists p :: p in old(ready) && old(ready)[p].items != [])
      ensures var p := uxTopReadyPriority;
        && p in old(ready) && (forall q :: q in old(ready) && old(ready)[q].items != [] ==> q <= p)
        && (found ==> old(ready)[p].items != [] && pxCurrent == old(ready)[p].Selected()
                      && ready == old(ready)[p := old(ready)[p].Next()])
        && (!found ==> ready == old(ready))
    {
      hide Homed, EventsHome, Delays, Ranking;
      while ready[uxTopReadyPriority].items == []
        invariant ReadyBelow(ready, uxPriority, uxTopReadyPriority) && ready == old(ready) && pxCurrent == old(pxCurrent)
        decreases uxTopReadyPriority
      {
        if uxTopReadyPriority == 0 {
          return false;
        }
        uxTopReadyPriority := uxTopReadyPriority - 1;
      }
      NextHomed(delayed, overflowDelayed, ready, uxPriority, uxTopReadyPriority);
      var next := ready[uxTopReadyPriority].Next();
      ready := ready[uxTopReadyPriority := next];
      pxCurrent := next.items[next.index - 1];
      found := true;
    }
  }

  /**
   * However far the tick count has moved since the last call (less than its range), catching up
   * takes exactly the ticks that passed: the co-routines left asleep are those whose unbounded wake
   * time is still to come, and all others have been readied in the order of their wake times.
   */
  lemma CatchesUp(v: View, prio: map<Task, nat>, time: nat, ticks: Modulus)
    requires WakeOrder(v.sleepers) && HasLists(v, prio) && v.now <= time < v.now + ticks
    requires forall x :: x in v.sleepers ==> v.now < x.wake
    ensures var u := Ticks(v, prio, Minus(Wrap(time, ticks), Wrap(v.now, ticks), ticks));
      && u.now == time && u == ReleaseDue(v.(now := time), prio)
      && (forall x :: x in u.sleepers <==> x in v.sleepers && time < x.wake)
      && (forall x :: x in v.sleepers && x.wake <= time ==> IsReady(u, prio, x.task))
  {
    hide *;
    AllAhead(v);
    MinusIsExact(time, v.now, ticks);
    TicksAtOnce(v, prio, time - v.now);
    AfterTicks(v, prio, time - v.now);
  }

  lemma AllAhead(v: View)
    requires forall x :: x in v.sleepers ==> v.now < x.wake
    ensures NotDue(v)
  {
    if v.sleepers != [] { assert v.sleepers[0] in v.sleepers; }
  }

  lemma AfterTicks(v: View, prio: map<Task, nat>, n: nat)
    requires WakeOrder(v.sleepers) && HasLists(v, prio) && forall x :: x in v.sleepers ==> v.now < x.wake
    ensures var u := Ticks(v, prio, n);
      && u.now == v.now + n && (forall x :: x in u.sleepers <==> x in v.sleepers && u.now < x.wake)
      && (forall x :: x in v.sleepers && x.wake <= u.now ==> IsReady(u, prio, x.task))
  {
    hide *;
    var u := Ticks(v, prio, n);
    WakesOnItsTick(v, prio, Sleeper(0, 0), n);
    forall x ensures x in u.sleepers <==> x in v.sleepers && u.now < x.wake {
      WakesOnItsTick(v, prio, x, n);
    }
    forall x | x in v.sleepers && x.wake <= u.now ensures IsReady(u, prio, x.task) {
      ReadyFromItsTick(v, prio, x, n);
    }
  }

  lemma StillDue(clock: nat, epoch: nat, ticks: Modulus, ds: seq<Task>, os: seq<Task>, value: map<Task, nat>,
                 ready: ReadyLists, events: Store<EventId, Task>, prio: map<Task, nat>)
    requires ds != [] && At(value, ds[0]) <= clock
    ensures var v := ViewAt(clock, epoch, ticks, ds, os, value, ready, events);
      v.sleepers != [] && ReleaseDue(v, prio) == ReleaseDue(Release(v, prio), prio)
  {
    ReleaseView(clock, epoch, ticks, ds, os, value, ready, events, prio);
    hide Epoch, Release;
  }
}