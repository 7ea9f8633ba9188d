/**
 * The scheduler's clock without tick arithmetic: one unbounded tick counter, one list of sleeping
 * tasks ordered by unbounded wake time, the ready lists, and the event lists that sleepers may also
 * be waiting in.  The two wrapping delayed lists of the kernel are proved to implement this.
 */
module Timeline {
  import opened Rings
  import opened Stores

  type Task = nat  // a task handle

  /** Where an event list item can be: the pending-ready list or the list of some kernel object. */
  datatype EventId = PendingL | EventL(id: nat)

  /** The lists there are when the kernel objects have lists numbered `objects`. */
  function EventIds(objects: set<nat>): set<EventId> {
    (set e | e in objects :: EventL(e)) + {PendingL}
  }

  datatype Sleeper = Sleeper(task: Task, wake: nat)

  type ReadyLists = map<nat, Ring<Task>>

  datatype View = View(now: nat, sleepers: seq<Sleeper>, ready: ReadyLists, events: Store<EventId, Task>)

  ghost predicate WakeOrder(s: seq<Sleeper>) {
    && (forall i, j :: 0 <= i < j < |s| ==> s[i].wake <= s[j].wake)
    && (forall i, j :: 0 <= i < j < |s| ==> s[i].task != s[j].task)
  }

  /** How many leading sleepers wake no later than `w`. */
  function WakePlace(s: seq<Sleeper>, w: nat): (k: nat)
    ensures k <= |s|
    ensures forall j :: 0 <= j < k ==> s[j].wake <= w
    ensures k < |s| ==> w < s[k].wake
  {
    if s == [] || w < s[0].wake then 0 else WakePlace(s[1..], w) + 1
  }

  /** Append `t` to the ready list of its priority. */
  function MakeReady(ready: ReadyLists, prio: map<Task, nat>, t: Task): ReadyLists {
    if t in prio && prio[t] in ready && ready[prio[t]].index <= |ready[prio[t]].items|
    then ready[prio[t] := ready[prio[t]].InsertEnd(t)] else ready
  }

  /** The first sleeper times out: it leaves its event list, if any, and becomes ready. */
  function Release(v: View, prio: map<Task, nat>): View
    requires v.sleepers != []
  {
    var t := v.sleepers[0].task;
    View(v.now, v.sleepers[1..], MakeReady(v.ready, prio, t), v.events.Remove(t))
  }

  function ReleaseDue(v: View, prio: map<Task, nat>): View
    decreases |v.sleepers|
  {
    if v.sleepers != [] && v.sleepers[0].wake <= v.now then ReleaseDue(Release(v, prio), prio) else v
  }

  /** One processed tick. */
  function TickOnce(v: View, prio: map<Task, nat>): View
  {
    ReleaseDue(v.(now := v.now + 1), prio)
  }

  function Ticks(v: View, prio: map<Task, nat>, n: nat): View
    decreases n
  {
    if n == 0 then v else Ticks(TickOnce(v, prio), prio, n - 1)
  }

  // ----- what a tick does to each sleeper -----

  lemma {:induction false} ReleaseDueDropsPrefix(v: View, prio: map<Task, nat>)
    requires WakeOrder(v.sleepers)
    ensures ReleaseDue(v, prio).now == v.now
    ensures ReleaseDue(v, prio).sleepers == v.sleepers[WakePlace(v.sleepers, v.now)..]
    decreases |v.sleepers|
  {
    if v.sleepers != [] && v.sleepers[0].wake <= v.now {
      ReleaseDueDropsPrefix(Release(v, prio), prio);
      var k := WakePlace(v.sleepers[1..], v.now);
      assert v.sleepers[1..][k..] == v.sleepers[k + 1..];
    }
  }

  lemma WakePlaceSplits(s: seq<Sleeper>, w: nat)
    requires WakeOrder(s)
    ensures WakeOrder(s[WakePlace(s, w)..])
    ensures forall x :: x in s[WakePlace(s, w)..] <==> x in s && w < x.wake
  {
    var k := WakePlace(s, w);
    assert forall j :: k <= j < |s| ==> s[j] == s[k..][j - k] && w < s[j].wake;
  }

  /** One tick keeps exactly the sleepers whose time has not come. */
  lemma TickKeepsLater(v: View, prio: map<Task, nat>)
    requires WakeOrder(v.sleepers)
    ensures TickOnce(v, prio).now == v.now + 1 && WakeOrder(TickOnce(v, prio).sleepers)
    ensures forall x :: x in TickOnce(v, prio).sleepers <==> x in v.sleepers && v.now + 1 < x.wake
  {
    ReleaseDueDropsPrefix(v.(now := v.now + 1), prio);
    WakePlaceSplits(v.sleepers, v.now + 1);
  }

  /**
   * A task that is to wake at `x.wake` is still asleep after n ticks exactly when that time has
   * not come: it leaves on the tick numbered x.wake - now, never earlier and never later.
   */
  lemma {:induction false} WakesOnItsTick(v: View, prio: map<Task, nat>, x: Sleeper, n: nat)
    requires WakeOrder(v.sleepers)
    ensures Ticks(v, prio, n).now == v.now + n && WakeOrder(Ticks(v, prio, n).sleepers)
    ensures x in Ticks(v, prio, n).sleepers <==> x in v.sleepers && (n == 0 || v.now + n < x.wake)
    decreases n
  {
    if n > 0 {
      TickKeepsLater(v, prio);
      WakesOnItsTick(TickOnce(v, prio), prio, x, n - 1);
    }
  }

  ghost predicate IsReady(v: View, prio: map<Task, nat>, t: Task) {
    t in prio && prio[t] in v.ready && t in v.ready[prio[t]].items
  }

  /** Every priority in use has a ready list. */
  ghost predicate HasLists(v: View, prio: map<Task, nat>) {
    && (forall p :: p in v.ready ==> v.ready[p].index <= |v.ready[p].items|)
    && (forall x :: x in v.sleepers ==> x.task in prio && prio[x.task] in v.ready)
  }

  lemma ReleaseReadies(v: View, prio: map<Task, nat>, t: Task)
    requires HasLists(v, prio) && v.sleepers != []
    ensures HasLists(Release(v, prio), prio)
    ensures t == v.sleepers[0].task || IsReady(v, prio, t) ==> IsReady(Release(v, prio), prio, t)
  {
    var p := prio[v.sleepers[0].task];
    WithMembers(v.ready[p].items, v.ready[p].EndPlace(), v.sleepers[0].task);
  }

  lemma {:induction false} ReleaseDueReadies(v: View, prio: map<Task, nat>, x: Sleeper)
    requires HasLists(v, prio)
    requires IsReady(v, prio, x.task) || (WakeOrder(v.sleepers) && x in v.sleepers && x.wake <= v.now)
    ensures HasLists(ReleaseDue(v, prio), prio) && IsReady(ReleaseDue(v, prio), prio, x.task)
    decreases |v.sleepers|
  {
    if v.sleepers != [] && v.sleepers[0].wake <= v.now {
      ReleaseReadies(v, prio, x.task);
      ReleaseDueReadies(Release(v, prio), prio, x);
    }
  }

  /** ... and from that tick on it is in the ready list of its priority. */
  lemma {:induction false} ReadyFromItsTick(v: View, prio: map<Task, nat>, x: Sleeper, n: nat)
    requires HasLists(v, prio)
    requires IsReady(v, prio, x.task) || (WakeOrder(v.sleepers) && x in v.sleepers && v.now < x.wake)
    ensures IsReady(v, prio, x.task) || x.wake <= v.now + n ==> IsReady(Ticks(v, prio, n), prio, x.task)
    decreases n
  {
    if n > 0 {
      var u := v.(now := v.now + 1);
      if WakeOrder(v.sleepers) { TickKeepsLater(v, prio); }
      ReleaseDueKeepsLists(u, prio);
      if IsReady(v, prio, x.task) || x.wake <= u.now { ReleaseDueReadies(u, prio, x); }
      ReadyFromItsTick(TickOnce(v, prio), prio, x, n - 1);
    }
  }

  lemma {:induction false} ReleaseDueKeepsLists(v: View, prio: map<Task, nat>)
    requires HasLists(v, prio)
    ensures HasLists(ReleaseDue(v, prio), prio)
    decreases |v.sleepers|
  {
    if v.sleepers != [] && v.sleepers[0].wake <= v.now {
      ReleaseReadies(v, prio, v.sleepers[0].task);
      ReleaseDueKeepsLists(Release(v, prio), prio);
    }
  }

  /** Ticks taken in two batches have the effect of all of them taken at once. */
  lemma {:induction false} TicksAdd(v: View, prio: map<Task, nat>, a: nat, b: nat)
    ensures Ticks(v, prio, a + b) == Ticks(Ticks(v, prio, a), prio, b)
    decreases a
  {
    if a > 0 { TicksAdd(TickOnce(v, prio), prio, a - 1, b); }
  }

  ghost predicate NotDue(v: View) { v.sleepers != [] ==> v.now < v.sleepers[0].wake }

  lemma {:induction false} ReleaseTwice(v: View, prio: map<Task, nat>, later: nat)
    requires v.now <= later
    ensures ReleaseDue(ReleaseDue(v, prio).(now := later), prio) == ReleaseDue(v.(now := later), prio)
    ensures NotDue(ReleaseDue(v, prio)) && ReleaseDue(v, prio).now == v.now
    decreases |v.sleepers|
  {
    if v.sleepers != [] && v.sleepers[0].wake <= v.now { ReleaseTwice(Release(v, prio), prio, later); }
  }

  /** Catching up tick by tick readies the sleepers in the order of their wake times, whatever the ticks between. */
  lemma {:induction false} TicksAtOnce(v: View, prio: map<Task, nat>, n: nat)
    requires NotDue(v)
    ensures Ticks(v, prio, n) == ReleaseDue(v.(now := v.now + n), prio)
    decreases n
  {
    if n > 0 {
      ReleaseTwice(v.(now := v.now + 1), prio, v.now + n);
      TicksAtOnce(TickOnce(v, prio), prio, n - 1);
    }
  }
}
