/**
 * Two lists ordered by wrapping wake values, one for the current epoch of a tick count and one for
 * the next, read as a single list ordered by unbounded wake time.
 */
module TwoLists {
  import opened Rings
  import opened Stores
  import opened Timeline

  function At(m: map<Task, nat>, t: Task): nat {
    if t in m then m[t] else 0
  }

  function ValuesOf(ts: seq<Task>, value: map<Task, nat>): seq<nat> {
    seq(|ts|, i requires 0 <= i < |ts| => At(value, ts[i]))
  }

  lemma ValuesLength(ts: seq<Task>, value: map<Task, nat>)
    ensures |ValuesOf(ts, value)| == |ts|
  {
  }

  ghost predicate ByValue(ts: seq<Task>, value: map<Task, nat>) {
    forall i, j :: 0 <= i < j < |ts| ==> At(value, ts[i]) <= At(value, ts[j])
  }

  lemma WithoutByValue(ts: seq<Task>, k: nat, value: map<Task, nat>)
    requires k < |ts| && ByValue(ts, value)
    ensures ByValue(Without(ts, k), value)
  {
  }

  lemma SameByValue(ts: seq<Task>, t: Task, value: map<Task, nat>, w: nat)
    requires ByValue(ts, value) && t !in ts
    ensures ByValue(ts, value[t := w]) && ValuesOf(ts, value[t := w]) == ValuesOf(ts, value)
  {
  }

  lemma WithByValue(ts: seq<Task>, t: Task, value: map<Task, nat>, w: nat)
    requires ByValue(ts, value) && t !in ts
    ensures ByValue(With(ts, InsertPlace(ValuesOf(ts, value), w), t), value[t := w])
  {
    var vs := ValuesOf(ts, value);
    var k := InsertPlace(vs, w);
    InsertPlaceIsStable(vs, w);
    forall i, j | 0 <= i < j <= |ts| ensures At(value[t := w], With(ts, k, t)[i]) <= At(value[t := w], With(ts, k, t)[j]) {
      assert With(vs, k, w)[i] <= With(vs, k, w)[j];
    }
  }

  // ----- in unbounded time -----

  function Wakes(ts: seq<Task>, value: map<Task, nat>, origin: nat): seq<Sleeper> {
    seq(|ts|, i requires 0 <= i < |ts| => Sleeper(ts[i], origin + At(value, ts[i])))
  }

  lemma WakesMembers(ts: seq<Task>, value: map<Task, nat>, origin: nat, x: Sleeper)
    ensures x in Wakes(ts, value, origin) <==> x.task in ts && x.wake == origin + At(value, x.task)
  {
    if x.task in ts {
      assert Wakes(ts, value, origin)[IndexOf(ts, x.task)].task == x.task;
    }
  }

  lemma WakesTail(ts: seq<Task>, value: map<Task, nat>, origin: nat, rest: seq<Sleeper>)
    requires ts != []
    ensures Wakes(ts[1..], value, origin) + rest == (Wakes(ts, value, origin) + rest)[1..]
    ensures (Wakes(ts, value, origin) + rest)[0] == Sleeper(ts[0], origin + At(value, ts[0]))
  {
  }

  lemma WakesOrdered(ts: seq<Task>, value: map<Task, nat>, origin: nat)
    requires ByValue(ts, value) && NoDup(ts)
    ensures WakeOrder(Wakes(ts, value, origin))
  {
  }

  lemma WakesWithin(ts: seq<Task>, value: map<Task, nat>, origin: nat, end: nat)
    ensures forall x :: x in Wakes(ts, value, origin) ==> x.task in ts && origin <= x.wake
    ensures (forall t :: t in ts ==> origin + At(value, t) <= end) ==> forall x :: x in Wakes(ts, value, origin) ==> x.wake <= end
  {
    forall x | x in Wakes(ts, value, origin) ensures x.task in ts && x.wake == origin + At(value, x.task) {
      WakesMembers(ts, value, origin, x);
    }
  }

  lemma JoinOrdered(a: seq<Sleeper>, b: seq<Sleeper>, w: nat, ts: seq<Task>)
    requires WakeOrder(a) && WakeOrder(b)
    requires forall x :: x in a ==> x.wake <= w && x.task in ts
    requires forall y :: y in b ==> w <= y.wake && y.task !in ts
    ensures WakeOrder(a + b)
  {
    forall i, j | 0 <= i < j < |a + b| ensures (a + b)[i].wake <= (a + b)[j].wake && (a + b)[i].task != (a + b)[j].task {
      if i < |a| <= j { assert a[i] in a && b[j - |a|] in b; }
    }
  }

  // ----- filing one more -----

  lemma WakePlaceIs(s: seq<Sleeper>, w: nat, k: nat)
    requires k <= |s| && (forall j :: 0 <= j < k ==> s[j].wake <= w) && (k < |s| ==> w < s[k].wake)
    ensures WakePlace(s, w) == k
  {
  }

  lemma WakesPlace(ts: seq<Task>, value: map<Task, nat>, origin: nat, v: nat)
    ensures WakePlace(Wakes(ts, value, origin), origin + v) == InsertPlace(ValuesOf(ts, value), v)
  {
    var ws, vs, k := Wakes(ts, value, origin), ValuesOf(ts, value), InsertPlace(ValuesOf(ts, value), v);
    assert forall j :: 0 <= j < |ts| ==> ws[j].wake == origin + vs[j];
    WakePlaceIs(ws, origin + v, k);
  }

  lemma WakesWith(ts: seq<Task>, value: map<Task, nat>, origin: nat, t: Task, k: nat, v: nat)
    requires t !in ts && k <= |ts|
    ensures Wakes(With(ts, k, t), value[t := v], origin) == With(Wakes(ts, value, origin), k, Sleeper(t, origin + v))
    ensures Wakes(ts, value[t := v], origin) == Wakes(ts, value, origin)
  {
  }

  lemma PlaceBefore(a: seq<Sleeper>, b: seq<Sleeper>, x: Sleeper)
    requires forall y :: y in b ==> x.wake < y.wake
    ensures With(a + b, WakePlace(a + b, x.wake), x) == With(a, WakePlace(a, x.wake), x) + b
  {
    WakePlaceIs(a + b, x.wake, WakePlace(a, x.wake));
  }

  lemma PlaceBehind(a: seq<Sleeper>, b: seq<Sleeper>, x: Sleeper)
    requires forall y :: y in a ==> y.wake <= x.wake
    ensures With(a + b, WakePlace(a + b, x.wake), x) == a + With(b, WakePlace(b, x.wake), x)
  {
    WakePlaceIs(a + b, x.wake, |a| + WakePlace(b, x.wake));
  }

  /** Filing `t` in the list of the current epoch, and in that of the next one. */
  lemma FileSoon(ds: seq<Task>, os: seq<Task>, value: map<Task, nat>, a: nat, e: nat, t: Task, w: nat)
    requires t !in ds && t !in os && a + w < e
    ensures var k, all := InsertPlace(ValuesOf(ds, value), w), Wakes(ds, value, a) + Wakes(os, value, e);
      k <= |ds| && Wakes(With(ds, k, t), value[t := w], a) + Wakes(os, value[t := w], e) ==
                   With(all, WakePlace(all, a + w), Sleeper(t, a + w))
  {
    hide *;
    var k := InsertPlace(ValuesOf(ds, value), w);
    ValuesLength(ds, value);
    WakesWith(ds, value, a, t, k, w);
    WakesWith(os, value, e, t, 0, w);
    WakesPlace(ds, value, a, w);
    WakesWithin(os, value, e, e);
    PlaceBefore(Wakes(ds, value, a), Wakes(os, value, e), Sleeper(t, a + w));
  }

  lemma FileLate(ds: seq<Task>, os: seq<Task>, value: map<Task, nat>, a: nat, e: nat, t: Task, w: nat)
    requires t !in ds && t !in os && forall u :: u in ds ==> a + At(value, u) <= e
    ensures var k, all := InsertPlace(ValuesOf(os, value), w), Wakes(ds, value, a) + Wakes(os, value, e);
      k <= |os| && Wakes(ds, value[t := w], a) + Wakes(With(os, k, t), value[t := w], e) ==
                   With(all, WakePlace(all, e + w), Sleeper(t, e + w))
  {
    hide *;
    var k := InsertPlace(ValuesOf(os, value), w);
    ValuesLength(os, value);
    WakesWith(os, value, e, t, k, w);
    WakesWith(ds, value, a, t, 0, w);
    WakesPlace(os, value, e, w);
    WakesWithin(ds, value, a, e);
    PlaceBehind(Wakes(ds, value, a), Wakes(os, value, e), Sleeper(t, e + w));
  }

  /** `vListInsert` of `t` with value `w`. */
  function Filed(ts: seq<Task>, value: map<Task, nat>, w: nat, t: Task): seq<Task> {
    var k := InsertPlace(ValuesOf(ts, value), w);
    if k <= |ts| then With(ts, k, t) else ts
  }

  lemma FiledIs(ts: seq<Task>, value: map<Task, nat>, w: nat, t: Task)
    ensures var k := InsertPlace(ValuesOf(ts, value), w); k <= |ts| && Filed(ts, value, w, t) == With(ts, k, t)
  {
    ValuesLength(ts, value);
    hide ValuesOf, With;
  }

  lemma WithNoDup(ts: seq<Task>, k: nat, t: Task)
    requires NoDup(ts) && t !in ts && k <= |ts|
    ensures NoDup(With(ts, k, t))
  {
  }

  // ----- taking one out -----

  function Dropped(ts: seq<Task>, t: Task): seq<Task> {
    if t in ts then Without(ts, IndexOf(ts, t)) else ts
  }

  lemma DroppedFacts(ts: seq<Task>, value: map<Task, nat>, t: Task)
    requires ByValue(ts, value) && NoDup(ts)
    ensures ByValue(Dropped(ts, t), value) && NoDup(Dropped(ts, t)) && forall u :: u in Dropped(ts, t) <==> u != t && u in ts
  {
    if t in ts {
      WithoutByValue(ts, IndexOf(ts, t), value);
      WithoutMembers(ts, IndexOf(ts, t));
    }
  }

  function TasksOf(s: seq<Sleeper>): seq<Task> {
    seq(|s|, i requires 0 <= i < |s| => s[i].task)
  }

  function DroppedSleeper(s: seq<Sleeper>, t: Task): seq<Sleeper> {
    if t in TasksOf(s) then Without(s, IndexOf(TasksOf(s), t)) else s
  }

  lemma {:induction false} IndexInJoin(a: seq<Task>, b: seq<Task>, t: Task)
    requires t in a || t in b
    ensures IndexOf(a + b, t) == if t in a then IndexOf(a, t) else |a| + IndexOf(b, t)
    decreases |a|
  {
    if a == [] {
      assert a + b == b;
    } else if a[0] != t {
      assert (a + b)[1..] == a[1..] + b && a == [a[0]] + a[1..];
      IndexInJoin(a[1..], b, t);
    }
  }

  lemma WithoutWakes(ts: seq<Task>, value: map<Task, nat>, o: nat, k: nat)
    requires k < |ts|
    ensures |Wakes(ts, value, o)| == |ts| && Wakes(Without(ts, k), value, o) == Without(Wakes(ts, value, o), k)
  {
  }

  lemma WithoutJoin<T>(a: seq<T>, b: seq<T>, k: nat)
    requires k < |a| + |b|
    ensures Without(a + b, k) == if k < |a| then Without(a, k) + b else a + Without(b, k - |a|)
  {
  }

  lemma WakesLength(ts: seq<Task>, value: map<Task, nat>, o: nat)
    ensures |Wakes(ts, value, o)| == |ts|
  {
  }

  lemma TasksOfWakes(ts: seq<Task>, us: seq<Task>, value: map<Task, nat>, o: nat, p: nat)
    ensures TasksOf(Wakes(ts, value, o) + Wakes(us, value, p)) == ts + us
  {
  }

  lemma DropWakes(ts: seq<Task>, us: seq<Task>, value: map<Task, nat>, o: nat, p: nat, t: Task)
    requires t in ts ==> t !in us
    ensures DroppedSleeper(Wakes(ts, value, o) + Wakes(us, value, p), t) ==
            Wakes(Dropped(ts, t), value, o) + Wakes(Dropped(us, t), value, p)
  {
    TasksOfWakes(ts, us, value, o, p);
    hide Wakes, TasksOf, Without;
    if t in ts {
      IndexInJoin(ts, us, t);
      WithoutWakes(ts, value, o, IndexOf(ts, t));
      WithoutJoin(Wakes(ts, value, o), Wakes(us, value, p), IndexOf(ts, t));
    } else if t in us {
      IndexInJoin(ts, us, t);
      WithoutWakes(us, value, p, IndexOf(us, t));
      WakesLength(ts, value, o);
      WithoutJoin(Wakes(ts, value, o), Wakes(us, value, p), |ts| + IndexOf(us, t));
    }
  }

  /** Removing an item from a family of lists drops it from each. */
  lemma RemoveDrops(s: Store<EventId, Task>, t: Task, l: EventId)
    requires Stores.Valid(s)
    ensures s.Remove(t).Items(l) == Dropped(s.Items(l), t) && NoDup(s.Items(l))
  {
    if t in s.container {
      RemoveKeeps(s, t);
      assert s.Linked(t);
    }
    if l in s.lists { assert s.lists[l].Valid(); }
    hide Store.Remove, Stores.Valid;
  }

  lemma DroppedNot(ts: seq<Task>, t: Task)
    requires NoDup(ts)
    ensures t !in Dropped(ts, t)
  {
    if t in ts { WithoutMembers(ts, IndexOf(ts, t)); }
  }
}
