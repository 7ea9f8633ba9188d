/** Fair sharing: the order in which the ready list's cursor serves its members. */
module RoundRobin {
  import opened Rings

  /** Advancing the cursor returns the front of the waiting line and sends it to the back. */
  lemma NextServesFront<T>(r: Ring<T>)
    requires r.Valid() && r.items != []
    ensures r.Next().Valid() && r.Next().items == r.items
    ensures r.Selected() == r.Upcoming()[0] && r.Next().UnderCursor(r.Selected())
    ensures r.Next().Upcoming() == r.Upcoming()[1..] + [r.Upcoming()[0]]
  {
    var s, i := r.items, r.index;
    if i < |s| {
      assert s[..i + 1] == s[..i] + [s[i]];
    } else {
      assert s[i..] == [] && s[..i] == s;
    }
  }

  /** A newcomer joins at the back of the line, or just ahead of the item under the cursor. */
  lemma InsertEndJoinsLine<T>(r: Ring<T>, x: T)
    requires r.Valid() && x !in r.items
    ensures r.InsertEnd(x).Valid()
    ensures r.index == 0 ==> r.InsertEnd(x).Upcoming() == r.Upcoming() + [x]
    ensures r.index > 0 ==>
      var u := r.Upcoming();
      u[|u| - 1] == r.items[r.index - 1] && r.InsertEnd(x).Upcoming() == u[..|u| - 1] + [x] + u[|u| - 1..]
  {
    var s, i, u := r.items, r.index, r.Upcoming();
    InsertAtValid(r, r.EndPlace(), x);
    if i > 0 {
      assert s[..i] == s[..i - 1] + [s[i - 1]];
      assert u[..|u| - 1] == s[i..] + s[..i - 1];
      assert r.InsertEnd(x).items[..i + 1] == s[..i - 1] + [x] + [s[i - 1]];
      assert r.InsertEnd(x).items[i + 1..] == s[i..];
    } else {
      assert u == s && r.InsertEnd(x).Upcoming() == r.InsertEnd(x).items == s + [x];
    }
  }

  lemma SplitAtIndex<T>(s: seq<T>, a: seq<T>, x: T, b: seq<T>)
    requires s == a + [x] + b && x !in a
    ensures IndexOf(s, x) == |a| && Without(s, |a|) == a + b
  {
    assert s[|a|] == x;
    var k := IndexOf(s, x);
    assert forall j :: 0 <= j < |a| ==> s[j] == a[j];
    assert forall j :: 0 <= j < k ==> s[..k][j] == s[j];
  }

  /** Removing an item closes the gap it leaves in the line and changes nothing else. */
  lemma RemoveLeavesLine<T>(r: Ring<T>, x: T)
    requires r.Valid() && x in r.items
    ensures r.Remove(x).Valid() && x in r.Upcoming()
    ensures r.Remove(x).Upcoming() == Without(r.Upcoming(), IndexOf(r.Upcoming(), x))
  {
    var s, i, k := r.items, r.index, IndexOf(r.items, x);
    RemoveValid(r, x);
    if k < i {
      RemoveBehindCursor(s, i, k);
      SplitAtIndex(r.Upcoming(), s[i..] + s[..k], x, s[k + 1..i]);
    } else {
      RemoveAheadOfCursor(s, i, k);
      SplitAtIndex(r.Upcoming(), s[i..k], x, s[k + 1..] + s[..i]);
    }
  }

  lemma RemoveBehindCursor<T>(s: seq<T>, i: nat, k: nat)
    requires NoDup(s) && k < i <= |s|
    ensures s[i..] + s[..i] == (s[i..] + s[..k]) + [s[k]] + s[k + 1..i]
    ensures Ring(Without(s, k), i - 1).Upcoming() == (s[i..] + s[..k]) + s[k + 1..i]
    ensures s[k] !in s[i..] + s[..k]
  {
    assert s[..i] == s[..k] + [s[k]] + s[k + 1..i];
    assert Without(s, k)[i - 1..] == s[i..];
    assert Without(s, k)[..i - 1] == s[..k] + s[k + 1..i];
  }

  lemma RemoveAheadOfCursor<T>(s: seq<T>, i: nat, k: nat)
    requires NoDup(s) && i <= k < |s|
    ensures s[i..] + s[..i] == s[i..k] + [s[k]] + (s[k + 1..] + s[..i])
    ensures Ring(Without(s, k), i).Upcoming() == s[i..k] + (s[k + 1..] + s[..i])
    ensures s[k] !in s[i..k]
  {
    assert s[i..] == s[i..k] + [s[k]] + s[k + 1..];
    assert Without(s, k)[i..] == s[i..k] + s[k + 1..];
    assert Without(s, k)[..i] == s[..i];
  }

  /** The items returned by `n` consecutive advances of the cursor. */
  function Selections<T(==)>(r: Ring<T>, n: nat): seq<T>
    requires r.index <= |r.items| && r.items != []
    decreases n
  {
    if n == 0 then [] else [r.Selected()] + Selections(r.Next(), n - 1)
  }

  /**
   * While the membership stays the same, a round of |items| selections, begun wherever the cursor
   * stands, follows the line: it returns every member exactly once.
   */
  lemma {:induction false} EveryRoundServesAll<T>(r: Ring<T>, n: nat)
    requires r.Valid() && r.items != [] && n <= |r.items|
    ensures Selections(r, n) == r.Upcoming()[..n]
    ensures n == |r.items| ==>
      NoDup(Selections(r, n)) && |Selections(r, n)| == n && forall x :: x in Selections(r, n) <==> x in r.items
    decreases n
  {
    UpcomingIsPermutation(r);
    if n > 0 {
      NextServesFront(r);
      EveryRoundServesAll(r.Next(), n - 1);
      var u := r.Upcoming();
      assert r.Next().Upcoming()[..n - 1] == u[1..n];
      assert u[..n] == [u[0]] + u[1..n];
    }
  }

  lemma UpcomingIsPermutation<T>(r: Ring<T>)
    requires r.Valid()
    ensures NoDup(r.Upcoming()) && |r.Upcoming()| == |r.items|
    ensures forall x :: x in r.Upcoming() <==> x in r.items
  {
    assert r.items == r.items[..r.index] + r.items[r.index..];
  }

  // ----- freedom from barging over whole runs -----

  datatype Op<T> = Advance | Arrive(x: T) | Depart(x: T)

  ghost predicate Enabled<T>(r: Ring<T>, op: Op<T>) {
    match op
    case Advance => r.items != []
    case Arrive(x) => x !in r.items
    case Depart(x) => x in r.items
  }

  function Apply<T(==)>(r: Ring<T>, op: Op<T>): Ring<T>
    requires r.index <= |r.items| && Enabled(r, op)
  {
    match op
    case Advance => r.Next()
    case Arrive(x) => r.InsertEnd(x)
    case Depart(x) => r.Remove(x)
  }

  /** In this run `y` stays linked and no advance of the cursor returns it. */
  ghost predicate Unserved<T>(r: Ring<T>, ops: seq<Op<T>>, y: T)
    requires r.Valid()
    decreases |ops|
  {
    ops == [] ||
    (Enabled(r, ops[0]) && ops[0] != Depart(y) && (ops[0] == Advance ==> r.Selected() != y) &&
     Apply(r, ops[0]).Valid() && Unserved(Apply(r, ops[0]), ops[1..], y))
  }

  function Run<T(==)>(r: Ring<T>, ops: seq<Op<T>>, ghost y: T): Ring<T>
    requires r.Valid() && Unserved(r, ops, y)
    decreases |ops|
  {
    if ops == [] then r else Run(Apply(r, ops[0]), ops[1..], y)
  }

  function Advances<T>(ops: seq<Op<T>>): nat {
    if ops == [] then 0 else (if ops[0].Advance? then 1 else 0) + Advances(ops[1..])
  }

  /** The arrivals that happen while `y` itself is the item under the cursor. */
  ghost function ArrivalsAtCursor<T>(r: Ring<T>, ops: seq<Op<T>>, y: T): nat
    requires r.Valid() && Unserved(r, ops, y)
    decreases |ops|
  {
    if ops == [] then 0 else
      (if ops[0].Arrive? && r.UnderCursor(y) then 1 else 0) + ArrivalsAtCursor(Apply(r, ops[0]), ops[1..], y)
  }

  /** How many other items the cursor serves before `y`. */
  ghost function Wait<T>(r: Ring<T>, y: T): nat
    requires r.Valid() && y in r.Upcoming()
  {
    IndexOf(r.Upcoming(), y)
  }

  lemma WaitIs<T>(r: Ring<T>, y: T, w: nat)
    requires r.Valid() && w < |r.items| && r.Upcoming()[w] == y
    ensures y in r.Upcoming() && Wait(r, y) == w
  {
    UpcomingIsPermutation(r);
  }

  lemma AdvanceShortensWait<T>(r: Ring<T>, y: T)
    requires r.Valid() && y in r.items && r.Selected() != y
    ensures y in r.Upcoming() && y in r.Next().Upcoming() && Wait(r.Next(), y) + 1 == Wait(r, y)
  {
    UpcomingIsPermutation(r);
    NextServesFront(r);
    WaitIs(r.Next(), y, Wait(r, y) - 1);
  }

  lemma ArrivalKeepsWait<T>(r: Ring<T>, x: T, y: T)
    requires r.Valid() && y in r.items && x !in r.items
    ensures r.InsertEnd(x).Valid() && y in r.Upcoming() && y in r.InsertEnd(x).Upcoming()
    ensures Wait(r.InsertEnd(x), y) == Wait(r, y) + if r.UnderCursor(y) then 1 else 0
  {
    UpcomingIsPermutation(r);
    InsertEndJoinsLine(r, x);
    assert r.UnderCursor(y) <==> r.index > 0 && Wait(r, y) == |r.items| - 1;
    WaitIs(r.InsertEnd(x), y, Wait(r, y) + if r.UnderCursor(y) then 1 else 0);
  }

  lemma DepartureKeepsWait<T>(r: Ring<T>, x: T, y: T)
    requires r.Valid() && y in r.items && x in r.items && x != y
    ensures r.Remove(x).Valid() && y in r.Upcoming() && y in r.Remove(x).Upcoming()
    ensures Wait(r, y) - 1 <= Wait(r.Remove(x), y) <= Wait(r, y)
  {
    UpcomingIsPermutation(r);
    RemoveLeavesLine(r, x);
    hide Ring.Remove, Ring.Upcoming;
    var w, k := Wait(r, y), IndexOf(r.Upcoming(), x);
    WaitIs(r.Remove(x), y, if w < k then w else w - 1);
  }

  /**
   * One operation never lengthens `y`'s wait, except an arrival while `y` is the item under the
   * cursor, which lengthens it by exactly one; an advance that returns another item shortens it.
   */
  lemma OneStepNeverBarges<T>(r: Ring<T>, op: Op<T>, y: T)
    requires r.Valid() && y in r.items && Enabled(r, op) && op != Depart(y)
    requires op == Advance ==> r.Selected() != y
    ensures Apply(r, op).Valid() && y in Apply(r, op).items
    ensures y in r.Upcoming() && y in Apply(r, op).Upcoming()
    ensures Wait(Apply(r, op), y) + (if op.Advance? then 1 else 0)
         <= Wait(r, y) + (if op.Arrive? && r.UnderCursor(y) then 1 else 0)
  {
    match op {
      case Advance => AdvanceShortensWait(r, y); NextServesFront(r);
      case Arrive(x) => ArrivalKeepsWait(r, x, y); UpcomingIsPermutation(r.InsertEnd(x));
      case Depart(x) => DepartureKeepsWait(r, x, y); UpcomingIsPermutation(r.Remove(x));
    }
  }

  /**
   * Over any run, the selections made plus those still owed before `y` never exceed what was owed
   * at the start, except for newcomers that arrive while `y` is the item under the cursor.
   */
  lemma {:induction false} NoBarging<T>(r: Ring<T>, ops: seq<Op<T>>, y: T)
    requires r.Valid() && y in r.items && Unserved(r, ops, y)
    ensures Run(r, ops, y).Valid() && y in r.Upcoming() && y in Run(r, ops, y).Upcoming()
    ensures Wait(Run(r, ops, y), y) + Advances(ops) <= Wait(r, y) + ArrivalsAtCursor(r, ops, y)
    decreases |ops|
  {
    UpcomingIsPermutation(r);
    if ops != [] {
      OneStepNeverBarges(r, ops[0], y);
      NoBarging(Apply(r, ops[0]), ops[1..], y);
    }
  }
}
