/** The abstract value of a kernel list, and the order in which its cursor visits the items. */
module Rings {

  ghost predicate NoDup<T>(s: seq<T>) {
    forall i, j :: 0 <= i < j < |s| ==> s[i] != s[j]
  }

  /** The position of `x` in `s`. */
  function IndexOf<T(==)>(s: seq<T>, x: T): (k: nat)
    requires x in s
    ensures k < |s| && s[k] == x
    ensures forall j :: 0 <= j < k ==> s[j] != x
  {
    if s[0] == x then 0 else IndexOf(s[1..], x) + 1
  }

  /** `s` without the item at position `k`. */
  function Without<T>(s: seq<T>, k: nat): seq<T>
    requires k < |s|
  {
    seq(|s| - 1, i requires 0 <= i < |s| - 1 => if i < k then s[i] else s[i + 1])
  }

  /** `s` with `x` placed before position `k`. */
  function With<T>(s: seq<T>, k: nat, x: T): seq<T>
    requires k <= |s|
  {
    seq(|s| + 1, i requires 0 <= i <= |s| => if i < k then s[i] else if i == k then x else s[i - 1])
  }

  /**
   * `items` are the members in link order, starting after the end marker.  `index` says where the
   * cursor stands: 0 is the end marker and k + 1 is `items[k]`.
   */
  datatype Ring<T(==)> = Ring(items: seq<T>, index: nat) {

    ghost predicate Valid() {
      index <= |items| && NoDup(items)
    }

    /** Link `x` before position `k`; the cursor stays on the node it was on. */
    function InsertAt(k: nat, x: T): Ring<T>
      requires k <= |items|
    {
      Ring(With(items, k, x), if k < index then index + 1 else index)
    }

    /** The place just before the node under the cursor. */
    function EndPlace(): (k: nat)
      requires index <= |items|
      ensures k <= |items|
    {
      if index == 0 then |items| else index - 1
    }

    /** Link `x` immediately before the node under the cursor. */
    function InsertEnd(x: T): Ring<T>
      requires index <= |items|
    {
      InsertAt(EndPlace(), x)
    }

    /** Unlink `x`; a cursor standing on it steps back to the previous node. */
    function Remove(x: T): Ring<T>
      requires x in items
    {
      var k := IndexOf(items, x);
      Ring(Without(items, k), if k < index then index - 1 else index)
    }

    /** Advance the cursor to the next item, stepping over the end marker. */
    function Next(): Ring<T>
      requires items != []
    {
      this.(index := if index < |items| then index + 1 else 1)
    }

    /** The item that the next advance of the cursor returns. */
    function Selected(): T
      requires items != [] && index <= |items|
    {
      items[Next().index - 1]
    }

    /** The items in the order in which the cursor will reach them. */
    function Upcoming(): seq<T>
      requires index <= |items|
    {
      items[index..] + items[..index]
    }

    ghost predicate UnderCursor(x: T) {
      0 < index <= |items| && items[index - 1] == x
    }
  }

  // ----- sorted insertion -----

  ghost predicate Sorted(values: seq<nat>) {
    forall i, j :: 0 <= i < j < |values| ==> values[i] <= values[j]
  }

  /** How many leading values do not exceed `v`. */
  function InsertPlace(values: seq<nat>, v: nat): (k: nat)
    ensures k <= |values|
    ensures forall j :: 0 <= j < k ==> values[j] <= v
    ensures k < |values| ==> v < values[k]
  {
    if values == [] || v < values[0] then 0 else InsertPlace(values[1..], v) + 1
  }

  lemma InsertPlaceIs(values: seq<nat>, v: nat, k: nat)
    requires k <= |values| && (forall j :: 0 <= j < k ==> values[j] <= v) && (k < |values| ==> v < values[k])
    ensures InsertPlace(values, v) == k
  {
  }

  /** In a sorted list the place found keeps the list sorted, and comes after every equal value. */
  lemma InsertPlaceIsStable(values: seq<nat>, v: nat)
    requires Sorted(values)
    ensures Sorted(With(values, InsertPlace(values, v), v))
    ensures forall j :: 0 <= j < |values| ==> (j < InsertPlace(values, v) <==> values[j] <= v)
  {
  }

  lemma WithMembers<T>(s: seq<T>, k: nat, x: T)
    requires k <= |s|
    ensures forall y :: y in With(s, k, x) <==> y == x || y in s
  {
    var s' := With(s, k, x);
    assert s'[k] == x;
    forall y | y in s ensures y in s' {
      var j :| 0 <= j < |s| && s[j] == y;
      assert s'[if j < k then j else j + 1] == y;
    }
  }

  lemma WithoutMembers<T>(s: seq<T>, k: nat)
    requires k < |s| && NoDup(s)
    ensures forall y :: y in Without(s, k) <==> y != s[k] && y in s
  {
    var s' := Without(s, k);
    forall y | y in s && y != s[k] ensures y in s' {
      var j :| 0 <= j < |s| && s[j] == y;
      assert s'[if j < k then j else j - 1] == y;
    }
  }

  lemma InsertAtValid<T>(r: Ring<T>, k: nat, x: T)
    requires r.Valid() && k <= |r.items| && x !in r.items
    ensures r.InsertAt(k, x).Valid()
    ensures forall y :: y in r.InsertAt(k, x).items <==> y == x || y in r.items
  {
    WithMembers(r.items, k, x);
  }

  lemma RemoveValid<T>(r: Ring<T>, x: T)
    requires r.Valid() && x in r.items
    ensures r.Remove(x).Valid()
    ensures forall y :: y in r.Remove(x).items <==> y != x && y in r.items
  {
    WithoutMembers(r.items, IndexOf(r.items, x));
  }
}
