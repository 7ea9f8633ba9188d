/**
 * The kernel's circular doubly linked list: an end marker, a cursor, and items that point back to
 * the list holding them.  Every mutator is proved against the sequence-with-cursor of `Rings`.
 */
module Lists {
  import opened Rings

  // ----- the ring as a pair of link maps -----

  /** The node at a cursor position: 0 is the end marker, and so is the position after the last item. */
  function Node<T>(end: T, items: seq<T>, k: nat): T {
    if 1 <= k <= |items| then items[k - 1] else end
  }

  ghost predicate LinkAt<T>(end: T, items: seq<T>, next: map<T, T>, prev: map<T, T>, k: nat) {
    var here, after := Node(end, items, k), Node(end, items, k + 1);
    && here in next && next[here] == after && after in prev && prev[after] == here
    && (here == end <==> k == 0 || k > |items|)
  }

  /**
   * From place k on, `next` leads to each following node, `prev` leads back, and the end marker is
   * met again only at the end: from place 0 this is the ring, closed in both directions.
   */
  ghost predicate LinkedFrom<T>(end: T, items: seq<T>, next: map<T, T>, prev: map<T, T>, k: nat)
    requires k <= |items| + 1
    decreases |items| + 1 - k
  {
    k == |items| + 1 || (LinkAt(end, items, next, prev, k) && LinkedFrom(end, items, next, prev, k + 1))
  }

  lemma {:induction false} LinksFrom<T>(end: T, items: seq<T>, next: map<T, T>, prev: map<T, T>, k: nat)
    requires k <= |items| + 1
    ensures LinkedFrom(end, items, next, prev, k) <==>
      forall j: nat :: k <= j <= |items| ==> LinkAt(end, items, next, prev, j)
    decreases |items| + 1 - k
  {
    if k <= |items| { LinksFrom(end, items, next, prev, k + 1); }
  }

  lemma Links<T>(end: T, items: seq<T>, next: map<T, T>, prev: map<T, T>)
    requires LinkedFrom(end, items, next, prev, 0)
    ensures forall j: nat :: j <= |items| ==> LinkAt(end, items, next, prev, j)
    ensures end !in items && end in next && end in prev && forall y :: y in items ==> y in next && y in prev
  {
    LinksFrom(end, items, next, prev, 0);
    assert LinkAt(end, items, next, prev, 0) && LinkAt(end, items, next, prev, |items|);
    forall y | y in items ensures y != end && y in next && y in prev {
      assert LinkAt(end, items, next, prev, IndexOf(items, y) + 1);
      assert LinkAt(end, items, next, prev, IndexOf(items, y));
    }
  }

  lemma NodesDiffer<T>(end: T, items: seq<T>, j: nat, k: nat)
    requires NoDup(items) && end !in items && j < k <= |items| + 1 && !(j == 0 && k == |items| + 1)
    ensures Node(end, items, j) != Node(end, items, k)
  {
  }

  /** Relinking the two neighbours of place `p` around `x` closes the ring around the longer sequence. */
  lemma ClosedWith<T>(end: T, s: seq<T>, next: map<T, T>, prev: map<T, T>, p: nat, x: T)
    requires 1 <= p <= |s| + 1 && NoDup(s) && LinkedFrom(end, s, next, prev, 0) && x !in s && x != end
    ensures LinkedFrom(end, With(s, p - 1, x),
                       next[x := Node(end, s, p)][Node(end, s, p - 1) := x],
                       prev[x := Node(end, s, p - 1)][Node(end, s, p) := x], 0)
  {
    var s' := With(s, p - 1, x);
    var next' := next[x := Node(end, s, p)][Node(end, s, p - 1) := x];
    var prev' := prev[x := Node(end, s, p - 1)][Node(end, s, p) := x];
    Links(end, s, next, prev);
    LinksFrom(end, s', next', prev', 0);
    assert LinkAt(end, s, next, prev, p - 1);
    forall k: nat | k <= |s'| ensures LinkAt(end, s', next', prev', k) {
      var j := if k < p then k else k - 1;
      if k != p - 1 && k != p {
        assert LinkAt(end, s, next, prev, j);
        NodesDiffer(end, s, if k < p then j else p - 1, if k < p then p - 1 else j);
        NodesDiffer(end, s, if k < p then j + 1 else p, if k < p then p else j + 1);
      }
    }
  }

  /** Joining the two neighbours of place `p` to each other closes the ring around the shorter sequence. */
  lemma ClosedWithout<T>(end: T, s: seq<T>, next: map<T, T>, prev: map<T, T>, p: nat)
    requires 1 <= p <= |s| && NoDup(s) && LinkedFrom(end, s, next, prev, 0)
    ensures LinkedFrom(end, Without(s, p - 1),
                       next[Node(end, s, p - 1) := Node(end, s, p + 1)] - {Node(end, s, p)},
                       prev[Node(end, s, p + 1) := Node(end, s, p - 1)] - {Node(end, s, p)}, 0)
  {
    var s' := Without(s, p - 1);
    var next' := next[Node(end, s, p - 1) := Node(end, s, p + 1)] - {Node(end, s, p)};
    var prev' := prev[Node(end, s, p + 1) := Node(end, s, p - 1)] - {Node(end, s, p)};
    Links(end, s, next, prev);
    LinksFrom(end, s', next', prev', 0);
    assert LinkAt(end, s, next, prev, p - 1) && LinkAt(end, s, next, prev, p);
    NodesDiffer(end, s, p, p + 1);
    NodesDiffer(end, s, p - 1, p);
    forall k: nat | k <= |s'| ensures LinkAt(end, s', next', prev', k) {
      if k < p - 1 {
        assert LinkAt(end, s, next, prev, k);
        NodesDiffer(end, s, k, p - 1);
        NodesDiffer(end, s, k, p);
        NodesDiffer(end, s, k + 1, p + 1);
        if k + 1 < p { NodesDiffer(end, s, k + 1, p); }
      } else if k > p - 1 {
        assert LinkAt(end, s, next, prev, k + 1);
        NodesDiffer(end, s, p - 1, k + 1);
        NodesDiffer(end, s, p, k + 1);
        NodesDiffer(end, s, p + 1, k + 2);
        NodesDiffer(end, s, p, k + 2);
      }
    }
  }

  /** A linked ring: its items and cursor, and what each of its nodes holds in its two links. */
  datatype Chain<T(==)> = Chain(end: T, ring: Ring<T>, next: map<T, T>, prev: map<T, T>) {

    ghost predicate Valid() {
      ring.Valid() && LinkedFrom(end, ring.items, next, prev, 0)
    }

    function Cursor(): T {
      Node(end, ring.items, ring.index)
    }

    /** Link `x` into place `p`, between the nodes at places p - 1 and p. */
    function InsertAt(p: nat, x: T): Chain<T>
      requires 1 <= p <= |ring.items| + 1
    {
      var before, after := Node(end, ring.items, p - 1), Node(end, ring.items, p);
      Chain(end, ring.InsertAt(p - 1, x), next[x := after][before := x], prev[x := before][after := x])
    }

    /** Link `x` just before the node under the cursor. */
    function InsertEnd(x: T): Chain<T>
      requires ring.index <= |ring.items| && Cursor() in prev
    {
      var before := prev[Cursor()];
      Chain(end, ring.InsertEnd(x), next[x := Cursor()][before := x], prev[x := before][Cursor() := x])
    }

    function Remove(x: T): Chain<T>
      requires x in ring.items && x in next && x in prev
    {
      Chain(end, ring.Remove(x), next[prev[x] := next[x]] - {x}, prev[next[x] := prev[x]] - {x})
    }
  }

  lemma CursorStays<T>(end: T, r: Ring<T>, k: nat, x: T)
    requires r.Valid() && k <= |r.items|
    ensures Node(end, r.InsertAt(k, x).items, r.InsertAt(k, x).index) == Node(end, r.items, r.index)
  {
  }

  lemma CursorStepsBack<T>(end: T, r: Ring<T>, x: T)
    requires r.Valid() && x in r.items && end !in r.items
    ensures var k := IndexOf(r.items, x);
      Node(end, r.Remove(x).items, r.Remove(x).index) ==
      if Node(end, r.items, r.index) == x then Node(end, r.items, k) else Node(end, r.items, r.index)
  {
    var k := IndexOf(r.items, x);
    assert Node(end, r.items, r.index) == x ==> r.index == k + 1;
  }

  lemma InsertAtKeepsChain<T>(c: Chain<T>, p: nat, x: T)
    requires c.Valid() && x !in c.next && 1 <= p <= |c.ring.items| + 1
    ensures c.InsertAt(p, x).Valid()
    ensures LinkAt(c.end, c.ring.items, c.next, c.prev, p - 1)
  {
    Links(c.end, c.ring.items, c.next, c.prev);
    InsertAtValid(c.ring, p - 1, x);
    ClosedWith(c.end, c.ring.items, c.next, c.prev, p, x);
  }

  lemma InsertAfter<T>(c: Chain<T>, k: nat, x: T, before: T) returns (c': Chain<T>)
    requires c.Valid() && x !in c.next && k <= |c.ring.items| && before == Node(c.end, c.ring.items, k)
    ensures before in c.next && c.next[before] in c.prev && c.prev[c.next[before]] == before
    ensures c'.Valid() && c'.end == c.end && c'.ring == c.ring.InsertAt(k, x) && c'.Cursor() == c.Cursor()
    ensures c'.next == c.next[x := c.next[before]][before := x]
    ensures c'.prev == c.prev[x := before][c.next[before] := x]
    ensures |c'.ring.items| == |c.ring.items| + 1
  {
    InsertAtKeepsChain(c, k + 1, x);
    CursorStays(c.end, c.ring, k, x);
    c' := c.InsertAt(k + 1, x);
  }

  lemma InsertEndKeepsChain<T>(c: Chain<T>, x: T)
    requires c.Valid() && x !in c.next
    ensures c.Cursor() in c.prev && c.prev[c.Cursor()] in c.next && c.next[c.prev[c.Cursor()]] == c.Cursor()
    ensures c.InsertEnd(x).Valid() && c.InsertEnd(x).Cursor() == c.Cursor()
    ensures |c.InsertEnd(x).ring.items| == |c.ring.items| + 1
  {
    var p := if c.ring.index == 0 then |c.ring.items| + 1 else c.ring.index;
    InsertAtKeepsChain(c, p, x);
    CursorStays(c.end, c.ring, p - 1, x);
    assert c.Cursor() == Node(c.end, c.ring.items, p);
    assert c.InsertEnd(x) == c.InsertAt(p, x);
  }

  lemma RemoveKeepsChain<T>(c: Chain<T>, x: T)
    requires c.Valid() && x in c.ring.items
    ensures x in c.next && x in c.prev && c.next[x] in c.prev && c.prev[x] in c.next && c.next[x] != x && c.prev[x] != x
    ensures c.Remove(x).Valid() && c.Remove(x).Cursor() == if c.Cursor() == x then c.prev[x] else c.Cursor()
  {
    var s, p := c.ring.items, IndexOf(c.ring.items, x) + 1;
    Links(c.end, s, c.next, c.prev);
    assert Node(c.end, s, p) == x && LinkAt(c.end, s, c.next, c.prev, p - 1) && LinkAt(c.end, s, c.next, c.prev, p);
    NodesDiffer(c.end, s, p, p + 1);
    NodesDiffer(c.end, s, p - 1, p);
    RemoveValid(c.ring, x);
    ClosedWithout(c.end, s, c.next, c.prev, p);
    CursorStepsBack(c.end, c.ring, x);
  }

  // ----- the ring in memory -----

  class ListItem<V> {
    var xItemValue: V
    var pxNext: ListItem<V>
    var pxPrevious: ListItem<V>
    var pvContainer: List?<V>

    /** `vListInitialiseItem`; the links are not read before the item is inserted. */
    constructor (value: V)
      ensures xItemValue == value && pvContainer == null
    {
      xItemValue, pvContainer := value, null;
      pxNext, pxPrevious := this, this;
    }
  }

  class List<V> {
    const xListEnd: ListItem<V>
    var pxIndex: ListItem<V>
    var uxNumberOfItems: nat
    ghost var chain: Chain<ListItem<V>>

    /** The items and the end marker. */
    ghost function Nodes(): set<ListItem<V>>
      reads this
    {
      chain.next.Keys
    }

    /** The list as a sequence with a cursor. */
    ghost function Contents(): Ring<ListItem<V>>
      reads this
    {
      chain.ring
    }

    ghost predicate Valid()
      reads this, Nodes()
    {
      && chain.Valid() && chain.end == xListEnd
      && pxIndex == chain.Cursor() && uxNumberOfItems == |chain.ring.items|
      && Holds(chain.next, chain.prev)
    }

    /** The nodes hold these links, and all but the end marker point back to this list. */
    ghost predicate Holds(next: map<ListItem<V>, ListItem<V>>, prev: map<ListItem<V>, ListItem<V>>)
      reads next.Keys
    {
      next.Keys == prev.Keys &&
      forall n :: n in next ==>
        n.pxNext == next[n] && n.pxPrevious == prev[n] && (n != xListEnd ==> n.pvContainer == this)
    }

    /** `vListInitialise`: the end marker is its own neighbour and carries the largest value. */
    constructor (maxDelay: V)
      ensures Valid() && Contents() == Ring([], 0) && fresh(Nodes()) && xListEnd.xItemValue == maxDelay
    {
      var end := new ListItem<V>(maxDelay);
      xListEnd := end;
      pxIndex := end;
      uxNumberOfItems := 0;
      chain := Chain(end, Ring([], 0), map[end := end], map[end := end]);
      new;
      end.pxNext := end;
      end.pxPrevious := end;
    }

    /** The link assignments of both insertions: `item` goes between `before` and the node after it. */
    method LinkAfter(item: ListItem<V>, before: ListItem<V>,
                     ghost next: map<ListItem<V>, ListItem<V>>, ghost prev: map<ListItem<V>, ListItem<V>>)
      requires Holds(next, prev) && item !in next && item != xListEnd
      requires before in next && next[before] in prev && prev[next[before]] == before
      modifies next.Keys`pxNext, next.Keys`pxPrevious, item`pxNext, item`pxPrevious, item`pvContainer
      ensures Holds(next[item := next[before]][before := item], prev[item := before][next[before] := item])
    {
      var after := before.pxNext;
      item.pxNext, item.pxPrevious := after, before;
      after.pxPrevious := item;
      before.pxNext := item;
      item.pvContainer := this;
    }

    /** The common end of both insertions: link the item in and count it. */
    method LinkIn(item: ListItem<V>, before: ListItem<V>, ghost longer: Chain<ListItem<V>>)
      requires Valid() && item !in Nodes() && before in chain.next
      requires chain.next[before] in chain.prev && chain.prev[chain.next[before]] == before
      requires longer.Valid() && longer.end == xListEnd && longer.Cursor() == pxIndex
      requires |longer.ring.items| == |chain.ring.items| + 1
      requires longer.next == chain.next[item := chain.next[before]][before := item]
      requires longer.prev == chain.prev[item := before][chain.next[before] := item]
      modifies this, Nodes()`pxNext, Nodes()`pxPrevious, item`pxNext, item`pxPrevious, item`pvContainer
      ensures Valid() && chain == longer && pxIndex == old(pxIndex)
    {
      LinkAfter(item, before, chain.next, chain.prev);
      uxNumberOfItems := uxNumberOfItems + 1;
      chain := longer;
    }

    /** The link assignments of `uxListRemove`. */
    method Unlink(item: ListItem<V>, ghost next: map<ListItem<V>, ListItem<V>>, ghost prev: map<ListItem<V>, ListItem<V>>)
      requires Holds(next, prev) && item in next
      requires next[item] in prev && prev[item] in next && next[item] != item && prev[item] != item
      modifies next.Keys`pxNext, next.Keys`pxPrevious, item`pvContainer
      ensures Holds(next[prev[item] := next[item]] - {item}, prev[next[item] := prev[item]] - {item})
      ensures item.pvContainer == null && item.pxPrevious == prev[item]
    {
      item.pxNext.pxPrevious := item.pxPrevious;
      item.pxPrevious.pxNext := item.pxNext;
      item.pvContainer := null;
    }

    /** `vListInsertEnd`. */
    method InsertEnd(item: ListItem<V>)
      requires Valid() && item !in Nodes()
      modifies this, Nodes()`pxNext, Nodes()`pxPrevious, item`pxNext, item`pxPrevious, item`pvContainer
      ensures Valid() && Contents() == old(Contents()).InsertEnd(item) && Nodes() == old(Nodes()) + {item}
    {
      InsertEndKeepsChain(chain, item);
      LinkIn(item, pxIndex.pxPrevious, chain.InsertEnd(item));
    }

    /** `uxListRemove`, called on the list that the item's container link names. */
    method Remove(item: ListItem<V>) returns (left: nat)
      requires Valid() && item in Contents().items
      modifies this, Nodes()`pxNext, Nodes()`pxPrevious, item`pvContainer
      ensures Valid() && Contents() == old(Contents()).Remove(item) && Nodes() == old(Nodes()) - {item}
      ensures item.pvContainer == null && left == |Contents().items|
    {
      hide Chain.Valid, Holds;
      RemoveKeepsChain(chain, item);
      ghost var shorter := chain.Remove(item);
      Unlink(item, chain.next, chain.prev);
      Forget(item, shorter);
      left := uxNumberOfItems;
    }

    /** The cursor steps back from an unlinked item, and the count goes down. */
    method Forget(item: ListItem<V>, ghost shorter: Chain<ListItem<V>>)
      requires uxNumberOfItems == |chain.ring.items| == |shorter.ring.items| + 1
      modifies this`pxIndex, this`uxNumberOfItems, this`chain
      ensures chain == shorter && uxNumberOfItems == |shorter.ring.items|
      ensures pxIndex == if old(pxIndex) == item then item.pxPrevious else old(pxIndex)
    {
      if pxIndex == item {
        pxIndex := item.pxPrevious;
      }
      uxNumberOfItems := uxNumberOfItems - 1;
      chain := shorter;
    }

    /** `listGET_OWNER_OF_NEXT_ENTRY`, returning the item whose owner the macro reads. */
    method NextEntry() returns (item: ListItem<V>)
      requires Valid() && Contents().items != []
      modifies this
      ensures Valid() && Contents() == old(Contents()).Next() && item == old(Contents()).Selected()
    {
      Links(xListEnd, chain.ring.items, chain.next, chain.prev);
      assert LinkAt(xListEnd, chain.ring.items, chain.next, chain.prev, chain.ring.index);
      pxIndex := pxIndex.pxNext;
      if pxIndex == xListEnd {
        assert LinkAt(xListEnd, chain.ring.items, chain.next, chain.prev, 0);
        pxIndex := pxIndex.pxNext;
      }
      chain := chain.(ring := chain.ring.Next());
      item := pxIndex;
    }
  }

  ghost function Values<V>(items: seq<ListItem<V>>): seq<V>
    reads items
  {
    seq(|items|, k requires 0 <= k < |items| reads items => items[k].xItemValue)
  }

  /** The search of `vListInsert`: it always stops, if only at the end marker. */
  method FindPlace(list: List<nat>, value: nat) returns (place: ListItem<nat>)
    requires list.Valid() && value <= list.xListEnd.xItemValue
    requires forall x :: x in list.Contents().items ==> x.xItemValue <= list.xListEnd.xItemValue
    ensures place == Node(list.xListEnd, list.Contents().items, InsertPlace(Values(list.Contents().items), value))
  {
    ghost var chain, end, items := list.chain, list.xListEnd, list.chain.ring.items;
    ghost var k := 0;
    Links(end, items, chain.next, chain.prev);
    if value == list.xListEnd.xItemValue {
      k := |items|;
      assert LinkAt(end, items, chain.next, chain.prev, k);
      place := list.xListEnd.pxPrevious;
    } else {
      place := list.xListEnd;
      assert LinkAt(end, items, chain.next, chain.prev, 0);
      while place.pxNext.xItemValue <= value
        invariant k <= |items| && place == Node(end, items, k) && LinkAt(end, items, chain.next, chain.prev, k)
        invariant forall j :: 0 <= j < k ==> items[j].xItemValue <= value
        decreases |items| - k
      {
        place, k := place.pxNext, k + 1;
        assert LinkAt(end, items, chain.next, chain.prev, k);
      }
    }
    InsertPlaceIs(Values(items), value, k);
  }

  /** `vListInsert`. */
  method Insert(list: List<nat>, item: ListItem<nat>)
    requires list.Valid() && item !in list.Nodes()
    requires item.xItemValue <= list.xListEnd.xItemValue
    requires forall x :: x in list.Contents().items ==> x.xItemValue <= list.xListEnd.xItemValue
    modifies list, list.Nodes()`pxNext, list.Nodes()`pxPrevious, item`pxNext, item`pxPrevious, item`pvContainer
    ensures list.Valid() && list.Nodes() == old(list.Nodes()) + {item}
    ensures list.Contents() == old(list.Contents()).InsertAt(
                                 InsertPlace(old(Values(list.Contents().items)), item.xItemValue), item)
    ensures old(Sorted(Values(list.Contents().items))) ==> Sorted(Values(list.Contents().items))
  {
    hide Sorted, InsertPlace, With, Chain.Valid;
    ghost var before := list.Contents().items;
    ghost var k := InsertPlace(Values(before), item.xItemValue);
    SortedAfter(before, k, item);
    var place := FindPlace(list, item.xItemValue);
    ghost var longer := InsertAfter(list.chain, k, item, place);
    list.LinkIn(item, place, longer);
    assert Values(list.Contents().items) == old(Values(With(before, k, item)));
  }

  lemma SortedAfter(items: seq<ListItem<nat>>, k: nat, item: ListItem<nat>)
    requires k == InsertPlace(Values(items), item.xItemValue) && k <= |items|
    ensures Sorted(Values(items)) ==> Sorted(Values(With(items, k, item)))
  {
    assert Values(With(items, k, item)) == With(Values(items), k, item.xItemValue);
    if Sorted(Values(items)) { InsertPlaceIsStable(Values(items), item.xItemValue); }
  }
}
