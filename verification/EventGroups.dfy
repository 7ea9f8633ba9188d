/**
 * event_groups.c: tasks wait for combinations of bits, and setting bits wakes every task whose
 * combination is then complete while walking, and unlinking from, the list of waiters.
 */
module EventGroups {
  import opened Rings
  import opened Lists

  /** An EventBits_t, as the set of the positions of its one-bits. */
  type Word = set<nat>

  const CLEAR_ON_EXIT: nat := 24
  const UNBLOCKED: nat := 25
  const WAIT_FOR_ALL: nat := 26
  const IN_USE: nat := 31  // taskEVENT_LIST_ITEM_VALUE_IN_USE

  /** eventEVENT_BITS_CONTROL_BYTES. */
  const CONTROL: Word := {24, 25, 26, 27, 28, 29, 30, 31}

  /** `prvTestWaitCondition`. */
  predicate TestWaitCondition(current: Word, waitedFor: Word, all: bool) {
    if all then current * waitedFor == waitedFor else current * waitedFor != {}
  }

  /** Is the wait that the item value `v` describes complete? */
  predicate Matches(v: Word, bits: Word) {
    TestWaitCondition(bits, v - CONTROL, WAIT_FOR_ALL in v)
  }

  /** A wait for all bits is over when each of them is set, and a wait for any when some is. */
  ghost predicate Satisfied(waitedFor: Word, all: bool, bits: Word) {
    if all then forall b :: b in waitedFor ==> b in bits else exists b :: b in waitedFor && b in bits
  }

  /** The test that the code makes on whole words says so, bit by bit. */
  lemma TestIsSatisfied(bits: Word, waitedFor: Word, all: bool)
    ensures TestWaitCondition(bits, waitedFor, all) <==> Satisfied(waitedFor, all, bits)
  {
    if all {
      assert forall b :: b in waitedFor ==> (b in bits <==> b in bits * waitedFor);
    } else {
      assert forall b :: b in waitedFor && b in bits <==> b in bits * waitedFor;
    }
  }

  /** The same for the wait of a task whose item holds `v`. */
  ghost predicate WaitOver(v: Word, bits: Word) { Satisfied(v - CONTROL, WAIT_FOR_ALL in v, bits) }

  lemma MatchesIsOver(v: Word, bits: Word)
    ensures Matches(v, bits) <==> WaitOver(v, bits)
  {
    TestIsSatisfied(bits, v - CONTROL, WAIT_FOR_ALL in v);
    hide TestWaitCondition, Satisfied;
  }

  /** The bits that waking the item of value `v` clears. */
  function ClearMask(v: Word): Word {
    if CLEAR_ON_EXIT in v then v - CONTROL else {}
  }

  /** The value left in the item of a task that is woken. */
  function Handed(bits: Word): Word { bits + {UNBLOCKED} + {IN_USE} }

  /** The value a task blocks with. */
  function WaitWord(waitedFor: Word, clearOnExit: bool, all: bool): Word {
    waitedFor + (if clearOnExit then {CLEAR_ON_EXIT} else {}) + (if all then {WAIT_FOR_ALL} else {}) + {IN_USE}
  }

  /** A value says what its task waits for, and tells a woken task the bits apart from a timeout. */
  lemma WordsRoundTrip(waitedFor: Word, clearOnExit: bool, all: bool, bits: Word)
    requires waitedFor !! CONTROL && bits !! CONTROL
    ensures Matches(WaitWord(waitedFor, clearOnExit, all), bits) <==> TestWaitCondition(bits, waitedFor, all)
    ensures ClearMask(WaitWord(waitedFor, clearOnExit, all)) == if clearOnExit then waitedFor else {}
    ensures var v := WaitWord(waitedFor, clearOnExit, all);
      && v - CONTROL == waitedFor && (WAIT_FOR_ALL in v <==> all) && (CLEAR_ON_EXIT in v <==> clearOnExit)
      && (WaitOver(v, bits) <==> Satisfied(waitedFor, all, bits)) && UNBLOCKED !in v && IN_USE in v
    ensures Handed(bits) == bits + {UNBLOCKED, IN_USE} && Handed(bits) - CONTROL == bits
  {
    assert WaitWord(waitedFor, clearOnExit, all) - CONTROL == waitedFor;
    hide TestWaitCondition, Satisfied;
  }

  /** Fewer bits complete no more waits. */
  lemma FewerBitsMatchLess(v: Word, fewer: Word, bits: Word)
    requires fewer <= bits && Matches(v, fewer)
    ensures Matches(v, bits)
  {
    if WAIT_FOR_ALL in v {
      assert forall b :: b in v - CONTROL ==> b in fewer * (v - CONTROL);
    } else {
      assert fewer * (v - CONTROL) <= bits * (v - CONTROL);
    }
  }

  // ----- setting bits -----

  /** The first `n` items without those that match. */
  function Kept<T>(items: seq<T>, values: seq<Word>, n: nat, bits: Word): seq<T>
    requires n <= |items| == |values|
  {
    if n == 0 then [] else Kept(items, values, n - 1, bits) + (if Matches(values[n - 1], bits) then [] else [items[n - 1]])
  }

  /** The union of the clear masks of the first `n` items that match. */
  function Cleared(values: seq<Word>, n: nat, bits: Word): Word
    requires n <= |values|
  {
    if n == 0 then {} else
      Cleared(values, n - 1, bits) + (if Matches(values[n - 1], bits) then ClearMask(values[n - 1]) else {})
  }

  /** An item stays on the list exactly when its wait is not complete, and the items that stay keep their order. */
  lemma {:induction false} KeptIsUnmatched<T>(items: seq<T>, values: seq<Word>, n: nat, bits: Word)
    requires n <= |items| == |values| && NoDup(items)
    ensures forall j :: 0 <= j < n ==> (items[j] in Kept(items, values, n, bits) <==> !Matches(values[j], bits))
    ensures forall x :: x in Kept(items, values, n, bits) ==> exists j :: 0 <= j < n && items[j] == x
    ensures NoDup(Kept(items, values, n, bits)) && |Kept(items, values, n, bits)| <= n
    decreases n
  {
    hide Matches;
    if n > 0 {
      KeptIsUnmatched(items, values, n - 1, bits);
      var k := Kept(items, values, n - 1, bits);
      assert items[n - 1] !in k;
      assert forall x :: x in Kept(items, values, n, bits) ==> x in k || x == items[n - 1];
      assert Kept(items, values, n, bits) == k || Kept(items, values, n, bits) == k + [items[n - 1]];
    }
  }

  /** A bit is cleared exactly when some task that is woken waited for it and clears on exit. */
  lemma {:induction false} ClearedIsUnion(values: seq<Word>, n: nat, bits: Word, b: nat)
    requires n <= |values|
    ensures b in Cleared(values, n, bits) <==>
            exists j :: 0 <= j < n && Matches(values[j], bits) && b in ClearMask(values[j])
    decreases n
  {
    hide Matches, ClearMask;
    if n > 0 { ClearedIsUnion(values, n - 1, bits, b); }
  }

  // ----- the event group in memory -----

  /** The items on the list while the walk that began with `all` has visited the first `n`. */
  ghost function Walked(all: seq<ListItem<Word>>, values: seq<Word>, n: nat, bits: Word): seq<ListItem<Word>>
    requires n <= |all| == |values|
  {
    Kept(all, values, n, bits) + all[n..]
  }

  /** One step of the walk, on the sequences. */
  lemma WalkStep(end: ListItem<Word>, all: seq<ListItem<Word>>, values: seq<Word>, n: nat, bits: Word)
    requires n < |all| == |values| && NoDup(Walked(all, values, n, bits))
    ensures var k, items, items' := |Kept(all, values, n, bits)|, Walked(all, values, n, bits), Walked(all, values, n + 1, bits);
      && k < |items| && items[k] == all[n] == Node(end, items, k + 1) && IndexOf(items, all[n]) == k
      && (if Matches(values[n], bits) then items' == Without(items, k) else items' == items)
      && Node(end, items', |Kept(all, values, n + 1, bits)| + 1) == Node(end, items, k + 2)
  {
    hide Matches;
    var k, items := |Kept(all, values, n, bits)|, Walked(all, values, n, bits);
    assert items[k] == all[n];
    assert all[n..] == [all[n]] + all[n + 1..];
    assert Walked(all, values, n + 1, bits) == if Matches(values[n], bits) then Without(items, k) else items;
  }

  /** Where the walk stands: at the next unvisited item, or at the end marker when there is none. */
  lemma WalkAt(end: ListItem<Word>, all: seq<ListItem<Word>>, values: seq<Word>, n: nat, bits: Word)
    requires n <= |all| == |values| && end !in all
    ensures Node(end, Walked(all, values, n, bits), |Kept(all, values, n, bits)| + 1) == if n < |all| then all[n] else end
    ensures n < |all| ==> all[n] != end
    ensures n == 0 ==> Walked(all, values, n, bits) == all && Kept(all, values, n, bits) == [] && Cleared(values, n, bits) == {}
    ensures n == |all| ==> Walked(all, values, n, bits) == Kept(all, values, n, bits)
  {
    hide Matches;
  }

  lemma FirstNode(end: ListItem<Word>, all: seq<ListItem<Word>>)
    ensures Node(end, all, 1) == if 0 < |all| then all[0] else end
  {
  }

  /** The visited items that match hold the new value, and all others their old one. */
  ghost predicate Marked(all: seq<ListItem<Word>>, values: seq<Word>, n: nat, bits: Word)
    reads all
    requires |all| == |values|
  {
    forall j :: 0 <= j < |all| ==> all[j].xItemValue == if j < n && Matches(values[j], bits) then Handed(bits) else values[j]
  }

  lemma HandedTells(bits: Word)
    requires bits !! CONTROL
    ensures Handed(bits) == bits + {UNBLOCKED, IN_USE} && Handed(bits) - CONTROL == bits
  {
  }

  /** A task that is woken and clears on exit waited for bit `b`. */
  ghost predicate ClearedByWoken(values: seq<Word>, bits: Word, b: nat) {
    exists j :: 0 <= j < |values| && WaitOver(values[j], bits) && CLEAR_ON_EXIT in values[j] && b in values[j] - CONTROL
  }

  lemma ClearedBits(values: seq<Word>, bits: Word)
    ensures forall b :: b in Cleared(values, |values|, bits) <==> ClearedByWoken(values, bits, b)
  {
    forall b ensures b in Cleared(values, |values|, bits) <==> ClearedByWoken(values, bits, b) {
      ClearedIsUnion(values, |values|, bits, b);
      forall j | 0 <= j < |values| ensures Matches(values[j], bits) <==> WaitOver(values[j], bits) { MatchesIsOver(values[j], bits); }
      hide Matches, WaitOver, Cleared;
    }
  }

  lemma ClearedStep(values: seq<Word>, n: nat, bits: Word)
    requires n < |values|
    ensures Cleared(values, n + 1, bits) == Cleared(values, n, bits) + if Matches(values[n], bits) then ClearMask(values[n]) else {}
  {
  }

  class EventGroup {
    var uxEventBits: Word
    const xTasksWaitingForBits: List<Word>

    ghost predicate Valid()
      reads this, xTasksWaitingForBits, xTasksWaitingForBits.Nodes()
    {
      xTasksWaitingForBits.Valid() && uxEventBits !! CONTROL
    }

    ghost function Waiters(): seq<ListItem<Word>>
      reads this, xTasksWaitingForBits
    {
      xTasksWaitingForBits.Contents().items
    }

    /** No task on the list has its wait complete. */
    ghost predicate NoneReady()
      reads this, xTasksWaitingForBits, xTasksWaitingForBits.Nodes()
      requires Valid()
    {
      forall x :: x in Waiters() ==> x in xTasksWaitingForBits.Nodes() && !Matches(x.xItemValue, uxEventBits)
    }

    /** `xEventGroupCreate`. */
    constructor ()
      ensures Valid() && uxEventBits == {} && Waiters() == [] && fresh(xTasksWaitingForBits) && fresh(xTasksWaitingForBits.Nodes())
    {
      uxEventBits := {};
      xTasksWaitingForBits := new List<Word>(CONTROL);
    }

    /** `xTaskRemoveFromUnorderedEventList`, as far as the list and its item go. */
    method Wake(item: ListItem<Word>, value: Word)
      requires Valid() && item in Waiters()
      modifies xTasksWaitingForBits, xTasksWaitingForBits.Nodes()`pxNext, xTasksWaitingForBits.Nodes()`pxPrevious
      modifies item`pvContainer, item`xItemValue
      ensures Valid() && xTasksWaitingForBits.Contents() == old(xTasksWaitingForBits.Contents()).Remove(item)
      ensures xTasksWaitingForBits.Nodes() == old(xTasksWaitingForBits.Nodes()) - {item}
      ensures item.xItemValue == value && item.pvContainer == null
    {
      item.xItemValue := value;
      var left := xTasksWaitingForBits.Remove(item);
    }

    /** The node after the one at place `k` of the ring. */
    method Follow(item: ListItem<Word>, ghost k: nat) returns (next: ListItem<Word>)
      requires Valid() && k <= |Waiters()| && item == Node(xTasksWaitingForBits.xListEnd, Waiters(), k)
      ensures next == Node(xTasksWaitingForBits.xListEnd, Waiters(), k + 1)
      ensures k < |Waiters()| ==> next in xTasksWaitingForBits.Nodes() && next != xTasksWaitingForBits.xListEnd
    {
      ghost var list := xTasksWaitingForBits;
      Links(list.xListEnd, Waiters(), list.chain.next, list.chain.prev);
      assert LinkAt(list.xListEnd, Waiters(), list.chain.next, list.chain.prev, k);
      next := item.pxNext;
    }

    /** `listGET_HEAD_ENTRY`. */
    method First() returns (item: ListItem<Word>)
      requires Valid()
      ensures item == Node(xTasksWaitingForBits.xListEnd, Waiters(), 1)
    {
      item := Follow(xTasksWaitingForBits.xListEnd, 0);
    }

    /** The body of the walk, at an item that is still on the list. */
    method Visit(item: ListItem<Word>, ghost all: seq<ListItem<Word>>, ghost values: seq<Word>, ghost n: nat)
      returns (next: ListItem<Word>, clear: Word)
      requires Valid() && n < |all| == |values| && item == all[n] && NoDup(all) && Marked(all, values, n, uxEventBits)
      requires Waiters() == Walked(all, values, n, uxEventBits)
      modifies xTasksWaitingForBits, xTasksWaitingForBits.Nodes()`pxNext, xTasksWaitingForBits.Nodes()`pxPrevious
      modifies item`pvContainer, item`xItemValue
      ensures Valid() && Waiters() == Walked(all, values, n + 1, uxEventBits)
      ensures next == Node(xTasksWaitingForBits.xListEnd, Waiters(), |Kept(all, values, n + 1, uxEventBits)| + 1)
      ensures xTasksWaitingForBits.Nodes() <= old(xTasksWaitingForBits.Nodes())
      ensures clear == if Matches(values[n], uxEventBits) then ClearMask(values[n]) else {}
      ensures Marked(all, values, n + 1, uxEventBits)
    {
      hide Matches, ClearMask, Handed, Kept, Walked, Without, Chain.Valid, List.Holds, List.Valid, Node;
      WaitersAreNodes();
      WalkStep(xTasksWaitingForBits.xListEnd, all, values, n, uxEventBits);
      next := Follow(item, |Kept(all, values, n, uxEventBits)| + 1);
      clear := {};
      if Matches(item.xItemValue, uxEventBits) {
        clear := ClearMask(item.xItemValue);
        Wake(item, Handed(uxEventBits));
      }
    }

    /**
     * `xEventGroupSetBits`: exactly the tasks whose wait is complete with the new bits are woken and
     * handed those bits, and only then are the bits cleared that the woken tasks clear on exit.
     */
    method SetBits(bitsToSet: Word) returns (current: Word)
      requires Valid() && bitsToSet !! CONTROL
      modifies this`uxEventBits, xTasksWaitingForBits, xTasksWaitingForBits.Nodes()
      ensures Valid() && current == uxEventBits
      ensures var bits, all, values := old(uxEventBits) + bitsToSet, old(Waiters()), old(Values(Waiters()));
        && uxEventBits == bits - Cleared(values, |all|, bits) && Waiters() == Kept(all, values, |all|, bits)
        && Marked(all, values, |all|, bits)
      ensures NoneReady() && xTasksWaitingForBits.Nodes() <= old(xTasksWaitingForBits.Nodes())
      ensures var bits, all, values := old(uxEventBits) + bitsToSet, old(Waiters()), old(Values(Waiters()));
        && (forall j :: 0 <= j < |all| ==>
              if WaitOver(values[j], bits) then all[j] !in Waiters() && all[j].xItemValue == bits + {UNBLOCKED, IN_USE}
              else all[j] in Waiters() && all[j].xItemValue == values[j])
        && (forall b :: b in uxEventBits <==> b in bits && !ClearedByWoken(values, bits, b))
    {
      hide Kept, Walked, Cleared, Marked, NoDup, Matches, ClearMask, Handed, WaitOver, ClearedByWoken, Chain.Valid, List.Holds, List.Valid, Node;
      ghost var all, values := Waiters(), Values(Waiters());
      var list, bitsToClear := xTasksWaitingForBits, {};
      ghost var n := 0;
      WaitersAreNodes();
      var item := First();
      uxEventBits := uxEventBits + bitsToSet;
      ghost var bits := uxEventBits;
      MarkedFirst(all, values, bits);
      WalkAt(list.xListEnd, all, values, 0, bits);
      FirstNode(list.xListEnd, all);
      while item != list.xListEnd
        invariant n <= |all| && Valid() && uxEventBits == bits && Waiters() == Walked(all, values, n, bits)
        invariant item == if n < |all| then all[n] else list.xListEnd
        invariant bitsToClear == Cleared(values, n, bits) && Marked(all, values, n, bits)
        invariant list.Nodes() <= old(list.Nodes())
        decreases |all| - n
      {
        WalkAt(list.xListEnd, all, values, n + 1, bits);
        ClearedStep(values, n, bits);
        var clear: Word;
        item, clear := Visit(item, all, values, n);
        bitsToClear := bitsToClear + clear;
        n := n + 1;
      }
      WalkAt(list.xListEnd, all, values, |all|, bits);
      uxEventBits := uxEventBits - bitsToClear;
      current := uxEventBits;
      NoneLeftReady(all, values, bits);
      WhoIsWoken(all, values, bits);
      ClearedBits(values, bits);
    }

    /** The walk, bit by bit: who has left the list, and with which value. */
    lemma WhoIsWoken(all: seq<ListItem<Word>>, values: seq<Word>, bits: Word)
      requires NoDup(all) && |all| == |values| && Marked(all, values, |all|, bits) && bits !! CONTROL
      requires Waiters() == Kept(all, values, |all|, bits)
      ensures forall j :: 0 <= j < |all| ==>
        if WaitOver(values[j], bits) then all[j] !in Waiters() && all[j].xItemValue == bits + {UNBLOCKED, IN_USE}
        else all[j] in Waiters() && all[j].xItemValue == values[j]
    {
      KeptIsUnmatched(all, values, |all|, bits);
      HandedTells(bits);
      hide Kept, Matches, WaitOver, Handed;
      forall j | 0 <= j < |all|
        ensures if WaitOver(values[j], bits) then all[j] !in Waiters() && all[j].xItemValue == bits + {UNBLOCKED, IN_USE}
                else all[j] in Waiters() && all[j].xItemValue == values[j]
      {
        MatchesIsOver(values[j], bits);
      }
    }

    lemma NoneLeftReady(all: seq<ListItem<Word>>, values: seq<Word>, bits: Word)
      requires Valid() && NoDup(all) && |all| == |values| && Marked(all, values, |all|, bits)
      requires Waiters() == Kept(all, values, |all|, bits) && uxEventBits <= bits
      ensures NoneReady()
    {
      WaitersAreNodes();
      KeptIsUnmatched(all, values, |all|, bits);
      hide Matches, Kept, List.Valid;
      forall x | x in Waiters() ensures !Matches(x.xItemValue, uxEventBits) {
        var j :| 0 <= j < |all| && all[j] == x;
        if Matches(x.xItemValue, uxEventBits) { FewerBitsMatchLess(values[j], uxEventBits, bits); }
      }
    }

    lemma MarkedFirst(all: seq<ListItem<Word>>, values: seq<Word>, bits: Word)
      requires values == Values(all)
      ensures Marked(all, values, 0, bits)
    {
    }

    lemma WaitersAreNodes()
      requires Valid()
      ensures NoDup(Waiters()) && xTasksWaitingForBits.xListEnd !in Waiters()
      ensures xTasksWaitingForBits.Contents().index <= |Waiters()|
      ensures forall x :: x in Waiters() ==> x in xTasksWaitingForBits.Nodes()
    {
      Links(xTasksWaitingForBits.xListEnd, Waiters(), xTasksWaitingForBits.chain.next, xTasksWaitingForBits.chain.prev);
    }

    /** Clear bits; no wait becomes complete by it. */
    method Drop(cleared: Word)
      requires Valid() && NoneReady()
      modifies this`uxEventBits
      ensures Valid() && NoneReady() && uxEventBits == old(uxEventBits) - cleared
    {
      hide Matches, Chain.Valid;
      forall x | x in Waiters() ensures !Matches(x.xItemValue, uxEventBits - cleared) {
        if Matches(x.xItemValue, uxEventBits - cleared) { FewerBitsMatchLess(x.xItemValue, uxEventBits - cleared, uxEventBits); }
      }
      uxEventBits := uxEventBits - cleared;
    }

    /** `xEventGroupClearBits`. */
    method ClearBits(bitsToClear: Word) returns (previous: Word)
      requires Valid() && NoneReady() && bitsToClear !! CONTROL
      modifies this`uxEventBits
      ensures Valid() && NoneReady() && uxEventBits == old(uxEventBits) - bitsToClear && previous == old(uxEventBits)
    {
      previous := uxEventBits;
      Drop(bitsToClear);
    }

    /** `vTaskPlaceOnUnorderedEventList`, as far as the list and the item go; the wait must be incomplete. */
    method Block(item: ListItem<Word>, value: Word)
      requires Valid() && NoneReady() && item !in xTasksWaitingForBits.Nodes() && !Matches(value, uxEventBits)
      modifies xTasksWaitingForBits, xTasksWaitingForBits.Nodes()`pxNext, xTasksWaitingForBits.Nodes()`pxPrevious
      modifies item`pxNext, item`pxPrevious, item`pvContainer, item`xItemValue
      ensures Valid() && NoneReady() && item.xItemValue == value
      ensures xTasksWaitingForBits.Contents() == old(xTasksWaitingForBits.Contents()).InsertEnd(item)
    {
      hide Matches, Chain.Valid, List.Holds;
      WaitersAreNodes();
      ghost var before := xTasksWaitingForBits.Contents();
      EndMembers(before, item);
      item.xItemValue := value;
      xTasksWaitingForBits.InsertEnd(item);
      WaitersAreNodes();
    }

    lemma EndMembers(r: Ring<ListItem<Word>>, item: ListItem<Word>)
      requires r.index <= |r.items|
      ensures forall x :: x in r.InsertEnd(item).items <==> x == item || x in r.items
    {
      WithMembers(r.items, r.EndPlace(), item);
    }

    /**
     * `xEventGroupWaitBits` up to the point where the task blocks: it goes on the list exactly when
     * its wait is not complete and it may wait.
     */
    method WaitBits(item: ListItem<Word>, waitedFor: Word, clearOnExit: bool, all: bool, ticksToWait: nat)
      returns (blocked: bool, value: Word)
      requires Valid() && NoneReady() && item !in xTasksWaitingForBits.Nodes()
      requires waitedFor !! CONTROL && waitedFor != {}
      modifies this`uxEventBits, xTasksWaitingForBits
      modifies xTasksWaitingForBits.Nodes()`pxNext, xTasksWaitingForBits.Nodes()`pxPrevious
      modifies item`pxNext, item`pxPrevious, item`pvContainer, item`xItemValue
      ensures Valid() && NoneReady()
      ensures blocked <==> !Satisfied(waitedFor, all, old(uxEventBits)) && ticksToWait != 0
      ensures xTasksWaitingForBits.Contents() ==
        if blocked then old(xTasksWaitingForBits.Contents()).InsertEnd(item) else old(xTasksWaitingForBits.Contents())
      ensures blocked ==> item.xItemValue == WaitWord(waitedFor, clearOnExit, all)
      ensures !blocked ==> value == old(uxEventBits)
      ensures uxEventBits ==
        old(uxEventBits) - if Satisfied(waitedFor, all, old(uxEventBits)) && clearOnExit then waitedFor else {}
    {
      TestIsSatisfied(uxEventBits, waitedFor, all);
      hide TestWaitCondition, Satisfied, WaitOver, Matches, WaitWord, List.Valid, Chain.Valid;
      blocked, value := false, uxEventBits;
      var conditionMet := TestWaitCondition(uxEventBits, waitedFor, all);
      if conditionMet {
        if clearOnExit { Drop(waitedFor); }
      } else if ticksToWait != 0 {
        WordsRoundTrip(waitedFor, clearOnExit, all, uxEventBits);
        Block(item, WaitWord(waitedFor, clearOnExit, all));
        blocked, value := true, {};
      }
    }

    /**
     * `xEventGroupSync` up to the point where the task blocks: the rendezvous is complete exactly
     * when the bits before the call and the bits set by it contain the bits waited for.
     */
    method Sync(item: ListItem<Word>, bitsToSet: Word, waitedFor: Word, ticksToWait: nat) returns (blocked: bool, value: Word)
      requires Valid() && NoneReady() && item !in xTasksWaitingForBits.Nodes()
      requires waitedFor !! CONTROL && waitedFor != {} && bitsToSet !! CONTROL
      modifies this`uxEventBits, xTasksWaitingForBits, xTasksWaitingForBits.Nodes()
      modifies item`pxNext, item`pxPrevious, item`pvContainer, item`xItemValue
      ensures Valid() && NoneReady()
      ensures blocked <==> !(waitedFor <= old(uxEventBits) + bitsToSet) && ticksToWait != 0
      ensures blocked ==> item.xItemValue == WaitWord(waitedFor, true, true)
      ensures var bits, all, values := old(uxEventBits) + bitsToSet, old(Waiters()), old(Values(Waiters()));
        var left := bits - Cleared(values, |all|, bits);
        && uxEventBits == (if waitedFor <= bits then left - waitedFor else left)
        && (!blocked ==> value == (if waitedFor <= bits then bits else left) && Waiters() == Kept(all, values, |all|, bits))
        && (blocked ==> forall x :: x in Waiters() <==> x == item || x in Kept(all, values, |all|, bits))
    {
      hide Matches, WaitWord, List.Valid, Chain.Valid, Kept, Marked, Cleared;
      var original := uxEventBits;
      var current := SetBits(bitsToSet);
      blocked, value := false, {};
      if (original + bitsToSet) * waitedFor == waitedFor {
        value := original + bitsToSet;
        Drop(waitedFor);
      } else if ticksToWait != 0 {
        Incomplete(waitedFor, original + bitsToSet, uxEventBits);
        ghost var before := xTasksWaitingForBits.Contents();
        WaitersAreNodes();
        Block(item, WaitWord(waitedFor, true, true));
        EndMembers(before, item);
        blocked := true;
      } else {
        value := uxEventBits;
      }
    }

    lemma Incomplete(waitedFor: Word, bits: Word, current: Word)
      requires waitedFor !! CONTROL && bits !! CONTROL && !(waitedFor <= bits) && current <= bits
      ensures !Matches(WaitWord(waitedFor, true, true), current)
    {
      WordsRoundTrip(waitedFor, true, true, bits);
      if Matches(WaitWord(waitedFor, true, true), current) {
        FewerBitsMatchLess(WaitWord(waitedFor, true, true), current, bits);
      }
    }

    /**
     * The end of `xEventGroupWaitBits` (and of `xEventGroupSync`, with both flags true), once the
     * blocked task runs again: a woken task returns the bits it was handed, whatever they are by now,
     * and a task that timed out returns the present ones, clearing them if they are complete.
     */
    method AfterBlocking(item: ListItem<Word>, waitedFor: Word, clearOnExit: bool, all: bool) returns (value: Word)
      requires Valid() && NoneReady() && waitedFor !! CONTROL
      modifies this`uxEventBits
      ensures Valid() && NoneReady()
      ensures forall bits :: bits !! CONTROL && item.xItemValue == Handed(bits) ==> value == bits && uxEventBits == old(uxEventBits)
      ensures item.xItemValue == WaitWord(waitedFor, clearOnExit, all) ==> value == old(uxEventBits)
      ensures item.xItemValue == WaitWord(waitedFor, clearOnExit, all) ==>
        (uxEventBits ==
         old(uxEventBits) - if clearOnExit && Satisfied(waitedFor, all, old(uxEventBits)) then waitedFor else {})
    {
      TestIsSatisfied(uxEventBits, waitedFor, all);
      hide TestWaitCondition, Satisfied, WaitOver, Matches, List.Valid, Chain.Valid;
      value := item.xItemValue;
      if UNBLOCKED !in value {
        value := uxEventBits;
        if TestWaitCondition(value, waitedFor, all) && clearOnExit { Drop(waitedFor); }
      }
      value := value - CONTROL;
    }

    /** A waiting task's block time ends. */
    method Expire(item: ListItem<Word>)
      requires Valid() && NoneReady() && item in Waiters()
      modifies xTasksWaitingForBits, xTasksWaitingForBits.Nodes()`pxNext, xTasksWaitingForBits.Nodes()`pxPrevious
      modifies item`pvContainer
      ensures Valid() && NoneReady()
      ensures xTasksWaitingForBits.Contents() == old(xTasksWaitingForBits.Contents()).Remove(item)
    {
      hide Matches, Chain.Valid;
      WaitersAreNodes();
      WithoutMembers(Waiters(), IndexOf(Waiters(), item));
      var left := xTasksWaitingForBits.Remove(item);
      WaitersAreNodes();
    }
  }
}
