/**
 * The byte ring of queue.c: items copied by value into a circular storage area that also serves
 * semaphores, whose items are empty.  It is proved to implement a bounded deque of items.
 */
module Queues {
  newtype Byte = b: int | -128 <= b < 128

  type Item = seq<Byte>

  datatype Position = SendToBack | SendToFront | Overwrite

  /** The contents after a send; a semaphore has no item that could be overwritten. */
  function Sent(items: seq<Item>, item: Item, position: Position, size: nat): seq<Item> {
    match position
    case SendToBack => items + [item]
    case SendToFront => [item] + items
    case Overwrite => if size > 0 then [item] else items + [item]
  }

  predicate Accepts(items: seq<Item>, position: Position, length: nat) {
    |items| < length || position == Overwrite
  }

  // ----- the storage area in slots -----

  function Offset(slot: nat, size: nat): nat { slot * size }

  lemma OffsetStep(slot: nat, size: nat)
    ensures Offset(slot + 1, size) == Offset(slot, size) + size
  {
  }

  lemma {:induction false} OffsetOrder(i: nat, j: nat, size: nat)
    ensures i < j ==> Offset(i, size) + size <= Offset(j, size)
    decreases j
  {
    if i < j {
      OffsetStep(j - 1, size);
      OffsetOrder(i, j - 1, size);
    }
    hide Offset;
  }

  /** The slot of the item that `k` receives will reach, when the last read was of slot `read`. */
  function Slot(read: nat, k: nat, length: nat): nat {
    var s := read + 1 + k;
    if s < length then s else if s < 2 * length then s - length else s - 2 * length
  }

  function Bytes(storage: seq<Byte>, slot: nat, size: nat): Item {
    seq(size, i requires 0 <= i < size => if Offset(slot, size) + i < |storage| then storage[Offset(slot, size) + i] else 0)
  }

  /** `storage` holds `items` one after the other, beginning behind slot `read`. */
  ghost predicate Holds(storage: seq<Byte>, read: nat, items: seq<Item>, length: nat, size: nat) {
    && |storage| == Offset(length, size) && read < length && |items| <= length
    && forall k :: 0 <= k < |items| ==> items[k] == Bytes(storage, Slot(read, k, length), size)
  }

  /** `storage` with `item` copied over slot `slot`. */
  function Written(storage: seq<Byte>, slot: nat, size: nat, item: Item): seq<Byte> {
    seq(|storage|, i requires 0 <= i < |storage| =>
      if Offset(slot, size) <= i < Offset(slot, size) + |item| then item[i - Offset(slot, size)] else storage[i])
  }

  lemma WrittenBytes(storage: seq<Byte>, slot: nat, other: nat, length: nat, size: nat, item: Item)
    requires |storage| == Offset(length, size) && slot < length && other < length && |item| == size
    ensures Bytes(Written(storage, slot, size, item), other, size) ==
            if other == slot then item else Bytes(storage, other, size)
  {
    OffsetOrder(slot, other, size);
    OffsetOrder(other, slot, size);
    OffsetOrder(other, length, size);
    hide Offset;
  }

  lemma SlotsDiffer(read: nat, j: nat, k: nat, length: nat)
    requires read < length && j < k < length
    ensures Slot(read, j, length) != Slot(read, k, length) && Slot(read, j, length) < length && Slot(read, k, length) < length
  {
  }

  /** Writing the next free slot appends. */
  lemma Appends(storage: seq<Byte>, read: nat, items: seq<Item>, length: nat, size: nat, item: Item)
    requires Holds(storage, read, items, length, size) && |items| < length && |item| == size
    ensures Holds(Written(storage, Slot(read, |items|, length), size, item), read, items + [item], length, size)
  {
    var slot := Slot(read, |items|, length);
    hide Bytes, Written, Offset, Slot;
    SlotBound(read, |items|, length);
    WrittenLength(storage, slot, size, item);
    forall k | 0 <= k <= |items| ensures (items + [item])[k] == Bytes(Written(storage, slot, size, item), Slot(read, k, length), size) {
      SlotBound(read, k, length);
      if k < |items| { SlotsDiffer(read, k, |items|, length); }
      WrittenBytes(storage, slot, Slot(read, k, length), length, size, item);
    }
  }

  lemma WrittenLength(storage: seq<Byte>, slot: nat, size: nat, item: Item)
    ensures |Written(storage, slot, size, item)| == |storage|
  {
  }

  lemma SlotBound(read: nat, k: nat, length: nat)
    requires read < length && k < length
    ensures Slot(read, k, length) < length
  {
  }

  /** Writing the slot of the last read, and stepping the read position back, prepends. */
  lemma Prepends(storage: seq<Byte>, read: nat, items: seq<Item>, length: nat, size: nat, item: Item)
    requires Holds(storage, read, items, length, size) && |items| < length && |item| == size
    ensures Holds(Written(storage, read, size, item), if read == 0 then length - 1 else read - 1, [item] + items, length, size)
  {
    var read' := if read == 0 then length - 1 else read - 1;
    hide Bytes, Written, Offset;
    WrittenLength(storage, read, size, item);
    forall k | 0 <= k <= |items| ensures ([item] + items)[k] == Bytes(Written(storage, read, size, item), Slot(read', k, length), size) {
      SlotBound(read', k, length);
      assert k > 0 ==> Slot(read', k, length) == Slot(read, k - 1, length) != read;
      WrittenBytes(storage, read, Slot(read', k, length), length, size, item);
    }
  }

  /** Stepping the read position forward drops the front item, which is in the slot stepped to. */
  lemma Drops(storage: seq<Byte>, read: nat, items: seq<Item>, length: nat, size: nat)
    requires Holds(storage, read, items, length, size) && items != []
    ensures items[0] == Bytes(storage, if read + 1 < length then read + 1 else 0, size)
    ensures Holds(storage, if read + 1 < length then read + 1 else 0, items[1..], length, size)
  {
    hide Bytes, Offset;
    var read' := if read + 1 < length then read + 1 else 0;
    assert Slot(read, 0, length) == read';
    forall k | 0 <= k < |items| - 1 ensures items[1..][k] == Bytes(storage, Slot(read', k, length), size) {
      assert Slot(read', k, length) == Slot(read, k + 1, length);
    }
  }

  // ----- the queue -----

  class Queue {
    const pcStorage: array<Byte>   // from pcHead to pcTail; the pointers below are offsets into it
    const uxLength: nat
    const uxItemSize: nat
    var pcWriteTo: nat
    var pcReadFrom: nat
    var uxMessagesWaiting: nat
    ghost var items: seq<Item>
    ghost var read: nat  // the slot pcReadFrom points at

    ghost predicate Valid()
      reads this, pcStorage
    {
      && uxLength > 0 && uxMessagesWaiting == |items| && read < uxLength && pcReadFrom == Offset(read, uxItemSize)
      && pcStorage.Length == Offset(uxLength, uxItemSize)
      && (uxItemSize == 0 ==> pcWriteTo == 0 && forall k :: 0 <= k < |items| ==> items[k] == [])
      && (uxItemSize > 0 ==> pcWriteTo == Offset(Slot(read, |items|, uxLength), uxItemSize)
                             && Holds(pcStorage[..], read, items, uxLength, uxItemSize))
    }

    /** `xQueueGenericCreate`. */
    constructor (length: nat, itemSize: nat)
      requires length > 0
      ensures Valid() && uxLength == length && uxItemSize == itemSize && items == [] && fresh(pcStorage)
    {
      uxLength, uxItemSize := length, itemSize;
      pcStorage := new Byte[length * itemSize];
      pcWriteTo, pcReadFrom, uxMessagesWaiting := 0, (length - 1) * itemSize, 0;
      items, read := [], length - 1;
    }

    /** The storage part of `xQueueGenericReset`. */
    method Reset()
      requires Valid()
      modifies this
      ensures Valid() && items == []
    {
      uxMessagesWaiting := 0;
      pcWriteTo := 0;
      pcReadFrom := (uxLength - 1) * uxItemSize;
      items, read := [], uxLength - 1;
    }

    /** `memcpy` into the storage area. */
    method CopyIn(at: nat, item: Item, ghost slot: nat)
      requires at == Offset(slot, |item|) && at + |item| <= pcStorage.Length
      modifies pcStorage
      ensures pcStorage[..] == Written(old(pcStorage[..]), slot, |item|, item)
    {
      hide Offset;
      forall i | 0 <= i < |item| {
        pcStorage[at + i] := item[i];
      }
    }

    /** `prvCopyDataToQueue`, for a queue that accepts the item. */
    method CopyDataToQueue(item: Item, position: Position)
      requires Valid() && |item| == uxItemSize && Accepts(items, position, uxLength)
      requires position == Overwrite ==> uxLength == 1
      modifies this, pcStorage
      ensures Valid() && items == Sent(old(items), item, position, uxItemSize)
      ensures position == SendToBack ==> items == old(items) + [item]
      ensures position == SendToFront ==> items == [item] + old(items)
      ensures position == Overwrite ==> items == if uxItemSize > 0 then [item] else old(items) + [item]
    {
      hide Offset, Written, Bytes;
      if uxItemSize == 0 {
        items := Sent(items, item, position, 0);
        uxMessagesWaiting := uxMessagesWaiting + 1;
      } else if position == SendToBack {
        WriteBack(item);
      } else {
        if position == Overwrite && uxMessagesWaiting > 0 {
          uxMessagesWaiting := uxMessagesWaiting - 1;
          items := [];
        }
        WriteFront(item);
      }
    }

    /** Copy to the place pcWriteTo points at. */
    method WriteBack(item: Item)
      requires Valid() && |item| == uxItemSize > 0 && |items| < uxLength
      modifies this, pcStorage
      ensures Valid() && items == old(items) + [item]
    {
      ghost var slot := Slot(read, |items|, uxLength);
      Appends(pcStorage[..], read, items, uxLength, uxItemSize, item);
      OffsetStep(slot, uxItemSize);
      OffsetOrder(slot, uxLength, uxItemSize);
      OffsetOrder(slot + 1, uxLength, uxItemSize);
      hide Offset, Holds, Written;
      CopyIn(pcWriteTo, item, slot);
      pcWriteTo := pcWriteTo + uxItemSize;
      if pcWriteTo >= pcStorage.Length {
        pcWriteTo := 0;
      }
      items := items + [item];
      uxMessagesWaiting := uxMessagesWaiting + 1;
    }

    /** Copy to the place pcReadFrom points at. */
    method WriteFront(item: Item)
      requires Valid() && |item| == uxItemSize > 0 && |items| < uxLength
      modifies this, pcStorage
      ensures Valid() && items == [item] + old(items)
    {
      Prepends(pcStorage[..], read, items, uxLength, uxItemSize, item);
      OffsetOrder(read, uxLength, uxItemSize);
      if read > 0 { OffsetStep(read - 1, uxItemSize); }
      OffsetStep(uxLength - 1, uxItemSize);
      hide Offset, Holds, Written;
      CopyIn(pcReadFrom, item, read);
      StepBack();
      items := [item] + items;
      uxMessagesWaiting := uxMessagesWaiting + 1;
    }

    /** The read position steps back by one item. */
    method StepBack()
      requires uxItemSize > 0 && uxLength > 0 && read < uxLength && pcReadFrom == Offset(read, uxItemSize)
      requires pcStorage.Length == Offset(uxLength, uxItemSize)
      modifies this`pcReadFrom, this`read
      ensures read == (if old(read) == 0 then uxLength - 1 else old(read) - 1) && pcReadFrom == Offset(read, uxItemSize)
    {
      OffsetStep(if read == 0 then uxLength - 1 else read - 1, uxItemSize);
      OffsetOrder(0, read, uxItemSize);
      assert Offset(0, uxItemSize) == 0;
      hide Offset;
      var readFrom := pcReadFrom - uxItemSize;
      if readFrom < 0 {
        readFrom := pcStorage.Length - uxItemSize;
      }
      pcReadFrom := readFrom;
      read := if read == 0 then uxLength - 1 else read - 1;
    }

    /** `prvCopyDataFromQueue`: the read position steps to the front item, which is copied out. */
    method CopyDataFromQueue() returns (item: Item)
      requires Valid() && items != []
      modifies this`pcReadFrom
      ensures item == items[0]
      ensures uxItemSize == 0 ==> pcReadFrom == old(pcReadFrom)
      ensures uxItemSize > 0 ==> pcReadFrom == Offset(if read + 1 < uxLength then read + 1 else 0, uxItemSize)
    {
      item := [];
      if uxItemSize != 0 {
        ghost var slot := if read + 1 < uxLength then read + 1 else 0;
        Drops(pcStorage[..], read, items, uxLength, uxItemSize);
        OffsetStep(read, uxItemSize);
        OffsetOrder(read + 1, uxLength, uxItemSize);
        OffsetOrder(slot, uxLength, uxItemSize);
        assert Offset(0, uxItemSize) == 0;
        hide Offset, Slot, Holds;
        pcReadFrom := pcReadFrom + uxItemSize;
        if pcReadFrom >= pcStorage.Length {
          pcReadFrom := 0;
        }
        item := pcStorage[pcReadFrom..pcReadFrom + uxItemSize];
      }
    }

    /** The critical section of `xQueueGenericSend` and of its interrupt form. */
    method TrySend(item: Item, position: Position) returns (sent: bool)
      requires Valid() && |item| == uxItemSize && (position == Overwrite ==> uxLength == 1)
      modifies this, pcStorage
      ensures Valid() && sent == Accepts(old(items), position, uxLength)
      ensures items == if sent then Sent(old(items), item, position, uxItemSize) else old(items)
      ensures sent <==> |old(items)| < uxLength || position == Overwrite
      ensures sent && position == SendToBack ==> items == old(items) + [item]
      ensures sent && position == SendToFront ==> items == [item] + old(items)
      ensures sent && position == Overwrite ==> items == if uxItemSize > 0 then [item] else old(items) + [item]
    {
      hide Offset, Slot, Holds, Sent;
      sent := uxMessagesWaiting < uxLength || position == Overwrite;
      if sent {
        CopyDataToQueue(item, position);
      }
    }

    /** The critical section of `xQueueGenericReceive` and of its interrupt forms. */
    method TryReceive(justPeeking: bool) returns (received: bool, item: Item)
      requires Valid()
      modifies this
      ensures Valid() && received == (old(items) != [])
      ensures received ==> item == old(items)[0]
      ensures items == if received && !justPeeking then old(items)[1..] else old(items)
    {
      received, item := uxMessagesWaiting > 0, [];
      if received {
        var originalReadPosition := pcReadFrom;
        item := CopyDataFromQueue();
        if justPeeking {
          pcReadFrom := originalReadPosition;
        } else {
          uxMessagesWaiting := uxMessagesWaiting - 1;
          DropFront();
        }
      }
    }

    /** What receiving the front item means. */
    ghost method DropFront()
      requires uxLength > 0 && uxMessagesWaiting + 1 == |items| && read < uxLength
      requires pcStorage.Length == Offset(uxLength, uxItemSize)
      requires uxItemSize == 0 ==> pcWriteTo == 0 && pcReadFrom == 0 && forall k :: 0 <= k < |items| ==> items[k] == []
      requires uxItemSize > 0 ==> pcWriteTo == Offset(Slot(read, |items|, uxLength), uxItemSize)
                                  && Holds(pcStorage[..], read, items, uxLength, uxItemSize)
                                  && pcReadFrom == Offset(if read + 1 < uxLength then read + 1 else 0, uxItemSize)
      modifies this`items, this`read
      ensures Valid() && items == old(items[1..])
    {
      if uxItemSize > 0 {
        Drops(pcStorage[..], read, items, uxLength, uxItemSize);
        read := if read + 1 < uxLength then read + 1 else 0;
      }
      items := items[1..];
      hide Holds;
    }

    /** `uxQueueSpacesAvailable`. */
    method SpacesAvailable() returns (n: int)
      requires Valid()
      ensures n == uxLength - |items|
    {
      n := uxLength - uxMessagesWaiting;
    }
  }

  // ----- the deque over whole runs -----

  datatype Op = Send(item: Item, position: Position) | Receive | Peek

  /** The contents, the items handed to receivers so far, and the items accepted and overwritten so far. */
  datatype Log = Log(items: seq<Item>, received: seq<Item>, accepted: seq<Item>, lost: seq<Item>)

  function Step(l: Log, op: Op, length: nat, size: nat): Log {
    match op
    case Send(item, position) =>
      if Accepts(l.items, position, length) then
        l.(items := Sent(l.items, item, position, size), accepted := l.accepted + [item],
           lost := if position == Overwrite && size > 0 then l.lost + l.items else l.lost)
      else l
    case Receive => if l.items == [] then l else l.(items := l.items[1..], received := l.received + [l.items[0]])
    case Peek => l
  }

  function Run(l: Log, ops: seq<Op>, length: nat, size: nat): Log
    decreases |ops|
  {
    if ops == [] then l else Run(Step(l, ops[0], length, size), ops[1..], length, size)
  }

  /** With back-sends alone the items come out in the order in which they were accepted, none lost or repeated. */
  lemma {:induction false} DeliversInOrder(l: Log, ops: seq<Op>, length: nat, size: nat)
    requires forall i :: 0 <= i < |ops| && ops[i].Send? ==> ops[i].position == SendToBack
    requires l.received + l.items == l.accepted
    ensures var r := Run(l, ops, length, size); r.received + r.items == r.accepted
    decreases |ops|
  {
    if ops != [] { DeliversInOrder(Step(l, ops[0], length, size), ops[1..], length, size); }
  }

  ghost predicate Conserved(l: Log) {
    multiset(l.accepted) == multiset(l.received) + multiset(l.items) + multiset(l.lost)
  }

  lemma StepConserves(l: Log, op: Op, length: nat, size: nat)
    requires Conserved(l)
    ensures Conserved(Step(l, op, length, size))
  {
    var r := Step(l, op, length, size);
    match op {
      case Send(item, position) =>
        if Accepts(l.items, position, length) {
          assert multiset(r.accepted) == multiset(l.accepted) + multiset{item};
          if position == Overwrite && size > 0 {
            assert multiset(r.lost) == multiset(l.lost) + multiset(l.items);
          } else {
            assert multiset(r.items) == multiset(l.items) + multiset{item};
          }
        }
      case Receive =>
        if l.items != [] {
          assert l.items == [l.items[0]] + r.items;
          assert multiset(l.items) == multiset{l.items[0]} + multiset(r.items);
        }
      case Peek =>
    }
  }

  /** Whatever the sends, every accepted item is received once, still queued, or was overwritten. */
  lemma {:induction false} ConservesItems(l: Log, ops: seq<Op>, length: nat, size: nat)
    requires Conserved(l)
    ensures Conserved(Run(l, ops, length, size))
    decreases |ops|
  {
    hide Conserved, Step;
    if ops != [] {
      StepConserves(l, ops[0], length, size);
      ConservesItems(Step(l, ops[0], length, size), ops[1..], length, size);
    }
  }

  ghost predicate AlwaysBounded(l: Log, ops: seq<Op>, length: nat, size: nat)
    decreases |ops|
  {
    |l.items| <= length && (ops == [] || AlwaysBounded(Step(l, ops[0], length, size), ops[1..], length, size))
  }

  /** No send overwrites a semaphore that is full already. */
  ghost predicate NeverOverfills(l: Log, ops: seq<Op>, length: nat, size: nat)
    decreases |ops|
  {
    ops == [] ||
    (!(ops[0].Send? && ops[0].position == Overwrite && size == 0 && |l.items| == length) &&
     NeverOverfills(Step(l, ops[0], length, size), ops[1..], length, size))
  }

  /**
   * A queue holds at most `length` items in every state of a run exactly when no send overwrites a
   * full semaphore; queues of real items, which may be overwritten only at length 1, always do.
   */
  lemma {:induction false} StaysBounded(l: Log, ops: seq<Op>, length: nat, size: nat)
    requires |l.items| <= length
    requires forall i :: 0 <= i < |ops| && ops[i].Send? && ops[i].position == Overwrite ==> length == 1
    ensures AlwaysBounded(l, ops, length, size) <==> NeverOverfills(l, ops, length, size)
    decreases |ops|
  {
    if ops != [] {
      var r := Step(l, ops[0], length, size);
      if |r.items| <= length { StaysBounded(r, ops[1..], length, size); }
    }
  }

  /** Reached: overwriting a full binary semaphore leaves two messages in a queue of length one. */
  lemma OverwrittenSemaphore()
    ensures |Run(Log([], [], [], []), [Send([], SendToBack), Send([], Overwrite)], 1, 0).items| == 2
  {
    var ops: seq<Op> := [Send([], SendToBack), Send([], Overwrite)];
    assert ops[1..] == [Send([], Overwrite)];
  }
}
