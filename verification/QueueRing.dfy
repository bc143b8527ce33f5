/** The storage of a queue in FreeRtos/kernel/queue.c: a byte area written through pcWriteTo and read
through pcReadFrom, which behaves as a bounded double-ended queue of items.

A pointer into the storage is modelled by its offset from pcHead.
*/
module QueueRing {
  import opened Bytes

  // ---------------------------------------------------------------- slots

  /** Slot i of the window that starts just after the read slot. */
  function SlotAt(read: nat, i: nat, n: nat): (k: nat)
    requires read < n && i <= n
    ensures k < n
  {
    (read + 1 + i) % n
  }

  lemma SlotWraps(read: nat, i: nat, n: nat)
    requires read < n && i < n
    ensures SlotAt(read, i, n) == if read + 1 + i < n then read + 1 + i else read + 1 + i - n
  {}

  /** The items in the queue, oldest first. */
  ghost function Window<T>(slots: seq<T>, read: nat, count: nat): (w: seq<T>)
    requires read < |slots| && count <= |slots|
    ensures |w| == count
  {
    seq(count, i requires 0 <= i < count => slots[SlotAt(read, i, |slots|)])
  }

  /** Sending to the back fills the slot after the window. */
  lemma BackExtends<T>(slots: seq<T>, read: nat, count: nat, x: T)
    requires read < |slots| && count < |slots|
    ensures Window(slots[SlotAt(read, count, |slots|) := x], read, count + 1) == Window(slots, read, count) + [x]
  {
    SlotWraps(read, count, |slots|);
    forall i | 0 <= i < count ensures SlotAt(read, i, |slots|) != SlotAt(read, count, |slots|) {
      SlotWraps(read, i, |slots|);
    }
  }

  function SlotBefore(read: nat, n: nat): (k: nat)
    requires read < n
    ensures k < n
  {
    if read == 0 then n - 1 else read - 1
  }

  /** Sending to the front fills the read slot and steps back. */
  lemma FrontExtends<T>(slots: seq<T>, read: nat, count: nat, x: T)
    requires read < |slots| && count < |slots|
    ensures Window(slots[read := x], SlotBefore(read, |slots|), count + 1) == [x] + Window(slots, read, count)
  {
    var n := |slots|;
    SlotWraps(SlotBefore(read, n), 0, n);
    forall i | 0 <= i < count
      ensures SlotAt(read, i, n) != read && SlotAt(SlotBefore(read, n), i + 1, n) == SlotAt(read, i, n)
    {
      SlotWraps(read, i, n);
      SlotWraps(SlotBefore(read, n), i + 1, n);
    }
    var w := Window(slots[read := x], SlotBefore(read, n), count + 1);
    assert forall i :: 0 < i <= count ==> w[i] == Window(slots, read, count)[i - 1];
  }

  /** Reading steps over the oldest item. */
  lemma ReadShrinks<T>(slots: seq<T>, read: nat, count: nat)
    requires read < |slots| && 0 < count <= |slots|
    ensures var next := SlotAt(read, 0, |slots|);
            && slots[next] == Window(slots, read, count)[0]
            && Window(slots, next, count - 1) == Window(slots, read, count)[1..]
  {
    var n := |slots|;
    var next := SlotAt(read, 0, n);
    forall i | 0 <= i < count - 1 ensures SlotAt(next, i, n) == SlotAt(read, i + 1, n) {
      SlotWraps(read, 0, n);
      SlotWraps(next, i, n);
      SlotWraps(read, i + 1, n);
    }
  }

  /** The write slot follows the read slot through every operation. */
  lemma WriteSlotFollows(read: nat, count: nat, n: nat)
    requires read < n && count <= n
    ensures count < n ==> SlotAt(read, count + 1, n) == SlotAt(SlotAt(read, count, n), 0, n)
    ensures count < n ==> SlotAt(SlotBefore(read, n), count + 1, n) == SlotAt(read, count, n)
    ensures count > 0 ==> SlotAt(SlotAt(read, 0, n), count - 1, n) == SlotAt(read, count, n)
  {
    ModAt(read + 1 + count, n);
    ModAt(read + 2 + count, n);
    ModAt(read + 1, n);
    ModAt(SlotAt(read, count, n) + 1, n);
    ModAt(SlotBefore(read, n) + 2 + count, n);
    ModAt(SlotAt(read, 0, n) + count, n);
  }

  lemma ModAt(k: nat, n: nat)
    requires 0 < n && k <= 3 * n
    ensures k % n == if k < n then k else if k < 2 * n then k - n else if k < 3 * n then k - 2 * n else 0
  {}

  // ---------------------------------------------------------------- slots as byte ranges

  lemma SlotInside(k: nat, n: nat, size: nat)
    requires k < n
    ensures 0 <= k * size && k * size + size <= n * size
  {
    assert (k + 1) * size <= n * size;
  }

  lemma SlotsApart(j: nat, k: nat, size: nat)
    requires j < k
    ensures j * size + size <= k * size
  {
    SlotInside(j, k, size);
  }

  /** Stepping a pointer forward past pcTail wraps it to pcHead. */
  lemma StepForward(k: nat, n: nat, size: nat)
    requires k < n && size > 0
    ensures var o := k * size + size;
            SlotAt(k, 0, n) * size == if o >= n * size then 0 else o
  {
    SlotWraps(k, 0, n);
    if k + 1 < n { SlotsApart(k + 1, n, size); }
    assert (k + 1) * size == k * size + size;
  }

  /** Stepping a pointer back past pcHead wraps it to the last slot. */
  lemma StepBack(k: nat, n: nat, size: nat)
    requires k < n && size > 0
    ensures var o := k * size - size;
            SlotBefore(k, n) * size == if o < 0 then n * size - size else o
  {
    if k > 0 {
      SlotInside(k - 1, n, size);
      assert (k - 1) * size == k * size - size;
    } else {
      assert (n - 1) * size == n * size - size;
    }
  }

  datatype Position = Back | Front | Overwrite

  class Queue {
    const length: nat     // uxLength
    const itemSize: nat   // uxItemSize
    const storage: array<Byte>
    var writeTo: int      // pcWriteTo
    var readFrom: int     // u.xQueue.pcReadFrom
    var count: nat        // uxMessagesWaiting
    ghost var readSlot: nat

    ghost predicate Shape() {
      0 < length && storage.Length == length * itemSize
    }

    ghost predicate Valid()
      reads this
    {
      && Shape() && count <= length && readSlot < length
      && readFrom == readSlot * itemSize
      && writeTo == SlotAt(readSlot, count, length) * itemSize
    }

    ghost function Slot(k: nat): (b: seq<Byte>)
      requires Shape() && k < length
      reads storage
      ensures |b| == itemSize
    {
      SlotInside(k, length, itemSize);
      storage[k * itemSize..k * itemSize + itemSize]
    }

    ghost function Slots(): (r: seq<seq<Byte>>)
      requires Shape()
      reads storage
      ensures |r| == length
    {
      seq(length, k requires 0 <= k < length reads storage => Slot(k))
    }

    /** The queue as its users see it: the items in order, the next to be received first. */
    ghost function Contents(): (items: seq<seq<Byte>>)
      requires Valid()
      reads this, storage
      ensures |items| == count
    {
      Window(Slots(), readSlot, count)
    }

    /** memcpy of one item into a slot: no other slot changes. */
    method Store(at: int, ghost k: nat, item: seq<Byte>)
      requires Shape() && k < length && at == k * itemSize && |item| == itemSize
      modifies storage
      ensures Slots() == old(Slots())[k := item]
    {
      SlotInside(k, length, itemSize);
      forall i | 0 <= i < itemSize {
        storage[at + i] := item[i];
      }
      assert Slot(k) == item;
      forall j: nat | j < length && j != k ensures Slot(j) == old(Slot(j)) {
        SlotInside(j, length, itemSize);
        if j < k { SlotsApart(j, k, itemSize); } else { SlotsApart(k, j, itemSize); }
      }
    }

    /** xQueueGenericReset on a new queue. */
    constructor (length: nat, itemSize: nat)
      requires 0 < length
      ensures Valid() && this.length == length && this.itemSize == itemSize && fresh(storage) && Contents() == []
    {
      this.length, this.itemSize := length, itemSize;
      storage := new Byte[length * itemSize];
      writeTo, readFrom, count, readSlot := 0, (length - 1) * itemSize, 0, length - 1;
      new;
      assert 0 * itemSize == 0;
    }

    method Reset()
      requires Shape()
      modifies this
      ensures Valid() && Contents() == []
    {
      count := 0;
      writeTo := 0;
      readFrom := (length - 1) * itemSize;
      readSlot := length - 1;
      assert 0 * itemSize == 0;
    }

    /** Items of no size are all the same. */
    lemma AllEmpty()
      requires Valid() && itemSize == 0
      ensures forall i :: 0 <= i < count ==> Contents()[i] == []
    {}

    lemma NoSize(k: nat)
      requires itemSize == 0
      ensures k * itemSize == 0
    {}

    /** prvCopyDataToQueue for items of no size, such as a semaphore has: it only counts. */
    method CountIn()
      requires Valid() && itemSize == 0
      modifies this`count
      ensures count == old(count) + 1
      ensures old(count) < length ==> Valid() && Contents() == old(Contents()) + [[]] == [[]] + old(Contents())
    {
      AllEmpty();
      ghost var was := Contents();
      count := count + 1;
      if count <= length {
        NoSize(SlotAt(readSlot, count - 1, length));
        NoSize(SlotAt(readSlot, count, length));
        AllEmpty();
        assert Contents() == was + [[]] == [[]] + was;
      }
    }

    /** prvCopyDataToQueue, its second branch: the slot at pcWriteTo, then step forward. */
    method CopyToBack(item: seq<Byte>)
      requires Valid() && |item| == itemSize > 0 && count < length
      modifies this`writeTo, this`count, storage
      ensures Valid() && Contents() == old(Contents()) + [item]
    {
      var tail := length * itemSize;
      BackExtends(Slots(), readSlot, count, item);
      WriteSlotFollows(readSlot, count, length);
      StepForward(SlotAt(readSlot, count, length), length, itemSize);
      Store(writeTo, SlotAt(readSlot, count, length), item);
      writeTo := writeTo + itemSize;
      if writeTo >= tail {
        writeTo := 0;
      }
      count := count + 1;
    }

    /** prvCopyDataToQueue, its last branch: the slot at pcReadFrom, then step back. To overwrite
    the one item of a queue of length one is to put the new one in front and drop the old. */
    method CopyToFront(item: seq<Byte>, overwrite: bool)
      requires Valid() && |item| == itemSize > 0 && if overwrite then length == 1 else count < length
      modifies this`readFrom, this`readSlot, this`count, storage
      ensures Valid() && Contents() == if overwrite then [item] else [item] + old(Contents())
    {
      var tail := length * itemSize;
      ghost var kept := if overwrite then 0 else count;
      FrontExtends(Slots(), readSlot, kept, item);
      WriteSlotFollows(readSlot, kept, length);
      StepBack(readSlot, length, itemSize);
      Store(readFrom, readSlot, item);
      readFrom := readFrom - itemSize;
      if readFrom < 0 {
        readFrom := tail - itemSize;
      }
      readSlot := SlotBefore(readSlot, length);
      if overwrite {
        if count > 0 {
          count := count - 1;
        }
      }
      count := count + 1;
    }

    /** prvCopyDataFromQueue: step pcReadFrom forward and copy the slot out. */
    method CopyFrom() returns (item: seq<Byte>)
      requires Valid() && count > 0
      modifies this`readFrom, this`readSlot
      ensures readSlot == SlotAt(old(readSlot), 0, length) && readFrom == readSlot * itemSize
      ensures item == Slot(readSlot)
    {
      if itemSize == 0 {
        readSlot := SlotAt(readSlot, 0, length);
        NoSize(readSlot);
        return [];
      }
      StepForward(readSlot, length, itemSize);
      readFrom := readFrom + itemSize;
      if readFrom >= length * itemSize {
        readFrom := 0;
      }
      readSlot := SlotAt(readSlot, 0, length);
      SlotInside(readSlot, length, itemSize);
      item := storage[readFrom..readFrom + itemSize];
    }

    /** The critical section of xQueueGenericSend: refused when full, unless it overwrites. To
    overwrite an item of no size counts it a second time, and only that leaves more items than the
    queue has room for. */
    method Send(item: seq<Byte>, position: Position) returns (sent: bool)
      requires Valid() && |item| == itemSize && (position.Overwrite? ==> length == 1)
      modifies this, storage
      ensures sent == (|old(Contents())| < length || position.Overwrite?)
      ensures Valid() <==> !(position.Overwrite? && itemSize == 0 && |old(Contents())| == length)
      ensures !Valid() ==> count == length + 1
      ensures Valid() ==> Contents() == if !sent then old(Contents()) else
        match position
        case Back => old(Contents()) + [item]
        case Front => [item] + old(Contents())
        case Overwrite => [item]
    {
      sent := count < length || position.Overwrite?;
      if sent {
        if itemSize == 0 {
          CountIn();
        } else if position.Back? {
          CopyToBack(item);
        } else {
          CopyToFront(item, position.Overwrite?);
        }
      }
    }

    /** The critical section of xQueueReceive. */
    method Receive() returns (received: bool, item: seq<Byte>)
      requires Valid()
      modifies this
      ensures Valid() && received == (old(Contents()) != [])
      ensures received ==> old(Contents()) == [item] + Contents()
      ensures !received ==> Contents() == old(Contents())
    {
      received, item := count > 0, [];
      if received {
        ReadShrinks(Slots(), readSlot, count);
        WriteSlotFollows(readSlot, count, length);
        item := CopyFrom();
        count := count - 1;
      }
    }

    /** The critical section of xQueuePeek: receive, then put the read pointer back. */
    method Peek() returns (received: bool, item: seq<Byte>)
      requires Valid()
      modifies this
      ensures Valid() && received == (old(Contents()) != [])
      ensures Contents() == old(Contents()) && (received ==> item == Contents()[0])
    {
      received, item := count > 0, [];
      if received {
        var original := readFrom;
        ghost var slot := readSlot;
        ReadShrinks(Slots(), readSlot, count);
        item := CopyFrom();
        readFrom := original;
        readSlot := slot;
      }
    }
  }
}
