/** The ring buffer (data_structures/ring-buffer.c): power-of-two capacity, masked
    indices, one slot kept free. It refines a queue bounded at capacity - 1. */
module RingBuffer {
  import opened Words
  import opened Status

  type Element = seq<byte>

  /** The last `n` elements of `s`, or all of them if there are fewer. */
  function Last<T>(s: seq<T>, n: nat): seq<T> {
    if |s| <= n then s else s[|s| - n..]
  }

  /** Index `i` reduced once around a ring of `capacity` slots. */
  function Wrap(i: nat, capacity: nat): nat {
    if i < capacity then i else i - capacity
  }

  /** Distance from `tail` forward to `head`. */
  function Distance(head: nat, tail: nat, capacity: nat): nat
    requires head < capacity && tail < capacity
  {
    if tail <= head then head - tail else head + capacity - tail
  }

  /** The masked increment of the C code is increment modulo the capacity. */
  lemma MaskedIncrement(i: nat, capacity: nat)
    requires IsPow2(capacity) && i < capacity
    ensures And(i + 1, capacity - 1) == Wrap(i + 1, capacity) < capacity
    ensures And(i + 1, capacity - 1) == (i + 1) % capacity
  {
    var k: nat :| capacity == Pow2(k);
    AndMaskIsMod(i + 1, k);
    if i + 1 < capacity { DivModUnique(i + 1, capacity, 0, i + 1); } else { DivModUnique(i + 1, capacity, 1, 0); }
  }

  lemma SlotRange(i: nat, capacity: nat, size: nat)
    requires i < capacity
    ensures i * size + size == (i + 1) * size <= capacity * size
  {
    MulMono(i + 1, capacity, size);
  }

  lemma SlotsDisjoint(i: nat, j: nat, size: nat)
    requires i != j
    ensures (i + 1) * size <= j * size || (j + 1) * size <= i * size
  {
    if i < j { MulMono(i + 1, j, size); } else { MulMono(j + 1, i, size); }
  }

  // ----- queues over slots

  ghost predicate IsRing(slots: seq<Element>, head: nat, tail: nat) {
    head < |slots| && tail < |slots|
  }

  /** The elements waiting to be read, oldest first. */
  ghost function Queue(slots: seq<Element>, head: nat, tail: nat): (q: seq<Element>)
    requires IsRing(slots, head, tail)
    ensures |q| == Distance(head, tail, |slots|) <= |slots| - 1
  {
    seq(Distance(head, tail, |slots|), i requires 0 <= i < Distance(head, tail, |slots|) =>
      slots[Wrap(tail + i, |slots|)])
  }

  /** Filling the free slot at `head` and advancing appends; it touches no waiting element. */
  lemma Appended(slots: seq<Element>, head: nat, tail: nat, e: Element)
    requires IsRing(slots, head, tail) && Distance(head, tail, |slots|) < |slots| - 1
    ensures Queue(slots[head := e], Wrap(head + 1, |slots|), tail) == Queue(slots, head, tail) + [e]
  {
    var l, r := Queue(slots[head := e], Wrap(head + 1, |slots|), tail), Queue(slots, head, tail) + [e];
    assert |l| == |r|;
    forall i | 0 <= i < |r| ensures l[i] == r[i] {
      assert i < |r| - 1 ==> Wrap(tail + i, |slots|) != head;
      assert i == |r| - 1 ==> Wrap(tail + i, |slots|) == head;
    }
  }

  /** Advancing `tail` drops the oldest element. */
  lemma Dropped(slots: seq<Element>, head: nat, tail: nat)
    requires IsRing(slots, head, tail) && head != tail
    ensures Queue(slots, head, tail) == [slots[tail]] + Queue(slots, head, Wrap(tail + 1, |slots|))
  {
    var l, r := Queue(slots, head, tail), Queue(slots, head, Wrap(tail + 1, |slots|));
    assert |l| == |r| + 1;
    forall i | 0 <= i < |r| ensures l[i + 1] == r[i] {
      assert Wrap(tail + (i + 1), |slots|) == Wrap(Wrap(tail + 1, |slots|) + i, |slots|);
    }
    assert l[0] == slots[Wrap(tail + 0, |slots|)] == slots[tail];
  }

  /** Displacing the oldest of `n` elements keeps the last `n` of the longer sequence. */
  lemma LastAfterDrop(q: seq<Element>, e: Element, n: nat)
    requires |q| <= n
    ensures Last(q + [e], n) == if n == 0 then [] else if |q| < n then q + [e] else q[1..] + [e]
  {
  }

  // ----- slots in memory

  ghost predicate Holds(storage: seq<byte>, capacity: nat, size: nat) {
    capacity * size <= |storage|
  }

  /** Slot `i` occupies bytes i * size up to (i + 1) * size. */
  ghost function SlotAt(storage: seq<byte>, i: nat, capacity: nat, size: nat): Element
    requires i < capacity && Holds(storage, capacity, size)
  {
    SlotRange(i, capacity, size);
    storage[i * size..i * size + size]
  }

  ghost function Slots(storage: seq<byte>, capacity: nat, size: nat): (s: seq<Element>)
    requires Holds(storage, capacity, size)
    ensures |s| == capacity
  {
    seq(capacity, i requires 0 <= i < capacity => SlotAt(storage, i, capacity, size))
  }

  /** Copying `e` to offset i * size changes slot `i` alone. */
  lemma CopyChangesOneSlot(before: seq<byte>, after: seq<byte>, i: nat, e: Element, capacity: nat)
    requires i < capacity && Holds(before, capacity, |e|)
    requires i * |e| + |e| <= |before|
    requires after == before[..i * |e|] + e + before[i * |e| + |e|..]
    ensures Holds(after, capacity, |e|)
    ensures Slots(after, capacity, |e|) == Slots(before, capacity, |e|)[i := e]
  {
    var l, r := Slots(after, capacity, |e|), Slots(before, capacity, |e|)[i := e];
    forall j | 0 <= j < capacity ensures l[j] == r[j] {
      CopyKeepsSlot(before, after, i, e, j, capacity);
    }
  }

  lemma CopyKeepsSlot(before: seq<byte>, after: seq<byte>, i: nat, e: Element, j: nat, capacity: nat)
    requires i < capacity && j < capacity && Holds(before, capacity, |e|) && |after| == |before|
    requires i * |e| + |e| <= |before|
    requires after == before[..i * |e|] + e + before[i * |e| + |e|..]
    ensures SlotAt(after, j, capacity, |e|) == if i == j then e else SlotAt(before, j, capacity, |e|)
  {
    SlotRange(i, capacity, |e|);
    SlotRange(j, capacity, |e|);
    if i != j { SlotsDisjoint(i, j, |e|); }
  }

  /** memcpy() into a byte array. */
  method Memcpy(dst: array<byte>, offset: nat, src: seq<byte>)
    requires offset + |src| <= dst.Length
    modifies dst
    ensures dst[..] == old(dst[..])[..offset] + src + old(dst[..])[offset + |src|..]
  {
    var i := 0;
    while i < |src|
      invariant i <= |src|
      invariant dst[..] == old(dst[..])[..offset] + src[..i] + old(dst[..])[offset + i..]
    {
      dst[offset + i] := src[i];
      i := i + 1;
    }
  }

  class RingBuffer {
    var buffer: array<byte>
    var capacity: nat
    var elementSize: nat
    var head: nat
    var tail: nat
    var mask: nat

    ghost predicate Valid()
      reads this, buffer
    {
      && IsPow2(capacity) && capacity < 0x1_0000
      && elementSize > 0
      && Holds(buffer[..], capacity, elementSize)
      && head < capacity && tail < capacity
      && mask == capacity - 1
    }

    ghost function Cells(): (s: seq<Element>)
      requires Holds(buffer[..], capacity, elementSize)
      reads this, buffer
      ensures |s| == capacity
    {
      Slots(buffer[..], capacity, elementSize)
    }

    ghost function Contents(): (s: seq<Element>)
      requires Valid()
      reads this, buffer
      ensures |s| <= capacity - 1
    {
      Queue(Cells(), head, tail)
    }

    /** A zeroed control structure, before ring_buffer_init(). */
    constructor ()
      ensures fresh(buffer)
    {
      buffer := new byte[0];
      capacity, elementSize, head, tail, mask := 0, 0, 0, 0, 0;
    }

    /** ring_buffer_init(): accepts exactly a present buffer, a non-zero element size and a
        power-of-two capacity, and starts empty. */
    method Init(storage: array?<byte>, newCapacity: uint16, newElementSize: nat) returns (status: Status)
      requires storage != null ==> newCapacity * newElementSize <= storage.Length
      modifies this
      ensures status == Ok <==> storage != null && newElementSize != 0 && IsPow2(newCapacity)
      ensures status == Ok ==> Valid() && Contents() == []
      ensures status == Ok ==> buffer == storage && capacity == newCapacity && elementSize == newElementSize
      ensures status != Ok ==> status == InvalidArg && unchanged(this)
    {
      if storage == null {
        return InvalidArg;
      }
      if newElementSize == 0 {
        return InvalidArg;
      }
      if newCapacity > 0 {
        PowerOfTwoTest(newCapacity);
      } else {
        assert forall k: nat :: Pow2(k) != newCapacity;
      }
      if newCapacity == 0 || And(newCapacity, newCapacity - 1) != 0 {
        return InvalidArg;
      }
      buffer := storage;
      elementSize := newElementSize;
      capacity := newCapacity;
      head := 0;
      tail := 0;
      mask := newCapacity - 1;
      return Ok;
    }

    /** ring_buffer_is_empty(). */
    method IsEmpty() returns (empty: bool)
      requires Valid()
      ensures empty <==> Contents() == []
    {
      empty := head == tail;
    }

    /** ring_buffer_is_full(): one slot always stays free. */
    method IsFull() returns (full: bool)
      requires Valid()
      ensures full <==> |Contents()| == capacity - 1
    {
      MaskedIncrement(head, capacity);
      full := And(head + 1, mask) == tail;
    }

    /** ring_buffer_write(): append, refuse when full, or displace the oldest element. */
    method Write(element: Element, overwrite: bool) returns (status: Status)
      requires Valid() && |element| == elementSize
      modifies this`head, this`tail, buffer
      ensures Valid()
      ensures status == (if |old(Contents())| == capacity - 1 && !overwrite then Full else Ok)
      ensures status == Full ==> unchanged(this) && unchanged(buffer)
      ensures status == Ok ==> Contents() == Last(old(Contents()) + [element], capacity - 1)
    {
      var full := IsFull();
      if full {
        if !overwrite {
          return Full;
        }
        DropOldest();
      }
      Append(element);
      LastAfterDrop(old(Contents()), element, capacity - 1);
      return Ok;
    }

    /** The overwriting branch: a full ring gives up its oldest element. */
    method DropOldest()
      requires Valid() && |Contents()| == capacity - 1
      modifies this`tail
      ensures Valid()
      ensures Contents() == if capacity == 1 then [] else old(Contents())[1..]
    {
      if capacity > 1 {
        Dropped(Cells(), head, tail);
      }
      MaskedIncrement(tail, capacity);
      tail := And(tail + 1, mask);
    }

    /** Fill the free slot and publish it. A one-slot ring never holds anything. */
    method Append(element: Element)
      requires Valid() && |element| == elementSize
      requires |Contents()| < capacity - 1 || capacity == 1
      modifies this`head, buffer
      ensures Valid()
      ensures Contents() == if capacity == 1 then [] else old(Contents()) + [element]
    {
      if capacity > 1 {
        Appended(Cells(), head, tail, element);
      }
      Store(head, element);
      MaskedIncrement(head, capacity);
      head := And(head + 1, mask);
    }

    /** The copy into a slot. */
    method Store(i: nat, element: Element)
      requires Valid() && i < capacity && |element| == elementSize
      modifies buffer
      ensures Holds(buffer[..], capacity, elementSize)
      ensures Cells() == old(Cells())[i := element]
    {
      ghost var storage := buffer[..];
      SlotRange(i, capacity, elementSize);
      Memcpy(buffer, i * elementSize, element);
      CopyChangesOneSlot(storage, buffer[..], i, element, capacity);
    }

    /** The copy out of a slot. */
    method Load(i: nat) returns (element: Element)
      requires Valid() && i < capacity
      ensures |element| == elementSize
      ensures element == Cells()[i]
    {
      SlotRange(i, capacity, elementSize);
      element := buffer[i * elementSize..i * elementSize + elementSize];
    }

    /** ring_buffer_read(): take the oldest element. */
    method Read() returns (status: Status, element: Element)
      requires Valid()
      modifies this`tail
      ensures Valid()
      ensures status == (if old(Contents()) == [] then Empty else Ok)
      ensures status == Empty ==> Contents() == []
      ensures status == Ok ==> old(Contents()) == [element] + Contents() && |element| == elementSize
    {
      element := [];
      var empty := IsEmpty();
      if empty {
        return Empty, element;
      }
      element := Load(tail);
      Dropped(Cells(), head, tail);
      MaskedIncrement(tail, capacity);
      tail := And(tail + 1, mask);
      return Ok, element;
    }

    /** ring_buffer_flush(). */
    method Flush()
      requires Valid()
      modifies this`head, this`tail
      ensures Valid() && Contents() == []
    {
      head := 0;
      tail := 0;
    }
  }

  /** uart_read_buffer(): drain up to `length` received bytes into the caller's array. */
  method UartReadBuffer(rx: RingBuffer, data: array<byte>, length: uint16) returns (count: nat)
    requires rx.Valid() && rx.elementSize == 1 && rx.buffer != data && length <= data.Length
    modifies rx`tail, data
    ensures rx.Valid()
    ensures count == if |old(rx.Contents())| <= length then |old(rx.Contents())| else length
    ensures forall i :: 0 <= i < count ==> old(rx.Contents())[i] == [data[i]]
    ensures rx.Contents() == old(rx.Contents())[count..]
    ensures data[count..] == old(data[count..])
  {
    count := 0;
    ghost var waiting := rx.Contents();
    while count < length
      invariant count <= length <= data.Length
      invariant rx.Valid() && rx.elementSize == 1 && rx.buffer == old(rx.buffer)
      invariant count <= |waiting| && rx.Contents() == waiting[count..]
      invariant forall i :: 0 <= i < count ==> waiting[i] == [data[i]]
      invariant data[count..] == old(data[count..])
    {
      var status, element := rx.Read();
      if status != Ok {
        break;
      }
      assert element == waiting[count];
      data[count] := element[0];
      count := count + 1;
    }
  }
}
