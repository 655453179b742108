/** A fixed-capacity ring: a head index and a count over one array, all arithmetic modulo the capacity. */
module Rings {
  import opened Seqs

  class RingBuffer<T(0)> {
    const capacity: nat
    const data: array<T>
    var head: nat
    var count: nat

    ghost predicate Valid() reads this {
      && 1 <= capacity == data.Length
      && head < capacity
      && count <= capacity
    }

    /** The items held, oldest first. */
    ghost function Contents(): (s: seq<T>)
      requires Valid()
      reads this, data
      ensures |s| == count
    {
      seq(count, i requires 0 <= i < count reads this, data requires Valid() => data[Slot(i)])
    }

    ghost function Slot(i: nat): (k: nat)
      requires Valid() && i < count
      reads this
      ensures k < capacity
    {
      SlotAt(capacity, head, count, i)
    }

    constructor (capacity: int)
      ensures Valid() && fresh(data) && Contents() == []
      ensures this.capacity == if capacity < 1 then 1 else capacity
    {
      var cap := if capacity < 1 then 1 else capacity;
      this.capacity := cap;
      data := new T[cap];
      head, count := 0, 0;
    }

    method Add(item: T)
      requires Valid()
      modifies this, data
      ensures Valid()
      ensures Contents() == LastN(old(Contents()) + [item], capacity)
    {
      hide SlotAt, LastN;
      ghost var before := Contents();
      ghost var shift := if count == capacity then 1 else 0;
      AddSlots(capacity, head, count);
      data[head] := item;
      head := (head + 1) % capacity;
      if count < capacity {
        count := count + 1;
      }
      AfterAdd(before, item, Contents(), capacity, shift);
    }

    method Slice() returns (result: seq<T>)
      requires Valid()
      ensures result == Contents()
    {
      hide SlotAt;
      var out := [];
      var start := (head - count + capacity) % capacity;
      for i := 0 to count
        invariant out == Contents()[..i]
      {
        SlotIs(capacity, head, count, i);
        out := out + [data[(start + i) % capacity]];
      }
      result := out;
    }
  }

  /** Where the i-th of count items sits when the next one goes to head. */
  function SlotAt(capacity: nat, head: nat, count: nat, i: nat): (k: nat)
    requires head < capacity && i < count <= capacity
    ensures k < capacity
  {
    var start :=
      if count <= head then head - count
      else if count - head == capacity then 0
      else head - count + capacity;
    if start + i < capacity then start + i else start + i - capacity
  }

  /** The slot as the source computes it. */
  lemma SlotIs(capacity: nat, head: nat, count: nat, i: nat)
    requires head < capacity && i < count <= capacity
    ensures ((head - count + capacity) % capacity + i) % capacity == SlotAt(capacity, head, count, i)
  {
    WrapOnce(head - count + capacity, capacity);
    WrapOnce((head - count + capacity) % capacity + i, capacity);
  }

  /** Advancing the head leaves every surviving item where it is, and puts the new one last. */
  lemma AddSlots(capacity: nat, head: nat, count: nat)
    requires head < capacity && count <= capacity
    ensures var head', n := (head + 1) % capacity, if count < capacity then count + 1 else count;
            var shift := if count == capacity then 1 else 0;
            && head' < capacity && SlotAt(capacity, head', n, n - 1) == head
            && forall i :: 0 <= i < n - 1 ==>
                 SlotAt(capacity, head', n, i) == SlotAt(capacity, head, count, i + shift) != head
  {
    WrapOnce(head + 1, capacity);
  }

  lemma AfterAdd<T>(before: seq<T>, item: T, after: seq<T>, capacity: nat, shift: nat)
    requires |before| <= capacity && capacity > 0 && shift == if |before| == capacity then 1 else 0
    requires |after| == |before| + 1 - shift && after[|after|-1] == item
    requires forall i :: 0 <= i < |after| - 1 ==> after[i] == before[i + shift]
    ensures after == LastN(before + [item], capacity)
  {
  }

  lemma WrapOnce(k: nat, n: nat)
    requires 0 < n && k < 2 * n
    ensures k % n == if k < n then k else k - n
  {
    if n <= k {
      assert k == n * 1 + (k - n);
    }
  }
}
