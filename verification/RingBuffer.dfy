/**
 A bounded ring with head and tail indices, as in apps/dedup/queue.c, lines 23-27, 57-65
 and 81-90, and three times in apps/dedup/decoder.c.  One slot always stays free.
 */
module RingBuffer {

  /** i-th slot after start in a ring of n slots. */
  function Slot(start: nat, i: nat, n: nat): (r: nat)
    requires start < n && i < n
    ensures r < n
  {
    if start + i < n then start + i else start + i - n
  }

  class Ring<T(0)> {
    const data: array<T>
    var head: nat
    var tail: nat
    ghost var items: seq<T>

    /** items lists what is stored from tail up to head. */
    ghost predicate Valid()
      reads this, data
    {
      && head < data.Length && tail < data.Length && |items| < data.Length
      && head == Slot(tail, |items|, data.Length)
      && forall i :: 0 <= i < |items| ==> items[i] == data[Slot(tail, i, data.Length)]
    }

    constructor (size: nat)
      requires size >= 1
      ensures Valid() && fresh(data) && data.Length == size && items == []
    {
      data := new T[size];
      head, tail := 0, 0;
      items := [];
    }

    /** Store at head; the caller has made sure that a slot beyond the free one is left. */
    method Put(x: T)
      requires Valid() && |items| + 1 < data.Length
      modifies this, data
      ensures Valid() && items == old(items) + [x]
    {
      data[head] := x;
      head := head + 1;
      if head == data.Length { head := 0; }
      items := items + [x];
    }

    /** Fetch at tail. */
    method Take() returns (x: T)
      requires Valid() && items != []
      modifies this
      ensures Valid() && x == old(items)[0] && items == old(items)[1..]
    {
      x := data[tail];
      tail := tail + 1;
      if tail == data.Length { tail := 0; }
      items := items[1..];
    }

    /** head and tail meet exactly when nothing is stored. */
    method IsEmpty() returns (r: bool)
      requires Valid()
      ensures r <==> items == []
    {
      r := tail == head;
    }
  }
}
