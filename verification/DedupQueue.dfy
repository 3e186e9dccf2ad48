/**
 The queues between the stages of the encoder, apps/dedup/queue.c.  Each call runs under
 the queue's mutex; a call that waits is modelled from the moment its condition holds.
 */
module DedupQueue {
  import opened RingBuffer
  import Arith

  const ITEM_PER_FETCH := 20

  function Min(a: nat, b: nat): nat { if a < b then a else b }

  /** The batch as enqueue writes it: last element first. */
  ghost function Reversed<T>(s: seq<T>): (r: seq<T>)
    ensures |r| == |s| && forall i :: 0 <= i < |s| ==> r[i] == s[|s| - 1 - i]
  {
    seq(|s|, i requires 0 <= i < |s| => s[|s| - 1 - i])
  }

  // ---------------------------------------------------------------------
  // Batches of any size
  // ---------------------------------------------------------------------

  function Next(i: nat, n: nat): nat { if i + 1 == n then 0 else i + 1 }

  function Used(head: nat, tail: nat, n: nat): (r: nat)
    requires head < n && tail < n
    ensures r < n && head == Slot(tail, r, n)
  {
    if head >= tail then head - tail else head + n - tail
  }

  /** What a consumer finds between tail and head. */
  ghost function Stored<T>(data: seq<T>, head: nat, tail: nat): (r: seq<T>)
    requires head < |data| && tail < |data|
    ensures |r| == Used(head, tail, |data|)
  {
    seq(Used(head, tail, |data|), i requires 0 <= i < Used(head, tail, |data|) => data[Slot(tail, i, |data|)])
  }

  /** The loop of enqueue, which never looks at tail: slots and head after it. */
  ghost function WriteAll<T>(data: seq<T>, head: nat, batch: seq<T>): (r: (seq<T>, nat))
    requires head < |data|
    ensures |r.0| == |data| && r.1 < |data|
    decreases |batch|
  {
    if batch == [] then (data, head)
    else WriteAll(data[head := batch[|batch| - 1]], Next(head, |data|), batch[..|batch| - 1])
  }

  lemma WriteOne<T>(data: seq<T>, head: nat, tail: nat, x: T)
    requires head < |data| && tail < |data| && Used(head, tail, |data|) + 1 < |data|
    ensures Stored(data[head := x], Next(head, |data|), tail) == Stored(data, head, tail) + [x]
  {
  }

  lemma {:induction false} FitsWell<T>(data: seq<T>, head: nat, tail: nat, batch: seq<T>)
    requires head < |data| && tail < |data| && Used(head, tail, |data|) + |batch| < |data|
    ensures var r := WriteAll(data, head, batch); Stored(r.0, r.1, tail) == Stored(data, head, tail) + Reversed(batch)
    decreases |batch|
  {
    hide Used, Stored, Next;
    if batch != [] {
      var last, rest := batch[|batch| - 1], batch[..|batch| - 1];
      WriteOne(data, head, tail, last);
      NextInRange(head, |data|);
      FitsWell(data[head := last], Next(head, |data|), tail, rest);
      assert Reversed(batch) == [last] + Reversed(rest);
    }
  }

  lemma NextInRange(i: nat, n: nat)
    requires i < n
    ensures Next(i, n) < n
  {
  }

  /** enqueue only checks that one slot is free; it stores the whole batch exactly when one slot stays free after it. */
  lemma BatchMustFit<T>(data: seq<T>, head: nat, tail: nat, batch: seq<T>)
    requires head < |data| && tail < |data|
    ensures var r := WriteAll(data, head, batch);
      Stored(r.0, r.1, tail) == Stored(data, head, tail) + Reversed(batch) <==>
        Used(head, tail, |data|) + |batch| < |data|
  {
    if Used(head, tail, |data|) + |batch| < |data| { FitsWell(data, head, tail, batch); }
  }

  /** The test that makes enqueue wait. */
  predicate IsFull(head: nat, tail: nat, n: nat)
    requires tail < n
  {
    head == (tail - 1 + n) % n
  }

  /** That test only keeps the last slot free. */
  lemma FullIs(head: nat, tail: nat, n: nat)
    requires head < n && tail < n
    ensures IsFull(head, tail, n) <==> Used(head, tail, n) == n - 1
  {
    Arith.DivModUnique(tail - 1 + n, n, if tail > 0 then 1 else 0, if tail > 0 then tail - 1 else n - 1);
  }

  /** Two items wait in a ring of four slots; enqueue goes ahead with two more, and all four are lost. */
  lemma EnqueueCanLoseAll<T>(data: seq<T>, batch: seq<T>)
    requires |data| == 4 && |batch| == 2
    ensures !IsFull(2, 0, 4) && |Stored(data, 2, 0)| == 2
    ensures var r := WriteAll(data, 2, batch); Stored(r.0, r.1, 0) == []
  {
    var d := data[2 := batch[1]];
    assert WriteAll(data, 2, batch) == WriteAll(d, 3, batch[..1]);
    assert WriteAll(d, 3, batch[..1]) == WriteAll(d[3 := batch[0]], 0, []);
  }

  class Queue<T(0)> {
    const ring: Ring<T>
    const threads: nat
    var endCount: nat

    ghost predicate Valid()
      reads this, ring, ring.data
    {
      ring.Valid()
    }

    /** queue_init */
    constructor (size: nat, producers: nat)
      requires size >= 1
      ensures Valid() && ring.items == [] && endCount == 0 && threads == producers && ring.data.Length == size
      ensures fresh(ring) && fresh(ring.data)
    {
      ring := new Ring<T>(size);
      threads := producers;
      endCount := 0;
    }

    /** queue_signal_terminate */
    method SignalTerminate()
      requires Valid()
      modifies this
      ensures Valid() && endCount == old(endCount) + 1
    {
      endCount := endCount + 1;
    }

    /** enqueue of a batch that fits: all of it is appended, last element first. */
    method Enqueue(batch: seq<T>)
      requires Valid() && |ring.items| + |batch| < ring.data.Length
      modifies ring, ring.data
      ensures Valid() && ring.items == old(ring.items) + Reversed(batch)
    {
      hide Ring.Valid;
      var fetchCount := |batch|;
      while fetchCount > 0
        invariant 0 <= fetchCount <= |batch| && ring.Valid()
        invariant ring.items == old(ring.items) + Reversed(batch)[..|batch| - fetchCount]
      {
        fetchCount := fetchCount - 1;
        ring.Put(batch[fetchCount]);
      }
    }

    /**
     dequeue once an item is there or all producers have ended: refused only when empty, else a prefix of the
     queue.
     */
    method Dequeue() returns (ok: bool, fetched: seq<T>)
      requires Valid() && (ring.items != [] || endCount == threads)
      modifies ring
      ensures Valid() && ok == (old(ring.items) != [])
      ensures old(ring.items) == fetched + ring.items
      ensures |fetched| == Min(ITEM_PER_FETCH, |old(ring.items)|)
    {
      hide Ring.Valid;
      var empty := ring.IsEmpty();
      if empty {
        return false, [];
      }
      ok, fetched := true, [];
      while |fetched| < ITEM_PER_FETCH
        invariant ring.Valid() && old(ring.items) == fetched + ring.items && |fetched| <= ITEM_PER_FETCH
        invariant ring.items != []
        decreases ITEM_PER_FETCH - |fetched|
      {
        var x := ring.Take();
        fetched := fetched + [x];
        empty := ring.IsEmpty();
        if empty { break; }
      }
    }
  }
}
