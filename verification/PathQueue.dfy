/**
 The bounded queue of apps/pfscan/pqueue.c.  Each call runs under the queue's mutex; a call
 that waits is modelled from the moment its condition holds.
 */
module PathQueue {
  import Arith

  class PQueue<T(0)> {
    const buf: array<T>
    var occupied: nat
    var nextin: nat
    var nextout: nat
    var closed: bool
    ghost var items: seq<T>

    /** items are the stored elements, oldest first. */
    ghost predicate Valid()
      reads this, buf
    {
      && buf.Length >= 1 && nextin < buf.Length && nextout < buf.Length && occupied == |items| <= buf.Length
      && nextin == Wrap(nextout + occupied, buf.Length)
      && forall i :: 0 <= i < |items| ==> items[i] == buf[Wrap(nextout + i, buf.Length)]
    }

    /** pqueue_init */
    constructor (qsize: nat)
      requires qsize >= 1
      ensures Valid() && fresh(buf) && buf.Length == qsize && items == [] && !closed
    {
      buf := new T[qsize];
      occupied, nextin, nextout, closed := 0, 0, 0, false;
      items := [];
    }

    /** pqueue_close */
    method Close()
      requires Valid()
      modifies this
      ensures Valid() && closed && items == old(items)
    {
      closed := true;
    }

    /**
     pqueue_put, from the moment it is refused or finds room.  It tests closed only on entry: waited says
     that it found the queue open and full then, and has slept since.  So a call that slept through a
     close is appended all the same; any other call is refused exactly when the queue is closed.
     */
    method Put(item: T, waited: bool) returns (ok: bool)
      requires Valid() && ((closed && !waited) || |items| < buf.Length)
      modifies this, buf
      ensures Valid() && closed == old(closed) && ok == (waited || !closed)
      ensures items == if ok then old(items) + [item] else old(items)
    {
      if !waited && closed {
        return false;
      }
      buf[nextin] := item;
      nextin := nextin + 1;
      WrapIsMod(nextin, buf.Length);
      nextin := nextin % buf.Length;
      occupied := occupied + 1;
      items := items + [item];
      return true;
    }

    /** pqueue_get, once the queue is closed or not empty: refused exactly when it is empty, else the oldest element. */
    method Get() returns (got: bool, item: T)
      requires Valid() && (closed || items != [])
      modifies this
      ensures Valid() && closed == old(closed) && got == (old(items) != [])
      ensures got ==> item == old(items)[0] && items == old(items)[1..]
      ensures !got ==> items == old(items)
    {
      got, item := false, buf[nextout];
      if occupied > 0 {
        nextout := nextout + 1;
        WrapIsMod(nextout, buf.Length);
        nextout := nextout % buf.Length;
        occupied := occupied - 1;
        got := true;
        items := items[1..];
      }
    }
  }

  /** An index up to twice around the ring, reduced. */
  function Wrap(i: nat, n: nat): nat
    requires i < 2 * n
  {
    if i < n then i else i - n
  }

  lemma WrapIsMod(i: nat, n: nat)
    requires i < 2 * n
    ensures i % n == Wrap(i, n)
  {
    Arith.DivModUnique(i, n, if i < n then 0 else 1, Wrap(i, n));
  }
}
