/**
 SendBlock of apps/dedup/encoder.c, lines 790-1046: items reach the sender in any order and leave it
 by anchor and chunk number, as far as the counts it reads allow.  What write_file emits for an item
 is the subject of DedupCache.
 */
module DedupSender {
  import opened ReorderBuffer
  import opened SendOrder
  import opened SendLoop

  datatype Arrival<T> = Arrival(key: Key, value: T)

  ghost function Values<T>(all: map<Key, T>, keys: seq<Key>): (r: seq<T>)
    requires forall i :: 0 <= i < |keys| ==> keys[i] in all
    ensures |r| == |keys|
  {
    seq(|keys|, i requires 0 <= i < |keys| => all[keys[i]])
  }

  // ---------------------------------------------------------------------
  // The code and the loop it stands for
  // ---------------------------------------------------------------------

  /** The counters, the tree and the output stand for the state s. */
  ghost predicate Stands<T>(all: map<Key, T>, s: Sender, items: map<Key, T>, next: Key, out: seq<T>)
  {
    && s.next == next && items.Keys == s.waiting
    && (forall k :: k in items ==> k in all && items[k] == all[k])
    && (forall i :: 0 <= i < |s.out| ==> s.out[i] in all)
    && out == Values(all, s.out)
  }

  lemma FirstIsReady<T>(all: map<Key, T>, s: Sender, items: map<Key, T>, next: Key, out: seq<T>, r: Next<T>)
    requires Stands(all, s, items, next, out) && IsFirst(items, r)
    ensures Ready(s) <==> r != Empty && next == (r.aid, r.cid)
    ensures Ready(s) ==> next in items && items[next] == r.value
  {
    if Ready(s) {
      assert (r.aid, r.cid) in s.waiting;
    }
  }

  /** Writing the next item, from the tree or straight off the queue. */
  lemma StandsWrite<T>(all: map<Key, T>, s: Sender, items: map<Key, T>, next: Key, out: seq<T>, read: Key -> nat)
    requires Stands(all, s, items, next, out) && next in items
    ensures Stands(all, Write(s, read), items - {next}, Write(s, read).next, out + [items[next]])
  {
    assert Values(all, s.out + [next]) == Values(all, s.out) + [all[next]];
  }

  lemma ReleaseNext(s: Sender, read: Key -> nat)
    ensures Ready(s) ==> Release(s, read) == Release(Write(s, read), read)
    ensures !Ready(s) ==> Release(s, read) == s
  {
  }

  /** Lines 883-944: write the waiting items that are next; read is what chunks_per_anchor holds at each write. */
  method WriteReady<T(==,!new)>(read: Key -> nat, buffer: Buffer<T>, anchor: nat, reassemble: nat, sofar: seq<T>,
                                ghost all: map<Key, T>, ghost s: Sender)
    returns (anchor': nat, reassemble': nat, out: seq<T>)
    requires buffer.Valid() && Stands(all, s, buffer.view.items, (anchor, reassemble), sofar)
    modifies buffer, buffer.view.repr
    ensures buffer.Valid() && buffer.view.repr == old(buffer.view.repr)
    ensures Stands(all, Release(s, read), buffer.view.items, (anchor', reassemble'), out)
  {
    hide Stands, Buffer.Valid, IsFirst, Ready, Release;
    anchor', reassemble', out := anchor, reassemble, sofar;
    ghost var t := s;
    var r := buffer.Peek();
    FirstIsReady(all, t, buffer.view.items, (anchor', reassemble'), out, r);
    while r != Empty && r.cid == reassemble' && r.aid == anchor'
      invariant buffer.Valid() && buffer.view.repr == old(buffer.view.repr)
      invariant Stands(all, t, buffer.view.items, (anchor', reassemble'), out) && IsFirst(buffer.view.items, r)
      invariant Release(t, read) == Release(s, read)
      invariant Ready(t) <==> r != Empty && (anchor', reassemble') == (r.aid, r.cid)
      decreases |buffer.view.items|
    {
      ghost var next: Key := (anchor', reassemble');
      FirstIsReady(all, t, buffer.view.items, next, out, r);
      StandsWrite(all, t, buffer.view.items, next, out, read);
      ReleaseNext(t, read);
      NextAfter(all, t, buffer.view.items, next, out, read);
      out := out + [r.value];
      buffer.Pop(r);
      if reassemble' + 1 == read((anchor', reassemble')) {
        anchor', reassemble' := anchor' + 1, 0;
      } else {
        reassemble' := reassemble' + 1;
      }
      t := Write(t, read);
      r := buffer.Peek();
      FirstIsReady(all, t, buffer.view.items, (anchor', reassemble'), out, r);
    }
    ReleaseNext(t, read);
  }

  lemma NextAfter<T>(all: map<Key, T>, s: Sender, items: map<Key, T>, next: Key, out: seq<T>, read: Key -> nat)
    requires Stands(all, s, items, next, out)
    ensures Write(s, read).next == if next.1 + 1 == read(next) then (next.0 + 1, 0) else (next.0, next.1 + 1)
  {
  }

  /** One item off the queue: write it and what it releases, or let it wait. */
  method Receive<T(==,!new)>(read: Key -> nat, buffer: Buffer<T>, item: Arrival<T>, anchor: nat, reassemble: nat,
                             sofar: seq<T>, ghost all: map<Key, T>, ghost s: Sender)
    returns (anchor': nat, reassemble': nat, out: seq<T>)
    requires buffer.Valid() && Stands(all, s, buffer.view.items, (anchor, reassemble), sofar)
    requires item.key in all && all[item.key] == item.value && item.key !in buffer.view.items
    modifies buffer, buffer.view.repr
    ensures buffer.Valid() && fresh(buffer.view.repr - old(buffer.view.repr))
    ensures Stands(all, Take(s, item.key, read), buffer.view.items, (anchor', reassemble'), out)
  {
    hide Stands, Buffer.Valid, Write, Release, Take, Arrive;
    ghost var next: Key := (anchor, reassemble);
    ghost var items := buffer.view.items;
    TakeIs(all, s, items, next, sofar, item.key, read);
    if item.key.1 == reassemble && item.key.0 == anchor {
      StandsDirect(all, s, items, next, sofar, read);
      out := sofar + [item.value];
      anchor', reassemble' := anchor, reassemble + 1;
      if reassemble' == read((anchor, reassemble)) {
        anchor', reassemble' := anchor' + 1, 0;
      }
      anchor', reassemble', out :=
        WriteReady(read, buffer, anchor', reassemble', out, all, Write(Arrive(s, next), read));
    } else {
      buffer.Put(item.key.0, item.key.1, item.value);
      anchor', reassemble', out := anchor, reassemble, sofar;
    }
  }

  lemma TakeIs<T>(all: map<Key, T>, s: Sender, items: map<Key, T>, next: Key, out: seq<T>, k: Key, read: Key -> nat)
    requires Stands(all, s, items, next, out) && k in all
    ensures k == next ==> Take(s, k, read) == Release(Write(Arrive(s, k), read), read)
    ensures k != next ==> Stands(all, Take(s, k, read), items[k := all[k]], next, out)
  {
  }

  lemma StandsDirect<T>(all: map<Key, T>, s: Sender, items: map<Key, T>, next: Key, out: seq<T>, read: Key -> nat)
    requires Stands(all, s, items, next, out) && next in all && next !in items
    ensures var t := Write(Arrive(s, next), read);
      && Stands(all, t, items, t.next, out + [all[next]])
      && t.next == if next.1 + 1 == read(next) then (next.0 + 1, 0) else (next.0, next.1 + 1)
  {
    StandsWrite(all, Arrive(s, next), items[next := all[next]], next, out, read);
    assert items[next := all[next]] - {next} == items;
  }

  /** out are the values of some of the items, by increasing keys; left are the others, all later. */
  ghost predicate Drained<T>(items: map<Key, T>, left: map<Key, T>, keys: seq<Key>, out: seq<T>)
  {
    && |keys| == |out|
    && (forall i :: 0 <= i < |keys| ==> keys[i] in items && keys[i] !in left && out[i] == items[keys[i]])
    && (forall i, j :: 0 <= i < j < |keys| ==> Before(keys[i], keys[j]))
    && (forall k :: k in items ==> k in left || k in keys)
    && (forall k :: k in left ==> k in items && left[k] == items[k])
    && (forall i, k :: 0 <= i < |keys| && k in left ==> Before(keys[i], k))
  }

  lemma DrainNext<T>(items: map<Key, T>, left: map<Key, T>, keys: seq<Key>, out: seq<T>, r: Next<T>)
    requires Drained(items, left, keys, out) && r != Empty && IsFirst(left, r)
    ensures Drained(items, left - {(r.aid, r.cid)}, keys + [(r.aid, r.cid)], out + [r.value])
  {
  }

  /** Lines 996-1045: write what is still waiting, in output order. */
  method Flush<T(==,!new)>(buffer: Buffer<T>) returns (out: seq<T>, ghost keys: seq<Key>)
    requires buffer.Valid()
    modifies buffer, buffer.view.repr
    ensures buffer.Valid() && buffer.view.items == map[]
    ensures Drained(old(buffer.view.items), map[], keys, out)
  {
    hide Buffer.Valid, Drained;
    out, keys := [], [];
    var r := buffer.Peek();
    NothingDrained(buffer.view.items);
    while r != Empty
      invariant buffer.Valid() && buffer.view.repr == old(buffer.view.repr)
      invariant IsFirst(buffer.view.items, r)
      invariant Drained(old(buffer.view.items), buffer.view.items, keys, out)
      decreases |buffer.view.items|
    {
      DrainNext(old(buffer.view.items), buffer.view.items, keys, out, r);
      out, keys := out + [r.value], keys + [(r.aid, r.cid)];
      buffer.Pop(r);
      r := buffer.Peek();
    }
  }

  lemma NothingDrained<T>(items: map<Key, T>)
    ensures Drained(items, items, [], [])
  {
  }

  // ---------------------------------------------------------------------
  // The sender
  // ---------------------------------------------------------------------

  ghost function KeysIn<T>(arrivals: seq<Arrival<T>>): (r: seq<Key>)
    ensures |r| == |arrivals| && forall i :: 0 <= i < |r| ==> r[i] == arrivals[i].key
  {
    seq(|arrivals|, i requires 0 <= i < |arrivals| => arrivals[i].key)
  }

  /** Every chunk of every anchor arrives exactly once, with its value. */
  ghost predicate Complete<T>(counts: seq<nat>, arrivals: seq<Arrival<T>>, all: map<Key, T>)
  {
    && AllArrive(counts, KeysIn(arrivals))
    && (forall k :: k in all <==> IsKey(counts, k))
    && (forall p :: 0 <= p < |arrivals| ==> arrivals[p].key in all && all[arrivals[p].key] == arrivals[p].value)
  }

  lemma {:induction false} WaitingArrived(ks: seq<Key>, read: Key -> nat, n: nat, k: Key)
    requires n <= |ks| && k in Loop(ks, read, n).waiting
    ensures k in ks[..n]
  {
    if n > 0 {
      var s, x := Loop(ks, read, n - 1), ks[n - 1];
      assert x == ks[..n][n - 1];
      if k != x {
        ReleaseShrinks(Write(Arrive(s, x), read), read, k);
        WaitingArrived(ks, read, n - 1, k);
        var i :| 0 <= i < n - 1 && ks[..n - 1][i] == k;
        assert ks[..n][i] == k;
      }
    }
  }

  lemma {:induction false} ReleaseShrinks(s: Sender, read: Key -> nat, k: Key)
    ensures k in Release(s, read).waiting ==> k in s.waiting
    decreases |s.waiting|
  {
    if Ready(s) {
      ReleaseShrinks(Write(s, read), read, k);
    }
  }

  lemma StandsAtStart<T>(all: map<Key, T>, items: map<Key, T>)
    requires items == map[]
    ensures Stands(all, Sender((0, 0), {}, []), items, (0, 0), [])
  {
  }

  lemma LoopStarts(ks: seq<Key>, read: Key -> nat)
    ensures Loop(ks, read, 0) == Sender((0, 0), {}, [])
  {
  }

  lemma LoopNext(ks: seq<Key>, read: Key -> nat, p: nat)
    requires p < |ks|
    ensures Loop(ks, read, p + 1) == Take(Loop(ks, read, p), ks[p], read)
  {
  }

  lemma NotWaiting(counts: seq<nat>, ks: seq<Key>, read: Key -> nat, p: nat)
    requires p < |ks| && AllArrive(counts, ks)
    ensures ks[p] !in Loop(ks, read, p).waiting
  {
    hide Loop;
    if ks[p] in Loop(ks, read, p).waiting {
      WaitingArrived(ks, read, p, ks[p]);
    }
  }

  lemma StandsKeys<T>(all: map<Key, T>, s: Sender, items: map<Key, T>, next: Key, out: seq<T>)
    requires Stands(all, s, items, next, out)
    ensures items.Keys == s.waiting
  {
  }

  /** What the flush writes are the waiting items, by increasing keys. */
  lemma Flushed<T>(all: map<Key, T>, s: Sender, items: map<Key, T>, next: Key, out: seq<T>, keys: seq<Key>,
                   rest: seq<T>)
    requires Stands(all, s, items, next, out) && Drained(items, map[], keys, rest)
    ensures IsListing(s.waiting, keys)
    ensures (forall i :: 0 <= i < |s.out + keys| ==> (s.out + keys)[i] in all)
      && out + rest == Values(all, s.out + keys)
  {
    assert forall i :: 0 <= i < |keys| ==> keys[i] in all && rest[i] == all[keys[i]];
  }

  /**
   SendBlock: every item is written once, in the order of SendLoop.Loop and the flush.  Whatever counts
   it reads, that is the output order if and only if no anchor but the last was left on a count that
   still grew.
   */
  method SendBlock<T(==,!new)>(read: Key -> nat, arrivals: seq<Arrival<T>>, ghost counts: seq<nat>,
                               ghost all: map<Key, T>)
    returns (out: seq<T>, ghost keys: seq<Key>)
    requires Complete(counts, arrivals, all)
    ensures IsOutput(KeysIn(arrivals), read, keys)
    ensures (forall i :: 0 <= i < |keys| ==> keys[i] in all) && out == Values(all, keys)
    ensures LoopSees(counts, KeysIn(arrivals), read, |arrivals|) ==>
              (keys == Order(counts, |counts|) <==>
                LeavesComplete(counts, read, Loop(KeysIn(arrivals), read, |arrivals|).out))
  {
    hide Stands, Buffer.Valid, Order, LoopSees, AllArrive, LeavesComplete, Loop, Take;
    ghost var ks := KeysIn(arrivals);
    var buffer := new Buffer<T>();
    var anchor, reassemble := 0, 0;
    out := [];
    StandsAtStart(all, buffer.view.items);
    LoopStarts(ks, read);
    var p := 0;
    while p < |arrivals|
      invariant 0 <= p <= |arrivals| && fresh(buffer) && fresh(buffer.view.repr) && buffer.Valid()
      invariant Stands(all, Loop(ks, read, p), buffer.view.items, (anchor, reassemble), out)
    {
      ghost var s := Loop(ks, read, p);
      LoopNext(ks, read, p);
      NotWaiting(counts, ks, read, p);
      StandsKeys(all, s, buffer.view.items, (anchor, reassemble), out);
      anchor, reassemble, out := Receive(read, buffer, arrivals[p], anchor, reassemble, out, all, s);
      p := p + 1;
    }
    ghost var s, waiting := Loop(ks, read, |ks|), buffer.view.items;
    StandsKeys(all, s, waiting, (anchor, reassemble), out);
    var rest, flushed := Flush(buffer);
    keys := s.out + flushed;
    Flushed(all, s, waiting, (anchor, reassemble), out, flushed, rest);
    out := out + rest;
    if LoopSees(counts, ks, read, |ks|) {
      OrderedIff(counts, ks, read, flushed);
    }
  }

  /** A sender that starts after its producers (lines 1221-1225 and 1253-1261) writes the items in output order. */
  method SendPreloaded<T(==,!new)>(counts: seq<nat>, arrivals: seq<Arrival<T>>, ghost all: map<Key, T>)
    returns (out: seq<T>)
    requires Complete(counts, arrivals, all)
    ensures forall i :: 0 <= i < |Order(counts, |counts|)| ==> Order(counts, |counts|)[i] in all
    ensures out == Values(all, Order(counts, |counts|))
  {
    hide Order, LoopSees, Loop;
    LoopSeesFinal(counts, KeysIn(arrivals), |arrivals|);
    ghost var keys;
    out, keys := SendBlock(Final(counts), arrivals, counts, all);
  }
}
