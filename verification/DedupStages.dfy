/**
 The stages of apps/dedup/encoder.c on the queues of apps/dedup/queue.c: each call of enqueue, dequeue and
 queue_signal_terminate is a step of DedupPipeline on the queue that it names.
 */
module DedupStages {
  import opened RingBuffer
  import opened DedupQueue
  import opened DedupPipeline

  /** que is queue k of the group. */
  ghost predicate Holds(que: Queue<Bag>, t: nat, s: State, k: nat)
    requires Shape(t, s) && k < 4
    reads que, que.ring, que.ring.data
  {
    que.Valid() && que.ring.items == s.q[k] && que.endCount == s.ended[k] && que.threads == Threads(t, k)
  }

  /** DataProcess puts a coarse chunk on queue 0 (lines 735-749). */
  method ReadInto(que: Queue<Bag>, packet: Bag, ghost t: nat, ghost s: State) returns (ghost s': State)
    requires Shape(t, s) && s.reading && packet <= s.source && Holds(que, t, s, 0)
    requires |s.q[0]| + 1 < que.ring.data.Length
    modifies que.ring, que.ring.data
    ensures Step(t, s, s', Read(packet)) && Shape(t, s') && Holds(que, t, s', 0)
  {
    hide Ring.Valid, Total;
    que.Enqueue([packet]);
    assert Reversed([packet]) == [packet];
    s' := s.(source := s.source - packet, q := s.q[0 := s.q[0] + [packet]]);
  }

  /** Thread i of a pool asks its queue: it gets the oldest items, or is refused. */
  method FetchFrom(que: Queue<Bag>, ghost t: nat, ghost s: State, ghost p: nat, ghost i: nat)
    returns (ok: bool, fetched: seq<Bag>, ghost s': State)
    requires Shape(t, s) && p < 3 && i < t && s.pools[p][i].mode == Running && Holds(que, t, s, p)
    requires s.q[p] != [] || s.ended[p] == Threads(t, p)
    modifies que.ring
    ensures Step(t, s, s', if ok then Fetch(p, i, |fetched|) else Refused(p, i)) && Shape(t, s') && Holds(que, t, s', p)
    ensures ok ==> s.q[p] == fetched + s'.q[p]
  {
    hide Ring.Valid, Total;
    ok, fetched := que.Dequeue();
    ghost var w := s.pools[p][i];
    if ok {
      assert s.q[p][..|fetched|] == fetched && s.q[p][|fetched|..] == que.ring.items;
      s' := SetWorker(s, p, i, w.(hold := w.hold + Total(fetched))).(q := s.q[p := que.ring.items]);
    } else {
      s' := SetWorker(s, p, i, w.(mode := Draining));
    }
  }

  /** Thread i of a pool puts a batch on a queue that it feeds. */
  method EmitTo(que: Queue<Bag>, batch: seq<Bag>, ghost t: nat, ghost s: State, ghost p: nat, ghost i: nat,
                ghost to: nat)
    returns (ghost s': State)
    requires Shape(t, s) && p < 3 && i < t && Feeds(p, to) && s.pools[p][i].mode != Done && Holds(que, t, s, to)
    requires Total(batch) <= s.pools[p][i].hold && |s.q[to]| + |batch| < que.ring.data.Length
    modifies que.ring, que.ring.data
    ensures Step(t, s, s', Emit(p, i, to, Reversed(batch))) && Shape(t, s') && Holds(que, t, s', to)
    ensures s'.pools[p][i].hold == s.pools[p][i].hold - Total(batch)
  {
    hide Ring.Valid, Total;
    TotalReversed(batch);
    que.Enqueue(batch);
    ghost var w := s.pools[p][i];
    s' := SetWorker(s, p, i, w.(hold := w.hold - Total(batch))).(q := s.q[to := s.q[to] + Reversed(batch)]);
  }

  lemma {:induction false} TotalReversed(batch: seq<Bag>)
    ensures Total(Reversed(batch)) == Total(batch)
    decreases |batch|
  {
    if batch == [] {
      assert Reversed(batch) == [];
    } else {
      var last, rest := batch[|batch| - 1], batch[..|batch| - 1];
      assert Reversed(batch) == [last] + Reversed(rest);
      TotalReversed(rest);
      TotalAdds([last], Reversed(rest));
      TotalOne(last);
    }
  }

  /** A thread that was refused and has nothing left signals the next queue (lines 203, 368 and 497). */
  method EndOf(que: Queue<Bag>, ghost t: nat, ghost s: State, ghost p: nat, ghost i: nat) returns (ghost s': State)
    requires Shape(t, s) && p < 3 && i < t && Holds(que, t, s, p + 1)
    requires s.pools[p][i].mode == Draining && s.pools[p][i].hold == multiset{}
    modifies que
    ensures Step(t, s, s', End(p, i)) && Shape(t, s') && Holds(que, t, s', p + 1)
  {
    hide Ring.Valid, Total;
    que.SignalTerminate();
    s' := SetWorker(s, p, i, Worker(Done, multiset{})).(ended := s.ended[p + 1 := s.ended[p + 1] + 1]);
  }

  /** DataProcess signals queue 0 at the end of the input (lines 752-755). */
  method EndReading(que: Queue<Bag>, ghost t: nat, ghost s: State) returns (ghost s': State)
    requires Shape(t, s) && Holds(que, t, s, 0) && s.reading && s.source == multiset{}
    modifies que
    ensures Step(t, s, s', EndRead) && Shape(t, s') && Holds(que, t, s', 0)
  {
    hide Ring.Valid, Total;
    que.SignalTerminate();
    s' := s.(reading := false, ended := s.ended[0 := s.ended[0] + 1]);
  }

  /** The sender asks the send queue (line 817): a batch is a send step, a refusal means the queue is closed. */
  method SendFrom(que: Queue<Bag>, ghost t: nat, ghost s: State)
    returns (ok: bool, fetched: seq<Bag>, ghost s': State)
    requires Shape(t, s) && Holds(que, t, s, 3) && (s.q[3] != [] || s.ended[3] == Threads(t, 3))
    modifies que.ring
    ensures ok ==> Step(t, s, s', Send(|fetched|)) && s.q[3] == fetched + s'.q[3]
    ensures !ok ==> s' == s && Closed(t, s, 3)
    ensures Shape(t, s') && Holds(que, t, s', 3)
  {
    hide Ring.Valid, Total;
    ok, fetched := que.Dequeue();
    s' := s;
    if ok {
      assert s.q[3][..|fetched|] == fetched && s.q[3][|fetched|..] == que.ring.items;
      s' := s.(q := s.q[3 := que.ring.items], got := s.got + Total(fetched));
    }
  }
}
