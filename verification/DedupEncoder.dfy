/**
 The encoder as one machine, apps/dedup/encoder.c: FindAllAnchors raises the counts while it cuts (lines 441
 and 469), the other stages work on the shared cache (lines 83-149 and 207-299), and the sender takes items from
 its queue, writes, reads a count, and goes on (lines 810-1046), all in any interleaving.  An item reaches the
 sender only after its stage has put it on the queue, and the count that the sender reads is the one that stands
 there at that moment.
 */
module DedupEncoder {
  import opened ReorderBuffer
  import opened SendOrder
  import opened DedupFormat
  import C = DedupCache
  import L = SendLoop

  /** counts: chunks_per_anchor when all is cut; xs: the chunks in the order of the data. */
  datatype Job = Job(k: Codec, xs: seq<Bytes>, counts: seq<nat>)
  {
    ghost predicate Valid() {
      && (forall a :: 0 <= a < |counts| ==> counts[a] >= 1)
      && |xs| == |Order(counts, |counts|)| && C.NoCollision(k, xs)
    }
  }

  /** The sender: at its queue, about to write the next item, having written it, or flushing what waits. */
  datatype Mode = Idle | Writing | Wrote | Flushing

  /**
   seen: chunks_per_anchor; cache: the digest cache, the stage of every chunk and the file; arrived: what the sender
   has fetched; sender: its counters and its tree; read: the count it read after each item; flushed: what it wrote
   after the loop.
   */
  datatype State = State(seen: seq<nat>, cache: C.State, arrived: set<Key>, sender: L.Sender, read: map<Key, nat>,
    flushed: seq<Key>, mode: Mode)

  datatype Action =
    | Cut(a: nat) | Look(q: Key) | Compress(q: Key)
    | Receive(q: Key) | Write | Advance | EndLoop | Flush(q: Key)

  lemma PlaceBound(counts: seq<nat>, q: Key)
    requires IsKey(counts, q)
    ensures PlaceOf(counts, q) < |Order(counts, |counts|)|
  {
    OrderGrows(counts, q.0 + 1, |counts|);
  }

  /** The chunk with key q. */
  ghost function At(j: Job, q: Key): (i: nat)
    requires j.Valid() && IsKey(j.counts, q)
    ensures i < |j.xs|
  {
    PlaceBound(j.counts, q);
    PlaceOf(j.counts, q)
  }

  ghost function ReadOf(read: map<Key, nat>): Key -> nat { q => if q in read then read[q] else 0 }

  /** q is the first of the items that wait and have not been flushed. */
  ghost predicate FirstLeft(s: State, q: Key)
  {
    && q in s.sender.waiting && q !in s.flushed
    && forall r :: r in s.sender.waiting && r !in s.flushed ==> r == q || Before(q, r)
  }

  ghost predicate AllFetched(j: Job, s: State)
  {
    forall q: Key :: IsKey(j.counts, q) ==> q in s.arrived
  }

  ghost predicate Init(j: Job, s: State)
  {
    && |s.seen| == |j.counts| && (forall a :: 0 <= a < |s.seen| ==> s.seen[a] == 0)
    && C.Init(j.xs, s.cache)
    && s == State(s.seen, s.cache, {}, L.Sender((0, 0), {}, []), map[], [], Idle)
  }

  ghost predicate Step(j: Job, s: State, s': State, a: Action)
    requires j.Valid() && |s.cache.stage| == |j.xs|
  {
    match a
    case Cut(b) => b < |s.seen| == |j.counts| && s.seen[b] < j.counts[b] && s' == s.(seen := s.seen[b := s.seen[b] + 1])
    case Look(q) =>
      && IsKey(j.counts, q) && q.0 < |s.seen| && q.1 < s.seen[q.0]
      && C.ChunkStep(j.k, j.xs, s.cache, s'.cache, At(j, q)) && s' == s.(cache := s'.cache)
    case Compress(q) =>
      && IsKey(j.counts, q)
      && C.CompressStep(j.k, j.xs, s.cache, s'.cache, At(j, q)) && s' == s.(cache := s'.cache)
    case Receive(q) =>
      && s.mode == Idle && IsKey(j.counts, q) && q !in s.arrived && s.cache.stage[At(j, q)] == C.ToSend
      && s' == s.(arrived := s.arrived + {q}, sender := L.Arrive(s.sender, q),
                  mode := if q == s.sender.next then Writing else Idle)
    case Write =>
      && s.mode == Writing && IsKey(j.counts, s.sender.next)
      && C.SendStep(j.k, j.xs, s.cache, s'.cache, At(j, s.sender.next)) && s' == s.(cache := s'.cache, mode := Wrote)
    case Advance =>
      && s.mode == Wrote && s.sender.next.0 < |s.seen|
      && var read := s.read[s.sender.next := s.seen[s.sender.next.0]];
         var t := L.Write(s.sender, ReadOf(read));
         s' == s.(read := read, sender := t, mode := if L.Ready(t) then Writing else Idle)
    case EndLoop => s.mode == Idle && AllFetched(j, s) && s' == s.(mode := Flushing)
    case Flush(q) =>
      && s.mode == Flushing && IsKey(j.counts, q) && FirstLeft(s, q)
      && C.SendStep(j.k, j.xs, s.cache, s'.cache, At(j, q))
      && s' == s.(cache := s'.cache, flushed := s.flushed + [q])
  }

  ghost predicate IsRun(j: Job, tr: seq<State>, acts: seq<Action>)
    requires j.Valid()
    decreases |tr|
  {
    && |tr| == |acts| + 1
    && if |acts| == 0 then Init(j, tr[0])
       else
         && IsRun(j, tr[..|tr| - 1], acts[..|acts| - 1])
         && |tr[|tr| - 2].cache.stage| == |j.xs|
         && Step(j, tr[|tr| - 2], tr[|tr| - 1], acts[|acts| - 1])
  }

  ghost predicate Finished(s: State)
  {
    s.mode == Flushing && forall q :: q in s.sender.waiting ==> q in s.flushed
  }

  // ---------------------------------------------------------------------
  // The invariant
  // ---------------------------------------------------------------------

  /** Counts stay below the final ones, and a chunk that a stage has seen is counted. */
  ghost predicate CountsOk(j: Job, s: State)
    requires j.Valid() && |s.cache.stage| == |j.xs|
  {
    && |s.seen| == |j.counts| && (forall a :: 0 <= a < |s.seen| ==> s.seen[a] <= j.counts[a])
    && forall q: Key :: IsKey(j.counts, q) && s.cache.stage[At(j, q)] != C.Found ==> q.1 < s.seen[q.0]
  }

  /** What the sender has fetched was put on its queue. */
  ghost predicate ArrivedOk(j: Job, s: State)
    requires j.Valid() && |s.cache.stage| == |j.xs|
  {
    forall q :: q in s.arrived ==> IsKey(j.counts, q) && s.cache.stage[At(j, q)] in {C.ToSend, C.Sent}
  }

  /** What has been written, in the order of writing. */
  ghost function Done(s: State): seq<Key>
  {
    s.sender.out + (if s.mode == Wrote then [s.sender.next] else []) + s.flushed
  }

  ghost predicate OrderOk(j: Job, s: State)
  {
    L.ArePlaces(j.counts, Done(s), s.cache.order)
  }

  /** The next item is there: everything is in order so far, or an item has been passed over. */
  ghost predicate Pending(counts: seq<nat>, arrived: set<Key>, t: L.Sender, read: Key -> nat)
  {
    && L.Whole(arrived, t) && t.next in t.waiting
    && if L.LeavesComplete(counts, read, t.out) then L.InOrder(counts, arrived, t)
       else exists q: Key :: L.Passed(counts, t, q)
  }

  ghost predicate FlushOk(s: State)
  {
    && Increasing(s.flushed) && (forall q :: q in s.flushed ==> q in s.sender.waiting)
    && forall f, q :: f in s.flushed && q in s.sender.waiting && q !in s.flushed ==> Before(f, q)
  }

  ghost predicate SenderOk(j: Job, s: State)
  {
    && (forall q :: q in s.sender.out ==> q in s.read)
    && (s.mode != Flushing ==> s.flushed == [])
    && match s.mode
       case Idle => L.Inv(j.counts, s.arrived, s.sender, ReadOf(s.read)) && !L.Ready(s.sender)
       case Writing => Pending(j.counts, s.arrived, s.sender, ReadOf(s.read))
       case Wrote => Pending(j.counts, s.arrived, s.sender, ReadOf(s.read))
       case Flushing =>
         && L.Inv(j.counts, s.arrived, s.sender, ReadOf(s.read)) && !L.Ready(s.sender)
         && AllFetched(j, s) && FlushOk(s)
  }

  ghost predicate Inv(j: Job, s: State)
    requires j.Valid()
  {
    && |s.cache.stage| == |j.xs| && C.Inv(j.k, j.xs, s.cache)
    && CountsOk(j, s) && ArrivedOk(j, s) && OrderOk(j, s) && SenderOk(j, s)
  }

  lemma InitHolds(j: Job, s: State)
    requires j.Valid() && Init(j, s)
    ensures Inv(j, s)
  {
    hide C.Inv, L.Inv, At;
    C.InitHolds(j.k, j.xs, s.cache);
    L.InvAtStart(j.counts, ReadOf(s.read));
  }

  // ---------------------------------------------------------------------
  // The stages before the sender
  // ---------------------------------------------------------------------

  lemma CutKeeps(j: Job, s: State, s': State, b: nat)
    requires j.Valid() && Inv(j, s) && Step(j, s, s', Cut(b))
    ensures Inv(j, s')
  {
    hide C.Inv, SenderOk, L.ArePlaces, ArrivedOk, At;
    SameSender(j, s, s');
    SameArrived(j, s, s');
  }

  lemma SameSender(j: Job, s: State, s': State)
    requires SenderOk(j, s) && s'.arrived == s.arrived && s'.sender == s.sender && s'.read == s.read
    requires s'.flushed == s.flushed && s'.mode == s.mode
    ensures SenderOk(j, s')
  {
    hide L.Inv, L.Ready, Pending;
  }

  lemma SameArrived(j: Job, s: State, s': State)
    requires j.Valid() && |s.cache.stage| == |j.xs| && s'.cache == s.cache && s'.arrived == s.arrived && ArrivedOk(j, s)
    ensures ArrivedOk(j, s')
  {
  }

  /** Chunk i goes to another stage, after Found. */
  ghost predicate StageMoves(j: Job, s: State, s': State, i: nat)
  {
    && |s.cache.stage| == |s'.cache.stage| == |j.xs| && i < |j.xs|
    && s'.cache.stage == s.cache.stage[i := s'.cache.stage[i]] && s'.cache.stage[i] != C.Found
    && (s.cache.stage[i] == C.ToSend ==> s'.cache.stage[i] == C.Sent) && s.cache.stage[i] != C.Sent
  }

  lemma ChunkMoves(j: Job, s: State, s': State, i: nat)
    requires |s.cache.stage| == |j.xs| && C.ChunkStep(j.k, j.xs, s.cache, s'.cache, i)
    ensures StageMoves(j, s, s', i) && s'.cache.order == s.cache.order
  {
  }

  lemma CompressMoves(j: Job, s: State, s': State, i: nat)
    requires |s.cache.stage| == |j.xs| && C.CompressStep(j.k, j.xs, s.cache, s'.cache, i)
    ensures StageMoves(j, s, s', i) && s.cache.stage[i] != C.Found && s'.cache.order == s.cache.order
  {
  }

  lemma SendMoves(j: Job, s: State, s': State, i: nat)
    requires |s.cache.stage| == |j.xs| && C.SendStep(j.k, j.xs, s.cache, s'.cache, i)
    ensures StageMoves(j, s, s', i) && s.cache.stage[i] != C.Found && s'.cache.order == s.cache.order + [i]
  {
  }

  lemma ByPlace(j: Job, q: Key, r: Key)
    requires j.Valid() && IsKey(j.counts, q) && IsKey(j.counts, r) && At(j, q) == At(j, r)
    ensures q == r
  {
    if Before(q, r) { PlacesIncrease(j.counts, q, r); }
    if Before(r, q) { PlacesIncrease(j.counts, r, q); }
  }

  lemma StagesKept(j: Job, s: State, s': State, q: Key)
    requires j.Valid() && IsKey(j.counts, q) && StageMoves(j, s, s', At(j, q))
    requires CountsOk(j, s) && ArrivedOk(j, s) && s'.seen == s.seen && s'.arrived == s.arrived
    requires q.1 < s.seen[q.0]
    ensures CountsOk(j, s') && ArrivedOk(j, s')
  {
    hide At;
    forall r: Key | IsKey(j.counts, r) && s'.cache.stage[At(j, r)] != C.Found ensures r.1 < s'.seen[r.0] {
      if At(j, r) == At(j, q) { ByPlace(j, q, r); }
    }
  }

  lemma LookKeeps(j: Job, s: State, s': State, q: Key)
    requires j.Valid() && Inv(j, s) && Step(j, s, s', Look(q))
    ensures Inv(j, s')
  {
    hide C.Inv, C.ChunkStep, SenderOk, L.ArePlaces, ArrivedOk, CountsOk, At, IsKey, StageMoves;
    C.StepKeeps(j.k, j.xs, s.cache, s'.cache, C.Chunk(At(j, q)));
    ChunkMoves(j, s, s', At(j, q));
    StagesKept(j, s, s', q);
    SameSender(j, s, s');
  }

  lemma CompressKeeps(j: Job, s: State, s': State, q: Key)
    requires j.Valid() && Inv(j, s) && Step(j, s, s', Compress(q))
    ensures Inv(j, s')
  {
    hide C.Inv, C.CompressStep, SenderOk, L.ArePlaces, ArrivedOk, CountsOk, At, IsKey, StageMoves;
    C.StepKeeps(j.k, j.xs, s.cache, s'.cache, C.Compress(At(j, q)));
    CompressMoves(j, s, s', At(j, q));
    Counted(j, s, q);
    StagesKept(j, s, s', q);
    SameSender(j, s, s');
  }

  lemma Counted(j: Job, s: State, q: Key)
    requires j.Valid() && |s.cache.stage| == |j.xs| && CountsOk(j, s) && IsKey(j.counts, q)
    requires s.cache.stage[At(j, q)] != C.Found
    ensures q.0 < |s.seen| && q.1 < s.seen[q.0] <= j.counts[q.0]
  {
  }

  // ---------------------------------------------------------------------
  // The sender
  // ---------------------------------------------------------------------

  lemma ReceiveKeeps(j: Job, s: State, s': State, q: Key)
    requires j.Valid() && Inv(j, s) && Step(j, s, s', Receive(q))
    ensures Inv(j, s')
  {
    hide C.Inv, L.Inv, L.Whole, L.LeavesComplete, L.InOrder, L.Passed, L.ArePlaces, CountsOk, At, L.Ready;
    L.ArriveKeeps(j.counts, s.arrived, s.sender, ReadOf(s.read), q);
    SameCounts(j, s, s');
    if q != s.sender.next { StillNotReady(s.sender, q); }
  }

  lemma SameCounts(j: Job, s: State, s': State)
    requires j.Valid() && |s.cache.stage| == |j.xs| && s'.cache == s.cache && s'.seen == s.seen && CountsOk(j, s)
    ensures CountsOk(j, s')
  {
  }

  lemma StillNotReady(t: L.Sender, q: Key)
    requires !L.Ready(t) && q != t.next
    ensures !L.Ready(L.Arrive(t, q))
  {
    if t.next in t.waiting {
      var k :| k in t.waiting && k != t.next && !Before(t.next, k);
      assert k in L.Arrive(t, q).waiting;
    }
  }

  /** Sending chunk q, which is counted, appends it to what has been written. */
  lemma SendKeeps(j: Job, s: State, s': State, q: Key)
    requires j.Valid() && |s.cache.stage| == |j.xs| && C.Inv(j.k, j.xs, s.cache) && IsKey(j.counts, q)
    requires C.SendStep(j.k, j.xs, s.cache, s'.cache, At(j, q)) && s'.seen == s.seen && s'.arrived == s.arrived
    requires CountsOk(j, s) && ArrivedOk(j, s) && OrderOk(j, s) && Done(s') == Done(s) + [q]
    ensures |s'.cache.stage| == |j.xs| && C.Inv(j.k, j.xs, s'.cache)
    ensures CountsOk(j, s') && ArrivedOk(j, s') && OrderOk(j, s')
  {
    hide C.Inv, C.SendStep, ArrivedOk, CountsOk, OrderOk, At, IsKey, Done, StageMoves;
    C.StepKeeps(j.k, j.xs, s.cache, s'.cache, C.Send(At(j, q)));
    SendMoves(j, s, s', At(j, q));
    Counted(j, s, q);
    StagesKept(j, s, s', q);
    OrderNext(j, s, s', q);
  }

  lemma OrderNext(j: Job, s: State, s': State, q: Key)
    requires j.Valid() && IsKey(j.counts, q) && OrderOk(j, s) && Done(s') == Done(s) + [q]
    requires s'.cache.order == s.cache.order + [At(j, q)]
    ensures OrderOk(j, s')
  {
    hide Done, PlaceOf, IsKey;
  }

  lemma WriteKeeps(j: Job, s: State, s': State)
    requires j.Valid() && Inv(j, s) && Step(j, s, s', Write)
    ensures Inv(j, s')
  {
    hide C.Inv, C.SendStep, CountsOk, ArrivedOk, OrderOk, At, Pending;
    assert Done(s') == Done(s) + [s.sender.next];
    SendKeeps(j, s, s', s.sender.next);
  }

  /** The count that the sender reads is one that the chunker has left there. */
  lemma SeesCount(j: Job, s: State)
    requires j.Valid() && |s.cache.stage| == |j.xs| && CountsOk(j, s) && ArrivedOk(j, s)
    requires s.sender.next in s.arrived
    ensures s.sender.next.0 < |s.seen| == |j.counts|
    ensures L.Sees(j.counts, s.arrived, s.sender.next, s.seen[s.sender.next.0])
  {
    hide At;
    forall q | q in s.arrived && q.0 == s.sender.next.0 ensures q.1 < s.seen[s.sender.next.0] {
      Counted(j, s, q);
    }
  }

  lemma ReadGrows(counts: seq<nat>, read: map<Key, nat>, q: Key, v: nat, out: seq<Key>)
    requires q !in out && forall r :: r in out ==> r in read
    ensures L.LeavesComplete(counts, ReadOf(read[q := v]), out) <==> L.LeavesComplete(counts, ReadOf(read), out)
  {
    forall r | r in out ensures ReadOf(read[q := v])(r) == ReadOf(read)(r) {
    }
  }

  lemma PendingFacts(counts: seq<nat>, arrived: set<Key>, t: L.Sender, read: Key -> nat)
    requires Pending(counts, arrived, t, read)
    ensures L.Whole(arrived, t) && t.next in t.waiting && t.next in arrived && t.next !in t.out
  {
    hide L.LeavesComplete, L.InOrder, L.Passed;
  }

  lemma AdvancesTo(j: Job, s: State, read: map<Key, nat>)
    requires j.Valid() && Inv(j, s) && s.mode == Wrote && s.sender.next.0 < |s.seen|
    requires read == s.read[s.sender.next := s.seen[s.sender.next.0]]
    ensures L.Inv(j.counts, s.arrived, L.Write(s.sender, ReadOf(read)), ReadOf(read))
  {
    hide C.Inv, OrderOk, L.Whole, L.LeavesComplete, L.InOrder, L.Passed, L.Inv, L.Write, L.Sees, At;
    PendingFacts(j.counts, s.arrived, s.sender, ReadOf(s.read));
    SeesCount(j, s);
    ReadGrows(j.counts, s.read, s.sender.next, s.seen[s.sender.next.0], s.sender.out);
    assert forall q :: q in s.arrived ==> IsKey(j.counts, q);
    L.WriteKeeps(j.counts, s.arrived, s.sender, ReadOf(read));
  }

  lemma ReadyPends(counts: seq<nat>, arrived: set<Key>, t: L.Sender, read: Key -> nat)
    requires L.Inv(counts, arrived, t, read) && L.Ready(t)
    ensures Pending(counts, arrived, t, read)
  {
    hide L.Whole, L.LeavesComplete, L.InOrder, L.Passed;
    if !L.LeavesComplete(counts, read, t.out) {
      var q: Key :| L.OutOfOrder(counts, arrived, t, q);
      assert L.Passed(counts, t, q);
    }
  }

  lemma WriteAppends(t: L.Sender, read: Key -> nat)
    ensures L.Write(t, read).out == t.out + [t.next]
  {
  }

  lemma SameDone(s: State, s': State)
    requires s.mode == Wrote && s'.mode != Wrote && s.flushed == s'.flushed == []
    requires s'.sender.out == s.sender.out + [s.sender.next]
    ensures Done(s') == Done(s)
  {
  }

  lemma AdvanceKeeps(j: Job, s: State, s': State)
    requires j.Valid() && Inv(j, s) && Step(j, s, s', Advance)
    ensures Inv(j, s')
  {
    hide C.Inv, L.Inv, CountsOk, ArrivedOk, Pending, L.Write, L.Ready, L.ArePlaces, Done;
    AdvancesTo(j, s, s'.read);
    WriteAppends(s.sender, ReadOf(s'.read));
    SameDone(s, s');
    SameCounts(j, s, s');
    SameArrived(j, s, s');
    if L.Ready(s'.sender) { ReadyPends(j.counts, s'.arrived, s'.sender, ReadOf(s'.read)); }
  }

  lemma EndLoopKeeps(j: Job, s: State, s': State)
    requires j.Valid() && Inv(j, s) && Step(j, s, s', EndLoop)
    ensures Inv(j, s')
  {
    hide C.Inv, L.Inv, L.Ready, CountsOk, ArrivedOk, L.ArePlaces;
    SameCounts(j, s, s');
    SameArrived(j, s, s');
    assert Done(s') == Done(s);
  }

  lemma FlushKeeps(j: Job, s: State, s': State, q: Key)
    requires j.Valid() && Inv(j, s) && Step(j, s, s', Flush(q))
    ensures Inv(j, s')
  {
    hide C.Inv, C.SendStep, CountsOk, ArrivedOk, OrderOk, At, L.Inv, L.Ready;
    assert Done(s') == Done(s) + [q];
    SendKeeps(j, s, s', q);
    FlushedNext(s, s', q);
  }

  lemma FlushedNext(s: State, s': State, q: Key)
    requires FlushOk(s) && FirstLeft(s, q) && s'.flushed == s.flushed + [q] && s'.sender == s.sender
    ensures FlushOk(s')
  {
    forall r ensures r in s'.flushed <==> r in s.flushed || r == q {
      if r == q { assert s'.flushed[|s.flushed|] == q; }
      if r in s.flushed { var i :| 0 <= i < |s.flushed| && s.flushed[i] == r; assert s'.flushed[i] == r; }
    }
    forall a, b | 0 <= a < b < |s'.flushed| ensures Before(s'.flushed[a], s'.flushed[b]) {
      assert s.flushed[a] in s.flushed;
    }
  }

  lemma StepKeeps(j: Job, s: State, s': State, a: Action)
    requires j.Valid() && Inv(j, s) && Step(j, s, s', a)
    ensures Inv(j, s')
  {
    hide Inv, Step, j.Valid;
    InvShape(j, s);
    match a
    case Cut(b) => CutKeeps(j, s, s', b);
    case Look(q) => LookKeeps(j, s, s', q);
    case Compress(q) => CompressKeeps(j, s, s', q);
    case Receive(q) => ReceiveKeeps(j, s, s', q);
    case Write => WriteKeeps(j, s, s');
    case Advance => AdvanceKeeps(j, s, s');
    case EndLoop => EndLoopKeeps(j, s, s');
    case Flush(q) => FlushKeeps(j, s, s', q);
  }

  lemma InvShape(j: Job, s: State)
    requires j.Valid() && Inv(j, s)
    ensures |s.cache.stage| == |j.xs|
  {
  }

  lemma {:induction false} RunKeeps(j: Job, tr: seq<State>, acts: seq<Action>)
    requires j.Valid() && IsRun(j, tr, acts)
    ensures Inv(j, tr[|tr| - 1])
    decreases |tr|
  {
    hide Inv, Step, j.Valid, Init;
    if |acts| == 0 {
      InitHolds(j, tr[0]);
    } else {
      RunKeeps(j, tr[..|tr| - 1], acts[..|acts| - 1]);
      StepKeeps(j, tr[|tr| - 2], tr[|tr| - 1], acts[|acts| - 1]);
    }
  }

  // ---------------------------------------------------------------------
  // Finished runs
  // ---------------------------------------------------------------------

  /** No anchor but the last was left on a count that still grew. */
  ghost predicate NoneLeftEarly(j: Job, s: State)
  {
    L.LeavesComplete(j.counts, ReadOf(s.read), s.sender.out)
  }

  lemma FinishedOut(j: Job, s: State)
    requires j.Valid() && Inv(j, s) && Finished(s)
    ensures Done(s) == Order(j.counts, |j.counts|) <==> NoneLeftEarly(j, s)
    ensures forall q :: q in Done(s) <==> IsKey(j.counts, q)
    ensures forall a, b :: 0 <= a < b < |Done(s)| ==> Done(s)[a] != Done(s)[b]
  {
    hide C.Inv, CountsOk, OrderOk, L.Whole, L.OutUpto, L.OutOfOrder, Order, L.Ready, L.LeavesComplete, At;
    var t, rest := s.sender, s.flushed;
    assert L.IsListing(t.waiting, rest);
    assert forall q :: q in s.arrived <==> IsKey(j.counts, q);
    assert Done(s) == t.out + rest;
    EachOnce(s.arrived, t, rest);
    if L.LeavesComplete(j.counts, ReadOf(s.read), t.out) {
      var m: Key :| L.OutUpto(j.counts, s.arrived, t, m);
      L.EndsInOrder(j.counts, s.arrived, t, rest, m);
    } else {
      var q: Key :| L.OutOfOrder(j.counts, s.arrived, t, q);
      L.EndsOutOfOrder(j.counts, s.arrived, t, rest, q);
    }
  }

  lemma EachOnce(arrived: set<Key>, t: L.Sender, rest: seq<Key>)
    requires L.Whole(arrived, t) && L.IsListing(t.waiting, rest)
    ensures forall q :: q in t.out + rest <==> q in arrived
    ensures forall a, b :: 0 <= a < b < |t.out + rest| ==> (t.out + rest)[a] != (t.out + rest)[b]
  {
    L.OnceEach(t.out, rest);
  }

  /**
   In every finished run, whatever the interleaving of chunkers, stages and sender: every chunk was sent once, no
   lookup failed, the file is the archive of the chunks in the order they were sent, and this is the order of the
   data if and only if no anchor but the last was left on a count that still grew.
   */
  lemma EveryRunSends(j: Job, s: State, tr: seq<State>, acts: seq<Action>)
    requires j.Valid() && IsRun(j, tr, acts) && s == tr[|tr| - 1] && Finished(s)
    ensures |s.cache.order| == |j.xs| && s.cache.errors == 0
    ensures forall p :: 0 <= p < |j.xs| ==> s.cache.order[p] < |j.xs|
    ensures forall p, q :: 0 <= p < q < |j.xs| ==> s.cache.order[p] != s.cache.order[q]
    ensures s.cache.file == Archive(j.k, C.SentChunks(j.xs, s.cache.order))
    ensures s.cache.order == seq(|j.xs|, i => i) <==> NoneLeftEarly(j, s)
  {
    RunKeeps(j, tr, acts);
    FinishedOut(j, s);
    hide IsRun, CountsOk, ArrivedOk, SenderOk, Order, Archive, NoneLeftEarly, Done;
    L.SameLength(j.counts, Done(s));
    L.ByPlaceIff(j.counts, Done(s), s.cache.order);
  }

  // ---------------------------------------------------------------------
  // A sender that starts after its producers
  // ---------------------------------------------------------------------

  /** Every count was read when all chunks had been cut, as in the preloading mode (lines 1220-1225). */
  ghost predicate ReadsFinal(j: Job, tr: seq<State>, acts: seq<Action>)
  {
    |tr| == |acts| + 1 && forall p :: 0 <= p < |acts| && acts[p] == Advance ==> tr[p].seen == j.counts
  }

  ghost predicate FinalReads(j: Job, s: State)
  {
    forall q: Key :: q in s.read ==> q.0 < |j.counts| && s.read[q] == j.counts[q.0]
  }

  lemma {:induction false} FinalReadsKept(j: Job, tr: seq<State>, acts: seq<Action>)
    requires j.Valid() && IsRun(j, tr, acts) && ReadsFinal(j, tr, acts)
    ensures FinalReads(j, tr[|tr| - 1])
    decreases |tr|
  {
    if |acts| > 0 {
      var n := |acts| - 1;
      var tr0, acts0 := tr[..|tr| - 1], acts[..n];
      assert ReadsFinal(j, tr0, acts0) by {
        forall p | 0 <= p < |acts0| && acts0[p] == Advance ensures tr0[p].seen == j.counts {
          assert acts[p] == acts0[p] && tr[p] == tr0[p];
        }
      }
      FinalReadsKept(j, tr0, acts0);
      assert acts[n] == Advance ==> tr[n].seen == j.counts;
      ReadOnce(j, tr[n], tr[n + 1], acts[n]);
    }
  }

  lemma ReadOnce(j: Job, s: State, s': State, a: Action)
    requires j.Valid() && |s.cache.stage| == |j.xs| && Step(j, s, s', a) && FinalReads(j, s)
    requires a == Advance ==> s.seen == j.counts
    ensures FinalReads(j, s')
  {
    hide C.ChunkStep, C.CompressStep, C.SendStep, L.Ready, At, j.Valid;
  }

  lemma PreloadedRunIsOrdered(j: Job, s: State, tr: seq<State>, acts: seq<Action>)
    requires j.Valid() && IsRun(j, tr, acts) && s == tr[|tr| - 1] && Finished(s) && ReadsFinal(j, tr, acts)
    ensures s.cache.order == seq(|j.xs|, i => i) && s.cache.file == Archive(j.k, j.xs)
  {
    FinalReadsKept(j, tr, acts);
    RunKeeps(j, tr, acts);
    AllReadFinal(j, s);
    hide Archive, NoneLeftEarly, IsRun, Inv;
    EveryRunSends(j, s, tr, acts);
    assert C.SentChunks(j.xs, s.cache.order) == j.xs;
  }

  lemma AllReadFinal(j: Job, s: State)
    requires j.Valid() && Inv(j, s) && FinalReads(j, s)
    ensures NoneLeftEarly(j, s)
  {
    hide C.Inv, CountsOk, ArrivedOk, OrderOk, L.Inv, Pending;
  }
}
