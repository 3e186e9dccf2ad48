/**
 The encoder of DedupEncoder always gets to its end: until the sender has flushed everything some thread can go
 on, and every step takes work away.
 */
module DedupProgress {
  import opened ReorderBuffer
  import opened SendOrder
  import opened DedupEncoder
  import C = DedupCache
  import L = SendLoop

  // ---------------------------------------------------------------------
  // Some thread can go on
  // ---------------------------------------------------------------------

  /** The key of chunk i. */
  lemma KeyOf(j: Job, i: nat) returns (q: Key)
    requires j.Valid() && i < |j.xs|
    ensures IsKey(j.counts, q) && At(j, q) == i
  {
    OrderIsByPlace(j.counts, |j.counts|);
    q := Order(j.counts, |j.counts|)[i];
  }

  /** A chunk that the cache has sent is one that the sender has written. */
  lemma SentIsDone(j: Job, s: State, q: Key)
    requires j.Valid() && Inv(j, s) && IsKey(j.counts, q) && s.cache.stage[At(j, q)] == C.Sent
    ensures q in Done(s)
  {
    hide CountsOk, ArrivedOk, SenderOk, Done;
    InOrderSent(j, s, At(j, q));
    var p :| 0 <= p < |s.cache.order| && s.cache.order[p] == At(j, q);
    ByPlace(j, Done(s)[p], q);
  }

  lemma InOrderSent(j: Job, s: State, i: nat)
    requires j.Valid() && |s.cache.stage| == |j.xs| && C.Inv(j.k, j.xs, s.cache) && i < |j.xs|
    requires s.cache.stage[i] == C.Sent
    ensures i in s.cache.order
  {
    hide C.ItemOk, C.EntryOk, C.OneCompressor;
  }

  /** A chunk that has been fetched and not written is on its way: it can be sent, or its data compressed. */
  lemma SendOrCompress(j: Job, s: State, q: Key) returns (sends: bool, i: nat, c': C.State)
    requires j.Valid() && Inv(j, s) && q in s.arrived && IsKey(j.counts, q) && q !in Done(s)
    ensures sends ==> C.SendStep(j.k, j.xs, s.cache, c', At(j, q))
    ensures !sends ==> i < |j.xs| && C.CompressStep(j.k, j.xs, s.cache, c', i)
  {
    if s.cache.stage[At(j, q)] == C.Sent { SentIsDone(j, s, q); }
    assert s.cache.stage[At(j, q)] == C.ToSend by { hide C.Inv, CountsOk, OrderOk, SenderOk; }
    hide C.Inv, CountsOk, ArrivedOk, OrderOk, SenderOk;
    var a;
    a, c' := C.SenderIsNeverStuck(j.k, j.xs, s.cache, At(j, q));
    sends, i := a.Send?, if a.Compress? then a.i else 0;
  }

  /** The action of the machine behind SendOrCompress, when sending is action a that leads to t. */
  lemma CompressInstead(j: Job, s: State, i: nat, c': C.State) returns (a: Action, s': State)
    requires j.Valid() && |s.cache.stage| == |j.xs| && i < |j.xs| && C.CompressStep(j.k, j.xs, s.cache, c', i)
    ensures Step(j, s, s', a)
  {
    hide C.CompressStep, At;
    var q := KeyOf(j, i);
    a, s' := Compress(q), s.(cache := c');
  }

  lemma NextIsFetched(j: Job, s: State)
    requires j.Valid() && Inv(j, s) && s.mode == Writing
    ensures s.sender.next in s.arrived && IsKey(j.counts, s.sender.next) && s.sender.next !in Done(s)
  {
    hide C.Inv, CountsOk, OrderOk, Pending, At, L.Whole;
    PendingFacts(j.counts, s.arrived, s.sender, ReadOf(s.read));
  }

  lemma WriterMoves(j: Job, s: State) returns (a: Action, s': State)
    requires j.Valid() && Inv(j, s) && s.mode == Writing
    ensures Step(j, s, s', a)
  {
    hide C.SendStep, C.CompressStep, At, Inv, Done, j.Valid, IsKey;
    InvShape(j, s);
    NextIsFetched(j, s);
    var sends, i, c' := SendOrCompress(j, s, s.sender.next);
    if sends {
      a, s' := Write, s.(cache := c', mode := Wrote);
    } else {
      a, s' := CompressInstead(j, s, i, c');
    }
  }

  lemma AdvancerMoves(j: Job, s: State) returns (a: Action, s': State)
    requires j.Valid() && Inv(j, s) && s.mode == Wrote
    ensures Step(j, s, s', a)
  {
    hide C.Inv, OrderOk, At, L.Ready, L.Write, CountsOk, ArrivedOk;
    PendingFacts(j.counts, s.arrived, s.sender, ReadOf(s.read));
    SeesCount(j, s);
    var read := s.read[s.sender.next := s.seen[s.sender.next.0]];
    var t := L.Write(s.sender, ReadOf(read));
    a, s' := Advance, s.(read := read, sender := t, mode := if L.Ready(t) then Writing else Idle);
  }

  lemma FetcherMoves(j: Job, s: State) returns (a: Action, s': State)
    requires j.Valid() && Inv(j, s) && s.mode == Idle
    ensures Step(j, s, s', a)
  {
    hide Inv, Step, j.Valid, IsKey;
    InvShape(j, s);
    if AllFetched(j, s) {
      a, s' := EndLoop, s.(mode := Flushing);
      LoopEnds(j, s);
    } else {
      var q: Key :| IsKey(j.counts, q) && q !in s.arrived;
      NotFetchedNotSent(j, s, q);
      a, s' := NotFetchedMoves(j, s, q);
    }
  }

  lemma LoopEnds(j: Job, s: State)
    requires j.Valid() && |s.cache.stage| == |j.xs| && s.mode == Idle && AllFetched(j, s)
    ensures Step(j, s, s.(mode := Flushing), EndLoop)
  {
    hide AllFetched, j.Valid;
  }

  lemma NotFetchedNotSent(j: Job, s: State, q: Key)
    requires j.Valid() && Inv(j, s) && s.mode == Idle && IsKey(j.counts, q) && q !in s.arrived
    ensures s.cache.stage[At(j, q)] != C.Sent
  {
    hide Inv, j.Valid, Done, At;
    InvShape(j, s);
    OutHasArrived(j, s);
    if s.cache.stage[At(j, q)] == C.Sent { SentIsDone(j, s, q); }
  }

  /** A chunk that the sender has not fetched can be cut, looked up, compressed or fetched. */
  lemma NotFetchedMoves(j: Job, s: State, q: Key) returns (a: Action, s': State)
    requires j.Valid() && Inv(j, s) && s.mode == Idle && IsKey(j.counts, q) && q !in s.arrived
    requires s.cache.stage[At(j, q)] != C.Sent
    ensures Step(j, s, s', a)
  {
    hide C.Inv, OrderOk, SenderOk, ArrivedOk, C.ChunkStep, C.CompressStep, At;
    if s.cache.stage[At(j, q)] == C.ToSend {
      a, s' := Receive(q), s.(arrived := s.arrived + {q}, sender := L.Arrive(s.sender, q),
                              mode := if q == s.sender.next then Writing else Idle);
    } else if s.cache.stage[At(j, q)] == C.Found && s.seen[q.0] <= q.1 {
      a, s' := Cut(q.0), s.(seen := s.seen[q.0 := s.seen[q.0] + 1]);
    } else {
      a, s' := StageMovesOn(j, s, q);
    }
  }

  lemma StageMovesOn(j: Job, s: State, q: Key) returns (a: Action, s': State)
    requires j.Valid() && |s.cache.stage| == |j.xs| && C.Inv(j.k, j.xs, s.cache) && IsKey(j.counts, q)
    requires s.cache.stage[At(j, q)] in {C.Found, C.ToCompress}
    requires s.cache.stage[At(j, q)] == C.Found ==> q.0 < |s.seen| && q.1 < s.seen[q.0]
    ensures Step(j, s, s', a)
  {
    hide C.Inv, C.ChunkStep, C.CompressStep, C.SendStep, At;
    var b, c' := C.SenderIsNeverStuck(j.k, j.xs, s.cache, At(j, q));
    if b.Chunk? {
      a, s' := Look(q), s.(cache := c');
    } else {
      CompressBound(j, s, c', b.i);
      a, s' := CompressInstead(j, s, b.i, c');
    }
  }

  lemma CompressBound(j: Job, s: State, c': C.State, i: nat)
    requires |s.cache.stage| == |j.xs| && C.CompressStep(j.k, j.xs, s.cache, c', i)
    ensures i < |j.xs|
  {
  }

  lemma OutHasArrived(j: Job, s: State)
    requires j.Valid() && Inv(j, s) && s.mode == Idle
    ensures forall q :: q in Done(s) ==> q in s.arrived
  {
    hide C.Inv, CountsOk, ArrivedOk, OrderOk, L.LeavesComplete, L.InOrder, L.OutOfOrder, L.Ready;
  }

  lemma FlusherMoves(j: Job, s: State) returns (a: Action, s': State)
    requires j.Valid() && Inv(j, s) && s.mode == Flushing && !Finished(s)
    ensures Step(j, s, s', a)
  {
    hide C.SendStep, C.CompressStep, At, Inv, Done, Finished, j.Valid;
    InvShape(j, s);
    var q := FirstOfLeft(s);
    WaitingIsNotDone(j, s, q);
    var sends, i, c' := SendOrCompress(j, s, q);
    if sends {
      a, s' := Flush(q), s.(cache := c', flushed := s.flushed + [q]);
    } else {
      a, s' := CompressInstead(j, s, i, c');
    }
  }

  lemma FirstOfLeft(s: State) returns (q: Key)
    requires s.mode == Flushing && !Finished(s)
    ensures FirstLeft(s, q)
  {
    var left := set k | k in s.sender.waiting && k !in s.flushed;
    var some :| some in s.sender.waiting && some !in s.flushed;
    assert some in left;
    q := LeastKey(left);
    forall r | r in s.sender.waiting && r !in s.flushed ensures r == q || Before(q, r) {
      assert r in left;
    }
  }

  lemma WaitingIsNotDone(j: Job, s: State, q: Key)
    requires j.Valid() && Inv(j, s) && s.mode == Flushing && q in s.sender.waiting && q !in s.flushed
    ensures q in s.arrived && IsKey(j.counts, q) && q !in Done(s)
  {
    hide C.Inv, CountsOk, OrderOk, L.LeavesComplete, L.InOrder, L.OutOfOrder, L.Ready, FlushOk, At;
  }

  lemma {:induction false} LeastKey(keys: set<Key>) returns (q: Key)
    requires keys != {}
    ensures q in keys && forall r :: r in keys ==> r == q || Before(q, r)
    decreases |keys|
  {
    var k :| k in keys;
    var rest := keys - {k};
    if rest == {} {
      q := k;
      assert keys == rest + {k};
    } else {
      var r := LeastKey(rest);
      q := if Before(k, r) then k else r;
      assert forall x :: x in keys ==> x == k || x in rest;
    }
  }

  /** Until everything has been flushed some thread can go on. */
  lemma NoDeadlock(j: Job, s: State) returns (a: Action, s': State)
    requires j.Valid() && Inv(j, s) && !Finished(s)
    ensures |s.cache.stage| == |j.xs| && Step(j, s, s', a)
  {
    InvShape(j, s);
    hide Inv, Step, j.Valid;
    match s.mode
    case Idle => a, s' := FetcherMoves(j, s);
    case Writing => a, s' := WriterMoves(j, s);
    case Wrote => a, s' := AdvancerMoves(j, s);
    case Flushing => a, s' := FlusherMoves(j, s);
  }

  // ---------------------------------------------------------------------
  // Every step takes work away
  // ---------------------------------------------------------------------

  /** What is still to be cut in the first n anchors. */
  ghost function ToCut(counts: seq<nat>, seen: seq<nat>, n: nat): int
    requires n <= |counts| == |seen|
  {
    if n == 0 then 0 else ToCut(counts, seen, n - 1) + counts[n - 1] - seen[n - 1]
  }

  lemma {:induction false} CutLess(counts: seq<nat>, seen: seq<nat>, b: nat, n: nat)
    requires n <= |counts| == |seen| && b < |seen|
    ensures ToCut(counts, seen[b := seen[b] + 1], n) == ToCut(counts, seen, n) - if b < n then 1 else 0
  {
    if n > 0 { CutLess(counts, seen, b, n - 1); }
  }

  lemma {:induction false} CutIsNat(counts: seq<nat>, seen: seq<nat>, n: nat)
    requires n <= |counts| == |seen| && forall a :: 0 <= a < |seen| ==> seen[a] <= counts[a]
    ensures ToCut(counts, seen, n) >= 0
  {
    if n > 0 { CutIsNat(counts, seen, n - 1); }
  }

  function StagesLeft(g: C.Stage): nat
  {
    match g
    case Found => 3
    case ToCompress => 2
    case ToSend => 1
    case Sent => 0
  }

  ghost function AllStages(stage: seq<C.Stage>): nat
  {
    if stage == [] then 0 else AllStages(stage[..|stage| - 1]) + StagesLeft(stage[|stage| - 1])
  }

  lemma {:induction false} StageUpdate(stage: seq<C.Stage>, i: nat, g: C.Stage)
    requires i < |stage|
    ensures AllStages(stage[i := g]) == AllStages(stage) - StagesLeft(stage[i]) + StagesLeft(g)
    decreases |stage|
  {
    var n := |stage| - 1;
    if i < n {
      assert stage[i := g][..n] == stage[..n][i := g];
      StageUpdate(stage[..n], i, g);
    } else {
      assert stage[i := g][..n] == stage[..n];
    }
  }

  /** Cutting, the stages of every chunk, fetching, advancing, and the end of the loop. */
  ghost function WorkLeft(j: Job, s: State): int
    requires |s.seen| == |j.counts|
  {
    ToCut(j.counts, s.seen, |s.seen|) + AllStages(s.cache.stage) + (|j.xs| - |s.arrived|) + (|j.xs| - |s.sender.out|)
    + if s.mode == Flushing then 0 else 1
  }

  lemma {:induction false} SubsetSize(a: set<Key>, b: set<Key>)
    requires a <= b
    ensures |a| <= |b|
    decreases |a|
  {
    if a != {} {
      var k :| k in a;
      SubsetSize(a - {k}, b - {k});
    }
  }

  lemma KeysNumber(j: Job)
    requires j.Valid()
    ensures var all := L.KeysOf(Order(j.counts, |j.counts|));
      |all| == |j.xs| && forall q :: q in all <==> IsKey(j.counts, q)
  {
    var order := Order(j.counts, |j.counts|);
    OrderIncreases(j.counts, |j.counts|);
    hide Order;
    forall a, b | 0 <= a < b < |order| ensures order[a] != order[b] {
      assert Before(order[a], order[b]);
    }
    L.DistinctSize(order);
    forall q ensures q in L.KeysOf(order) <==> IsKey(j.counts, q) {
      L.InKeys(order, q);
      OrderHasAll(j.counts, q);
    }
  }

  lemma OutWithin(arrived: set<Key>, t: L.Sender)
    requires L.Whole(arrived, t)
    ensures |t.out| <= |arrived|
  {
    L.DistinctSize(t.out);
    forall q | q in L.KeysOf(t.out) ensures q in arrived {
      L.InKeys(t.out, q);
    }
    SubsetSize(L.KeysOf(t.out), arrived);
  }

  lemma SenderWhole(j: Job, s: State)
    requires j.Valid() && Inv(j, s)
    ensures L.Whole(s.arrived, s.sender) && |s.seen| == |j.counts|
  {
    hide C.Inv, ArrivedOk, OrderOk, L.Whole, L.LeavesComplete, L.InOrder, L.Passed, L.OutOfOrder, L.Ready, FlushOk, At;
  }

  lemma LeftIsNat(j: Job, s: State)
    requires j.Valid() && Inv(j, s)
    ensures |s.seen| == |j.counts| && WorkLeft(j, s) >= 0
  {
    SenderWhole(j, s);
    OutWithin(s.arrived, s.sender);
    KeysNumber(j);
    SubsetSize(s.arrived, L.KeysOf(Order(j.counts, |j.counts|))) by {
      hide C.Inv, CountsOk, OrderOk, SenderOk, At, L.Whole;
    }
    hide C.Inv, ArrivedOk, OrderOk, SenderOk, Order, L.Whole, L.KeysOf, At;
    CutIsNat(j.counts, s.seen, |s.seen|);
  }

  lemma StageShrinks(j: Job, s: State, s': State, i: nat)
    requires StageMoves(j, s, s', i) && StagesLeft(s'.cache.stage[i]) < StagesLeft(s.cache.stage[i])
    ensures AllStages(s'.cache.stage) < AllStages(s.cache.stage)
  {
    StageUpdate(s.cache.stage, i, s'.cache.stage[i]);
  }

  /** A step of one of the stages or a write takes a chunk one stage on. */
  lemma MovesShrink(j: Job, s: State, s': State, i: nat)
    requires |s.cache.stage| == |j.xs|
    requires C.ChunkStep(j.k, j.xs, s.cache, s'.cache, i) || C.CompressStep(j.k, j.xs, s.cache, s'.cache, i)
          || C.SendStep(j.k, j.xs, s.cache, s'.cache, i)
    ensures AllStages(s'.cache.stage) < AllStages(s.cache.stage)
  {
    hide AllStages;
    if C.ChunkStep(j.k, j.xs, s.cache, s'.cache, i) {
      ChunkMoves(j, s, s', i);
    } else if C.CompressStep(j.k, j.xs, s.cache, s'.cache, i) {
      CompressMoves(j, s, s', i);
    } else {
      SendMoves(j, s, s', i);
    }
    StageShrinks(j, s, s', i);
  }

  /** Every step takes work away. */
  lemma WorkShrinks(j: Job, s: State, s': State, a: Action)
    requires j.Valid() && Inv(j, s) && |s.cache.stage| == |j.xs| && Step(j, s, s', a)
    ensures |s.seen| == |s'.seen| == |j.counts| && 0 <= WorkLeft(j, s') < WorkLeft(j, s)
  {
    hide Inv, j.Valid, Step, WorkLeft;
    StepKeeps(j, s, s', a);
    LeftIsNat(j, s);
    LeftIsNat(j, s');
    if a.Look? || a.Compress? || a.Write? || a.Flush? {
      MoveShrinks(j, s, s', a);
    } else {
      OtherShrinks(j, s, s', a);
    }
  }

  lemma MoveShrinks(j: Job, s: State, s': State, a: Action)
    requires j.Valid() && |s.cache.stage| == |j.xs| && |s.seen| == |s'.seen| == |j.counts| && Step(j, s, s', a)
    requires a.Look? || a.Compress? || a.Write? || a.Flush?
    ensures WorkLeft(j, s') < WorkLeft(j, s)
  {
    hide j.Valid, C.ChunkStep, C.CompressStep, C.SendStep, At, IsKey, AllStages, ToCut, FirstLeft;
    MovesShrink(j, s, s', if a.Write? then At(j, s.sender.next) else At(j, a.q));
  }

  lemma OtherShrinks(j: Job, s: State, s': State, a: Action)
    requires j.Valid() && |s.cache.stage| == |j.xs| && |s.seen| == |s'.seen| == |j.counts| && Step(j, s, s', a)
    requires a.Cut? || a.Receive? || a.Advance? || a.EndLoop?
    ensures WorkLeft(j, s') < WorkLeft(j, s)
  {
    hide j.Valid, L.Ready, At, IsKey, AllStages, ToCut, AllFetched;
    if a.Cut? { CutLess(j.counts, s.seen, a.a, |s.seen|); }
  }

  /** No run is longer than the work there is at the start. */
  lemma {:induction false} EveryRunIsShort(j: Job, tr: seq<State>, acts: seq<Action>)
    requires j.Valid() && IsRun(j, tr, acts)
    ensures |tr[0].seen| == |tr[|tr| - 1].seen| == |j.counts|
    ensures |acts| + WorkLeft(j, tr[|tr| - 1]) <= WorkLeft(j, tr[0]) && WorkLeft(j, tr[|tr| - 1]) >= 0
    decreases |tr|
  {
    hide Inv, Step, WorkLeft, Init, j.Valid, IsRun;
    RunKeeps(j, tr, acts);
    RunLength(j, tr, acts);
    LeftIsNat(j, tr[|tr| - 1]);
    if |acts| > 0 {
      var tr0, acts0 := LastStep(j, tr, acts);
      EveryRunIsShort(j, tr0, acts0);
      WorkShrinks(j, tr[|tr| - 2], tr[|tr| - 1], acts[|acts| - 1]);
    }
  }

  lemma RunLength(j: Job, tr: seq<State>, acts: seq<Action>)
    requires j.Valid() && IsRun(j, tr, acts)
    ensures |tr| == |acts| + 1
  {
    hide Step, Init, j.Valid;
  }

  lemma LastStep(j: Job, tr: seq<State>, acts: seq<Action>) returns (tr0: seq<State>, acts0: seq<Action>)
    requires j.Valid() && IsRun(j, tr, acts) && |acts| > 0
    ensures |tr| == |acts| + 1 && tr0 == tr[..|tr| - 1] && acts0 == acts[..|acts| - 1] && IsRun(j, tr0, acts0)
    ensures Inv(j, tr[|tr| - 2]) && |tr[|tr| - 2].cache.stage| == |j.xs|
    ensures Step(j, tr[|tr| - 2], tr[|tr| - 1], acts[|acts| - 1])
  {
    hide Step, Init, j.Valid, Inv;
    tr0, acts0 := tr[..|tr| - 1], acts[..|acts| - 1];
    RunKeeps(j, tr0, acts0);
  }

  /** Every run can be carried on to its end. */
  lemma {:induction false} EveryRunCanFinish(j: Job, tr: seq<State>, acts: seq<Action>)
      returns (tr': seq<State>, acts': seq<Action>)
    requires j.Valid() && IsRun(j, tr, acts)
    ensures IsRun(j, tr', acts') && acts <= acts' && tr <= tr' && Finished(tr'[|tr'| - 1])
    decreases var s := tr[|tr| - 1]; if |s.seen| == |j.counts| then WorkLeft(j, s) else 0
  {
    hide Inv, Step, WorkLeft, Init, Finished, j.Valid;
    var s := tr[|tr| - 1];
    RunKeeps(j, tr, acts);
    LeftIsNat(j, s);
    if Finished(s) {
      tr', acts' := tr, acts;
    } else {
      var a, s' := NoDeadlock(j, s);
      WorkShrinks(j, s, s', a);
      Longer(j, tr, acts, s', a);
      tr', acts' := EveryRunCanFinish(j, tr + [s'], acts + [a]);
    }
  }

  lemma Longer(j: Job, tr: seq<State>, acts: seq<Action>, s': State, a: Action)
    requires j.Valid() && IsRun(j, tr, acts) && |tr[|tr| - 1].cache.stage| == |j.xs| && Step(j, tr[|tr| - 1], s', a)
    ensures IsRun(j, tr + [s'], acts + [a])
  {
    hide Step, Init, j.Valid;
    assert (tr + [s'])[..|tr|] == tr && (acts + [a])[..|acts|] == acts;
  }
}
