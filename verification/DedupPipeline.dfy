/**
 How the encoder's stages shut down, apps/dedup/encoder.c, lines 154-205, 306-370, 375-499 and
 735-755, with the counting of ended producers in apps/dedup/queue.c.  One group of
 queues: 0 anchor, 1 chunk, 2 compress, 3 send; three pools of threads move the data on.
 A packet is the bag of chunks that an item of a queue stands for, so that cutting a
 coarse chunk moves its chunks on without changing the bag.
 */
module DedupPipeline {

  type Bag = multiset<nat>

  datatype Mode = Running | Draining | Done

  /** hold: chunks fetched, or waiting in a local buffer, and not yet put on. */
  datatype Worker = Worker(mode: Mode, hold: Bag)

  /**
   source: what DataProcess has still to put on queue 0; q: the queues; ended: their end counts;
   pools: the threads of FindAllAnchors, ChunkProcess and Compress; got: what the sender has fetched.
   */
  datatype State = State(source: Bag, reading: bool, q: seq<seq<Bag>>, ended: seq<nat>, pools: seq<seq<Worker>>,
    got: Bag)

  datatype Action =
    | Read(packet: Bag)
    | EndRead
    | Fetch(stage: nat, i: nat, n: nat)
    | Refused(stage: nat, i: nat)
    | Emit(stage: nat, i: nat, to: nat, batch: seq<Bag>)
    | End(stage: nat, i: nat)
    | Send(n: nat)

  ghost function Total(ps: seq<Bag>): Bag
  {
    if ps == [] then multiset{} else Total(ps[..|ps| - 1]) + ps[|ps| - 1]
  }

  ghost function Held(ws: seq<Worker>): Bag
  {
    if ws == [] then multiset{} else Held(ws[..|ws| - 1]) + ws[|ws| - 1].hold
  }

  function CountDone(ws: seq<Worker>): nat
  {
    if ws == [] then 0 else CountDone(ws[..|ws| - 1]) + if ws[|ws| - 1].mode == Done then 1 else 0
  }

  /** Producers that queue k waits for: DataProcess, or one pool of t threads. */
  function Threads(t: nat, k: nat): nat { if k == 0 then 1 else t }

  ghost predicate Shape(t: nat, s: State)
  {
    t >= 1 && |s.q| == 4 && |s.ended| == 4 && |s.pools| == 3 && forall p :: 0 <= p < 3 ==> |s.pools[p]| == t
  }

  ghost predicate Closed(t: nat, s: State, k: nat)
    requires Shape(t, s) && k < 4
  {
    s.q[k] == [] && s.ended[k] == Threads(t, k)
  }

  /** ChunkProcess feeds the compress and the send queue; the other pools feed the next queue. */
  predicate Feeds(stage: nat, to: nat)
  {
    (stage == 0 && to == 1) || (stage == 1 && (to == 2 || to == 3)) || (stage == 2 && to == 3)
  }

  ghost predicate Init(t: nat, all: Bag, s: State)
  {
    && Shape(t, s) && s.source == all && s.reading && s.got == multiset{}
    && s.q == [[], [], [], []] && s.ended == [0, 0, 0, 0]
    && forall p, i :: 0 <= p < 3 && 0 <= i < t ==> s.pools[p][i] == Worker(Running, multiset{})
  }

  ghost function SetWorker(s: State, p: nat, i: nat, w: Worker): State
    requires p < |s.pools| && i < |s.pools[p]|
  {
    s.(pools := s.pools[p := s.pools[p][i := w]])
  }

  ghost predicate Step(t: nat, s: State, s': State, a: Action)
    requires Shape(t, s)
  {
    match a
    case Read(packet) =>
      s.reading && packet <= s.source && s' == s.(source := s.source - packet, q := s.q[0 := s.q[0] + [packet]])
    case EndRead =>
      s.reading && s.source == multiset{} && s' == s.(reading := false, ended := s.ended[0 := s.ended[0] + 1])
    case Fetch(p, i, n) =>
      && p < 3 && i < t && s.pools[p][i].mode == Running && 1 <= n <= |s.q[p]|
      && var w := s.pools[p][i];
         s' == SetWorker(s, p, i, w.(hold := w.hold + Total(s.q[p][..n]))).(q := s.q[p := s.q[p][n..]])
    case Refused(p, i) =>
      && p < 3 && i < t && s.pools[p][i].mode == Running && Closed(t, s, p)
      && s' == SetWorker(s, p, i, s.pools[p][i].(mode := Draining))
    case Emit(p, i, to, batch) =>
      && p < 3 && i < t && Feeds(p, to) && s.pools[p][i].mode != Done && Total(batch) <= s.pools[p][i].hold
      && var w := s.pools[p][i];
         s' == SetWorker(s, p, i, w.(hold := w.hold - Total(batch))).(q := s.q[to := s.q[to] + batch])
    case End(p, i) =>
      && p < 3 && i < t && s.pools[p][i].mode == Draining && s.pools[p][i].hold == multiset{}
      && s' == SetWorker(s, p, i, Worker(Done, multiset{})).(ended := s.ended[p + 1 := s.ended[p + 1] + 1])
    case Send(n) =>
      1 <= n <= |s.q[3]| && s' == s.(q := s.q[3 := s.q[3][n..]], got := s.got + Total(s.q[3][..n]))
  }

  ghost predicate IsRun(t: nat, all: Bag, tr: seq<State>, acts: seq<Action>)
    decreases |tr|
  {
    && |tr| == |acts| + 1
    && if |acts| == 0 then Init(t, all, tr[0])
       else
         && IsRun(t, all, tr[..|tr| - 1], acts[..|acts| - 1])
         && Shape(t, tr[|tr| - 2])
         && Step(t, tr[|tr| - 2], tr[|tr| - 1], acts[|acts| - 1])
  }

  // ---------------------------------------------------------------------
  // Bags
  // ---------------------------------------------------------------------

  lemma {:induction false} TotalAdds(a: seq<Bag>, b: seq<Bag>)
    ensures Total(a + b) == Total(a) + Total(b)
  {
    if b == [] {
      assert a + b == a;
    } else {
      TotalAdds(a, b[..|b| - 1]);
      assert (a + b)[..|a + b| - 1] == a + b[..|b| - 1];
    }
  }

  lemma TotalSplits(a: seq<Bag>, n: nat)
    requires n <= |a|
    ensures Total(a) == Total(a[..n]) + Total(a[n..])
  {
    assert a == a[..n] + a[n..];
    TotalAdds(a[..n], a[n..]);
  }

  lemma TotalOne(packet: Bag)
    ensures Total([packet]) == packet
  {
    assert [packet][..0] == [];
  }

  /** Changing one worker changes what the pool holds, and how many are done, by that worker. */
  lemma {:induction false} PoolUpdate(ws: seq<Worker>, i: nat, w: Worker)
    requires i < |ws|
    ensures Held(ws[i := w]) + ws[i].hold == Held(ws) + w.hold
    ensures CountDone(ws[i := w]) + (if ws[i].mode == Done then 1 else 0) == CountDone(ws) + if w.mode == Done then 1
      else 0
  {
    var n := |ws| - 1;
    var us := ws[i := w];
    if i < n {
      assert us[..n] == ws[..n][i := w];
      PoolUpdate(ws[..n], i, w);
      BagShift(Held(us[..n]), Held(ws[..n]), ws[i].hold, w.hold, ws[n].hold);
    } else {
      assert us[..n] == ws[..n];
    }
  }

  lemma BagShift(a': Bag, a: Bag, x: Bag, y: Bag, z: Bag)
    requires a' + x == a + y
    ensures (a' + z) + x == (a + z) + y
  {
    calc {
      (a' + z) + x;
      (a' + x) + z;
      (a + y) + z;
      (a + z) + y;
    }
  }

  lemma {:induction false} AllDone(ws: seq<Worker>)
    ensures CountDone(ws) <= |ws|
    ensures CountDone(ws) == |ws| ==> forall i :: 0 <= i < |ws| ==> ws[i].mode == Done
  {
    if ws != [] { AllDone(ws[..|ws| - 1]); }
  }

  lemma {:induction false} NothingHeld(ws: seq<Worker>)
    requires forall i :: 0 <= i < |ws| ==> ws[i].hold == multiset{}
    ensures Held(ws) == multiset{}
  {
    if ws != [] { NothingHeld(ws[..|ws| - 1]); }
  }

  // ---------------------------------------------------------------------
  // The invariant
  // ---------------------------------------------------------------------

  /** Copies of chunk x on their way: in a queue or held by a thread. */
  ghost function UnderWay(s: State, x: nat): nat
    requires |s.q| == 4 && |s.pools| == 3
  {
    Total(s.q[0])[x] + Total(s.q[1])[x] + Total(s.q[2])[x] + Total(s.q[3])[x]
    + Held(s.pools[0])[x] + Held(s.pools[1])[x] + Held(s.pools[2])[x]
  }

  /** Every chunk is accounted for. */
  ghost predicate Conserved(all: Bag, s: State)
    requires |s.q| == 4 && |s.pools| == 3
  {
    forall x: nat :: s.source[x] + UnderWay(s, x) + s.got[x] == all[x]
  }

  ghost predicate Counted(t: nat, s: State)
    requires Shape(t, s)
  {
    && s.ended[0] == (if s.reading then 0 else 1)
    && (forall p :: 0 <= p < 3 ==> s.ended[p + 1] == CountDone(s.pools[p]))
  }

  /** A thread that was refused found its queue closed, and the queue still is. */
  ghost predicate RefusedOk(t: nat, s: State)
    requires Shape(t, s)
  {
    && (!s.reading ==> s.source == multiset{})
    && (forall p, i :: 0 <= p < 3 && 0 <= i < t && s.pools[p][i].mode != Running ==> Closed(t, s, p))
    && (forall p, i :: 0 <= p < 3 && 0 <= i < t && s.pools[p][i].mode == Done ==> s.pools[p][i].hold == multiset{})
  }

  ghost predicate Inv(t: nat, all: Bag, s: State)
  {
    && Shape(t, s) && Counted(t, s) && RefusedOk(t, s)
    && Conserved(all, s)
  }

  /** Everybody in the pool that feeds a closed queue has finished, and its own queue is closed. */
  lemma ClosedMeansDone(t: nat, s: State, p: nat)
    requires Shape(t, s) && Counted(t, s) && RefusedOk(t, s) && p < 3 && Closed(t, s, p + 1)
    ensures forall i :: 0 <= i < t ==> s.pools[p][i].mode == Done
    ensures Closed(t, s, p)
  {
    assert s.ended[p + 1] == CountDone(s.pools[p]);
    AllDone(s.pools[p]);
    assert s.pools[p][0].mode == Done;
  }

  /** A thread that can still put something on a queue shows that the queue is not closed. */
  lemma OpenWhileFed(t: nat, s: State, p: nat, i: nat, to: nat)
    requires Shape(t, s) && Counted(t, s) && RefusedOk(t, s) && p < 3 && i < t && Feeds(p, to)
      && s.pools[p][i].mode != Done
    ensures !Closed(t, s, to)
  {
    if Closed(t, s, to) {
      ClosedMeansDone(t, s, to - 1);
      if to != p + 1 { ClosedMeansDone(t, s, 1); }
    }
  }

  // ---------------------------------------------------------------------
  // Each step keeps the invariant
  // ---------------------------------------------------------------------

  /** s' differs from s in worker (p, i), which is w, and in queue k; nothing was read or sent. */
  ghost predicate OneWorker(s: State, s': State, p: nat, i: nat, w: Worker, k: nat)
  {
    && |s.q| == 4 && |s.pools| == 3 && |s'.q| == 4 && p < 3 && i < |s.pools[p]| && k < 4
    && s'.pools == s.pools[p := s.pools[p][i := w]]
    && (forall j :: 0 <= j < 4 && j != k ==> s'.q[j] == s.q[j])
    && s'.source == s.source && s'.got == s.got && s'.reading == s.reading
  }

  /** What one thread takes off or puts on a queue is conserved. */
  lemma MovedOn(all: Bag, s: State, s': State, p: nat, i: nat, w: Worker, k: nat)
    requires OneWorker(s, s', p, i, w, k) && Conserved(all, s)
    requires Total(s'.q[k]) + w.hold == Total(s.q[k]) + s.pools[p][i].hold
    ensures Conserved(all, s')
  {
    hide Total, Held, UnderWay;
    PoolUpdate(s.pools[p], i, w);
    forall x: nat ensures s'.source[x] + UnderWay(s', x) + s'.got[x] == all[x] {
      assert s.source[x] + UnderWay(s, x) + s.got[x] == all[x];
      MovedOnAt(s, s', p, i, k, w, x);
    }
  }

  lemma CountedStep(t: nat, s: State, s': State, p: nat, i: nat, w: Worker, k: nat)
    requires Shape(t, s) && Counted(t, s) && OneWorker(s, s', p, i, w, k) && s.pools[p][i].mode != Done
    requires s'.ended == if w.mode == Done then s.ended[p + 1 := s.ended[p + 1] + 1] else s.ended
    ensures Shape(t, s') && Counted(t, s')
  {
    PoolUpdate(s.pools[p], i, w);
    hide CountDone, Held;
    forall r | 0 <= r < 3 ensures s'.ended[r + 1] == CountDone(s'.pools[r]) {
      assert s.ended[r + 1] == CountDone(s.pools[r]);
    }
  }

  /** Refused threads stay right if only queues that are not closed change. */
  lemma RefusedStep(t: nat, s: State, s': State, p: nat, i: nat, w: Worker, k: nat)
    requires Shape(t, s) && Shape(t, s') && RefusedOk(t, s) && OneWorker(s, s', p, i, w, k)
    requires forall j :: 0 <= j < 3 ==> (s'.q[j] == s.q[j] && s'.ended[j] == s.ended[j]) || !Closed(t, s, j)
    requires w.mode != Running ==> Closed(t, s', p)
    requires w.mode == Done ==> w.hold == multiset{}
    ensures RefusedOk(t, s')
  {
    forall a, b | 0 <= a < 3 && 0 <= b < t && s'.pools[a][b].mode != Running ensures Closed(t, s', a) {
      if a != p || b != i {
        assert s'.pools[a][b] == s.pools[a][b];
      }
    }
    forall a, b | 0 <= a < 3 && 0 <= b < t && s'.pools[a][b].mode == Done ensures s'.pools[a][b].hold == multiset{} {
      if a != p || b != i {
        assert s'.pools[a][b] == s.pools[a][b];
      }
    }
  }

  lemma MovedOnAt(s: State, s': State, p: nat, i: nat, k: nat, w: Worker, x: nat)
    requires |s.q| == 4 && |s.pools| == 3 && |s'.q| == 4 && p < 3 && i < |s.pools[p]| && k < 4
    requires s'.pools == s.pools[p := s.pools[p][i := w]]
    requires forall j :: 0 <= j < 4 && j != k ==> s'.q[j] == s.q[j]
    requires Total(s'.q[k]) + w.hold == Total(s.q[k]) + s.pools[p][i].hold
    requires Held(s'.pools[p]) + s.pools[p][i].hold == Held(s.pools[p]) + w.hold
    ensures UnderWay(s', x) == UnderWay(s, x)
  {
    hide Total, Held;
    var q, q', h, h' := Total(s.q[k]), Total(s'.q[k]), Held(s.pools[p]), Held(s'.pools[p]);
    assert (q' + w.hold)[x] == q'[x] + w.hold[x] && (q + s.pools[p][i].hold)[x] == q[x] + s.pools[p][i].hold[x];
    assert (h' + s.pools[p][i].hold)[x] == h'[x] + s.pools[p][i].hold[x] && (h + w.hold)[x] == h[x] + w.hold[x];
  }

  lemma ReadConserves(all: Bag, s: State, s': State, packet: Bag)
    requires |s.q| == 4 && |s.pools| == 3 && Conserved(all, s) && packet <= s.source
    requires s' == s.(source := s.source - packet, q := s.q[0 := s.q[0] + [packet]])
    ensures Conserved(all, s')
  {
    hide Total, Held, UnderWay;
    TotalAdds(s.q[0], [packet]);
    TotalOne(packet);
    forall x: nat ensures s'.source[x] + UnderWay(s', x) + s'.got[x] == all[x] {
      assert s.source[x] + UnderWay(s, x) + s.got[x] == all[x];
      ReadAt(s, s', packet, x);
    }
  }

  lemma ReadKeeps(t: nat, all: Bag, s: State, s': State, packet: Bag)
    requires Inv(t, all, s) && Step(t, s, s', Read(packet))
    ensures Inv(t, all, s')
  {
    hide Total, Held, CountDone, Conserved;
    ReadConserves(all, s, s', packet);
    assert !Closed(t, s, 0);
    forall a, b | 0 <= a < 3 && 0 <= b < t && s'.pools[a][b].mode != Running ensures Closed(t, s', a) {
      assert s.pools[a][b] == s'.pools[a][b];
    }
  }

  lemma ReadAt(s: State, s': State, packet: Bag, x: nat)
    requires |s.q| == 4 && |s.pools| == 3 && |s'.q| == 4 && s'.pools == s.pools && packet <= s.source
    requires s'.source == s.source - packet && Total(s'.q[0]) == Total(s.q[0]) + packet
    requires forall j :: 1 <= j < 4 ==> s'.q[j] == s.q[j]
    ensures s'.source[x] + UnderWay(s', x) == s.source[x] + UnderWay(s, x)
  {
    hide Total, Held;
    assert (Total(s.q[0]) + packet)[x] == Total(s.q[0])[x] + packet[x];
  }

  lemma EndReadKeeps(t: nat, all: Bag, s: State, s': State)
    requires Inv(t, all, s) && Step(t, s, s', EndRead)
    ensures Inv(t, all, s')
  {
    hide Total, Held, CountDone;
    forall x: nat ensures s'.source[x] + UnderWay(s', x) + s'.got[x] == all[x] {
      assert s.source[x] + UnderWay(s, x) + s.got[x] == all[x];
    }
  }

  lemma FetchKeeps(t: nat, all: Bag, s: State, s': State, p: nat, i: nat, n: nat)
    requires Inv(t, all, s) && Step(t, s, s', Fetch(p, i, n))
    ensures Inv(t, all, s')
  {
    var w := s'.pools[p][i];
    TotalSplits(s.q[p], n);
    hide Total, Held, CountDone, Conserved, Counted, RefusedOk;
    assert OneWorker(s, s', p, i, w, p);
    hide OneWorker;
    MovedOn(all, s, s', p, i, w, p);
    CountedStep(t, s, s', p, i, w, p);
    RefusedStep(t, s, s', p, i, w, p);
  }

  lemma RefusedKeeps(t: nat, all: Bag, s: State, s': State, p: nat, i: nat)
    requires Inv(t, all, s) && Step(t, s, s', Refused(p, i))
    ensures Inv(t, all, s')
  {
    var w := s'.pools[p][i];
    hide Total, Held, CountDone, Conserved, Counted, RefusedOk;
    assert OneWorker(s, s', p, i, w, 0);
    hide OneWorker;
    MovedOn(all, s, s', p, i, w, 0);
    CountedStep(t, s, s', p, i, w, 0);
    RefusedStep(t, s, s', p, i, w, 0);
  }

  lemma EmitKeeps(t: nat, all: Bag, s: State, s': State, p: nat, i: nat, to: nat, batch: seq<Bag>)
    requires Inv(t, all, s) && Step(t, s, s', Emit(p, i, to, batch))
    ensures Inv(t, all, s')
  {
    var w := s'.pools[p][i];
    TotalAdds(s.q[to], batch);
    OpenWhileFed(t, s, p, i, to);
    EmitMode(t, s, p, i, w);
    hide Total, Held, CountDone, Conserved, Counted, RefusedOk;
    assert OneWorker(s, s', p, i, w, to);
    hide OneWorker;
    EmitBag(Total(s.q[to]), Total(batch), s.pools[p][i].hold);
    MovedOn(all, s, s', p, i, w, to);
    CountedStep(t, s, s', p, i, w, to);
    RefusedStep(t, s, s', p, i, w, to);
  }

  lemma EmitMode(t: nat, s: State, p: nat, i: nat, w: Worker)
    requires Shape(t, s) && RefusedOk(t, s) && p < 3 && i < t && w.mode == s.pools[p][i].mode
    ensures w.mode != Running ==> Closed(t, s, p)
  {
  }

  lemma EmitBag(q: Bag, b: Bag, h: Bag)
    requires b <= h
    ensures (q + b) + (h - b) == q + h
  {
  }

  lemma EndKeeps(t: nat, all: Bag, s: State, s': State, p: nat, i: nat)
    requires Inv(t, all, s) && Step(t, s, s', End(p, i))
    ensures Inv(t, all, s')
  {
    hide Total, Held, CountDone, Conserved, Counted, RefusedOk;
    var w := s'.pools[p][i];
    OpenWhileFed(t, s, p, i, p + 1);
    EmitMode(t, s, p, i, s.pools[p][i]);
    assert OneWorker(s, s', p, i, w, 0);
    hide OneWorker;
    MovedOn(all, s, s', p, i, w, 0);
    CountedStep(t, s, s', p, i, w, 0);
    RefusedStep(t, s, s', p, i, w, 0);
  }

  lemma SendKeeps(t: nat, all: Bag, s: State, s': State, n: nat)
    requires Inv(t, all, s) && Step(t, s, s', Send(n))
    ensures Inv(t, all, s')
  {
    TotalSplits(s.q[3], n);
    hide Total, Held, CountDone;
    forall x: nat ensures s'.source[x] + UnderWay(s', x) + s'.got[x] == all[x] {
      assert s.source[x] + UnderWay(s, x) + s.got[x] == all[x];
      assert (Total(s.q[3][..n]) + Total(s.q[3][n..]))[x] == Total(s.q[3][..n])[x] + Total(s.q[3][n..])[x];
    }
  }

  lemma InitHolds(t: nat, all: Bag, s: State)
    requires Init(t, all, s)
    ensures Inv(t, all, s)
  {
    forall p | 0 <= p < 3 ensures Held(s.pools[p]) == multiset{} && CountDone(s.pools[p]) == 0 {
      NothingHeld(s.pools[p]);
      NobodyDone(s.pools[p]);
    }
    hide Held, CountDone;
    assert Total([]) == multiset{};
  }

  lemma {:induction false} NobodyDone(ws: seq<Worker>)
    requires forall i :: 0 <= i < |ws| ==> ws[i].mode == Running
    ensures CountDone(ws) == 0
  {
    if ws != [] { NobodyDone(ws[..|ws| - 1]); }
  }

  lemma StepKeeps(t: nat, all: Bag, s: State, s': State, a: Action)
    requires Inv(t, all, s) && Step(t, s, s', a)
    ensures Inv(t, all, s')
  {
    hide Inv;
    assert Shape(t, s) by { ShapeOf(t, all, s); }
    match a
    case Read(packet) => ReadKeeps(t, all, s, s', packet);
    case EndRead => EndReadKeeps(t, all, s, s');
    case Fetch(p, i, n) => FetchKeeps(t, all, s, s', p, i, n);
    case Refused(p, i) => RefusedKeeps(t, all, s, s', p, i);
    case Emit(p, i, to, batch) => EmitKeeps(t, all, s, s', p, i, to, batch);
    case End(p, i) => EndKeeps(t, all, s, s', p, i);
    case Send(n) => SendKeeps(t, all, s, s', n);
  }

  lemma ShapeOf(t: nat, all: Bag, s: State)
    requires Inv(t, all, s)
    ensures Shape(t, s)
  {
  }

  lemma {:induction false} RunKeeps(t: nat, all: Bag, tr: seq<State>, acts: seq<Action>)
    requires IsRun(t, all, tr, acts)
    ensures Inv(t, all, tr[|tr| - 1])
    decreases |tr|
  {
    hide Inv, Step, Shape;
    if |acts| == 0 {
      InitHolds(t, all, tr[0]);
    } else {
      RunKeeps(t, all, tr[..|tr| - 1], acts[..|acts| - 1]);
      StepKeeps(t, all, tr[|tr| - 2], tr[|tr| - 1], acts[|acts| - 1]);
    }
  }

  // ---------------------------------------------------------------------
  // Main results
  // ---------------------------------------------------------------------

  /** No chunk is lost or duplicated at any time. */
  lemma EveryRunConserves(t: nat, all: Bag, tr: seq<State>, acts: seq<Action>)
    requires IsRun(t, all, tr, acts)
    ensures Shape(t, tr[|tr| - 1]) && Conserved(all, tr[|tr| - 1])
  {
    RunKeeps(t, all, tr, acts);
  }

  lemma AtTheEnd(t: nat, s: State)
    requires Shape(t, s) && Counted(t, s) && RefusedOk(t, s) && Closed(t, s, 3)
    ensures !s.reading && s.q == [[], [], [], []]
    ensures forall p, i :: 0 <= p < 3 && 0 <= i < t ==> s.pools[p][i].mode == Done
  {
    hide CountDone;
    ClosedMeansDone(t, s, 2);
    ClosedMeansDone(t, s, 1);
    ClosedMeansDone(t, s, 0);
    assert s.q == [[], [], [], []];
  }

  /** When the send queue refuses the sender, the sender has every chunk, and every thread has ended. */
  lemma RefusedOnlyAtTheEnd(t: nat, all: Bag, tr: seq<State>, acts: seq<Action>)
    requires IsRun(t, all, tr, acts) && Shape(t, tr[|tr| - 1]) && Closed(t, tr[|tr| - 1], 3)
    ensures var s := tr[|tr| - 1];
      && s.got == all && !s.reading
      && s.q == [[], [], [], []] && (forall p, i :: 0 <= p < 3 && 0 <= i < t ==> s.pools[p][i].mode == Done)
  {
    hide Conserved, Counted, RefusedOk, Closed;
    RunKeeps(t, all, tr, acts);
    AtTheEnd(t, tr[|tr| - 1]);
    EverythingSent(t, all, tr[|tr| - 1]);
  }

  /** After that nothing more happens: no queue is put on or taken off again. */
  lemma NothingAfterTheEnd(t: nat, s: State, s': State, a: Action)
    requires Shape(t, s) && !s.reading && s.q == [[], [], [], []]
    requires forall p, i :: 0 <= p < 3 && 0 <= i < t ==> s.pools[p][i].mode == Done
    ensures !Step(t, s, s', a)
  {
  }

  lemma EverythingSent(t: nat, all: Bag, s: State)
    requires Inv(t, all, s) && !s.reading && s.q == [[], [], [], []]
    requires forall p, i :: 0 <= p < 3 && 0 <= i < t ==> s.pools[p][i].mode == Done
    ensures s.got == all
  {
    forall p | 0 <= p < 3 ensures Held(s.pools[p]) == multiset{} {
      NothingHeld(s.pools[p]);
    }
    assert Total([]) == multiset{};
    hide Held, Total, CountDone;
    forall x: nat ensures s.got[x] == all[x] {
      assert s.source[x] + UnderWay(s, x) + s.got[x] == all[x];
    }
  }
}
