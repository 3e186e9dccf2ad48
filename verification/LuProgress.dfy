/**
 Every run of the parallel factorisation comes to an end: each step of a processor or of the barrier
 takes work away (apps/lu/lu.c, lines 662-797).
 */
module LuProgress {
  import opened LuSpec
  import opened LuParallel

  ghost function Tasks(c: Config): set<Task>
    requires c.Valid()
  {
    set I, J, K | 0 <= I < c.Blocks() && 0 <= J < c.Blocks() && 0 <= K < c.Blocks() && K <= I && K <= J :: Task(I, J, K)
  }

  ghost function Undone(c: Config, done: iset<Task>): set<Task>
    requires c.Valid()
  {
    set t | t in Tasks(c) && t !in done
  }

  ghost function Idlers(busy: seq<Run>): nat
  {
    if busy == [] then 0 else Idlers(busy[..|busy| - 1]) + if busy[|busy| - 1].Idle? then 1 else 0
  }

  /** Places that still lie ahead of the processors. */
  ghost function Ahead(at: seq<Pos>, blocks: nat): int
  {
    if at == [] then 0 else Ahead(at[..|at| - 1], blocks) + 3 * (blocks - at[|at| - 1].K) - at[|at| - 1].phase
  }

  /** A kernel counts twice, for its start and its end. */
  ghost function WorkLeft<N>(c: Config, s: State<N>): int
    requires c.Valid()
  {
    2 * |Undone(c, s.done)| + Idlers(s.busy) + Ahead(s.at, c.Blocks())
  }

  lemma {:induction false} IdlersUpdate(busy: seq<Run>, p: nat, r: Run)
    requires p < |busy|
    ensures Idlers(busy[p := r]) == Idlers(busy) + (if r.Idle? then 1 else 0) - (if busy[p].Idle? then 1 else 0)
  {
    var n := |busy| - 1;
    if p < n {
      IdlersUpdate(busy[..n], p, r);
      assert busy[p := r][..n] == busy[..n][p := r];
    } else {
      assert busy[p := r][..n] == busy[..n];
    }
  }

  lemma {:induction false} AheadUpdate(at: seq<Pos>, blocks: nat, p: nat, q: Pos)
    requires p < |at|
    ensures Ahead(at[p := q], blocks) == Ahead(at, blocks) - (3 * (q.K - at[p].K) + q.phase - at[p].phase)
  {
    var n := |at| - 1;
    if p < n {
      AheadUpdate(at[..n], blocks, p, q);
      assert at[p := q][..n] == at[..n][p := q];
    } else {
      assert at[p := q][..n] == at[..n];
    }
  }

  lemma {:induction false} AheadBarrier(at: seq<Pos>, at': seq<Pos>, blocks: nat)
    requires |at'| == |at| && forall p :: 0 <= p < |at| ==> at'[p] == Pos(at[p].K, at[p].phase + 1)
    ensures Ahead(at', blocks) == Ahead(at, blocks) - |at|
  {
    if at != [] {
      AheadBarrier(at[..|at| - 1], at'[..|at| - 1], blocks);
    }
  }

  lemma {:induction false} AheadIsNat(at: seq<Pos>, blocks: nat)
    requires forall p :: 0 <= p < |at| ==>
      at[p].K <= blocks && at[p].phase <= 2 && (at[p].K == blocks ==> at[p].phase == 0)
    ensures Ahead(at, blocks) >= 0
  {
    if at != [] {
      AheadIsNat(at[..|at| - 1], blocks);
    }
  }

  lemma UndoneShrinks(c: Config, done: iset<Task>, t: Task)
    requires c.Valid() && IsTask(c, t) && t !in done
    ensures |Undone(c, done + iset{t})| == |Undone(c, done)| - 1
  {
    assert t in Tasks(c) by { assert t == Task(t.I, t.J, t.K); }
    assert Undone(c, done + iset{t}) == Undone(c, done) - {t};
  }

  lemma LeftIsNat<N>(c: Config, ops: Ops<N>, A: Matrix<N>, s: State<N>)
    requires c.Valid() && Inv(c, ops, A, s)
    ensures WorkLeft(c, s) >= 0
  {
    AheadIsNat(s.at, c.Blocks());
  }

  lemma StartShrinks<N>(c: Config, s: State<N>, s': State<N>, p: nat, t: Task)
    requires c.Valid() && Shape(c, s) && StartStep(c, s, s', p, t)
    ensures WorkLeft(c, s') < WorkLeft(c, s)
  {
    hide Mine, Clash, Undone, c.Blocks;
    IdlersUpdate(s.busy, p, Doing(t));
  }

  lemma FinishShrinks<N>(c: Config, ops: Ops<N>, s: State<N>, s': State<N>, p: nat)
    requires c.Valid() && Shape(c, s) && FinishStep(c, ops, s, s', p) && s.busy[p].t !in s.done
    ensures WorkLeft(c, s') < WorkLeft(c, s)
  {
    hide SameMemory, Undone, After, c.Blocks;
    IdlersUpdate(s.busy, p, Idle);
    UndoneShrinks(c, s.done, s.busy[p].t);
  }

  lemma AdvanceShrinks<N>(c: Config, s: State<N>, s': State<N>, p: nat)
    requires c.Valid() && Shape(c, s) && AdvanceStep(c, s, s', p)
    ensures WorkLeft(c, s') < WorkLeft(c, s)
  {
    hide Through, Undone, c.Blocks;
    AheadUpdate(s.at, c.Blocks(), p, Pos(s.at[p].K + 1, 0));
  }

  lemma BarrierShrinks<N>(c: Config, s: State<N>, s': State<N>)
    requires c.Valid() && Shape(c, s) && BarrierStep(c, s, s')
    ensures WorkLeft(c, s') < WorkLeft(c, s)
  {
    hide Through, Undone, c.Blocks, c.P;
    AheadBarrier(s.at, s'.at, c.Blocks());
    OneProcessor(c);
  }

  /** Every step takes work away. */
  lemma WorkShrinks<N>(c: Config, ops: Ops<N>, A: Matrix<N>, s: State<N>, s': State<N>, a: Action)
    requires c.Valid() && Inv(c, ops, A, s) && Step(c, ops, s, s', a)
    ensures 0 <= WorkLeft(c, s') < WorkLeft(c, s)
  {
    hide MemoryOk, DoneOk, PlacesOk, Mine, StartStep, AdvanceStep, BarrierStep, SameMemory, After, WorkLeft;
    StepKeeps(c, ops, A, s, s', a);
    LeftIsNat(c, ops, A, s');
    match a
    case Start(p, t) => StartShrinks(c, s, s', p, t);
    case Finish(p) => FinishShrinks(c, ops, s, s', p);
    case Advance(p) => AdvanceShrinks(c, s, s', p);
    case Barrier => BarrierShrinks(c, s, s');
  }

  lemma OneProcessor(c: Config)
    requires c.Valid()
    ensures c.P() >= 1
  {
    OwnerInRange(c, 0, 0);
  }

  /** No run is longer than the work there is at the start. */
  lemma {:induction false} EveryRunIsShort<N>(c: Config, ops: Ops<N>, A: Matrix<N>, tr: seq<State<N>>,
          acts: seq<Action>)
    requires c.Valid() && IsRun(c, ops, A, tr, acts)
    ensures |acts| + WorkLeft(c, tr[|tr| - 1]) <= WorkLeft(c, tr[0]) && WorkLeft(c, tr[|tr| - 1]) >= 0
    decreases |tr|
  {
    RunKeeps(c, ops, A, tr, acts);
    hide Inv, Step, WorkLeft, Init;
    LeftIsNat(c, ops, A, tr[|tr| - 1]);
    if |acts| > 0 {
      RunKeeps(c, ops, A, tr[..|tr| - 1], acts[..|acts| - 1]);
      EveryRunIsShort(c, ops, A, tr[..|tr| - 1], acts[..|acts| - 1]);
      WorkShrinks(c, ops, A, tr[|tr| - 2], tr[|tr| - 1], acts[|acts| - 1]);
    }
  }

  /** Every run can be carried on to its end. */
  lemma {:induction false} EveryRunCanFinish<N>(c: Config, ops: Ops<N>, A: Matrix<N>, tr: seq<State<N>>,
          acts: seq<Action>)
      returns (tr': seq<State<N>>, acts': seq<Action>)
    requires c.Valid() && IsRun(c, ops, A, tr, acts)
    ensures IsRun(c, ops, A, tr', acts') && acts <= acts' && tr <= tr'
    ensures Shape(c, tr'[|tr'| - 1]) && Finished(c, tr'[|tr'| - 1])
    decreases WorkLeft(c, tr[|tr| - 1])
  {
    hide Inv, Step, WorkLeft, Init, Finished, Shape;
    var s := tr[|tr| - 1];
    KnownOf(c, ops, A, tr, acts);
    if Finished(c, s) {
      tr', acts' := tr, acts;
    } else {
      var a, s' := NoDeadlock(c, ops, A, s);
      WorkShrinks(c, ops, A, s, s', a);
      Longer(c, ops, A, tr, acts, s', a);
      tr', acts' := EveryRunCanFinish(c, ops, A, tr + [s'], acts + [a]);
    }
  }

  lemma KnownOf<N>(c: Config, ops: Ops<N>, A: Matrix<N>, tr: seq<State<N>>, acts: seq<Action>)
    requires c.Valid() && IsRun(c, ops, A, tr, acts)
    ensures var s := tr[|tr| - 1]; Inv(c, ops, A, s) && Shape(c, s) && WorkLeft(c, s) >= 0
  {
    hide MemoryOk, DoneOk, PlacesOk, BusyOk, Step, WorkLeft;
    RunKeeps(c, ops, A, tr, acts);
    LeftIsNat(c, ops, A, tr[|tr| - 1]);
  }

  lemma Longer<N>(c: Config, ops: Ops<N>, A: Matrix<N>, tr: seq<State<N>>, acts: seq<Action>, s': State<N>, a: Action)
    requires c.Valid() && IsRun(c, ops, A, tr, acts) && Shape(c, tr[|tr| - 1]) && Step(c, ops, tr[|tr| - 1], s', a)
    ensures IsRun(c, ops, A, tr + [s'], acts + [a])
  {
    hide Step, Init, Shape;
    assert (tr + [s'])[..|tr|] == tr && (acts + [a])[..|acts|] == acts;
  }
}
