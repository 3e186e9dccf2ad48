/**
 Every run of the parallel prefix of apps/radix/radix.c, lines 596-692, comes to an end: each step of a
 processor, and the barrier, takes work away.
 */
module PrefixProgress {
  import opened PowerOfTwo
  import opened PrefixTree

  /** A bound on the steps processor p has still to take: each round of a climb halves its offset. */
  function Steps(q: Proc, p: nat): nat
  {
    match q.pc
    case UpLeaf => 7 + 4 * p
    case UpPost => 6 + p + 3 * q.offset
    case UpWait => 5 + p + 3 * q.offset
    case UpSum => 4 + p + 3 * q.offset
    case Bar4 => 5 + p
    case DownWait => 4 + p
    case DownCopy => 3 + p
    case DownPost => 2 + q.offset
    case DownSum => 1
    case Bar5 => 0
  }

  function WorkLeft(procs: seq<Proc>): nat
  {
    if procs == [] then 0 else WorkLeft(procs[..|procs| - 1]) + Steps(procs[|procs| - 1], |procs| - 1)
  }

  lemma {:induction false} WorkUpdate(procs: seq<Proc>, p: nat, q: Proc)
    requires p < |procs|
    ensures WorkLeft(procs[p := q]) == WorkLeft(procs) + Steps(q, p) - Steps(procs[p], p)
  {
    var n := |procs| - 1;
    hide Steps;
    if p < n {
      WorkUpdate(procs[..n], p, q);
      assert procs[p := q][..n] == procs[..n][p := q];
    } else {
      assert procs[p := q][..n] == procs[..n];
    }
  }

  lemma {:induction false} AllLess(procs: seq<Proc>, procs': seq<Proc>)
    requires |procs'| == |procs| && forall p :: 0 <= p < |procs| ==> Steps(procs'[p], p) < Steps(procs[p], p)
    ensures WorkLeft(procs') <= WorkLeft(procs) - |procs|
  {
    hide Steps;
    if procs != [] {
      AllLess(procs[..|procs| - 1], procs'[..|procs| - 1]);
    }
  }

  /** A processor that adds its children is in a right subtree. */
  lemma SumIsOdd(inp: Input, s: State, p: nat)
    requires inp.Valid() && Inv(inp, s) && p < inp.P()
    ensures |s.procs| == inp.P() && (s.procs[p].pc == UpSum ==> s.procs[p].offset % 2 == 1)
  {
    hide SemUp, SumsUp, SemDown, RanksDown, Copied;
    if InvUp(inp, s) {
      assert ProcUp(inp, s.procs[p], p);
    } else {
      assert ProcDown(inp, s.procs[p], p);
    }
  }

  lemma DoShrinks(inp: Input, s: State, p: nat)
    requires inp.Valid() && p < inp.P() && |s.procs| == inp.P() && Safe(inp, s, p) && Enabled(inp, s, p)
    requires s.procs[p].pc == UpSum ==> s.procs[p].offset % 2 == 1
    ensures var s' := Do(inp, s, p);
            s'.procs == s.procs[p := s'.procs[p]] && Steps(s'.procs[p], p) < Steps(s.procs[p], p)
  {
    hide MyNode, TheirNode, LeftRanks, LeftInTree, Pow2;
  }

  /** Every step of every run takes work away. */
  lemma WorkShrinks(inp: Input, s: State, s': State)
    requires inp.Valid() && Inv(inp, s) && Next(inp, s, s')
    ensures WorkLeft(s'.procs) < WorkLeft(s.procs)
  {
    if Barrier(inp, s, s') {
      BarrierShrinks(inp, s, s');
    } else {
      var p: nat :| p < inp.P() && Step(inp, s, s', p);
      hide Inv, Do, Barrier;
      SumIsOdd(inp, s, p);
      StepIsSafe(inp, s, p);
      DoShrinks(inp, s, p);
      hide Step, Safe, Enabled, Steps;
      WorkUpdate(s.procs, p, s'.procs[p]);
    }
  }

  lemma StepIsSafe(inp: Input, s: State, p: nat)
    requires inp.Valid() && Inv(inp, s) && p < inp.P() && |s.procs| == inp.P() && Enabled(inp, s, p)
    ensures Safe(inp, s, p)
  {
    hide Safe, Do;
    if InvUp(inp, s) { UpStep(inp, s, p); } else { DownStep(inp, s, p); }
  }

  lemma BarrierShrinks(inp: Input, s: State, s': State)
    requires inp.Valid() && |s.procs| == inp.P() && Barrier(inp, s, s')
    ensures WorkLeft(s'.procs) < WorkLeft(s.procs)
  {
    hide Pow2;
    AllLess(s.procs, s'.procs);
  }

  /** No run is longer than the work there is at the start. */
  lemma {:induction false} EveryRunIsShort(inp: Input, tr: seq<State>, k: nat)
    requires inp.Valid() && Run(inp, tr) && k < |tr|
    ensures k + WorkLeft(tr[k].procs) <= WorkLeft(tr[0].procs)
  {
    if k > 0 {
      EveryRunIsShort(inp, tr, k - 1);
      RunKeepsInv(inp, tr, k - 1);
      assert Next(inp, tr[k - 1], tr[k - 1 + 1]);
      hide Inv, Next, WorkLeft;
      WorkShrinks(inp, tr[k - 1], tr[k]);
    }
  }

  /** Every run can be carried on until all processors have their ranks. */
  lemma {:induction false} EveryRunCanFinish(inp: Input, tr: seq<State>) returns (tr': seq<State>)
    requires inp.Valid() && Run(inp, tr)
    ensures Run(inp, tr') && tr <= tr' && Finished(inp, Last(tr'))
    decreases WorkLeft(Last(tr).procs)
  {
    hide WorkLeft, Inv, Next, Init, Finished;
    NoDeadlock(inp, tr);
    if Finished(inp, Last(tr)) {
      tr' := tr;
    } else {
      var s' :| Next(inp, Last(tr), s');
      RunKeepsInv(inp, tr, |tr| - 1);
      WorkShrinks(inp, Last(tr), s');
      var longer := tr + [s'];
      forall k | 0 <= k < |longer| - 1 ensures Next(inp, longer[k], longer[k + 1]) {
        if k < |tr| - 1 { assert Next(inp, tr[k], tr[k + 1]); }
      }
      tr' := EveryRunCanFinish(inp, longer);
    }
  }
}
