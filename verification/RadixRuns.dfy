/**
 Runs of the radix sort exist: every scatter and every pass can be carried on to its end, and so for all keys and
 every power-of-two number of processors there is a run of slave_sort of any number of passes.
 */
module RadixRuns {
  import opened StableRank
  import opened RadixPasses
  import opened RadixSort
  import PT = PrefixTree
  import Progress = PrefixProgress

  // ---------------------------------------------------------------------
  // The scatter
  // ---------------------------------------------------------------------

  /** Keys that the first n processors have still to place. */
  ghost function ToPlace(w: Work, s: RadixSort.Progress, n: nat): int
    requires w.Valid() && ShapeOk(w, s) && n <= w.P()
  {
    if n == 0 then 0 else ToPlace(w, s, n - 1) + w.part[n] - s.idx[n - 1]
  }

  lemma {:induction false} PlaceLess(w: Work, s: RadixSort.Progress, s': RadixSort.Progress, p: nat, n: nat)
    requires w.Valid() && ShapeOk(w, s) && ShapeOk(w, s') && n <= w.P() && p < w.P()
    requires s'.idx == s.idx[p := s.idx[p] + 1]
    ensures ToPlace(w, s', n) == ToPlace(w, s, n) - if p < n then 1 else 0
  {
    if n > 0 { PlaceLess(w, s, s', p, n - 1); }
  }

  lemma {:induction false} PlaceIsNat(w: Work, s: RadixSort.Progress, n: nat)
    requires w.Valid() && Inv(w, s) && n <= w.P()
    ensures ToPlace(w, s, n) >= 0
  {
    if n > 0 {
      PlaceIsNat(w, s, n - 1);
      assert ProcOk(w, s, n - 1);
    }
  }

  /** Until all keys are placed some processor can place one. */
  lemma ScatterMoves(w: Work, s: RadixSort.Progress) returns (p: nat, s': RadixSort.Progress)
    requires w.Valid() && Inv(w, s) && !AllPlaced(w, s)
    ensures Step(w, s, s', p) && ShapeOk(w, s') && p < w.P() && s'.idx == s.idx[p := s.idx[p] + 1]
  {
    var q :| 0 <= q < w.P() && s.idx[q] != w.part[q + 1];
    p := q;
    assert ProcOk(w, s, p);
    SlotIsRank(w, s, p);
    var i := s.idx[p];
    var d := w.ds[i];
    s' := RadixSort.Progress(s.to[s.rankFf[p][d] := w.from[i]], s.idx[p := i + 1],
                             s.rankFf[p := s.rankFf[p][d := s.rankFf[p][d] + 1]]);
  }

  /** Every scatter can be carried on until all keys are placed. */
  lemma {:induction false} ScatterCanFinish(w: Work, tr: seq<RadixSort.Progress>) returns (tr': seq<RadixSort.Progress>)
    requires w.Valid() && Trace(w, tr) && Start(w, tr[0])
    ensures Trace(w, tr') && tr <= tr' && AllPlaced(w, tr'[|tr'| - 1])
    decreases if ShapeOk(w, tr[|tr| - 1]) then ToPlace(w, tr[|tr| - 1], w.P()) else 0
  {
    hide Inv, Next, Start, Step, AllPlaced, ToPlace;
    var s := tr[|tr| - 1];
    TraceKeeps(w, tr, |tr| - 1);
    InvShape(w, s);
    PlaceIsNat(w, s, w.P());
    if AllPlaced(w, s) {
      tr' := tr;
    } else {
      var p, s' := ScatterMoves(w, s);
      PlaceLess(w, s, s', p, w.P());
      StepKeeps(w, s, s', p);
      PlaceIsNat(w, s', w.P());
      TraceGrows(w, tr, s', p);
      tr' := ScatterCanFinish(w, tr + [s']);
    }
  }

  lemma InvShape(w: Work, s: RadixSort.Progress)
    requires w.Valid() && Inv(w, s)
    ensures ShapeOk(w, s)
  {
  }

  lemma TraceGrows(w: Work, tr: seq<RadixSort.Progress>, s': RadixSort.Progress, p: nat)
    requires w.Valid() && Trace(w, tr) && Step(w, tr[|tr| - 1], s', p)
    ensures Trace(w, tr + [s'])
  {
    hide Step;
    var longer := tr + [s'];
    forall k | 0 <= k < |longer| - 1 ensures Next(w, longer[k], longer[k + 1]) {
      if k < |tr| - 1 { assert Next(w, tr[k], tr[k + 1]); } else { assert Step(w, longer[k], longer[k + 1], p); }
    }
  }

  // ---------------------------------------------------------------------
  // A pass
  // ---------------------------------------------------------------------

  /** Every processor is about to enter the tree, whose semaphores are at zero. */
  ghost predicate TreeReady(c: Config, s: PT.State)
  {
    TreeClear(c, s) && forall p :: 0 <= p < |s.procs| ==> s.procs[p].pc == PT.UpLeaf
  }

  lemma TreeRuns(c: Config, w: Work, tree0: PT.State) returns (tree: seq<PT.State>)
    requires w.Valid() && w.P() == c.P() && w.radix == c.Radix() && TreeReady(c, tree0)
    ensures var inp := TreeInput(c, w);
      && PT.Run(inp, tree) && tree[0] == tree0 && PT.Finished(inp, PT.Last(tree))
      && forall p: nat :: p < c.P() ==> PT.RanksFor(inp, p, PT.Last(tree).procs[p].rankFf)
  {
    var inp := TreeInput(c, w);
    assert PT.Run(inp, [tree0]);
    hide PT.Run, PT.RanksFor, TreeInput;
    tree := Progress.EveryRunCanFinish(inp, [tree0]);
    assert [tree0][0] == tree0;
    PT.EveryRunRanks(inp, tree);
  }

  lemma ScatterStarts(c: Config, w: Work, old_: seq<nat>, ff: seq<seq<int>>) returns (s: RadixSort.Progress)
    requires w.Valid() && w.P() == c.P() && w.radix == c.Radix() && |old_| == |w.from| && |ff| == w.P()
    requires forall p: nat :: p < c.P() ==> PT.RanksFor(TreeInput(c, w), p, ff[p])
    ensures Start(w, s) && s.to == old_ && s.rankFf == ff
  {
    hide PT.RanksFor, TreeInput, NextPlace;
    s := RadixSort.Progress(old_, seq(w.P(), p requires 0 <= p < w.P() => w.part[p]), ff);
    forall p: nat | p < w.P()
      ensures w.part[p] <= |w.ds| && |ff[p]| == w.radix
        && forall d: nat :: d < w.radix ==> ff[p][d] == NextPlace(w, d, w.part[p])
    {
      TreeGivesStart(c, w, p, ff[p]);
    }
  }

  /** Every pass can be run, whatever the keys and whatever the other buffer holds. */
  lemma PassCanRun(c: Config, keys: seq<nat>, t: nat, old_: seq<nat>, tree0: PT.State) returns (r: Pass)
    requires |old_| == |keys| && TreeReady(c, tree0)
    ensures PassRuns(c, keys, t, old_, r) && r.tree[0] == tree0
  {
    var w := PassWork(c, keys, t);
    var inp := TreeInput(c, w);
    hide PassWork, TreeInput, PT.RanksFor, Start, AllPlaced, Next, PT.Next, PT.Init;
    var tree := TreeRuns(c, w, tree0);
    var ff := seq(c.P(), p requires 0 <= p < c.P() => PT.Last(tree).procs[p].rankFf);
    var s := ScatterStarts(c, w, old_, ff);
    assert Trace(w, [s]);
    var scatter := ScatterCanFinish(w, [s]);
    assert [s][0] == s;
    r := Pass(tree, scatter);
    StartIs(w, s);
  }

  lemma StartIs(w: Work, s: RadixSort.Progress)
    requires w.Valid() && Start(w, s)
    ensures ShapeOk(w, s) && forall p :: 0 <= p < w.P() ==> s.idx[p] == w.part[p]
  {
  }

  // ---------------------------------------------------------------------
  // The whole sort
  // ---------------------------------------------------------------------

  /** The tree as the next pass finds it. */
  ghost function Again(s: PT.State): (r: PT.State)
    ensures |r.procs| == |s.procs| && r.nodes == s.nodes && r.sem == s.sem
    ensures forall p :: 0 <= p < |r.procs| ==> r.procs[p].pc == PT.UpLeaf
  {
    s.(procs := seq(|s.procs|, p requires 0 <= p < |s.procs| => s.procs[p].(pc := PT.UpLeaf)))
  }

  lemma {:induction false} SortCanRun(c: Config, keys: seq<nat>, buffer: seq<nat>, tree0: PT.State, n: nat)
    returns (mem: seq<seq<seq<nat>>>, passes: seq<Pass>, next: PT.State)
    requires |buffer| == |keys| && TreeReady(c, tree0)
    ensures SortRuns(c, keys, mem, passes) && |passes| == n && TreeReady(c, next)
    ensures |mem[n]| == 2 && |mem[n][0]| == |keys| && |mem[n][1]| == |keys|
    ensures n > 0 ==> |passes[n - 1].tree| >= 1 && next == Again(PT.Last(passes[n - 1].tree))
    ensures n == 0 ==> next == tree0
    decreases n
  {
    hide PassRuns, TreeClear;
    if n == 0 {
      mem, passes, next := [[keys, buffer]], [], tree0;
    } else {
      var mem0, passes0, tree := SortCanRun(c, keys, buffer, tree0, n - 1);
      var t := n - 1;
      var from, to := mem0[t][t % 2], mem0[t][1 - t % 2];
      var r := PassCanRun(c, from, t, to, tree);
      OnePassMore(c, from, t, to, r);
      mem := mem0 + [mem0[t][1 - t % 2 := r.scatter[|r.scatter| - 1].to]];
      passes := passes0 + [r];
      next := Again(PT.Last(r.tree));
      TreeSize(c, from, t, to, r);
      ReadySize(c, tree);
      NewPass(c, mem0, passes0, mem, passes, t);
      forall u: nat | u < n ensures PassOk(c, mem, passes, u) {
        if u < t { SamePass(c, mem0, passes0, mem, passes, u); }
      }
    }
  }

  lemma ReadySize(c: Config, s: PT.State)
    requires TreeReady(c, s)
    ensures |s.procs| == c.P()
  {
  }

  lemma NewPass(c: Config, mem0: seq<seq<seq<nat>>>, passes0: seq<Pass>, mem: seq<seq<seq<nat>>>, passes: seq<Pass>,
                t: nat)
    requires |passes0| == t && |mem0| == t + 1 && |mem| == t + 2 && |passes| == t + 1
    requires mem0 <= mem && passes0 <= passes
    requires |mem0[t]| == 2 && PassRuns(c, mem0[t][t % 2], t, mem0[t][1 - t % 2], passes[t])
    requires |passes[t].tree| >= 1 && |passes[t].scatter| >= 1
    requires mem[t + 1] == mem0[t][1 - t % 2 := passes[t].scatter[|passes[t].scatter| - 1].to]
    requires TreeClear(c, passes[t].tree[0]) && |passes[t].tree[0].procs| == c.P()
    requires t > 0 ==> |passes0[t - 1].tree| >= 1 && passes[t].tree[0] == Again(PT.Last(passes0[t - 1].tree))
    ensures PassOk(c, mem, passes, t)
  {
    hide PassRuns, TreeClear;
    assert mem[t] == mem0[t];
    if t > 0 { assert passes[t - 1] == passes0[t - 1]; }
  }

  lemma TreeSize(c: Config, keys: seq<nat>, t: nat, old_: seq<nat>, r: Pass)
    requires PassRuns(c, keys, t, old_, r)
    ensures |r.tree| >= 1 && |PT.Last(r.tree).procs| == c.P()
  {
  }

  lemma SamePass(c: Config, mem0: seq<seq<seq<nat>>>, passes0: seq<Pass>, mem: seq<seq<seq<nat>>>, passes: seq<Pass>,
                 u: nat)
    requires |mem0| == |passes0| + 1 && mem0 <= mem && passes0 <= passes && |mem| == |passes| + 1 && u < |passes0|
    requires PassOk(c, mem0, passes0, u)
    ensures PassOk(c, mem, passes, u)
  {
    hide PassRuns, TreeClear;
    assert mem[u] == mem0[u] && mem[u + 1] == mem0[u + 1] && passes[u] == passes0[u];
    if u > 0 { assert passes[u - 1] == passes0[u - 1]; }
  }

  /** For all keys, every buffer and every power-of-two number of processors the sort has a run, and it sorts. */
  lemma EveryInputIsSorted(c: Config, keys: seq<nat>, buffer: seq<nat>, tree0: PT.State, digits: nat)
    returns (mem: seq<seq<seq<nat>>>, passes: seq<Pass>)
    requires |buffer| == |keys| && TreeReady(c, tree0)
    requires (forall i :: 0 <= i < |keys| ==> keys[i] <= c.maxKey) && c.maxKey < Pow(c.Radix(), digits)
    ensures SortRuns(c, keys, mem, passes) && |passes| == digits && |mem[digits]| == 2
    ensures Sorted(mem[digits][digits % 2]) && multiset(mem[digits][digits % 2]) == multiset(keys)
  {
    hide SortRuns, TreeReady, Pow;
    var next;
    mem, passes, next := SortCanRun(c, keys, buffer, tree0, digits);
    RadixSorts(c, keys, mem, passes);
  }
}
