/**
 The parallel radix sort of apps/radix/radix.c: the scatter of one pass in any
 interleaving, and whole runs of slave_sort, pass after pass, on P = 2^lg
 processors with radix 2^k.
 */
module RadixSort {
  import opened PowerOfTwo
  import opened Arith
  import opened StableRank
  import opened RadixPasses
  import BitDigits
  import PT = PrefixTree

  // ---------------------------------------------------------------------
  // The scatter, lines 709-715
  // ---------------------------------------------------------------------

  /** Keys and their digits, and the slice [part[p], part[p+1]) of each processor. */
  datatype Work = Work(from: seq<nat>, ds: seq<nat>, radix: nat, part: seq<nat>)
  {
    ghost predicate Valid() {
      && |ds| == |from| && |part| >= 2
      && (forall i :: 0 <= i < |ds| ==> ds[i] < radix)
      && part[0] == 0 && part[|part| - 1] == |from|
      && (forall p, q :: 0 <= p <= q < |part| ==> part[p] <= part[q])
    }

    function P(): int { |part| - 1 }
  }

  datatype Progress = Progress(to: seq<nat>, idx: seq<nat>, rankFf: seq<seq<int>>)

  /** The first free place for digit d once the keys before index hi have been placed. */
  ghost function NextPlace(w: Work, d: nat, hi: nat): nat
    requires hi <= |w.ds|
  {
    CountLt(w.ds, d, 0, |w.ds|) + CountEq(w.ds, d, 0, hi)
  }

  ghost predicate ShapeOk(w: Work, s: Progress)
    requires w.Valid()
  {
    && |s.to| == |w.from| && |s.idx| == w.P() && |s.rankFf| == w.P()
    && (forall p :: 0 <= p < w.P() ==> |s.rankFf[p]| == w.radix)
  }

  ghost predicate Start(w: Work, s: Progress)
    requires w.Valid()
  {
    && ShapeOk(w, s)
    && (forall p :: 0 <= p < w.P() ==> s.idx[p] == w.part[p])
    && (forall p, d: nat :: 0 <= p < w.P() && d < w.radix ==> s.rankFf[p][d] == NextPlace(w, d, w.part[p]))
  }

  ghost predicate CanStep(w: Work, s: Progress, p: nat)
    requires w.Valid()
  {
    ShapeOk(w, s) && p < w.P() && s.idx[p] < w.part[p + 1]
  }

  /** Where processor p is about to write. */
  ghost function Slot(w: Work, s: Progress, p: nat): int
    requires w.Valid() && CanStep(w, s, p) && s.idx[p] < |w.ds|
  {
    s.rankFf[p][w.ds[s.idx[p]]]
  }

  /** One round of the loop of processor p; a write outside the buffer may do anything. */
  ghost predicate Step(w: Work, s: Progress, s': Progress, p: nat)
    requires w.Valid()
  {
    && CanStep(w, s, p)
    && (s.idx[p] < |w.ds| && 0 <= Slot(w, s, p) < |s.to| ==>
          var i := s.idx[p];
          var d := w.ds[i];
          s' == Progress(s.to[s.rankFf[p][d] := w.from[i]], s.idx[p := i + 1],
                         s.rankFf[p := s.rankFf[p][d := s.rankFf[p][d] + 1]]))
  }

  ghost predicate ProcOk(w: Work, s: Progress, p: nat)
    requires w.Valid() && ShapeOk(w, s) && p < w.P()
  {
    && w.part[p] <= s.idx[p] <= w.part[p + 1] <= |w.ds|
    && (forall d: nat :: d < w.radix ==> s.rankFf[p][d] == NextPlace(w, d, s.idx[p]))
    && (forall i: nat :: w.part[p] <= i < s.idx[p] ==> Rank(w.ds, i) < |s.to| && s.to[Rank(w.ds, i)] == w.from[i])
  }

  ghost predicate Inv(w: Work, s: Progress)
    requires w.Valid()
  {
    ShapeOk(w, s) && forall p: nat :: p < w.P() ==> ProcOk(w, s, p)
  }

  lemma StartOk(w: Work, s: Progress)
    requires w.Valid() && Start(w, s)
    ensures Inv(w, s)
  {
  }

  /** The slot a processor writes next is the stable rank of its key. */
  lemma SlotIsRank(w: Work, s: Progress, p: nat)
    requires w.Valid() && Inv(w, s) && CanStep(w, s, p)
    ensures s.idx[p] < |w.ds| && Slot(w, s, p) == Rank(w.ds, s.idx[p]) < |s.to|
  {
    assert ProcOk(w, s, p);
    RankBound(w.ds, s.idx[p]);
  }

  /** No two processors ever write the same slot, and no slot is written twice. */
  lemma SlotsApart(w: Work, s: Progress, p: nat, q: nat)
    requires w.Valid() && Inv(w, s) && CanStep(w, s, p) && q < w.P()
    ensures s.idx[p] < |w.ds|
    ensures p != q && CanStep(w, s, q) ==> s.idx[q] < |w.ds| && Slot(w, s, p) != Slot(w, s, q)
    ensures forall i: nat :: w.part[q] <= i < s.idx[q] ==> i < |w.ds| && Slot(w, s, p) != Rank(w.ds, i)
  {
    assert ProcOk(w, s, p) && ProcOk(w, s, q);
    hide ProcOk;
    hide Inv;
    SlotIsRank(w, s, p);
    hide Slot;
    if p != q && CanStep(w, s, q) {
      SlotIsRank(w, s, q);
      SlicesApart(w, s.idx[p], s.idx[q], p, q);
      RankOrder(w.ds, s.idx[p], s.idx[q]);
    }
    forall i: nat | w.part[q] <= i < s.idx[q] ensures i < |w.ds| && Slot(w, s, p) != Rank(w.ds, i) {
      if p != q { SlicesApart(w, s.idx[p], i, p, q); }
      RankOrder(w.ds, s.idx[p], i);
    }
  }

  lemma SlicesApart(w: Work, i: nat, j: nat, p: nat, q: nat)
    requires w.Valid() && p < w.P() && q < w.P() && p != q
    requires w.part[p] <= i < w.part[p + 1] && w.part[q] <= j < w.part[q + 1]
    ensures i != j
  {
    if p < q { assert w.part[p + 1] <= w.part[q]; } else { assert w.part[q + 1] <= w.part[p]; }
  }

  lemma StepKeeps(w: Work, s: Progress, s': Progress, p: nat)
    requires w.Valid() && Inv(w, s) && Step(w, s, s', p)
    ensures Inv(w, s')
  {
    SlotIsRank(w, s, p);
    var i := s.idx[p];
    forall q: nat | q < w.P() ensures ProcOk(w, s', q) {
      assert ProcOk(w, s, q);
      StepProc(w, s, s', p, q);
    }
  }

  lemma StepProc(w: Work, s: Progress, s': Progress, p: nat, q: nat)
    requires w.Valid() && CanStep(w, s, p) && Step(w, s, s', p) && ProcOk(w, s, p) && q < w.P() && ProcOk(w, s, q)
    requires s.idx[p] < |w.ds| && Slot(w, s, p) == Rank(w.ds, s.idx[p]) < |s.to|
    requires ShapeOk(w, s')
    ensures ProcOk(w, s', q)
  {
    var j := s.idx[p];
    forall i: nat | w.part[q] <= i < s'.idx[q]
      ensures Rank(w.ds, i) < |s'.to| && s'.to[Rank(w.ds, i)] == w.from[i]
    {
      RankOrder(w.ds, i, j);
    }
  }

  ghost predicate Next(w: Work, s: Progress, s': Progress)
    requires w.Valid()
  {
    exists p: nat :: Step(w, s, s', p)
  }

  ghost predicate Trace(w: Work, tr: seq<Progress>)
    requires w.Valid()
  {
    |tr| >= 1 && forall k :: 0 <= k < |tr| - 1 ==> Next(w, tr[k], tr[k + 1])
  }

  ghost predicate AllPlaced(w: Work, s: Progress)
    requires w.Valid()
  {
    ShapeOk(w, s) && forall p :: 0 <= p < w.P() ==> s.idx[p] == w.part[p + 1]
  }

  lemma {:induction false} TraceKeeps(w: Work, tr: seq<Progress>, k: nat)
    requires w.Valid() && Trace(w, tr) && Start(w, tr[0]) && k < |tr|
    ensures Inv(w, tr[k])
  {
    if k == 0 {
      StartOk(w, tr[0]);
    } else {
      TraceKeeps(w, tr, k - 1);
      assert Next(w, tr[k - 1], tr[k - 1 + 1]);
      var p: nat :| Step(w, tr[k - 1], tr[k], p);
      StepKeeps(w, tr[k - 1], tr[k], p);
    }
  }

  lemma {:induction false} SliceOf(w: Work, i: nat, p: nat) returns (q: nat)
    requires w.Valid() && p < w.P() && i < w.part[p + 1]
    ensures q < w.P() && w.part[q] <= i < w.part[q + 1]
    decreases p
  {
    if w.part[p] <= i { q := p; } else { q := SliceOf(w, i, p - 1); }
  }

  /** However the processors interleave, the scatter is the stable pass on the digits. */
  lemma EveryScatterIsStable(w: Work, tr: seq<Progress>)
    requires w.Valid() && Trace(w, tr) && Start(w, tr[0]) && AllPlaced(w, tr[|tr| - 1])
    ensures Scattered(w.from, tr[|tr| - 1].to, w.ds)
  {
    var s := tr[|tr| - 1];
    TraceKeeps(w, tr, |tr| - 1);
    forall i: nat | i < |w.ds| ensures Rank(w.ds, i) < |s.to| && s.to[Rank(w.ds, i)] == w.from[i] {
      var q := SliceOf(w, i, w.P() - 1);
      assert ProcOk(w, s, q);
    }
  }

  // ---------------------------------------------------------------------
  // Histograms and partition
  // ---------------------------------------------------------------------

  /** Lines 559-588: mask and shift the keys of one slice, count their digits, then add the counts up. */
  method Histogram(keys: seq<nat>, k: nat, t: nat, lo: nat, hi: nat, rankMe: array<int>, density: array<int>)
    requires lo <= hi <= |keys| && rankMe.Length == Pow2(k) && density.Length == Pow2(k) && rankMe != density
    modifies rankMe, density
    ensures var ds := Digits(keys, Pow2(k), t);
      forall d :: 0 <= d < Pow2(k) ==> rankMe[d] == CountEq(ds, d, lo, hi) && density[d] == CountLt(ds, d + 1, lo, hi)
  {
    hide Pow2, BitDigits.MaskShift;
    var radix := rankMe.Length;
    ghost var ds := Digits(keys, radix, t);
    var i := 0;
    while i < radix
      invariant 0 <= i <= radix
      invariant forall d :: 0 <= d < i ==> rankMe[d] == 0
    {
      rankMe[i] := 0;
      i := i + 1;
    }
    i := lo;
    while i < hi
      invariant lo <= i <= hi
      invariant forall d :: 0 <= d < radix ==> rankMe[d] == CountEq(ds, d, lo, i)
    {
      BitDigits.MaskShiftIsDigit(keys[i], k, t);
      TimesNat(t, k);
      var myKey := BitDigits.MaskShift(keys[i], radix, t * k);
      assert myKey == ds[i];
      rankMe[myKey] := rankMe[myKey] + 1;
      i := i + 1;
    }
    CountNext(ds, 0, lo, hi);
    density[0] := rankMe[0];
    i := 1;
    while i < radix
      invariant 1 <= i <= radix
      invariant forall d :: 0 <= d < radix ==> rankMe[d] == CountEq(ds, d, lo, hi)
      invariant forall d :: 0 <= d < i ==> density[d] == CountLt(ds, d + 1, lo, hi)
    {
      CountNext(ds, i, lo, hi);
      density[i] := density[i - 1] + rankMe[i];
      i := i + 1;
    }
  }

  /** The start of slice p: the floor of p * n / P. */
  function SliceStart(n: nat, P: nat, p: nat): nat
    requires P >= 1
  {
    p * n / P
  }

  function Slices(n: nat, P: nat): (part: seq<nat>)
    requires P >= 1
    ensures |part| == P + 1 && forall p :: 0 <= p <= P ==> part[p] == SliceStart(n, P, p)
  {
    seq(P + 1, p requires 0 <= p <= P => SliceStart(n, P, p))
  }

  lemma DivOrder(a: nat, b: nat, m: nat)
    requires a <= b && m >= 1
    ensures a / m <= b / m
  {
    DivMod(a, m);
    DivMod(b, m);
    if b / m < a / m { MulGap(b / m, a / m, m); }
  }

  lemma SlicesCover(n: nat, P: nat)
    requires P >= 1
    ensures SliceStart(n, P, 0) == 0 && SliceStart(n, P, P) == n
    ensures forall p: nat, q: nat :: p <= q ==> SliceStart(n, P, p) <= SliceStart(n, P, q)
  {
    DivModUnique(P * n, P, n, 0);
    forall p: nat, q: nat | p <= q ensures SliceStart(n, P, p) <= SliceStart(n, P, q) {
      MulOrder(p, q, n);
      DivOrder(p * n, q * n, P);
    }
  }

  /** Lines 318-331: quotient and remainder are handed out so that exactly P slices result. */
  method Partition(n: nat, P: nat, part: array<int>)
    requires n >= 1 && P >= 1 && part.Length == P + 1
    modifies part
    ensures forall p :: 0 <= p <= P ==> part[p] == SliceStart(n, P, p)
  {
    hide SliceStart;
    var quotient := n / P;
    var remainder := n % P;
    var sumI, sumF := 0, 0;
    var p := 0;
    SlicesCover(n, P);
    while sumI < n
      invariant 0 <= p <= P && sumI == SliceStart(n, P, p) && Carry(n, P, p, sumI, sumF)
      invariant forall q :: 0 <= q < p ==> part[q] == SliceStart(n, P, q)
      decreases P - p
    {
      SliceNotLast(n, P, p);
      NextSlice(n, P, p, sumI, sumF);
      part[p] := sumI;
      p := p + 1;
      sumI := sumI + quotient;
      sumF := sumF + remainder;
      sumI := sumI + sumF / P;
      sumF := sumF % P;
    }
    SliceNotLast(n, P, p);
    part[p] := n;
  }

  /** p * n = sumI * P + sumF, with sumF a remainder. */
  ghost predicate Carry(n: nat, P: nat, p: nat, sumI: int, sumF: int)
  {
    p * n == sumI * P + sumF && 0 <= sumF < P
  }

  lemma SliceNotLast(n: nat, P: nat, p: nat)
    requires n >= 1 && P >= 1 && p <= P
    ensures p < P <==> SliceStart(n, P, p) < n
  {
    SlicesCover(n, P);
    if p < P {
      MulGap(p, P, n);
      DivBelow(p * n, P, n);
    }
  }

  lemma NextSlice(n: nat, P: nat, p: nat, sumI: int, sumF: int)
    requires P >= 1 && Carry(n, P, p, sumI, sumF)
    ensures var f := sumF + n % P;
      var i := sumI + n / P + f / P;
      i == SliceStart(n, P, p + 1) && Carry(n, P, p + 1, i, f % P)
  {
    DivMod(n, P);
    var f := sumF + n % P;
    DivMod(f, P);
    var i := sumI + n / P + f / P;
    MulNext(p, n);
    MulDistribute(sumI + n / P, f / P, P);
    MulDistribute(sumI, n / P, P);
    DivModUnique((p + 1) * n, P, i, f % P);
  }

  // ---------------------------------------------------------------------
  // One pass: histograms, prefix tree, scatter
  // ---------------------------------------------------------------------

  /** P = 2^lg processors, radix 2^k, keys up to maxKey. */
  datatype Config = Config(lg: nat, k: nat, maxKey: nat)
  {
    function P(): (r: nat) ensures r >= 1 { Pow2(lg) }

    function Radix(): (r: nat) ensures r >= 1 { Pow2(k) }
  }

  /** What the scatter computes from each key (lines 710-711): mask, then shift. */
  function Masked(keys: seq<nat>, k: nat, t: nat): (ds: seq<nat>)
    ensures |ds| == |keys|
  {
    TimesNat(t, k);
    seq(|keys|, i requires 0 <= i < |keys| => BitDigits.MaskShift(keys[i], Pow2(k), t * k))
  }

  lemma MaskedAreDigits(keys: seq<nat>, k: nat, t: nat)
    ensures Masked(keys, k, t) == Digits(keys, Pow2(k), t)
  {
    hide Pow2, BitDigits.MaskShift;
    TimesNat(t, k);
    forall i: nat | i < |keys| ensures Masked(keys, k, t)[i] == Digit(keys[i], Pow2(k), t) {
      BitDigits.MaskShiftIsDigit(keys[i], k, t);
    }
  }

  /** The digits of a pass are read by mask and shift. */
  ghost function PassWork(c: Config, keys: seq<nat>, t: nat): (w: Work)
    ensures w.Valid() && w.P() == c.P() && w.from == keys && w.ds == Digits(keys, c.Radix(), t) && w.radix == c.Radix()
  {
    SlicesCover(|keys|, c.P());
    MaskedAreDigits(keys, c.k, t);
    Work(keys, Masked(keys, c.k, t), c.Radix(), Slices(|keys|, c.P()))
  }

  ghost function SliceCounts(w: Work, p: nat): (v: seq<int>)
    requires w.Valid() && p < w.P()
    ensures |v| == w.radix
    ensures forall d: nat :: d < w.radix ==> v[d] == CountEq(w.ds, d, w.part[p], w.part[p + 1])
  {
    assert w.part[p + 1] <= w.part[w.P()];
    seq(w.radix, d requires 0 <= d < w.radix => CountEq(w.ds, d, w.part[p], w.part[p + 1]))
  }

  ghost function SliceDensity(w: Work, p: nat): (v: seq<int>)
    requires w.Valid() && p < w.P()
    ensures |v| == w.radix
    ensures forall d: nat :: d < w.radix ==> v[d] == CountLt(w.ds, d + 1, w.part[p], w.part[p + 1])
  {
    assert w.part[p + 1] <= w.part[w.P()];
    seq(w.radix, d requires 0 <= d < w.radix => CountLt(w.ds, d + 1, w.part[p], w.part[p + 1]))
  }

  /** What the processors bring to the prefix tree: the two results of Histogram. */
  ghost function TreeInput(c: Config, w: Work): (inp: PT.Input)
    requires w.Valid() && w.P() == c.P() && w.radix == c.Radix()
    ensures inp.Valid() && inp.lg == c.lg && inp.radix == c.Radix()
    ensures forall p: nat :: p < c.P() ==> inp.dens[p] == SliceDensity(w, p) && inp.ranks[p] == SliceCounts(w, p)
  {
    PT.Input(c.lg, c.Radix(), seq(c.P(), p requires 0 <= p < c.P() => SliceDensity(w, p)),
             seq(c.P(), p requires 0 <= p < c.P() => SliceCounts(w, p)))
  }

  /** Each processor's histogram is what it brings to the prefix tree. */
  method LocalHistogram(c: Config, keys: seq<nat>, t: nat, p: nat, keyStart: nat, keyStop: nat, rankMe: array<int>,
                        density: array<int>)
    requires p < c.P() && keyStart == SliceStart(|keys|, c.P(), p) && keyStop == SliceStart(|keys|, c.P(), p + 1)
    requires rankMe.Length == c.Radix() && density.Length == c.Radix() && rankMe != density
    modifies rankMe, density
    ensures var inp := TreeInput(c, PassWork(c, keys, t)); rankMe[..] == inp.ranks[p] && density[..] == inp.dens[p]
  {
    ghost var w := PassWork(c, keys, t);
    assert w.part[p] <= w.part[p + 1] <= |keys| && w.part[p] == keyStart && w.part[p + 1] == keyStop;
    hide PassWork, Pow2;
    Histogram(keys, c.k, t, keyStart, keyStop, rankMe, density);
    assert rankMe[..] == SliceCounts(w, p);
    assert density[..] == SliceDensity(w, p);
  }

  lemma {:induction false} RanksAddUp(c: Config, w: Work, d: nat, p: nat)
    requires w.Valid() && w.P() == c.P() && w.radix == c.Radix() && d < w.radix && p <= w.P()
    ensures w.part[p] <= |w.ds|
    ensures PT.Sum(TreeInput(c, w).ranks, d, 0, p) == CountEq(w.ds, d, 0, w.part[p])
    ensures PT.Sum(TreeInput(c, w).dens, d, 0, p) == CountLt(w.ds, d + 1, 0, w.part[p])
  {
    assert w.part[p] <= w.part[w.P()];
    if p > 0 {
      RanksAddUp(c, w, d, p - 1);
      assert w.part[p - 1] <= w.part[p];
      CountEqSplit(w.ds, d, 0, w.part[p - 1], w.part[p]);
      CountLtSplit(w.ds, d + 1, 0, w.part[p - 1], w.part[p]);
      assert TreeInput(c, w).ranks[p - 1] == SliceCounts(w, p - 1);
      assert TreeInput(c, w).dens[p - 1] == SliceDensity(w, p - 1);
    }
  }

  /** What the tree delivers is where the stable scatter has to start. */
  lemma TreeGivesStart(c: Config, w: Work, p: nat, ff: seq<int>)
    requires w.Valid() && w.P() == c.P() && w.radix == c.Radix() && p < c.P()
    requires PT.RanksFor(TreeInput(c, w), p, ff)
    ensures w.part[p] <= |w.ds| && |ff| == w.radix
    ensures forall d: nat :: d < w.radix ==> ff[d] == NextPlace(w, d, w.part[p])
  {
    assert w.part[p] <= w.part[w.P()];
    forall d: nat | d < w.radix ensures ff[d] == NextPlace(w, d, w.part[p]) {
      RanksAddUp(c, w, d, p);
      if d > 0 {
        RanksAddUp(c, w, d - 1, w.P());
      } else {
        CountNext(w.ds, 0, 0, |w.ds|);
      }
    }
  }

  /** The record of one pass: the states of the prefix tree, then those of the scatter. */
  datatype Pass = Pass(tree: seq<PT.State>, scatter: seq<Progress>)

  /** The pass on digit t reads keys and scatters into a buffer that held old. */
  ghost predicate PassRuns(c: Config, keys: seq<nat>, t: nat, old_: seq<nat>, r: Pass)
  {
    var w := PassWork(c, keys, t);
    var inp := TreeInput(c, w);
    && PT.Trace(inp, r.tree) && PT.Finished(inp, PT.Last(r.tree))
    && (forall p :: 0 <= p < |r.tree[0].procs| ==> r.tree[0].procs[p].pc == PT.UpLeaf)
    && Trace(w, r.scatter) && AllPlaced(w, r.scatter[|r.scatter| - 1])
    && r.scatter[0].to == old_ && |r.scatter[0].idx| == w.P() && |r.scatter[0].rankFf| == w.P()
    && (forall p :: 0 <= p < w.P() ==>
          r.scatter[0].idx[p] == w.part[p] && r.scatter[0].rankFf[p] == PT.Last(r.tree).procs[p].rankFf)
  }

  /** One pass, from a tree whose semaphores are at zero, is a stable pass and leaves them at zero. */
  lemma PassIsStable(c: Config, keys: seq<nat>, t: nat, old_: seq<nat>, r: Pass)
    requires PassRuns(c, keys, t, old_, r) && |old_| == |keys|
    requires PT.Init(TreeInput(c, PassWork(c, keys, t)), r.tree[0])
    ensures Scattered(keys, r.scatter[|r.scatter| - 1].to, Digits(keys, c.Radix(), t))
    ensures PT.Shape(TreeInput(c, PassWork(c, keys, t)), PT.Last(r.tree))
    ensures forall i :: 0 <= i < 2 * c.P() - 1 ==> PT.Last(r.tree).sem[i] == 0
  {
    var w := PassWork(c, keys, t);
    var inp := TreeInput(c, w);
    PT.EveryRunRanks(inp, r.tree);
    var s := r.scatter[0];
    forall p: nat | p < w.P()
      ensures |s.rankFf[p]| == w.radix && w.part[p] <= |w.ds|
        && forall d: nat :: d < w.radix ==> s.rankFf[p][d] == NextPlace(w, d, w.part[p])
    {
      TreeGivesStart(c, w, p, s.rankFf[p]);
    }
    EveryScatterIsStable(w, r.scatter);
  }

  // ---------------------------------------------------------------------
  // The whole sort
  // ---------------------------------------------------------------------

  /** A prefix tree as PAUSEINIT and the allocation leave it. */
  ghost predicate TreeClear(c: Config, s: PT.State)
  {
    && |s.procs| == c.P() && |s.nodes| >= 2 * c.P() && |s.sem| >= 2 * c.P()
    && (forall i :: 0 <= i < |s.nodes| ==> |s.nodes[i].dens| == c.Radix() && |s.nodes[i].ranks| == c.Radix())
    && (forall i :: 0 <= i < 2 * c.P() - 1 ==> s.sem[i] == 0)
  }

  /**
   A run of slave_sort.  mem[t] is key[0] and key[1] before pass t, which reads
   key[t % 2] and writes the other one; the tree is reused from pass to pass.
   */
  ghost predicate SortRuns(c: Config, keys: seq<nat>, mem: seq<seq<seq<nat>>>, passes: seq<Pass>)
  {
    && |mem| == |passes| + 1 && |mem[0]| == 2 && mem[0][0] == keys && |mem[0][1]| == |keys|
    && (forall t: nat {:trigger PassOk(c, mem, passes, t)} :: t < |passes| ==> PassOk(c, mem, passes, t))
  }

  ghost predicate PassOk(c: Config, mem: seq<seq<seq<nat>>>, passes: seq<Pass>, t: nat)
    requires t < |passes| && |mem| == |passes| + 1
  {
    && |mem[t]| == 2
    && PassRuns(c, mem[t][t % 2], t, mem[t][1 - t % 2], passes[t])
    && mem[t + 1] == mem[t][1 - t % 2 := passes[t].scatter[|passes[t].scatter| - 1].to]
    && (t == 0 ==> TreeClear(c, passes[0].tree[0]))
    && (t > 0 ==>
          && |passes[t - 1].tree| >= 1 && |passes[t].tree[0].procs| == c.P()
          && passes[t].tree[0].nodes == PT.Last(passes[t - 1].tree).nodes
          && passes[t].tree[0].sem == PT.Last(passes[t - 1].tree).sem)
  }

  /** What holds before pass t; src gives the original index of each key. */
  ghost predicate Reached(c: Config, keys: seq<nat>, mem: seq<seq<nat>>, src: seq<nat>, t: nat)
  {
    && |mem| == 2 && |mem[0]| == |keys| && |mem[1]| == |keys|
    && StablySorted(keys, mem[t % 2], src, c.Radix(), t)
    && multiset(mem[t % 2]) == multiset(keys)
  }

  lemma OnePassMore(c: Config, cur: seq<nat>, t: nat, old_: seq<nat>, r: Pass)
    requires PassRuns(c, cur, t, old_, r) && |old_| == |cur|
    requires TreeClear(c, r.tree[0])
    ensures |r.tree| >= 1 && |r.scatter| >= 1
    ensures Scattered(cur, r.scatter[|r.scatter| - 1].to, Digits(cur, c.Radix(), t))
    ensures forall s: PT.State ::
      |s.procs| == c.P() && s.nodes == PT.Last(r.tree).nodes && s.sem == PT.Last(r.tree).sem ==> TreeClear(c, s)
  {
    assert PT.Init(TreeInput(c, PassWork(c, cur, t)), r.tree[0]);
    PassIsStable(c, cur, t, old_, r);
  }

  /** Pass t: a stable pass from one buffer to the other, and a clear tree for the next pass. */
  lemma PassStep(c: Config, n: nat, mem: seq<seq<seq<nat>>>, passes: seq<Pass>, t: nat)
    requires t < |passes| && |mem| == |passes| + 1 && PassOk(c, mem, passes, t)
    requires |mem[t][0]| == n && |mem[t][1]| == n && TreeClear(c, passes[t].tree[0])
    ensures |mem[t + 1]| == 2 && |mem[t + 1][0]| == n && |mem[t + 1][1]| == n
    ensures Scattered(mem[t][t % 2], mem[t + 1][(t + 1) % 2], Digits(mem[t][t % 2], c.Radix(), t))
    ensures t + 1 < |passes| && PassOk(c, mem, passes, t + 1) ==> TreeClear(c, passes[t + 1].tree[0])
  {
    var r := passes[t];
    OnePassMore(c, mem[t][t % 2], t, mem[t][1 - t % 2], r);
    hide PassRuns;
    hide TreeClear;
    assert (t + 1) % 2 == 1 - t % 2;
  }

  lemma RunGives(c: Config, keys: seq<nat>, mem: seq<seq<seq<nat>>>, passes: seq<Pass>, t: nat)
    requires SortRuns(c, keys, mem, passes) && t <= |passes|
    ensures |mem| == |passes| + 1 && |mem[0]| == 2 && mem[0][0] == keys && |mem[0][1]| == |keys|
    ensures t < |passes| ==> PassOk(c, mem, passes, t) && |passes[t].tree| >= 1 && |mem[t]| == 2
    ensures t == 0 && t < |passes| ==> TreeClear(c, passes[t].tree[0])
  {
    hide PassRuns;
    hide TreeClear;
    if t < |passes| { PassHasTree(c, mem, passes, t); }
  }

  lemma PassHasTree(c: Config, mem: seq<seq<seq<nat>>>, passes: seq<Pass>, t: nat)
    requires t < |passes| && |mem| == |passes| + 1 && PassOk(c, mem, passes, t)
    ensures |passes[t].tree| >= 1 && |mem[t]| == 2
  {
  }

  lemma ReachedNext(c: Config, keys: seq<nat>, mem: seq<seq<nat>>, mem': seq<seq<nat>>, src: seq<nat>, t: nat)
    requires Reached(c, keys, mem, src, t)
    requires |mem'| == 2 && |mem'[0]| == |keys| && |mem'[1]| == |keys|
    requires Scattered(mem[t % 2], mem'[(t + 1) % 2], Digits(mem[t % 2], c.Radix(), t))
    ensures |src| == |keys| && Reached(c, keys, mem', SourcesAfter(src, Digits(mem[t % 2], c.Radix(), t)), t + 1)
  {
    PassSortsOneMore(keys, mem[t % 2], mem'[(t + 1) % 2], src, c.Radix(), t);
    ScatteredIsPermutation(mem[t % 2], mem'[(t + 1) % 2], Digits(mem[t % 2], c.Radix(), t));
  }

  lemma ReachedStart(c: Config, keys: seq<nat>, mem: seq<seq<nat>>)
    requires |mem| == 2 && mem[0] == keys && |mem[1]| == |keys|
    ensures Reached(c, keys, mem, seq(|keys|, i => i), 0)
  {
    StartsSorted(keys, c.Radix());
  }

  lemma ReachedSizes(c: Config, keys: seq<nat>, mem: seq<seq<nat>>, src: seq<nat>, t: nat)
    requires Reached(c, keys, mem, src, t)
    ensures |mem| == 2 && |mem[0]| == |keys| && |mem[1]| == |keys|
  {
  }

  /** After t passes the current buffer is stably sorted by the low t digits. */
  lemma {:induction false} AfterPasses(c: Config, keys: seq<nat>, mem: seq<seq<seq<nat>>>, passes: seq<Pass>, t: nat)
      returns (src: seq<nat>)
    requires SortRuns(c, keys, mem, passes) && t <= |passes|
    ensures Reached(c, keys, mem[t], src, t)
    ensures t < |passes| ==> PassOk(c, mem, passes, t) && TreeClear(c, passes[t].tree[0])
  {
    hide *;
    RunGives(c, keys, mem, passes, t);
    if t == 0 {
      ReachedStart(c, keys, mem[0]);
      src := seq(|keys|, i => i);
    } else {
      src := AfterPasses(c, keys, mem, passes, t - 1);
      ReachedSizes(c, keys, mem[t - 1], src, t - 1);
      PassStep(c, |keys|, mem, passes, t - 1);
      ReachedNext(c, keys, mem[t - 1], mem[t], src, t - 1);
      src := SourcesAfter(src, Digits(mem[t - 1][(t - 1) % 2], c.Radix(), t - 1));
    }
  }

  /**
   Every run of slave_sort on any power-of-two number of processors leaves, in
   the buffer named by global->final, a sorted permutation of the keys.
   */
  lemma RadixSorts(c: Config, keys: seq<nat>, mem: seq<seq<seq<nat>>>, passes: seq<Pass>)
    requires SortRuns(c, keys, mem, passes)
    requires forall i :: 0 <= i < |keys| ==> keys[i] <= c.maxKey
    requires c.maxKey < Pow(c.Radix(), |passes|)
    ensures |mem[|passes|]| == 2
    ensures Sorted(mem[|passes|][|passes| % 2])
    ensures multiset(mem[|passes|][|passes| % 2]) == multiset(keys)
  {
    var t := |passes|;
    var src := AfterPasses(c, keys, mem, passes, t);
    CoveredIsSorted(keys, mem[t][t % 2], src, c.Radix(), t);
  }

  /** The result does not depend on the number of processors or on the interleaving. */
  lemma {:induction false} SameForAllProcessorCounts(c: Config, mem: seq<seq<seq<nat>>>, passes: seq<Pass>, c': Config,
          mem': seq<seq<seq<nat>>>, passes': seq<Pass>, keys: seq<nat>, t: nat)
    requires SortRuns(c, keys, mem, passes) && SortRuns(c', keys, mem', passes')
    requires c.k == c'.k && t <= |passes| && t <= |passes'|
    ensures |mem[t]| == 2 && |mem'[t]| == 2 && mem[t][t % 2] == mem'[t][t % 2]
  {
    hide SortRuns;
    hide PassOk;
    hide Reached;
    hide Scattered;
    hide TreeClear;
    RunGives(c, keys, mem, passes, 0);
    RunGives(c', keys, mem', passes', 0);
    if t > 0 {
      SameForAllProcessorCounts(c, mem, passes, c', mem', passes', keys, t - 1);
      var src := AfterPasses(c, keys, mem, passes, t - 1);
      var src' := AfterPasses(c', keys, mem', passes', t - 1);
      ReachedSizes(c, keys, mem[t - 1], src, t - 1);
      ReachedSizes(c', keys, mem'[t - 1], src', t - 1);
      PassStep(c, |keys|, mem, passes, t - 1);
      PassStep(c', |keys|, mem', passes', t - 1);
      var cur := mem[t - 1][(t - 1) % 2];
      ScatteredUnique(cur, mem[t][t % 2], mem'[t][t % 2], Digits(cur, c.Radix(), t - 1));
    }
  }
}
