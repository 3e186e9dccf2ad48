/**
 How apps/streamcluster/streamcluster.cpp deals the points out to its threads (lines 712-715 and
 963-966): equal blocks, the last thread takes the rest.
 */
module StreamBlocks {
  import opened StreamSpec
  import opened RealSum
  import Arith

  function Lo(n: nat, P: nat, p: nat): (r: nat)
    requires p < P
  {
    Arith.MulCompare(0, p, n / P);
    (n / P) * p
  }

  function Hi(n: nat, P: nat, p: nat): (r: nat)
    requires p < P
  {
    if p == P - 1 then n else Lo(n, P, p) + n / P
  }

  lemma BlockBounds(n: nat, P: nat, p: nat)
    requires p < P
    ensures Lo(n, P, p) <= Hi(n, P, p) <= n
    ensures p == 0 ==> Lo(n, P, p) == 0
    ensures p + 1 < P ==> Hi(n, P, p) == Lo(n, P, p + 1)
  {
    var b := n / P;
    Arith.DivMod(n, P);
    Arith.MulCommutes(b, p);
    Arith.MulCommutes(b, p + 1);
    Arith.MulCommutes(b, P);
    Arith.MulNext(p, b);
    Arith.MulCompare(p, P, b);
    Arith.MulCompare(p + 1, P, b);
  }

  /** All blocks but the last hold the same number of points, the last one at least as many and fewer than P more. */
  lemma BlockSizes(n: nat, P: nat, p: nat)
    requires p < P
    ensures p + 1 < P ==> Hi(n, P, p) - Lo(n, P, p) == n / P
    ensures p + 1 == P ==> n / P <= Hi(n, P, p) - Lo(n, P, p) < n / P + P
  {
    var b := n / P;
    Arith.DivMod(n, P);
    Arith.MulCommutes(b, p);
    Arith.MulCommutes(b, P);
    Arith.MulNext(P - 1, b);
  }

  predicate InBlock(n: nat, P: nat, p: nat, i: int)
    requires p < P
  {
    Lo(n, P, p) <= i < Hi(n, P, p)
  }

  /** Later blocks start where earlier ones have ended. */
  lemma {:induction false} BlocksInOrder(n: nat, P: nat, p: nat, q: nat)
    requires p < q < P
    ensures Hi(n, P, p) <= Lo(n, P, q)
    decreases q - p
  {
    BlockBounds(n, P, q - 1);
    if p < q - 1 {
      BlocksInOrder(n, P, p, q - 1);
    }
  }

  lemma BlocksDisjoint(n: nat, P: nat, p: nat, q: nat, i: int)
    requires p < P && q < P
    ensures InBlock(n, P, p, i) && InBlock(n, P, q, i) ==> p == q
  {
    if p < q { BlocksInOrder(n, P, p, q); }
    if q < p { BlocksInOrder(n, P, q, p); }
  }

  /** The block of a point. */
  lemma {:induction false} BlockOf(n: nat, P: nat, q: nat, i: nat) returns (p: nat)
    requires q < P && i < Hi(n, P, q)
    ensures p <= q && InBlock(n, P, p, i)
  {
    if Lo(n, P, q) <= i {
      p := q;
    } else {
      BlockBounds(n, P, 0);
      BlockBounds(n, P, q - 1);
      p := BlockOf(n, P, q - 1, i);
    }
  }

  /** The sums over the first m blocks, one after the other. */
  ghost function BlockSums(f: int -> real, n: nat, P: nat, m: nat): real
    requires m <= P
  {
    if m == 0 then 0.0 else BlockSums(f, n, P, m - 1) + Sum(f, Lo(n, P, m - 1), Hi(n, P, m - 1))
  }

  /** Adding up per thread gives the sum over all points, for every number of threads. */
  lemma {:induction false} BlockSumsAre(f: int -> real, n: nat, P: nat, m: nat)
    requires 1 <= m <= P
    ensures BlockSums(f, n, P, m) == Sum(f, 0, Hi(n, P, m - 1))
  {
    BlockBounds(n, P, m - 1);
    if m > 1 {
      BlockSumsAre(f, n, P, m - 1);
      BlockBounds(n, P, m - 2);
      SumSplit(f, 0, Lo(n, P, m - 1), Hi(n, P, m - 1));
    } else {
      assert BlockSums(f, n, P, 0) == 0.0;
    }
  }

  lemma {:induction false} CountSplit(b: seq<bool>, lo: nat, mid: nat, hi: nat)
    requires lo <= mid <= hi <= |b|
    ensures Count(b, lo, hi) == Count(b, lo, mid) + Count(b, mid, hi)
  {
    if mid < hi { CountSplit(b, lo, mid, hi - 1); }
  }

  /** The number of a centre among the centres tells it from every other centre. */
  lemma RanksApart(b: seq<bool>, i: nat, j: nat)
    requires i < |b| && j < |b| && b[i] && b[j] && i != j
    ensures Count(b, 0, i) != Count(b, 0, j)
  {
    if i < j { CountSplit(b, 0, i + 1, j); } else { CountSplit(b, 0, j + 1, i); }
  }

  lemma RankBelow(b: seq<bool>, i: nat)
    requires i < |b| && b[i]
    ensures Count(b, 0, i) < Count(b, 0, |b|)
  {
    CountSplit(b, 0, i + 1, |b|);
  }
}
