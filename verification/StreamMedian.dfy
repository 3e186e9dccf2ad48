/**
 pkmedian of apps/streamcluster/streamcluster.cpp, lines 1481-1629, from the raw points to the returned
 cost.  Random numbers, shuffles and the orders in which points are tried are parameters; a run may be
 cut off after any number of tries.
 */
module StreamMedian {
  import opened RealSum
  import opened StreamSpec
  import opened StreamBlocks
  import opened StreamSpeedy
  import opened StreamFL
  import PowerOfTwo

  const SP := 1

  /** One call of pspeedy: the order the points are shuffled into before it, and its random numbers. */
  datatype Try = Try(perm: seq<nat>, coins: seq<real>)

  ghost predicate TryOk(n: nat, t: Try)
  {
    && |t.perm| == n && (forall i :: 0 <= i < n ==> t.perm[i] < n)
    && (forall i, j :: 0 <= i < j < n ==> t.perm[i] != t.perm[j])
    && |t.coins| == n && forall i :: 0 <= i < n ==> t.coins[i] >= 0.0
  }

  /** shuffle: the same points in another order. */
  function Shuffled(p: Points, perm: seq<nat>): (q: Points)
    requires |perm| == |p.w| && forall i :: 0 <= i < |perm| ==> perm[i] < |p.w|
    ensures |q.w| == |p.w|
  {
    Points(seq(|perm|, i requires 0 <= i < |perm| => p.w[perm[i]]),
           (i: int, j: int) => if 0 <= i < |perm| && 0 <= j < |perm| then p.d(perm[i], perm[j]) else 0.0)
  }

  /** q holds the points of p in the order perm, each once. */
  ghost predicate SamePoints(p: Points, q: Points, perm: seq<nat>)
  {
    && |q.w| == |p.w| == |perm| && (forall i :: 0 <= i < |perm| ==> perm[i] < |perm|)
    && (forall i, j :: 0 <= i < j < |perm| ==> perm[i] != perm[j])
    && (forall i :: 0 <= i < |perm| ==> q.w[i] == p.w[perm[i]])
    && forall i, j :: 0 <= i < |perm| && 0 <= j < |perm| ==> q.d(i, j) == p.d(perm[i], perm[j])
  }

  lemma FirstShuffle(p: Points, t: Try)
    requires TryOk(|p.w|, t)
    ensures SamePoints(p, Shuffled(p, t.perm), t.perm)
  {
  }

  lemma ShuffledAgain(p: Points, q: Points, perm: seq<nat>, t: Try) returns (r: seq<nat>)
    requires SamePoints(p, q, perm) && TryOk(|p.w|, t)
    ensures SamePoints(p, Shuffled(q, t.perm), r)
  {
    r := seq(|perm|, i requires 0 <= i < |perm| => perm[t.perm[i]]);
    var s := Shuffled(q, t.perm);
    forall i, j | 0 <= i < |perm| && 0 <= j < |perm| ensures s.d(i, j) == p.d(r[i], r[j]) {
      assert s.d(i, j) == q.d(t.perm[i], t.perm[j]);
    }
  }

  lemma ShuffledOk(p: Points, t: Try)
    requires Metric(p) && Symmetric(p) && TryOk(|p.w|, t)
    ensures Metric(Shuffled(p, t.perm)) && Symmetric(Shuffled(p, t.perm))
  {
    var q := Shuffled(p, t.perm);
    forall i, j | 0 <= i < |p.w| && 0 <= j < |p.w| ensures q.d(i, j) == p.d(t.perm[i], t.perm[j]) { }
    hide Shuffled;
  }

  ghost function FromFirst(p: Points): int -> real
  {
    i => if 0 <= i < |p.w| then p.Serve(i, 0) else 0.0
  }

  method FirstCostOf(p: Points, lo: nat, hi: nat) returns (mine: real)
    requires lo <= hi <= |p.w|
    ensures mine == Sum(FromFirst(p), lo, hi)
  {
    mine := 0.0;
    var k := lo;
    while k < hi
      invariant lo <= k <= hi && mine == Sum(FromFirst(p), lo, k)
    {
      mine := mine + p.Serve(k, 0);
      k := k + 1;
    }
  }

  /** Lines 1508-1524: the cost of serving everybody from the first point, block by block. */
  method FirstCost(p: Points, P: nat) returns (hiz: real)
    requires P >= 1
    ensures hiz == Sum(FromFirst(p), 0, |p.w|)
  {
    var n := |p.w|;
    hiz := 0.0;
    var q := 0;
    while q < P
      invariant 0 <= q <= P && hiz == BlockSums(FromFirst(p), n, P, q)
    {
      BlockBounds(n, P, q);
      var mine := FirstCostOf(p, Lo(n, P, q), Hi(n, P, q));
      hiz := hiz + mine;
      q := q + 1;
    }
    BlockSumsAre(FromFirst(p), n, P, P);
  }

  /** What pspeedy leaves for the centre cost z and its random numbers. */
  ghost predicate Opened(p: Points, coins: seq<real>, isOpen: seq<bool>, a: seq<nat>, c: seq<real>, k: int, z: real,
                         total: real)
  {
    && Speedy(p, isOpen, a, c, k, |p.w|) && total == Total(z, Solution(a, c, isOpen, k))
    && OpensBy(p, coins, z, isOpen, |p.w|)
  }

  /** The centre cost of try t: half of hi for the first 1 + SP tries, then half as much after every SP tries. */
  ghost function TryCost(hi: real, t: nat): real
  {
    if t <= SP then hi / 2.0 else if (t - 1) % SP == 0 then TryCost(hi, t - 1) / 2.0 else TryCost(hi, t - 1)
  }

  /** With one chance per centre cost, try t >= 1 is at hi over 2^t. */
  lemma {:induction false} TryCostIs(hi: real, t: nat)
    requires t >= 1
    ensures TryCost(hi, t) * (PowerOfTwo.Pow2(t) as real) == hi
  {
    hide PowerOfTwo.Pow2;
    PowerOfTwo.Pow2Next(t - 1);
    if t == 1 {
      assert PowerOfTwo.Pow2(0) == 1 by { OneIs(); }
    } else {
      TryCostIs(hi, t - 1);
      HalfTimesTwo(TryCost(hi, t - 1), PowerOfTwo.Pow2(t - 1) as real);
    }
  }

  lemma OneIs()
    ensures PowerOfTwo.Pow2(0) == 1
  {
  }

  lemma HalfTimesTwo(a: real, b: real)
    ensures (a / 2.0) * (2.0 * b) == a * b
  {
  }

  /** Lines 1541-1557: pspeedy until there are kmin centres, lowering the centre cost when it takes too long. */
  method Speedies(p: Points, assign: array<nat>, cost: array<real>, tries: seq<Try>, hi: real, kmin: nat, P: nat)
    returns (q: Points, k: int, z: real, total: real, ghost isOpen: seq<bool>, ghost perm: seq<nat>, ghost ks: seq<int>)
    requires |p.w| >= 1 && assign.Length == cost.Length == |p.w| && hi > 0.0 && P >= 1 && Metric(p) && Symmetric(p)
    requires |tries| >= 1 && forall t :: 0 <= t < |tries| ==> TryOk(|p.w|, tries[t])
    modifies assign, cost
    ensures SamePoints(p, q, perm) && |q.w| == |p.w| && Metric(q) && 0.0 < z <= hi / 2.0
    ensures 1 <= |ks| <= |tries| && ks[|ks| - 1] == k && z == TryCost(hi, |ks| - 1)
    ensures Opened(q, tries[|ks| - 1].coins, isOpen, assign[..], cost[..], k, z, total)
    ensures (forall t :: 0 <= t < |ks| - 1 ==> ks[t] < kmin) && (k >= kmin || |ks| == |tries|)
  {
    hide Metric, Symmetric, Speedy, Total, Shuffled, SamePoints, OpensBy;
    z := hi / 2.0;
    ShuffledOk(p, tries[0]);
    FirstShuffle(p, tries[0]);
    perm := tries[0].perm;
    q := Shuffled(p, tries[0].perm);
    k, total, isOpen := Pspeedy(q, assign, cost, z, tries[0].coins, P);
    ks := [k];
    var t, i := 1, 0;
    while t < |tries| && k < kmin && i < SP
      invariant 1 <= t == |ks| <= |tries| && 0 <= i <= SP && t == i + 1 && z == TryCost(hi, t - 1) == hi / 2.0
      invariant Opened(q, tries[t - 1].coins, isOpen, assign[..], cost[..], k, z, total)
      invariant ks[t - 1] == k && forall j :: 0 <= j < t - 1 ==> ks[j] < kmin
    {
      k, total, isOpen := Pspeedy(q, assign, cost, z, tries[t].coins, P);
      ks := ks + [k];
      t, i := t + 1, i + 1;
    }
    while t < |tries| && k < kmin
      invariant 1 <= t == |ks| <= |tries| && 0.0 < z <= hi / 2.0 && z == TryCost(hi, t - 1)
      invariant t < |tries| && k < kmin ==> t > SP && 1 <= i <= SP && (i >= SP <==> (t - 1) % SP == 0)
      invariant SamePoints(p, q, perm) && |q.w| == |p.w| && Metric(q) && Symmetric(q)
      invariant Opened(q, tries[t - 1].coins, isOpen, assign[..], cost[..], k, z, total)
      invariant ks[t - 1] == k && forall j :: 0 <= j < t - 1 ==> ks[j] < kmin
    {
      if i >= SP {
        z, i := z / 2.0, 0;
      }
      ShuffledOk(q, tries[t]);
      perm := ShuffledAgain(p, q, perm, tries[t]);
      q := Shuffled(q, tries[t].perm);
      k, total, isOpen := Pspeedy(q, assign, cost, z, tries[t].coins, P);
      ks := ks + [k];
      t, i := t + 1, i + 1;
    }
  }

  /**
   pkmedian on more points than kmax: a solution of the points, in the order they end up in, in which
   every point sits at an open centre at the right cost and every centre at itself; the returned cost is
   its true total cost, whatever the threads, random numbers and orders.
   */
  method Pkmedian(p: Points, assign: array<nat>, cost: array<real>, center: array<bool>, table: array<nat>,
                  switched: array<bool>, tries: seq<Try>, rounds: seq<(seq<seq<nat>>, seq<seq<nat>>)>, kmin: nat,
                  kmax: nat, iter: nat, P: nat, line: nat)
    returns (q: Points, k: nat, z: real, total: real, ghost perm: seq<nat>, ghost start: Solution, ghost last: nat,
      ghost visits: seq<Visit>)
    requires P >= 1 && line >= 1 && kmin <= kmax < |p.w| && Metric(p) && Symmetric(p)
      && Sum(FromFirst(p), 0, |p.w|) > 0.0
    requires assign.Length == cost.Length == center.Length == table.Length == switched.Length == |p.w|
    requires center != switched && assign != table && forall i :: 0 <= i < center.Length ==> !center[i]
    requires |tries| >= 1 && forall t :: 0 <= t < |tries| ==> TryOk(|p.w|, tries[t])
    requires forall o :: o in rounds ==> Orders(p, o.0) && Orders(p, o.1)
    modifies assign, cost, center, table, switched
    ensures SamePoints(p, q, perm) && Good(q, Now(assign, cost, center, k)) && z > 0.0
    ensures total == Total(z, Now(assign, cost, center, k))
    ensures last < |tries| && (start.k >= kmin || last + 1 == |tries|)
    ensures OpensBy(q, tries[last].coins, TryCost(Sum(FromFirst(p), 0, |p.w|), last), start.center, |p.w|)
    ensures AreVisits(q, start, 2.0 * TryCost(Sum(FromFirst(p), 0, |p.w|), last), rounds, iter, kmin, kmax, visits)
    ensures Now(assign, cost, center, k) == LeftBy(start, visits)
    ensures |visits| == |rounds| || (visits != [] && Settled(visits[|visits| - 1], kmin, kmax))
  {
    hide Metric, Symmetric, Speedy, Total, Sound, SelfServing, Sum, Orders, SamePoints, OpensBy, AreVisits;
    hide Settled, TryCost;
    var hiz := FirstCost(p, P);
    var k0: int;
    ghost var isOpen;
    ghost var ks;
    q, k0, z, total, isOpen, perm, ks := Speedies(p, assign, cost, tries, hiz, kmin, P);
    MarkCentres(assign, center, q, isOpen, cost[..], k0);
    CountIsNat(q, assign[..], cost[..], center[..], k0);
    SameOrders(p, q, rounds);
    start, last := Now(assign, cost, center, k0), |ks| - 1;
    k, z, total, visits := Search(q, assign, cost, center, table, switched, rounds, 2.0 * z, k0, kmin, kmax, total,
      iter, P, line);
  }

  lemma CountIsNat(p: Points, a: seq<nat>, c: seq<real>, b: seq<bool>, k: int)
    requires Sound(p, Solution(a, c, b, k))
    ensures k >= 0
  {
  }

  lemma SameOrders(p: Points, q: Points, rounds: seq<(seq<seq<nat>>, seq<seq<nat>>)>)
    requires |q.w| == |p.w| && forall o :: o in rounds ==> Orders(p, o.0) && Orders(p, o.1)
    ensures forall o :: o in rounds ==> Orders(q, o.0) && Orders(q, o.1)
  {
  }

  /** Lines 1526-1539: with no more points than kmax every point is its own centre, at no cost. */
  method AllCentres(assign: array<nat>, cost: array<real>, P: nat) returns (total: real)
    requires assign.Length == cost.Length && P >= 1
    modifies assign, cost
    ensures total == 0.0 && forall i :: 0 <= i < assign.Length ==> assign[i] == i && cost[i] == 0.0
  {
    var n := assign.Length;
    var q := 0;
    BlockBounds(n, P, 0);
    while q < P
      invariant 0 <= q <= P
      invariant forall i :: 0 <= i < (if q < P then Lo(n, P, q) else n) ==> assign[i] == i && cost[i] == 0.0
    {
      BlockBounds(n, P, q);
      var kk := Lo(n, P, q);
      while kk < Hi(n, P, q)
        invariant Lo(n, P, q) <= kk <= Hi(n, P, q)
        invariant forall i :: 0 <= i < kk ==> assign[i] == i && cost[i] == 0.0
      {
        assign[kk], cost[kk] := kk, 0.0;
        kk := kk + 1;
      }
      q := q + 1;
    }
    total := 0.0;
  }
}
