/**
 pspeedy of apps/streamcluster/streamcluster.cpp, lines 706-832, and the marking of the centres
 in pkmedian, lines 1567-1569.  The random numbers are a parameter; the threads run in
 any order between two barriers.
 */
module StreamSpeedy {
  import opened Threads
  import opened StreamSpec
  import opened RealSum
  import opened StreamBlocks
  import opened StreamTable
  import opened StreamGain

  /** Distances do not depend on the direction. */
  ghost predicate Symmetric(p: Points)
  {
    forall i, j :: 0 <= i < |p.w| && 0 <= j < |p.w| ==> p.d(i, j) == p.d(j, i)
  }

  // ---------------------------------------------------------------------
  // One new centre, offered to all points
  // ---------------------------------------------------------------------

  /** The assignment after centre i has been offered to every point (the first centre is taken by all). */
  ghost function Offered(p: Points, a: seq<nat>, c: seq<real>, i: nat, first: bool): (r: Solution)
    requires |a| == |c| == |p.w|
    ensures |r.assign| == |r.cost| == |p.w|
    ensures forall q :: 0 <= q < |p.w| ==> r.assign[q] == if first || p.Serve(q, i) < c[q] then i else a[q]
    ensures forall q :: 0 <= q < |p.w| ==> r.cost[q] == if first || p.Serve(q, i) < c[q] then p.Serve(q, i) else c[q]
  {
    Solution(seq(|p.w|, q requires 0 <= q < |p.w| => if first || p.Serve(q, i) < c[q] then i else a[q]),
             seq(|p.w|, q requires 0 <= q < |p.w| => if first || p.Serve(q, i) < c[q] then p.Serve(q, i) else c[q]), [],
               0)
  }

  /** Thread code: offer centre i to the points of one block. */
  method OfferBlock(p: Points, assign: array<nat>, cost: array<real>, i: nat, first: bool, lo: nat, hi: nat,
                    ghost s: Solution, ghost r: Solution)
    requires i < |p.w| && Symmetric(p) && PointsPart(s, assign[..], cost[..], |p.w|, lo, hi)
      && r == Offered(p, s.assign, s.cost, i, first)
    modifies assign, cost
    ensures PointsPart(r, assign[..], cost[..], |p.w|, lo, hi)
    ensures SameBut(old(assign[..]), assign[..], lo, hi) && SameBut(old(cost[..]), cost[..], lo, hi)
  {
    hide Offered;
    var k := lo;
    while k < hi
      invariant lo <= k <= hi
      invariant forall j :: lo <= j < k ==> assign[j] == r.assign[j] && cost[j] == r.cost[j]
      invariant forall j :: k <= j < hi ==> assign[j] == s.assign[j] && cost[j] == s.cost[j]
      invariant forall j :: 0 <= j < assign.Length && !(lo <= j < hi) ==>
        assign[j] == old(assign[j]) && cost[j] == old(cost[j])
    {
      var distance := p.d(i, k);
      assert distance * p.w[k] == p.Serve(k, i);
      if first || distance * p.w[k] < cost[k] {
        cost[k] := distance * p.w[k];
        assign[k] := i;
      }
      k := k + 1;
    }
  }

  /** The blocks of the threads still to run are as in s, the others as in r. */
  ghost predicate PointBlocks(s: Solution, r: Solution, a: seq<nat>, c: seq<real>, n: nat, P: nat, todo: set<nat>)
  {
    && (forall q: nat :: q < P && q in todo ==> PointsPart(s, a, c, n, Lo(n, P, q), Hi(n, P, q)))
    && (forall q: nat :: q < P && q !in todo ==> PointsPart(r, a, c, n, Lo(n, P, q), Hi(n, P, q)))
  }

  lemma PartKept(u: Solution, a: seq<nat>, a': seq<nat>, c: seq<real>, c': seq<real>, n: nat, P: nat, t: nat, q: nat)
    requires q < P && t < P && t != q && PointsPart(u, a, c, n, Lo(n, P, q), Hi(n, P, q))
    requires SameBut(a, a', Lo(n, P, t), Hi(n, P, t)) && SameBut(c, c', Lo(n, P, t), Hi(n, P, t))
    ensures PointsPart(u, a', c', n, Lo(n, P, q), Hi(n, P, q))
  {
    if q < t { BlocksInOrder(n, P, q, t); } else { BlocksInOrder(n, P, t, q); }
    hide Lo, Hi;
  }

  lemma PointBlocksNext(s: Solution, r: Solution, a: seq<nat>, a': seq<nat>, c: seq<real>, c': seq<real>, n: nat,
                        P: nat, todo: set<nat>, t: nat)
    requires PointBlocks(s, r, a, c, n, P, todo) && t in todo && t < P
      && PointsPart(r, a', c', n, Lo(n, P, t), Hi(n, P, t))
    requires SameBut(a, a', Lo(n, P, t), Hi(n, P, t)) && SameBut(c, c', Lo(n, P, t), Hi(n, P, t))
    ensures PointBlocks(s, r, a', c', n, P, todo - {t})
  {
    hide PointsPart, SameBut, Lo, Hi;
    forall q: nat | q < P && q in todo && q != t ensures PointsPart(s, a', c', n, Lo(n, P, q), Hi(n, P, q)) {
      PartKept(s, a, a', c, c', n, P, t, q);
    }
    forall q: nat | q < P && q !in todo ensures PointsPart(r, a', c', n, Lo(n, P, q), Hi(n, P, q)) {
      PartKept(r, a, a', c, c', n, P, t, q);
    }
  }

  lemma PointBlocksStart(s: Solution, r: Solution, n: nat, P: nat)
    requires |s.assign| == |s.cost| == n
    ensures PointBlocks(s, r, s.assign, s.cost, n, P, Pool(P))
  {
    forall q: nat | q < P ensures PointsPart(s, s.assign, s.cost, n, Lo(n, P, q), Hi(n, P, q)) {
      BlockBounds(n, P, q);
    }
    hide PointsPart;
  }

  lemma PointBlocksEnd(s: Solution, r: Solution, a: seq<nat>, c: seq<real>, n: nat, P: nat)
    requires PointBlocks(s, r, a, c, n, P, {}) && P >= 1
    ensures a == r.assign && c == r.cost
  {
    assert PointsPart(r, a, c, n, Lo(n, P, 0), Hi(n, P, 0));
    forall i | 0 <= i < n ensures a[i] == r.assign[i] && c[i] == r.cost[i] {
      BlockBounds(n, P, P - 1);
      var q := BlockOf(n, P, P - 1, i);
      assert PointsPart(r, a, c, n, Lo(n, P, q), Hi(n, P, q));
    }
  }

  /** All threads, in any order, offer centre i to their points. */
  method OfferAll(p: Points, assign: array<nat>, cost: array<real>, i: nat, first: bool, P: nat)
    requires i < |p.w| == assign.Length == cost.Length && Symmetric(p) && P >= 1
    modifies assign, cost
    ensures var r := Offered(p, old(assign[..]), old(cost[..]), i, first); assign[..] == r.assign && cost[..] == r.cost
  {
    ghost var s := Solution(assign[..], cost[..], [], 0);
    ghost var r := Offered(p, s.assign, s.cost, i, first);
    ghost var a, c := assign[..], cost[..];
    var n := assign.Length;
    hide Offered, PointsPart, PointBlocks, SameBut, Lo, Hi, Symmetric;
    PointBlocksStart(s, r, n, P);
    var todo := Pool(P);
    while todo != {}
      invariant assign[..] == a && cost[..] == c && PointBlocks(s, r, a, c, n, P, todo)
      invariant forall q: nat :: q in todo ==> q < P
    {
      var t :| t in todo;
      ghost var a0, c0 := a, c;
      PointBlocksAt(s, r, a, c, n, P, todo, t);
      OfferBlock(p, assign, cost, i, first, Lo(n, P, t), Hi(n, P, t), s, r);
      a, c := assign[..], cost[..];
      PointBlocksNext(s, r, a0, a, c0, c, n, P, todo, t);
      todo := todo - {t};
    }
    PointBlocksEnd(s, r, a, c, n, P);
  }

  lemma PointBlocksAt(s: Solution, r: Solution, a: seq<nat>, c: seq<real>, n: nat, P: nat, todo: set<nat>, t: nat)
    requires PointBlocks(s, r, a, c, n, P, todo) && t in todo && t < P
    ensures PointsPart(s, a, c, n, Lo(n, P, t), Hi(n, P, t))
  {
    hide PointsPart;
  }

  // ---------------------------------------------------------------------
  // What opening centres keeps
  // ---------------------------------------------------------------------

  /** isOpen marks the centres so far, all below upto: each point sits at its cheapest centre, each centre at itself. */
  ghost predicate Speedy(p: Points, isOpen: seq<bool>, a: seq<nat>, c: seq<real>, k: int, upto: nat)
  {
    && |isOpen| == |a| == |c| == |p.w| && k == Count(isOpen, 0, |p.w|)
    && (forall q :: 0 <= q < |p.w| ==> a[q] < |p.w| && isOpen[a[q]] && c[q] == p.Serve(q, a[q]))
    && (forall e :: 0 <= e < |p.w| && isOpen[e] ==> e < upto && a[e] == e)
    && (forall q, e :: 0 <= q < |p.w| && 0 <= e < |p.w| && isOpen[e] ==> c[q] <= p.Serve(q, e))
  }

  lemma {:induction false} CountOne(b: seq<bool>, i: nat, m: nat)
    requires i < |b| && m <= |b| && !b[i]
    ensures Count(b[i := true], 0, m) == Count(b, 0, m) + if i < m then 1 else 0
  {
    if m > 0 { CountOne(b, i, m - 1); }
  }

  /** Opening a centre at a point that pays keeps all of it, and the point becomes its own centre. */
  lemma SpeedyOpen(p: Points, isOpen: seq<bool>, a: seq<nat>, c: seq<real>, k: int, i: nat)
    requires Metric(p) && Speedy(p, isOpen, a, c, k, i) && i < |p.w| && c[i] > 0.0
    ensures var r := Offered(p, a, c, i, false); Speedy(p, isOpen[i := true], r.assign, r.cost, k + 1, i + 1)
  {
    var r := Offered(p, a, c, i, false);
    var o := isOpen[i := true];
    hide Offered, Count;
    CountOne(isOpen, i, |p.w|);
    forall e | 0 <= e < |p.w| && o[e] ensures r.assign[e] == e {
      ServeSigns(p, i, e);
      ServeSigns(p, e, e);
    }
  }

  lemma SpeedyStart(p: Points, a: seq<nat>, c: seq<real>)
    requires |p.w| >= 1 && |a| == |c| == |p.w|
    ensures var r := Offered(p, a, c, 0, true); Speedy(p, seq(|p.w|, e => e == 0), r.assign, r.cost, 1, 1)
  {
    var o := seq(|p.w|, e => e == 0);
    CountFirst(o, |p.w|);
    hide Count, Offered;
  }

  lemma {:induction false} CountFirst(o: seq<bool>, m: nat)
    requires m <= |o| && forall e :: 0 <= e < |o| ==> o[e] == (e == 0)
    ensures Count(o, 0, m) == if m == 0 then 0 else 1
  {
    if m > 0 { CountFirst(o, m - 1); }
  }

  lemma SpeedySkip(p: Points, isOpen: seq<bool>, a: seq<nat>, c: seq<real>, k: int, i: nat)
    requires Speedy(p, isOpen, a, c, k, i)
    ensures Speedy(p, isOpen, a, c, k, i + 1)
  {
    hide Count;
  }

  /** Opening needs a positive cost, whatever the random number. */
  lemma PaysToOpen(coin: real, cost: real, z: real)
    requires coin >= 0.0 && z > 0.0 && coin < cost / z
    ensures cost > 0.0
  {
  }

  /** pspeedy: an assignment of every point to its cheapest open centre, and the true cost. */
  method Pspeedy(p: Points, assign: array<nat>, cost: array<real>, z: real, coins: seq<real>, P: nat)
    returns (k: int, total: real, ghost isOpen: seq<bool>)
    requires |p.w| >= 1 && assign.Length == cost.Length == |p.w| && z > 0.0 && P >= 1 && Metric(p) && Symmetric(p)
    requires |coins| == |p.w| && forall i :: 0 <= i < |coins| ==> coins[i] >= 0.0
    modifies assign, cost
    ensures Speedy(p, isOpen, assign[..], cost[..], k, |p.w|)
    ensures total == Total(z, Solution(assign[..], cost[..], isOpen, k)) && OpensBy(p, coins, z, isOpen, |p.w|)
  {
    hide Speedy, Offered, Metric, Symmetric, Fixed, Total, Sum, CostOf, OpensBy;
    SpeedyStart(p, assign[..], cost[..]);
    OfferAll(p, assign, cost, 0, true, P);
    k := 1;
    isOpen := seq(|p.w|, e => e == 0);
    FirstOpens(p, coins, z, isOpen);
    var i := 1;
    while i < |p.w|
      invariant 1 <= i <= |p.w| == |isOpen| && Speedy(p, isOpen, assign[..], cost[..], k, i)
      invariant OpensBy(p, coins, z, isOpen, i)
    {
      OpensNext(p, coins, z, isOpen, assign[..], cost[..], k, i);
      if coins[i] < cost[i] / z {
        PaysToOpen(coins[i], cost[i], z);
        SpeedyOpen(p, isOpen, assign[..], cost[..], k, i);
        k := k + 1;
        OfferAll(p, assign, cost, i, false, P);
        isOpen := isOpen[i := true];
      } else {
        SpeedySkip(p, isOpen, assign[..], cost[..], k, i);
      }
      i := i + 1;
    }
    var mine := AddCosts(cost, P);
    total := Fixed(z, k) + mine;
    TotalIs(z, assign[..], cost[..], isOpen, k);
  }

  /** The coin lies below the cost of serving point i from e, over z. */
  ghost predicate CoinBelow(p: Points, coin: real, z: real, i: nat, e: int)
    requires i < |p.w|
  {
    coin * z < p.d(i, e) * p.w[i]
  }

  /** Point i is the first, or its coin lies below the cost of serving it from any earlier open point. */
  ghost predicate IsToOpen(p: Points, coin: real, z: real, isOpen: seq<bool>, i: nat)
    requires i < |p.w| == |isOpen|
  {
    i == 0 || forall e :: 0 <= e < i && isOpen[e] ==> CoinBelow(p, coin, z, i, e)
  }

  /** Of the first n points exactly these are open. */
  ghost predicate OpensBy(p: Points, coins: seq<real>, z: real, isOpen: seq<bool>, n: nat)
  {
    && n <= |isOpen| == |coins| == |p.w|
    && forall i: nat :: i < n ==> (isOpen[i] <==> IsToOpen(p, coins[i], z, isOpen, i))
  }

  lemma FirstOpens(p: Points, coins: seq<real>, z: real, isOpen: seq<bool>)
    requires |isOpen| == |coins| == |p.w| >= 1 && isOpen[0]
    ensures OpensBy(p, coins, z, isOpen, 1)
  {
  }

  lemma OpensNext(p: Points, coins: seq<real>, z: real, isOpen: seq<bool>, a: seq<nat>, c: seq<real>, k: int, i: nat)
    requires OpensBy(p, coins, z, isOpen, i) && Speedy(p, isOpen, a, c, k, i) && 1 <= i < |p.w| && z > 0.0
    ensures |c| == |p.w| && OpensBy(p, coins, z, if coins[i] < c[i] / z then isOpen[i := true] else isOpen, i + 1)
  {
    hide Speedy, CoinBelow;
    OpensHere(p, coins[i], z, isOpen, a, c, k, i);
    var o := if coins[i] < c[i] / z then isOpen[i := true] else isOpen;
    forall q: nat | q <= i ensures IsToOpen(p, coins[q], z, o, q) <==> IsToOpen(p, coins[q], z, isOpen, q) {
      assert forall e :: 0 <= e < q ==> o[e] == isOpen[e];
    }
  }

  lemma OpensHere(p: Points, coin: real, z: real, isOpen: seq<bool>, a: seq<nat>, c: seq<real>, k: int, i: nat)
    requires Speedy(p, isOpen, a, c, k, i) && 1 <= i < |p.w| && z > 0.0
    ensures |c| == |p.w| == |isOpen| && !isOpen[i] && (coin < c[i] / z <==> IsToOpen(p, coin, z, isOpen, i))
  {
    TimesZ(coin, c[i], z);
    hide Count;
    forall e | 0 <= e < i && isOpen[e] ensures c[i] <= p.d(i, e) * p.w[i] {
      assert c[i] <= p.Serve(i, e);
    }
    assert !CoinBelow(p, coin, z, i, a[i]) || coin * z < c[i];
  }

  lemma TimesZ(coin: real, cost: real, z: real)
    requires z > 0.0
    ensures coin < cost / z <==> coin * z < cost
  {
  }

  lemma TotalIs(z: real, a: seq<nat>, c: seq<real>, o: seq<bool>, k: int)
    ensures Total(z, Solution(a, c, o, k)) == Fixed(z, k) + Sum(CostOf(Solution([], c, [], 0)), 0, |c|)
  {
    hide Sum, Fixed;
  }

  /** Every thread adds up its block, thread 0 the results, lines 809-824. */
  method AddCosts(cost: array<real>, P: nat) returns (total: real)
    requires P >= 1
    ensures total == Sum(CostOf(Solution([], cost[..], [], 0)), 0, cost.Length)
  {
    ghost var f := CostOf(Solution([], cost[..], [], 0));
    var n := cost.Length;
    total := 0.0;
    var q := 0;
    while q < P
      invariant 0 <= q <= P && total == BlockSums(f, n, P, q)
    {
      BlockBounds(n, P, q);
      var mine := AddBlock(cost, Lo(n, P, q), Hi(n, P, q));
      total := total + mine;
      q := q + 1;
    }
    BlockSumsAre(f, n, P, P);
  }

  method AddBlock(cost: array<real>, lo: nat, hi: nat) returns (mine: real)
    requires lo <= hi <= cost.Length
    ensures mine == Sum(CostOf(Solution([], cost[..], [], 0)), lo, hi)
  {
    mine := 0.0;
    var k := lo;
    while k < hi
      invariant lo <= k <= hi && mine == Sum(CostOf(Solution([], cost[..], [], 0)), lo, k)
    {
      mine := mine + cost[k];
      k := k + 1;
    }
  }

  /** Lines 1567-1569: flags that were clear end up marking exactly the open centres. */
  method MarkCentres(assign: array<nat>, center: array<bool>, ghost p: Points, ghost isOpen: seq<bool>,
                     ghost c: seq<real>, ghost k: int)
    requires Speedy(p, isOpen, assign[..], c, k, |p.w|) && center.Length == |p.w|
      && forall i :: 0 <= i < center.Length ==> !center[i]
    modifies center
    ensures center[..] == isOpen && assign[..] == old(assign[..])
    ensures Sound(p, Solution(assign[..], c, center[..], k)) && SelfServing(p, Solution(assign[..], c, center[..], k))
  {
    hide Count;
    ghost var a := assign[..];
    var i := 0;
    while i < assign.Length
      invariant 0 <= i <= assign.Length && assign[..] == a
      invariant forall e :: 0 <= e < center.Length && center[e] ==> isOpen[e]
      invariant forall q :: 0 <= q < i ==> center[a[q]]
    {
      center[assign[i]] := true;
      i := i + 1;
    }
    forall e | 0 <= e < center.Length ensures center[e] == isOpen[e] {
      if isOpen[e] { assert a[e] == e; }
    }
  }
}
