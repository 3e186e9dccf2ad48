/**
 HJM_Drifts of apps/swaptions/HJM.cpp, lines 145-186: each drift is what is left of the convexity
 of the summed volatility after the drifts of the shorter maturities.
 */
module SwapDrifts {
  import opened RealSum

  /** Half the variance of the volatilities up to a maturity. */
  function Convexity(dt: real, total: real): real { 0.5 * dt * total * total }

  ghost function Entries(a: seq<real>): int -> real { i => if 0 <= i < |a| then a[i] else 0.0 }

  /** The drifts of one factor add up to the convexity of its summed volatility, for every maturity. */
  ghost predicate Balanced(dt: real, vol: seq<real>, drift: seq<real>, j: nat)
  {
    Sum(Entries(drift), 0, j + 1) == Convexity(dt, Sum(Entries(vol), 0, j + 1))
  }

  /** So each drift is dt times its volatility times the sum of the shorter ones and half of it. */
  lemma DriftIs(dt: real, vol: seq<real>, drift: seq<real>, j: nat)
    requires j < |vol| && j < |drift| && Balanced(dt, vol, drift, j) && (j > 0 ==> Balanced(dt, vol, drift, j - 1))
    ensures drift[j] == dt * (vol[j] * (Sum(Entries(vol), 0, j) + vol[j] / 2.0))
  {
    var a, v := Sum(Entries(vol), 0, j), vol[j];
    assert Sum(Entries(vol), 0, j + 1) == a + v;
    assert Sum(Entries(drift), 0, j + 1) == Sum(Entries(drift), 0, j) + drift[j];
    SquareOfSum(dt, a, v);
    assert Convexity(dt, 0.0) == 0.0;
  }

  lemma SquareOfSum(dt: real, a: real, v: real)
    ensures Convexity(dt, a + v) - Convexity(dt, a) == dt * (v * (a + v / 2.0))
  {
  }

  lemma SumKept(a: seq<real>, x: real)
    ensures Sum(Entries(a + [x]), 0, |a|) == Sum(Entries(a), 0, |a|)
    ensures Sum(Entries(a + [x]), 0, |a| + 1) == Sum(Entries(a), 0, |a|) + x
  {
    SumEq(Entries(a + [x]), Entries(a), 0, |a|);
  }

  lemma BalancedKept(dt: real, vol: seq<real>, drift: seq<real>, x: real, j: nat)
    requires j < |drift| && Balanced(dt, vol, drift, j)
    ensures Balanced(dt, vol, drift + [x], j)
  {
    SumEq(Entries(drift + [x]), Entries(drift), 0, j + 1);
  }

  method AddUp(a: seq<real>, n: nat) returns (r: real)
    requires n <= |a|
    ensures r == Sum(Entries(a), 0, n)
  {
    r := 0.0;
    var l := 0;
    while l < n
      invariant 0 <= l <= n && r == Sum(Entries(a), 0, l)
    {
      r := r + a[l];
      l := l + 1;
    }
  }

  /** The drifts of one factor. */
  method FactorDrifts(n: nat, dt: real, vol: seq<real>) returns (drift: seq<real>)
    requires n >= 1 && |vol| == n
    ensures |drift| == n && forall j: nat :: j < n ==> Balanced(dt, vol, drift, j)
  {
    drift := [Convexity(dt, vol[0])];
    assert Balanced(dt, vol, drift, 0) by {
      assert Sum(Entries(drift), 0, 1) == Sum(Entries(drift), 0, 0) + drift[0];
      assert Sum(Entries(vol), 0, 1) == Sum(Entries(vol), 0, 0) + vol[0];
    }
    hide Convexity;
    var j := 1;
    while j < n
      invariant 1 <= j <= n && |drift| == j
      invariant forall i: nat :: i < j ==> Balanced(dt, vol, drift, i)
    {
      var before := AddUp(drift, j);
      var dSumVol := AddUp(vol, j + 1);
      var x := -before + Convexity(dt, dSumVol);
      forall i: nat | i < j ensures Balanced(dt, vol, drift + [x], i) {
        BalancedKept(dt, vol, drift, x, i);
      }
      SumKept(drift, x);
      drift := drift + [x];
      j := j + 1;
    }
  }

  ghost function Column(drifts: seq<seq<real>>, i: int): int -> real
  {
    f => if 0 <= f < |drifts| && 0 <= i < |drifts[f]| then drifts[f][i] else 0.0
  }

  ghost function Convexities(dt: real, vols: seq<seq<real>>, j: nat): int -> real
  {
    f => if 0 <= f < |vols| then Convexity(dt, Sum(Entries(vols[f]), 0, j + 1)) else 0.0
  }

  /** HJM_Drifts: up to every maturity the total drifts add up to the convexities of all factors. */
  method TotalDrifts(n: nat, dt: real, vols: seq<seq<real>>) returns (total: seq<real>)
    requires n >= 1 && forall f :: 0 <= f < |vols| ==> |vols[f]| == n
    ensures |total| == n && forall j: nat :: j < n ==>
      Sum(Entries(total), 0, j + 1) == Sum(Convexities(dt, vols, j), 0, |vols|)
  {
    hide Convexity;
    var drifts := [];
    var i := 0;
    while i < |vols|
      invariant 0 <= i <= |vols| && |drifts| == i
      invariant forall f :: 0 <= f < i ==> |drifts[f]| == n && forall j: nat :: j < n ==>
        Balanced(dt, vols[f], drifts[f], j)
    {
      var d := FactorDrifts(n, dt, vols[i]);
      drifts := drifts + [d];
      i := i + 1;
    }
    total := [];
    i := 0;
    while i < n
      invariant 0 <= i <= n && |total| == i
      invariant forall j: nat :: j < i ==> total[j] == Sum(Column(drifts, j), 0, |drifts|)
    {
      var t := AddColumn(drifts, i, n);
      total := total + [t];
      i := i + 1;
    }
    forall j: nat | j < n ensures Sum(Entries(total), 0, j + 1) == Sum(Convexities(dt, vols, j), 0, |vols|) {
      Exchanged(drifts, total, n, j + 1);
      forall f | 0 <= f < |vols| ensures Partials(drifts, j + 1)(f) == Convexities(dt, vols, j)(f) {
        assert Balanced(dt, vols[f], drifts[f], j);
      }
      SumEq(Partials(drifts, j + 1), Convexities(dt, vols, j), 0, |vols|);
    }
  }

  method AddColumn(drifts: seq<seq<real>>, i: nat, n: nat) returns (t: real)
    requires i < n && forall f :: 0 <= f < |drifts| ==> |drifts[f]| == n
    ensures t == Sum(Column(drifts, i), 0, |drifts|)
  {
    t := 0.0;
    var j := 0;
    while j < |drifts|
      invariant 0 <= j <= |drifts| && t == Sum(Column(drifts, i), 0, j)
    {
      t := t + drifts[j][i];
      j := j + 1;
    }
  }

  ghost function Partials(drifts: seq<seq<real>>, k: nat): int -> real
  {
    f => if 0 <= f < |drifts| then Sum(Entries(drifts[f]), 0, k) else 0.0
  }

  /** Adding up by maturity or by factor is the same. */
  lemma {:induction false} Exchanged(drifts: seq<seq<real>>, total: seq<real>, n: nat, k: nat)
    requires k <= n == |total| && forall f :: 0 <= f < |drifts| ==> |drifts[f]| == n
    requires forall j: nat :: j < n ==> total[j] == Sum(Column(drifts, j), 0, |drifts|)
    ensures Sum(Entries(total), 0, k) == Sum(Partials(drifts, k), 0, |drifts|)
  {
    if k == 0 {
      SumOne(Partials(drifts, 0), 0, |drifts|, -1, 0.0);
    } else {
      Exchanged(drifts, total, n, k - 1);
      SumAdd(Partials(drifts, k - 1), Column(drifts, k - 1), Partials(drifts, k), 0, |drifts|);
    }
  }
}
