/**
 The simulated forward-rate paths of apps/swaptions: HJM_SimPath_Forward (HJM.cpp, lines 188-238)
 draws one path; HJM_SimPath_Forward_Blocking (HJM_SimPath_Forward_Blocking.cpp, lines 60-165)
 draws BLOCKSIZE of them side by side, entry (j, l) of path b in column BLOCKSIZE * l + b of row j.
 */
module SwapPaths {
  import opened RanUnif
  import opened RealSum
  import Arith

  /** The inputs; dt and root stand for ddelt and its square root, norm for CumNormalInv. */
  datatype Market = Market(N: nat, factors: nat, forward: seq<real>, drift: seq<real>, vol: seq<seq<real>>, dt: real,
    root: real, norm: real -> real)
  {
    predicate Ok()
    {
      N >= 1 && |forward| == N && |drift| == N - 1 && |vol| == factors && forall i :: 0 <= i < factors ==>
        |vol[i]| == N - 1
    }
  }

  // ---------------------------------------------------------------------
  // One path, by the formula
  // ---------------------------------------------------------------------

  /** The state of the generator before step j >= 1 of a path begun in state s. */
  function BeforeStep(m: Market, s: Seed, j: nat): Seed
  {
    if j <= 1 then s else After(BeforeStep(m, s, j - 1), m.factors)
  }

  /** The normal shock of factor l at step j. */
  function Shock(m: Market, s: Seed, j: nat, l: nat): real { m.norm(Value(After(BeforeStep(m, s, j), l + 1))) }

  /** The shocks of the first i factors at step j, weighted for maturity l. */
  function TotalShock(m: Market, s: Seed, j: nat, l: nat, i: nat): real
    requires m.Ok() && l < m.N - 1 && i <= m.factors
  {
    if i == 0 then 0.0 else TotalShock(m, s, j, l, i - 1) + Weighted(m.vol[i - 1][l], Shock(m, s, j, i - 1))
  }

  function Weighted(v: real, z: real): real { v * z }

  /** The curve moves by drift and shock. */
  function Moved(m: Market, was: real, l: nat, shock: real): real
    requires m.Ok() && l < m.N - 1
  {
    was + m.drift[l] * m.dt + m.root * shock
  }

  /** Entry l of the curve at step j. */
  function Path(m: Market, s: Seed, j: nat, l: nat): real
    requires m.Ok() && j < m.N && l < m.N
  {
    if j == 0 then m.forward[l]
    else if l + j < m.N then Moved(m, Path(m, s, j - 1, l + 1), l, TotalShock(m, s, j, l, m.factors))
    else 0.0
  }

  // ---------------------------------------------------------------------
  // What a path is
  // ---------------------------------------------------------------------

  /** The shock of factor i at step k, drawn as number (k - 1) * factors + i + 1. */
  ghost function Drawn(m: Market, s: Seed, k: int, l: int): int -> real
  {
    i => if 0 <= i < |m.vol| && 0 <= l < |m.vol[i]| && k >= 1 && NumberOf(m, k, i) >= 0
         then m.vol[i][l] * m.norm(Value(After(s, NumberOf(m, k, i)))) else 0.0
  }

  ghost function NumberOf(m: Market, k: int, i: int): int { (k - 1) * m.factors + i + 1 }

  /** What step k adds to the entry that is at maturity l after it: the drift and all shocks. */
  ghost function Added(m: Market, s: Seed, k: int, l: int): real
  {
    if 0 <= l < |m.drift| then m.drift[l] * m.dt + m.root * Sum(Drawn(m, s, k, l), 0, m.factors) else 0.0
  }

  /** Entry (j, l) was entry (k, l + j - k) at step k. */
  ghost function AddedAlong(m: Market, s: Seed, j: int, l: int): int -> real { k => Added(m, s, k, l + j - k) }

  lemma {:induction false} AfterMore(s: Seed, a: nat, b: nat)
    ensures After(After(s, a), b) == After(s, a + b)
    decreases b
  {
    hide Next;
    if b > 0 { AfterMore(s, a, b - 1); }
  }

  lemma {:induction false} BeforeStepIs(m: Market, s: Seed, j: nat)
    requires j >= 1
    ensures (j - 1) * m.factors >= 0 && BeforeStep(m, s, j) == After(s, (j - 1) * m.factors)
  {
    hide After;
    Arith.TimesNat(j - 1, m.factors);
    if j == 1 {
      AfterNone(s);
    } else {
      BeforeStepIs(m, s, j - 1);
      AfterMore(s, (j - 2) * m.factors, m.factors);
      Arith.MulNext(j - 2, m.factors);
    }
  }

  lemma AfterNone(s: Seed)
    ensures After(s, 0) == s
  {
  }

  lemma {:induction false} TotalShockIs(m: Market, s: Seed, j: nat, l: nat, i: nat)
    requires m.Ok() && l < m.N - 1 && i <= m.factors && j >= 1
    ensures TotalShock(m, s, j, l, i) == Sum(Drawn(m, s, j, l), 0, i)
  {
    hide Value, After;
    if i > 0 {
      TotalShockIs(m, s, j, l, i - 1);
      BeforeStepIs(m, s, j);
      AfterMore(s, (j - 1) * m.factors, i);
      assert NumberOf(m, j, i - 1) == (j - 1) * m.factors + i;
    }
  }

  /** Entry (j, l) in closed form: the forward rate and what every step has added to it on its way. */
  lemma {:induction false} PathIs(m: Market, s: Seed, j: nat, l: nat)
    requires m.Ok() && l + j < m.N
    ensures Path(m, s, j, l) == m.forward[l + j] + Sum(AddedAlong(m, s, j, l), 1, j + 1)
  {
    hide TotalShock, Drawn;
    if j > 0 {
      PathIs(m, s, j - 1, l + 1);
      TotalShockIs(m, s, j, l, m.factors);
      var f, g := AddedAlong(m, s, j, l), AddedAlong(m, s, j - 1, l + 1);
      SumEq(f, g, 1, j);
      assert Sum(f, 1, j + 1) == Sum(f, 1, j) + f(j);
      assert f(j) == Added(m, s, j, l);
      MovedIs(m, s, Path(m, s, j - 1, l + 1), j, l);
      hide Moved, Added;
    }
  }

  lemma MovedIs(m: Market, s: Seed, was: real, j: nat, l: nat)
    requires m.Ok() && l < m.N - 1 && j >= 1
    requires TotalShock(m, s, j, l, m.factors) == Sum(Drawn(m, s, j, l), 0, m.factors)
    ensures Moved(m, was, l, TotalShock(m, s, j, l, m.factors)) == was + Added(m, s, j, l)
  {
    hide TotalShock, Drawn, Sum;
  }

  /** The state in which path b of a series begins. */
  function Begins(m: Market, s: Seed, b: nat): Seed
  {
    if b == 0 then s else BeforeStep(m, Begins(m, s, b - 1), m.N)
  }

  /** Every path uses factors numbers for each of its N - 1 steps. */
  lemma {:induction false} BeginsIs(m: Market, s: Seed, b: nat)
    requires m.N >= 1
    ensures b * ((m.N - 1) * m.factors) >= 0 && Begins(m, s, b) == After(s, b * ((m.N - 1) * m.factors))
  {
    hide After, BeforeStep;
    Arith.TimesNat(m.N - 1, m.factors);
    Arith.TimesNat(b, (m.N - 1) * m.factors);
    if b == 0 {
      AfterNone(s);
    } else {
      var step := (m.N - 1) * m.factors;
      BeginsIs(m, s, b - 1);
      BeforeStepIs(m, Begins(m, s, b - 1), m.N);
      Arith.MulNext(b - 1, step);
      AfterMore(s, (b - 1) * step, step);
    }
  }

  // ---------------------------------------------------------------------
  // HJM_SimPath_Forward
  // ---------------------------------------------------------------------

  method DrawShocks(m: Market, pdZ: array<real>, seed: Seed) returns (seed': Seed)
    requires pdZ.Length == m.factors
    modifies pdZ
    ensures seed' == After(seed, m.factors)
    ensures forall l: nat :: l < m.factors ==> pdZ[l] == m.norm(Value(After(seed, l + 1)))
  {
    hide Value, Next;
    seed' := seed;
    var l := 0;
    while l < m.factors
      invariant 0 <= l <= m.factors && seed' == After(seed, l)
      invariant forall i: nat :: i < l ==> pdZ[i] == m.norm(Value(After(seed, i + 1)))
    {
      var r;
      ghost var low;
      seed', r, low := Draw(seed');
      pdZ[l] := m.norm(r);
      l := l + 1;
    }
  }

  ghost predicate CurveIs(m: Market, path: array2<real>, s: Seed, r: nat)
    requires m.Ok() && path.Length0 == m.N && path.Length1 == m.N && r < m.N
    reads path
  {
    forall l: nat :: l < m.N ==> path[r, l] == Path(m, s, r, l)
  }

  /** One row: every later maturity moves one step closer. */
  method MoveCurve(m: Market, path: array2<real>, pdZ: array<real>, j: nat, ghost s: Seed)
    requires m.Ok() && path.Length0 == m.N && path.Length1 == m.N && pdZ.Length == m.factors && 1 <= j < m.N
    requires forall l: nat :: l < m.factors ==> pdZ[l] == Shock(m, s, j, l)
    requires CurveIs(m, path, s, j - 1) && forall l: nat :: l < m.N ==> path[j, l] == 0.0
    modifies path
    ensures CurveIs(m, path, s, j)
    ensures forall r: nat, l: nat :: r < m.N && l < m.N && r != j ==> path[r, l] == old(path[r, l])
  {
    hide Shock, Weighted, Moved;
    var l := 0;
    while l <= m.N - (j + 1)
      invariant 0 <= l <= m.N - j
      invariant forall c: nat :: c < l ==> path[j, c] == Path(m, s, j, c)
      invariant forall r: nat, c: nat :: r < m.N && c < m.N && !(r == j && c < l) ==> path[r, c] == old(path[r, c])
    {
      var total := AddShocks(m, pdZ, j, l, s);
      assert old(path[j - 1, l + 1]) == Path(m, s, j - 1, l + 1);
      path[j, l] := Moved(m, path[j - 1, l + 1], l, total);
      l := l + 1;
    }
  }

  method AddShocks(m: Market, pdZ: array<real>, j: nat, l: nat, ghost s: Seed) returns (total: real)
    requires m.Ok() && l < m.N - 1 && pdZ.Length == m.factors
    requires forall i: nat :: i < m.factors ==> pdZ[i] == Shock(m, s, j, i)
    ensures total == TotalShock(m, s, j, l, m.factors)
  {
    hide Shock, Weighted;
    total := 0.0;
    var i := 0;
    while i < m.factors
      invariant 0 <= i <= m.factors && total == TotalShock(m, s, j, l, i)
    {
      total := total + Weighted(m.vol[i][l], pdZ[i]);
      i := i + 1;
    }
  }

  /** The first curve above zeroes. */
  method Reset(m: Market, path: array2<real>)
    requires m.Ok() && path.Length0 == m.N && path.Length1 == m.N
    modifies path
    ensures forall r: nat, l: nat :: r < m.N && l < m.N ==> path[r, l] == if r == 0 then m.forward[l] else 0.0
  {
    var i := 0;
    while i < m.N
      invariant 0 <= i <= m.N
      invariant forall r: nat, l: nat :: r < i && l < m.N ==> path[r, l] == 0.0
    {
      var j := 0;
      while j < m.N
        invariant 0 <= j <= m.N
        invariant forall r: nat, l: nat :: (r < i && l < m.N) || (r == i && l < j) ==> path[r, l] == 0.0
      {
        path[i, j] := 0.0;
        j := j + 1;
      }
      i := i + 1;
    }
    i := 0;
    while i < m.N
      invariant 0 <= i <= m.N
      invariant forall r: nat, l: nat :: r < m.N && l < m.N ==>
        path[r, l] == if r == 0 && l < i then m.forward[l] else 0.0
    {
      path[0, i] := m.forward[i];
      i := i + 1;
    }
  }

  /** HJM_SimPath_Forward: one path, and the generator left where the next path begins. */
  method SimPathForward(m: Market, path: array2<real>, seed: Seed) returns (seed': Seed)
    requires m.Ok() && path.Length0 == m.N && path.Length1 == m.N
    modifies path
    ensures seed' == Begins(m, seed, 1)
    ensures forall j: nat, l: nat :: j < m.N && l < m.N ==> path[j, l] == Path(m, seed, j, l)
  {
    hide Path, After;
    Reset(m, path);
    assert forall l: nat :: l < m.N ==> Path(m, seed, 0, l) == m.forward[l] by { FirstCurve(m, seed); }
    var pdZ := new real[m.factors];
    seed' := seed;
    var j := 1;
    while j < m.N
      invariant 1 <= j <= m.N && seed' == BeforeStep(m, seed, j)
      invariant forall r: nat, l: nat :: r < m.N && l < m.N ==> path[r, l] == if r < j then Path(m, seed, r, l) else 0.0
    {
      seed' := DrawShocks(m, pdZ, seed');
      MoveCurve(m, path, pdZ, j, seed);
      j := j + 1;
    }
    assert Begins(m, seed, 1) == BeforeStep(m, Begins(m, seed, 0), m.N);
  }

  lemma FirstCurve(m: Market, s: Seed)
    requires m.Ok()
    ensures forall l: nat :: l < m.N ==> Path(m, s, 0, l) == m.forward[l]
  {
  }
}
