/**
 HJM_SimPath_Forward_Blocking and serialB of apps/swaptions/HJM_SimPath_Forward_Blocking.cpp, lines
 60-165: BLOCKSIZE paths at once give exactly the paths that as many calls of HJM_SimPath_Forward give.
 */
module SwapBlocks {
  import opened RanUnif
  import opened SwapPaths
  import Arith

  /** The column that holds column j of path b. */
  function Cell(B: nat, j: nat, b: nat): nat
  {
    Arith.TimesNat(B, j);
    B * j + b
  }

  lemma CellWithin(B: nat, N: nat, j: nat, b: nat)
    requires j < N && b < B
    ensures Cell(B, j, b) < B * N
  {
    Arith.MulCommutes(B, j);
    Arith.MulCommutes(B, N);
    Arith.MulNext(j, B);
    Arith.MulCompare(j + 1, N, B);
  }

  /** No two entries share a column. */
  lemma CellApart(B: nat, j: nat, b: nat)
    requires b < B
    ensures forall j2: nat, b2: nat :: b2 < B && Cell(B, j2, b2) == Cell(B, j, b) ==> j2 == j && b2 == b
  {
    forall j2: nat, b2: nat | b2 < B && Cell(B, j2, b2) == Cell(B, j, b) ensures j2 == j && b2 == b {
      Arith.MulCommutes(B, j);
      Arith.MulCommutes(B, j2);
      Arith.DivModUnique(Cell(B, j, b), B, j, b);
      Arith.DivModUnique(Cell(B, j, b), B, j2, b2);
    }
  }

  ghost predicate Wide(m: Market, B: nat, a: array2<real>, rows: nat)
  {
    a.Length0 == rows && forall j: nat, b: nat :: j < m.N && b < B ==> Cell(B, j, b) < a.Length1
  }

  /** The uniform number of factor l at step j of a path begun in state s. */
  function Uniform(m: Market, s: Seed, j: nat, l: nat): real { Value(After(BeforeStep(m, s, j), l + 1)) }

  // ---------------------------------------------------------------------
  // Random numbers, path after path
  // ---------------------------------------------------------------------

  method DrawStep(m: Market, B: nat, randZ: array2<real>, b: nat, j: nat, seed: Seed) returns (seed': Seed)
    requires Wide(m, B, randZ, m.factors) && b < B && j < m.N
    modifies randZ
    ensures seed' == After(seed, m.factors)
    ensures forall l: nat :: l < m.factors ==> randZ[l, Cell(B, j, b)] == Value(After(seed, l + 1))
    ensures forall l: nat, c: nat :: l < m.factors && c < randZ.Length1 && c != Cell(B, j, b) ==>
      randZ[l, c] == old(randZ[l, c])
  {
    hide Value, Next;
    var at := Cell(B, j, b);
    hide Cell;
    seed' := seed;
    var l := 0;
    while l < m.factors
      invariant 0 <= l <= m.factors && seed' == After(seed, l)
      invariant forall i: nat :: i < l ==> randZ[i, at] == Value(After(seed, i + 1))
      invariant forall i: nat, c: nat :: i < m.factors && c < randZ.Length1 && c != at ==>
        randZ[i, c] == old(randZ[i, c])
    {
      var r;
      ghost var low;
      seed', r, low := Draw(seed');
      randZ[l, at] := r;
      l := l + 1;
    }
  }

  ghost predicate Drawn(m: Market, B: nat, randZ: array2<real>, b: nat, s: Seed, j: nat)
    requires Wide(m, B, randZ, m.factors) && b < B && j <= m.N
    reads randZ
  {
    forall i: nat, l: nat :: 1 <= i < j && l < m.factors ==> randZ[l, Cell(B, i, b)] == Uniform(m, s, i, l)
  }

  method DrawPath(m: Market, B: nat, randZ: array2<real>, b: nat, seed: Seed) returns (seed': Seed)
    requires m.Ok() && Wide(m, B, randZ, m.factors) && b < B
    modifies randZ
    ensures seed' == BeforeStep(m, seed, m.N) && Drawn(m, B, randZ, b, seed, m.N)
    ensures forall l: nat, i: nat, c: nat :: l < m.factors && i < m.N && c < B && c != b ==>
      randZ[l, Cell(B, i, c)] == old(randZ[l, Cell(B, i, c)])
  {
    hide Value, After, Cell;
    seed' := seed;
    var j := 1;
    while j < m.N
      invariant 1 <= j <= m.N && seed' == BeforeStep(m, seed, j) && Drawn(m, B, randZ, b, seed, j)
      invariant forall l: nat, i: nat, c: nat :: l < m.factors && i < m.N && c < B && c != b ==>
        randZ[l, Cell(B, i, c)] == old(randZ[l, Cell(B, i, c)])
    {
      CellApart(B, j, b);
      seed' := DrawStep(m, B, randZ, b, j, seed');
      j := j + 1;
    }
  }

  method DrawBlocks(m: Market, B: nat, randZ: array2<real>, seed: Seed) returns (seed': Seed)
    requires m.Ok() && Wide(m, B, randZ, m.factors)
    modifies randZ
    ensures seed' == Begins(m, seed, B)
    ensures forall b: nat :: b < B ==> Drawn(m, B, randZ, b, Begins(m, seed, b), m.N)
  {
    hide Cell, Uniform, BeforeStep;
    seed' := seed;
    var b := 0;
    while b < B
      invariant 0 <= b <= B && seed' == Begins(m, seed, b)
      invariant forall c: nat :: c < b ==> Drawn(m, B, randZ, c, Begins(m, seed, c), m.N)
    {
      label before:
      seed' := DrawPath(m, B, randZ, b, seed');
      forall c: nat | c < b ensures Drawn(m, B, randZ, c, Begins(m, seed, c), m.N) {
        assert old@before(Drawn(m, B, randZ, c, Begins(m, seed, c), m.N));
      }
      b := b + 1;
    }
  }

  // ---------------------------------------------------------------------
  // Normal shocks
  // ---------------------------------------------------------------------

  /** The shocks of path b stand in pdZ. */
  ghost predicate Shocked(m: Market, B: nat, pdZ: array2<real>, b: nat, s: Seed)
    requires Wide(m, B, pdZ, m.factors) && b < B
    reads pdZ
  {
    forall j: nat, l: nat :: 1 <= j < m.N && l < m.factors ==> pdZ[l, Cell(B, j, b)] == Shock(m, s, j, l)
  }

  /** One path of one factor. */
  method InvertPath(m: Market, B: nat, pdZ: array2<real>, randZ: array2<real>, l: nat, b: nat)
    requires m.Ok() && Wide(m, B, pdZ, m.factors) && Wide(m, B, randZ, m.factors) && pdZ != randZ && l < m.factors
      && b < B
    modifies pdZ
    ensures forall j: nat :: 1 <= j < m.N ==> pdZ[l, Cell(B, j, b)] == m.norm(randZ[l, Cell(B, j, b)])
    ensures forall f: nat, i: nat, c: nat :: f < m.factors && i < m.N && c < B && !(f == l && c == b) ==>
      pdZ[f, Cell(B, i, c)] == old(pdZ[f, Cell(B, i, c)])
  {
    hide Cell;
    var j := 1;
    while j < m.N
      invariant 1 <= j <= m.N
      invariant forall i: nat :: 1 <= i < j ==> pdZ[l, Cell(B, i, b)] == m.norm(randZ[l, Cell(B, i, b)])
      invariant forall f: nat, i: nat, c: nat :: f < m.factors && i < m.N && c < B && !(f == l && c == b) ==>
        pdZ[f, Cell(B, i, c)] == old(pdZ[f, Cell(B, i, c)])
    {
      CellApart(B, j, b);
      pdZ[l, Cell(B, j, b)] := m.norm(randZ[l, Cell(B, j, b)]);
      j := j + 1;
    }
  }

  ghost predicate Inverted(m: Market, B: nat, pdZ: array2<real>, randZ: array2<real>, l: nat, b: nat)
    requires Wide(m, B, pdZ, m.factors) && Wide(m, B, randZ, m.factors) && l < m.factors && b < B
    reads pdZ, randZ
  {
    forall j: nat :: 1 <= j < m.N ==> pdZ[l, Cell(B, j, b)] == m.norm(randZ[l, Cell(B, j, b)])
  }

  /** serialB */
  method SerialB(m: Market, B: nat, pdZ: array2<real>, randZ: array2<real>)
    requires m.Ok() && Wide(m, B, pdZ, m.factors) && Wide(m, B, randZ, m.factors) && pdZ != randZ
    modifies pdZ
    ensures forall l: nat, b: nat :: l < m.factors && b < B ==> Inverted(m, B, pdZ, randZ, l, b)
  {
    hide Cell;
    var l := 0;
    while l < m.factors
      invariant 0 <= l <= m.factors
      invariant forall f: nat, b: nat :: f < l && b < B ==> Inverted(m, B, pdZ, randZ, f, b)
    {
      var b := 0;
      while b < B
        invariant 0 <= b <= B
        invariant forall f: nat, c: nat :: (f < l && c < B) || (f == l && c < b) ==> Inverted(m, B, pdZ, randZ, f, c)
      {
        label before:
        InvertPath(m, B, pdZ, randZ, l, b);
        forall f: nat, c: nat | (f < l && c < B) || (f == l && c < b) ensures Inverted(m, B, pdZ, randZ, f, c) {
          assert old@before(Inverted(m, B, pdZ, randZ, f, c));
        }
        b := b + 1;
      }
      l := l + 1;
    }
  }

  lemma ShocksOf(m: Market, B: nat, pdZ: array2<real>, randZ: array2<real>, b: nat, s: Seed)
    requires m.Ok() && Wide(m, B, pdZ, m.factors) && Wide(m, B, randZ, m.factors) && b < B
    requires Drawn(m, B, randZ, b, s, m.N) && forall l: nat :: l < m.factors ==> Inverted(m, B, pdZ, randZ, l, b)
    ensures Shocked(m, B, pdZ, b, s)
  {
    hide Cell, Value, After, BeforeStep;
    forall j: nat, l: nat | 1 <= j < m.N && l < m.factors ensures pdZ[l, Cell(B, j, b)] == Shock(m, s, j, l) {
      assert Inverted(m, B, pdZ, randZ, l, b);
    }
  }

  // ---------------------------------------------------------------------
  // Curves
  // ---------------------------------------------------------------------

  /** Row r of path b, up to column n. */
  ghost predicate BlockCurve(m: Market, B: nat, path: array2<real>, b: nat, s: Seed, r: nat, n: nat)
    requires m.Ok() && Wide(m, B, path, m.N) && b < B && r < m.N && n <= m.N
    reads path
  {
    forall l: nat :: l < n ==> path[r, Cell(B, l, b)] == Path(m, s, r, l)
  }

  ghost predicate BlockZero(m: Market, B: nat, path: array2<real>, b: nat, r: nat)
    requires Wide(m, B, path, m.N) && b < B && r < m.N
    reads path
  {
    forall l: nat :: l < m.N ==> path[r, Cell(B, l, b)] == 0.0
  }

  method AddBlockShocks(m: Market, B: nat, pdZ: array2<real>, j: nat, l: nat, b: nat, ghost s: Seed)
    returns (total: real)
    requires m.Ok() && l < m.N - 1 && 1 <= j < m.N && Wide(m, B, pdZ, m.factors) && b < B && Shocked(m, B, pdZ, b, s)
    ensures total == TotalShock(m, s, j, l, m.factors)
  {
    hide Shock, Weighted, Cell;
    total := 0.0;
    var i := 0;
    while i < m.factors
      invariant 0 <= i <= m.factors && total == TotalShock(m, s, j, l, i)
    {
      total := total + Weighted(m.vol[i][l], pdZ[i, Cell(B, j, b)]);
      i := i + 1;
    }
  }

  /** One row of one path. */
  method MoveBlockCurve(m: Market, B: nat, path: array2<real>, pdZ: array2<real>, b: nat, j: nat, ghost s: Seed)
    requires m.Ok() && Wide(m, B, path, m.N) && Wide(m, B, pdZ, m.factors) && path != pdZ && b < B && 1 <= j < m.N
      && Shocked(m, B, pdZ, b, s)
    requires BlockCurve(m, B, path, b, s, j - 1, m.N) && BlockZero(m, B, path, b, j)
    modifies path
    ensures BlockCurve(m, B, path, b, s, j, m.N)
    ensures forall r: nat, i: nat, c: nat :: r < m.N && i < m.N && c < B && !(r == j && c == b) ==>
      path[r, Cell(B, i, c)] == old(path[r, Cell(B, i, c)])
  {
    hide Cell, TotalShock, Moved, Shocked;
    var l := 0;
    while l <= m.N - (j + 1)
      invariant 0 <= l <= m.N - j
      invariant BlockCurve(m, B, path, b, s, j, l)
      invariant forall r: nat, i: nat, c: nat :: r < m.N && i < m.N && c < B && !(r == j && c == b && i < l) ==>
        path[r, Cell(B, i, c)] == old(path[r, Cell(B, i, c)])
    {
      var total := AddBlockShocks(m, B, pdZ, j, l, b, s);
      assert old(path[j - 1, Cell(B, l + 1, b)]) == Path(m, s, j - 1, l + 1);
      CellApart(B, l, b);
      path[j, Cell(B, l, b)] := Moved(m, path[j - 1, Cell(B, l + 1, b)], l, total);
      l := l + 1;
    }
  }

  /** What the first loops leave for path b. */
  ghost predicate Fresh(m: Market, B: nat, path: array2<real>, b: nat)
    requires m.Ok() && Wide(m, B, path, m.N) && b < B
    reads path
  {
    && (forall l: nat :: l < m.N ==> path[0, Cell(B, l, b)] == m.forward[l])
    && (forall r: nat :: 1 <= r < m.N ==> BlockZero(m, B, path, b, r))
  }

  ghost predicate PathDone(m: Market, B: nat, path: array2<real>, b: nat, s: Seed)
    requires m.Ok() && Wide(m, B, path, m.N) && b < B
    reads path
  {
    forall r: nat :: r < m.N ==> BlockCurve(m, B, path, b, s, r, m.N)
  }

  /** All rows of one path. */
  method MoveBlockPath(m: Market, B: nat, path: array2<real>, pdZ: array2<real>, b: nat, ghost s: Seed)
    requires m.Ok() && Wide(m, B, path, m.N) && Wide(m, B, pdZ, m.factors) && path != pdZ && b < B
      && Shocked(m, B, pdZ, b, s) && Fresh(m, B, path, b)
    modifies path
    ensures PathDone(m, B, path, b, s)
    ensures forall r: nat, i: nat, c: nat :: r < m.N && i < m.N && c < B && c != b ==>
      path[r, Cell(B, i, c)] == old(path[r, Cell(B, i, c)])
  {
    assert BlockCurve(m, B, path, b, s, 0, m.N);
    hide Cell, TotalShock, Moved, Shocked, Path;
    var j := 1;
    while j < m.N
      invariant 1 <= j <= m.N
      invariant forall r: nat :: r < j ==> BlockCurve(m, B, path, b, s, r, m.N)
      invariant forall r: nat :: j <= r < m.N ==> BlockZero(m, B, path, b, r)
      invariant forall r: nat, i: nat, c: nat :: r < m.N && i < m.N && c < B && c != b ==>
        path[r, Cell(B, i, c)] == old(path[r, Cell(B, i, c)])
    {
      label before:
      MoveBlockCurve(m, B, path, pdZ, b, j, s);
      forall r: nat | r < j ensures BlockCurve(m, B, path, b, s, r, m.N) {
        assert old@before(BlockCurve(m, B, path, b, s, r, m.N));
      }
      forall r: nat | j < r < m.N ensures BlockZero(m, B, path, b, r) {
        assert old@before(BlockZero(m, B, path, b, r));
      }
      j := j + 1;
    }
  }

  /** All paths. */
  method MoveBlocks(m: Market, B: nat, path: array2<real>, pdZ: array2<real>, ghost s: Seed)
    requires m.Ok() && Wide(m, B, path, m.N) && Wide(m, B, pdZ, m.factors) && path != pdZ
    requires forall b: nat :: b < B ==> Shocked(m, B, pdZ, b, Begins(m, s, b)) && Fresh(m, B, path, b)
    modifies path
    ensures forall b: nat :: b < B ==> PathDone(m, B, path, b, Begins(m, s, b))
  {
    hide Cell, Shocked, Path, Begins;
    var b := 0;
    while b < B
      invariant 0 <= b <= B
      invariant forall c: nat :: c < b ==> PathDone(m, B, path, c, Begins(m, s, c))
      invariant forall c: nat :: b <= c < B ==> Fresh(m, B, path, c)
    {
      label before:
      MoveBlockPath(m, B, path, pdZ, b, Begins(m, s, b));
      forall c: nat | c < b ensures PathDone(m, B, path, c, Begins(m, s, c)) {
        assert old@before(PathDone(m, B, path, c, Begins(m, s, c)));
        forall r: nat | r < m.N ensures BlockCurve(m, B, path, c, Begins(m, s, c), r, m.N) {
          assert old@before(BlockCurve(m, B, path, c, Begins(m, s, c), r, m.N));
        }
      }
      forall c: nat | b < c < B ensures Fresh(m, B, path, c) {
        assert old@before(Fresh(m, B, path, c));
        forall r: nat | 1 <= r < m.N ensures BlockZero(m, B, path, c, r) {
          assert old@before(BlockZero(m, B, path, c, r));
        }
      }
      b := b + 1;
    }
  }

  /** The first loops, for one path. */
  method ResetPath(m: Market, B: nat, path: array2<real>, b: nat)
    requires m.Ok() && Wide(m, B, path, m.N) && b < B
    modifies path
    ensures Fresh(m, B, path, b)
    ensures forall r: nat, i: nat, c: nat :: r < m.N && i < m.N && c < B && c != b ==>
      path[r, Cell(B, i, c)] == old(path[r, Cell(B, i, c)])
  {
    hide Cell;
    var j := 0;
    while j < m.N
      invariant 0 <= j <= m.N
      invariant forall r: nat, l: nat :: r < m.N && l < j ==>
        path[r, Cell(B, l, b)] == if r == 0 then m.forward[l] else 0.0
      invariant forall r: nat, i: nat, c: nat :: r < m.N && i < m.N && c < B && c != b ==>
        path[r, Cell(B, i, c)] == old(path[r, Cell(B, i, c)])
    {
      ResetColumn(m, B, path, b, j);
      j := j + 1;
    }
  }

  method ResetColumn(m: Market, B: nat, path: array2<real>, b: nat, j: nat)
    requires m.Ok() && Wide(m, B, path, m.N) && b < B && j < m.N
    modifies path
    ensures forall r: nat, i: nat, c: nat :: r < m.N && i < m.N && c < B ==>
      path[r, Cell(B, i, c)] == if i == j && c == b then (if r == 0 then m.forward[j] else 0.0)
        else old(path[r, Cell(B, i, c)])
  {
    hide Cell;
    CellApart(B, j, b);
    path[0, Cell(B, j, b)] := m.forward[j];
    var i := 1;
    while i < m.N
      invariant 1 <= i <= m.N
      invariant forall r: nat, k: nat, c: nat :: r < m.N && k < m.N && c < B ==>
        path[r, Cell(B, k, c)] == if k == j && c == b && r < i then (if r == 0 then m.forward[j] else 0.0)
          else old(path[r, Cell(B, k, c)])
    {
      path[i, Cell(B, j, b)] := 0.0;
      i := i + 1;
    }
  }

  method ResetBlocks(m: Market, B: nat, path: array2<real>)
    requires m.Ok() && Wide(m, B, path, m.N)
    modifies path
    ensures forall b: nat :: b < B ==> Fresh(m, B, path, b)
  {
    hide Cell;
    var b := 0;
    while b < B
      invariant 0 <= b <= B
      invariant forall c: nat :: c < b ==> Fresh(m, B, path, c)
    {
      label before:
      ResetPath(m, B, path, b);
      forall c: nat | c < b ensures Fresh(m, B, path, c) {
        assert old@before(Fresh(m, B, path, c));
        forall r: nat | 1 <= r < m.N ensures BlockZero(m, B, path, c, r) {
          assert old@before(BlockZero(m, B, path, c, r));
        }
      }
      b := b + 1;
    }
  }

  /** HJM_SimPath_Forward_Blocking: path b is the path that HJM_SimPath_Forward draws after b earlier calls,
   and the generator ends where B calls leave it. */
  method SimPathForwardBlocking(m: Market, B: nat, path: array2<real>, seed: Seed) returns (seed': Seed)
    requires m.Ok() && path.Length0 == m.N && path.Length1 == B * m.N
    modifies path
    ensures seed' == Begins(m, seed, B)
    ensures Wide(m, B, path, m.N) && forall b: nat :: b < B ==> PathDone(m, B, path, b, Begins(m, seed, b))
  {
    Arith.TimesNat(B, m.N);
    forall j: nat, b: nat | j < m.N && b < B ensures Cell(B, j, b) < B * m.N { CellWithin(B, m.N, j, b); }
    hide Cell, Begins, Drawn, Inverted, Shocked, Fresh, PathDone;
    var pdZ := new real[m.factors, B * m.N];
    var randZ := new real[m.factors, B * m.N];
    ResetBlocks(m, B, path);
    seed' := DrawBlocks(m, B, randZ, seed);
    SerialB(m, B, pdZ, randZ);
    forall b: nat | b < B ensures Shocked(m, B, pdZ, b, Begins(m, seed, b)) {
      ShocksOf(m, B, pdZ, randZ, b, Begins(m, seed, b));
    }
    MoveBlocks(m, B, path, pdZ, seed);
  }

  /** A call of HJM_SimPath_Forward leaves the generator where the next path begins. */
  lemma {:induction false} SeriesOfCalls(m: Market, s: Seed, b: nat, c: nat)
    ensures Begins(m, Begins(m, s, b), c) == Begins(m, s, b + c)
  {
    hide BeforeStep;
    if c > 0 { SeriesOfCalls(m, s, b, c - 1); }
  }
}
