/**
 Discount_Factors and Discount_Factors_Blocking of apps/swaptions/HJM.cpp, lines 309-330 and 367-406: the
 blocked form gives for every path what the plain form gives for that path alone.  e(x) stands for
 exp(-x * ddelt).
 */
module SwapDiscount {
  import opened SwapBlocks
  import opened RealSum

  /** The discount factor of step i along a path of rates. */
  ghost function Factor(e: real -> real, rate: int -> real, i: nat): real
  {
    if i == 0 then 1.0 else Times(Factor(e, rate, i - 1), e(rate(i - 1)))
  }

  function Times(a: real, b: real): real { a * b }

  /** e turns sums into products, as an exponential does. */
  ghost predicate IsExponential(e: real -> real)
  {
    e(0.0) == 1.0 && forall x: real, y: real :: e(x + y) == e(x) * e(y)
  }

  lemma OfTwo(e: real -> real, x: real, y: real)
    requires IsExponential(e)
    ensures e(x + y) == Times(e(x), e(y)) && e(0.0) == 1.0
  {
  }

  /** For an exponential the discount factor is that of the sum of the rates so far. */
  lemma {:induction false} FactorOfSum(e: real -> real, rate: int -> real, i: nat)
    requires IsExponential(e)
    ensures Factor(e, rate, i) == e(Sum(rate, 0, i))
  {
    hide IsExponential, Times;
    if i == 0 {
      OfTwo(e, 0.0, 0.0);
    } else {
      FactorOfSum(e, rate, i - 1);
      OfTwo(e, Sum(rate, 0, i - 1), rate(i - 1));
    }
  }

  lemma {:induction false} FactorEq(e: real -> real, f: int -> real, g: int -> real, i: nat)
    requires forall j :: 0 <= j < i ==> f(j) == g(j)
    ensures Factor(e, f, i) == Factor(e, g, i)
  {
    if i > 0 { FactorEq(e, f, g, i - 1); }
  }

  ghost function Plain(rate: seq<real>): int -> real { j => if 0 <= j < |rate| then rate[j] else 0.0 }

  /** The rates of path b. */
  ghost function OfPath(rate: seq<real>, B: nat, b: nat): int -> real
  {
    j => if j >= 0 && Cell(B, j, b) < |rate| then rate[Cell(B, j, b)] else 0.0
  }

  /** Discount_Factors */
  method DiscountFactors(N: nat, e: real -> real, rate: seq<real>, factors: array<real>)
    requires N >= 1 && factors.Length == N && |rate| >= N - 1
    modifies factors
    ensures forall i: nat :: i < N ==> factors[i] == Factor(e, Plain(rate), i)
  {
    hide Times;
    Fill(factors);
    var i := 1;
    while i < N
      invariant 1 <= i <= N
      invariant forall j: nat :: j < N ==> factors[j] == if j < i then Factor(e, Plain(rate), j) else 1.0
    {
      PlainFactor(e, rate, factors, i);
      i := i + 1;
    }
  }

  method PlainFactor(e: real -> real, rate: seq<real>, factors: array<real>, i: nat)
    requires i < factors.Length && i <= |rate| && factors[i] == 1.0
    modifies factors
    ensures factors[i] == Factor(e, Plain(rate), i)
    ensures forall m :: 0 <= m < factors.Length && m != i ==> factors[m] == old(factors[m])
  {
    hide Times;
    var j := 0;
    while j < i
      invariant 0 <= j <= i && factors[i] == Factor(e, Plain(rate), j)
      invariant forall m :: 0 <= m < factors.Length && m != i ==> factors[m] == old(factors[m])
    {
      factors[i] := Times(factors[i], e(rate[j]));
      j := j + 1;
    }
  }

  ghost predicate Fits(N: nat, B: nat, n: nat) { forall j: nat, b: nat :: j < N && b < B ==> Cell(B, j, b) < n }

  lemma FitsIn(N: nat, B: nat)
    ensures Fits(N, B, B * N)
  {
    forall j: nat, b: nat | j < N && b < B ensures Cell(B, j, b) < B * N { CellWithin(B, N, j, b); }
  }

  /** Discount_Factors_Blocking: entry i of path b is what Discount_Factors gives on the rates of path b. */
  method DiscountFactorsBlocking(N: nat, B: nat, e: real -> real, rate: seq<real>, factors: array<real>)
    requires N >= 1 && factors.Length == B * N && |rate| == B * (N - 1)
    modifies factors
    ensures Fits(N, B, factors.Length)
    ensures forall i: nat, b: nat :: i < N && b < B ==> factors[Cell(B, i, b)] == Factor(e, OfPath(rate, B, b), i)
  {
    hide Times, Cell;
    FitsIn(N, B);
    FitsIn(N - 1, B);
    var res := Exponentials(e, rate);
    Fill(factors);
    var i := 1;
    while i < N
      modifies factors
      invariant 1 <= i <= N
      invariant forall j: nat, b: nat :: j < N && b < B ==>
        factors[Cell(B, j, b)] == if j < i then Factor(e, OfPath(rate, B, b), j) else 1.0
    {
      var b := 0;
      while b < B
        modifies factors
        invariant 0 <= b <= B
        invariant forall j: nat, c: nat :: j < N && c < B ==>
          factors[Cell(B, j, c)] == if j < i || (j == i && c < b) then Factor(e, OfPath(rate, B, c), j) else 1.0
      {
        OneFactor(N, B, e, rate, res, factors, i, b);
        b := b + 1;
      }
      i := i + 1;
    }
  }

  /** The exponentials computed beforehand. */
  method Exponentials(e: real -> real, rate: seq<real>) returns (res: array<real>)
    ensures fresh(res) && res.Length == |rate| && forall j :: 0 <= j < |rate| ==> res[j] == e(rate[j])
  {
    res := new real[|rate|];
    var j := 0;
    while j < |rate|
      invariant 0 <= j <= |rate| && forall m :: 0 <= m < j ==> res[m] == e(rate[m])
    {
      res[j] := e(rate[j]);
      j := j + 1;
    }
  }

  method Fill(factors: array<real>)
    modifies factors
    ensures forall j :: 0 <= j < factors.Length ==> factors[j] == 1.0
  {
    var i := 0;
    while i < factors.Length
      invariant 0 <= i <= factors.Length && forall j :: 0 <= j < i ==> factors[j] == 1.0
    {
      factors[i] := 1.0;
      i := i + 1;
    }
  }

  /** The innermost loop: step i of path b. */
  method OneFactor(N: nat, B: nat, e: real -> real, rate: seq<real>, res: array<real>, factors: array<real>, i: nat,
                   b: nat)
    requires i < N && b < B && res.Length == |rate| && res != factors && forall j :: 0 <= j < |rate| ==>
      res[j] == e(rate[j])
    requires Fits(N, B, factors.Length) && Fits(N - 1, B, |rate|) && factors[Cell(B, i, b)] == 1.0
    modifies factors
    ensures factors[Cell(B, i, b)] == Factor(e, OfPath(rate, B, b), i)
    ensures forall j: nat, c: nat :: j < N && c < B && !(j == i && c == b) ==>
      factors[Cell(B, j, c)] == old(factors[Cell(B, j, c)])
  {
    hide Times, Cell;
    CellApart(B, i, b);
    var at := Cell(B, i, b);
    var j := 0;
    while j < i
      invariant 0 <= j <= i && factors[at] == Factor(e, OfPath(rate, B, b), j)
      invariant forall m :: 0 <= m < factors.Length && m != at ==> factors[m] == old(factors[m])
    {
      factors[at] := Times(factors[at], res[Cell(B, j, b)]);
      j := j + 1;
    }
  }

  /** Path by path the blocked factors are those of the plain form on the rates of that path alone. */
  lemma SameFactors(N: nat, B: nat, e: real -> real, rate: seq<real>, b: nat, path: seq<real>, i: nat)
    requires i < N && b < B && |path| == N - 1 && Fits(N - 1, B, |rate|)
    requires forall j: nat :: j < N - 1 ==> path[j] == rate[Cell(B, j, b)]
    ensures Factor(e, OfPath(rate, B, b), i) == Factor(e, Plain(path), i)
  {
    hide Cell, Times;
    FactorEq(e, OfPath(rate, B, b), Plain(path), i);
  }
}
