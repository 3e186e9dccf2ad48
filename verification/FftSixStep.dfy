/**
 The six steps of FFT1D, apps/fft/fft.c, lines 679-793, as sums: transpose, transform the rows,
 multiply by the roots, transpose, transform the rows, transpose.
 */
module FftSixStep {
  import opened PowerOfTwo
  import opened Complex
  import opened FftSpec
  import Arith

  /** Column j of the input seen as a matrix with rows of length n. */
  ghost function Column(x: int -> Cx, n: nat, j: int): int -> Cx
  {
    a => x(a * n + j)
  }

  /** Row j after the first transforms and the multiplication by the roots, entry k1. */
  ghost function Twiddled(w: Root, m: nat, x: int -> Cx, j: nat, k1: nat): Cx
  {
    Arith.TimesNat(j, k1);
    Mul(w(2 * m, j * k1), Dft(w, m, Column(x, Pow2(m), j), k1))
  }

  /** Row k1 after the second transposition. */
  ghost function Mixed(w: Root, m: nat, x: int -> Cx, k1: nat): int -> Cx
  {
    j => if j < 0 then ZERO else Twiddled(w, m, x, j, k1)
  }

  // ---------------------------------------------------------------------
  // Exponents
  // ---------------------------------------------------------------------

  lemma {:induction false} RootScale(w: Root, q: nat, s: nat, a: nat)
    requires IsRoot(w)
    ensures Pow2(s) * a >= 0 && w(q + s, Pow2(s) * a) == w(q, a)
  {
    hide IsRoot;
    Arith.TimesNat(Pow2(s), a);
    if s > 0 {
      RootScale(w, q, s - 1, a);
      Arith.MulAssoc(2, Pow2(s - 1), a);
      RootHalf(w, q + s - 1, Pow2(s - 1) * a);
    }
  }

  lemma {:induction false} PowSquare(m: nat)
    ensures Pow2(2 * m) == Pow2(m) * Pow2(m)
  {
    if m > 0 {
      PowSquare(m - 1);
      var p := Pow2(m - 1);
      assert Pow2(2 * m) == 2 * Pow2(2 * m - 1) && Pow2(2 * m - 1) == 2 * Pow2(2 * m - 2);
      FourTimes(p);
    }
  }

  lemma FourTimes(p: nat)
    ensures (2 * p) * (2 * p) == 4 * (p * p)
  {
  }

  /** The three exponents add up to that of the long transform, up to whole turns. */
  lemma Exponents(a: nat, j: nat, k1: nat, k2: nat, n: nat)
    ensures (a * n + j) * (k1 + n * k2) == j * k1 + n * (a * k1) + n * (j * k2) + (a * k2) * (n * n)
  {
    var K := k1 + n * k2;
    Arith.MulDistribute(a * n, j, K);
    Product(a, n, k1, k2);
    Product2(j, n, k1, k2);
  }

  lemma Product(a: nat, n: nat, k1: nat, k2: nat)
    ensures (a * n) * (k1 + n * k2) == n * (a * k1) + (a * k2) * (n * n)
  {
    Arith.MulDistribute(k1, n * k2, a * n);
    Arith.MulCommutes(a * n, k1 + n * k2);
    Arith.MulCommutes(a, n);
    Arith.MulAssoc(n, a, k1);
    Arith.MulCommutes(k1, a * n);
    Four(a, n, k2);
  }

  lemma Four(a: nat, n: nat, k2: nat)
    ensures (n * k2) * (a * n) == (a * k2) * (n * n)
  {
    Arith.MulCommutes(n, k2);
    Arith.MulAssoc(k2, n, a * n);
    Arith.MulCommutes(a, n);
    Arith.MulAssoc(n, n, a);
    Arith.MulCommutes(n * n, a);
    Arith.MulAssoc(k2, a, n * n);
    Arith.MulCommutes(k2, a);
  }

  lemma Product2(j: nat, n: nat, k1: nat, k2: nat)
    ensures j * (k1 + n * k2) == j * k1 + n * (j * k2)
  {
    Arith.MulDistribute(k1, n * k2, j);
    Arith.MulCommutes(j, k1 + n * k2);
    Arith.MulCommutes(j, k1);
    Arith.MulAssoc(n, k2, j);
    Arith.MulCommutes(k2, j);
  }

  lemma ThreeRoots(w: Root, m: nat, a: nat, j: nat, k1: nat, k2: nat, n: nat)
    requires IsRoot(w) && n == Pow2(m)
    ensures j * k1 >= 0 && a * k1 >= 0 && j * k2 >= 0 && (a * n + j) * (k1 + n * k2) >= 0
    ensures Mul(Mul(w(2 * m, j * k1), w(m, j * k2)), w(m, a * k1)) == w(2 * m, (a * n + j) * (k1 + n * k2))
  {
    hide IsRoot, Mul, Pow2;
    Exponents(a, j, k1, k2, n);
    Arith.TimesNat(j, k1);
    Arith.TimesNat(a, k1);
    Arith.TimesNat(j, k2);
    Arith.TimesNat(a, k2);
    Arith.TimesNat(n, n);
    Arith.TimesNat(n, a * k1);
    Arith.TimesNat(n, j * k2);
    Arith.TimesNat(a * k2, n * n);
    RootScale(w, m, m, a * k1);
    RootScale(w, m, m, j * k2);
    PowSquare(m);
    RootTurns(w, 2 * m, a * k2);
    var e1, e2, e3, e4 := j * k1, n * (j * k2), n * (a * k1), (a * k2) * (n * n);
    RootAdd(w, 2 * m, e1, e2);
    RootAdd(w, 2 * m, e1 + e2, e3);
    RootAdd(w, 2 * m, e1 + e2 + e3, e4);
    MulUnit(w(2 * m, e1 + e2 + e3));
  }

  // ---------------------------------------------------------------------
  // Sums over a grid
  // ---------------------------------------------------------------------

  ghost function Grid(f: int -> Cx, n: nat): (int, int) -> Cx
  {
    (a, j) => f(a * n + j)
  }

  ghost function Shifted(f: int -> Cx, c: int): int -> Cx
  {
    j => f(c + j)
  }

  lemma RowOrColumn(f: int -> Cx, n: nat, i: int)
    ensures RowSums(Grid(f, n), n)(i) == CSum(Shifted(f, i * n), n)
    ensures ColSums(Grid(f, n), n)(i) == CSum(Column(f, n, i), n)
  {
    hide CSum;
    var row, col := (j: int) => Grid(f, n)(i, j), (a: int) => Grid(f, n)(a, i);
    var g := Grid(f, n);
    forall j | 0 <= j < n ensures row(j) == Shifted(f, i * n)(j) {
      assert g(i, j) == f(i * n + j);
    }
    forall a | 0 <= a < n ensures col(a) == Column(f, n, i)(a) {
      assert g(a, i) == f(a * n + i);
    }
    CSumEq(row, Shifted(f, i * n), n);
    CSumEq(col, Column(f, n, i), n);
  }

  /** Adding up row by row. */
  lemma {:induction false} SumByRows(f: int -> Cx, n: nat, m: nat)
    ensures CSum(f, m * n) == CSum(RowSums(Grid(f, n), n), m)
    decreases m
  {
    hide Add;
    if m > 0 {
      SumByRows(f, n, m - 1);
      Arith.MulNext(m - 1, n);
      Arith.TimesNat(m - 1, n);
      SumShift(f, (m - 1) * n, n);
      RowOrColumn(f, n, m - 1);
      OneMore(RowSums(Grid(f, n), n), m - 1);
    }
  }

  lemma {:induction false} SumShift(f: int -> Cx, c: nat, i: nat)
    ensures CSum(f, c + i) == Add(CSum(f, c), CSum(Shifted(f, c), i))
    decreases i
  {
    if i == 0 {
      AddLaws(CSum(f, c), ZERO, ZERO);
    } else {
      SumShift(f, c, i - 1);
      SumShiftNext(f, c, i - 1);
    }
  }

  lemma SumShiftNext(f: int -> Cx, c: nat, i: nat)
    requires CSum(f, c + i) == Add(CSum(f, c), CSum(Shifted(f, c), i))
    ensures CSum(f, c + (i + 1)) == Add(CSum(f, c), CSum(Shifted(f, c), i + 1))
  {
    hide Add, CSum;
    OneMore(f, c + i);
    OneMore(Shifted(f, c), i);
    AddLaws(CSum(f, c), CSum(Shifted(f, c), i), f(c + i));
  }

  /** A sum over a square, by columns. */
  lemma SumByColumns(f: int -> Cx, n: nat)
    ensures CSum(f, n * n) == CSum(ColSums(Grid(f, n), n), n)
  {
    SumByRows(f, n, n);
    CSumExchange(Grid(f, n), n, n);
  }

  // ---------------------------------------------------------------------
  // The six steps compute the transform
  // ---------------------------------------------------------------------

  /** One column's share of the long transform is one term of the second short transform. */
  lemma ColumnTerm(w: Root, m: nat, x: int -> Cx, k1: nat, k2: nat, j: nat, n: nat, K: nat)
    requires IsRoot(w) && n == Pow2(m) && n * k2 >= 0 && K == k1 + n * k2
    ensures Term(w, m, Mixed(w, m, x, k1), k2, j) == ColSums(Grid(Terms(w, 2 * m, x, K), n), n)(j)
  {
    Arith.TimesNat(j, k1);
    Arith.TimesNat(j, k2);
    var c := Mul(w(2 * m, j * k1), w(m, j * k2));
    var short, long := Terms(w, m, Column(x, n, j), k1), Column(Terms(w, 2 * m, x, K), n, j);
    RowOrColumn(Terms(w, 2 * m, x, K), n, j);
    hide IsRoot, Mul, Pow2, ColSums;
    forall a | 0 <= a < n ensures long(a) == Mul(c, short(a)) {
      EntryTerm(w, m, x, k1, k2, j, a, n, K);
    }
    CSumScale(c, short, long, n);
    hide Terms, Column, CSum, Dft;
    MixedTerm(w, m, x, k1, k2, j);
    DftIs(w, m, Column(x, n, j), k1);
    Bracket(w(2 * m, j * k1), Dft(w, m, Column(x, n, j), k1), w(m, j * k2));
  }

  lemma MixedTerm(w: Root, m: nat, x: int -> Cx, k1: nat, k2: nat, j: nat)
    ensures j * k1 >= 0 && j * k2 >= 0
    ensures Term(w, m, Mixed(w, m, x, k1), k2, j) ==
      Mul(Mul(w(2 * m, j * k1), Dft(w, m, Column(x, Pow2(m), j), k1)), w(m, j * k2))
  {
    hide Mul, Dft, Pow2;
    Arith.TimesNat(j, k1);
    Arith.TimesNat(j, k2);
  }

  lemma TermsAt(w: Root, q: nat, f: int -> Cx, k: nat, t: nat)
    ensures Terms(w, q, f, k)(t) == Term(w, q, f, k, t)
  {
  }

  lemma DftIs(w: Root, q: nat, f: int -> Cx, k: nat)
    ensures Dft(w, q, f, k) == CSum(Terms(w, q, f, k), Pow2(q))
  {
  }

  lemma Bracket(a: Cx, b: Cx, c: Cx)
    ensures Mul(Mul(a, b), c) == Mul(Mul(a, c), b)
  {
    hide Mul;
    MulAssoc(a, b, c);
    MulAssoc(a, c, b);
    MulCommutes(b, c);
  }

  lemma EntryTerm(w: Root, m: nat, x: int -> Cx, k1: nat, k2: nat, j: nat, a: nat, n: nat, K: nat)
    requires IsRoot(w) && n == Pow2(m) && n * k2 >= 0 && K == k1 + n * k2
    ensures j * k1 >= 0 && j * k2 >= 0 && a * n + j >= 0
    ensures Term(w, 2 * m, x, K, a * n + j) ==
      Mul(Mul(w(2 * m, j * k1), w(m, j * k2)), Term(w, m, Column(x, n, j), k1, a))
  {
    hide IsRoot, Mul, Pow2;
    Arith.TimesNat(a, n);
    Arith.TimesNat(a, k1);
    ThreeRoots(w, m, a, j, k1, k2, n);
    var c, v, r := Mul(w(2 * m, j * k1), w(m, j * k2)), x(a * n + j), w(m, a * k1);
    MulSwap(c, v, r);
  }

  /** Entry k2 of row k1 after the five first steps is entry k1 + n * k2 of the transform of all n * n points. */
  lemma SixSteps(w: Root, m: nat, x: int -> Cx, k1: nat, k2: nat)
    requires IsRoot(w)
    ensures Pow2(m) * k2 >= 0 && Dft(w, m, Mixed(w, m, x, k1), k2) == Dft(w, 2 * m, x, k1 + Pow2(m) * k2)
  {
    hide IsRoot, Pow2, Terms, ColSums, CSum, Grid, Mixed, Dft;
    var n := Pow2(m);
    Arith.TimesNat(n, k2);
    var K := k1 + n * k2;
    PowSquare(m);
    var short, long := Terms(w, m, Mixed(w, m, x, k1), k2), Terms(w, 2 * m, x, K);
    SumByColumns(long, n);
    forall j | 0 <= j < n ensures short(j) == ColSums(Grid(long, n), n)(j) {
      ColumnTerm(w, m, x, k1, k2, j, n, K);
      TermsAt(w, m, Mixed(w, m, x, k1), k2, j);
    }
    CSumEq(short, ColSums(Grid(long, n), n), n);
    DftIs(w, m, Mixed(w, m, x, k1), k2);
    DftIs(w, 2 * m, x, K);
  }
}
