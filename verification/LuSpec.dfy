/**
 LU factorisation without pivoting, apps/lu/lu.c, as a value per matrix entry.
 The arithmetic is a parameter, so what is shown to be equal is equal operation
 by operation, rounding included; over the reals the factors multiply back.
 */
module LuSpec {

  /** The three arithmetic operations of the kernels: x / y, -x, and x + alpha * b. */
  datatype Ops<!N> = Ops(div: (N, N) -> N, neg: N -> N, axpy: (N, N, N) -> N)
  {
    /** One update of a trailing entry: a += (-u) * l. */
    function Sub(x: N, u: N, l: N): N { axpy(x, neg(u), l) }
  }

  type Matrix<N> = (int, int) -> N

  /** Entry (i, j) after the first c eliminations have been applied to it. */
  ghost function Partial<N>(ops: Ops<N>, A: Matrix<N>, i: nat, j: nat, c: nat): N
    requires c <= i && c <= j
    decreases i + j, 0, c
  {
    if c == 0 then A(i, j)
    else ops.Sub(Partial(ops, A, i, j, c - 1), Final(ops, A, c - 1, j), Final(ops, A, i, c - 1))
  }

  /** The final value of entry (i, j): L on and below the diagonal, U (with its unit diagonal left out) above. */
  ghost function Final<N>(ops: Ops<N>, A: Matrix<N>, i: nat, j: nat): N
    decreases i + j, 1, 0
  {
    if j <= i then Partial(ops, A, i, j, j)
    else ops.div(Partial(ops, A, i, j, i), Final(ops, A, i, i))
  }

  /** Entry (i, j) once all eliminations below c have reached it. */
  ghost function At<N>(ops: Ops<N>, A: Matrix<N>, i: nat, j: nat, c: nat): N
  {
    if i < c || j < c then Final(ops, A, i, j) else Partial(ops, A, i, j, c)
  }

  /** What elimination k does: divide row k right of the pivot, then update the entries beyond row and column k. */
  lemma AtNext<N>(ops: Ops<N>, A: Matrix<N>, i: nat, j: nat, k: nat)
    ensures i < k || j <= k ==> At(ops, A, i, j, k + 1) == At(ops, A, i, j, k)
    ensures i == k && k < j ==> At(ops, A, i, j, k + 1) == ops.div(At(ops, A, i, j, k), At(ops, A, k, k, k))
    ensures k < i && k < j ==>
      At(ops, A, i, j, k + 1) == ops.Sub(At(ops, A, i, j, k), At(ops, A, k, j, k + 1), At(ops, A, i, k, k))
  {
    if i == k && k < j {
      assert Final(ops, A, i, j) == ops.div(Partial(ops, A, i, j, i), Final(ops, A, i, i));
    }
    if k < i && k < j {
      assert Partial(ops, A, i, j, k + 1) ==
        ops.Sub(Partial(ops, A, i, j, k), Final(ops, A, k, j), Final(ops, A, i, k));
    }
  }

  /** Eliminations beyond the row or column of an entry do not change it. */
  lemma {:induction false} AtSettled<N>(ops: Ops<N>, A: Matrix<N>, i: nat, j: nat, c: nat, c': nat)
    requires (j <= i && j <= c <= c') || (i < c <= c')
    ensures At(ops, A, i, j, c) == At(ops, A, i, j, c')
  {
    if c < c' {
      AtNext(ops, A, i, j, c' - 1);
      AtSettled(ops, A, i, j, c, c' - 1);
    }
  }

  // ---------------------------------------------------------------------
  // Over the reals the factors multiply back
  // ---------------------------------------------------------------------

  const RealOps: Ops<real> :=
    Ops((x: real, y: real) => if y == 0.0 then 0.0 else x / y,
        (x: real) => -x,
        (x: real, a: real, b: real) => x + a * b)

  /** Entry of the lower factor. */
  ghost function L(A: Matrix<real>, i: nat, t: nat): real
  {
    if t <= i then Final(RealOps, A, i, t) else 0.0
  }

  /** Entry of the unit upper factor. */
  ghost function U(A: Matrix<real>, t: nat, j: nat): real
  {
    if t < j then Final(RealOps, A, t, j) else if t == j then 1.0 else 0.0
  }

  /** The first m terms of entry (i, j) of the product L * U. */
  ghost function Dot(A: Matrix<real>, i: nat, j: nat, m: nat): real
  {
    if m == 0 then 0.0 else Dot(A, i, j, m - 1) + L(A, i, m - 1) * U(A, m - 1, j)
  }

  lemma {:induction false} DotIsPartial(A: Matrix<real>, i: nat, j: nat, c: nat)
    requires c <= i && c <= j
    ensures Dot(A, i, j, c) == A(i, j) - Partial(RealOps, A, i, j, c)
  {
    if c > 0 {
      DotIsPartial(A, i, j, c - 1);
      var p, u, l := Partial(RealOps, A, i, j, c - 1), Final(RealOps, A, c - 1, j), Final(RealOps, A, i, c - 1);
      assert L(A, i, c - 1) == l && U(A, c - 1, j) == u;
      NegTimes(u, l);
      assert Partial(RealOps, A, i, j, c) == p + (-u) * l;
    }
  }

  lemma NegTimes(u: real, l: real)
    ensures (-u) * l == -(l * u)
  {
  }

  lemma {:induction false} DotStops(A: Matrix<real>, i: nat, j: nat, c: nat, m: nat)
    requires i < c || j < c
    requires c <= m
    ensures Dot(A, i, j, m) == Dot(A, i, j, c)
  {
    if c < m {
      DotStops(A, i, j, c, m - 1);
      assert L(A, i, m - 1) == 0.0 || U(A, m - 1, j) == 0.0;
    }
  }

  /** With nonzero pivots, L times U is the matrix that was factored. */
  lemma FactorsMultiplyBack(A: Matrix<real>, n: nat, i: nat, j: nat)
    requires i < n && j < n
    requires forall k: nat :: k < n ==> Final(RealOps, A, k, k) != 0.0
    ensures Dot(A, i, j, n) == A(i, j)
  {
    var c := if i < j then i else j;
    DotIsPartial(A, i, j, c);
    DotStops(A, i, j, c + 1, n);
    var p := Partial(RealOps, A, i, j, c);
    assert Dot(A, i, j, c + 1) == Dot(A, i, j, c) + L(A, i, c) * U(A, c, j);
    if j <= i {
      assert L(A, i, c) == p && U(A, c, j) == 1.0;
    } else {
      var d := Final(RealOps, A, i, i);
      assert L(A, i, c) == d && U(A, c, j) == p / d;
      TimesQuotient(d, p);
    }
  }

  lemma TimesQuotient(d: real, p: real)
    requires d != 0.0
    ensures d * (p / d) == p
  {
  }
}
