/**
 The block kernels of apps/lu/lu.c, lines 535-649.  A block is stored column by
 column; entry (i, j) of the block stands for a[i + j * stride].  Now says what a kernel
 computes from the blocks it finds, whatever they hold.
 */
module LuKernels {
  import opened LuSpec

  /** a[0..n] += alpha * b[0..n] on rows from..to of two columns. */
  method Daxpy<N>(ops: Ops<N>, a: array2<N>, ja: nat, b: array2<N>, jb: nat, from: nat, to: nat, alpha: N)
    requires from <= to <= a.Length0 && to <= b.Length0 && ja < a.Length1 && jb < b.Length1
    requires a == b ==> ja != jb
    modifies a
    ensures forall i :: from <= i < to ==> a[i, ja] == ops.axpy(old(a[i, ja]), alpha, old(b[i, jb]))
    ensures forall i, j :: 0 <= i < a.Length0 && 0 <= j < a.Length1 && !(from <= i < to && j == ja) ==>
      a[i, j] == old(a[i, j])
  {
    var i := from;
    while i < to
      invariant from <= i <= to
      invariant forall r :: from <= r < i ==> a[r, ja] == ops.axpy(old(a[r, ja]), alpha, old(b[r, jb]))
      invariant forall r, j :: 0 <= r < a.Length0 && 0 <= j < a.Length1 && !(from <= r < i && j == ja) ==>
        a[r, j] == old(a[r, j])
    {
      a[i, ja] := ops.axpy(a[i, ja], alpha, b[i, jb]);
      i := i + 1;
    }
  }

  // ---------------------------------------------------------------------
  // What a kernel computes
  // ---------------------------------------------------------------------

  /** A kernel's target is rows r0..r1 and columns c0..c1; k0 is its first elimination. */
  datatype Span = Span(r0: nat, r1: nat, c0: nat, c1: nat, k0: nat)
  {
    predicate Has(i: int, j: int) { r0 <= i < r1 && c0 <= j < c1 }
  }

  /**
   Entry (i, j) of the target after the eliminations k0..c, on memory M: divide row k right of the
   pivot, then update the entries beyond row and column k.  What lies in the target is read as it
   stands at that moment, what lies in another block as it was found.
   */
  ghost function Now<N>(ops: Ops<N>, M: Matrix<N>, T: Span, i: nat, j: nat, c: nat): N
    requires T.k0 <= c
    decreases c, if i + 1 == c then 0 else 1
  {
    if c == T.k0 then M(i, j)
    else
      var k := c - 1;
      if i < k || j <= k then Now(ops, M, T, i, j, k)
      else if i == k then ops.div(Now(ops, M, T, i, j, k), if T.Has(k, k) then Now(ops, M, T, k, k, k) else M(k, k))
      else
        var u := if T.Has(k, j) then Now(ops, M, T, k, j, c) else M(k, j);
        var l := if T.Has(i, k) then Now(ops, M, T, i, k, k) else M(i, k);
        ops.Sub(Now(ops, M, T, i, j, k), u, l)
  }

  /** Elimination k on column j of a diagonal block. */
  lemma DiagonalColumn<N>(ops: Ops<N>, M: Matrix<N>, T: Span, j: nat, k: nat, k1: nat)
    requires T.k0 <= k < j && T.c0 <= j < T.c1 && k1 == k + 1
    requires T.r0 == T.c0 == T.k0 && T.r1 == T.c1 && k < T.r1
    ensures forall g: nat :: T.r0 <= g < T.r1 ==>
              Now(ops, M, T, g, j, k1) ==
              if g < k then Now(ops, M, T, g, j, k)
              else if g == k then ops.div(Now(ops, M, T, g, j, k), Now(ops, M, T, k, k, k))
              else ops.Sub(Now(ops, M, T, g, j, k), Now(ops, M, T, k, j, k1), Now(ops, M, T, g, k, k))
  {
  }

  /** Elimination k on column j of a block below the diagonal block. */
  lemma LowerColumn<N>(ops: Ops<N>, M: Matrix<N>, T: Span, j: nat, k: nat, k1: nat)
    requires T.k0 <= k < j && T.c0 <= j < T.c1 && k1 == k + 1
    requires T.c0 == T.k0 && k < T.r0
    ensures forall g: nat :: T.r0 <= g < T.r1 ==>
              Now(ops, M, T, g, j, k1) == ops.Sub(Now(ops, M, T, g, j, k), M(k, j), Now(ops, M, T, g, k, k))
  {
  }

  /** Elimination k on column j of a block right of the diagonal block. */
  lemma UpperColumn<N>(ops: Ops<N>, M: Matrix<N>, T: Span, j: nat, k: nat, k1: nat)
    requires T.k0 <= k < j && T.c0 <= j < T.c1 && k1 == k + 1
    requires T.r0 == T.k0 && k < T.r1 && k < T.c0
    ensures forall g: nat :: T.r0 <= g < T.r1 ==>
              Now(ops, M, T, g, j, k1) ==
              if g < k then Now(ops, M, T, g, j, k)
              else if g == k then ops.div(Now(ops, M, T, g, j, k), M(k, k))
              else ops.Sub(Now(ops, M, T, g, j, k), Now(ops, M, T, k, j, k1), M(g, k))
  {
  }

  /** Elimination k on column j of a trailing block. */
  lemma TrailingColumn<N>(ops: Ops<N>, M: Matrix<N>, T: Span, j: nat, k: nat, k1: nat)
    requires T.k0 <= k < j && T.c0 <= j < T.c1 && k1 == k + 1
    requires k < T.r0 && k < T.c0
    ensures forall g: nat :: T.r0 <= g < T.r1 ==>
              Now(ops, M, T, g, j, k1) == ops.Sub(Now(ops, M, T, g, j, k), M(k, j), M(g, k))
  {
  }

  /** Elimination k leaves the columns up to k alone. */
  lemma ColumnStays<N>(ops: Ops<N>, M: Matrix<N>, T: Span, i: nat, j: nat, k: nat, k1: nat)
    requires T.k0 <= k && j <= k && k1 == k + 1
    ensures Now(ops, M, T, i, j, k1) == Now(ops, M, T, i, j, k)
  {
  }

  /** The block a holds the entries of M from row r and column c on. */
  ghost predicate Copies<N>(M: Matrix<N>, a: array2<N>, r: nat, c: nat)
    reads a
  {
    forall i: nat, j: nat :: i < a.Length0 && j < a.Length1 ==> a[i, j] == M(r + i, c + j)
  }

  /** The target block holds its entries after the eliminations k0..c. */
  ghost predicate Stands<N>(ops: Ops<N>, M: Matrix<N>, T: Span, a: array2<N>, c: nat)
    requires T.k0 <= c
    reads a
  {
    forall i: nat, j: nat :: i < a.Length0 && j < a.Length1 ==> a[i, j] == Now(ops, M, T, T.r0 + i, T.c0 + j, c)
  }

  lemma StartsAs<N>(ops: Ops<N>, M: Matrix<N>, T: Span, a: array2<N>)
    requires Copies(M, a, T.r0, T.c0)
    ensures Stands(ops, M, T, a, T.k0)
  {
  }

  /** lu0 applies the eliminations of a diagonal block to the block itself. */
  method Lu0<N>(ops: Ops<N>, a: array2<N>, n: nat, ghost M: Matrix<N>, ghost T: Span)
    requires a.Length0 == n && a.Length1 == n && Copies(M, a, T.r0, T.c0)
    requires T.r0 == T.c0 == T.k0 && T.r1 == T.c1 == T.k0 + n
    modifies a
    ensures Stands(ops, M, T, a, T.k0 + n)
  {
    hide Now;
    StartsAs(ops, M, T, a);
    ghost var lo := T.k0;
    var k := 0;
    while k < n
      invariant 0 <= k <= n
      invariant Stands(ops, M, T, a, lo + k)
    {
      var j := k + 1;
      while j < n
        invariant k + 1 <= j <= n
        invariant forall i: nat, c: nat :: i < n && c < n ==>
          a[i, c] == Now(ops, M, T, lo + i, lo + c, if k < c < j then lo + k + 1 else lo + k)
      {
        DiagonalColumn(ops, M, T, lo + j, lo + k, lo + k + 1);
        a[k, j] := ops.div(a[k, j], a[k, k]);
        var alpha := ops.neg(a[k, j]);
        Daxpy(ops, a, j, a, k, k + 1, n, alpha);
        j := j + 1;
      }
      forall i: nat, c: nat | i < n && c < n ensures a[i, c] == Now(ops, M, T, lo + i, lo + c, lo + k + 1) {
        if c <= k { ColumnStays(ops, M, T, lo + i, lo + c, lo + k, lo + k + 1); }
      }
      k := k + 1;
    }
  }

  /** bdiv applies the eliminations of the diagonal block above it to a block of the same block column. */
  method Bdiv<N>(ops: Ops<N>, a: array2<N>, diag: array2<N>, dimi: nat, dimk: nat, ghost M: Matrix<N>, ghost T: Span)
    requires a.Length0 == dimi && a.Length1 == dimk && diag.Length0 == dimk && diag.Length1 == dimk && a != diag
    requires Copies(M, a, T.r0, T.c0) && Copies(M, diag, T.k0, T.k0)
    requires T.k0 + dimk <= T.r0 && T.r1 == T.r0 + dimi && T.c0 == T.k0 && T.c1 == T.k0 + dimk
    modifies a
    ensures Stands(ops, M, T, a, T.k0 + dimk)
  {
    hide Now;
    StartsAs(ops, M, T, a);
    ghost var lk := T.k0;
    var k := 0;
    while k < dimk
      invariant 0 <= k <= dimk
      invariant Stands(ops, M, T, a, lk + k)
    {
      var j := k + 1;
      while j < dimk
        invariant k + 1 <= j <= dimk
        invariant forall i: nat, c: nat :: i < dimi && c < dimk ==>
          a[i, c] == Now(ops, M, T, T.r0 + i, lk + c, if k < c < j then lk + k + 1 else lk + k)
      {
        LowerColumn(ops, M, T, lk + j, lk + k, lk + k + 1);
        var alpha := ops.neg(diag[k, j]);
        Daxpy(ops, a, j, a, k, 0, dimi, alpha);
        j := j + 1;
      }
      forall i: nat, c: nat | i < dimi && c < dimk ensures a[i, c] == Now(ops, M, T, T.r0 + i, lk + c, lk + k + 1) {
        if c <= k { ColumnStays(ops, M, T, T.r0 + i, lk + c, lk + k, lk + k + 1); }
      }
      k := k + 1;
    }
  }

  /** The inner loop of bmodd: column j of c takes elimination k. */
  method BmoddColumn<N>(ops: Ops<N>, a: array2<N>, c: array2<N>, dimi: nat, k: nat, j: nat, ghost M: Matrix<N>,
                        ghost T: Span)
    requires a.Length0 == dimi && a.Length1 == dimi && c.Length0 == dimi && j < c.Length1 && k < dimi && a != c
    requires Copies(M, a, T.k0, T.k0)
    requires T.k0 + dimi <= T.c0 && T.c1 == T.c0 + c.Length1 && T.r0 == T.k0 && T.r1 == T.k0 + dimi
    requires forall i: nat :: i < dimi ==> c[i, j] == Now(ops, M, T, T.k0 + i, T.c0 + j, T.k0 + k)
    modifies c
    ensures forall i: nat :: i < dimi ==> c[i, j] == Now(ops, M, T, T.k0 + i, T.c0 + j, T.k0 + k + 1)
    ensures forall i: nat, q: nat :: i < dimi && q < c.Length1 && q != j ==> c[i, q] == old(c[i, q])
  {
    hide Now;
    ghost var lk := T.k0;
    UpperColumn(ops, M, T, T.c0 + j, lk + k, lk + k + 1);
    c[k, j] := ops.div(c[k, j], a[k, k]);
    var alpha := ops.neg(c[k, j]);
    Daxpy(ops, c, j, a, k, k + 1, dimi, alpha);
  }

  /** bmodd applies the eliminations of the diagonal block a to a block c of the same block row. */
  method Bmodd<N>(ops: Ops<N>, a: array2<N>, c: array2<N>, dimi: nat, dimj: nat, ghost M: Matrix<N>, ghost T: Span)
    requires a.Length0 == dimi && a.Length1 == dimi && c.Length0 == dimi && c.Length1 == dimj && a != c
    requires Copies(M, c, T.r0, T.c0) && Copies(M, a, T.k0, T.k0)
    requires T.k0 + dimi <= T.c0 && T.c1 == T.c0 + dimj && T.r0 == T.k0 && T.r1 == T.k0 + dimi
    modifies c
    ensures Stands(ops, M, T, c, T.k0 + dimi)
  {
    hide Now;
    StartsAs(ops, M, T, c);
    ghost var lk := T.k0;
    var k := 0;
    while k < dimi
      invariant 0 <= k <= dimi
      invariant Stands(ops, M, T, c, lk + k)
    {
      var j := 0;
      while j < dimj
        invariant 0 <= j <= dimj
        invariant forall i: nat, q: nat :: i < dimi && q < dimj ==>
          c[i, q] == Now(ops, M, T, lk + i, T.c0 + q, if q < j then lk + k + 1 else lk + k)
      {
        BmoddColumn(ops, a, c, dimi, k, j, M, T);
        j := j + 1;
      }
      k := k + 1;
    }
  }

  /**
   bmod applies the eliminations of one block step to a trailing block, from the block left of it and the block
   above it.
   */
  method Bmod<N>(ops: Ops<N>, a: array2<N>, b: array2<N>, c: array2<N>, dimi: nat, dimj: nat, dimk: nat,
                 ghost M: Matrix<N>, ghost T: Span)
    requires a.Length0 == dimi && a.Length1 == dimk && b.Length0 == dimk && b.Length1 == dimj
    requires c.Length0 == dimi && c.Length1 == dimj && c != a && c != b
    requires Copies(M, c, T.r0, T.c0) && Copies(M, a, T.r0, T.k0) && Copies(M, b, T.k0, T.c0)
    requires T.k0 + dimk <= T.r0 && T.k0 + dimk <= T.c0 && T.r1 == T.r0 + dimi && T.c1 == T.c0 + dimj
    modifies c
    ensures Stands(ops, M, T, c, T.k0 + dimk)
  {
    hide Now;
    StartsAs(ops, M, T, c);
    ghost var lk := T.k0;
    var k := 0;
    while k < dimk
      invariant 0 <= k <= dimk
      invariant Stands(ops, M, T, c, lk + k)
    {
      BmodColumn(ops, a, b, c, dimi, dimj, k, M, T);
      k := k + 1;
    }
  }

  /** The inner loop of bmod: one elimination on every column. */
  method BmodColumn<N>(ops: Ops<N>, a: array2<N>, b: array2<N>, c: array2<N>, dimi: nat, dimj: nat, k: nat,
                       ghost M: Matrix<N>, ghost T: Span)
    requires a.Length0 == dimi && k < a.Length1 == b.Length0 && b.Length1 == dimj
    requires c.Length0 == dimi && c.Length1 == dimj && c != a && c != b
    requires Copies(M, a, T.r0, T.k0) && Copies(M, b, T.k0, T.c0) && Stands(ops, M, T, c, T.k0 + k)
    requires T.k0 + k < T.r0 && T.k0 + k < T.c0 && T.r1 == T.r0 + dimi && T.c1 == T.c0 + dimj
    modifies c
    ensures Stands(ops, M, T, c, T.k0 + k + 1)
  {
    hide Now;
    ghost var at := T.k0 + k;
    var j := 0;
    while j < dimj
      invariant 0 <= j <= dimj
      invariant forall i: nat, q: nat :: i < dimi && q < dimj ==>
        c[i, q] == Now(ops, M, T, T.r0 + i, T.c0 + q, if q < j then at + 1 else at)
    {
      TrailingColumn(ops, M, T, T.c0 + j, at, at + 1);
      var alpha := ops.neg(b[k, j]);
      Daxpy(ops, c, j, a, k, 0, dimi, alpha);
      j := j + 1;
    }
  }
}
