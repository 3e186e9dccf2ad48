/**
 FFT1D of apps/fft/fft.c, lines 679-841 and 948-961, as P threads run it.  Between two barriers the
 threads run in any order; each reads the matrix the others left at the last barrier and writes only
 its own rows of the other matrix.
 */
module FftParallel {
  import opened Threads
  import opened PowerOfTwo
  import opened Complex
  import opened FftSpec
  import opened FftOnce
  import opened FftSixStep
  import opened FftInverse
  import opened FftTranspose
  import Arith

  /** 2^m rows, dealt out to P threads, rows of them each; the cache lines decide the blocks. */
  datatype Plan = Plan(m: nat, P: nat, rows: nat, lines: nat)

  ghost predicate Fits(p: Plan)
  {
    p.P >= 1 && p.rows >= 1 && p.lines >= 1 && Pow2(p.m) == p.P * p.rows && p.rows % Blocks(p.rows, p.lines) == 0
  }

  /** MyFirst and MyLast, lines 497-498. */
  lemma ShareIsStrip(p: Plan, t: nat)
    requires Fits(p) && t < p.P
    ensures (Pow2(p.m) * t) / p.P == t * p.rows && (Pow2(p.m) * (t + 1)) / p.P == (t + 1) * p.rows
  {
    ShareStart(p.P, p.rows, t);
    ShareStart(p.P, p.rows, t + 1);
  }

  lemma ShareStart(P: nat, rows: nat, t: nat)
    requires P >= 1
    ensures ((P * rows) * t) / P == t * rows
  {
    Arith.MulAssoc(P, rows, t);
    Arith.MulCommutes(P, rows * t);
    Arith.MulCommutes(rows, t);
    Arith.DivModUnique((P * rows) * t, P, t * rows, 0);
  }

  ghost predicate Square(a: array2<Cx>, m: nat) { a.Length0 == Pow2(m) && a.Length1 == Pow2(m) }

  ghost predicate RowIs(a: array2<Cx>, T: (nat, nat) -> Cx, r: nat)
    requires r < a.Length0
    reads a
  {
    forall c: nat :: c < a.Length1 ==> a[r, c] == T(r, c)
  }

  ghost predicate Mine(p: Plan, r: nat, t: nat) { p.rows >= 1 && StripOf(r, p.rows) == t }

  /** The transpose of one thread when the blocks divide its rows. */
  method TransposeRows(p: Plan, n1: nat, src: array2<Cx>, dest: array2<Cx>, t: nat)
    requires Fits(p) && n1 == Pow2(p.m) && t < p.P && src != dest && Square(src, p.m) && Square(dest, p.m)
    modifies dest
    ensures forall h: nat, v: nat :: h < n1 && v < n1 ==>
      dest[h, v] == if Mine(p, h, t) then src[v, h] else old(dest[h, v])
  {
    hide Reach, Blocks, StripOf;
    TransposesAllIff(n1, p.P, p.rows, p.lines);
    Transpose(src, dest, n1, t, p.P, p.rows, p.lines);
  }

  /** umain2 holds the roots for every row and column; direction -1 inverts them. */
  ghost predicate Table2Ok(w: Root, direction: int, u2: seq<seq<Cx>>, m: nat)
  {
    && |u2| == Pow2(m)
    && (forall j: nat :: j < Pow2(m) ==> |u2[j]| == Pow2(m))
    && (forall j: nat, i: nat :: j < Pow2(m) && i < Pow2(m) ==> Entry2Ok(w, direction, u2[j][i], m, j, i))
  }

  ghost predicate Entry2Ok(w: Root, direction: int, c: Cx, m: nat, j: nat, i: nat)
  {
    Arith.TimesNat(j, i);
    Turned(direction, c) == w(2 * m, j * i)
  }

  /** TwiddleOneCol */
  method TwiddleOneCol(direction: int, j: nat, u: seq<Cx>, x: array2<Cx>)
    requires j < x.Length0 && |u| == x.Length1
    modifies x
    ensures forall i: nat :: i < x.Length1 ==> x[j, i] == Mul(Turned(direction, u[i]), old(x[j, i]))
    ensures forall r: nat, c: nat :: r < x.Length0 && c < x.Length1 && r != j ==> x[r, c] == old(x[r, c])
  {
    hide Mul, Turned;
    var i := 0;
    while i < x.Length1
      invariant 0 <= i <= x.Length1
      invariant forall r: nat, c: nat :: r < x.Length0 && c < x.Length1 ==>
        x[r, c] == if r == j && c < i then Mul(Turned(direction, u[c]), old(x[r, c])) else old(x[r, c])
    {
      x[j, i] := Mul(Turned(direction, u[i]), x[j, i]);
      i := i + 1;
    }
  }

  function Shrunk(N: nat, c: Cx): Cx
    requires N >= 1
  {
    Cx(c.re / (N as real), c.im / (N as real))
  }

  /** Scale */
  method Scale(N: nat, x: array2<Cx>, j: nat)
    requires j < x.Length0 && N >= 1
    modifies x
    ensures forall i: nat :: i < x.Length1 ==> x[j, i] == Shrunk(N, old(x[j, i]))
    ensures forall r: nat, c: nat :: r < x.Length0 && c < x.Length1 && r != j ==> x[r, c] == old(x[r, c])
  {
    hide Shrunk;
    var i := 0;
    while i < x.Length1
      invariant 0 <= i <= x.Length1
      invariant forall r: nat, c: nat :: r < x.Length0 && c < x.Length1 ==>
        x[r, c] == if r == j && c < i then Shrunk(N, old(x[r, c])) else old(x[r, c])
    {
      x[j, i] := Shrunk(N, x[j, i]);
      i := i + 1;
    }
  }

  // ---------------------------------------------------------------------
  // The matrix after each phase
  // ---------------------------------------------------------------------

  /** The input, row by row. */
  ghost function Given(x: int -> Cx, m: nat): (nat, nat) -> Cx { (r: nat, c: nat) => x(r * Pow2(m) + c) }

  ghost function Flip(T: (nat, nat) -> Cx): (nat, nat) -> Cx { (r: nat, c: nat) => T(c, r) }

  /** After the first transforms and the roots. */
  ghost function AfterColumns(w: Root, m: nat, x: int -> Cx): (nat, nat) -> Cx {
    (j: nat, k1: nat) => Twiddled(w, m, x, j, k1)
  }

  ghost function Output(direction: int, m: nat, c: Cx): Cx { if direction == -1 then Shrunk(Pow2(2 * m), c) else c }

  /** After the second transforms. */
  ghost function AfterRows(w: Root, direction: int, m: nat, x: int -> Cx): (nat, nat) -> Cx
  {
    (k1: nat, k2: nat) => Output(direction, m, Dft(w, m, Mixed(w, m, x, k1), k2))
  }

  /** After the last transpose: the long transform, row by row. */
  ghost function Transformed(w: Root, direction: int, m: nat, x: int -> Cx): (nat, nat) -> Cx
  {
    (r: nat, c: nat) => Arith.TimesNat(r, Pow2(m)); Output(direction, m, Dft(w, 2 * m, x, r * Pow2(m) + c))
  }

  /** One row of the first phase: transform, then multiply by the roots. */
  method ColumnRow(direction: int, m: nat, u: seq<Cx>, u2: seq<seq<Cx>>, dest: array2<Cx>, j: nat, ghost w: Root,
                   ghost x: int -> Cx)
    requires IsRoot(w) && TableOk(w, direction, u, m) && Table2Ok(w, direction, u2, m) && Square(dest, m) && j < Pow2(m)
    requires RowIs(dest, Flip(Given(x, m)), j)
    modifies dest
    ensures RowIs(dest, AfterColumns(w, m, x), j)
    ensures forall r: nat, c: nat :: r < Pow2(m) && c < Pow2(m) && r != j ==> dest[r, c] == old(dest[r, c])
  {
    hide IsRoot, TableOk, Dft, Mul, Turned, Pow2;
    FFT1DOnce(direction, m, u, dest, j, w, Column(x, Pow2(m), j));
    TwiddleOneCol(direction, j, u2[j], dest);
    forall i: nat | i < Pow2(m) ensures dest[j, i] == AfterColumns(w, m, x)(j, i) {
      assert Entry2Ok(w, direction, u2[j][i], m, j, i);
    }
  }

  /** One row of the second phase: transform, and divide by N on the way back. */
  method MixedRow(direction: int, m: nat, N: nat, u: seq<Cx>, dest: array2<Cx>, k1: nat, ghost w: Root,
                  ghost x: int -> Cx)
    requires IsRoot(w) && TableOk(w, direction, u, m) && Square(dest, m) && k1 < Pow2(m) && N == Pow2(2 * m)
    requires RowIs(dest, Flip(AfterColumns(w, m, x)), k1)
    modifies dest
    ensures RowIs(dest, AfterRows(w, direction, m, x), k1)
    ensures forall r: nat, c: nat :: r < Pow2(m) && c < Pow2(m) && r != k1 ==> dest[r, c] == old(dest[r, c])
  {
    hide IsRoot, TableOk, Dft, Twiddled, Shrunk, Pow2;
    FFT1DOnce(direction, m, u, dest, k1, w, Mixed(w, m, x, k1));
    if direction == -1 {
      Scale(N, dest, k1);
    }
  }

  // ---------------------------------------------------------------------
  // Threads
  // ---------------------------------------------------------------------

  ghost predicate AllRows(a: array2<Cx>, T: (nat, nat) -> Cx)
    reads a
  {
    forall r: nat :: r < a.Length0 ==> RowIs(a, T, r)
  }

  lemma MyRows(p: Plan, t: nat, first: nat, last: nat)
    requires Fits(p) && t < p.P && first == t * p.rows && last == first + p.rows
    ensures last <= Pow2(p.m) && forall r: nat :: Mine(p, r, t) <==> first <= r < last
  {
    hide Blocks, PlaceIn, StripOf;
    StripFits(t, p.P, p.rows, Pow2(p.m), p.rows);
    StripIs(p.rows, t, p.rows, first);
    forall r: nat ensures PlaceIn(r, p.rows) < p.rows { InStrip(r, p.rows); }
  }

  /** MyFirst */
  function FirstRow(p: Plan, t: nat): (r: nat)
    ensures r == t * p.rows
  {
    Arith.TimesNat(t, p.rows);
    t * p.rows
  }

  lemma InStrip(v: nat, rows: nat)
    requires rows >= 1
    ensures PlaceIn(v, rows) < rows
  {
    Arith.DivMod(v, rows);
  }

  /** The transpose of thread t, from a matrix that holds T. */
  method TransposeOwn(p: Plan, n1: nat, src: array2<Cx>, dest: array2<Cx>, t: nat, ghost T: (nat, nat) -> Cx)
    requires Fits(p) && n1 == Pow2(p.m) && t < p.P && src != dest && Square(src, p.m) && Square(dest, p.m)
      && AllRows(src, T)
    modifies dest
    ensures forall r: nat :: r < n1 && Mine(p, r, t) ==> RowIs(dest, Flip(T), r)
    ensures forall r: nat, c: nat :: r < n1 && c < n1 && !Mine(p, r, t) ==> dest[r, c] == old(dest[r, c])
  {
    hide Fits, Pow2, Mine;
    TransposeRows(p, n1, src, dest, t);
    forall r: nat, c: nat | r < n1 && c < n1 && Mine(p, r, t) ensures dest[r, c] == T(c, r) {
      assert RowIs(src, T, c);
    }
  }

  method ColumnsLoop(direction: int, m: nat, n1: nat, u: seq<Cx>, u2: seq<seq<Cx>>, dest: array2<Cx>, first: nat,
                     last: nat, ghost w: Root, ghost x: int -> Cx)
    requires IsRoot(w) && TableOk(w, direction, u, m) && Table2Ok(w, direction, u2, m) && Square(dest, m)
      && n1 == Pow2(m) && first <= last <= n1
    requires forall r: nat :: first <= r < last ==> RowIs(dest, Flip(Given(x, m)), r)
    modifies dest
    ensures forall r: nat :: first <= r < last ==> RowIs(dest, AfterColumns(w, m, x), r)
    ensures forall r: nat, c: nat :: r < n1 && c < n1 && !(first <= r < last) ==> dest[r, c] == old(dest[r, c])
  {
    hide IsRoot, TableOk, Table2Ok, AfterColumns, Pow2, Given, Flip;
    var j := first;
    while j < last
      invariant first <= j <= last
      invariant forall r: nat :: first <= r < j ==> RowIs(dest, AfterColumns(w, m, x), r)
      invariant forall r: nat, c: nat :: r < n1 && c < n1 && !(first <= r < j) ==> dest[r, c] == old(dest[r, c])
    {
      assert RowIs(dest, Flip(Given(x, m)), j) by { assert old(RowIs(dest, Flip(Given(x, m)), j)); }
      label before:
      ColumnRow(direction, m, u, u2, dest, j, w, x);
      forall r: nat | first <= r < j ensures RowIs(dest, AfterColumns(w, m, x), r) {
        assert old@before(RowIs(dest, AfterColumns(w, m, x), r));
      }
      j := j + 1;
    }
  }

  method RowsLoop(direction: int, m: nat, n1: nat, N: nat, u: seq<Cx>, dest: array2<Cx>, first: nat, last: nat,
                  ghost w: Root, ghost x: int -> Cx)
    requires IsRoot(w) && TableOk(w, direction, u, m) && Square(dest, m) && n1 == Pow2(m) && N == Pow2(2 * m)
      && first <= last <= n1
    requires forall r: nat :: first <= r < last ==> RowIs(dest, Flip(AfterColumns(w, m, x)), r)
    modifies dest
    ensures forall r: nat :: first <= r < last ==> RowIs(dest, AfterRows(w, direction, m, x), r)
    ensures forall r: nat, c: nat :: r < n1 && c < n1 && !(first <= r < last) ==> dest[r, c] == old(dest[r, c])
  {
    hide IsRoot, TableOk, AfterColumns, AfterRows, Pow2, Flip;
    var k1 := first;
    while k1 < last
      invariant first <= k1 <= last
      invariant forall r: nat :: first <= r < k1 ==> RowIs(dest, AfterRows(w, direction, m, x), r)
      invariant forall r: nat, c: nat :: r < n1 && c < n1 && !(first <= r < k1) ==> dest[r, c] == old(dest[r, c])
    {
      assert RowIs(dest, Flip(AfterColumns(w, m, x)), k1) by {
        assert old(RowIs(dest, Flip(AfterColumns(w, m, x)), k1));
      }
      label before:
      MixedRow(direction, m, N, u, dest, k1, w, x);
      forall r: nat | first <= r < k1 ensures RowIs(dest, AfterRows(w, direction, m, x), r) {
        assert old@before(RowIs(dest, AfterRows(w, direction, m, x), r));
      }
      k1 := k1 + 1;
    }
  }

  /** Thread t from the first barrier to the second. */
  method ColumnsPart(p: Plan, n1: nat, direction: int, u: seq<Cx>, u2: seq<seq<Cx>>, src: array2<Cx>, dest: array2<Cx>,
                     t: nat, ghost w: Root, ghost x: int -> Cx)
    requires Fits(p) && n1 == Pow2(p.m) && t < p.P && src != dest && Square(src, p.m) && Square(dest, p.m)
    requires IsRoot(w) && TableOk(w, direction, u, p.m) && Table2Ok(w, direction, u2, p.m)
      && AllRows(src, Given(x, p.m))
    modifies dest
    ensures forall r: nat :: r < n1 && Mine(p, r, t) ==> RowIs(dest, AfterColumns(w, p.m, x), r)
    ensures forall r: nat, c: nat :: r < n1 && c < n1 && !Mine(p, r, t) ==> dest[r, c] == old(dest[r, c])
  {
    hide IsRoot, TableOk, Table2Ok, AfterColumns, Pow2, Mine, RowIs, AllRows, Fits, Given, Flip;
    TransposeOwn(p, n1, src, dest, t, Given(x, p.m));
    var first := FirstRow(p, t);
    MyRows(p, t, first, first + p.rows);
    ColumnsLoop(direction, p.m, n1, u, u2, dest, first, first + p.rows, w, x);
  }

  /** Thread t from the second barrier to the third. */
  method RowsPart(p: Plan, n1: nat, N: nat, direction: int, u: seq<Cx>, src: array2<Cx>, dest: array2<Cx>, t: nat,
                  ghost w: Root, ghost x: int -> Cx)
    requires Fits(p) && n1 == Pow2(p.m) && N == Pow2(2 * p.m) && t < p.P && src != dest && Square(src, p.m)
      && Square(dest, p.m)
    requires IsRoot(w) && TableOk(w, direction, u, p.m) && AllRows(src, AfterColumns(w, p.m, x))
    modifies dest
    ensures forall r: nat :: r < n1 && Mine(p, r, t) ==> RowIs(dest, AfterRows(w, direction, p.m, x), r)
    ensures forall r: nat, c: nat :: r < n1 && c < n1 && !Mine(p, r, t) ==> dest[r, c] == old(dest[r, c])
  {
    hide IsRoot, TableOk, AfterRows, AfterColumns, Pow2, Mine, RowIs, AllRows, Fits, Flip;
    TransposeOwn(p, n1, src, dest, t, AfterColumns(w, p.m, x));
    var first := FirstRow(p, t);
    MyRows(p, t, first, first + p.rows);
    RowsLoop(direction, p.m, n1, N, u, dest, first, first + p.rows, w, x);
  }

  // ---------------------------------------------------------------------
  // All threads
  // ---------------------------------------------------------------------

  /** Every row has an owner. */
  lemma Owned(p: Plan, r: nat) returns (t: nat)
    requires Fits(p) && r < Pow2(p.m)
    ensures t < p.P && Mine(p, r, t)
  {
    hide Blocks;
    StripsBelow(Pow2(p.m), p.P, p.rows);
    t := StripOf(r, p.rows);
  }

  /** Between the first two barriers. */
  method AllColumns(p: Plan, n1: nat, direction: int, u: seq<Cx>, u2: seq<seq<Cx>>, src: array2<Cx>, dest: array2<Cx>,
                    ghost w: Root, ghost x: int -> Cx)
    requires Fits(p) && n1 == Pow2(p.m) && src != dest && Square(src, p.m) && Square(dest, p.m)
    requires IsRoot(w) && TableOk(w, direction, u, p.m) && Table2Ok(w, direction, u2, p.m)
      && AllRows(src, Given(x, p.m))
    modifies dest
    ensures AllRows(dest, AfterColumns(w, p.m, x))
  {
    hide IsRoot, TableOk, Table2Ok, AfterColumns, Pow2, Mine, Fits, Given;
    var todo := Pool(p.P);
    while todo != {}
      invariant todo <= Pool(p.P)
      invariant forall r: nat, t: nat :: r < n1 && Mine(p, r, t) && t < p.P && t !in todo ==>
        RowIs(dest, AfterColumns(w, p.m, x), r)
    {
      var t :| t in todo;
      label before:
      ColumnsPart(p, n1, direction, u, u2, src, dest, t, w, x);
      forall r: nat, s: nat | r < n1 && Mine(p, r, s) && s < p.P && s !in todo
        ensures RowIs(dest, AfterColumns(w, p.m, x), r) {
        assert old@before(RowIs(dest, AfterColumns(w, p.m, x), r));
      }
      todo := todo - {t};
    }
    forall r: nat | r < n1 ensures RowIs(dest, AfterColumns(w, p.m, x), r) {
      var t := Owned(p, r);
    }
  }

  /** Between the second and the third barrier. */
  method AllMixed(p: Plan, n1: nat, N: nat, direction: int, u: seq<Cx>, src: array2<Cx>, dest: array2<Cx>,
                  ghost w: Root, ghost x: int -> Cx)
    requires Fits(p) && n1 == Pow2(p.m) && N == Pow2(2 * p.m) && src != dest && Square(src, p.m) && Square(dest, p.m)
    requires IsRoot(w) && TableOk(w, direction, u, p.m) && AllRows(src, AfterColumns(w, p.m, x))
    modifies dest
    ensures AllRows(dest, AfterRows(w, direction, p.m, x))
  {
    hide IsRoot, TableOk, AfterColumns, AfterRows, Pow2, Mine, Fits;
    ghost var T := AfterRows(w, direction, p.m, x);
    var todo := Pool(p.P);
    while todo != {}
      invariant todo <= Pool(p.P)
      invariant forall r: nat, t: nat :: r < n1 && Mine(p, r, t) && t < p.P && t !in todo ==> RowIs(dest, T, r)
    {
      var t :| t in todo;
      label before:
      RowsPart(p, n1, N, direction, u, src, dest, t, w, x);
      forall r: nat, s: nat | r < n1 && Mine(p, r, s) && s < p.P && s !in todo ensures RowIs(dest, T, r) {
        assert old@before(RowIs(dest, T, r));
      }
      todo := todo - {t};
    }
    forall r: nat | r < n1 ensures RowIs(dest, T, r) {
      var t := Owned(p, r);
    }
  }

  /** Between the third and the fourth barrier. */
  method AllTransposed(p: Plan, n1: nat, src: array2<Cx>, dest: array2<Cx>, ghost T: (nat, nat) -> Cx)
    requires Fits(p) && n1 == Pow2(p.m) && src != dest && Square(src, p.m) && Square(dest, p.m) && AllRows(src, T)
    modifies dest
    ensures AllRows(dest, Flip(T))
  {
    hide Pow2, Mine, Fits, Flip;
    var todo := Pool(p.P);
    while todo != {}
      invariant todo <= Pool(p.P)
      invariant forall r: nat, t: nat :: r < n1 && Mine(p, r, t) && t < p.P && t !in todo ==> RowIs(dest, Flip(T), r)
    {
      var t :| t in todo;
      label before:
      TransposeOwn(p, n1, src, dest, t, T);
      forall r: nat, s: nat | r < n1 && Mine(p, r, s) && s < p.P && s !in todo ensures RowIs(dest, Flip(T), r) {
        assert old@before(RowIs(dest, Flip(T), r));
      }
      todo := todo - {t};
    }
    forall r: nat | r < n1 ensures RowIs(dest, Flip(T), r) {
      var t := Owned(p, r);
    }
  }

  /** CopyColumn on the rows of thread t. */
  method CopyOwn(p: Plan, n1: nat, src: array2<Cx>, dest: array2<Cx>, t: nat)
    requires Fits(p) && n1 == Pow2(p.m) && t < p.P && src != dest && Square(src, p.m) && Square(dest, p.m)
    modifies dest
    ensures forall r: nat, c: nat :: r < n1 && c < n1 ==>
      dest[r, c] == if Mine(p, r, t) then src[r, c] else old(dest[r, c])
  {
    hide Pow2, Mine, Fits;
    var first := FirstRow(p, t);
    MyRows(p, t, first, first + p.rows);
    var j := first;
    while j < first + p.rows
      invariant first <= j <= first + p.rows <= n1
      invariant forall r: nat, c: nat :: r < n1 && c < n1 ==>
        dest[r, c] == if first <= r < j then src[r, c] else old(dest[r, c])
    {
      var i := 0;
      while i < n1
        invariant 0 <= i <= n1
        invariant forall r: nat, c: nat :: r < n1 && c < n1 ==>
          dest[r, c] == if first <= r < j || (r == j && c < i) then src[r, c] else old(dest[r, c])
      {
        dest[j, i] := src[j, i];
        i := i + 1;
      }
      j := j + 1;
    }
  }

  /** After the fourth barrier. */
  method AllCopied(p: Plan, n1: nat, src: array2<Cx>, dest: array2<Cx>, ghost T: (nat, nat) -> Cx)
    requires Fits(p) && n1 == Pow2(p.m) && src != dest && Square(src, p.m) && Square(dest, p.m) && AllRows(src, T)
    modifies dest
    ensures AllRows(dest, T)
  {
    hide Pow2, Mine, Fits;
    var todo := Pool(p.P);
    while todo != {}
      invariant todo <= Pool(p.P)
      invariant forall r: nat, t: nat :: r < n1 && Mine(p, r, t) && t < p.P && t !in todo ==> RowIs(dest, T, r)
    {
      var t :| t in todo;
      label before:
      CopyOwn(p, n1, src, dest, t);
      forall r: nat, s: nat | r < n1 && Mine(p, r, s) && s < p.P && s !in todo ensures RowIs(dest, T, r) {
        assert old@before(RowIs(dest, T, r)) && RowIs(src, T, r);
      }
      forall r: nat | r < n1 && Mine(p, r, t) ensures RowIs(dest, T, r) {
        assert RowIs(src, T, r);
      }
      todo := todo - {t};
    }
    forall r: nat | r < n1 ensures RowIs(dest, T, r) {
      var t := Owned(p, r);
    }
  }

  // ---------------------------------------------------------------------
  // The long transform
  // ---------------------------------------------------------------------

  /** The last transpose puts the long transform in order. */
  lemma SixStepsInOrder(w: Root, direction: int, m: nat, x: int -> Cx, r: nat, c: nat)
    requires IsRoot(w) && r < Pow2(m) && c < Pow2(m)
    ensures Flip(AfterRows(w, direction, m, x))(r, c) == Transformed(w, direction, m, x)(r, c)
  {
    hide IsRoot, Dft, Mixed, Pow2, Output;
    SixSteps(w, m, x, c, r);
    Arith.TimesNat(r, Pow2(m));
    Arith.MulCommutes(r, Pow2(m));
  }

  /**
   FFT1D: the scratch matrix, and x itself when a result is wanted, hold the transform of the N entries of x in
   order.
   */
  method FFT1D(p: Plan, n1: nat, N: nat, direction: int, u: seq<Cx>, u2: seq<seq<Cx>>, x: array2<Cx>,
               scratch: array2<Cx>, wanted: bool, ghost w: Root, ghost f: int -> Cx)
    requires Fits(p) && n1 == Pow2(p.m) && N == Pow2(2 * p.m) && x != scratch && Square(x, p.m) && Square(scratch, p.m)
    requires IsRoot(w) && TableOk(w, direction, u, p.m) && Table2Ok(w, direction, u2, p.m) && AllRows(x, Given(f, p.m))
    modifies x, scratch
    ensures AllRows(scratch, Transformed(w, direction, p.m, f))
    ensures wanted ==> AllRows(x, Transformed(w, direction, p.m, f))
  {
    hide IsRoot, TableOk, Table2Ok, Pow2, Fits, Given, AfterColumns, AfterRows, Flip, Transformed;
    AllColumns(p, n1, direction, u, u2, x, scratch, w, f);
    AllMixed(p, n1, N, direction, u, scratch, x, w, f);
    ghost var T := AfterRows(w, direction, p.m, f);
    AllTransposed(p, n1, x, scratch, T);
    forall r: nat, c: nat | r < n1 && c < n1 ensures scratch[r, c] == Transformed(w, direction, p.m, f)(r, c) {
      assert RowIs(scratch, Flip(T), r);
      SixStepsInOrder(w, direction, p.m, f, r, c);
    }
    if wanted {
      AllCopied(p, n1, scratch, x, Transformed(w, direction, p.m, f));
    }
  }

  lemma ConjugateTables(w: Root, u: seq<Cx>, u2: seq<seq<Cx>>, m: nat)
    requires TableOk(w, 1, u, m) && Table2Ok(w, 1, u2, m)
    ensures TableOk(Conjugate(w), -1, u, m) && Table2Ok(Conjugate(w), -1, u2, m)
  {
    hide Pow2;
    forall q: nat, j: nat | q < m && j < Pow2(q) ensures EntryOk(Conjugate(w), -1, u, q, j) {
      assert EntryOk(w, 1, u, q, j);
    }
    forall j: nat, i: nat | j < Pow2(m) && i < Pow2(m) ensures Entry2Ok(Conjugate(w), -1, u2[j][i], m, j, i) {
      assert Entry2Ok(w, 1, u2[j][i], m, j, i);
      Arith.TimesNat(j, i);
    }
  }

  lemma ForwardRows(w: Root, m: nat, f: int -> Cx, r: nat, c: nat)
    ensures Transformed(w, 1, m, f)(r, c) == Given(Forward(w, 2 * m, f), m)(r, c)
  {
    hide Dft, Pow2;
    Arith.TimesNat(r, Pow2(m));
    var t: nat := r * Pow2(m) + c;
    var g, T := Forward(w, 2 * m, f), Transformed(w, 1, m, f);
    assert g(t) == Dft(w, 2 * m, f, t);
    var G := Given(g, m);
    assert G(r, c) == g(t);
    assert T(r, c) == Output(1, m, Dft(w, 2 * m, f, t));
  }

  lemma BackwardRows(w: Root, v: Root, m: nat, f: int -> Cx, r: nat, c: nat)
    requires IsRoot(w) && IsRoot(v) && Inverses(w, v) && r < Pow2(m) && c < Pow2(m)
    ensures Transformed(v, -1, m, Forward(w, 2 * m, f))(r, c) == Given(f, m)(r, c)
  {
    hide IsRoot, Inverses, Dft, Pow2, Forward;
    Arith.TimesNat(r, Pow2(m));
    PowSquare(m);
    StripFits(r, Pow2(m), Pow2(m), Pow2(2 * m), Pow2(m));
    RoundTrip(w, v, 2 * m, f, r * Pow2(m) + c);
  }

  /**
   The forward transform and, when the result is tested, the backward one (lines 518-526): the test gets back what
   it put in.
   */
  method TestRun(p: Plan, n1: nat, N: nat, u: seq<Cx>, u2: seq<seq<Cx>>, x: array2<Cx>, scratch: array2<Cx>, test: bool,
                 show: bool, ghost w: Root, ghost f: int -> Cx)
    requires Fits(p) && n1 == Pow2(p.m) && N == Pow2(2 * p.m) && x != scratch && Square(x, p.m) && Square(scratch, p.m)
    requires IsRoot(w) && TableOk(w, 1, u, p.m) && Table2Ok(w, 1, u2, p.m) && AllRows(x, Given(f, p.m))
    modifies x, scratch
    ensures test ==> AllRows(x, Given(f, p.m))
    ensures !test ==> AllRows(scratch, Transformed(w, 1, p.m, f))
  {
    hide IsRoot, TableOk, Table2Ok, Pow2, Fits, Given, Transformed, Inverses, Conjugate, Forward;
    FFT1D(p, n1, N, 1, u, u2, x, scratch, test || show, w, f);
    if test {
      ghost var v, g := Conjugate(w), Forward(w, 2 * p.m, f);
      ConjugateTables(w, u, u2, p.m);
      ConjugateIsRoot(w);
      ConjugateInverts(w);
      forall r: nat, c: nat | r < n1 && c < n1 ensures x[r, c] == Given(g, p.m)(r, c) {
        assert RowIs(x, Transformed(w, 1, p.m, f), r);
        ForwardRows(w, p.m, f, r, c);
      }
      FFT1D(p, n1, N, -1, u, u2, x, scratch, true, v, g);
      forall r: nat, c: nat | r < n1 && c < n1 ensures x[r, c] == Given(f, p.m)(r, c) {
        assert RowIs(x, Transformed(v, -1, p.m, g), r);
        BackwardRows(w, v, p.m, f, r, c);
      }
    }
  }
}
