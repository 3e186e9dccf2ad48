/**
 FFT1DOnce of apps/fft/fft.c with BitReverse and Reverse, lines 659-676 and 964-1032: the
 transform of one row of a matrix, in place.  Entry i of row r is the pair
 x[2 * (r * (n1 + pad_length) + i)], x[2 * (r * (n1 + pad_length) + i) + 1].
 */
module FftOnce {
  import opened PowerOfTwo
  import opened Complex
  import opened FftSpec
  import Arith

  // ---------------------------------------------------------------------
  // Bit reversal
  // ---------------------------------------------------------------------

  /** k with its lowest m bits reversed: the lowest bit becomes the highest. */
  function Rev(m: nat, k: nat): nat
  {
    if m == 0 then 0 else (if k % 2 == 1 then Pow2(m - 1) else 0) + Rev(m - 1, k / 2)
  }

  lemma {:induction false} RevBelow(m: nat, k: nat)
    ensures Rev(m, k) < Pow2(m)
  {
    if m > 0 {
      RevBelow(m - 1, k / 2);
      RevStep(m, k);
    }
  }

  /** The same number built from the other end. */
  lemma {:induction false} RevFromTop(m: nat, k: nat)
    ensures Rev(m + 1, k) == 2 * Rev(m, k) + (k / Pow2(m)) % 2
  {
    RevStep(m + 1, k);
    if m == 0 {
      assert Rev(0, k) == 0 && Rev(0, k / 2) == 0 && Pow2(0) == 1;
    } else {
      RevStep(m, k);
      RevFromTop(m - 1, k / 2);
      HalfThenPow(k, m);
      assert Pow2(m) == 2 * Pow2(m - 1);
      hide Rev, Pow2;
    }
  }

  lemma RevStep(m: nat, k: nat)
    requires m >= 1
    ensures Rev(m, k) == (if k % 2 == 1 then Pow2(m - 1) else 0) + Rev(m - 1, k / 2)
  {
  }

  lemma HalfThenPow(k: nat, m: nat)
    requires m >= 1
    ensures (k / 2) / Pow2(m - 1) == k / Pow2(m)
  {
    var p := Pow2(m - 1);
    var q, r := (k / 2) / p, (k / 2) % p;
    Arith.DivMod(k / 2, p);
    Arith.MulAssoc(q, p, 2);
    Arith.MulCommutes(p, 2);
    Arith.DivModUnique(k, 2 * p, q, 2 * r + k % 2);
  }

  /** BitReverse */
  method BitReverse(M: nat, k: nat) returns (j: nat)
    ensures j == Rev(M, k)
  {
    j := 0;
    var tmp := k;
    var i := 0;
    assert k / Pow2(0) == k;
    while i < M
      invariant 0 <= i <= M && j == Rev(i, k) && tmp == k / Pow2(i)
    {
      RevFromTop(i, k);
      NextBit(k, i);
      j := 2 * j + tmp % 2;
      tmp := tmp / 2;
      i := i + 1;
    }
  }

  lemma NextBit(k: nat, i: nat)
    ensures (k / Pow2(i)) / 2 == k / Pow2(i + 1)
  {
    var p := Pow2(i);
    var q, r := (k / p) / 2, (k / p) % 2;
    Arith.DivMod(k, p);
    Arith.MulDistribute(2 * q, r, p);
    Arith.MulAssoc(q, 2, p);
    assert k == q * (2 * p) + (r * p + k % p);
    Arith.MulCompare(r, 1, p);
    Arith.MulCompare(0, r, p);
    Arith.DivModUnique(k, 2 * p, q, r * p + k % p);
  }

  /** Bits above the first m do not matter. */
  lemma {:induction false} RevLow(m: nat, k: nat, c: nat)
    requires k < Pow2(m)
    ensures Rev(m, c * Pow2(m) + k) == Rev(m, k)
  {
    if m > 0 {
      var h := Pow2(m - 1);
      Arith.MulAssoc(c, 2, h);
      Arith.MulCommutes(c, 2);
      Arith.MulAssoc(2, c, h);
      assert c * Pow2(m) + k == 2 * (c * h) + k;
      HalfOfSum(c * h, k);
      RevLow(m - 1, k / 2, c);
    }
  }

  lemma HalfOfSum(a: nat, k: nat)
    ensures (2 * a + k) % 2 == k % 2 && (2 * a + k) / 2 == a + k / 2
  {
  }

  lemma RevOfSplit(m: nat, b: nat, r: nat)
    requires r < Pow2(m) && b < 2
    ensures Rev(m + 1, b * Pow2(m) + r) == 2 * Rev(m, r) + b
  {
    hide Rev, Pow2;
    RevLow(m, r, b);
    RevFromTop(m, b * Pow2(m) + r);
    Arith.DivModUnique(b * Pow2(m) + r, Pow2(m), b, r);
  }

  /** Reversing twice changes nothing. */
  lemma {:induction false} RevTwice(m: nat, k: nat)
    requires k < Pow2(m)
    ensures Rev(m, Rev(m, k)) == k
  {
    if m > 0 {
      var h, b, half := Pow2(m - 1), k % 2, k / 2;
      assert half < h;
      RevTwice(m - 1, half);
      RevBelow(m - 1, half);
      RevStep(m, k);
      hide Rev, Pow2;
      BitTimes(b, h);
      RevOfSplit(m - 1, b, Rev(m - 1, half));
    }
  }

  lemma BitTimes(b: nat, h: nat)
    requires b < 2
    ensures b * h == if b == 1 then h else 0
  {
  }

  // ---------------------------------------------------------------------
  // Reverse
  // ---------------------------------------------------------------------

  /** Reverse: row r ends up in bit-reversed order. */
  method Reverse(x: array2<Cx>, row: nat, M: nat)
    requires row < x.Length0 && x.Length1 == Pow2(M)
    modifies x
    ensures forall p: nat :: p < Pow2(M) ==> Rev(M, p) < Pow2(M) && x[row, p] == old(x[row, Rev(M, p)])
    ensures forall r: nat, p: nat :: r < x.Length0 && p < Pow2(M) && r != row ==> x[r, p] == old(x[r, p])
  {
    hide Rev;
    var N := Pow2(M);
    forall p: nat | p < N ensures Rev(M, p) < N && Rev(M, Rev(M, p)) == p {
      RevBelow(M, p);
      RevTwice(M, p);
    }
    var k := 0;
    while k < N
      invariant 0 <= k <= N
      invariant forall p: nat :: p < N ==>
        x[row, p] == if p < k || Rev(M, p) < k then old(x[row, Rev(M, p)]) else old(x[row, p])
      invariant forall r: nat, p: nat :: r < x.Length0 && p < N && r != row ==> x[r, p] == old(x[r, p])
    {
      var j := BitReverse(M, k);
      if j > k {
        x[row, j], x[row, k] := x[row, k], x[row, j];
      }
      k := k + 1;
    }
  }

  // ---------------------------------------------------------------------
  // The butterflies
  // ---------------------------------------------------------------------

  /** A table entry as used: its imaginary part changes sign with the direction. */
  function Turned(direction: int, c: Cx): Cx
  {
    Cx(c.re, (direction as real) * c.im)
  }

  /** Entry j of the table part for butterflies across 2^q positions. */
  ghost predicate EntryOk(w: Root, direction: int, u: seq<Cx>, q: nat, j: nat)
  {
    Pow2(q) - 1 + j < |u| && Turned(direction, u[Pow2(q) - 1 + j]) == w(q + 1, j)
  }

  /** The table of roots that InitU builds, for transforms of up to 2^M points. */
  ghost predicate TableOk(w: Root, direction: int, u: seq<Cx>, M: nat)
  {
    forall q: nat, j: nat :: q < M && j < Pow2(q) ==> EntryOk(w, direction, u, q, j)
  }

  ghost function Strided(f: int -> Cx, off: int, stride: int): int -> Cx
  {
    t => f(off + t * stride)
  }

  /** The block of L positions that p lies in, and its place there. */
  function Block(p: nat, L: nat): nat
    requires L >= 1
  {
    Arith.DivNat(p, L);
    p / L
  }

  function Place(p: nat, L: nat): nat
    requires L >= 1
  {
    Arith.DivNat(p, L);
    p % L
  }

  /** What position p holds after q rounds: an entry of the transform of every 2^(M-q)-th input. */
  ghost function Stage(w: Root, f: int -> Cx, M: nat, q: nat, p: nat): Cx
    requires q <= M
  {
    Dft(w, q, Strided(f, Rev(M - q, Block(p, Pow2(q))), Pow2(M - q)), Place(p, Pow2(q)))
  }

  /** p is place i of block b, for blocks of L positions. */
  ghost predicate PlacedAt(p: nat, b: nat, i: nat, L: nat) { i < L && p == b * L + i }

  lemma StageAt(w: Root, f: int -> Cx, M: nat, q: nat, b: nat, i: nat, p: nat)
    requires q <= M && PlacedAt(p, b, i, Pow2(q))
    ensures Stage(w, f, M, q, p) == Dft(w, q, Strided(f, Rev(M - q, b), Pow2(M - q)), i)
  {
    hide Dft, Rev, Pow2, Strided;
    Arith.DivModUnique(p, Pow2(q), b, i);
  }

  /** Block k of 2h positions starts at base. */
  ghost predicate BlockAt(base: nat, k: nat, h: nat) { base == k * (2 * h) }

  lemma HalvesOfBlock(base: nat, k: nat, h: nat, j: nat)
    requires BlockAt(base, k, h) && j < h
    ensures PlacedAt(base + j, 2 * k, j, h) && PlacedAt(base + h + j, 2 * k + 1, j, h)
    ensures PlacedAt(base + j, k, j, 2 * h) && PlacedAt(base + h + j, k, h + j, 2 * h)
  {
    Arith.MulAssoc(k, 2, h);
    Arith.MulNext(2 * k, h);
  }

  /** The blocks that meet in block k of round q + 1. */
  lemma StageBlocks(w: Root, f: int -> Cx, M: nat, q: nat, k: nat, j: nat, base: nat, h: nat)
    requires q < M && h == Pow2(q) && j < h && BlockAt(base, k, h)
    ensures Stage(w, f, M, q, base + j) == Dft(w, q, Strided(f, Rev(M - q, 2 * k), Pow2(M - q)), j)
    ensures Stage(w, f, M, q, base + h + j) == Dft(w, q, Strided(f, Rev(M - q, 2 * k + 1), Pow2(M - q)), j)
    ensures Stage(w, f, M, q + 1, base + j) == Dft(w, q + 1, Strided(f, Rev(M - q - 1, k), Pow2(M - q - 1)), j)
    ensures Stage(w, f, M, q + 1, base + h + j) == Dft(w, q + 1, Strided(f, Rev(M - q - 1, k), Pow2(M - q - 1)), h + j)
  {
    hide Dft, Rev, Pow2, Stage, Strided, BlockAt, PlacedAt;
    HalvesOfBlock(base, k, h, j);
    Pow2Next(q);
    StageAt(w, f, M, q, 2 * k, j, base + j);
    StageAt(w, f, M, q, 2 * k + 1, j, base + h + j);
    StageAt(w, f, M, q + 1, k, j, base + j);
    StageAt(w, f, M, q + 1, k, h + j, base + h + j);
  }

  /** One butterfly of round q + 1 in block k. */
  lemma ButterflyStage(w: Root, f: int -> Cx, M: nat, q: nat, k: nat, j: nat, base: nat, h: nat)
    requires IsRoot(w) && q < M && h == Pow2(q) && j < h && BlockAt(base, k, h)
    ensures var e, tau := Stage(w, f, M, q, base + j), Mul(w(q + 1, j), Stage(w, f, M, q, base + h + j));
      && Stage(w, f, M, q + 1, base + j) == Add(e, tau)
      && Stage(w, f, M, q + 1, base + h + j) == Sub(e, tau)
  {
    hide IsRoot, Dft, Rev, Pow2, Mul, Add, Sub, Stage, Strided, BlockAt;
    StageBlocks(w, f, M, q, k, j, base, h);
    ButterflyDft(w, f, M - q, q, k, j);
  }

  lemma ButterflyDft(w: Root, f: int -> Cx, m: nat, q: nat, k: nat, j: nat)
    requires IsRoot(w) && m >= 1
    ensures var e, tau := Dft(w, q, Strided(f, Rev(m, 2 * k), Pow2(m)), j),
      Mul(w(q + 1, j), Dft(w, q, Strided(f, Rev(m, 2 * k + 1), Pow2(m)), j));
      && Dft(w, q + 1, Strided(f, Rev(m - 1, k), Pow2(m - 1)), j) == Add(e, tau)
      && Dft(w, q + 1, Strided(f, Rev(m - 1, k), Pow2(m - 1)), Pow2(q) + j) == Sub(e, tau)
  {
    var o, s := Rev(m - 1, k), Pow2(m - 1);
    assert Pow2(m) == 2 * s;
    RevOfDouble(m, k);
    hide IsRoot, Dft, Rev, Pow2, Mul, Add, Sub, Strided;
    Butterfly(w, q, Strided(f, o, s), j);
    EvenOdd(w, q, f, o, s, j);
  }

  lemma RevOfDouble(m: nat, k: nat)
    requires m >= 1
    ensures Rev(m, 2 * k) == Rev(m - 1, k) && Rev(m, 2 * k + 1) == Rev(m - 1, k) + Pow2(m - 1)
  {
    hide Rev, Pow2;
    RevStep(m, 2 * k);
    RevStep(m, 2 * k + 1);
    assert (2 * k) / 2 == k && (2 * k + 1) / 2 == k && (2 * k) % 2 == 0 && (2 * k + 1) % 2 == 1;
  }

  lemma EvenOdd(w: Root, q: nat, f: int -> Cx, o: int, s: int, k: nat)
    ensures Dft(w, q, Even(Strided(f, o, s)), k) == Dft(w, q, Strided(f, o, 2 * s), k)
    ensures Dft(w, q, Odd(Strided(f, o, s)), k) == Dft(w, q, Strided(f, o + s, 2 * s), k)
  {
    hide Dft;
    var g := Strided(f, o, s);
    forall t | 0 <= t < Pow2(q)
      ensures Even(g)(t) == Strided(f, o, 2 * s)(t) && Odd(g)(t) == Strided(f, o + s, 2 * s)(t) {
      Arith.MulAssoc(t, 2, s);
      Arith.MulCommutes(t, 2);
      Arith.MulNext(2 * t, s);
    }
    DftEq(w, q, Even(g), Strided(f, o, 2 * s), k);
    DftEq(w, q, Odd(g), Strided(f, o + s, 2 * s), k);
  }

  /** The innermost loop: the butterflies of one block take its entries from round q to round q + 1. */
  method ButterflyBlock(x: array2<Cx>, row: nat, base: nat, h: nat, direction: int, u: seq<Cx>, ghost w: Root,
                        ghost f: int -> Cx, ghost M: nat, ghost q: nat, ghost k: nat)
    requires row < x.Length0 && base + 2 * h <= x.Length1
    requires IsRoot(w) && q < M && h == Pow2(q) && BlockAt(base, k, h) && TableOk(w, direction, u, M)
    requires forall p: nat :: base <= p < base + 2 * h ==> x[row, p] == Stage(w, f, M, q, p)
    modifies x
    ensures forall p: nat :: base <= p < base + 2 * h ==> x[row, p] == Stage(w, f, M, q + 1, p)
    ensures forall r: nat, p: nat :: r < x.Length0 && p < x.Length1 && !(r == row && base <= p < base + 2 * h) ==>
      x[r, p] == old(x[r, p])
  {
    hide Add, Sub, Mul, Turned, Stage, IsRoot, Pow2, BlockAt;
    var j := 0;
    while j < h
      invariant 0 <= j <= h
      invariant forall p: nat :: base <= p < base + 2 * h ==>
        x[row, p] == Stage(w, f, M, if p < base + j || base + h <= p < base + h + j then q + 1 else q, p)
      invariant forall r: nat, p: nat :: r < x.Length0 && p < x.Length1 && !(r == row && base <= p < base + 2 * h) ==>
        x[r, p] == old(x[r, p])
    {
      ButterflyStage(w, f, M, q, k, j, base, h);
      assert EntryOk(w, direction, u, q, j);
      var omega := Turned(direction, u[h - 1 + j]);
      var tau := Mul(omega, x[row, base + h + j]);
      var x1 := x[row, base + j];
      x[row, base + h + j] := Sub(x1, tau);
      x[row, base + j] := Add(x1, tau);
      j := j + 1;
    }
  }

  /** One round: all blocks of twice the size. */
  method Round(x: array2<Cx>, row: nat, direction: int, u: seq<Cx>, M: nat, q: nat, ghost w: Root, ghost f: int -> Cx)
    requires row < x.Length0 && x.Length1 == Pow2(M) && IsRoot(w) && q < M && TableOk(w, direction, u, M)
    requires forall p: nat :: p < Pow2(M) ==> x[row, p] == Stage(w, f, M, q, p)
    modifies x
    ensures forall p: nat :: p < Pow2(M) ==> x[row, p] == Stage(w, f, M, q + 1, p)
    ensures forall r: nat, p: nat :: r < x.Length0 && p < x.Length1 && r != row ==> x[r, p] == old(x[r, p])
  {
    var h, L := Pow2(q), Pow2(q + 1);
    var r := Pow2(M) / L;
    RoundsFit(M, q);
    hide Stage, IsRoot, Pow2, TableOk;
    var k := 0;
    while k < r
      invariant 0 <= k <= r
      invariant forall p: nat :: p < Pow2(M) ==> x[row, p] == Stage(w, f, M, if p < k * L then q + 1 else q, p)
      invariant forall s: nat, p: nat :: s < x.Length0 && p < x.Length1 && s != row ==> x[s, p] == old(x[s, p])
    {
      Arith.MulNext(k, L);
      Arith.MulCompare(k + 1, r, L);
      Arith.MulCompare(0, k, L);
      ButterflyBlock(x, row, k * L, h, direction, u, w, f, M, q, k);
      k := k + 1;
    }
  }

  lemma {:induction false} RoundsFit(M: nat, q: nat)
    requires q < M
    ensures Pow2(q + 1) == 2 * Pow2(q) && (Pow2(M) / Pow2(q + 1)) * Pow2(q + 1) == Pow2(M)
  {
    PowAdds(q + 1, M - q - 1);
    Arith.MulCommutes(Pow2(q + 1), Pow2(M - q - 1));
    Arith.DivModUnique(Pow2(M), Pow2(q + 1), Pow2(M - q - 1), 0);
  }

  lemma {:induction false} PowAdds(a: nat, b: nat)
    ensures Pow2(a + b) == Pow2(a) * Pow2(b)
  {
    if b > 0 {
      PowAdds(a, b - 1);
      Arith.MulAssoc(Pow2(a), 2, Pow2(b - 1));
      Arith.MulAssoc(2, Pow2(a), Pow2(b - 1));
      Arith.MulCommutes(Pow2(a), 2);
    }
  }

  /** FFT1DOnce: row r becomes its own transform. */
  method FFT1DOnce(direction: int, M: nat, u: seq<Cx>, x: array2<Cx>, row: nat, ghost w: Root, ghost f: int -> Cx)
    requires row < x.Length0 && x.Length1 == Pow2(M) && IsRoot(w) && TableOk(w, direction, u, M)
    requires forall p: nat :: p < Pow2(M) ==> x[row, p] == f(p)
    modifies x
    ensures forall p: nat :: p < Pow2(M) ==> x[row, p] == Dft(w, M, f, p)
    ensures forall r: nat, p: nat :: r < x.Length0 && p < x.Length1 && r != row ==> x[r, p] == old(x[r, p])
  {
    hide Stage, IsRoot, TableOk, Dft, Rev;
    Reverse(x, row, M);
    forall p: nat | p < Pow2(M) ensures x[row, p] == Stage(w, f, M, 0, p) {
      FirstStage(w, f, M, p);
    }
    var q := 0;
    while q < M
      invariant 0 <= q <= M
      invariant forall p: nat :: p < Pow2(M) ==> x[row, p] == Stage(w, f, M, q, p)
      invariant forall r: nat, p: nat :: r < x.Length0 && p < x.Length1 && r != row ==> x[r, p] == old(x[r, p])
    {
      Round(x, row, direction, u, M, q, w, f);
      q := q + 1;
    }
    forall p: nat | p < Pow2(M) ensures x[row, p] == Dft(w, M, f, p) {
      LastStage(w, f, M, p);
    }
  }

  lemma FirstStage(w: Root, f: int -> Cx, M: nat, p: nat)
    requires IsRoot(w) && p < Pow2(M)
    ensures Stage(w, f, M, 0, p) == f(Rev(M, p))
  {
    var g := Strided(f, Rev(M, p), Pow2(M));
    assert Pow2(0) == 1 && p / 1 == p && p % 1 == 0;
    OnePoint(w, g);
  }

  lemma OnePoint(w: Root, g: int -> Cx)
    requires IsRoot(w)
    ensures Dft(w, 0, g, 0) == g(0)
  {
    var t := Terms(w, 0, g, 0);
    assert Pow2(0) == 1 && 0 * 0 == 0;
    OneMore(t, 0);
    hide IsRoot, Mul, Add;
    RootZero(w, 0);
    MulUnit(g(0));
    assert t(0) == g(0);
    AddLaws(ZERO, t(0), ZERO);
    AddLaws(t(0), ZERO, ZERO);
  }

  lemma LastStage(w: Root, f: int -> Cx, M: nat, p: nat)
    requires p < Pow2(M)
    ensures Stage(w, f, M, M, p) == Dft(w, M, f, p)
  {
    hide Dft;
    Arith.DivModUnique(p, Pow2(M), 0, p);
    var g := Strided(f, 0, 1);
    assert Rev(0, 0) == 0 && Pow2(0) == 1;
    DftEq(w, M, g, f, p);
  }
}
