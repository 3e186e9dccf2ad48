/**
 The backward transform undoes the forward one: apps/fft/fft.c runs both and compares when asked
 to test (direction -1 turns every root into its inverse, and Scale divides by N, lines 756-761
 and 828-841).
 */
module FftInverse {
  import opened PowerOfTwo
  import opened Complex
  import opened FftSpec
  import opened FftSixStep
  import Arith

  ghost function Powers(w: Root, q: nat, d: nat): int -> Cx
  {
    k => if k < 0 then ZERO else Arith.TimesNat(d, k); w(q, d * k)
  }

  lemma OddTimes(e: nat, h: nat)
    ensures (2 * e + 1) * h == e * (2 * h) + h && e * (2 * h) >= 0
  {
    Arith.MulNext(2 * e, h);
    Arith.MulCommutes(2, e);
    Arith.MulAssoc(e, 2, h);
    Arith.TimesNat(e, 2 * h);
  }

  /** An odd multiple of half a turn. */
  lemma OddHalfTurn(w: Root, q: nat, e: nat)
    requires IsRoot(w)
    ensures (2 * e + 1) * Pow2(q) >= 0 && w(q + 1, (2 * e + 1) * Pow2(q)) == Neg(ONE)
  {
    assert Pow2(q + 1) == 2 * Pow2(q);
    hide IsRoot, Pow2, Mul;
    OddTimes(e, Pow2(q));
    TwoParts(w, q, e * (2 * Pow2(q)), Pow2(q), e);
  }

  lemma TwoParts(w: Root, q: nat, a: nat, h: nat, e: nat)
    requires IsRoot(w) && h == Pow2(q) && a == e * Pow2(q + 1)
    ensures w(q + 1, a + h) == Neg(ONE)
  {
    hide IsRoot, Pow2, Mul;
    RootTurns(w, q + 1, e);
    RootMinus(w, q);
    RootAdd(w, q + 1, a, h);
    MulUnit(Neg(ONE));
  }

  /** Half a turn further, an odd multiple changes sign. */
  lemma OddTerm(w: Root, q: nat, e: nat, k: nat)
    requires IsRoot(w)
    ensures Powers(w, q + 1, 2 * e + 1)(Pow2(q) + k) == Neg(Powers(w, q + 1, 2 * e + 1)(k))
  {
    hide IsRoot, Mul, Pow2;
    var d, h := 2 * e + 1, Pow2(q);
    Arith.TimesNat(d, k);
    Arith.TimesNat(d, h);
    Arith.TimesNat(d, h + k);
    Arith.MulDistribute(h, k, d);
    Arith.MulCommutes(d, h + k);
    Arith.MulCommutes(d, h);
    Arith.MulCommutes(d, k);
    OddHalfTurn(w, q, e);
    RootAdd(w, q + 1, d * h, d * k);
    MulCommutes(Neg(ONE), w(q + 1, d * k));
    MulUnit(w(q + 1, d * k));
  }

  /** An even multiple is a multiple for half the length, and repeats after half a turn. */
  lemma EvenTerm(w: Root, q: nat, e: nat, k: nat)
    requires IsRoot(w)
    ensures Powers(w, q + 1, 2 * e)(k) == Powers(w, q, e)(k)
    ensures Powers(w, q + 1, 2 * e)(Pow2(q) + k) == Powers(w, q, e)(k)
  {
    hide IsRoot, Mul, Pow2;
    var h := Pow2(q);
    Arith.TimesNat(e, k);
    Arith.TimesNat(e, h);
    Arith.TimesNat(e, h + k);
    Arith.MulAssoc(2, e, k);
    Arith.MulAssoc(2, e, h + k);
    RootHalf(w, q, e * k);
    RootHalf(w, q, e * (h + k));
    Arith.MulDistribute(h, k, e);
    Arith.MulCommutes(e, h + k);
    Arith.MulCommutes(e, h);
    Arith.MulCommutes(e, k);
    RootAdd(w, q, e * h, e * k);
    RootTurns(w, q, e);
    MulUnit(w(q, e * k));
  }

  lemma OppositeHalves(f: int -> Cx, h: nat)
    requires forall k :: 0 <= k < h ==> Shifted(f, h)(k) == Neg(f(k))
    ensures CSum(f, 2 * h) == ZERO
  {
    hide Add, CSum;
    SumShift(f, h, h);
    var zero := (k: int) => ZERO;
    forall k | 0 <= k < h ensures zero(k) == Add(f(k), Shifted(f, h)(k)) {
      Opposite(f(k));
    }
    CSumAdd(f, Shifted(f, h), zero, h);
    CSumZero(zero, h);
  }

  lemma EqualHalves(f: int -> Cx, g: int -> Cx, h: nat)
    requires forall k :: 0 <= k < h ==> f(k) == g(k) && Shifted(f, h)(k) == g(k)
    requires CSum(g, h) == ZERO
    ensures CSum(f, 2 * h) == ZERO
  {
    AddLaws(ZERO, ZERO, ZERO);
    hide Add, CSum;
    SumShift(f, h, h);
    CSumEq(f, g, h);
    CSumEq(Shifted(f, h), g, h);
  }

  lemma OddCancels(w: Root, q: nat, e: nat)
    requires IsRoot(w)
    ensures CSum(Powers(w, q + 1, 2 * e + 1), Pow2(q + 1)) == ZERO
  {
    assert Pow2(q + 1) == 2 * Pow2(q);
    hide IsRoot, Pow2, Powers, CSum;
    var f, h := Powers(w, q + 1, 2 * e + 1), Pow2(q);
    forall k | 0 <= k < h ensures Shifted(f, h)(k) == Neg(f(k)) {
      OddTerm(w, q, e, k);
    }
    OppositeHalves(f, h);
  }

  lemma EvenCancels(w: Root, q: nat, e: nat)
    requires IsRoot(w) && CSum(Powers(w, q, e), Pow2(q)) == ZERO
    ensures CSum(Powers(w, q + 1, 2 * e), Pow2(q + 1)) == ZERO
  {
    assert Pow2(q + 1) == 2 * Pow2(q);
    hide IsRoot, Pow2, Powers, CSum;
    var f, g, h := Powers(w, q + 1, 2 * e), Powers(w, q, e), Pow2(q);
    forall k | 0 <= k < h ensures f(k) == g(k) && Shifted(f, h)(k) == g(k) {
      EvenTerm(w, q, e, k);
    }
    EqualHalves(f, g, h);
  }

  /** The powers of a root other than one add up to zero. */
  lemma {:induction false} PowersCancel(w: Root, q: nat, d: nat)
    requires IsRoot(w) && 0 < d < Pow2(q)
    ensures CSum(Powers(w, q, d), Pow2(q)) == ZERO
  {
    hide IsRoot, Powers, CSum;
    assert q > 0;
    if d % 2 == 1 {
      OddCancels(w, q - 1, d / 2);
    } else {
      PowersCancel(w, q - 1, d / 2);
      EvenCancels(w, q - 1, d / 2);
    }
  }

  lemma Opposite(a: Cx)
    ensures Add(a, Neg(a)) == ZERO
  {
  }

  // ---------------------------------------------------------------------
  // Forward and back
  // ---------------------------------------------------------------------

  /** v holds the inverses of the roots in w. */
  ghost predicate Inverses(w: Root, v: Root)
  {
    forall q: nat, k: nat :: Undoes(w, v, q, k)
  }

  ghost predicate Undoes(w: Root, v: Root, q: nat, k: nat) { Mul(w(q, k), v(q, k)) == ONE }

  lemma Undo(w: Root, v: Root, q: nat, k: nat)
    requires Inverses(w, v)
    ensures Mul(w(q, k), v(q, k)) == ONE
  {
    hide Mul;
    assert Undoes(w, v, q, k);
  }

  /** The roots with which direction -1 works. */
  ghost function Conjugate(w: Root): Root
  {
    (q: nat, k: nat) => Conj(w(q, k))
  }

  ghost function Conj(c: Cx): Cx { Cx(c.re, -c.im) }

  ghost function Norm(c: Cx): (r: real)
    ensures r >= 0.0
  {
    NotNegative(c.re);
    NotNegative(c.im);
    c.re * c.re + c.im * c.im
  }

  lemma NotNegative(a: real)
    ensures a * a >= 0.0
  {
  }

  lemma NormSquared(c: Cx)
    ensures Norm(Mul(c, c)) == Norm(c) * Norm(c)
  {
    SquaresAdd(c.re * c.re, c.im * c.im, c.re * c.im, c.re, c.im);
  }

  lemma SquaresAdd(a: real, b: real, m: real, x: real, y: real)
    requires a == x * x && b == y * y && m == x * y
    ensures (a - b) * (a - b) + (m + y * x) * (m + y * x) == (a + b) * (a + b)
  {
    assert m * m == a * b by {
      assert m * m == (x * y) * (x * y) == (x * x) * (y * y);
    }
  }

  lemma OnlyOne(n: real)
    requires n >= 0.0 && n * n == 1.0
    ensures n == 1.0
  {
    assert (n - 1.0) * (n + 1.0) == 0.0;
    NoZeroDivisor(n - 1.0, n + 1.0);
  }

  lemma NoZeroDivisor(a: real, b: real)
    requires a * b == 0.0 && b != 0.0
    ensures a == 0.0
  {
  }

  /** Roots of unity lie on the unit circle. */
  lemma {:induction false} OnCircle(w: Root, q: nat, k: nat)
    requires IsRoot(w)
    ensures Norm(w(q, k)) == 1.0
  {
    hide IsRoot, Norm, Mul;
    if q == 0 {
      RootTurns(w, 0, k);
      assert k * Pow2(0) == k;
      NormOfOne();
    } else {
      OnCircle(w, q - 1, k);
      RootHalf(w, q - 1, k);
      RootAdd(w, q, k, k);
      NormSquared(w(q, k));
      OnlyOne(Norm(w(q, k)));
    }
  }

  lemma NormOfOne()
    ensures Norm(ONE) == 1.0
  {
  }

  /** The conjugate of a number on the unit circle is its inverse. */
  lemma ConjugateUndoes(c: Cx)
    requires Norm(c) == 1.0
    ensures Mul(c, Conj(c)) == ONE
  {
  }

  lemma ConjMul(a: Cx, b: Cx)
    ensures Conj(Mul(a, b)) == Mul(Conj(a), Conj(b))
  {
  }

  lemma ConjugateIsRoot(w: Root)
    requires IsRoot(w)
    ensures IsRoot(Conjugate(w))
  {
    var v := Conjugate(w);
    forall q: nat ensures StartsAtOne(v, q) && HalfwayMinus(v, q) {
      RootZero(w, q);
      RootMinus(w, q);
    }
    forall q: nat, a: nat, b: nat ensures Multiplies(v, q, a, b) {
      hide IsRoot, Mul, Conj;
      RootAdd(w, q, a, b);
      ConjMul(w(q, a), w(q, b));
    }
    forall q: nat, a: nat ensures Squares(v, q, a) {
      RootHalf(w, q, a);
    }
  }

  lemma ConjugateInverts(w: Root)
    requires IsRoot(w)
    ensures Inverses(w, Conjugate(w))
  {
    hide IsRoot, Mul, Norm;
    forall q: nat, k: nat ensures Undoes(w, Conjugate(w), q, k) {
      OnCircle(w, q, k);
      ConjugateUndoes(w(q, k));
    }
  }

  /** The product of forward root s and backward root t, summed over all frequencies. */
  ghost function Pairing(w: Root, v: Root, q: nat, s: nat, t: nat): int -> Cx
  {
    k => if k < 0 then ZERO else Arith.TimesNat(s, k); Arith.TimesNat(t, k); Mul(w(q, s * k), v(q, t * k))
  }

  lemma PairingTerm(w: Root, v: Root, q: nat, s: nat, t: nat, k: nat)
    requires IsRoot(w) && IsRoot(v) && Inverses(w, v)
    ensures s == t ==> Pairing(w, v, q, s, t)(k) == ONE
    ensures s > t ==> Pairing(w, v, q, s, t)(k) == Powers(w, q, s - t)(k)
    ensures s < t ==> Pairing(w, v, q, s, t)(k) == Powers(v, q, t - s)(k)
  {
    hide IsRoot, Inverses, Mul;
    Arith.TimesNat(s, k);
    Arith.TimesNat(t, k);
    if s >= t {
      SplitTimes(s, t, k);
      RootAdd(w, q, (s - t) * k, t * k);
      Undo(w, v, q, t * k);
      MulAssoc(w(q, (s - t) * k), w(q, t * k), v(q, t * k));
      MulUnit(w(q, (s - t) * k));
      if s == t { RootZero(w, q); }
    } else {
      SplitTimes(t, s, k);
      RootAdd(v, q, s * k, (t - s) * k);
      Undo(w, v, q, s * k);
      MulAssoc(w(q, s * k), v(q, s * k), v(q, (t - s) * k));
      MulUnit(v(q, (t - s) * k));
    }
  }

  lemma SplitTimes(s: nat, t: nat, k: nat)
    requires s >= t
    ensures s * k == (s - t) * k + t * k && (s - t) * k >= 0 && t * k >= 0 && (s == t ==> (s - t) * k == 0)
  {
    Arith.MulDistribute(s - t, t, k);
    Arith.TimesNat(s - t, k);
    Arith.TimesNat(t, k);
  }

  ghost function Scalar(n: int): Cx { Cx(n as real, 0.0) }

  lemma {:induction false} SumOfOnes(f: int -> Cx, n: nat)
    requires forall k :: 0 <= k < n ==> f(k) == ONE
    ensures CSum(f, n) == Scalar(n)
  {
    if n > 0 { SumOfOnes(f, n - 1); }
  }

  /** Forward and backward roots are orthogonal. */
  lemma Orthogonal(w: Root, v: Root, q: nat, s: nat, t: nat)
    requires IsRoot(w) && IsRoot(v) && Inverses(w, v) && s < Pow2(q) && t < Pow2(q)
    ensures CSum(Pairing(w, v, q, s, t), Pow2(q)) == if s == t then Scalar(Pow2(q)) else ZERO
  {
    var f, n := Pairing(w, v, q, s, t), Pow2(q);
    hide IsRoot, Inverses, Pairing, Powers, CSum, Pow2, Scalar;
    forall k | 0 <= k < n
      ensures s == t ==> f(k) == ONE
      ensures s > t ==> f(k) == Powers(w, q, s - t)(k)
      ensures s < t ==> f(k) == Powers(v, q, t - s)(k)
    {
      PairingTerm(w, v, q, s, t, k);
    }
    if s == t {
      SumOfOnes(f, n);
    } else if s > t {
      CSumEq(f, Powers(w, q, s - t), n);
      PowersCancel(w, q, s - t);
    } else {
      CSumEq(f, Powers(v, q, t - s), n);
      PowersCancel(v, q, t - s);
    }
  }

  /** Forward, then backward: entry t of the backward transform is N times the input. */
  lemma BackAndForth(w: Root, v: Root, q: nat, x: int -> Cx, t: nat)
    requires IsRoot(w) && IsRoot(v) && Inverses(w, v) && t < Pow2(q)
    ensures Dft(v, q, Forward(w, q, x), t) == Mul(Scalar(Pow2(q)), x(t))
  {
    var n := Pow2(q);
    var both, fwd, c := Both(w, v, q, x, t), Forward(w, q, x), Mul(Scalar(n), x(t));
    DftIs(v, q, fwd, t);
    hide IsRoot, Inverses, Pow2, Dft, Scalar, Mul, CSum, ColSums, RowSums, Both, Forward, Terms;
    forall k | 0 <= k < n ensures Terms(v, q, fwd, t)(k) == ColSums(both, n)(k) {
      FrequencyTerm(w, v, q, x, t, k);
    }
    CSumEq(Terms(v, q, fwd, t), ColSums(both, n), n);
    CSumExchange(both, n, n);
    forall s | 0 <= s < n ensures RowSums(both, n)(s) == if s == t then c else ZERO {
      TimeTerm(w, v, q, x, t, s);
    }
    CSumOne(RowSums(both, n), n, t, c);
  }

  /** The forward transform as a function of the frequency. */
  ghost function Forward(w: Root, q: nat, x: int -> Cx): int -> Cx
  {
    k => if k < 0 then ZERO else Dft(w, q, x, k)
  }

  /** Time s, frequency k: x(s), forward root, backward root. */
  ghost function Both(w: Root, v: Root, q: nat, x: int -> Cx, t: nat): (int, int) -> Cx
  {
    (s, k) => if s < 0 then ZERO else Mul(x(s), Pairing(w, v, q, s, t)(k))
  }

  lemma {:induction false} CSumOne(f: int -> Cx, n: nat, t: nat, c: Cx)
    requires forall s :: 0 <= s < n ==> f(s) == if s == t then c else ZERO
    ensures CSum(f, n) == if t < n then c else ZERO
  {
    hide Add;
    if n > 0 {
      CSumOne(f, n - 1, t, c);
      OneMore(f, n - 1);
      hide CSum;
      AddLaws(c, ZERO, ZERO);
      AddLaws(ZERO, c, ZERO);
      AddLaws(ZERO, ZERO, ZERO);
    }
  }

  lemma FrequencyTerm(w: Root, v: Root, q: nat, x: int -> Cx, t: nat, k: nat)
    ensures Terms(v, q, Forward(w, q, x), t)(k) == ColSums(Both(w, v, q, x, t), Pow2(q))(k)
  {
    Arith.TimesNat(k, t);
    Arith.TimesNat(t, k);
    Arith.MulCommutes(k, t);
    var c, n := v(q, k * t), Pow2(q);
    var short, long := Terms(w, q, x, k), (s: int) => Both(w, v, q, x, t)(s, k);
    hide Mul, Pow2;
    forall s | 0 <= s < n ensures long(s) == Mul(c, short(s)) {
      BothTerm(w, v, q, x, t, s, k);
    }
    CSumScale(c, short, long, n);
    CSumEq(long, s => Both(w, v, q, x, t)(s, k), n);
    MulCommutes(c, CSum(short, n));
  }

  lemma BothTerm(w: Root, v: Root, q: nat, x: int -> Cx, t: nat, s: nat, k: nat)
    ensures k * t >= 0 && Both(w, v, q, x, t)(s, k) == Mul(v(q, k * t), Terms(w, q, x, k)(s))
  {
    hide Mul;
    Arith.TimesNat(s, k);
    Arith.TimesNat(t, k);
    Arith.MulCommutes(k, t);
    var a, b, c := x(s), w(q, s * k), v(q, k * t);
    var g := Both(w, v, q, x, t);
    assert t * k == k * t;
    assert Pairing(w, v, q, s, t)(k) == Mul(b, c);
    assert g(s, k) == Mul(a, Mul(b, c));
    MulCommutes(b, c);
    MulSwap(a, c, b);
  }

  lemma TimeTerm(w: Root, v: Root, q: nat, x: int -> Cx, t: nat, s: nat)
    requires IsRoot(w) && IsRoot(v) && Inverses(w, v) && t < Pow2(q) && s < Pow2(q)
    ensures RowSums(Both(w, v, q, x, t), Pow2(q))(s) == if s == t then Mul(Scalar(Pow2(q)), x(t)) else ZERO
  {
    var n := Pow2(q);
    var long := (k: int) => Both(w, v, q, x, t)(s, k);
    hide IsRoot, Inverses, Mul, Pow2, Pairing, Scalar;
    forall k | 0 <= k < n ensures long(k) == Mul(x(s), Pairing(w, v, q, s, t)(k)) {
      var g := Both(w, v, q, x, t);
      assert g(s, k) == Mul(x(s), Pairing(w, v, q, s, t)(k));
    }
    CSumScale(x(s), Pairing(w, v, q, s, t), long, n);
    CSumEq(long, k => Both(w, v, q, x, t)(s, k), n);
    Orthogonal(w, v, q, s, t);
    MulCommutes(x(s), Scalar(n));
    MulUnit(x(s));
  }

  /** Scale divides by N: the round trip gives back the input. */
  lemma RoundTrip(w: Root, v: Root, q: nat, x: int -> Cx, t: nat)
    requires IsRoot(w) && IsRoot(v) && Inverses(w, v) && t < Pow2(q)
    ensures var y := Dft(v, q, Forward(w, q, x), t); Cx(y.re / (Pow2(q) as real), y.im / (Pow2(q) as real)) == x(t)
  {
    BackAndForth(w, v, q, x, t);
    ScaledBack(Pow2(q), x(t));
  }

  lemma ScaledBack(n: nat, c: Cx)
    requires n >= 1
    ensures var y := Mul(Scalar(n), c); Cx(y.re / (n as real), y.im / (n as real)) == c
  {
    Cancelled(n as real, c.re);
    Cancelled(n as real, c.im);
  }

  lemma Cancelled(n: real, a: real)
    requires n > 0.0
    ensures (n * a) / n == a
  {
  }
}
