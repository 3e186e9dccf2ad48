/**
 The discrete Fourier transform of length 2^q, apps/fft/fft.c, for roots of unity given by
 the identities they satisfy.
 */
module FftSpec {
  import opened PowerOfTwo
  import opened Complex
  import Arith

  /** w(q, k) is the k-th power of a primitive 2^q-th root of unity. */
  type Root = (nat, nat) -> Cx

  ghost predicate StartsAtOne(w: Root, q: nat) { w(q, 0) == ONE }
  ghost predicate Multiplies(w: Root, q: nat, a: nat, b: nat) { w(q, a + b) == Mul(w(q, a), w(q, b)) }
  ghost predicate Squares(w: Root, q: nat, a: nat) { w(q + 1, 2 * a) == w(q, a) }
  ghost predicate HalfwayMinus(w: Root, q: nat) { w(q + 1, Pow2(q)) == Neg(ONE) }

  ghost predicate IsRoot(w: Root)
  {
    && (forall q: nat :: StartsAtOne(w, q))
    && (forall q: nat, a: nat, b: nat :: Multiplies(w, q, a, b))
    && (forall q: nat, a: nat :: Squares(w, q, a))
    && (forall q: nat :: HalfwayMinus(w, q))
  }

  lemma RootZero(w: Root, q: nat)
    requires IsRoot(w)
    ensures w(q, 0) == ONE
  {
    assert StartsAtOne(w, q);
  }

  lemma RootAdd(w: Root, q: nat, a: nat, b: nat)
    requires IsRoot(w)
    ensures w(q, a + b) == Mul(w(q, a), w(q, b))
  {
    hide Mul;
    assert Multiplies(w, q, a, b);
  }

  lemma RootHalf(w: Root, q: nat, a: nat)
    requires IsRoot(w)
    ensures w(q + 1, 2 * a) == w(q, a)
  {
    assert Squares(w, q, a);
  }

  lemma RootMinus(w: Root, q: nat)
    requires IsRoot(w)
    ensures w(q + 1, Pow2(q)) == Neg(ONE)
  {
    assert HalfwayMinus(w, q);
  }

  lemma TwiceHalfway(w: Root, q: nat, h: nat)
    requires IsRoot(w) && w(q + 1, h) == Neg(ONE)
    ensures w(q, h) == ONE
  {
    hide Mul, IsRoot;
    MinusTimesMinus();
    RootAdd(w, q + 1, h, h);
    RootHalf(w, q, h);
    assert h + h == 2 * h;
  }

  lemma MinusTimesMinus()
    ensures Mul(Neg(ONE), Neg(ONE)) == ONE
  {
  }

  /** Going all the way round gives one. */
  lemma RootRound(w: Root, q: nat)
    requires IsRoot(w)
    ensures w(q, Pow2(q)) == ONE
  {
    hide IsRoot, Pow2;
    RootMinus(w, q);
    TwiceHalfway(w, q, Pow2(q));
  }

  lemma {:induction false} RootTurns(w: Root, q: nat, t: nat)
    requires IsRoot(w)
    ensures w(q, t * Pow2(q)) == ONE
  {
    hide IsRoot, Mul;
    if t == 0 {
      RootZero(w, q);
    } else {
      RootTurns(w, q, t - 1);
      Arith.MulNext(t - 1, Pow2(q));
      RootAdd(w, q, (t - 1) * Pow2(q), Pow2(q));
      RootRound(w, q);
      MulUnit(ONE);
    }
  }

  // ---------------------------------------------------------------------
  // The transform
  // ---------------------------------------------------------------------

  ghost function Term(w: Root, q: nat, f: int -> Cx, k: nat, t: int): Cx
  {
    if t < 0 then ZERO else Arith.TimesNat(t, k); Mul(f(t), w(q, t * k))
  }

  ghost function Terms(w: Root, q: nat, f: int -> Cx, k: nat): int -> Cx
  {
    t => Term(w, q, f, k, t)
  }

  /** Entry k of the 2^q-point transform of f. */
  ghost function Dft(w: Root, q: nat, f: int -> Cx, k: nat): Cx
  {
    CSum(Terms(w, q, f, k), Pow2(q))
  }

  lemma DftEq(w: Root, q: nat, f: int -> Cx, g: int -> Cx, k: nat)
    requires forall t :: 0 <= t < Pow2(q) ==> f(t) == g(t)
    ensures Dft(w, q, f, k) == Dft(w, q, g, k)
  {
    hide Mul, Pow2;
    CSumEq(Terms(w, q, f, k), Terms(w, q, g, k), Pow2(q));
  }

  /** The transform repeats after 2^q entries. */
  lemma DftRepeats(w: Root, q: nat, f: int -> Cx, k: nat)
    requires IsRoot(w)
    ensures Dft(w, q, f, k + Pow2(q)) == Dft(w, q, f, k)
  {
    hide IsRoot, Mul, Pow2;
    var a, b := Terms(w, q, f, k + Pow2(q)), Terms(w, q, f, k);
    forall t | 0 <= t < Pow2(q) ensures a(t) == b(t) {
      Arith.TimesNat(t, k);
      Arith.TimesNat(t, Pow2(q));
      Arith.MulDistribute(k, Pow2(q), t);
      Arith.MulCommutes(t, k + Pow2(q));
      Arith.MulCommutes(t, k);
      Arith.MulCommutes(t, Pow2(q));
      RootAdd(w, q, t * k, t * Pow2(q));
      RootTurns(w, q, t);
      MulUnit(w(q, t * k));
    }
    CSumEq(a, b, Pow2(q));
  }

  ghost function Even(f: int -> Cx): int -> Cx { t => f(2 * t) }
  ghost function Odd(f: int -> Cx): int -> Cx { t => f(2 * t + 1) }

  /** The first 2m terms of a transform of twice the length, from m terms of the two halves. */
  lemma {:induction false} HalvesUpto(w: Root, q: nat, f: int -> Cx, k: nat, m: nat)
    requires IsRoot(w)
    ensures CSum(Terms(w, q + 1, f, k), 2 * m)
         == Add(CSum(Terms(w, q, Even(f), k), m), Mul(w(q + 1, k), CSum(Terms(w, q, Odd(f), k), m)))
    decreases m
  {
    var all, ev, od := Terms(w, q + 1, f, k), Terms(w, q, Even(f), k), Terms(w, q, Odd(f), k);
    var c := w(q + 1, k);
    if m == 0 {
      hide IsRoot, Mul, Add;
      MulUnit(c);
      AddLaws(ZERO, ZERO, ZERO);
    } else {
      var n := m - 1;
      HalvesUpto(w, q, f, k, n);
      TwoTerms(w, q, f, k, n);
      TwoMore(all, n);
      OneMore(ev, n);
      OneMore(od, n);
      hide IsRoot, Mul, Add, CSum, Terms;
      Regroup(c, CSum(ev, n), CSum(od, n), ev(n), od(n));
    }
  }

  lemma OneMore(f: int -> Cx, n: nat)
    ensures CSum(f, n + 1) == Add(CSum(f, n), f(n))
  {
    hide Add;
  }

  lemma TwoMore(f: int -> Cx, m: nat)
    ensures CSum(f, 2 * (m + 1)) == Add(Add(CSum(f, 2 * m), f(2 * m)), f(2 * m + 1))
  {
    hide Add;
  }

  lemma Regroup(c: Cx, e: Cx, o: Cx, e1: Cx, o1: Cx)
    ensures Add(Add(Add(e, Mul(c, o)), e1), Mul(c, o1)) == Add(Add(e, e1), Mul(c, Add(o, o1)))
  {
    MulAdds(c, o, o1);
    hide Mul;
  }

  lemma TwoTerms(w: Root, q: nat, f: int -> Cx, k: nat, t: nat)
    requires IsRoot(w)
    ensures Terms(w, q + 1, f, k)(2 * t) == Terms(w, q, Even(f), k)(t)
    ensures Terms(w, q + 1, f, k)(2 * t + 1) == Mul(w(q + 1, k), Terms(w, q, Odd(f), k)(t))
  {
    hide IsRoot, Mul;
    Arith.TimesNat(t, k);
    Arith.MulAssoc(2, t, k);
    Arith.MulNext(2 * t, k);
    RootHalf(w, q, t * k);
    RootAdd(w, q + 1, 2 * (t * k), k);
    var x, y, c := f(2 * t + 1), w(q, t * k), w(q + 1, k);
    MulCommutes(y, c);
    MulSwap(x, c, y);
  }

  /** Danielson and Lanczos: a transform from the transforms of the even and the odd entries. */
  lemma Halves(w: Root, q: nat, f: int -> Cx, k: nat)
    requires IsRoot(w)
    ensures Dft(w, q + 1, f, k) == Add(Dft(w, q, Even(f), k), Mul(w(q + 1, k), Dft(w, q, Odd(f), k)))
  {
    HalvesUpto(w, q, f, k, Pow2(q));
  }

  /** The butterfly: entries k and k + 2^q share their halves. */
  lemma Butterfly(w: Root, q: nat, f: int -> Cx, k: nat)
    requires IsRoot(w)
    ensures var tau := Mul(w(q + 1, k), Dft(w, q, Odd(f), k));
      && Dft(w, q + 1, f, k) == Add(Dft(w, q, Even(f), k), tau)
      && Dft(w, q + 1, f, k + Pow2(q)) == Sub(Dft(w, q, Even(f), k), tau)
  {
    hide IsRoot, Dft, Mul;
    var e, o := Dft(w, q, Even(f), k), Dft(w, q, Odd(f), k);
    Halves(w, q, f, k);
    Halves(w, q, f, k + Pow2(q));
    DftRepeats(w, q, Even(f), k);
    DftRepeats(w, q, Odd(f), k);
    RootAdd(w, q + 1, k, Pow2(q));
    RootMinus(w, q);
    MulUnit(w(q + 1, k));
    MulNeg(w(q + 1, k), o);
    AddLaws(e, Mul(w(q + 1, k), o), ZERO);
  }
}
