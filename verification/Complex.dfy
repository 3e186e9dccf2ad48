/** Complex numbers over the reals, with the ring laws used by the Fourier transform. */
module Complex {

  datatype Cx = Cx(re: real, im: real)

  const ZERO := Cx(0.0, 0.0)
  const ONE := Cx(1.0, 0.0)

  function Add(a: Cx, b: Cx): Cx { Cx(a.re + b.re, a.im + b.im) }
  function Sub(a: Cx, b: Cx): Cx { Cx(a.re - b.re, a.im - b.im) }
  function Neg(a: Cx): Cx { Cx(-a.re, -a.im) }
  function Mul(a: Cx, b: Cx): Cx { Cx(a.re * b.re - a.im * b.im, a.re * b.im + a.im * b.re) }

  lemma AddLaws(a: Cx, b: Cx, c: Cx)
    ensures Add(Add(a, b), c) == Add(a, Add(b, c))
    ensures Add(a, b) == Add(b, a)
    ensures Add(a, ZERO) == a && Sub(a, b) == Add(a, Neg(b))
  {
  }

  lemma MulCommutes(a: Cx, b: Cx)
    ensures Mul(a, b) == Mul(b, a)
  {
  }

  lemma MulAssoc(a: Cx, b: Cx, c: Cx)
    ensures Mul(Mul(a, b), c) == Mul(a, Mul(b, c))
  {
    RealTriple(a.re, a.im, b.re, b.im, c.re, c.im);
  }

  lemma RealTriple(a: real, b: real, c: real, d: real, e: real, f: real)
    ensures (a * c - b * d) * e - (a * d + b * c) * f == a * (c * e - d * f) - b * (c * f + d * e)
    ensures (a * c - b * d) * f + (a * d + b * c) * e == a * (c * f + d * e) + b * (c * e - d * f)
  {
  }

  lemma MulAdds(a: Cx, b: Cx, c: Cx)
    ensures Mul(a, Add(b, c)) == Add(Mul(a, b), Mul(a, c))
  {
  }

  lemma MulUnit(a: Cx)
    ensures Mul(a, ONE) == a && Mul(ONE, a) == a && Mul(a, ZERO) == ZERO && Mul(ZERO, a) == ZERO
    ensures Mul(a, Neg(ONE)) == Neg(a)
  {
  }

  lemma MulNeg(a: Cx, b: Cx)
    ensures Mul(Neg(a), b) == Neg(Mul(a, b))
  {
  }

  /** Exchange in a product of three. */
  lemma MulSwap(a: Cx, b: Cx, c: Cx)
    ensures Mul(a, Mul(b, c)) == Mul(b, Mul(a, c))
  {
    hide Mul;
    MulAssoc(a, b, c);
    MulAssoc(b, a, c);
    MulCommutes(a, b);
  }

  lemma AddSwap(a: Cx, b: Cx, c: Cx, d: Cx)
    ensures Add(Add(a, b), Add(c, d)) == Add(Add(a, c), Add(b, d))
  {
  }

  // ---------------------------------------------------------------------
  // Finite sums
  // ---------------------------------------------------------------------

  ghost function CSum(f: int -> Cx, n: int): Cx
    decreases n
  {
    if n <= 0 then ZERO else Add(CSum(f, n - 1), f(n - 1))
  }

  lemma {:induction false} CSumEq(f: int -> Cx, g: int -> Cx, n: int)
    requires forall i :: 0 <= i < n ==> f(i) == g(i)
    ensures CSum(f, n) == CSum(g, n)
    decreases n
  {
    hide Add;
    if n > 0 { CSumEq(f, g, n - 1); }
  }

  lemma {:induction false} CSumAdd(f: int -> Cx, g: int -> Cx, h: int -> Cx, n: int)
    requires forall i :: 0 <= i < n ==> h(i) == Add(f(i), g(i))
    ensures CSum(h, n) == Add(CSum(f, n), CSum(g, n))
    decreases n
  {
    AddLaws(ZERO, ZERO, ZERO);
    hide Add;
    if n > 0 {
      CSumAdd(f, g, h, n - 1);
      AddSwap(CSum(f, n - 1), CSum(g, n - 1), f(n - 1), g(n - 1));
    }
  }

  lemma {:induction false} CSumScale(c: Cx, f: int -> Cx, g: int -> Cx, n: int)
    requires forall i :: 0 <= i < n ==> g(i) == Mul(c, f(i))
    ensures CSum(g, n) == Mul(c, CSum(f, n))
    decreases n
  {
    hide Add, Mul;
    if n > 0 {
      CSumScale(c, f, g, n - 1);
      MulAdds(c, CSum(f, n - 1), f(n - 1));
    } else {
      MulUnit(c);
    }
  }

  lemma {:induction false} CSumZero(f: int -> Cx, n: int)
    requires forall i :: 0 <= i < n ==> f(i) == ZERO
    ensures CSum(f, n) == ZERO
    decreases n
  {
    if n > 0 { CSumZero(f, n - 1); }
  }

  ghost function RowSums(f: (int, int) -> Cx, n: int): int -> Cx { i => CSum(j => f(i, j), n) }
  ghost function ColSums(f: (int, int) -> Cx, m: int): int -> Cx { j => CSum(i => f(i, j), m) }

  /** Two sums in either order. */
  lemma {:induction false} CSumExchange(f: (int, int) -> Cx, m: int, n: int)
    ensures CSum(RowSums(f, n), m) == CSum(ColSums(f, m), n)
    decreases m
  {
    hide Add;
    if m <= 0 {
      CSumZero(ColSums(f, m), n);
    } else {
      CSumExchange(f, m - 1, n);
      var last := (j: int) => f(m - 1, j);
      forall j | 0 <= j < n ensures ColSums(f, m)(j) == Add(ColSums(f, m - 1)(j), last(j)) {
        OneRowMore(f, m, j);
      }
      CSumAdd(ColSums(f, m - 1), last, ColSums(f, m), n);
      CSumEq(last, j => f(m - 1, j), n);
    }
  }

  lemma OneRowMore(f: (int, int) -> Cx, m: int, j: int)
    requires m > 0
    ensures ColSums(f, m)(j) == Add(ColSums(f, m - 1)(j), f(m - 1, j))
  {
    hide Add;
    var c := (i: int) => f(i, j);
    assert CSum(c, m) == Add(CSum(c, m - 1), c(m - 1));
  }
}
