/** Facts about products, quotients and remainders that several modules share. */
module Arith {

  lemma {:induction false} MulGap(a: int, b: int, m: nat)
    requires a < b
    ensures a * m + m <= b * m
    decreases b - a
  {
    MulNext(b - 1, m);
    if a < b - 1 { MulGap(a, b - 1, m); }
  }

  lemma MulNext(a: int, m: int)
    ensures (a + 1) * m == a * m + m
  {
  }

  lemma MulOrder(a: int, b: int, m: nat)
    requires a <= b
    ensures a * m <= b * m
  {
    if a < b { MulGap(a, b, m); }
  }

  lemma DivBelow(x: int, m: nat, n: int)
    requires m >= 1 && x < n * m
    ensures x / m < n
  {
    DivMod(x, m);
    MulCompare(n, x / m, m);
  }

  lemma MulCompare(a: int, b: int, m: nat)
    ensures a <= b ==> a * m <= b * m
  {
    if a < b { MulGap(a, b, m); }
  }

  lemma MulAssoc(a: int, b: int, c: int)
    ensures (a * b) * c == a * (b * c)
  {
  }

  lemma MulDistribute(a: int, b: int, m: int)
    ensures (a + b) * m == a * m + b * m
    ensures (a - b) * m == a * m - b * m
  {
  }

  lemma DivMod(x: int, m: nat)
    requires m >= 1
    ensures x == (x / m) * m + x % m && 0 <= x % m < m
  {
  }

  /** Quotient and remainder are the only such pair. */
  lemma DivModUnique(x: int, m: nat, q: int, r: int)
    requires m >= 1 && x == q * m + r && 0 <= r < m
    ensures x / m == q && x % m == r
  {
    DivMod(x, m);
    if q < x / m { MulGap(q, x / m, m); }
    if x / m < q { MulGap(x / m, q, m); }
  }

  lemma MulCommutes(a: int, b: int)
    ensures a * b == b * a
  {
  }

  lemma DivNat(x: nat, m: nat)
    requires m >= 1
    ensures x / m >= 0 && x % m >= 0
  {
    DivMod(x, m);
    MulCompare(x / m, -1, m);
  }

  lemma TimesNat(a: nat, b: nat)
    ensures a * b >= 0
  {
  }
}
