/** The digit extraction of apps/radix/radix.c, lines 559-560 and 581-582: mask, then shift. */
module BitDigits {
  import opened PowerOfTwo
  import opened Arith
  import opened TreeShape
  import opened RadixPasses

  /** Bitwise and. */
  function And(x: nat, y: nat): nat
  {
    if x == 0 || y == 0 then 0 else 2 * And(x / 2, y / 2) + (x % 2) * (y % 2)
  }

  function Shl(x: nat, s: nat): nat
  {
    x * Pow2(s)
  }

  /** (key & ((radix - 1) << shift)) >> shift */
  function MaskShift(key: nat, radix: nat, shift: nat): nat
    requires radix >= 1
  {
    Shr(And(key, Shl(radix - 1, shift)), shift)
  }

  lemma AndStep(x: nat, y: nat)
    ensures And(x, y) == 2 * And(x / 2, y / 2) + (x % 2) * (y % 2)
  {
  }

  lemma TimesBit(a: int, b: int)
    ensures b == 0 ==> a * b == 0
    ensures b == 1 ==> a * b == a
  {
  }

  lemma AndDoubled(x: nat, y: nat)
    ensures And(x, 2 * y) / 2 == And(x / 2, y)
  {
    hide And;
    AndStep(x, 2 * y);
    assert 2 * y / 2 == y && 2 * y % 2 == 0;
    TimesBit(x % 2, 2 * y % 2);
  }

  lemma {:induction false} MaskAfterShift(x: nat, m: nat, s: nat)
    ensures Shr(And(x, Shl(m, s)), s) == And(Shr(x, s), m)
    decreases s
  {
    if s > 0 {
      var y := Shl(m, s - 1);
      assert Shl(m, s) == 2 * y by { MulAssoc(m, Pow2(s - 1), 2); }
      ShrStep(And(x, 2 * y), s);
      AndDoubled(x, y);
      MaskAfterShift(x / 2, m, s - 1);
      ShrStep(x, s);
    }
  }

  lemma {:induction false} MaskIsMod(x: nat, k: nat)
    ensures Pow2(k) >= 1 && And(x, Pow2(k) - 1) == x % Pow2(k)
    decreases k
  {
    hide And, Pow2;
    if k == 0 {
      NoBits(x);
    } else {
      MaskIsMod(x / 2, k - 1);
      MaskNext(x, k - 1);
    }
  }

  lemma NoBits(x: nat)
    ensures Pow2(0) == 1 && And(x, 0) == 0 && x % 1 == 0
  {
  }

  lemma MaskNext(x: nat, k: nat)
    requires And(x / 2, Pow2(k) - 1) == x / 2 % Pow2(k)
    ensures And(x, Pow2(k + 1) - 1) == x % Pow2(k + 1)
  {
    hide And, Pow2;
    Pow2Next(k);
    AndOdd(x, Pow2(k) - 1);
    ModDouble(x, Pow2(k));
  }

  lemma ModDouble(x: nat, h: nat)
    requires h >= 1
    ensures x % (2 * h) == 2 * (x / 2 % h) + x % 2
  {
    DivMod(x, 2);
    DivMod(x / 2, h);
    var q, r := x / 2 / h, x / 2 % h;
    MulAssoc(q, h, 2);
    MulCommutes(h, 2);
    DivModUnique(x, 2 * h, q, 2 * r + x % 2);
  }

  lemma AndOdd(x: nat, y: nat)
    ensures And(x, 2 * y + 1) == 2 * And(x / 2, y) + x % 2
  {
    hide And;
    AndStep(x, 2 * y + 1);
    assert (2 * y + 1) / 2 == y && (2 * y + 1) % 2 == 1;
    TimesBit(x % 2, (2 * y + 1) % 2);
  }

  lemma {:induction false} ShrIsDiv(x: nat, s: nat)
    ensures Pow2(s) >= 1 && Shr(x, s) == x / Pow2(s)
    decreases s
  {
    if s > 0 {
      ShrIsDiv(x, s - 1);
      var m := Pow2(s - 1);
      var q := x / m;
      DivMod(x, m);
      DivMod(q, 2);
      var h, d := q / 2, q % 2;
      SplitTwice(x, m, q, x % m, 2, h, d);
      MulDistribute(h * 2, d, m);
      MulAssoc(h, 2, m);
      MulGap(d, 2, m);
      MulOrder(0, d, m);
      DivModUnique(x, 2 * m, h, d * m + x % m);
    }
  }

  lemma {:induction false} Pow2OfProduct(k: nat, t: nat)
    ensures Pow(Pow2(k), t) == Pow2(t * k)
  {
    if t > 0 {
      Pow2OfProduct(k, t - 1);
      MulNext(t - 1, k);
      Pow2OfSum(k, (t - 1) * k);
    }
  }

  lemma {:induction false} Pow2OfSum(a: nat, b: nat)
    ensures Pow2(a + b) == Pow2(a) * Pow2(b)
  {
    if a > 0 {
      Pow2OfSum(a - 1, b);
      MulAssoc(2, Pow2(a - 1), Pow2(b));
    }
  }

  /** Masking and shifting by t * log2(radix) takes digit t. */
  lemma MaskShiftIsDigit(key: nat, k: nat, t: nat)
    ensures Pow2(k) >= 1 && MaskShift(key, Pow2(k), t * k) == Digit(key, Pow2(k), t)
  {
    MaskAfterShift(key, Pow2(k) - 1, t * k);
    MaskIsMod(Shr(key, t * k), k);
    ShrIsDiv(key, t * k);
    Pow2OfProduct(k, t);
  }
}
