/**
 The key generator of apps/radix/radix.c, lines 753-797 and 891-919.  The doubles
 it computes with are integers below 2^53 and therefore exact; they are modelled
 as integers.
 */
module RandomKeys {
  import opened Arith
  import opened RadixPasses
  import opened RadixSort

  const RADIX_S: nat := 8388608
  const RADIX: nat := 70368744177664
  const SEED: nat := 314159265
  const RATIO: nat := 1220703125
  const TWO_31: nat := 2147483648
  const TWO_53: nat := 9007199254740992

  /** The intermediate values of product_mod_46, in the order they are computed. */
  datatype Steps = Steps(a1: int, a2: int, b1: int, b2: int, cross: int, crossHi: int, crossLo: int, sum: int,
    sumHi: int, product: int)

  function ProductSteps(t1: int, t2: int): Steps
  {
    var a1 := t1 / RADIX_S;
    var a2 := t1 - a1 * RADIX_S;
    var b1 := t2 / RADIX_S;
    var b2 := t2 - b1 * RADIX_S;
    var cross := a1 * b2 + a2 * b1;
    var crossHi := cross / RADIX_S;
    var crossLo := cross - crossHi * RADIX_S;
    var sum := crossLo * RADIX_S + a2 * b2;
    var sumHi := sum / RADIX;
    Steps(a1, a2, b1, b2, cross, crossHi, crossLo, sum, sumHi, sum - sumHi * RADIX)
  }

  function ProductMod46(t1: int, t2: int): int
  {
    ProductSteps(t1, t2).product
  }

  lemma SmallProduct(a: int, b: int)
    requires 0 <= a < RADIX_S && 0 <= b < RADIX_S
    ensures 0 <= a * b <= (RADIX_S - 1) * (RADIX_S - 1)
  {
    MulOrder(0, a, b);
    MulOrder(a, RADIX_S - 1, b);
    MulOrder(b, RADIX_S - 1, RADIX_S - 1);
  }

  lemma SplitProduct(a1: int, a2: int, b1: int, b2: int, s: int)
    ensures (a1 * s + a2) * (b1 * s + b2) == (a1 * b1) * (s * s) + (a1 * b2 + a2 * b1) * s + a2 * b2
  {
    calc {
      (a1 * s + a2) * (b1 * s + b2);
      { MulDistribute(a1 * s, a2, b1 * s + b2); }
      (a1 * s) * (b1 * s + b2) + a2 * (b1 * s + b2);
      { MulDistribute(b1 * s, b2, a1 * s); MulDistribute(b1 * s, b2, a2); }
      (a1 * s) * (b1 * s) + (a1 * s) * b2 + (a2 * (b1 * s) + a2 * b2);
      { Regroup(a1, b1, s); MulAssoc(a2, b1, s); }
      (a1 * b1) * (s * s) + (a1 * b2) * s + ((a2 * b1) * s + a2 * b2);
      { MulDistribute(a1 * b2, a2 * b1, s); }
      (a1 * b1) * (s * s) + (a1 * b2 + a2 * b1) * s + a2 * b2;
    }
  }

  lemma Regroup(a: int, b: int, s: int)
    ensures (a * s) * (b * s) == (a * b) * (s * s)
  {
    calc {
      (a * s) * (b * s);
      { MulAssoc(a, s, b * s); }
      a * (s * (b * s));
      { MulAssoc(s, b, s); MulAssoc(b, s, s); }
      a * (b * (s * s));
      { MulAssoc(a, b, s * s); }
      (a * b) * (s * s);
    }
  }

  /** product_mod_46 multiplies exactly modulo 2^46; no value needs more than 53 bits, no cast to int more than 31. */
  lemma ProductIsExact(t1: int, t2: int)
    requires 0 <= t1 < RADIX && 0 <= t2 < RADIX
    ensures ProductMod46(t1, t2) == t1 * t2 % RADIX
    ensures var s := ProductSteps(t1, t2);
      && 0 <= s.a1 < TWO_31 && 0 <= s.a2 < TWO_53 && 0 <= s.b1 < TWO_31 && 0 <= s.b2 < TWO_53
      && 0 <= s.cross < TWO_53 && 0 <= s.crossHi < TWO_31 && 0 <= s.crossLo < TWO_53
      && 0 <= s.sum < TWO_53 && 0 <= s.sumHi < TWO_31 && 0 <= s.product < RADIX
  {
    var s := ProductSteps(t1, t2);
    SmallProduct(s.a1, s.b2);
    SmallProduct(s.a2, s.b1);
    SmallProduct(s.a2, s.b2);
    SplitProduct(s.a1, s.a2, s.b1, s.b2, RADIX_S);
    assert t1 * t2 == (s.a1 * s.b1) * RADIX + s.cross * RADIX_S + s.a2 * s.b2;
    DivModUnique(t1 * t2, RADIX, s.a1 * s.b1 + s.crossHi + s.sumHi, s.product);
  }

  // ---------------------------------------------------------------------
  // Jumping ahead in the sequence
  // ---------------------------------------------------------------------

  lemma ModProduct(x: nat, y: nat, m: nat)
    requires m >= 1
    ensures (x % m) * y % m == x * y % m
  {
    DivMod(x, m);
    var q, r := x / m, x % m;
    DivMod(r * y, m);
    MulDistribute(q * m, r, y);
    MulAssoc(q, m, y);
    MulAssoc(q, y, m);
    MulDistribute(q * y, r * y / m, m);
    DivModUnique(x * y, m, q * y + r * y / m, r * y % m);
  }

  lemma {:induction false} ModPow(x: nat, k: nat, m: nat)
    requires m >= 1
    ensures Pow(x % m, k) % m == Pow(x, k) % m
  {
    if k > 0 {
      ModPow(x, k - 1, m);
      ModTimes(x, Pow(x % m, k - 1), Pow(x, k - 1), m);
    }
  }

  lemma ModTimes(x: nat, a: nat, b: nat, m: nat)
    requires m >= 1 && a % m == b % m
    ensures (x % m) * a % m == x * b % m
  {
    ModProduct(x, a, m);
    MulCommutes(x, a);
    MulCommutes(x, b);
    ModProduct(a, x, m);
    ModProduct(b, x, m);
  }

  lemma {:induction false} PowOfSquare(t: nat, j: nat)
    ensures Pow(t * t, j) == Pow(t, 2 * j)
  {
    if j > 0 {
      PowOfSquare(t, j - 1);
      MulAssoc(t, t, Pow(t, 2 * (j - 1)));
      assert Pow(t, 2 * j) == t * (t * Pow(t, 2 * (j - 1)));
    }
  }

  lemma SquareEven(b: nat, t: nat, j: nat, m: nat)
    requires m >= 1
    ensures b * Pow(t * t % m, j) % m == b * Pow(t, 2 * j) % m
  {
    ModPow(t * t, j, m);
    PowOfSquare(t, j);
    ModProduct(Pow(t * t % m, j), b, m);
    ModProduct(Pow(t, 2 * j), b, m);
  }

  lemma SquareOdd(b: nat, t: nat, j: nat, m: nat)
    requires m >= 1
    ensures (b * t % m) * Pow(t, 2 * j) % m == b * Pow(t, 2 * j + 1) % m
  {
    ModProduct(b * t, Pow(t, 2 * j), m);
    MulAssoc(b, t, Pow(t, 2 * j));
  }

  /** One round of ran_num_init keeps b * t^k modulo m. */
  lemma SquareStep(b: nat, t: nat, k: nat, m: nat)
    requires m >= 1
    ensures var b' := if k / 2 * 2 != k then b * t % m else b;
      b' * Pow(t * t % m, k / 2) % m == b * Pow(t, k) % m
  {
    hide Pow;
    var j := k / 2;
    if k / 2 * 2 != k {
      SquareEven(b * t % m, t, j, m);
      SquareOdd(b, t, j, m);
    } else {
      SquareEven(b, t, j, m);
    }
  }

  /** ran_num_init: the k-th number of the sequence that starts at b and multiplies by t. */
  method RanNumInit(k0: nat, b0: nat, t0: nat) returns (b: nat)
    requires b0 < RADIX && t0 < RADIX
    ensures b < RADIX && b == b0 * Pow(t0, k0) % RADIX
  {
    hide Pow;
    b := b0;
    var k: nat := k0;
    var t: nat := t0;
    while k != 0
      invariant b < RADIX && t < RADIX
      invariant b * Pow(t, k) % RADIX == b0 * Pow(t0, k0) % RADIX
      decreases k
    {
      SquareStep(b, t, k, RADIX);
      ProductIsExact(b, t);
      ProductIsExact(t, t);
      var j := k / 2;
      if j * 2 != k {
        b := ProductMod46(b, t);
      }
      t := ProductMod46(t, t);
      k := j;
    }
    PowZero(t);
  }

  lemma PowZero(t: nat)
    ensures Pow(t, 0) == 1
  {
  }

  // ---------------------------------------------------------------------
  // init
  // ---------------------------------------------------------------------

  /** The k-th number of the sequence. */
  function Ran(k: nat): nat
  {
    SEED * Pow(RATIO, k) % RADIX
  }

  lemma RanNext(k: nat)
    ensures 0 <= Ran(k) < RADIX && ProductMod46(Ran(k), RATIO) == Ran(k + 1)
  {
    ProductIsExact(Ran(k), RATIO);
    var x := Pow(RATIO, k);
    ModProduct(SEED * x, RATIO, RADIX);
    MulAssoc(SEED, x, RATIO);
    assert Pow(RATIO, k + 1) == RATIO * x;
  }

  /** Four numbers of the sequence, as multiples of 1/RADIX, make one key. */
  function KeySum(i: nat): nat
  {
    Ran(4 * i + 1) + Ran(4 * i + 2) + Ran(4 * i + 3) + Ran(4 * i + 4)
  }

  /** With exact arithmetic every key lies in 0..maxKey. */
  lemma KeyInRange(i: nat, maxKey: nat)
    ensures 0 <= KeySum(i) * maxKey / (4 * RADIX) <= maxKey
  {
    RanNext(4 * i + 1);
    RanNext(4 * i + 2);
    RanNext(4 * i + 3);
    RanNext(4 * i + 4);
    MulOrder(KeySum(i), 4 * RADIX, maxKey);
    MulOrder(0, KeySum(i), maxKey);
    MulNext(maxKey, 4 * RADIX);
    DivBelow(KeySum(i) * maxKey, 4 * RADIX, maxKey + 1);
  }

  /**
   A processor fills its slice; keyOf is the conversion (int) ((sum / 4.0) * max_key).
   The contents of the slice do not depend on where it starts or ends.
   */
  method Init(key: array<int>, keyStart: nat, keyStop: nat, keyOf: nat -> int)
    requires keyStart <= keyStop <= key.Length
    modifies key
    ensures forall i :: keyStart <= i < keyStop ==> key[i] == keyOf(KeySum(i))
    ensures forall i :: 0 <= i < key.Length && !(keyStart <= i < keyStop) ==> key[i] == old(key[i])
  {
    hide KeySum;
    hide Ran;
    var ranNum := RanNumInit(4 * keyStart + 1, SEED, RATIO);
    RanIs(4 * keyStart + 1);
    var sum := ranNum;
    var i := keyStart;
    while i < keyStop
      invariant keyStart <= i <= keyStop
      invariant ranNum == Ran(4 * i + 1) && sum == ranNum
      invariant forall j :: keyStart <= j < i ==> key[j] == keyOf(KeySum(j))
      invariant forall j :: 0 <= j < key.Length && !(keyStart <= j < i) ==> key[j] == old(key[j])
    {
      FourNumbers(i);
      ranNum := ProductMod46(ranNum, RATIO);
      sum := sum + ranNum;
      ranNum := ProductMod46(ranNum, RATIO);
      sum := sum + ranNum;
      ranNum := ProductMod46(ranNum, RATIO);
      sum := sum + ranNum;
      key[i] := keyOf(sum);
      ranNum := ProductMod46(ranNum, RATIO);
      sum := ranNum;
      i := i + 1;
    }
  }

  lemma RanIs(k: nat)
    ensures Ran(k) == SEED * Pow(RATIO, k) % RADIX
  {
  }

  lemma FourNumbers(i: nat)
    ensures var a := Ran(4 * i + 1);
      var b := ProductMod46(a, RATIO);
      var c := ProductMod46(b, RATIO);
      var d := ProductMod46(c, RATIO);
      a + b + c + d == KeySum(i) && 0 <= a + b + c + d && ProductMod46(d, RATIO) == Ran(4 * (i + 1) + 1)
  {
    RanNext(4 * i + 1);
    RanNext(4 * i + 2);
    RanNext(4 * i + 3);
    RanNext(4 * i + 4);
  }

  /** However many processors fill their slices, the same keys result. */
  lemma KeysForAllProcessorCounts(key: seq<int>, P: nat, keyOf: nat -> int)
    requires P >= 1
    requires forall p: nat, i: nat ::
      p < P && SliceStart(|key|, P, p) <= i < SliceStart(|key|, P, p + 1) && i < |key| ==> key[i] == keyOf(KeySum(i))
    ensures forall i: nat :: i < |key| ==> key[i] == keyOf(KeySum(i))
  {
    SlicesCover(|key|, P);
    forall i: nat | i < |key| ensures key[i] == keyOf(KeySum(i)) {
      var p := SliceHolding(|key|, P, i, P - 1);
    }
  }

  lemma {:induction false} SliceHolding(n: nat, P: nat, i: nat, p: nat) returns (q: nat)
    requires P >= 1 && p < P && i < SliceStart(n, P, p + 1)
    ensures q < P && SliceStart(n, P, q) <= i < SliceStart(n, P, q + 1)
    decreases p
  {
    SlicesCover(n, P);
    if SliceStart(n, P, p) <= i { q := p; } else { q := SliceHolding(n, P, i, p - 1); }
  }
}
