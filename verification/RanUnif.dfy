/** The uniform generator of apps/swaptions/RanUnif.cpp: Schrage's way to multiply modulo 2^31 - 1. */
module RanUnif {

  const MODULUS := 2147483647

  type Seed = s: int | 0 <= s < MODULUS

  /** The state after s. */
  function Next(s: Seed): Seed { (16807 * s) % MODULUS }

  /** The state after k draws. */
  function After(s: Seed, k: nat): Seed
  {
    if k == 0 then s else Next(After(s, k - 1))
  }

  /** The number drawn in state s. */
  function Value(s: Seed): real { (s as real) * 0.0000000004656612875 }

  /** It lies strictly between 0 and 1, and grows with the state. */
  lemma ValueIsUniform(s: Seed, t: Seed)
    ensures s != 0 ==> 0.0 < Value(s) < 1.0
    ensures s < t ==> Value(s) < Value(t)
    ensures (t as real) * Value(s) == (s as real) * Value(t)
  {
  }

  lemma Quotient(x: int, q: int, r: int)
    requires x == q * MODULUS + r && 0 <= r < MODULUS
    ensures x % MODULUS == r
  {
  }

  /** Schrage: 2^31 - 1 is 16807 * 127773 + 2836. */
  lemma Schrage(s: Seed, k1: int, rem: int)
    requires s == k1 * 127773 + rem && 0 <= rem < 127773
    ensures var low := 16807 * rem - k1 * 2836;
      -MODULUS < low < MODULUS && Next(s) == if low < 0 then low + MODULUS else low
  {
    var low := 16807 * rem - k1 * 2836;
    assert 0 <= k1 <= 16807;
    assert 16807 * s == k1 * MODULUS + low;
    Quotient(16807 * s, if low < 0 then k1 - 1 else k1, if low < 0 then low + MODULUS else low);
  }

  /** RanUnif: no intermediate result needs more than 31 bits and a sign. */
  method Draw(s: Seed) returns (s': Seed, r: real, ghost low: int)
    ensures s' == Next(s) && r == Value(Next(s))
    ensures -MODULUS < low < MODULUS && s' == if low < 0 then low + MODULUS else low
  {
    var k1 := s / 127773;
    Schrage(s, k1, s - k1 * 127773);
    hide Next, Value;
    var ix := 16807 * (s - k1 * 127773) - k1 * 2836;
    low := ix;
    if ix < 0 { ix := ix + MODULUS; }
    s' := ix;
    r := Value(ix);
  }

  /** Every state has at most one state before it: 16807 has the inverse 1407677000. */
  lemma OneBefore(s: Seed, t: Seed)
    requires Next(s) == Next(t)
    ensures s == t
  {
    var q := (16807 * s) / MODULUS - (16807 * t) / MODULUS;
    var d := s - t;
    assert 16807 * d == q * MODULUS;
    assert d == (1407677000 * q - 11017 * d) * MODULUS;
  }

  /** A state other than 0 never leads to 0. */
  lemma NeverZero(s: Seed)
    requires s != 0
    ensures Next(s) != 0
  {
    assert Next(0) == 0;
    if Next(s) == Next(0) { OneBefore(s, 0); }
  }

  /** Whatever the number of draws. */
  lemma {:induction false} NeverStuck(s: Seed, k: nat)
    requires s != 0
    ensures After(s, k) != 0
  {
    if k > 0 {
      NeverStuck(s, k - 1);
      NeverZero(After(s, k - 1));
    }
  }
}
