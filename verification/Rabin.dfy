/**
 Rabin fingerprints, apps/dedup/rabin.c.  A 32-bit word is a polynomial over GF(2) of
 degree below 32, its top bit the highest power; the modulus is t^32 + IRRPOLY.
 */
module Rabin {
  import opened DedupFormat

  const IRRPOLY: bv32 := 0x45c2b6a1
  const NWINDOW := 32
  const RABIN_MASK: bv32 := 0xfff

  type Table = seq<bv32>

  // ---------------------------------------------------------------------
  // Words as polynomials
  // ---------------------------------------------------------------------

  function Xor(a: bv32, b: bv32): bv32 { a ^ b }
  function Top(h: bv32): bool { h >> 31 == 1 }
  function Double(h: bv32): bv32 { h << 1 }

  /** Multiplication by t modulo t^32 + IRRPOLY. */
  function TimesT(h: bv32): bv32
  {
    if Top(h) then Xor(Double(h), IRRPOLY) else Double(h)
  }

  function TimesT8(h: bv32): bv32
  {
    TimesT(TimesT(TimesT(TimesT(TimesT(TimesT(TimesT(TimesT(h))))))))
  }

  lemma TopXor(a: bv32, b: bv32)
    ensures Top(Xor(a, b)) == (Top(a) != Top(b))
  {
  }

  lemma DoubleXor(a: bv32, b: bv32)
    ensures Double(Xor(a, b)) == Xor(Double(a), Double(b))
  {
  }

  lemma DoubleInjective(a: bv32, b: bv32)
    ensures Double(a) == Double(b) && Top(a) == Top(b) ==> a == b
  {
  }

  /** The modulus is odd, so reducing is visible in the last bit. */
  lemma DoubleEven(a: bv32, b: bv32)
    ensures Double(a) != Xor(Double(b), IRRPOLY)
  {
  }

  lemma XorAssoc(x: bv32, y: bv32, z: bv32)
    ensures Xor(Xor(x, y), z) == Xor(x, Xor(y, z))
  {
  }

  lemma XorCommutes(x: bv32, y: bv32)
    ensures Xor(x, y) == Xor(y, x)
  {
  }

  lemma XorLaws(x: bv32, y: bv32, z: bv32)
    ensures Xor(Xor(x, z), Xor(y, z)) == Xor(x, y)
    ensures Xor(Xor(x, y), z) == Xor(Xor(x, z), y) == Xor(x, Xor(y, z))
    ensures Xor(x, y) == Xor(y, x)
  {
    hide Xor;
    XorAssoc(x, y, z);
    XorAssoc(x, z, y);
    XorCommutes(x, y);
    XorCommutes(y, z);
    XorAssoc(x, z, Xor(y, z));
    XorAssoc(z, z, y);
    XorCommutes(z, Xor(y, z));
    XorAssoc(y, z, z);
    XorSelf(y, z);
  }

  lemma XorSelf(x: bv32, y: bv32)
    ensures Xor(x, Xor(y, y)) == x
  {
  }

  lemma XorCancel(x: bv32, y: bv32, z: bv32)
    ensures Xor(x, z) == Xor(y, z) ==> x == y
    ensures Xor(x, 0) == x && Xor(0, x) == x && Xor(Xor(x, y), y) == x
  {
  }

  lemma TimesTXor(a: bv32, b: bv32)
    ensures TimesT(Xor(a, b)) == Xor(TimesT(a), TimesT(b))
  {
    hide Top, Double, Xor;
    TopXor(a, b);
    DoubleXor(a, b);
    XorLaws(Double(a), Double(b), IRRPOLY);
  }

  lemma TimesTInjective(a: bv32, b: bv32)
    ensures TimesT(a) == TimesT(b) ==> a == b
  {
    hide Top, Double, Xor;
    DoubleEven(a, b);
    DoubleEven(b, a);
    XorCancel(Double(a), Double(b), IRRPOLY);
    DoubleInjective(a, b);
  }

  lemma TimesT8Xor(a: bv32, b: bv32)
    ensures TimesT8(Xor(a, b)) == Xor(TimesT8(a), TimesT8(b))
  {
    hide TimesT, Xor;
    TimesTXor(a, b);
    var a1, b1 := TimesT(a), TimesT(b);
    TimesTXor(a1, b1);
    var a2, b2 := TimesT(a1), TimesT(b1);
    TimesTXor(a2, b2);
    var a3, b3 := TimesT(a2), TimesT(b2);
    TimesTXor(a3, b3);
    var a4, b4 := TimesT(a3), TimesT(b3);
    TimesTXor(a4, b4);
    var a5, b5 := TimesT(a4), TimesT(b4);
    TimesTXor(a5, b5);
    var a6, b6 := TimesT(a5), TimesT(b5);
    TimesTXor(a6, b6);
    TimesTXor(TimesT(a6), TimesT(b6));
  }

  lemma TimesT8Injective(a: bv32, b: bv32)
    ensures TimesT8(a) == TimesT8(b) ==> a == b
  {
    hide TimesT;
    var a1, b1 := TimesT(a), TimesT(b);
    var a2, b2 := TimesT(a1), TimesT(b1);
    var a3, b3 := TimesT(a2), TimesT(b2);
    var a4, b4 := TimesT(a3), TimesT(b3);
    var a5, b5 := TimesT(a4), TimesT(b4);
    var a6, b6 := TimesT(a5), TimesT(b5);
    TimesTInjective(TimesT(a6), TimesT(b6));
    TimesTInjective(a6, b6);
    TimesTInjective(a5, b5);
    TimesTInjective(a4, b4);
    TimesTInjective(a3, b3);
    TimesTInjective(a2, b2);
    TimesTInjective(a1, b1);
    TimesTInjective(a, b);
  }

  /** A polynomial of degree below 24 is only shifted. */
  lemma TimesT8Small(h: bv32)
    requires h <= 0xffffff
    ensures TimesT8(h) == h << 8
  {
  }

  // ---------------------------------------------------------------------
  // Fingerprints bit by bit
  // ---------------------------------------------------------------------

  function AppendBit(h: bv32, bit: bv32): bv32
  {
    Xor(TimesT(h), bit)
  }

  /** A string's fingerprint after one more byte, its bits taken highest first. */
  function AppendBits(h: bv32, b: bv32): bv32
  {
    AppendBit(AppendBit(AppendBit(AppendBit(AppendBit(AppendBit(AppendBit(AppendBit(h,
      (b >> 7) & 1), (b >> 6) & 1), (b >> 5) & 1), (b >> 4) & 1), (b >> 3) & 1), (b >> 2) & 1), (b >> 1) & 1), b & 1)
  }

  /** The fingerprint of a string: the string as a polynomial, modulo t^32 + IRRPOLY. */
  ghost function Fingerprint(s: Bytes): bv32
  {
    if s == [] then 0 else AppendBits(Fingerprint(s[..|s| - 1]), s[|s| - 1] as bv32)
  }

  lemma BitStep(g: bv32, hi: bv32, lo: bv32, bit: bv32)
    requires hi <= 0x7f && lo == Xor(Double(hi), bit)
    ensures AppendBit(Xor(g, hi), bit) == Xor(TimesT(g), lo)
  {
    assert TimesT(hi) == Double(hi);
    hide Xor, Double, TimesT;
    TimesTXor(g, hi);
    XorLaws(TimesT(g), Double(hi), bit);
  }

  lemma BitsOfByte(b: bv32)
    requires b <= 0xff
    ensures b >> 7 == (b >> 7) & 1
    ensures b >> 6 == Xor(Double(b >> 7), (b >> 6) & 1) && b >> 5 == Xor(Double(b >> 6), (b >> 5) & 1)
    ensures b >> 4 == Xor(Double(b >> 5), (b >> 4) & 1) && b >> 3 == Xor(Double(b >> 4), (b >> 3) & 1)
    ensures b >> 2 == Xor(Double(b >> 3), (b >> 2) & 1) && b >> 1 == Xor(Double(b >> 2), (b >> 1) & 1)
    ensures b == Xor(Double(b >> 1), b & 1)
    ensures b >> 7 <= 0x7f && b >> 6 <= 0x7f && b >> 5 <= 0x7f && b >> 4 <= 0x7f && b >> 3 <= 0x7f && b >> 2 <= 0x7f
      && b >> 1 <= 0x7f
  {
  }

  /** Eight single bits amount to multiplication by t^8 and addition of the byte. */
  lemma AppendBitsIsByte(h: bv32, b: bv32)
    requires b <= 0xff
    ensures AppendBits(h, b) == Xor(TimesT8(h), b)
  {
    BitsOfByte(b);
    var b7, b6, b5, b4, b3, b2, b1 := b >> 7, b >> 6, b >> 5, b >> 4, b >> 3, b >> 2, b >> 1;
    BitSteps(h, b7, b6, b5, b4, b3, b2, b1, b, b7 & 1, b6 & 1, b5 & 1, b4 & 1, b3 & 1, b2 & 1, b1 & 1, b & 1);
  }

  lemma BitSteps(h: bv32, b7: bv32, b6: bv32, b5: bv32, b4: bv32, b3: bv32, b2: bv32, b1: bv32, b: bv32, c7: bv32,
                 c6: bv32, c5: bv32, c4: bv32, c3: bv32, c2: bv32, c1: bv32, c0: bv32)
    requires b7 <= 0x7f && b6 <= 0x7f && b5 <= 0x7f && b4 <= 0x7f && b3 <= 0x7f && b2 <= 0x7f && b1 <= 0x7f
    requires b7 == c7 && b6 == Xor(Double(b7), c6) && b5 == Xor(Double(b6), c5) && b4 == Xor(Double(b5), c4)
    requires b3 == Xor(Double(b4), c3) && b2 == Xor(Double(b3), c2) && b1 == Xor(Double(b2), c1)
      && b == Xor(Double(b1), c0)
    ensures AppendBit(AppendBit(AppendBit(AppendBit(
              AppendBit(AppendBit(AppendBit(AppendBit(h, c7), c6), c5), c4), c3), c2), c1), c0)
         == Xor(TimesT8(h), b)
  {
    hide Xor, Double, TimesT;
    var g := TimesT(h);
    assert AppendBit(h, c7) == Xor(g, b7);
    hide AppendBit;
    BitStep(g, b7, b6, c6);
    var g6 := TimesT(g);
    BitStep(g6, b6, b5, c5);
    var g5 := TimesT(g6);
    BitStep(g5, b5, b4, c4);
    var g4 := TimesT(g5);
    BitStep(g4, b4, b3, c3);
    var g3 := TimesT(g4);
    BitStep(g3, b3, b2, c2);
    var g2 := TimesT(g3);
    BitStep(g2, b2, b1, c1);
    BitStep(TimesT(g2), b1, b, c0);
  }

  // ---------------------------------------------------------------------
  // Tables
  // ---------------------------------------------------------------------

  ghost function TimesTo(h: bv32, k: nat): bv32
  {
    if k == 0 then h else TimesT(TimesTo(h, k - 1))
  }

  lemma TimesTo8(h: bv32, k: nat)
    ensures TimesTo(h, k + 8) == TimesT8(TimesTo(h, k))
  {
    hide TimesT;
    assert TimesTo(h, k + 2) == TimesT(TimesT(TimesTo(h, k)));
    assert TimesTo(h, k + 4) == TimesT(TimesT(TimesTo(h, k + 2)));
    assert TimesTo(h, k + 6) == TimesT(TimesT(TimesTo(h, k + 4)));
  }

  /** fpreduce: x * t^32 modulo t^32 + IRRPOLY. */
  method Fpreduce(x: bv32) returns (r: bv32)
    ensures r == TimesTo(x, 32)
  {
    hide TimesTo;
    assert TimesTo(x, 0) == x by { Unfold(x); }
    r := x;
    var i := 32;
    while i != 0
      invariant 0 <= i <= 32 && r == TimesTo(x, 32 - i)
    {
      TimesToNext(x, 32 - i);
      if r >> 31 == 1 {
        r := r << 1;
        r := r ^ IRRPOLY;
      } else {
        r := r << 1;
      }
      i := i - 1;
    }
  }

  lemma Unfold(x: bv32)
    ensures TimesTo(x, 0) == x
  {
  }

  lemma TimesToNext(x: bv32, k: nat)
    ensures TimesTo(x, k + 1) == TimesT(TimesTo(x, k))
  {
  }

  /** The reduction table: b * t^32 for every byte b. */
  ghost predicate IsTable(tab: Table)
  {
    |tab| == 256 && forall i: nat :: i < 256 ==> tab[i] == TimesTo(i as bv8 as bv32, 32)
  }

  lemma TableEntry(x: bv32)
    requires x <= 0xff
    ensures TimesTo(x, 32) == TimesT8(x << 24)
  {
    TimesTo8(x, 0);
    TimesTo8(x, 8);
    TimesTo8(x, 16);
    TimesTo8(x, 24);
    Unfold(x);
    TimesT8Small(x);
    ShiftedTwice(x);
    hide TimesTo, TimesT8;
    TimesT8Small(x << 8);
    TimesT8Small(x << 16);
  }

  lemma ShiftedTwice(x: bv32)
    requires x <= 0xff
    ensures x << 8 <= 0xffffff && x << 16 <= 0xffffff && (x << 8) << 8 == x << 16 && (x << 16) << 8 == x << 24
  {
  }

  /** The step of rabinseg: shift the byte in and reduce by the table. */
  function Step(tab: Table, h: bv32, b: bv8): bv32
    requires |tab| == 256
  {
    Xor((h << 8) | (b as bv32), Entry(tab, TopByte(h)))
  }

  function TopByte(h: bv32): bv8 { (h >> 24) as bv8 }

  function Entry(tab: Table, b: bv8): bv32
    requires |tab| == 256
  {
    ByteIndex(b);
    tab[b as int]
  }

  lemma ByteIndex(b: bv8)
    ensures b as int < 256
  {
  }

  lemma ByteIndexBack(b: bv8)
    ensures (b as int) as bv8 == b
  {
  }

  lemma SplitWord(h: bv32, b: bv32)
    requires b <= 0xff
    ensures h == Xor((h >> 24) << 24, h & 0xffffff)
    ensures (h << 8) | b == Xor((h & 0xffffff) << 8, b)
    ensures h >> 24 <= 0xff && h & 0xffffff <= 0xffffff
  {
  }

  lemma TopByteIs(h: bv32)
    ensures TopByte(h) as bv32 == h >> 24
  {
  }

  lemma TableAt(tab: Table, h: bv32)
    requires IsTable(tab)
    ensures Entry(tab, TopByte(h)) == TimesTo(h >> 24, 32)
  {
    hide TimesTo, TopByte;
    TopByteIs(h);
    ByteIndex(TopByte(h));
    ByteIndexBack(TopByte(h));
  }

  lemma ShiftAndReduce(h: bv32, b: bv32)
    requires b <= 0xff
    ensures Xor((h << 8) | b, TimesTo(h >> 24, 32)) == AppendBits(h, b)
  {
    hide Xor, TimesTo, AppendBits;
    SplitWord(h, b);
    StepAlgebra(h, h >> 24, h & 0xffffff, (h & 0xffffff) << 8, (h >> 24) << 24, b);
  }

  /** The table-driven step equals reduction bit by bit. */
  lemma StepIsBitwise(tab: Table, h: bv32, b: bv8)
    requires IsTable(tab)
    ensures Step(tab, h, b) == AppendBits(h, b as bv32)
  {
    hide Xor, TimesTo, AppendBits, TopByte, Entry;
    TableAt(tab, h);
    ByteIsSmall(b);
    ShiftAndReduce(h, b as bv32);
  }

  lemma ByteIsSmall(b: bv8)
    ensures b as bv32 <= 0xff
  {
  }

  lemma StepAlgebra(h: bv32, x: bv32, low: bv32, shifted: bv32, high: bv32, b: bv32)
    requires x <= 0xff && low <= 0xffffff && shifted == low << 8 && high == x << 24 && h == Xor(high, low) && b <= 0xff
    ensures Xor(Xor(shifted, b), TimesTo(x, 32)) == AppendBits(h, b)
  {
    hide Xor, TimesTo, TimesT8, AppendBits;
    TableEntry(x);
    TimesT8Small(low);
    TimesT8Xor(high, low);
    AppendBitsIsByte(h, b);
    XorLaws(shifted, b, TimesT8(high));
    XorCommutes(shifted, TimesT8(high));
  }

  // ---------------------------------------------------------------------
  // The sliding window
  // ---------------------------------------------------------------------

  ghost function Zeros(n: nat): (r: Bytes)
    ensures |r| == n
  {
    seq(n, _ => 0)
  }

  /** A byte followed by n zero bytes: the share of a byte that came n bytes ago. */
  ghost function Trail(b: bv8, n: nat): bv32
  {
    Fingerprint([b] + Zeros(n))
  }

  lemma FingerprintNext(s: Bytes, b: bv8)
    ensures Fingerprint(s + [b]) == AppendBits(Fingerprint(s), b as bv32)
  {
    assert (s + [b])[..|s|] == s;
  }

  lemma TrailNext(b: bv8, n: nat)
    ensures Trail(b, n + 1) == AppendBits(Trail(b, n), 0)
  {
    hide AppendBits;
    FingerprintNext([b] + Zeros(n), 0);
    assert [b] + Zeros(n) + [0] == [b] + Zeros(n + 1);
  }

  lemma ByteAlone(b: bv32)
    requires b <= 0xff
    ensures AppendBits(0, b) == b
  {
    AppendBitsIsByte(0, b);
    hide AppendBits, TimesT8;
    TimesT8Small(0);
    XorCancel(b, 0, 0);
  }

  lemma TrailStart(b: bv8)
    ensures Trail(b, 0) == b as bv32
  {
    hide AppendBits;
    FingerprintNext([], b);
    assert [b] + Zeros(0) == [] + [b];
    ByteIsSmall(b);
    ByteAlone(b as bv32);
  }

  /** The fingerprint of a string is the share of its first byte plus the fingerprint of the rest. */
  lemma {:induction false} FirstByteShare(b: bv8, s: Bytes)
    ensures Fingerprint([b] + s) == Xor(Trail(b, |s|), Fingerprint(s))
  {
    hide AppendBits, Xor, Trail;
    if s == [] {
      assert [b] + s == [b] + Zeros(0);
      assert Fingerprint([b] + s) == Trail(b, 0) by { TrailIs(b, 0); }
      XorCancel(Trail(b, 0), 0, 0);
    } else {
      var t, c := s[..|s| - 1], s[|s| - 1];
      FirstByteShare(b, t);
      assert [b] + s == [b] + t + [c] && s == t + [c];
      FingerprintNext([b] + t, c);
      FingerprintNext(t, c);
      TrailNext(b, |t|);
      ByteIsSmall(c);
      AppendShares(Trail(b, |t|), Fingerprint(t), c as bv32);
    }
  }

  lemma TrailIs(b: bv8, n: nat)
    ensures Trail(b, n) == Fingerprint([b] + Zeros(n))
  {
  }

  lemma AppendShares(x: bv32, y: bv32, c: bv32)
    requires c <= 0xff
    ensures AppendBits(Xor(x, y), c) == Xor(AppendBits(x, 0), AppendBits(y, c))
  {
    hide AppendBits, Xor, TimesT8;
    AppendBitsIsByte(Xor(x, y), c);
    AppendBitsIsByte(x, 0);
    AppendBitsIsByte(y, c);
    TimesT8Xor(x, y);
    XorCancel(TimesT8(x), 0, 0);
    XorLaws(TimesT8(x), TimesT8(y), c);
  }

  /** Rolling the window by one byte is right exactly when the table holds the share of the byte that leaves. */
  lemma RollIsExact(tab: Table, h: bv32, w: bv32, b: bv8, s: Bytes, c: bv8)
    requires IsTable(tab) && h == Fingerprint([b] + s)
    ensures Step(tab, h ^ w, c) == Fingerprint(s + [c]) <==> w == Trail(b, |s|)
  {
    hide AppendBits, Trail, Step, TimesT8;
    assert h ^ w == Xor(h, w);
    hide Xor;
    StepIsBitwise(tab, Xor(h, w), c);
    FingerprintNext(s, c);
    FirstByteShare(b, s);
    ByteIsSmall(c);
    AppendBitsIsByte(Xor(h, w), c as bv32);
    AppendBitsIsByte(Fingerprint(s), c as bv32);
    var t, f := Trail(b, |s|), Fingerprint(s);
    XorCancel(TimesT8(Xor(h, w)), TimesT8(f), c as bv32);
    TimesT8Injective(Xor(h, w), f);
    XorOut(t, f, w);
  }

  lemma XorOut(t: bv32, f: bv32, w: bv32)
    ensures Xor(Xor(t, f), w) == f <==> w == t
  {
    XorLaws(t, f, w);
    hide Xor;
    XorCancel(f, t, w);
    XorCommutes(t, f);
    XorAssoc(f, t, w);
    XorCommutes(f, Xor(t, w));
    XorCancel(Xor(t, w), 0, f);
    XorZero(t, w);
  }

  lemma XorZero(t: bv32, w: bv32)
    ensures Xor(t, w) == 0 <==> w == t
  {
    hide Xor;
    XorCancel(0, w, w);
    XorCancel(w, w, w);
    XorCancel(t, w, w);
  }

  // ---------------------------------------------------------------------
  // Building the tables
  // ---------------------------------------------------------------------

  /** fpmkredtab with s = 0. */
  method Fpmkredtab() returns (tab: Table)
    ensures IsTable(tab)
  {
    hide TimesTo;
    tab := [];
    var i := 0;
    while i < 256
      invariant 0 <= i <= 256 && |tab| == i
      invariant forall j: nat :: j < i ==> tab[j] == TimesTo(j as bv8 as bv32, 32)
    {
      var v := Fpreduce(i as bv8 as bv32);
      tab := tab + [v];
      i := i + 1;
    }
  }

  /** fpwinreduce: the share of byte x in a window of winlen bytes. */
  method Fpwinreduce(winlen: int, x: bv8, tab: Table) returns (winval: bv32)
    requires IsTable(tab)
    ensures winval == Trail(x, if winlen >= 1 then winlen - 1 else 0)
  {
    hide AppendBits, Trail, Step;
    winval := Step(tab, 0, x);
    StepIsBitwise(tab, 0, x);
    ByteIsSmall(x);
    ByteAlone(x as bv32);
    TrailStart(x);
    var i := 1;
    while i < winlen
      invariant 1 <= i && (winlen >= 1 ==> i <= winlen) && (winlen < 1 ==> i == 1)
      invariant winval == Trail(x, i - 1)
    {
      StepIsBitwise(tab, winval, 0);
      TrailNext(x, i - 1);
      winval := Step(tab, winval, 0);
      i := i + 1;
    }
  }

  ghost predicate IsWindowTable(wintab: Table, n: nat)
  {
    |wintab| == 256 && forall i: nat :: i < 256 ==> wintab[i] == Trail(i as bv8, n)
  }

  /** rabininit. */
  method Rabininit(winlen: int) returns (tab: Table, wintab: Table)
    ensures IsTable(tab) && IsWindowTable(wintab, if winlen >= 1 then winlen - 1 else 0)
  {
    hide Trail, IsTable;
    tab := Fpmkredtab();
    wintab := [];
    var i := 0;
    while i < 256
      invariant 0 <= i <= 256 && |wintab| == i
      invariant forall j: nat :: j < i ==> wintab[j] == Trail(j as bv8, if winlen >= 1 then winlen - 1 else 0)
    {
      var v := Fpwinreduce(winlen, i as bv8, tab);
      wintab := wintab + [v];
      i := i + 1;
    }
  }

  // ---------------------------------------------------------------------
  // Segments
  // ---------------------------------------------------------------------

  predicate Marked(h: bv32) { h & RABIN_MASK == 0 }

  /** The 32 bytes before position i have a fingerprint whose low twelve bits are zero. */
  ghost predicate IsBoundary(p: Bytes, i: nat)
    requires NWINDOW <= i <= |p|
  {
    Fingerprint(p[i - NWINDOW..i]) & 0xfff == 0
  }

  /** The hash at position i: started on the first 32 bytes, then rolled on with any table of shares. */
  ghost function RolledHash(p: Bytes, wintab: Table, i: nat): bv32
    requires NWINDOW <= i <= |p| && |wintab| == 256
  {
    if i == NWINDOW then Fingerprint(p[..NWINDOW])
    else AppendBits(RolledHash(p, wintab, i - 1) ^ wintab[p[i - 1 - NWINDOW] as int], p[i - 1] as bv32)
  }

  /** r is the first place in p[..n] where that hash has its low twelve bits zero, or n. */
  ghost predicate IsCut(p: Bytes, wintab: Table, n: nat, r: nat)
    requires n <= |p| && |wintab| == 256
  {
    if n < NWINDOW then r == n
    else
      && NWINDOW <= r <= n && (r < n ==> RolledHash(p, wintab, r) & 0xfff == 0)
      && forall j: nat :: NWINDOW <= j < r ==> RolledHash(p, wintab, j) & 0xfff != 0
  }

  /** With the shares of a window of 32 bytes the rolled hash is the fingerprint of the last 32 bytes. */
  lemma {:induction false} RolledIsFingerprint(p: Bytes, tab: Table, wintab: Table, i: nat)
    requires IsTable(tab) && IsWindowTable(wintab, NWINDOW - 1) && NWINDOW <= i <= |p|
    ensures RolledHash(p, wintab, i) == Fingerprint(p[i - NWINDOW..i])
  {
    hide Fingerprint, AppendBits, IsTable, IsWindowTable, Roll;
    TableSize(wintab, NWINDOW - 1);
    if i == NWINDOW {
      assert p[..NWINDOW] == p[0..NWINDOW];
    } else {
      RolledIsFingerprint(p, tab, wintab, i - 1);
      Rolled(p, i - 1, tab, wintab, RolledHash(p, wintab, i - 1));
      RollIs(tab, wintab, RolledHash(p, wintab, i - 1), p[i - 1 - NWINDOW], p[i - 1]);
    }
  }

  lemma TableSize(wintab: Table, n: nat)
    requires IsWindowTable(wintab, n)
    ensures |wintab| == 256
  {
  }

  lemma RollIs(tab: Table, wintab: Table, h: bv32, out: bv8, b: bv8)
    requires IsTable(tab) && |wintab| == 256
    ensures |tab| == 256 && Roll(tab, wintab, h, out, b) == AppendBits(h ^ wintab[out as int], b as bv32)
  {
    hide Step, AppendBits, TimesTo;
    StepIsBitwise(tab, h ^ Entry(wintab, out), b);
  }

  /** So the cut is at the first boundary. */
  lemma CutIsSegment(p: Bytes, tab: Table, wintab: Table, n: nat, r: nat)
    requires IsTable(tab) && IsWindowTable(wintab, NWINDOW - 1) && n <= |p| && |wintab| == 256 && IsCut(p, wintab, n, r)
    ensures IsSegment(p, n, r)
  {
    hide Fingerprint, RolledHash, IsTable, IsWindowTable;
    forall j: nat | NWINDOW <= j <= n ensures IsBoundary(p, j) <==> RolledHash(p, wintab, j) & 0xfff == 0 {
      RolledIsFingerprint(p, tab, wintab, j);
    }
  }

  /** r is the first boundary in p[..n], or n. */
  ghost predicate IsSegment(p: Bytes, n: nat, r: nat)
    requires n <= |p|
  {
    if n < NWINDOW then r == n
    else NWINDOW <= r <= n && (r < n ==> IsBoundary(p, r)) && forall j: nat :: NWINDOW <= j < r ==> !IsBoundary(p, j)
  }

  /**
   rabinseg: the first place where the hash, rolled with whatever table it is given, has its low bits zero; with the
   table for a window of 32 bytes this is the first boundary.
   */
  method Rabinseg(p: Bytes, n: nat, tab: Table, wintab: Table) returns (r: nat)
    requires n <= |p| && IsTable(tab) && |wintab| == 256
    ensures IsCut(p, wintab, n, r)
    ensures n >= 1 ==> 1 <= r <= n
    ensures n == 0 ==> r == 0
    ensures IsWindowTable(wintab, NWINDOW - 1) ==> IsSegment(p, n, r)
  {
    hide Fingerprint, RolledHash, Roll, TimesTo, IsWindowTable, Marked, IsSegment, AppendBits;
    r := FirstMarked(p, n, tab, wintab);
    if IsWindowTable(wintab, NWINDOW - 1) { CutIsSegment(p, tab, wintab, n, r); }
  }

  method FirstMarked(p: Bytes, n: nat, tab: Table, wintab: Table) returns (r: nat)
    requires n <= |p| && IsTable(tab) && |wintab| == 256
    ensures IsCut(p, wintab, n, r)
  {
    hide Fingerprint, RolledHash, Roll, TimesTo, AppendBits, IsTable;
    if n < NWINDOW {
      return n;
    }
    var h := Window(p, tab);
    var i := NWINDOW;
    RolledStart(p, wintab);
    if Marked(h) {
      return i;
    }
    while i < n
      invariant NWINDOW <= i <= n && h == RolledHash(p, wintab, i)
      invariant forall j: nat :: NWINDOW <= j <= i ==> RolledHash(p, wintab, j) & 0xfff != 0
    {
      RollIs(tab, wintab, h, p[i - NWINDOW], p[i]);
      RolledNext(p, wintab, i);
      h := Roll(tab, wintab, h, p[i - NWINDOW], p[i]);
      i := i + 1;
      if Marked(h) {
        return i;
      }
    }
    return n;
  }

  lemma RolledStart(p: Bytes, wintab: Table)
    requires NWINDOW <= |p| && |wintab| == 256
    ensures RolledHash(p, wintab, NWINDOW) == Fingerprint(p[..NWINDOW])
  {
    hide Fingerprint;
  }

  lemma RolledNext(p: Bytes, wintab: Table, i: nat)
    requires NWINDOW <= i < |p| && |wintab| == 256
    ensures RolledHash(p, wintab, i + 1)
         == AppendBits(RolledHash(p, wintab, i) ^ wintab[p[i - NWINDOW] as int], p[i] as bv32)
  {
    hide Fingerprint, AppendBits;
  }

  function Roll(tab: Table, wintab: Table, h: bv32, out: bv8, b: bv8): bv32
    requires |tab| == 256 && |wintab| == 256
  {
    Step(tab, h ^ Entry(wintab, out), b)
  }

  lemma Rolled(p: Bytes, i: nat, tab: Table, wintab: Table, h: bv32)
    requires NWINDOW <= i < |p| && IsTable(tab) && IsWindowTable(wintab, NWINDOW - 1)
      && h == Fingerprint(p[i - NWINDOW..i])
    ensures Roll(tab, wintab, h, p[i - NWINDOW], p[i]) == Fingerprint(p[i + 1 - NWINDOW..i + 1])
  {
    hide Fingerprint, Step, IsTable, Trail;
    var b, s, c := p[i - NWINDOW], p[i - NWINDOW + 1..i], p[i];
    assert p[i - NWINDOW..i] == [b] + s;
    assert p[i + 1 - NWINDOW..i + 1] == s + [c];
    ByteIndex(b);
    ByteIndexBack(b);
    RollIsExact(tab, h, Entry(wintab, b), b, s, c);
  }

  /** The first loop of rabinseg. */
  method Window(p: Bytes, tab: Table) returns (h: bv32)
    requires NWINDOW <= |p| && IsTable(tab)
    ensures h == Fingerprint(p[..NWINDOW])
  {
    hide AppendBits, Step, TimesTo;
    h := 0;
    var i := 0;
    assert p[..0] == [];
    while i < NWINDOW
      invariant 0 <= i <= NWINDOW && h == Fingerprint(p[..i])
    {
      StepIsBitwise(tab, h, p[i]);
      FingerprintNext(p[..i], p[i]);
      assert p[..i + 1] == p[..i] + [p[i]];
      h := Step(tab, h, p[i]);
      i := i + 1;
    }
  }

  /** The share of byte 1 after sixteen more bytes. */
  lemma SixteenZeros()
    ensures Trail(1, 16) == 0x505123d5
  {
    hide Trail;
    TrailStart(1);
    ZeroAppended(1, 0, 0x1, 0x100);
    ZeroAppended(1, 1, 0x100, 0x10000);
    ZeroAppended(1, 2, 0x10000, 0x1000000);
    ZeroAppended(1, 3, 0x1000000, 0x45c2b6a1);
    ZeroAppended(1, 4, 0x45c2b6a1, 0xee306350);
    ZeroAppended(1, 5, 0xee306350, 0x1decac3b);
    ZeroAppended(1, 6, 0x1decac3b, 0x50d53ffb);
    ZeroAppended(1, 7, 0x50d53ffb, 0xe050e5e1);
    ZeroAppended(1, 8, 0xe050e5e1, 0x1b7c416);
    ZeroAppended(1, 9, 0x1b7c416, 0xf206a0a1);
    ZeroAppended(1, 10, 0xf206a0a1, 0xd294ef61);
    ZeroAppended(1, 11, 0xd294ef61, 0x5d1d230b);
    ZeroAppended(1, 12, 0x5d1d230b, 0x9ad6172f);
    ZeroAppended(1, 13, 0x9ad6172f, 0x81f9ad95);
    ZeroAppended(1, 14, 0x81f9ad95, 0xcb771209);
    ZeroAppended(1, 15, 0xcb771209, 0x505123d5);
  }

  /** The tables built for winlen = 0, which is what the encoder passes, do not fit a window of 32 bytes. */
  lemma ZeroWindowIsWrong(wintab: Table)
    requires IsWindowTable(wintab, 0)
    ensures !IsWindowTable(wintab, NWINDOW - 1)
  {
    hide Trail;
    TrailStart(1);
    SixteenZeros();
    ZeroAppended(1, 16, 0x505123d5, 0x644ccbe1);
    ZeroAppended(1, 17, 0x644ccbe1, 0x3849999b);
    ZeroAppended(1, 18, 0x3849999b, 0xff2c4915);
    ZeroAppended(1, 19, 0xff2c4915, 0x4ae759af);
    ZeroAppended(1, 20, 0x4ae759af, 0xf2c002dc);
    ZeroAppended(1, 21, 0xf2c002dc, 0x14369261);
    ZeroAppended(1, 22, 0x14369261, 0x6ab90b10);
    ZeroAppended(1, 23, 0x6ab90b10, 0xb154b1b6);
    ZeroAppended(1, 24, 0xb154b1b6, 0x754e3b56);
    ZeroAppended(1, 25, 0x754e3b56, 0x71989e0f);
    ZeroAppended(1, 26, 0x71989e0f, 0xf5f5ab2a);
    ZeroAppended(1, 27, 0xf5f5ab2a, 0xbd10d3a7);
    ZeroAppended(1, 28, 0xbd10d3a7, 0xc6749e39);
    ZeroAppended(1, 29, 0xc6749e39, 0xe147111b);
    ZeroAppended(1, 30, 0xe147111b, 0x538188b7);
    assert wintab[1] == 1;
  }

  lemma ZeroAppended(b: bv8, n: nat, v: bv32, next: bv32)
    requires Trail(b, n) == v && next == TimesT8(v)
    ensures Trail(b, n + 1) == next
  {
    TrailNext(b, n);
    AppendBitsIsByte(v, 0);
    hide AppendBits, TimesT8, Trail;
    XorCancel(TimesT8(v), 0, 0);
  }
}
