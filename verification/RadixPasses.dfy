/**
 Least-significant-digit passes, apps/radix/radix.c lines 558-749 and 799-818:
 what a stable pass per digit achieves, and when enough digits have been done.
 */
module RadixPasses {
  import opened StableRank
  import opened Arith

  function Pow(r: nat, t: nat): nat
  {
    if t == 0 then 1 else r * Pow(r, t - 1)
  }

  lemma {:induction false} PowPositive(r: nat, t: nat)
    requires r >= 1
    ensures Pow(r, t) >= 1
  {
    if t > 0 { PowPositive(r, t - 1); }
  }

  lemma PowNext(r: nat, t: nat)
    ensures Pow(r, t + 1) == r * Pow(r, t)
  {
  }

  /** Digit t of a key. */
  function Digit(key: nat, r: nat, t: nat): nat
    requires r >= 1
  {
    PowPositive(r, t);
    key / Pow(r, t) % r
  }

  function Digits(keys: seq<nat>, r: nat, t: nat): (ds: seq<nat>)
    requires r >= 1
    ensures |ds| == |keys| && forall i :: 0 <= i < |keys| ==> ds[i] == Digit(keys[i], r, t) < r
  {
    seq(|keys|, i requires 0 <= i < |keys| => Digit(keys[i], r, t))
  }

  /** The low digits of a key: what t passes have looked at. */
  function Low(key: nat, r: nat, t: nat): nat
    requires r >= 1
  {
    PowPositive(r, t);
    key % Pow(r, t)
  }

  /** One more digit on top of the low ones. */
  lemma LowSplits(key: nat, r: nat, t: nat)
    requires r >= 1
    ensures Low(key, r, t + 1) == Digit(key, r, t) * Pow(r, t) + Low(key, r, t)
    ensures Low(key, r, t) < Pow(r, t)
  {
    hide Pow;
    PowPositive(r, t);
    PowPositive(r, t + 1);
    PowNext(r, t);
    var m := Pow(r, t);
    DivMod(key, m);
    DivMod(key / m, r);
    SplitTwice(key, m, key / m, key % m, r, key / m / r, key / m % r);
  }

  lemma SplitTwice(key: nat, m: nat, q: nat, x: nat, r: nat, h: nat, d: nat)
    requires m >= 1 && r >= 1 && r * m >= 1
    requires key == q * m + x && x < m && q == h * r + d && d < r
    ensures key % (r * m) == d * m + x
  {
    MulDistribute(h * r, d, m);
    MulAssoc(h, r, m);
    MulGap(d, r, m);
    MulOrder(0, d, m);
    DivModUnique(key, r * m, h, d * m + x);
  }

  // ---------------------------------------------------------------------
  // Sorted by the low digits, stably
  // ---------------------------------------------------------------------

  /**
   cur is orig rearranged (cur[a] came from index src[a]) and ordered by the low
   t digits; keys that agree on those keep their original order.
   */
  ghost predicate StablySorted(orig: seq<nat>, cur: seq<nat>, src: seq<nat>, r: nat, t: nat)
    requires r >= 1
  {
    && Places(src) && |src| == |orig| == |cur|
    && (forall a :: 0 <= a < |cur| ==> cur[a] == orig[src[a]])
    && (forall a, b :: 0 <= a < b < |cur| ==> LowBefore(cur, src, r, t, a, b))
  }

  ghost predicate LowBefore(cur: seq<nat>, src: seq<nat>, r: nat, t: nat, a: nat, b: nat)
    requires r >= 1 && a < |cur| && b < |cur| && |src| == |cur|
  {
    Low(cur[a], r, t) < Low(cur[b], r, t) || (Low(cur[a], r, t) == Low(cur[b], r, t) && src[a] < src[b])
  }

  /** to is from after a stable pass on the digits ds. */
  ghost predicate Scattered(from: seq<nat>, to: seq<nat>, ds: seq<nat>)
  {
    |from| == |to| == |ds| && forall i: nat :: i < |ds| ==> Rank(ds, i) < |to| && to[Rank(ds, i)] == from[i]
  }

  ghost function Ranks(ds: seq<nat>): (f: seq<nat>)
    ensures |f| == |ds| && Places(f) && forall i :: 0 <= i < |f| ==> f[i] == Rank(ds, i)
  {
    RanksArePlaces(ds);
    seq(|ds|, i requires 0 <= i < |ds| => Rank(ds, i))
  }

  lemma RanksArePlaces(ds: seq<nat>)
    ensures Places(seq(|ds|, i requires 0 <= i < |ds| => Rank(ds, i)))
  {
    var f := seq(|ds|, i requires 0 <= i < |ds| => Rank(ds, i));
    forall i | 0 <= i < |ds| ensures f[i] < |f| {
      RankBound(ds, i);
    }
    forall i, j | 0 <= i < j < |ds| ensures f[i] != f[j] {
      RankOrder(ds, i, j);
    }
  }

  /** A pass only moves keys. */
  lemma ScatteredIsPermutation(from: seq<nat>, to: seq<nat>, ds: seq<nat>)
    requires Scattered(from, to, ds)
    ensures multiset(to) == multiset(from)
  {
    MovedIsPermutation(from, to, Ranks(ds));
  }

  /** Which key ends at place a. */
  ghost function KeyAt(ds: seq<nat>, a: nat): (i: nat)
    requires a < |ds|
    ensures i < |ds| && Rank(ds, i) == a
  {
    KeyExists(ds, a);
    var i: nat :| i < |ds| && Rank(ds, i) == a;
    i
  }

  lemma KeyExists(ds: seq<nat>, a: nat)
    requires a < |ds|
    ensures exists i: nat :: i < |ds| && Rank(ds, i) == a
  {
    var i := PlaceTaken(Ranks(ds), a);
  }

  /** A pass is determined by the keys and digits alone. */
  lemma ScatteredUnique(from: seq<nat>, to: seq<nat>, to': seq<nat>, ds: seq<nat>)
    requires Scattered(from, to, ds) && Scattered(from, to', ds)
    ensures to == to'
  {
    forall a | 0 <= a < |to| ensures to[a] == to'[a] {
      assert to[Rank(ds, KeyAt(ds, a))] == from[KeyAt(ds, a)];
    }
  }

  ghost function SourcesAfter(src: seq<nat>, ds: seq<nat>): (src': seq<nat>)
    requires |src| == |ds|
    ensures |src'| == |src| && forall a: nat :: a < |src| ==> src'[a] == src[KeyAt(ds, a)]
  {
    seq(|src|, a requires 0 <= a < |src| => src[KeyAt(ds, a)])
  }

  /** The pass on digit t turns a stable order by t digits into one by t+1 digits. */
  lemma PassSortsOneMore(orig: seq<nat>, cur: seq<nat>, cur': seq<nat>, src: seq<nat>, r: nat, t: nat)
    requires r >= 1 && StablySorted(orig, cur, src, r, t)
    requires Scattered(cur, cur', Digits(cur, r, t))
    ensures StablySorted(orig, cur', SourcesAfter(src, Digits(cur, r, t)), r, t + 1)
  {
    hide Digit, Low, Rank, LowBefore;
    var ds := Digits(cur, r, t);
    var src' := SourcesAfter(src, ds);
    assert Places(src') by { SourcesArePlaces(src, ds); }
    forall a: nat | a < |cur| ensures cur'[a] == cur[KeyAt(ds, a)] && cur'[a] == orig[src'[a]] {
      assert cur'[Rank(ds, KeyAt(ds, a))] == cur[KeyAt(ds, a)];
    }
    var u := t + 1;
    forall a: nat, b: nat | a < b < |cur| ensures LowBefore(cur', src', r, u, a, b) {
      var i, j := KeyAt(ds, a), KeyAt(ds, b);
      RankOrder(ds, i, j);
      assert i < j ==> LowBefore(cur, src, r, t, i, j);
      DigitThenLow(cur, src, cur', src', r, t, i, j, a, b);
    }
  }

  /** A smaller digit t, or the same one and an earlier place by the digits below it, comes earlier by t+1 digits. */
  lemma DigitThenLow(cur: seq<nat>, src: seq<nat>, cur': seq<nat>, src': seq<nat>, r: nat, t: nat, i: nat, j: nat,
                     a: nat, b: nat)
    requires r >= 1 && |cur| == |src| == |cur'| == |src'| && i < |cur| && j < |cur| && a < |cur| && b < |cur|
    requires cur'[a] == cur[i] && cur'[b] == cur[j] && src'[a] == src[i] && src'[b] == src[j]
    requires Digit(cur[i], r, t) < Digit(cur[j], r, t)
      || (Digit(cur[i], r, t) == Digit(cur[j], r, t) && LowBefore(cur, src, r, t, i, j))
    ensures LowBefore(cur', src', r, t + 1, a, b)
  {
    hide Digit, Low;
    LowLexicographic(cur[i], cur[j], r, t);
  }

  lemma SourcesArePlaces(src: seq<nat>, ds: seq<nat>)
    requires Places(src) && |src| == |ds|
    ensures Places(SourcesAfter(src, ds))
  {
    var src' := SourcesAfter(src, ds);
    forall a: nat, b: nat | a < b < |src| ensures src'[a] != src'[b] {
      assert KeyAt(ds, a) != KeyAt(ds, b);
    }
  }

  lemma LowLexicographic(x: nat, y: nat, r: nat, t: nat)
    requires r >= 1
    ensures Digit(x, r, t) < Digit(y, r, t) ==> Low(x, r, t + 1) < Low(y, r, t + 1)
    ensures Digit(x, r, t) == Digit(y, r, t) ==> Low(x, r, t + 1) - Low(y, r, t + 1) == Low(x, r, t) - Low(y, r, t)
  {
    LowSplits(x, r, t);
    LowSplits(y, r, t);
    if Digit(x, r, t) < Digit(y, r, t) {
      MulGap(Digit(x, r, t), Digit(y, r, t), Pow(r, t));
    }
  }

  /** Before the first pass every key agrees on the (no) low digits. */
  lemma StartsSorted(keys: seq<nat>, r: nat)
    requires r >= 1
    ensures StablySorted(keys, keys, seq(|keys|, i => i), r, 0)
  {
  }

  // ---------------------------------------------------------------------
  // Enough passes
  // ---------------------------------------------------------------------

  /** get_max_digits: the number of passes after which every key is fully covered. */
  method GetMaxDigits(maxKey: nat, radix: nat) returns (temp: nat)
    requires radix >= 2
    ensures temp >= 1
    ensures maxKey < Pow(radix, temp)
    ensures temp > 1 ==> Pow(radix, temp - 1) <= maxKey
  {
    hide Quotient;
    hide Pow;
    temp := 1;
    var keyVal: nat := maxKey / radix;
    QuotientMeans(maxKey, maxKey, radix, 0);
    NextQuotient(maxKey, maxKey, radix, 0);
    while keyVal != 0
      invariant temp >= 1 && Quotient(maxKey, keyVal, radix, temp)
      invariant temp > 1 ==> Pow(radix, temp - 1) <= maxKey
      decreases keyVal
    {
      QuotientMeans(maxKey, keyVal, radix, temp);
      NextQuotient(maxKey, keyVal, radix, temp);
      SmallerQuotient(keyVal, radix);
      keyVal := keyVal / radix;
      temp := temp + 1;
    }
    QuotientMeans(maxKey, keyVal, radix, temp);
  }

  lemma QuotientMeans(x: nat, q: nat, r: nat, t: nat)
    ensures t == 0 && q == x ==> Quotient(x, q, r, t)
    ensures Quotient(x, q, r, t) && q == 0 ==> x < Pow(r, t)
    ensures Quotient(x, q, r, t) && q > 0 ==> Pow(r, t) <= x
  {
    if q > 0 { MulOrder(1, q, Pow(r, t)); }
  }

  lemma SmallerQuotient(q: nat, r: nat)
    requires q >= 1 && r >= 2
    ensures q / r < q
  {
    DivMod(q, r);
    if q <= q / r { MulOrder(q, q / r, r); MulOrder(2, r, q); }
  }

  /** q is x divided by the radix t times. */
  ghost predicate Quotient(x: nat, q: nat, r: nat, t: nat)
  {
    q * Pow(r, t) <= x < (q + 1) * Pow(r, t)
  }

  lemma NextQuotient(x: nat, q: nat, r: nat, t: nat)
    requires r >= 2 && Quotient(x, q, r, t)
    ensures Quotient(x, q / r, r, t + 1)
  {
    var m := Pow(r, t);
    var h := q / r;
    DivMod(q, r);
    MulAssoc(h, r, m);
    MulAssoc(h + 1, r, m);
    MulNext(h, r);
    MulOrder(h * r, q, m);
    MulOrder(q + 1, (h + 1) * r, m);
  }

  ghost predicate Sorted(s: seq<nat>)
  {
    forall a, b :: 0 <= a < b < |s| ==> s[a] <= s[b]
  }

  /** When the digits cover every key, ordered by the low digits is ordered. */
  lemma CoveredIsSorted(orig: seq<nat>, cur: seq<nat>, src: seq<nat>, r: nat, t: nat)
    requires r >= 1 && StablySorted(orig, cur, src, r, t)
    requires forall i :: 0 <= i < |orig| ==> orig[i] < Pow(r, t)
    ensures Sorted(cur)
  {
    forall a, b | 0 <= a < b < |cur| ensures cur[a] <= cur[b] {
      assert LowBefore(cur, src, r, t, a, b);
      SmallMod(cur[a], Pow(r, t));
      SmallMod(cur[b], Pow(r, t));
    }
  }

  lemma SmallMod(x: nat, m: nat)
    requires x < m
    ensures x % m == x
  {
  }
}
