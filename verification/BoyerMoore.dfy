/**
 Boyer-Moore string search, as in apps/pfscan/bm.c: the suffix table, the
 good-suffix and bad-character shifts, and the search loop.  The search is
 proved to report what comparing the pattern at every text position reports.
 */
module BoyerMoore {
  import opened Wrappers

  const BM_ASIZE := 256

  type Byte = c: int | 0 <= c < BM_ASIZE

  // ---------------------------------------------------------------------
  // What the tables mean
  // ---------------------------------------------------------------------

  /** The k bytes of x ending at index i are also the last k bytes of x. */
  ghost predicate CommonSuffix(x: seq<Byte>, i: int, k: int)
    requires 0 <= i < |x|
  {
    0 <= k <= i + 1 && forall q :: i - k < q <= i ==> x[q] == x[q + (|x| - 1 - i)]
  }

  /** k is the length of the longest common suffix of x[..i+1] and x. */
  ghost predicate LongestCommonSuffix(x: seq<Byte>, i: int, k: int)
    requires 0 <= i < |x|
  {
    CommonSuffix(x, i, k) && forall k' | CommonSuffix(x, i, k') :: k' <= k
  }

  /** The same fact seen from the scan: k bytes agree and the next pair differs. */
  ghost predicate StopsAt(x: seq<Byte>, i: int, k: int)
    requires 0 <= i < |x|
  {
    CommonSuffix(x, i, k) && (k == i + 1 || x[i - k] != x[|x| - 1 - k])
  }

  lemma StopsAtIsLongest(x: seq<Byte>, i: int, k: int)
    requires 0 <= i < |x|
    ensures StopsAt(x, i, k) <==> LongestCommonSuffix(x, i, k)
  {
    if StopsAt(x, i, k) {
      forall k' | CommonSuffix(x, i, k') ensures k' <= k {
      }
    }
    if LongestCommonSuffix(x, i, k) && !StopsAt(x, i, k) {
      assert CommonSuffix(x, i, k + 1);
    }
  }

  /**
   Moving the pattern right by s agrees with what a scan knows that matched
   x[i+1..] and failed at i: the matched bytes still match wherever the pattern
   covers them, and the byte now facing the mismatch differs from x[i].
   */
  ghost predicate Consistent(x: seq<Byte>, i: int, s: int)
    requires 0 <= i < |x|
  {
    && 1 <= s
    && (forall k :: i < k < |x| && s <= k ==> x[k - s] == x[k])
    && (s <= i ==> x[i - s] != x[i])
  }

  /** s is the smallest consistent shift for a mismatch at i. */
  ghost predicate GoodShift(x: seq<Byte>, i: int, s: int)
    requires 0 <= i < |x|
  {
    Consistent(x, i, s) && forall s' | Consistent(x, i, s') :: s <= s'
  }

  /** s is a period of x. */
  ghost predicate Period(x: seq<Byte>, s: int)
  {
    1 <= s && forall k :: s <= k < |x| ==> x[k - s] == x[k]
  }

  /** The shift used after a full match, bmGs[0], is the smallest period of the pattern. */
  lemma GoodShiftAtZeroIsSmallestPeriod(x: seq<Byte>, s: int)
    requires |x| >= 1
    ensures GoodShift(x, 0, s) <==> Period(x, s) && forall s' | Period(x, s') :: s <= s'
  {
    forall r ensures Consistent(x, 0, r) <==> Period(x, r) {
      if Consistent(x, 0, r) {
        forall k | r <= k < |x| ensures x[k - r] == x[k] { assert 0 < k; }
      }
    }
  }

  /** d is what the bad-character table holds for c: the distance of its last early occurrence from the end. */
  ghost predicate BadShift(x: seq<Byte>, c: Byte, d: int)
  {
    && 1 <= d <= |x|
    && (d < |x| ==> x[|x| - 1 - d] == c)
    && (forall k :: |x| - 1 - d < k < |x| - 1 && 0 <= k ==> x[k] != c)
  }

  // ---------------------------------------------------------------------
  // suffixes
  // ---------------------------------------------------------------------

  /** Inside the window (g, f] a scan at i repeats the scan at i + m-1-f. */
  lemma WindowCopies(x: seq<Byte>, f: int, g: int, i: int, k: int)
    requires -1 <= g < i < f < |x| - 1
    requires CommonSuffix(x, f, f - g)
    requires StopsAt(x, i + |x| - 1 - f, k)
    ensures k < i - g ==> StopsAt(x, i, k)
    ensures i - g <= k ==> CommonSuffix(x, i, i - g)
  {
    var u := i + |x| - 1 - f;
    forall q | g < q <= i && i - k < q ensures x[q] == x[q + (|x| - 1 - i)] {
      assert x[q] == x[q + (|x| - 1 - f)];
      assert x[q + (|x| - 1 - f)] == x[q + (|x| - 1 - f) + (|x| - 1 - u)];
    }
    if k < i - g {
      assert x[i - k] == x[i - k + (|x| - 1 - f)];
    }
  }

  /** The inner loop of suffixes: move g left while the bytes agree. */
  method ExtendLeft(x: seq<Byte>, f: int, g0: int) returns (g: int)
    requires -1 <= g0 <= f < |x| && 0 <= f
    requires CommonSuffix(x, f, f - g0)
    ensures -1 <= g <= g0
    ensures StopsAt(x, f, f - g)
  {
    g := g0;
    while g >= 0 && x[g] == x[g + |x| - 1 - f]
      invariant -1 <= g <= g0
      invariant CommonSuffix(x, f, f - g)
    {
      g := g - 1;
    }
  }

  /** Entries i and up of the suffix table are right. */
  ghost predicate TableFrom(x: seq<Byte>, s: seq<int>, i: int)
    requires |s| == |x| && 0 <= i
  {
    forall t :: i <= t < |x| ==> StopsAt(x, t, s[t])
  }

  /** What one step of the loop in suffixes decides: copy an entry, or rescan from where the window ends. */
  lemma WindowStep(x: seq<Byte>, s: seq<int>, f: int, g: int, i: int)
    requires |s| == |x| && 0 <= i <= |x| - 2 && TableFrom(x, s, i + 1)
    requires i < g || (-1 <= g <= f && i < f < |x| - 1 && StopsAt(x, f, f - g))
    ensures i > g && s[i + |x| - 1 - f] < i - g ==> StopsAt(x, i, s[i + |x| - 1 - f])
    ensures !(i > g && s[i + |x| - 1 - f] < i - g) ==> CommonSuffix(x, i, i - if i < g then i else g)
  {
    if i > g {
      WindowCopies(x, f, g, i, s[i + |x| - 1 - f]);
    }
  }

  lemma TableStart(x: seq<Byte>, s: seq<int>)
    requires |x| >= 1 && |s| == |x| && s[|x| - 1] == |x|
    ensures TableFrom(x, s, |x| - 1)
  {
  }

  lemma TableStep(x: seq<Byte>, s: seq<int>, i: int, k: int)
    requires |s| == |x| && 0 <= i < |x| && TableFrom(x, s, i + 1)
    requires StopsAt(x, i, k)
    ensures TableFrom(x, s[i := k], i)
  {
  }

  method Suffixes(x: seq<Byte>, suff: array<int>)
    requires |x| >= 1 && suff.Length == |x|
    modifies suff
    ensures TableFrom(x, suff[..], 0)
  {
    hide *;
    var m := |x|;
    var f := 0;
    suff[m - 1] := m;
    var g := m - 1;
    var i := m - 2;
    TableStart(x, suff[..]);
    while i >= 0
      invariant -1 <= i <= m - 2
      invariant TableFrom(x, suff[..], i + 1)
      invariant i == m - 2 ==> g == m - 1
      invariant i < m - 2 ==> i < f < m - 1 && -1 <= g <= f && StopsAt(x, f, f - g)
    {
      ghost var s := suff[..];
      WindowStep(x, s, f, g, i);
      if i > g && suff[i + m - 1 - f] < i - g {
        suff[i] := suff[i + m - 1 - f];
      } else {
        if i < g {
          g := i;
        }
        f := i;
        g := ExtendLeft(x, f, g);
        suff[i] := f - g;
      }
      TableStep(x, s, i, suff[i]);
      assert suff[..] == s[i := suff[i]];
      i := i - 1;
    }
  }

  /** The finished table holds the longest common suffixes. */
  lemma TableHoldsLongest(x: seq<Byte>, s: seq<int>)
    requires |s| == |x| && TableFrom(x, s, 0)
    ensures forall i :: 0 <= i < |x| ==> LongestCommonSuffix(x, i, s[i])
  {
    forall i | 0 <= i < |x| ensures LongestCommonSuffix(x, i, s[i]) {
      StopsAtIsLongest(x, i, s[i]);
    }
  }

  // ---------------------------------------------------------------------
  // preBmGs
  // ---------------------------------------------------------------------

  /** A shift beyond the mismatch is consistent exactly when it is a period. */
  lemma FarShift(x: seq<Byte>, j: int, s: int)
    requires 0 <= j < |x| && j < s
    ensures Consistent(x, j, s) <==> Period(x, s)
  {
    if Consistent(x, j, s) {
      forall k | s <= k < |x| ensures x[k - s] == x[k] { assert j < k; }
    }
  }

  /** A period below m shows up in the suffix table as a full prefix. */
  lemma PeriodInTable(x: seq<Byte>, s: int, k: int)
    requires 1 <= s < |x|
    requires StopsAt(x, |x| - 1 - s, k)
    ensures Period(x, s) <==> k == |x| - s
  {
    var i := |x| - 1 - s;
    if Period(x, s) {
      assert CommonSuffix(x, i, i + 1) by {
        forall q | 0 <= q <= i ensures x[q] == x[q + (|x| - 1 - i)] {
          assert x[(q + s) - s] == x[q + s];
        }
      }
      StopsAtIsLongest(x, i, k);
    }
    if k == |x| - s {
      forall q | s <= q < |x| ensures x[q - s] == x[q] {
        assert x[q - s] == x[q - s + (|x| - 1 - i)];
      }
    }
  }

  /** A shift not beyond the mismatch is consistent exactly when the table stops right there. */
  lemma NearShift(x: seq<Byte>, j: int, s: int, k: int)
    requires 1 <= s <= j < |x|
    requires StopsAt(x, |x| - 1 - s, k)
    ensures Consistent(x, j, s) <==> k == |x| - 1 - j
  {
    var m := |x|;
    var i := m - 1 - s;
    if k == m - 1 - j {
      assert i - k == j - s;
      forall q | j < q < m && s <= q ensures x[q - s] == x[q] {
        assert x[q - s] == x[q - s + (m - 1 - i)];
      }
    }
    if Consistent(x, j, s) {
      assert CommonSuffix(x, i, m - 1 - j) by {
        forall q | i - (m - 1 - j) < q <= i ensures x[q] == x[q + (m - 1 - i)] {
          assert x[(q + s) - s] == x[q + s];
        }
      }
      assert x[i - (m - 1 - j)] != x[m - 1 - (m - 1 - j)];
      assert StopsAt(x, i, m - 1 - j);
      StopsAtIsLongest(x, i, m - 1 - j);
      StopsAtIsLongest(x, i, k);
    }
  }

  /** s is the smallest period of x that exceeds j. */
  ghost predicate NextPeriod(x: seq<Byte>, j: int, s: int)
  {
    j < s && Period(x, s) && forall s' | j < s' && Period(x, s') :: s <= s'
  }

  method PreBmGs(x: seq<Byte>, bmGs: array<int>)
    requires |x| >= 1 && bmGs.Length == |x|
    modifies bmGs
    ensures forall i :: 0 <= i < |x| ==> GoodShift(x, i, bmGs[i])
  {
    hide StopsAt, BestTable;
    var m := |x|;
    var suff := new int[m](_ => 0);
    Suffixes(x, suff);
    forall t | 0 <= t < m ensures StopsAt(x, t, suff[t]) {
      StopsAtIsLongest(x, t, suff[t]);
    }
    var i := 0;
    while i < m
      invariant 0 <= i <= m
      invariant forall q :: 0 <= q < i ==> bmGs[q] == m
      invariant forall t :: 0 <= t < m ==> StopsAt(x, t, suff[t])
    {
      bmGs[i] := m;
      i := i + 1;
    }
    BordersPhase(x, suff, bmGs);
    BestTableIs(x, bmGs[..], m - 1);
    i := 0;
    while i <= m - 2
      invariant 0 <= i <= m - 1
      invariant forall t :: 0 <= t < m ==> StopsAt(x, t, suff[t])
      invariant BestTable(x, bmGs[..], m - 1 - i)
    {
      ghost var table := bmGs[..];
      var q := m - 1 - suff[i];
      SuffixEntry(x, i, suff[i]);
      BestTableNext(x, table, m - 1 - i, suff[i]);
      bmGs[q] := m - 1 - i;
      assert bmGs[..] == table[q := m - 1 - i];
      i := i + 1;
    }
    BestTableIs(x, bmGs[..], 0);
    forall r | 0 <= r < m ensures GoodShift(x, r, bmGs[r]) {
      AllTried(x, r, bmGs[..][r]);
    }
  }

  /** Every entry is the best of the shifts tried so far. */
  ghost predicate BestTable(x: seq<Byte>, table: seq<int>, lo: int)
  {
    |table| == |x| && forall q :: 0 <= q < |x| ==> BestSoFar(x, q, lo, table[q])
  }

  lemma BestTableIs(x: seq<Byte>, table: seq<int>, lo: int)
    requires |table| == |x|
    ensures BestTable(x, table, lo) <==> forall q :: 0 <= q < |x| ==> BestSoFar(x, q, lo, table[q])
  {
    hide BestSoFar;
  }

  lemma BestTableNext(x: seq<Byte>, table: seq<int>, s: int, k: int)
    requires 1 <= s < |x| && StopsAt(x, |x| - 1 - s, k) && BestTable(x, table, s) && 0 <= |x| - 1 - k < |x|
    ensures |table| == |x| && BestTable(x, table[|x| - 1 - k := s], s - 1)
  {
    hide StopsAt, BestSoFar;
    var table' := table[|x| - 1 - k := s];
    forall r | 0 <= r < |x| ensures BestSoFar(x, r, s - 1, table'[r]) {
      NextBest(x, r, s, k, table[r]);
    }
  }

  /** s is the smallest consistent shift among those above lo, or above the mismatch. */
  ghost predicate BestSoFar(x: seq<Byte>, j: int, lo: int, s: int)
    requires 0 <= j < |x|
  {
    && Consistent(x, j, s)
    && forall s' | Consistent(x, j, s') && (lo < s' || j < s') :: s <= s'
  }

  lemma AllTried(x: seq<Byte>, j: int, s: int)
    requires 0 <= j < |x|
    requires BestSoFar(x, j, 0, s)
    ensures GoodShift(x, j, s)
  {
  }

  lemma SuffixEntry(x: seq<Byte>, i: int, k: int)
    requires 0 <= i <= |x| - 2 && StopsAt(x, i, k)
    ensures 0 <= |x| - 1 - k < |x|
    ensures Consistent(x, |x| - 1 - k, |x| - 1 - i)
  {
    var s := |x| - 1 - i;
    var j := |x| - 1 - k;
    if s <= j {
      NearShift(x, j, s, k);
    } else {
      PeriodInTable(x, s, k);
      FarShift(x, j, s);
    }
  }

  lemma NextBest(x: seq<Byte>, j: int, s: int, k: int, best: int)
    requires 0 <= j < |x| && 1 <= s < |x|
    requires StopsAt(x, |x| - 1 - s, k)
    requires BestSoFar(x, j, s, best)
    ensures BestSoFar(x, j, s - 1, if j == |x| - 1 - k then s else best)
  {
    if j == |x| - 1 - k {
      SuffixEntry(x, |x| - 1 - s, k);
    }
    if s <= j {
      NearShift(x, j, s, k);
    }
    var r := if j == |x| - 1 - k then s else best;
    forall s' | Consistent(x, j, s') && (s - 1 < s' || j < s') ensures r <= s' {
    }
  }

  method BordersPhase(x: seq<Byte>, suff: array<int>, bmGs: array<int>)
    requires |x| >= 1 && suff.Length == |x| && bmGs.Length == |x| && suff != bmGs
    requires forall t :: 0 <= t < |x| ==> StopsAt(x, t, suff[t])
    requires forall q :: 0 <= q < |x| ==> bmGs[q] == |x|
    modifies bmGs
    ensures forall q :: 0 <= q < |x| ==> BestSoFar(x, q, |x| - 1, bmGs[q])
  {
    hide StopsAt, Period, Consistent;
    var m := |x|;
    var j := 0;
    var i := m - 1;
    Periods(x);
    LastStops(x, suff[m - 1]);
    while i >= -1
      invariant -2 <= i <= m - 1
      invariant 0 <= j <= m
      invariant suff[m - 1] == m && forall t :: 0 <= t < m ==> StopsAt(x, t, suff[t])
      invariant forall q :: 0 <= q < j ==> NextPeriod(x, q, bmGs[q])
      invariant forall q :: j <= q < m ==> bmGs[q] == m
      invariant forall s :: Period(x, s) && s < m - 1 - i ==> s <= j
      invariant i == -2 ==> j == m
      invariant j <= m - 1 - i
      decreases i + 2
    {
      if i == -1 || suff[i] == i + 1 {
        if 0 <= i < m - 1 {
          PeriodInTable(x, m - 1 - i, suff[i]);
        }
        j := FillUpTo(x, bmGs, j, m - 1 - i);
      } else if i >= 0 {
        PeriodInTable(x, m - 1 - i, suff[i]);
      }
      i := i - 1;
    }
    forall q | 0 <= q < m ensures BestSoFar(x, q, m - 1, bmGs[q]) {
      FarShift(x, q, bmGs[q]);
      forall s | Consistent(x, q, s) && (m - 1 < s || q < s) ensures bmGs[q] <= s {
        FarShift(x, q, s);
      }
    }
  }

  /** The inner loop of the second phase: the entries up to the period s that has none yet get s. */
  method FillUpTo(x: seq<Byte>, bmGs: array<int>, from: int, s: int) returns (j: int)
    requires bmGs.Length == |x| && 0 <= from <= s <= |x| && (s > 0 ==> Period(x, s))
    requires forall q :: 0 <= q < from ==> NextPeriod(x, q, bmGs[q])
    requires forall q :: from <= q < |x| ==> bmGs[q] == |x|
    requires forall s' :: Period(x, s') && s' < s ==> s' <= from
    modifies bmGs
    ensures j == s
    ensures forall q :: 0 <= q < j ==> NextPeriod(x, q, bmGs[q])
    ensures forall q :: j <= q < |x| ==> bmGs[q] == |x|
  {
    hide Period;
    j := from;
    while j < s
      invariant from <= j <= s
      invariant forall q :: 0 <= q < j ==> NextPeriod(x, q, bmGs[q])
      invariant forall q :: j <= q < |x| ==> bmGs[q] == |x|
    {
      if bmGs[j] == |x| {
        bmGs[j] := s;
      }
      assert NextPeriod(x, j, bmGs[j]);
      j := j + 1;
    }
  }

  lemma LastStops(x: seq<Byte>, k: int)
    requires |x| >= 1 && StopsAt(x, |x| - 1, k)
    ensures k == |x|
  {
  }

  lemma Periods(x: seq<Byte>)
    ensures |x| >= 1 ==> Period(x, |x|)
    ensures forall s :: Period(x, s) ==> s >= 1
  {
  }

  // ---------------------------------------------------------------------
  // preBmBc
  // ---------------------------------------------------------------------

  method PreBmBc(x: seq<Byte>, bmBc: array<int>)
    requires |x| >= 1 && bmBc.Length == BM_ASIZE
    modifies bmBc
    ensures forall c: Byte :: BadShift(x, c, bmBc[c])
  {
    var m := |x|;
    var i := 0;
    while i < BM_ASIZE
      invariant 0 <= i <= BM_ASIZE
      invariant forall c :: 0 <= c < i ==> bmBc[c] == m
    {
      bmBc[i] := m;
      i := i + 1;
    }
    i := 0;
    while i < m - 1
      invariant 0 <= i <= m - 1
      invariant forall c: Byte :: LastBefore(x, c, i, bmBc[c])
    {
      bmBc[x[i]] := m - i - 1;
      i := i + 1;
    }
  }

  /** d locates the last occurrence of c among the first i bytes, or is m when there is none. */
  ghost predicate LastBefore(x: seq<Byte>, c: Byte, i: int, d: int)
    requires 0 <= i < |x|
  {
    && 1 <= d <= |x|
    && (d < |x| ==> x[|x| - 1 - d] == c)
    && (forall k :: |x| - 1 - d < k < i && 0 <= k ==> x[k] != c)
  }

  // ---------------------------------------------------------------------
  // bm_search
  // ---------------------------------------------------------------------

  ghost predicate OccursAt(x: seq<Byte>, y: seq<Byte>, j: int)
  {
    0 <= j <= |y| - |x| && forall k :: 0 <= k < |x| ==> x[k] == y[j + k]
  }

  /** An occurrence r further on makes r a consistent shift. */
  lemma LaterOccurrence(x: seq<Byte>, y: seq<Byte>, j: int, i: int, r: int)
    requires 0 <= j <= |y| - |x| && 0 <= i < |x| && 1 <= r
    requires forall k :: i < k < |x| ==> x[k] == y[j + k]
    requires i == 0 || x[i] != y[j + i]
    requires OccursAt(x, y, j + r)
    ensures Consistent(x, i, r)
  {
    forall k | i < k < |x| && r <= k ensures x[k - r] == x[k] {
      assert x[k - r] == y[j + r + (k - r)];
    }
    if r <= i {
      assert x[i - r] == y[j + r + (i - r)];
    }
  }

  /**
   After a scan that stopped at i, or after a full match (i == 0), no occurrence
   starts before the good-suffix shift.
   */
  lemma GoodShiftSkipsNothing(x: seq<Byte>, y: seq<Byte>, j: int, i: int, s: int)
    requires 0 <= j <= |y| - |x| && 0 <= i < |x|
    requires forall k :: i < k < |x| ==> x[k] == y[j + k]
    requires i == 0 || x[i] != y[j + i]
    requires GoodShift(x, i, s)
    ensures forall j' :: j < j' < j + s ==> !OccursAt(x, y, j')
  {
    forall j' | j < j' && OccursAt(x, y, j') ensures j + s <= j' {
      LaterOccurrence(x, y, j, i, j' - j);
    }
  }

  /** The bad-character shift skips no occurrence either, even where it is the larger of the two. */
  lemma BadShiftSkipsNothing(x: seq<Byte>, y: seq<Byte>, j: int, i: int, d: int)
    requires 0 <= j <= |y| - |x| && 0 <= i < |x|
    requires BadShift(x, y[j + i], d)
    ensures forall j' :: j < j' < j + (d - |x| + 1 + i) ==> !OccursAt(x, y, j')
  {
    forall j' | j < j' && OccursAt(x, y, j') ensures j + (d - |x| + 1 + i) <= j' {
      var k := i - (j' - j);
      if 0 <= k {
        assert x[k] == y[j' + k];
      }
    }
  }

  /**
   The positions handed to the callback: occurrences in increasing order, none
   left out up to the first one whose callback returns non-zero, where the
   search stops.
   */
  ghost predicate Reports(x: seq<Byte>, y: seq<Byte>, mfun: nat -> int, calls: seq<nat>)
  {
    && (forall a, b :: 0 <= a < b < |calls| ==> calls[a] < calls[b])
    && (forall a :: 0 <= a < |calls| ==> OccursAt(x, y, calls[a]))
    && (forall a :: 0 <= a < |calls| - 1 ==> mfun(calls[a]) == 0)
    && (forall j | OccursAt(x, y, j) && j !in calls ::
          calls != [] && mfun(calls[|calls| - 1]) != 0 && calls[|calls| - 1] < j)
  }

  /** calls lists the occurrences before j, in increasing order. */
  ghost predicate FoundBefore(x: seq<Byte>, y: seq<Byte>, calls: seq<nat>, j: int)
  {
    && (forall a, b :: 0 <= a < b < |calls| ==> calls[a] < calls[b])
    && (forall a :: 0 <= a < |calls| ==> calls[a] < j && OccursAt(x, y, calls[a]))
    && (forall q :: q < j && OccursAt(x, y, q) ==> q in calls)
  }

  lemma FoundStep(x: seq<Byte>, y: seq<Byte>, calls: seq<nat>, j: nat, s: int)
    requires FoundBefore(x, y, calls, j) && s >= 1
    requires forall j' :: j < j' < j + s ==> !OccursAt(x, y, j')
    ensures FoundBefore(x, y, if OccursAt(x, y, j) then calls + [j] else calls, j + s)
  {
  }

  lemma NothingFoundYet(x: seq<Byte>, y: seq<Byte>)
    ensures FoundBefore(x, y, [], 0)
  {
  }

  lemma FirstFound(x: seq<Byte>, y: seq<Byte>, j: int)
    requires FoundBefore(x, y, [], j)
    ensures forall q :: q < j ==> !OccursAt(x, y, q)
  {
  }

  lemma FoundReports(x: seq<Byte>, y: seq<Byte>, mfun: nat -> int, calls: seq<nat>, j: int)
    requires FoundBefore(x, y, calls, j)
    requires forall a :: 0 <= a < |calls| - 1 ==> mfun(calls[a]) == 0
    requires j > |y| - |x| || (calls != [] && mfun(calls[|calls| - 1]) != 0)
    ensures Reports(x, y, mfun, calls)
  {
    forall q | OccursAt(x, y, q) && q !in calls
      ensures calls != [] && mfun(calls[|calls| - 1]) != 0 && calls[|calls| - 1] < q
    {
      assert j <= q;
    }
  }

  /** With a callback that always returns 0, exactly the occurrences are reported. */
  lemma QuietCallbackReportsAll(x: seq<Byte>, y: seq<Byte>, mfun: nat -> int, calls: seq<nat>)
    requires Reports(x, y, mfun, calls)
    requires forall j :: mfun(j) == 0
    ensures forall j :: j in calls <==> OccursAt(x, y, j)
  {
  }

  ghost function Larger(a: int, b: int): int { if a < b then b else a }

  class BM {
    var bmGs: array<int>
    var bmBc: array<int>
    var savedX: array<Byte>
    var icase: bool
    const lower: Byte -> Byte  // the C library's tolower
    ghost var pattern: seq<Byte>  // as it was given

    ghost predicate Valid()
      reads this, bmGs, bmBc, savedX
    {
      && savedX.Length == |pattern| >= 1
      && (icase ==> forall k :: 0 <= k < |pattern| ==> savedX[k] == lower(pattern[k]))
      && (!icase ==> savedX[..] == pattern)
      && bmGs.Length == savedX.Length
      && bmBc.Length == BM_ASIZE
      && (forall i :: 0 <= i < savedX.Length ==> GoodShift(savedX[..], i, bmGs[i]))
      && (forall c: Byte :: BadShift(savedX[..], c, bmBc[c]))
    }

    /** The pattern lies at position j of y: byte for byte, or up to case. */
    ghost predicate MatchesAt(y: seq<Byte>, j: int)
      reads this
    {
      && 0 <= j <= |y| - |pattern|
      && (icase ==> forall k :: 0 <= k < |pattern| ==> lower(pattern[k]) == lower(y[j + k]))
      && (!icase ==> y[j..j + |pattern|] == pattern)
    }

    lemma MatchesIs(y: seq<Byte>, j: int)
      requires Valid()
      ensures OccursAt(savedX[..], Folded(y), j) <==> MatchesAt(y, j)
    {
      hide GoodShift, BadShift;
      var x, z, m := savedX[..], Folded(y), |pattern|;
      if MatchesAt(y, j) {
        forall k | 0 <= k < m ensures x[k] == z[j + k] {
          if !icase { assert y[j..j + m][k] == pattern[k]; }
        }
      }
      if OccursAt(x, z, j) && !icase {
        forall k | 0 <= k < m ensures y[j..j + m][k] == pattern[k] {
          assert x[k] == z[j + k];
        }
      }
    }

    function Fold(c: Byte): Byte
      reads this
    {
      if icase then lower(c) else c
    }

    /** The text as the search sees it. */
    ghost function Folded(y: seq<Byte>): (r: seq<Byte>)
      reads this
      ensures |r| == |y| && forall k :: 0 <= k < |y| ==> r[k] == Fold(y[k])
    {
      seq(|y|, k requires 0 <= k < |y| reads this => Fold(y[k]))
    }

    constructor (x: seq<Byte>, icase: bool, lower: Byte -> Byte)
      requires |x| >= 1
      ensures Valid() && fresh(bmGs) && fresh(bmBc) && fresh(savedX)
      ensures this.icase == icase && this.lower == lower && pattern == x
      ensures savedX[..] == Folded(x)
    {
      this.icase := icase;
      this.pattern := x;
      this.lower := lower;
      this.bmGs := new int[|x|](_ => 0);
      this.bmBc := new int[BM_ASIZE](_ => 0);
      this.savedX := new Byte[|x|](_ => 0);
      new;
      SavePattern(x);
      var fx := savedX[..];
      hide GoodShift;
      hide BadShift;
      PreBmGs(fx, bmGs);
      PreBmBc(fx, bmBc);
      assert savedX[..] == fx;
    }

    method SavePattern(x: seq<Byte>)
      requires savedX.Length == |x|
      modifies savedX
      ensures savedX[..] == Folded(x)
    {
      var i := 0;
      while i < |x|
        invariant 0 <= i <= |x|
        invariant forall k :: 0 <= k < i ==> savedX[k] == Fold(x[k])
      {
        savedX[i] := Fold(x[i]);
        i := i + 1;
      }
    }

    /** The scan at text position j: compare from the right, stop at the first difference. */
    method Scan(y: seq<Byte>, j: int) returns (i: int)
      requires Valid() && 0 <= j <= |y| - savedX.Length
      ensures -1 <= i < savedX.Length
      ensures forall k :: i < k < savedX.Length ==> savedX[k] == Folded(y)[j + k]
      ensures 0 <= i ==> savedX[i] != Folded(y)[j + i]
    {
      i := savedX.Length - 1;
      while i >= 0 && savedX[i] == Fold(y[i + j])
        invariant -1 <= i < savedX.Length
        invariant forall k :: i < k < savedX.Length ==> savedX[k] == Folded(y)[j + k]
      {
        i := i - 1;
      }
    }

    /** How far the search moves after a scan that ended at i. */
    method Shift(y: seq<Byte>, j: int, i: int) returns (s: int, ghost g: int, ghost b: int)
      requires Valid() && 0 <= j <= |y| - savedX.Length && -1 <= i < savedX.Length
      requires forall k :: i < k < savedX.Length ==> savedX[k] == Folded(y)[j + k]
      requires 0 <= i ==> savedX[i] != Folded(y)[j + i]
      ensures s >= 1
      ensures i < 0 ==> GoodShift(savedX[..], 0, s)
      ensures 0 <= i ==> GoodShift(savedX[..], i, g) && BadShift(savedX[..], Folded(y)[j + i], b)
      ensures 0 <= i ==> s == Larger(g, b - savedX.Length + 1 + i)
      ensures forall j' :: j < j' < j + s ==> !OccursAt(savedX[..], Folded(y), j')
    {
      hide BadShift;
      ghost var x, z := savedX[..], Folded(y);
      if i < 0 {
        s := bmGs[0];
        GoodShiftSkipsNothing(x, z, j, 0, s);
        g, b := s, 0;
      } else {
        var c := Fold(y[i + j]);
        var d := bmBc[c] - savedX.Length + 1 + i;
        s := if bmGs[i] < d then d else bmGs[i];
        GoodShiftSkipsNothing(x, z, j, i, bmGs[i]);
        BadShiftSkipsNothing(x, z, j, i, bmBc[c]);
        g, b := bmGs[i], bmBc[c];
      }
    }

    /**
     With no callback: the first occurrence, or -1.  With a callback: calls is
     what it was called with, and the result is its value when negative,
     otherwise the number of calls.
     */
    method Search(y: seq<Byte>, mfun: Option<nat -> int>) returns (ret: int, calls: seq<nat>)
      requires Valid() && savedX.Length <= |y|
      ensures mfun.None? ==> calls == []
      ensures mfun.None? && ret == -1 ==> forall j :: !OccursAt(savedX[..], Folded(y), j)
      ensures mfun.None? && ret != -1 ==>
                OccursAt(savedX[..], Folded(y), ret) && forall j :: j < ret ==> !OccursAt(savedX[..], Folded(y), j)
      ensures mfun.Some? ==> Reports(savedX[..], Folded(y), mfun.value, calls)
      ensures mfun.Some? ==>
                ret == if calls != [] && mfun.value(calls[|calls| - 1]) < 0
                       then mfun.value(calls[|calls| - 1]) else |calls|
      ensures mfun.None? && ret == -1 ==> forall j :: !MatchesAt(y, j)
      ensures mfun.None? && ret != -1 ==> MatchesAt(y, ret) && forall j :: j < ret ==> !MatchesAt(y, j)
      ensures mfun.Some? ==> forall j :: j in calls ==> MatchesAt(y, j)
      ensures mfun.Some? ==> forall j :: MatchesAt(y, j) && j !in calls ==>
                calls != [] && mfun.value(calls[|calls| - 1]) != 0 && calls[|calls| - 1] < j
    {
      ret, calls := SearchFolded(y, mfun);
      forall j ensures OccursAt(savedX[..], Folded(y), j) <==> MatchesAt(y, j) { MatchesIs(y, j); }
    }

    /** The search on the folded text. */
    method SearchFolded(y: seq<Byte>, mfun: Option<nat -> int>) returns (ret: int, calls: seq<nat>)
      requires Valid() && savedX.Length <= |y|
      ensures mfun.None? ==> calls == []
      ensures mfun.None? && ret == -1 ==> forall j :: !OccursAt(savedX[..], Folded(y), j)
      ensures mfun.None? && ret != -1 ==>
                OccursAt(savedX[..], Folded(y), ret) && forall j :: j < ret ==> !OccursAt(savedX[..], Folded(y), j)
      ensures mfun.Some? ==> Reports(savedX[..], Folded(y), mfun.value, calls)
      ensures mfun.Some? ==>
                ret == if calls != [] && mfun.value(calls[|calls| - 1]) < 0
                       then mfun.value(calls[|calls| - 1]) else |calls|
    {
      hide Valid;
      hide Reports;
      hide FoundBefore;
      ghost var x, z := savedX[..], Folded(y);
      calls := [];
      var nm := 0;
      var j := 0;
      NothingFoundYet(x, z);
      while j <= |y| - savedX.Length
        invariant 0 <= j && nm == |calls|
        invariant mfun.None? ==> calls == []
        invariant FoundBefore(x, z, calls, j)
        invariant mfun.Some? ==> forall a :: 0 <= a < |calls| ==> mfun.value(calls[a]) == 0
        decreases |y| - j
      {
        var i := Scan(y, j);
        var s;
        ghost var g, b;
        s, g, b := Shift(y, j, i);
        assert savedX[..] == x && Folded(y) == z;
        assert i < 0 <==> OccursAt(x, z, j);
        FoundStep(x, z, calls, j, s);
        if i < 0 {
          if mfun.Some? {
            nm := nm + 1;
            var c := mfun.value(j);
            calls := calls + [j];
            if c != 0 {
              FoundReports(x, z, mfun.value, calls, j + s);
              return if c < 0 then c else nm, calls;
            }
          } else {
            FirstFound(x, z, j);
            return j, calls;
          }
        }
        j := j + s;
      }
      if mfun.Some? {
        FoundReports(x, z, mfun.value, calls, j);
      } else {
        FirstFound(x, z, j);
      }
      ret := if mfun.None? then -1 else nm;
    }
  }

  /** bm_init and bm_search with a callback that never stops it: exactly the places where the pattern lies. */
  method FindAll(x: seq<Byte>, y: seq<Byte>, icase: bool, lower: Byte -> Byte) returns (calls: seq<nat>)
    requires 1 <= |x| <= |y|
    ensures !icase ==> forall j: nat :: j in calls <==> j <= |y| - |x| && y[j..j + |x|] == x
    ensures icase ==> forall j: nat :: j in calls <==>
              j <= |y| - |x| && forall k :: 0 <= k < |x| ==> lower(x[k]) == lower(y[j + k])
    ensures forall a, b :: 0 <= a < b < |calls| ==> calls[a] < calls[b]
  {
    var bm := new BM(x, icase, lower);
    assert bm.savedX.Length == |x|;
    hide BM.Valid, OccursAt;
    var quiet: nat -> int := (j: nat) => 0;
    var ret;
    ret, calls := bm.Search(y, Some(quiet));
    assert forall j: nat :: j in calls <==> bm.MatchesAt(y, j);
  }
}
