/**
 The blocked transpose of apps/fft/fft.c, lines 844-945.  The n1 rows are dealt out to P threads,
 rows of them each; a thread fills its own rows of the destination.
 */
module FftTranspose {
  import opened Complex
  import Arith

  /** The two innermost loops: one square block. */
  method CopyBlock(src: array2<Cx>, dest: array2<Cx>, vOff: nat, hOff: nat, size: nat)
    requires src != dest && vOff + size <= src.Length0 && hOff + size <= src.Length1 && hOff + size <= dest.Length0
      && vOff + size <= dest.Length1
    modifies dest
    ensures forall h: nat, v: nat :: h < dest.Length0 && v < dest.Length1 ==>
      dest[h, v] == if hOff <= h < hOff + size && vOff <= v < vOff + size then src[v, h] else old(dest[h, v])
  {
    var i := 0;
    while i < size
      invariant 0 <= i <= size
      invariant forall h: nat, v: nat :: h < dest.Length0 && v < dest.Length1 ==>
        dest[h, v] == if hOff <= h < hOff + size && vOff <= v < vOff + i then src[v, h] else old(dest[h, v])
    {
      var v := vOff + i;
      var j := 0;
      while j < size
        invariant 0 <= j <= size
        invariant forall h: nat, c: nat :: h < dest.Length0 && c < dest.Length1 ==>
          dest[h, c] == if (hOff <= h < hOff + size && vOff <= c < vOff + i) || (hOff <= h < hOff + j && c == v)
            then src[c, h] else old(dest[h, c])
      {
        var h := hOff + j;
        dest[h, v] := src[v, h];
        j := j + 1;
      }
      i := i + 1;
    }
  }

  lemma StepWithin(k: nat, num: nat, size: nat)
    requires k < num
    ensures (k + 1) * size == k * size + size && (k + 1) * size <= num * size
  {
    Arith.MulNext(k, size);
    Arith.MulCompare(k + 1, num, size);
  }

  ghost function Times(a: nat, b: nat): nat { Arith.TimesNat(a, b); a * b }

  /** The loop over m: one row of blocks, side by side. */
  method CopyBlockRow(src: array2<Cx>, dest: array2<Cx>, v0: nat, first: nat, num: nat, size: nat, ghost c: nat)
    requires src != dest && c == Times(num, size)
    requires v0 + size <= src.Length0 && first + c <= src.Length1 && first + c <= dest.Length0
      && v0 + size <= dest.Length1
    modifies dest
    ensures forall h: nat, v: nat :: h < dest.Length0 && v < dest.Length1 ==>
      dest[h, v] == if first <= h < first + c && v0 <= v < v0 + size then src[v, h] else old(dest[h, v])
  {
    assert Times(0, size) == 0;
    forall k: nat | k < num ensures Times(k + 1, size) == Times(k, size) + size <= c { StepWithin(k, num, size); }
    hide Times;
    var m, hOff := 0, first;
    while m < num
      invariant 0 <= m <= num && hOff == first + Times(m, size) <= first + c
      invariant forall h: nat, v: nat :: h < dest.Length0 && v < dest.Length1 ==>
        dest[h, v] == if first <= h < hOff && v0 <= v < v0 + size then src[v, h] else old(dest[h, v])
    {
      assert Times(m + 1, size) == Times(m, size) + size <= c;
      CopyBlock(src, dest, v0, hOff, size);
      m, hOff := m + 1, hOff + size;
    }
  }

  /** The loop over k: a square strip of num * size rows and columns. */
  method CopyStrip(src: array2<Cx>, dest: array2<Cx>, vOff: nat, first: nat, num: nat, size: nat, ghost c: nat)
    requires src != dest && c == Times(num, size)
    requires vOff + c <= src.Length0 && first + c <= src.Length1 && first + c <= dest.Length0
      && vOff + c <= dest.Length1
    modifies dest
    ensures forall h: nat, v: nat :: h < dest.Length0 && v < dest.Length1 ==>
      dest[h, v] == if first <= h < first + c && vOff <= v < vOff + c then src[v, h] else old(dest[h, v])
  {
    assert Times(0, size) == 0;
    forall k: nat | k < num ensures Times(k + 1, size) == Times(k, size) + size <= c { StepWithin(k, num, size); }
    hide Times;
    var k, v0 := 0, vOff;
    while k < num
      invariant 0 <= k <= num && v0 == vOff + Times(k, size) <= vOff + c
      invariant forall h: nat, v: nat :: h < dest.Length0 && v < dest.Length1 ==>
        dest[h, v] == if first <= h < first + c && vOff <= v < v0 then src[v, h] else old(dest[h, v])
    {
      assert Times(k + 1, size) == Times(k, size) + size <= c;
      CopyBlockRow(src, dest, v0, first, num, size, c);
      k, v0 := k + 1, v0 + size;
    }
  }

  /** Number of blocks per strip: enough to hold two blocks' lines in the cache. */
  function Blocks(b: nat, lines: nat): (r: nat)
    requires b >= 1 && lines >= 1
    ensures r >= 1
  {
    var q := (2 * b) / lines;
    if q * lines != 2 * b then q + 1 else QuotientPositive(2 * b, lines); q
  }

  lemma QuotientPositive(x: nat, m: nat)
    requires x >= 1 && m >= 1 && (x / m) * m == x
    ensures x / m >= 1
  {
    Arith.MulCompare(x / m, 0, m);
  }

  /** The least number of blocks of which two take no more cache lines than there are: twice the rows over it. */
  lemma BlocksFitCache(b: nat, lines: nat)
    requires b >= 1 && lines >= 1
    ensures (Blocks(b, lines) - 1) * lines < 2 * b <= Blocks(b, lines) * lines
  {
    var q := (2 * b) / lines;
    Arith.DivMod(2 * b, lines);
    Arith.MulNext(q, lines);
    Arith.MulNext(q - 1, lines);
  }

  /** Rows and columns of each strip that the blocks reach. */
  function Reach(b: nat, lines: nat): (r: nat)
    requires b >= 1 && lines >= 1
    ensures r <= b
  {
    var num := Blocks(b, lines);
    Arith.DivMod(b, num);
    Arith.DivNat(b, num);
    Arith.TimesNat(num, b / num);
    Arith.MulCommutes(num, b / num);
    num * (b / num)
  }

  /** The blocks reach everything exactly when their number divides the number of rows. */
  lemma ReachesAllIff(b: nat, lines: nat)
    requires b >= 1 && lines >= 1
    ensures Reach(b, lines) == b <==> b % Blocks(b, lines) == 0
  {
    var num := Blocks(b, lines);
    Arith.DivMod(b, num);
    Arith.MulCommutes(num, b / num);
  }

  /**
   16 points, one thread, three cache lines (-m4 -p1 -n3): four rows make three blocks of one row, and the last row
   is left out.
   */
  lemma RowsCanBeMissed()
    ensures Reach(4, 3) == 3
  {
    assert Blocks(4, 3) == 3;
  }

  /** The thread whose strip holds column v, and the place in the strip. */
  function StripOf(v: nat, rows: nat): nat
    requires rows >= 1
  {
    Arith.DivNat(v, rows);
    v / rows
  }

  function PlaceIn(v: nat, rows: nat): nat
    requires rows >= 1
  {
    Arith.DivNat(v, rows);
    v % rows
  }

  lemma StripIs(rows: nat, l: nat, c: nat, at: nat)
    requires rows >= 1 && c <= rows && at == l * rows
    ensures forall v: nat :: at <= v < at + c <==> StripOf(v, rows) == l && PlaceIn(v, rows) < c
  {
    forall v: nat
      ensures at <= v < at + c <==> StripOf(v, rows) == l && PlaceIn(v, rows) < c
    {
      OneStrip(v, rows, l, c, at);
    }
  }

  lemma OneStrip(v: nat, rows: nat, l: nat, c: nat, at: nat)
    requires rows >= 1 && c <= rows && at == l * rows
    ensures at <= v < at + c <==> StripOf(v, rows) == l && PlaceIn(v, rows) < c
  {
    Arith.DivMod(v, rows);
    if at <= v < at + c { Arith.DivModUnique(v, rows, l, v - at); }
  }

  lemma StripFits(l: nat, P: nat, rows: nat, n1: nat, c: nat)
    requires l < P && n1 == P * rows && c <= rows
    ensures 0 <= l * rows && l * rows + c <= n1
  {
    Arith.MulNext(l, rows);
    Arith.MulCompare(l + 1, P, rows);
    Arith.TimesNat(l, rows);
  }

  /** Transpose: thread t fills its own rows of dest, strip by strip. */
  method Transpose(src: array2<Cx>, dest: array2<Cx>, n1: nat, t: nat, P: nat, rows: nat, lines: nat)
    requires src != dest && src.Length0 == n1 && src.Length1 == n1 && dest.Length0 == n1 && dest.Length1 == n1
    requires t < P && rows >= 1 && lines >= 1 && n1 == P * rows
    modifies dest
    ensures forall h: nat, v: nat :: h < n1 && v < n1 ==>
      dest[h, v] == if StripOf(h, rows) == t && PlaceIn(h, rows) < Reach(rows, lines)
        && PlaceIn(v, rows) < Reach(rows, lines)
                      then src[v, h] else old(dest[h, v])
  {
    hide StripOf, PlaceIn, Reach;
    var num := Blocks(rows, lines);
    var size := rows / num;
    ghost var c := Reach(rows, lines);
    ReachIs(rows, lines);
    Arith.DivNat(rows, num);
    var first := t * rows;
    StripIs(rows, t, c, first);
    StripFits(t, P, rows, n1, c);
    var l := t + 1;
    while l < P
      invariant t + 1 <= l <= P
      invariant forall h: nat, v: nat :: h < n1 && v < n1 ==>
        dest[h, v] == if first <= h < first + c && PlaceIn(v, rows) < c && t < StripOf(v, rows) < l then src[v, h]
          else old(dest[h, v])
    {
      StripFits(l, P, rows, n1, c);
      StripIs(rows, l, c, l * rows);
      CopyStrip(src, dest, l * rows, first, num, size, c);
      l := l + 1;
    }
    StripsBelow(n1, P, rows);
    l := 0;
    while l < t
      invariant 0 <= l <= t
      invariant forall h: nat, v: nat :: h < n1 && v < n1 ==>
        dest[h, v] == if first <= h < first + c && PlaceIn(v, rows) < c
          && (t < StripOf(v, rows) || StripOf(v, rows) < l)
                        then src[v, h] else old(dest[h, v])
    {
      StripFits(l, P, rows, n1, c);
      StripIs(rows, l, c, l * rows);
      CopyStrip(src, dest, l * rows, first, num, size, c);
      l := l + 1;
    }
    CopyStrip(src, dest, first, first, num, size, c);
  }

  lemma ReachIs(b: nat, lines: nat)
    requires b >= 1 && lines >= 1
    ensures b / Blocks(b, lines) >= 0 && Reach(b, lines) == Times(Blocks(b, lines), b / Blocks(b, lines))
  {
    Arith.DivNat(b, Blocks(b, lines));
  }

  lemma StripsBelow(n1: nat, P: nat, rows: nat)
    requires rows >= 1 && n1 == P * rows
    ensures forall v: nat :: v < n1 ==> StripOf(v, rows) < P
  {
    forall v: nat | v < n1 ensures StripOf(v, rows) < P {
      Arith.DivBelow(v, rows, P);
    }
  }

  /** Every entry is written by its owner exactly when the number of blocks divides the rows of a thread. */
  lemma TransposesAllIff(n1: nat, P: nat, rows: nat, lines: nat)
    requires P >= 1 && rows >= 1 && lines >= 1 && n1 == P * rows
    ensures (forall h: nat, v: nat :: h < n1 && v < n1 ==>
      PlaceIn(h, rows) < Reach(rows, lines) && PlaceIn(v, rows) < Reach(rows, lines))
      <==> rows % Blocks(rows, lines) == 0
  {
    hide Blocks, Reach;
    ReachesAllIff(rows, lines);
    StripFits(0, P, rows, n1, rows);
    Arith.DivModUnique(rows - 1, rows, 0, rows - 1);
    assert PlaceIn(rows - 1, rows) == rows - 1;
    forall v: nat ensures PlaceIn(v, rows) < rows { Arith.DivMod(v, rows); }
  }
}
