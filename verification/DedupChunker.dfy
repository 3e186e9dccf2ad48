/**
 Cutting a coarse chunk into chunks, apps/dedup/encoder.c, lines 406-478 (and 536-624 in the
 serial pipeline), and putting the chunks of all coarse chunks back together.
 */
module DedupChunker {
  import opened DedupFormat
  import opened DedupDecoder
  import opened Rabin
  import opened SendOrder
  import opened DedupSender
  import ReorderBuffer

  const MAX_RABIN_CHUNK_SIZE := 60 * 1024

  /** cs are non-empty pieces of x, none longer than the limit, in order and without gaps. */
  ghost predicate IsSplit(x: Bytes, cs: seq<Bytes>)
  {
    Concat(cs) == x && forall i :: 0 <= i < |cs| ==> 0 < |cs[i]| <= MAX_RABIN_CHUNK_SIZE
  }

  ghost function Least(a: int, b: int): int { if a < b then a else b }

  /** Every chunk ends where rabinseg, started at its beginning, cuts what is left of the coarse chunk. */
  ghost predicate CutByHash(item: Bytes, wintab: Table, chunks: seq<Bytes>)
    requires |wintab| == 256
  {
    forall i: nat :: i < |chunks| ==> CutHere(item, wintab, |Concat(chunks[..i])|, |chunks[i]|)
  }

  ghost predicate CutHere(item: Bytes, wintab: Table, start: nat, size: nat)
    requires |wintab| == 256
  {
    start <= |item| && IsCut(item[start..], wintab, Least(MAX_RABIN_CHUNK_SIZE, |item| - start), size)
  }

  /** Every chunk ends at the first boundary of what is left, if there is one in reach. */
  ghost predicate CutAtBoundaries(item: Bytes, chunks: seq<Bytes>)
  {
    forall i: nat :: i < |chunks| ==> BoundaryHere(item, |Concat(chunks[..i])|, |chunks[i]|)
  }

  ghost predicate BoundaryHere(item: Bytes, start: nat, size: nat)
  {
    start <= |item| && IsSegment(item[start..], Least(MAX_RABIN_CHUNK_SIZE, |item| - start), size)
  }

  lemma HashIsBoundaries(item: Bytes, tab: Table, wintab: Table, chunks: seq<Bytes>)
    requires |wintab| == 256 && IsTable(tab) && IsWindowTable(wintab, NWINDOW - 1) && CutByHash(item, wintab, chunks)
    ensures CutAtBoundaries(item, chunks)
  {
    hide IsTable, IsWindowTable, IsSegment, IsCut, Concat;
    forall i: nat | i < |chunks| ensures BoundaryHere(item, |Concat(chunks[..i])|, |chunks[i]|) {
      var start := |Concat(chunks[..i])|;
      assert CutHere(item, wintab, start, |chunks[i]|);
      CutIsSegment(item[start..], tab, wintab, Least(MAX_RABIN_CHUNK_SIZE, |item| - start), |chunks[i]|);
    }
  }

  /**
   FindAllAnchors on one coarse chunk, with any table of shares: where the chunks are cut; count is what is left in
   chunks_per_anchor.
   */
  method FindAllAnchors(item: Bytes, tab: Table, wintab: Table) returns (chunks: seq<Bytes>, count: nat)
    requires IsTable(tab) && |wintab| == 256
    ensures IsSplit(item, chunks) && count == |chunks|
    ensures CutByHash(item, wintab, chunks)
    ensures IsWindowTable(wintab, NWINDOW - 1) ==> CutAtBoundaries(item, chunks)
    ensures item != [] ==> count >= 1
  {
    hide IsTable, IsWindowTable, IsSegment, IsCut, CutByHash, CutAtBoundaries;
    chunks, count := [], 0;
    var anchor, p := 0, 0;
    var n := MAX_RABIN_CHUNK_SIZE;
    assert item[..0] == [];
    NothingCut(item, wintab);
    while p < |item|
      invariant 0 <= p <= |item| && anchor == p && 1 <= n <= MAX_RABIN_CHUNK_SIZE
      invariant n < MAX_RABIN_CHUNK_SIZE ==> |item| - p <= n
      invariant IsSplit(item[..anchor], chunks) && count == |chunks| && CutByHash(item, wintab, chunks)
      invariant p > 0 ==> count >= 1
      decreases |item| - p
    {
      if |item| - p < n {
        n := |item| - p;
      }
      var r := Rabinseg(item[p..], n, tab, wintab);
      p := p + r;
      CutNext(item, wintab, anchor, p, chunks);
      SplitNext(item, anchor, p, chunks);
      chunks := chunks + [item[anchor..p]];
      count := count + 1;
      anchor := p;
    }
    chunks, count := AddRemainder(item, anchor, chunks, count);
    if IsWindowTable(wintab, NWINDOW - 1) { HashIsBoundaries(item, tab, wintab, chunks); }
  }

  /** The bytes and the table determine the chunks. */
  lemma {:induction false} OneCutting(item: Bytes, wintab: Table, cs: seq<Bytes>, ds: seq<Bytes>, m: nat)
    requires |wintab| == 256 && IsSplit(item, cs) && CutByHash(item, wintab, cs)
    requires IsSplit(item, ds) && CutByHash(item, wintab, ds) && m <= |cs| && m <= |ds|
    ensures cs[..m] == ds[..m]
    ensures m == |cs| ==> cs == ds
  {
    hide IsCut, Concat;
    if m > 0 {
      OneCutting(item, wintab, cs, ds, m - 1);
      var start := |Concat(cs[..m - 1])|;
      assert CutHere(item, wintab, start, |cs[m - 1]|) && CutHere(item, wintab, start, |ds[m - 1]|);
      OneCut(item[start..], wintab, Least(MAX_RABIN_CHUNK_SIZE, |item| - start), |cs[m - 1]|, |ds[m - 1]|);
      ChunkIs(item, cs, m - 1);
      ChunkIs(item, ds, m - 1);
      assert cs[..m] == cs[..m - 1] + [cs[m - 1]] && ds[..m] == ds[..m - 1] + [ds[m - 1]];
    }
    if m == |cs| {
      assert cs[..m] == cs;
      if m < |ds| { ChunkIs(item, ds, m); }
      assert ds[..m] == ds;
    }
  }

  lemma OneCut(p: Bytes, wintab: Table, n: nat, r: nat, r': nat)
    requires n <= |p| && |wintab| == 256 && IsCut(p, wintab, n, r) && IsCut(p, wintab, n, r')
    ensures r == r'
  {
    hide RolledHash;
  }

  /** Chunk i lies where the ones before it end. */
  lemma ChunkIs(item: Bytes, cs: seq<Bytes>, i: nat)
    requires IsSplit(item, cs) && i < |cs|
    ensures |Concat(cs[..i])| + |cs[i]| <= |item|
    ensures cs[i] == item[|Concat(cs[..i])|..|Concat(cs[..i])| + |cs[i]|] && |cs[i]| > 0
  {
    assert cs == cs[..i + 1] + cs[i + 1..] && cs[..i + 1][..i] == cs[..i];
    ConcatAdds(cs[..i + 1], cs[i + 1..]);
    assert Concat(cs[..i + 1]) == Concat(cs[..i]) + cs[i];
  }

  lemma NothingCut(item: Bytes, wintab: Table)
    requires |wintab| == 256
    ensures CutByHash(item, wintab, [])
  {
  }

  lemma CutNext(item: Bytes, wintab: Table, anchor: nat, p: nat, chunks: seq<Bytes>)
    requires |wintab| == 256 && anchor <= p <= |item| && Concat(chunks) == item[..anchor]
    requires CutByHash(item, wintab, chunks)
    requires IsCut(item[anchor..], wintab, Least(MAX_RABIN_CHUNK_SIZE, |item| - anchor), p - anchor)
    ensures CutByHash(item, wintab, chunks + [item[anchor..p]])
  {
    hide IsCut, Concat;
    var next := chunks + [item[anchor..p]];
    forall i: nat | i < |next| ensures CutHere(item, wintab, |Concat(next[..i])|, |next[i]|) {
      if i < |chunks| {
        assert next[..i] == chunks[..i];
      } else {
        assert next[..i] == chunks;
      }
    }
  }

  /** Lines 454-478: whatever lies beyond the last anchor becomes a chunk of its own. */
  method AddRemainder(item: Bytes, anchor: nat, sofar: seq<Bytes>, sofarCount: nat)
    returns (chunks: seq<Bytes>, count: nat)
    requires anchor <= |item| <= anchor + MAX_RABIN_CHUNK_SIZE && IsSplit(item[..anchor], sofar)
      && sofarCount == |sofar|
    ensures IsSplit(item, chunks) && count == |chunks|
    ensures chunks == if anchor < |item| then sofar + [item[anchor..]] else sofar
  {
    chunks, count := sofar, sofarCount;
    if |item| - anchor > 0 {
      SplitNext(item, anchor, |item|, chunks);
      chunks := chunks + [item[anchor..]];
      count := count + 1;
    }
    assert item[..|item|] == item;
  }

  lemma SplitNext(item: Bytes, anchor: nat, p: nat, chunks: seq<Bytes>)
    requires anchor < p <= |item| && p - anchor <= MAX_RABIN_CHUNK_SIZE && IsSplit(item[..anchor], chunks)
    ensures IsSplit(item[..p], chunks + [item[anchor..p]])
  {
    var next := chunks + [item[anchor..p]];
    assert next[..|next| - 1] == chunks;
    assert item[..p] == item[..anchor] + item[anchor..p];
  }

  // ---------------------------------------------------------------------
  // All chunks in output order
  // ---------------------------------------------------------------------

  ghost function Counts(splits: seq<seq<Bytes>>): (r: seq<nat>)
    ensures |r| == |splits| && forall a :: 0 <= a < |r| ==> r[a] == |splits[a]|
  {
    seq(|splits|, a requires 0 <= a < |splits| => |splits[a]|)
  }

  /** The chunks of the first a coarse chunks, one after the other. */
  ghost function Flat(splits: seq<seq<Bytes>>, a: nat): seq<Bytes>
    requires a <= |splits|
  {
    if a == 0 then [] else Flat(splits, a - 1) + splits[a - 1]
  }

  lemma {:induction false} ConcatAdds(xs: seq<Bytes>, ys: seq<Bytes>)
    ensures Concat(xs + ys) == Concat(xs) + Concat(ys)
  {
    if ys == [] {
      assert xs + ys == xs;
    } else {
      var pre, last := ys[..|ys| - 1], ys[|ys| - 1];
      ConcatAdds(xs, pre);
      assert (xs + ys)[..|xs + ys| - 1] == xs + pre;
    }
  }

  /** Cutting every coarse chunk loses and adds nothing. */
  lemma {:induction false} FlatConcat(coarse: seq<Bytes>, splits: seq<seq<Bytes>>, a: nat)
    requires a <= |coarse| == |splits| && forall i :: 0 <= i < |coarse| ==> IsSplit(coarse[i], splits[i])
    ensures Concat(Flat(splits, a)) == Concat(coarse[..a])
  {
    if a > 0 {
      FlatConcat(coarse, splits, a - 1);
      ConcatAdds(Flat(splits, a - 1), splits[a - 1]);
      ConcatNext(coarse, a - 1);
    }
  }

  /** Chunk i in output order is the chunk its key names. */
  lemma {:induction false} FlatIsOrdered(splits: seq<seq<Bytes>>, a: nat)
    requires a <= |splits|
    ensures |Order(Counts(splits), a)| == |Flat(splits, a)|
    ensures forall i :: 0 <= i < |Flat(splits, a)| ==>
              var k := Order(Counts(splits), a)[i];
              k.0 < a && k.1 < |splits[k.0]| && splits[k.0][k.1] == Flat(splits, a)[i]
  {
    if a > 0 {
      FlatIsOrdered(splits, a - 1);
    }
  }

  /** If each arriving item carries its chunk, what SendBlock writes is the coarse chunks again. */
  lemma SentIsWhole(coarse: seq<Bytes>, splits: seq<seq<Bytes>>, all: map<ReorderBuffer.Key, Bytes>, out: seq<Bytes>)
    requires |coarse| == |splits| && forall i :: 0 <= i < |coarse| ==> IsSplit(coarse[i], splits[i])
    requires forall k: ReorderBuffer.Key :: IsKey(Counts(splits), k) ==> k in all && all[k] == splits[k.0][k.1]
    requires forall i :: 0 <= i < |Order(Counts(splits), |splits|)| ==> Order(Counts(splits), |splits|)[i] in all
    requires out == Values(all, Order(Counts(splits), |splits|))
    ensures out == Flat(splits, |splits|) && Concat(out) == Concat(coarse)
  {
    hide Concat, IsSplit, Flat, Order;
    var order := Order(Counts(splits), |splits|);
    FlatIsOrdered(splits, |splits|);
    forall i | 0 <= i < |out| ensures out[i] == Flat(splits, |splits|)[i] {
      assert IsKey(Counts(splits), order[i]);
    }
    FlatConcat(coarse, splits, |splits|);
    assert coarse[..|splits|] == coarse;
  }
}
