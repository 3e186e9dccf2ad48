/**
 Encoding and decoding undo each other: what Decode writes for the archive of a sequence
 of chunks is the chunks themselves, and for the chunks of the coarse pieces of a file,
 the file.
 */
module DedupRoundTrip {
  import opened DedupFormat
  import opened RingBuffer
  import opened DedupDecoder
  import DedupCache
  import DedupEncoder
  import DedupChunker

  /**
   What is asked of SHA-1 and zlib on the chunks at hand: compression is undone, nothing is empty, no digest
   collides.
   */
  ghost predicate Faithful(k: Codec, xs: seq<Bytes>)
  {
    && DedupCache.NoCollision(k, xs)
    && forall i :: 0 <= i < |xs| ==>
      k.uncompress(k.compress(xs[i])) == xs[i] && k.compress(xs[i]) != [] && k.digest(xs[i]) != []
  }

  /** Record i stands for chunk i. */
  ghost predicate StandsFor(k: Codec, xs: seq<Bytes>, r: Record)
  {
    && r.number < |xs| && r.body != []
    && r.body == if r.Data? then k.compress(xs[r.number]) else k.digest(xs[r.number])
  }

  lemma RecordMeans(k: Codec, xs: seq<Bytes>, i: nat)
    requires Faithful(k, xs) && i < |xs|
    ensures Archive(k, xs)[i].number == i && StandsFor(k, xs, Archive(k, xs)[i])
  {
    ArchiveAt(k, xs, i);
  }

  /** Sorting the records keeps each of them once, in order. */
  ghost predicate Picked(rs: seq<Record>, data: bool, some: seq<Record>)
  {
    && (forall p :: 0 <= p < |some| ==> some[p].number < |rs| && rs[some[p].number] == some[p] && some[p].Data? == data)
    && (forall p, q :: 0 <= p < q < |some| ==> some[p].number < some[q].number)
    && (forall i :: 0 <= i < |rs| && rs[i].Data? == data ==> rs[i] in some)
  }

  lemma {:induction false} PickedBoth(rs: seq<Record>)
    requires forall i :: 0 <= i < |rs| ==> rs[i].number == i && rs[i].body != []
    ensures Picked(rs, true, Datas(rs)) && Picked(rs, false, Prints(rs))
  {
    if rs != [] {
      var pre, last := rs[..|rs| - 1], rs[|rs| - 1];
      PickedBoth(pre);
      PickedNext(pre, rs, last, true, Datas(pre), Datas(rs));
      PickedNext(pre, rs, last, false, Prints(pre), Prints(rs));
    }
  }

  lemma PickedNext(pre: seq<Record>, rs: seq<Record>, last: Record, data: bool, some: seq<Record>, some': seq<Record>)
    requires rs == pre + [last] && last.number == |pre| && Picked(pre, data, some)
    requires some' == some + if last.Data? == data then [last] else []
    ensures Picked(rs, data, some')
  {
    forall i | 0 <= i < |rs| && rs[i].Data? == data ensures rs[i] in some' {
      if i < |pre| {
        assert pre[i] in some;
      } else {
        assert some'[|some|] == last;
      }
    }
  }

  // ---------------------------------------------------------------------
  // The decoder's cache
  // ---------------------------------------------------------------------

  ghost predicate CacheRight(k: Codec, xs: seq<Bytes>, cache: map<Bytes, Bytes>)
  {
    forall i :: 0 <= i < |xs| && k.digest(xs[i]) in cache ==> cache[k.digest(xs[i])] == xs[i]
  }

  lemma {:induction false} CacheHolds(k: Codec, xs: seq<Bytes>, ds: seq<Record>)
    requires Faithful(k, xs) && forall p :: 0 <= p < |ds| ==> ds[p].Data? && StandsFor(k, xs, ds[p])
    ensures CacheRight(k, xs, CacheOf(k, ds))
    ensures forall p :: 0 <= p < |ds| ==> ds[p].number < |xs| && k.digest(xs[ds[p].number]) in CacheOf(k, ds)
  {
    if ds != [] {
      var pre, last := ds[..|ds| - 1], ds[|ds| - 1];
      CacheHolds(k, xs, pre);
      var x := k.uncompress(last.body);
      assert x == xs[last.number];
      forall p | 0 <= p < |ds| ensures k.digest(xs[ds[p].number]) in CacheOf(k, ds) {
        if p < |pre| { assert pre[p] == ds[p]; }
      }
    }
  }

  /** Every fingerprint in an archive finds its data in the cache. */
  lemma PrintsAreCached(k: Codec, xs: seq<Bytes>, cache: map<Bytes, Bytes>, r: Record)
    requires Faithful(k, xs) && cache == CacheOf(k, Datas(Archive(k, xs))) && CacheRight(k, xs, cache)
    requires Picked(Archive(k, xs), true, Datas(Archive(k, xs)))
    requires forall d :: d in Datas(Archive(k, xs)) ==> d.number < |xs| && k.digest(xs[d.number]) in cache
    requires !r.Data? && StandsFor(k, xs, r)
    ensures r.body in cache && cache[r.body] == xs[r.number]
  {
    var j := DataPrecedesFingerprints(k, xs, r.number);
    assert Archive(k, xs)[j] in Datas(Archive(k, xs));
  }

  // ---------------------------------------------------------------------
  // What reaches Reassemble
  // ---------------------------------------------------------------------

  lemma ArchiveSorted(k: Codec, xs: seq<Bytes>)
    requires Faithful(k, xs)
    ensures var rs := Archive(k, xs);
      && Picked(rs, true, Datas(rs)) && Picked(rs, false, Prints(rs))
      && (forall r :: r in Datas(rs) ==> r.Data? && StandsFor(k, xs, r))
      && (forall r :: r in Prints(rs) ==> !r.Data? && StandsFor(k, xs, r))
  {
    hide Archive, Faithful, Datas, Prints, StandsFor;
    var rs := Archive(k, xs);
    forall i | 0 <= i < |rs| ensures rs[i].number == i && rs[i].body != [] && StandsFor(k, xs, rs[i]) {
      RecordMeans(k, xs, i);
      StandsForSome(k, xs, rs[i]);
    }
    PickedBoth(rs);
  }

  lemma StandsForSome(k: Codec, xs: seq<Bytes>, r: Record)
    requires StandsFor(k, xs, r)
    ensures r.body != []
  {
  }

  lemma CacheComplete(k: Codec, xs: seq<Bytes>)
    requires Faithful(k, xs)
    ensures var rs := Archive(k, xs); var cache := CacheOf(k, Datas(rs));
      forall i :: 0 <= i < |Prints(rs)| ==>
        Prints(rs)[i].body in cache && Prints(rs)[i].number < |xs|
          && cache[Prints(rs)[i].body] == xs[Prints(rs)[i].number]
  {
    hide Archive, Datas, Prints, CacheOf, Picked;
    var rs := Archive(k, xs);
    var ds, ps := Datas(rs), Prints(rs);
    var cache := CacheOf(k, ds);
    ArchiveSorted(k, xs);
    forall p | 0 <= p < |ds| ensures ds[p].Data? && StandsFor(k, xs, ds[p]) {
      assert ds[p] in ds;
    }
    CacheHolds(k, xs, ds);
    forall i | 0 <= i < |ps|
      ensures ps[i].body in cache && ps[i].number < |xs| && cache[ps[i].body] == xs[ps[i].number] {
      assert ps[i] in ps;
      PrintsAreCached(k, xs, cache, ps[i]);
    }
  }

  /** The header, the opened data records and the fingerprints with the data they stand for. */
  ghost predicate ArePieces(k: Codec, xs: seq<Bytes>, ds: seq<Record>, ps: seq<Record>, items: seq<Piece>)
  {
    && |items| == 1 + |ds| + |ps| && items[0] == Header
    && (forall p :: 0 <= p < |ds| ==> items[1 + p] == Piece(ds[p].number, k.uncompress(ds[p].body)))
    && (forall p :: 0 <= p < |ps| ==>
      ps[p].number < |xs| && items[1 + |ds| + p] == Piece(ps[p].number, xs[ps[p].number]))
  }

  /** Opened data and found fingerprints together make up every chunk, each once. */
  lemma PiecesComplete(k: Codec, xs: seq<Bytes>, named: bool, ds: seq<Record>, ps: seq<Record>, items: seq<Piece>)
    requires Faithful(k, xs) && ds == Datas(Archive(k, xs)) && ps == Prints(Archive(k, xs))
    requires ArePieces(k, xs, ds, ps, items)
    ensures Complete(xs, named, items, 0)
  {
    hide Archive, Datas, Prints;
    var rs := Archive(k, xs);
    ArchiveSorted(k, xs);
    assert Origins(rs, ds, ps, items) by {
      forall i | 1 <= i < |items|
        ensures items[i].Piece? && items[i].cid < |rs| && (rs[items[i].cid].Data? <==> i <= |ds|) {
        if i <= |ds| {
          assert items[1 + (i - 1)] == items[i] && ds[i - 1] in ds;
        } else {
          assert items[1 + |ds| + (i - 1 - |ds|)] == items[i] && ps[i - 1 - |ds|] in ps;
        }
      }
    }
    PiecesRight(k, xs, ds, ps, items);
    PiecesDistinct(rs, ds, ps, items);
    forall c: nat | c < |xs| ensures Lists(items, c) {
      RecordMeans(k, xs, c);
      PiecePresent(rs, ds, ps, items, c);
    }
  }

  /** Pieces 1 .. |ds| stem from data records, the others from fingerprints. */
  ghost predicate Origins(rs: seq<Record>, ds: seq<Record>, ps: seq<Record>, items: seq<Piece>)
  {
    forall i :: 1 <= i < |items| ==> items[i].Piece? && items[i].cid < |rs| && (rs[items[i].cid].Data? <==> i <= |ds|)
  }

  lemma PiecesRight(k: Codec, xs: seq<Bytes>, ds: seq<Record>, ps: seq<Record>, items: seq<Piece>)
    requires Faithful(k, xs) && (forall r :: r in ds ==> r.Data? && StandsFor(k, xs, r))
    requires |items| == 1 + |ds| + |ps|
    requires forall p :: 0 <= p < |ds| ==> items[1 + p] == Piece(ds[p].number, k.uncompress(ds[p].body))
    requires forall p :: 0 <= p < |ps| ==> items[1 + |ds| + p].Piece? && items[1 + |ds| + p].cid == ps[p].number
    requires forall p :: 0 <= p < |ps| ==> ps[p].number < |xs| && items[1 + |ds| + p].content == xs[ps[p].number]
    ensures forall i :: 1 <= i < |items| ==>
      items[i].Piece? && items[i].cid < |xs| && items[i].content == xs[items[i].cid]
  {
    forall i | 1 <= i < |items| ensures items[i].Piece? && items[i].cid < |xs| && items[i].content == xs[items[i].cid] {
      if i <= |ds| {
        var p := i - 1;
        assert items[1 + p] == items[i] && ds[p] in ds;
      } else {
        var p := i - 1 - |ds|;
        assert items[1 + |ds| + p] == items[i] && ps[p].number < |xs|;
      }
    }
  }

  lemma PiecesDistinct(rs: seq<Record>, ds: seq<Record>, ps: seq<Record>, items: seq<Piece>)
    requires Picked(rs, true, ds) && Picked(rs, false, ps) && Origins(rs, ds, ps, items) && |items| == 1 + |ds| + |ps|
    requires forall p :: 0 <= p < |ds| ==> items[1 + p].Piece? && items[1 + p].cid == ds[p].number
    requires forall p :: 0 <= p < |ps| ==> items[1 + |ds| + p].Piece? && items[1 + |ds| + p].cid == ps[p].number
    ensures forall i, j :: 1 <= i < j < |items| ==> items[i].cid != items[j].cid
  {
    forall i, j | 1 <= i < j < |items| ensures items[i].cid != items[j].cid {
      if j <= |ds| {
        var p, q := i - 1, j - 1;
        assert items[1 + p].cid == ds[p].number && items[1 + q].cid == ds[q].number;
      } else if i > |ds| {
        var p, q := i - 1 - |ds|, j - 1 - |ds|;
        assert items[1 + |ds| + p].cid == ps[p].number && items[1 + |ds| + q].cid == ps[q].number;
      }
    }
  }

  lemma PiecePresent(rs: seq<Record>, ds: seq<Record>, ps: seq<Record>, items: seq<Piece>, c: nat)
    requires Picked(rs, true, ds) && Picked(rs, false, ps) && |items| == 1 + |ds| + |ps| && c < |rs|
      && rs[c].number == c
    requires forall p :: 0 <= p < |ds| ==> items[1 + p].Piece? && items[1 + p].cid == ds[p].number
    requires forall p :: 0 <= p < |ps| ==> items[1 + |ds| + p].Piece? && items[1 + |ds| + p].cid == ps[p].number
    ensures Lists(items, c)
  {
    if rs[c].Data? {
      var p :| 0 <= p < |ds| && ds[p] == rs[c];
      assert items[1 + p].cid == c;
    } else {
      var p :| 0 <= p < |ps| && ps[p] == rs[c];
      assert items[1 + |ds| + p].cid == c;
    }
  }

  // ---------------------------------------------------------------------
  // The round trip
  // ---------------------------------------------------------------------

  /** Decode on an archive gives back the chunks, for any number of chunks that leaves a slot of each ring free. */
  method Decode(k: Codec, file: seq<Unit>, named: bool, size: nat, ghost xs: seq<Bytes>) returns (out: Bytes)
    requires Faithful(k, xs) && IsFile(file, Archive(k, xs)) && |xs| + 2 < size
    ensures out == Concat(xs)
  {
    hide Archive, Faithful, Datas, Prints, Ring.Valid, CacheOf, Complete, Concat, IsFile, Opened, Found;
    ghost var rs := Archive(k, xs);
    ghost var ds, ps := Datas(rs), Prints(rs);
    SortLength(rs);
    Partition(rs);
    CacheComplete(k, xs);
    ghost var cached := CacheOf(k, ds);
    var decompress := new Ring<Record>(size);
    var checkcache := new Ring<Record>(size);
    var reassemble := new Ring<Piece>(size);
    var errors := RecvBlock(file, decompress, checkcache, reassemble, rs);
    var cache := Decompress(k, decompress, reassemble);
    CheckCache(cache, checkcache, reassemble);
    ghost var items := reassemble.items;
    assert items == [Header] + Opened(k, ds) + Found(cached, ps);
    AllPieces(k, xs, named, ds, ps, cached, items);
    out := Reassemble(reassemble, named, xs, 0);
  }

  lemma {:induction false} Partition(rs: seq<Record>)
    ensures |Datas(rs)| + |Prints(rs)| <= |rs|
  {
    if rs != [] { Partition(rs[..|rs| - 1]); }
  }

  lemma AllPieces(k: Codec, xs: seq<Bytes>, named: bool, ds: seq<Record>, ps: seq<Record>, cache: map<Bytes, Bytes>,
                  items: seq<Piece>)
    requires Faithful(k, xs) && ds == Datas(Archive(k, xs)) && ps == Prints(Archive(k, xs)) && cache == CacheOf(k, ds)
    requires forall i :: 0 <= i < |ps| ==>
      ps[i].body in cache && ps[i].number < |xs| && cache[ps[i].body] == xs[ps[i].number]
    requires items == [Header] + Opened(k, ds) + Found(cache, ps)
    ensures Complete(xs, named, items, 0)
  {
    hide Archive, Faithful, Datas, Prints, CacheOf, Complete, Opened, Found, ArePieces;
    PiecesAre(k, xs, ds, ps, cache, items);
    PiecesComplete(k, xs, named, ds, ps, items);
  }

  lemma PiecesAre(k: Codec, xs: seq<Bytes>, ds: seq<Record>, ps: seq<Record>, cache: map<Bytes, Bytes>,
                  items: seq<Piece>)
    requires forall i :: 0 <= i < |ps| ==>
      ps[i].body in cache && ps[i].number < |xs| && cache[ps[i].body] == xs[ps[i].number]
    requires items == [Header] + Opened(k, ds) + Found(cache, ps)
    ensures ArePieces(k, xs, ds, ps, items)
  {
  }

  /** The units of the file behind a list of records. */
  ghost function FileOf(rs: seq<Record>): seq<Unit>
  {
    [HeadUnit] + seq(|rs|, i requires 0 <= i < |rs| => BodyUnit(rs[i])) + [FinishUnit]
  }

  /** Whatever the interleaving of the encoder's stages, decoding gives back the chunks in the order they were sent. */
  method DecodeEveryRun(k: Codec, file: seq<Unit>, named: bool, size: nat, ghost xs: seq<Bytes>,
                        ghost last: DedupCache.State, ghost tr: seq<DedupCache.State>,
                        ghost acts: seq<DedupCache.Action>)
    returns (out: Bytes)
    requires Faithful(k, xs) && DedupCache.IsRun(k, xs, tr, acts) && last == tr[|tr| - 1] && |last.order| + 2 < size
    requires file == FileOf(last.file)
    ensures forall p :: 0 <= p < |last.order| ==> last.order[p] < |xs|
    ensures out == Concat(DedupCache.SentChunks(xs, last.order))
  {
    hide DedupCache.IsRun, Archive, Concat, Faithful;
    WrittenInOrderSent(k, xs, last, tr, acts);
    out := Decode(k, file, named, size, DedupCache.SentChunks(xs, last.order));
  }

  lemma WrittenInOrderSent(k: Codec, xs: seq<Bytes>, last: DedupCache.State, tr: seq<DedupCache.State>,
                           acts: seq<DedupCache.Action>)
    requires Faithful(k, xs) && DedupCache.IsRun(k, xs, tr, acts) && last == tr[|tr| - 1]
    ensures forall p :: 0 <= p < |last.order| ==> last.order[p] < |xs|
    ensures last.file == Archive(k, DedupCache.SentChunks(xs, last.order))
      && Faithful(k, DedupCache.SentChunks(xs, last.order))
  {
    hide DedupCache.IsRun, Archive;
    DedupCache.EveryRunWritesTheArchive(k, xs, tr, acts);
    FaithfulPart(k, xs, last.order);
  }

  lemma FaithfulPart(k: Codec, xs: seq<Bytes>, order: seq<nat>)
    requires Faithful(k, xs) && forall p :: 0 <= p < |order| ==> order[p] < |xs|
    ensures Faithful(k, DedupCache.SentChunks(xs, order))
  {
  }

  /** What the encoder is to do with coarse chunks that are cut into splits. */
  ghost function JobOf(k: Codec, coarse: seq<Bytes>, splits: seq<seq<Bytes>>): (j: DedupEncoder.Job)
    requires AreCut(coarse, splits) && Faithful(k, DedupChunker.Flat(splits, |splits|))
    ensures j.Valid() && j.k == k && j.xs == DedupChunker.Flat(splits, |splits|)
  {
    JobIsValid(k, coarse, splits);
    DedupEncoder.Job(k, DedupChunker.Flat(splits, |splits|), DedupChunker.Counts(splits))
  }

  ghost predicate AreCut(coarse: seq<Bytes>, splits: seq<seq<Bytes>>)
  {
    && |coarse| == |splits|
    && forall i :: 0 <= i < |coarse| ==> coarse[i] != [] && DedupChunker.IsSplit(coarse[i], splits[i])
  }

  lemma JobIsValid(k: Codec, coarse: seq<Bytes>, splits: seq<seq<Bytes>>)
    requires AreCut(coarse, splits) && Faithful(k, DedupChunker.Flat(splits, |splits|))
    ensures DedupEncoder.Job(k, DedupChunker.Flat(splits, |splits|), DedupChunker.Counts(splits)).Valid()
  {
    hide DedupChunker.Flat;
    DedupChunker.FlatIsOrdered(splits, |splits|);
    forall i | 0 <= i < |splits| ensures |splits[i]| >= 1 {
      assert coarse[i] == Concat(splits[i]);
    }
  }

  /**
   Encode, then decode: in every finished run of the encoder, chunkers, stages and sender interleaved in any way, on
   coarse chunks cut anywhere, decoding gives back the chunks in the order they were sent.  They were sent as 0, 1,
   2, ... if and only if no anchor but the last was left on a count that still grew, and then decoding gives back
   the coarse chunks.
   */
  method RoundTrip(k: Codec, file: seq<Unit>, named: bool, size: nat, ghost coarse: seq<Bytes>,
                   ghost splits: seq<seq<Bytes>>, ghost j: DedupEncoder.Job, ghost last: DedupEncoder.State,
                   ghost tr: seq<DedupEncoder.State>, ghost acts: seq<DedupEncoder.Action>)
    returns (out: Bytes)
    requires AreCut(coarse, splits) && Faithful(k, DedupChunker.Flat(splits, |splits|)) && j == JobOf(k, coarse, splits)
    requires DedupEncoder.IsRun(j, tr, acts) && last == tr[|tr| - 1] && DedupEncoder.Finished(last)
    requires file == FileOf(last.cache.file) && |j.xs| + 2 < size
    ensures forall p :: 0 <= p < |last.cache.order| ==> last.cache.order[p] < |j.xs|
    ensures out == Concat(DedupCache.SentChunks(j.xs, last.cache.order))
    ensures DedupEncoder.NoneLeftEarly(j, last) <==> last.cache.order == seq(|j.xs|, i => i)
    ensures DedupEncoder.NoneLeftEarly(j, last) ==> out == Concat(coarse)
  {
    hide Faithful, DedupEncoder.IsRun, DedupEncoder.Finished, DedupEncoder.NoneLeftEarly, DedupChunker.IsSplit;
    hide DedupChunker.Flat, Concat, Archive, j.Valid;
    DedupEncoder.EveryRunSends(j, last, tr, acts);
    ghost var sent := DedupCache.SentChunks(j.xs, last.cache.order);
    FaithfulPart(k, j.xs, last.cache.order);
    out := Decode(k, file, named, size, sent);
    DedupChunker.FlatConcat(coarse, splits, |splits|);
    assert coarse[..|splits|] == coarse;
    if last.cache.order == seq(|j.xs|, i => i) {
      assert sent == j.xs;
    }
  }
}
