/**
 The decoder of apps/dedup/decoder.c: RecvBlock, Decompress, CheckCache and Reassemble,
 run one after the other by Decode (lines 427-440) and joined by three rings.
 */
module DedupDecoder {
  import opened DedupFormat
  import opened RingBuffer

  /** What the archive file consists of. */
  datatype Unit = HeadUnit | BodyUnit(record: Record) | FinishUnit

  /** What reaches Reassemble: the file header, or the content of a chunk. */
  datatype Piece = Header | Piece(cid: nat, content: Bytes)

  ghost function Concat(xs: seq<Bytes>): Bytes
  {
    if xs == [] then [] else Concat(xs[..|xs| - 1]) + xs[|xs| - 1]
  }

  lemma ConcatNext(xs: seq<Bytes>, i: nat)
    requires i < |xs|
    ensures Concat(xs[..i + 1]) == Concat(xs[..i]) + xs[i]
  {
    assert xs[..i + 1][..i] == xs[..i];
  }

  // ---------------------------------------------------------------------
  // RecvBlock
  // ---------------------------------------------------------------------

  ghost function Datas(rs: seq<Record>): seq<Record>
  {
    if rs == [] then []
    else Datas(rs[..|rs| - 1]) + if rs[|rs| - 1].Data? && rs[|rs| - 1].body != [] then [rs[|rs| - 1]] else []
  }

  ghost function Prints(rs: seq<Record>): seq<Record>
  {
    if rs == [] then []
    else Prints(rs[..|rs| - 1]) + if rs[|rs| - 1].Fingerprint? && rs[|rs| - 1].body != [] then [rs[|rs| - 1]] else []
  }

  lemma SortNext(rs: seq<Record>, i: nat)
    requires i < |rs|
    ensures Datas(rs[..i + 1]) == Datas(rs[..i]) + if rs[i].Data? && rs[i].body != [] then [rs[i]] else []
    ensures Prints(rs[..i + 1]) == Prints(rs[..i]) + if rs[i].Fingerprint? && rs[i].body != [] then [rs[i]] else []
  {
    assert rs[..i + 1][..i] == rs[..i];
  }

  lemma {:induction false} SortLength(rs: seq<Record>)
    ensures |Datas(rs)| <= |rs| && |Prints(rs)| <= |rs|
  {
    if rs != [] { SortLength(rs[..|rs| - 1]); }
  }

  /** The file as the sender writes it: header, records, end mark. */
  ghost predicate IsFile(file: seq<Unit>, rs: seq<Record>)
  {
    && |file| == |rs| + 2 && file[0] == HeadUnit && file[|rs| + 1] == FinishUnit
    && forall i :: 0 <= i < |rs| ==> file[i + 1] == BodyUnit(rs[i])
  }

  lemma FileUnit(file: seq<Unit>, rs: seq<Record>, i: nat)
    requires IsFile(file, rs) && i <= |rs| + 1
    ensures |file| == |rs| + 2
    ensures file[i] == FinishUnit <==> i == |rs| + 1
    ensures file[i] == HeadUnit <==> i == 0
    ensures 1 <= i <= |rs| ==> file[i] == BodyUnit(rs[i - 1])
  {
    if 1 <= i <= |rs| {
      var j := i - 1;
      assert file[j + 1] == BodyUnit(rs[j]);
    }
  }

  /** One record of the file, sent on unless it is empty. */
  method Dispatch(r: Record, decompress: Ring<Record>, checkcache: Ring<Record>)
    requires decompress.Valid() && checkcache.Valid() && decompress != checkcache && decompress.data != checkcache.data
    requires |decompress.items| + 1 < decompress.data.Length && |checkcache.items| + 1 < checkcache.data.Length
    modifies decompress, decompress.data, checkcache, checkcache.data
    ensures decompress.Valid() && checkcache.Valid()
    ensures decompress.items == old(decompress.items) + if r.Data? && r.body != [] then [r] else []
    ensures checkcache.items == old(checkcache.items) + if r.Fingerprint? && r.body != [] then [r] else []
  {
    match r {
      case Fingerprint(_, body) =>
        if |body| > 0 { checkcache.Put(r); }
      case Data(_, body) =>
        if |body| > 0 { decompress.Put(r); }
    }
  }

  /** RecvBlock: data to the decompressor, fingerprints to the cache check, the header straight on. */
  method RecvBlock(file: seq<Unit>, decompress: Ring<Record>, checkcache: Ring<Record>, reassemble: Ring<Piece>,
                   ghost rs: seq<Record>)
    returns (errors: nat)
    requires IsFile(file, rs) && decompress.Valid() && checkcache.Valid() && reassemble.Valid()
    requires decompress.items == [] && checkcache.items == [] && reassemble.items == []
    requires decompress != checkcache && decompress.data != checkcache.data
    requires |rs| + 1 < decompress.data.Length && |rs| + 1 < checkcache.data.Length && 1 < reassemble.data.Length
    modifies decompress, decompress.data, checkcache, checkcache.data, reassemble, reassemble.data
    ensures decompress.Valid() && checkcache.Valid() && reassemble.Valid()
    ensures decompress.items == Datas(rs) && checkcache.items == Prints(rs) && reassemble.items == [Header]
    ensures errors == 0 <==> forall i :: 0 <= i < |rs| ==> rs[i].number == i
  {
    hide Ring.Valid, Datas, Prints, IsFile;
    errors := 0;
    var checkCount := 0;
    var i := 0;
    FileUnit(file, rs, 0);
    NothingSorted(rs);
    while file[i] != FinishUnit
      invariant 0 <= i <= |rs| + 1 < |file| && decompress.Valid() && checkcache.Valid() && reassemble.Valid()
      invariant reassemble.items == if i == 0 then [] else [Header]
      invariant decompress.items == Datas(rs[..Before(i)]) && checkcache.items == Prints(rs[..Before(i)])
      invariant errors == 0 ==> checkCount == Before(i)
      invariant errors == 0 <==> forall j :: 0 <= j < Before(i) ==> rs[j].number == j
      decreases |rs| + 1 - i
    {
      FileUnit(file, rs, i);
      match file[i] {
        case HeadUnit =>
          reassemble.Put(Header);
        case BodyUnit(r) =>
          SortNext(rs, i - 1);
          SortLength(rs[..i - 1]);
          if r.number == checkCount {
            checkCount := checkCount + 1;
          } else {
            errors := errors + 1;
          }
          Dispatch(r, decompress, checkcache);
      }
      i := i + 1;
    }
    FileUnit(file, rs, i);
    assert rs[..|rs|] == rs;
  }

  /** Records before unit i of the file. */
  function Before(i: nat): nat
  {
    if i == 0 then 0 else i - 1
  }

  lemma NothingSorted(rs: seq<Record>)
    ensures Datas(rs[..0]) == [] && Prints(rs[..0]) == []
  {
  }

  // ---------------------------------------------------------------------
  // Decompress and CheckCache
  // ---------------------------------------------------------------------

  ghost function Opened(k: Codec, rs: seq<Record>): (r: seq<Piece>)
    ensures |r| == |rs|
  {
    seq(|rs|, i requires 0 <= i < |rs| => Piece(rs[i].number, k.uncompress(rs[i].body)))
  }

  /** The cache after the records rs: every content under its digest, the latest first. */
  ghost function CacheOf(k: Codec, rs: seq<Record>): map<Bytes, Bytes>
  {
    if rs == [] then map[]
    else
      var x := k.uncompress(rs[|rs| - 1].body);
      CacheOf(k, rs[..|rs| - 1])[k.digest(x) := x]
  }

  lemma OpenNext(k: Codec, rs: seq<Record>, j: nat)
    requires j < |rs|
    ensures Opened(k, rs[..j + 1]) == Opened(k, rs[..j]) + [Piece(rs[j].number, k.uncompress(rs[j].body))]
    ensures var x := k.uncompress(rs[j].body); CacheOf(k, rs[..j + 1]) == CacheOf(k, rs[..j])[k.digest(x) := x]
  {
    assert rs[..j + 1][..j] == rs[..j];
  }

  lemma OpenNone(k: Codec, rs: seq<Record>)
    ensures Opened(k, rs[..0]) == [] && CacheOf(k, rs[..0]) == map[]
  {
  }

  /** Decompress: each data record becomes a piece and enters the cache under its digest. */
  method Decompress(k: Codec, decompress: Ring<Record>, reassemble: Ring<Piece>) returns (cache: map<Bytes, Bytes>)
    requires decompress.Valid() && reassemble.Valid()
    requires |reassemble.items| + |decompress.items| < reassemble.data.Length
    modifies decompress, reassemble, reassemble.data
    ensures decompress.Valid() && reassemble.Valid() && decompress.items == []
    ensures reassemble.items == old(reassemble.items) + Opened(k, old(decompress.items))
    ensures cache == CacheOf(k, old(decompress.items))
  {
    hide Ring.Valid, Opened, CacheOf;
    cache := map[];
    ghost var rs, from, j := decompress.items, reassemble.items, 0;
    OpenNone(k, rs);
    while true
      invariant 0 <= j <= |rs| && decompress.Valid() && reassemble.Valid()
      invariant decompress.items == rs[j..] && reassemble.items == from + Opened(k, rs[..j])
      invariant cache == CacheOf(k, rs[..j])
      decreases |rs| - j
    {
      var empty := decompress.IsEmpty();
      if empty { break; }
      var r := decompress.Take();
      OpenNext(k, rs, j);
      var content := k.uncompress(r.body);
      cache := cache[k.digest(content) := content];
      reassemble.Put(Piece(r.number, content));
      j := j + 1;
    }
    assert rs[..j] == rs;
  }

  ghost function Found(cache: map<Bytes, Bytes>, rs: seq<Record>): (r: seq<Piece>)
    requires forall i :: 0 <= i < |rs| ==> rs[i].body in cache
    ensures |r| == |rs|
  {
    seq(|rs|, i requires 0 <= i < |rs| => Piece(rs[i].number, cache[rs[i].body]))
  }

  lemma FoundNext(cache: map<Bytes, Bytes>, rs: seq<Record>, j: nat)
    requires j < |rs| && forall i :: 0 <= i < |rs| ==> rs[i].body in cache
    ensures Found(cache, rs[..j + 1]) == Found(cache, rs[..j]) + [Piece(rs[j].number, cache[rs[j].body])]
    ensures Found(cache, rs[..0]) == []
  {
  }

  /** CheckCache: each fingerprint becomes the content stored under it; the search loop ends because it is there. */
  method CheckCache(cache: map<Bytes, Bytes>, checkcache: Ring<Record>, reassemble: Ring<Piece>)
    requires checkcache.Valid() && reassemble.Valid()
    requires |reassemble.items| + |checkcache.items| < reassemble.data.Length
    requires forall i :: 0 <= i < |checkcache.items| ==> checkcache.items[i].body in cache
    modifies checkcache, reassemble, reassemble.data
    ensures checkcache.Valid() && reassemble.Valid() && checkcache.items == []
    ensures reassemble.items == old(reassemble.items) + Found(cache, old(checkcache.items))
  {
    hide Ring.Valid, Found;
    ghost var rs, from, j := checkcache.items, reassemble.items, 0;
    if |rs| > 0 { FoundNext(cache, rs, 0); }
    assert rs[..0] == [] && Found(cache, rs[..0]) == [];
    while true
      invariant 0 <= j <= |rs| && checkcache.Valid() && reassemble.Valid()
      invariant checkcache.items == rs[j..] && reassemble.items == from + Found(cache, rs[..j])
      decreases |rs| - j
    {
      var empty := checkcache.IsEmpty();
      if empty { break; }
      var r := checkcache.Take();
      FoundNext(cache, rs, j);
      reassemble.Put(Piece(r.number, cache[r.body]));
      j := j + 1;
    }
    assert rs[..j] == rs;
  }

  // ---------------------------------------------------------------------
  // Reassemble
  // ---------------------------------------------------------------------

  /** The list of chunks that came too early, by increasing number. */
  ghost predicate Ascending(list: seq<Piece>)
  {
    && (forall i :: 0 <= i < |list| ==> list[i].Piece?)
    && (forall i, j :: 0 <= i < j < |list| ==> list[i].cid < list[j].cid)
  }

  ghost predicate Lists(list: seq<Piece>, c: nat)
  {
    exists i :: 0 <= i < |list| && list[i].Piece? && list[i].cid == c
  }

  /** list_insert together with the caller's update of the list head. */
  method ListInsert(list: seq<Piece>, x: Piece) returns (r: seq<Piece>, ghost at: nat)
    requires Ascending(list) && x.Piece? && !Lists(list, x.cid)
    ensures at <= |list| && r == list[..at] + [x] + list[at..]
    ensures Ascending(r)
  {
    if |list| == 0 {
      return [x], 0;
    }
    if x.cid < list[0].cid {
      InsertAscending(list, x, 0);
      return [x] + list, 0;
    }
    var p := 0;
    assert x.cid != list[0].cid;
    while p + 1 < |list| && x.cid > list[p + 1].cid
      invariant 0 <= p < |list| && list[p].cid < x.cid
    {
      p := p + 1;
    }
    assert p + 1 < |list| ==> x.cid != list[p + 1].cid;
    InsertAscending(list, x, p + 1);
    r, at := list[..p + 1] + [x] + list[p + 1..], p + 1;
  }

  lemma InsertAscending(list: seq<Piece>, x: Piece, at: nat)
    requires Ascending(list) && x.Piece? && at <= |list|
    requires at > 0 ==> list[at - 1].cid < x.cid
    requires at < |list| ==> x.cid < list[at].cid
    ensures Ascending(list[..at] + [x] + list[at..])
  {
    var r := list[..at] + [x] + list[at..];
    forall i | 0 <= i < |r| ensures r[i] == if i < at then list[i] else if i == at then x else list[i - 1] {
    }
    forall i, j | 0 <= i < j < |r| ensures r[i].cid < r[j].cid {
      if i < at && j == at { assert i < at - 1 ==> list[i].cid < list[at - 1].cid; }
      if i == at && j > at { assert at < j - 1 ==> list[at].cid < list[j - 1].cid; }
    }
  }

  /** The first chunk in the list, if any, is not the next one. */
  ghost predicate Settled(list: seq<Piece>, count: nat)
  {
    list != [] ==> list[0].Piece? && list[0].cid != count
  }

  /** Chunks below count are out; those received beyond it are in the list. */
  ghost predicate Assembled(xs: seq<Bytes>, received: set<nat>, list: seq<Piece>, count: nat, out: Bytes)
  {
    && count <= |xs| && out == Concat(xs[..count])
    && Ascending(list)
    && (forall i :: 0 <= i < |list| ==>
      count <= list[i].cid < |xs| && list[i].cid in received && list[i].content == xs[list[i].cid])
    && (forall c: nat :: c in received && count <= c ==> Lists(list, c))
    && (forall c: nat :: c < count ==> c in received)
    && (forall c: nat :: c in received ==> c < |xs|)
  }

  lemma NewIsNotListed(xs: seq<Bytes>, received: set<nat>, list: seq<Piece>, count: nat, out: Bytes, c: nat)
    requires Assembled(xs, received, list, count, out) && c !in received
    ensures !Lists(list, c) && count <= c
  {
  }

  lemma AssembledInsert(xs: seq<Bytes>, received: set<nat>, list: seq<Piece>, count: nat, out: Bytes, x: Piece,
                        r: seq<Piece>, at: nat)
    requires Assembled(xs, received, list, count, out)
    requires x.Piece? && x.cid < |xs| && x.cid !in received && x.content == xs[x.cid]
    requires at <= |list| && r == list[..at] + [x] + list[at..] && Ascending(r)
    ensures Assembled(xs, received + {x.cid}, r, count, out)
  {
    hide Concat, Lists;
    NewIsNotListed(xs, received, list, count, out, x.cid);
    forall i | 0 <= i < |r|
      ensures count <= r[i].cid < |xs| && r[i].cid in received + {x.cid} && r[i].content == xs[r[i].cid] {
      assert r[i] == if i < at then list[i] else if i == at then x else list[i - 1];
    }
    forall c: nat | c in received + {x.cid} && count <= c ensures Lists(r, c) {
      ListsInserted(list, x, r, at, c);
    }
  }

  lemma ListsInserted(list: seq<Piece>, x: Piece, r: seq<Piece>, at: nat, c: nat)
    requires x.Piece? && at <= |list| && r == list[..at] + [x] + list[at..] && (c == x.cid || Lists(list, c))
    ensures Lists(r, c)
  {
    if c == x.cid {
      assert r[at] == x;
    } else {
      var i :| 0 <= i < |list| && list[i].Piece? && list[i].cid == c;
      assert r[if i < at then i else i + 1] == list[i];
    }
  }

  lemma AssembledWrite(xs: seq<Bytes>, received: set<nat>, list: seq<Piece>, count: nat, out: Bytes)
    requires Assembled(xs, received, list, count, out) && list != [] && list[0].cid == count
    ensures Assembled(xs, received, list[1..], count + 1, out + list[0].content)
  {
    ConcatNext(xs, count);
    var rest := list[1..];
    forall i | 0 <= i < |rest| ensures count + 1 <= rest[i].cid && rest[i] == list[i + 1] {
      assert list[0].cid < list[i + 1].cid;
    }
    forall c: nat | c in received && count + 1 <= c ensures Lists(rest, c) {
      var i :| 0 <= i < |list| && list[i].Piece? && list[i].cid == c;
      assert rest[i - 1].cid == c;
    }
  }

  /** The loops that follow a write: write the listed chunks that are next in order. */
  method WriteListed(list: seq<Piece>, count: nat, out: Bytes, ghost xs: seq<Bytes>, ghost received: set<nat>)
    returns (list': seq<Piece>, count': nat, out': Bytes)
    requires Assembled(xs, received, list, count, out)
    ensures Assembled(xs, received, list', count', out') && Settled(list', count')
  {
    hide Concat;
    list', count', out' := list, count, out;
    while |list'| > 0 && list'[0].cid == count'
      invariant Assembled(xs, received, list', count', out')
    {
      AssembledWrite(xs, received, list', count', out');
      out' := out' + list'[0].content;
      count' := count' + 1;
      list' := list'[1..];
    }
  }

  ghost function Contents(list: seq<Piece>): seq<Bytes>
    requires Ascending(list)
  {
    seq(|list|, i requires 0 <= i < |list| => list[i].content)
  }

  /** The last loop: write what is still listed. */
  method WriteRest(list: seq<Piece>, out: Bytes) returns (out': Bytes)
    requires Ascending(list)
    ensures out' == out + Concat(Contents(list))
    ensures list == [] ==> out' == out
  {
    out' := out;
    var p := 0;
    while p < |list|
      invariant 0 <= p <= |list| && out' == out + Concat(Contents(list)[..p])
    {
      ConcatNext(Contents(list), p);
      out' := out' + list[p].content;
      p := p + 1;
    }
    assert Contents(list)[..p] == Contents(list);
  }

  /** One header, and every chunk once; a header that comes later is only right if it opens the file. */
  ghost predicate Complete(xs: seq<Bytes>, named: bool, items: seq<Piece>, h: nat)
  {
    && h < |items| && items[h] == Header && (named ==> h == 0)
    && (forall i :: 0 <= i < |items| && i != h ==>
      items[i].Piece? && items[i].cid < |xs| && items[i].content == xs[items[i].cid])
    && (forall i, j :: 0 <= i < j < |items| && i != h && j != h ==> items[i].cid != items[j].cid)
    && (forall c: nat :: c < |xs| ==> Lists(items, c))
  }

  ghost function Cids(items: seq<Piece>): set<nat>
  {
    set i | 0 <= i < |items| && items[i].Piece? :: items[i].cid
  }

  lemma CidsNext(xs: seq<Bytes>, named: bool, items: seq<Piece>, h: nat, j: nat)
    requires Complete(xs, named, items, h) && j < |items|
    ensures items[j] == Header <==> j == h
    ensures j == h ==> Cids(items[..j + 1]) == Cids(items[..j])
    ensures j != h ==> items[j].cid !in Cids(items[..j]) && Cids(items[..j + 1]) == Cids(items[..j]) + {items[j].cid}
  {
    var a, b := items[..j], items[..j + 1];
    forall c ensures c in Cids(b) <==> c in Cids(a) || (j != h && c == items[j].cid) {
      if c in Cids(b) {
        var i :| 0 <= i < |b| && b[i].Piece? && b[i].cid == c;
        if i < j { assert a[i].cid == c; }
      }
      if c in Cids(a) {
        var i :| 0 <= i < |a| && a[i].Piece? && a[i].cid == c;
        assert b[i].cid == c;
      }
      if j != h && c == items[j].cid { assert b[j].cid == c; }
    }
  }

  lemma AllCids(xs: seq<Bytes>, named: bool, items: seq<Piece>, h: nat, c: nat)
    requires Complete(xs, named, items, h) && c < |xs|
    ensures c in Cids(items)
  {
    assert Lists(items, c);
    var i :| 0 <= i < |items| && items[i].Piece? && items[i].cid == c;
  }

  lemma ListedFirst(list: seq<Piece>, count: nat)
    requires Ascending(list) && forall i :: 0 <= i < |list| ==> count <= list[i].cid
    ensures Lists(list, count) ==> list != [] && list[0].cid == count
  {
    if Lists(list, count) {
      var i :| 0 <= i < |list| && list[i].Piece? && list[i].cid == count;
    }
  }

  lemma AssembledAll(xs: seq<Bytes>, received: set<nat>, list: seq<Piece>, count: nat, out: Bytes)
    requires Assembled(xs, received, list, count, out) && Settled(list, count)
    requires forall c: nat :: c < |xs| ==> c in received
    ensures list == [] && out == Concat(xs)
  {
    ListedFirst(list, count);
    assert xs[..count] == xs;
  }

  lemma AssembledStart(xs: seq<Bytes>)
    ensures Assembled(xs, {}, [], 0, []) && Settled([], 0)
  {
  }

  /** One chunk off the ring: out if it is next and the file is open, else into the list. */
  method Accept(x: Piece, open: bool, list: seq<Piece>, count: nat, out: Bytes, ghost xs: seq<Bytes>,
                ghost received: set<nat>)
    returns (list': seq<Piece>, count': nat, out': Bytes)
    requires Assembled(xs, received, list, count, out) && (open ==> Settled(list, count))
    requires x.Piece? && x.cid < |xs| && x.cid !in received && x.content == xs[x.cid]
    ensures Assembled(xs, received + {x.cid}, list', count', out') && (open ==> Settled(list', count'))
    ensures !open ==> count' == count
  {
    hide Concat;
    NewIsNotListed(xs, received, list, count, out, x.cid);
    if open && x.cid == count {
      var first := [x] + list;
      AssembledInsert(xs, received, list, count, out, x, first, 0);
      AssembledWrite(xs, received + {x.cid}, first, count, out);
      assert first[1..] == list;
      list', count', out' := WriteListed(list, count + 1, out + x.content, xs, received + {x.cid});
    } else {
      ghost var at;
      list', at := ListInsert(list, x);
      AssembledInsert(xs, received, list, count, out, x, list', at);
      count', out' := count, out;
    }
  }

  /** Reassemble: the chunks leave in order, whatever the order of the ring. */
  method Reassemble(reassemble: Ring<Piece>, named: bool, ghost xs: seq<Bytes>, ghost h: nat) returns (out: Bytes)
    requires reassemble.Valid() && Complete(xs, named, reassemble.items, h)
    modifies reassemble
    ensures out == Concat(xs)
  {
    hide Ring.Valid, Assembled, Concat, Complete, Contents, Settled;
    ghost var items, j := reassemble.items, 0;
    var open, list := named, [];
    var count: nat := 0;
    out := [];
    AssembledStart(xs);
    HeaderFacts(xs, named, items, h);
    assert Cids(items[..0]) == {};
    while true
      invariant 0 <= j <= |items| && reassemble.Valid() && reassemble.items == items[j..]
      invariant Assembled(xs, Cids(items[..j]), list, count, out)
      invariant open <==> named || h < j
      invariant open ==> Settled(list, count)
      invariant j <= h ==> count == 0
      decreases |items| - j
    {
      var empty := reassemble.IsEmpty();
      if empty { break; }
      var item := reassemble.Take();
      CidsNext(xs, named, items, h, j);
      match item {
        case Header =>
          open, count := true, 0;
          list, count, out := WriteListed(list, count, out, xs, Cids(items[..j + 1]));
        case Piece(_, _) =>
          PieceFacts(xs, named, items, h, j);
          list, count, out := Accept(item, open, list, count, out, xs, Cids(items[..j]));
      }
      j := j + 1;
    }
    assert items[..j] == items;
    forall c: nat | c < |xs| ensures c in Cids(items) { AllCids(xs, named, items, h, c); }
    AssembledAll(xs, Cids(items), list, count, out);
    out := WriteRest(list, out);
  }

  lemma HeaderFacts(xs: seq<Bytes>, named: bool, items: seq<Piece>, h: nat)
    requires Complete(xs, named, items, h)
    ensures h < |items| && (named ==> h == 0)
  {
  }

  lemma PieceFacts(xs: seq<Bytes>, named: bool, items: seq<Piece>, h: nat, j: nat)
    requires Complete(xs, named, items, h) && j < |items| && j != h
    ensures items[j].Piece? && items[j].cid < |xs| && items[j].content == xs[items[j].cid]
  {
  }
}
