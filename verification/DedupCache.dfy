/**
 The digest cache shared by the chunk, compress and send stages of apps/dedup/encoder.c
 (lines 83-149, 207-299, 838-868).  Every step runs under the lock of the digest's
 bucket, so it is one atomic step; the steps of different threads interleave freely
 and the sender may take the items in any order.
 */
module DedupCache {
  import opened DedupFormat

  datatype Tag = Occupy | DataReady | Written

  /** A cache entry; the sender reuses len for the record number once the data is out. */
  datatype Content = Content(tag: Tag, len: nat, content: Bytes)

  /** Where a chunk is: not looked up yet, on its way to the compressor, in the send queue, or sent. */
  datatype Stage = Found | ToCompress | ToSend | Sent

  /** order: the chunks sent so far; errors: lookups that failed. */
  datatype State = State(cache: map<Bytes, Content>, stage: seq<Stage>, order: seq<nat>, file: seq<Record>, errors: nat)

  datatype Action = Chunk(i: nat) | Compress(i: nat) | Send(i: nat)

  /** sub_ChunkProcess: enter a new digest, or refer to the entry that is there. */
  ghost predicate ChunkStep(k: Codec, xs: seq<Bytes>, s: State, s': State, i: nat)
    requires |s.stage| == |xs|
  {
    && i < |xs| && s.stage[i] == Found
    && var d := k.digest(xs[i]);
       if d !in s.cache then
         s' == s.(cache := s.cache[d := Content(Occupy, 0, [])], stage := s.stage[i := ToCompress])
       else
         s' == s.(stage := s.stage[i := ToSend])
  }

  /** sub_Compress: store the compressed data, whatever the tag was. */
  ghost predicate CompressStep(k: Codec, xs: seq<Bytes>, s: State, s': State, i: nat)
    requires |s.stage| == |xs|
  {
    && i < |xs| && s.stage[i] == ToCompress
    && var d := k.digest(xs[i]);
       if d !in s.cache then
         s' == s.(stage := s.stage[i := ToSend], errors := s.errors + 1)
       else
         var z := k.compress(xs[i]);
         s' == s.(cache := s.cache[d := Content(DataReady, |z|, z)], stage := s.stage[i := ToSend])
  }

  /** SendBlock on one item; it waits as long as the tag is Occupy. */
  ghost predicate SendStep(k: Codec, xs: seq<Bytes>, s: State, s': State, i: nat)
    requires |s.stage| == |xs|
  {
    && i < |xs| && s.stage[i] == ToSend
    && var d := k.digest(xs[i]);
       var n := |s.file|;
       var t := s.(stage := s.stage[i := Sent], order := s.order + [i]);
       if d !in s.cache then
         s' == t.(errors := s.errors + 1)
       else match s.cache[d].tag
         case Occupy => false
         case Written => s' == t.(file := s.file + [Fingerprint(n, d)])
         case DataReady =>
           && s.cache[d].len <= |s.cache[d].content|
           && s' == t.(file := s.file + [Data(n, s.cache[d].content[..s.cache[d].len])],
                       cache := s.cache[d := s.cache[d].(tag := Written, len := n)])
  }

  ghost predicate Step(k: Codec, xs: seq<Bytes>, s: State, s': State, a: Action)
    requires |s.stage| == |xs|
  {
    match a
    case Chunk(i) => ChunkStep(k, xs, s, s', i)
    case Compress(i) => CompressStep(k, xs, s, s', i)
    case Send(i) => SendStep(k, xs, s, s', i)
  }

  ghost predicate Init(xs: seq<Bytes>, s: State)
  {
    s == State(map[], seq(|xs|, _ => Found), [], [], 0)
  }

  ghost predicate IsRun(k: Codec, xs: seq<Bytes>, tr: seq<State>, acts: seq<Action>)
    decreases |tr|
  {
    && |tr| == |acts| + 1
    && if |acts| == 0 then Init(xs, tr[0])
       else
         && IsRun(k, xs, tr[..|tr| - 1], acts[..|acts| - 1])
         && |tr[|tr| - 2].stage| == |xs|
         && Step(k, xs, tr[|tr| - 2], tr[|tr| - 1], acts[|acts| - 1])
  }

  /** Chunks with one digest are one chunk. */
  ghost predicate NoCollision(k: Codec, xs: seq<Bytes>)
  {
    forall i, j :: 0 <= i < |xs| && 0 <= j < |xs| && k.digest(xs[i]) == k.digest(xs[j]) ==> xs[i] == xs[j]
  }

  // ---------------------------------------------------------------------
  // The invariant
  // ---------------------------------------------------------------------

  /** What the stage of chunk i says about the entry of its digest. */
  ghost predicate ItemOk(k: Codec, xs: seq<Bytes>, s: State, i: nat)
    requires |s.stage| == |xs| && i < |xs|
  {
    var d := k.digest(xs[i]);
    && (s.stage[i] != Found ==> d in s.cache)
    && (s.stage[i] == ToCompress ==> d in s.cache && s.cache[d].tag == Occupy)
    && (s.stage[i] == Sent ==> d in s.cache && s.cache[d].tag == Written)
    && (d in s.cache && s.cache[d].tag == DataReady ==>
          s.cache[d].content == k.compress(xs[i]) && s.cache[d].len == |s.cache[d].content|)
  }

  ghost predicate EntryOk(k: Codec, xs: seq<Bytes>, s: State, d: Bytes)
    requires |s.stage| == |xs| && d in s.cache
  {
    && (s.cache[d].tag == Occupy ==> exists i: nat :: i < |xs| && s.stage[i] == ToCompress && k.digest(xs[i]) == d)
    && (s.cache[d].tag == Written ==> exists i: nat :: i < |xs| && s.stage[i] == Sent && k.digest(xs[i]) == d)
  }

  ghost predicate OneCompressor(k: Codec, xs: seq<Bytes>, s: State)
    requires |s.stage| == |xs|
  {
    forall i, j | 0 <= i < |xs| && 0 <= j < |xs| && k.digest(xs[i]) == k.digest(xs[j]) ::
      s.stage[i] == ToCompress && s.stage[j] == ToCompress ==> i == j
  }

  /** The chunks sent so far, in the order they were sent. */
  ghost function SentChunks(xs: seq<Bytes>, order: seq<nat>): (r: seq<Bytes>)
    requires forall p :: 0 <= p < |order| ==> order[p] < |xs|
    ensures |r| == |order| && forall p :: 0 <= p < |order| ==> r[p] == xs[order[p]]
  {
    seq(|order|, p requires 0 <= p < |order| => xs[order[p]])
  }

  ghost predicate FileOk(k: Codec, xs: seq<Bytes>, s: State)
    requires |s.stage| == |xs|
  {
    && (forall p :: 0 <= p < |s.order| ==> s.order[p] < |xs|)
    && (forall i: nat :: i < |xs| ==> (s.stage[i] == Sent <==> i in s.order))
    && (forall p, q :: 0 <= p < q < |s.order| ==> s.order[p] != s.order[q])
    && s.file == Archive(k, SentChunks(xs, s.order))
  }

  ghost predicate Inv(k: Codec, xs: seq<Bytes>, s: State)
  {
    && |s.stage| == |xs|
    && (forall i: nat :: i < |xs| ==> ItemOk(k, xs, s, i))
    && (forall d :: d in s.cache ==> EntryOk(k, xs, s, d))
    && OneCompressor(k, xs, s)
    && FileOk(k, xs, s)
    && s.errors == 0
  }

  lemma InitHolds(k: Codec, xs: seq<Bytes>, s: State)
    requires Init(xs, s)
    ensures Inv(k, xs, s)
  {
  }

  lemma ChunkKeeps(k: Codec, xs: seq<Bytes>, s: State, s': State, i: nat)
    requires Inv(k, xs, s) && ChunkStep(k, xs, s, s', i)
    ensures Inv(k, xs, s')
  {
    hide Archive, SentChunks;
    var d0 := k.digest(xs[i]);
    forall j: nat | j < |xs| ensures ItemOk(k, xs, s', j) {
      assert ItemOk(k, xs, s, j);
    }
    forall d | d in s'.cache ensures EntryOk(k, xs, s', d) {
      if d == d0 && d0 !in s.cache {
        assert s'.stage[i] == ToCompress;
      } else {
        assert EntryOk(k, xs, s, d);
        KeepWitness(k, xs, s, s', i, d);
      }
    }
    forall j: nat | j < |xs| && s'.stage[j] == ToCompress && s'.stage[i] == ToCompress && k.digest(xs[j]) == d0
      ensures i == j {
      assert ItemOk(k, xs, s, j);
    }
  }

  /** Entries other than that of chunk i keep their compressor and their sent chunk when chunk i moves on. */
  lemma KeepWitness(k: Codec, xs: seq<Bytes>, s: State, s': State, i: nat, d: Bytes)
    requires |s.stage| == |xs| && |s'.stage| == |xs| && i < |xs| && d in s.cache && d in s'.cache
    requires EntryOk(k, xs, s, d) && s'.cache[d].tag == s.cache[d].tag
    requires forall j: nat :: j < |xs| && j != i ==> s'.stage[j] == s.stage[j]
    requires s.stage[i] == Found || k.digest(xs[i]) != d || (s.stage[i] == ToSend && s'.stage[i] == Sent)
    ensures EntryOk(k, xs, s', d)
  {
    if s.cache[d].tag == Occupy {
      var j: nat :| j < |xs| && s.stage[j] == ToCompress && k.digest(xs[j]) == d;
      assert s'.stage[j] == ToCompress;
    }
    if s.cache[d].tag == Written {
      var j: nat :| j < |xs| && s.stage[j] == Sent && k.digest(xs[j]) == d;
      assert s'.stage[j] == Sent;
    }
  }

  lemma CompressKeeps(k: Codec, xs: seq<Bytes>, s: State, s': State, i: nat)
    requires NoCollision(k, xs) && Inv(k, xs, s) && CompressStep(k, xs, s, s', i)
    ensures Inv(k, xs, s')
  {
    hide Archive, SentChunks;
    var d0 := k.digest(xs[i]);
    assert ItemOk(k, xs, s, i);
    forall j: nat | j < |xs| ensures ItemOk(k, xs, s', j) {
      assert ItemOk(k, xs, s, j);
    }
    forall d | d in s'.cache ensures EntryOk(k, xs, s', d) {
      if d != d0 {
        assert EntryOk(k, xs, s, d);
        KeepWitness(k, xs, s, s', i, d);
      }
    }
  }

  lemma SendKeepsItems(k: Codec, xs: seq<Bytes>, s: State, s': State, i: nat)
    requires Inv(k, xs, s) && SendStep(k, xs, s, s', i)
    ensures |s'.stage| == |xs| && s'.errors == 0
    ensures forall j: nat :: j < |xs| ==> ItemOk(k, xs, s', j)
    ensures forall d :: d in s'.cache ==> EntryOk(k, xs, s', d)
    ensures OneCompressor(k, xs, s')
  {
    hide Archive, SentChunks;
    var d0 := k.digest(xs[i]);
    assert ItemOk(k, xs, s, i);
    forall j: nat | j < |xs| ensures ItemOk(k, xs, s', j) {
      assert ItemOk(k, xs, s, j);
    }
    forall d | d in s'.cache ensures EntryOk(k, xs, s', d) {
      if d == d0 {
        assert s'.stage[i] == Sent;
      } else {
        assert EntryOk(k, xs, s, d);
        KeepWitness(k, xs, s, s', i, d);
      }
    }
  }

  /** The sender writes the data of a digest exactly when no chunk with that digest was sent before. */
  lemma SendKeepsFile(k: Codec, xs: seq<Bytes>, s: State, s': State, i: nat)
    requires Inv(k, xs, s) && SendStep(k, xs, s, s', i)
    ensures |s'.stage| == |xs| && FileOk(k, xs, s')
  {
    hide Archive, Seen, OneCompressor, Inv;
    InvFacts(k, xs, s, i);
    SeenIsWritten(k, xs, s, k.digest(xs[i]));
    SendAppends(k, xs, s, s', i);
    ArchiveNext(k, SentChunks(xs, s.order), xs[i]);
    assert SentChunks(xs, s'.order) == SentChunks(xs, s.order) + [xs[i]];
  }

  lemma InvFacts(k: Codec, xs: seq<Bytes>, s: State, i: nat)
    requires Inv(k, xs, s) && i < |xs|
    ensures |s.stage| == |xs| && ItemOk(k, xs, s, i) && FileOk(k, xs, s)
  {
    hide ItemOk, EntryOk, OneCompressor, FileOk;
  }

  lemma SendAppends(k: Codec, xs: seq<Bytes>, s: State, s': State, i: nat)
    requires |s.stage| == |xs| && FileOk(k, xs, s) && SendStep(k, xs, s, s', i) && ItemOk(k, xs, s, i)
    requires Seen(k, SentChunks(xs, s.order), k.digest(xs[i])) <==> s.cache[k.digest(xs[i])].tag == Written
    ensures s'.stage == s.stage[i := Sent] && s'.order == s.order + [i]
    ensures s'.file == s.file + [Entry(k, SentChunks(xs, s.order), xs[i])]
  {
    hide Archive, Seen;
    var d := k.digest(xs[i]);
    if s.cache[d].tag == DataReady {
      assert s.cache[d].content[..s.cache[d].len] == k.compress(xs[i]);
    }
  }

  lemma SeenIsWritten(k: Codec, xs: seq<Bytes>, s: State, d: Bytes)
    requires Inv(k, xs, s) && d in s.cache
    ensures Seen(k, SentChunks(xs, s.order), d) <==> s.cache[d].tag == Written
  {
    hide Archive;
    var sent := SentChunks(xs, s.order);
    if Seen(k, sent, d) {
      var p :| 0 <= p < |sent| && k.digest(sent[p]) == d;
      assert s.order[p] in s.order;
      assert ItemOk(k, xs, s, s.order[p]);
    }
    if s.cache[d].tag == Written {
      assert EntryOk(k, xs, s, d);
      var j: nat :| j < |xs| && s.stage[j] == Sent && k.digest(xs[j]) == d;
      var p :| 0 <= p < |s.order| && s.order[p] == j;
      assert k.digest(sent[p]) == d;
    }
  }

  lemma StepKeeps(k: Codec, xs: seq<Bytes>, s: State, s': State, a: Action)
    requires NoCollision(k, xs) && Inv(k, xs, s) && Step(k, xs, s, s', a)
    ensures Inv(k, xs, s')
  {
    match a
    case Chunk(i) => ChunkKeeps(k, xs, s, s', i);
    case Compress(i) => CompressKeeps(k, xs, s, s', i);
    case Send(i) =>
      SendKeepsItems(k, xs, s, s', i);
      SendKeepsFile(k, xs, s, s', i);
  }

  lemma {:induction false} RunKeeps(k: Codec, xs: seq<Bytes>, tr: seq<State>, acts: seq<Action>)
    requires NoCollision(k, xs) && IsRun(k, xs, tr, acts)
    ensures Inv(k, xs, tr[|tr| - 1])
    decreases |tr|
  {
    hide Inv, Step, NoCollision;
    if |acts| == 0 {
      InitHolds(k, xs, tr[0]);
    } else {
      RunKeeps(k, xs, tr[..|tr| - 1], acts[..|acts| - 1]);
      StepKeeps(k, xs, tr[|tr| - 2], tr[|tr| - 1], acts[|acts| - 1]);
    }
  }

  // ---------------------------------------------------------------------
  // Main results
  // ---------------------------------------------------------------------

  /** Whatever the interleaving, the file depends only on the order in which the chunks were sent; no lookup fails. */
  lemma EveryRunWritesTheArchive(k: Codec, xs: seq<Bytes>, tr: seq<State>, acts: seq<Action>)
    requires NoCollision(k, xs) && IsRun(k, xs, tr, acts)
    ensures var s := tr[|tr| - 1];
      s.errors == 0 && (forall p :: 0 <= p < |s.order| ==> s.order[p] < |xs|)
        && s.file == Archive(k, SentChunks(xs, s.order))
  {
    RunKeeps(k, xs, tr, acts);
  }

  function Rank(t: Tag): nat { match t case Occupy => 0 case DataReady => 1 case Written => 2 }

  /** No step takes an entry out of the cache, and tags only move from Occupy to DataReady to Written, one at a time. */
  lemma TagsOnlyAdvance(k: Codec, xs: seq<Bytes>, s: State, s': State, a: Action, d: Bytes)
    requires Inv(k, xs, s) && Step(k, xs, s, s', a) && d in s.cache
    ensures d in s'.cache && Rank(s.cache[d].tag) <= Rank(s'.cache[d].tag) <= Rank(s.cache[d].tag) + 1
  {
    if a.Compress? {
      assert ItemOk(k, xs, s, a.i);
    }
  }

  /** Until every chunk has been sent some stage can act: a sender waiting on Occupy has a compressor at work. */
  lemma SenderIsNeverStuck(k: Codec, xs: seq<Bytes>, s: State, i: nat) returns (a: Action, s': State)
    requires Inv(k, xs, s) && i < |xs| && s.stage[i] != Sent
    ensures Step(k, xs, s, s', a)
    ensures a == if s.stage[i] == Found then Chunk(i) else if a.Compress? then a else Send(i)
    ensures s.stage[i] == ToCompress ==> a.Compress?
  {
    hide Archive, SentChunks;
    var d := k.digest(xs[i]);
    assert ItemOk(k, xs, s, i);
    if s.stage[i] == Found {
      a := Chunk(i);
      s' := if d !in s.cache then s.(cache := s.cache[d := Content(Occupy, 0, [])], stage := s.stage[i := ToCompress])
            else s.(stage := s.stage[i := ToSend]);
    } else if s.stage[i] == ToCompress || s.cache[d].tag == Occupy {
      assert EntryOk(k, xs, s, d);
      var j: nat :| j < |xs| && s.stage[j] == ToCompress && k.digest(xs[j]) == d;
      var z := k.compress(xs[j]);
      a, s' := Compress(j), s.(cache := s.cache[d := Content(DataReady, |z|, z)], stage := s.stage[j := ToSend]);
    } else {
      var n, e := |s.file|, s.cache[d];
      var t := s.(stage := s.stage[i := Sent], order := s.order + [i]);
      a := Send(i);
      s' := if e.tag == Written then t.(file := s.file + [Fingerprint(n, d)])
            else t.(file := s.file + [Data(n, e.content[..e.len])],
              cache := s.cache[d := e.(tag := Written, len := n)]);
    }
  }
}
