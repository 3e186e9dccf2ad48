/**
 The archive of apps/dedup: what the writer emits for a sequence of chunks, written
 as a function of the chunks alone.  Digest and compression are parameters.
 */
module DedupFormat {
  type Bytes = seq<bv8>

  /** SHA-1 and the two zlib calls. */
  datatype Codec = Codec(digest: Bytes -> Bytes, compress: Bytes -> Bytes, uncompress: Bytes -> Bytes)

  /** One record of the archive: the compressed chunk, or the digest of a chunk stored before. */
  datatype Record = Data(number: nat, body: Bytes) | Fingerprint(number: nat, body: Bytes)

  ghost predicate Seen(k: Codec, xs: seq<Bytes>, d: Bytes)
  {
    exists i :: 0 <= i < |xs| && k.digest(xs[i]) == d
  }

  /** The record for chunk x after the chunks xs. */
  ghost function Entry(k: Codec, xs: seq<Bytes>, x: Bytes): Record
  {
    if Seen(k, xs, k.digest(x)) then Fingerprint(|xs|, k.digest(x)) else Data(|xs|, k.compress(x))
  }

  /** The records for the chunks xs, in order. */
  ghost function Archive(k: Codec, xs: seq<Bytes>): (r: seq<Record>)
    ensures |r| == |xs|
  {
    if xs == [] then []
    else
      var pre := xs[..|xs| - 1];
      Archive(k, pre) + [Entry(k, pre, xs[|xs| - 1])]
  }

  lemma ArchiveNext(k: Codec, xs: seq<Bytes>, x: Bytes)
    ensures Archive(k, xs + [x]) == Archive(k, xs) + [Entry(k, xs, x)]
  {
    assert (xs + [x])[..|xs + [x]| - 1] == xs;
  }

  lemma {:induction false} ArchiveAt(k: Codec, xs: seq<Bytes>, i: nat)
    requires i < |xs|
    ensures Archive(k, xs)[i] == Entry(k, xs[..i], xs[i])
  {
    if i < |xs| - 1 {
      ArchiveAt(k, xs[..|xs| - 1], i);
      assert xs[..|xs| - 1][..i] == xs[..i];
    }
  }

  /** A chunk's data is stored exactly once, before every fingerprint that refers to it. */
  lemma DataPrecedesFingerprints(k: Codec, xs: seq<Bytes>, i: nat) returns (j: nat)
    requires i < |xs|
    ensures j <= i && k.digest(xs[j]) == k.digest(xs[i])
    ensures Archive(k, xs)[j] == Data(j, k.compress(xs[j]))
    ensures forall m: nat :: m < |xs| && k.digest(xs[m]) == k.digest(xs[i]) && m != j ==>
              j < m && Archive(k, xs)[m] == Fingerprint(m, k.digest(xs[i]))
  {
    j := FirstWith(k, xs, i);
    ArchiveAt(k, xs, j);
    assert !Seen(k, xs[..j], k.digest(xs[j]));
    forall m: nat | m < |xs| && k.digest(xs[m]) == k.digest(xs[i]) && m != j
      ensures j < m && Archive(k, xs)[m] == Fingerprint(m, k.digest(xs[i]))
    {
      ArchiveAt(k, xs, m);
      assert xs[..m][j] == xs[j];
    }
  }

  /** The first chunk with the digest of chunk i. */
  lemma {:induction false} FirstWith(k: Codec, xs: seq<Bytes>, i: nat) returns (j: nat)
    requires i < |xs|
    ensures j <= i && k.digest(xs[j]) == k.digest(xs[i])
    ensures forall m: nat :: m < j ==> k.digest(xs[m]) != k.digest(xs[i])
  {
    if m: nat :| m < i && k.digest(xs[m]) == k.digest(xs[i]) {
      j := FirstWith(k, xs, m);
    } else {
      j := i;
    }
  }
}
