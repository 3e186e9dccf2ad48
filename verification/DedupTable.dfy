/**
 The cache steps of apps/dedup/encoder.c as calls on the table of apps/dedup/hashtable.c: sub_ChunkProcess
 (lines 223-274), sub_Compress (lines 117-141) and the sender (lines 839-868) change the table as the
 steps of DedupCache change its map, and each touches one chain only, the one whose lock it holds.
 */
module DedupTable {
  import opened Wrappers
  import opened DedupFormat
  import opened DedupCache
  import opened HashTable

  /** The table finds exactly what the map holds. */
  ghost predicate Holds(table: Table<Bytes, Content>, cache: map<Bytes, Content>)
    reads table
  {
    table.Valid() && forall d :: table.Find(d) == if d in cache then Some(cache[d]) else None
  }

  /** Only the chain of d has changed. */
  twostate predicate OneChain(table: Table<Bytes, Content>, d: Bytes)
    requires |table.table| >= 1 && |table.table| == old(|table.table|)
    reads table
  {
    forall b: nat :: b < |table.table| && b != table.IndexFor(d) ==> table.table[b] == old(table.table[b])
  }

  /** sub_ChunkProcess on chunk i of digest d: a chunk step of the machine. */
  method Enter(table: Table<Bytes, Content>, d: Bytes, ghost k: Codec, ghost xs: seq<Bytes>, ghost s: State,
               ghost i: nat)
    returns (miss: bool, ghost s': State)
    requires |s.stage| == |xs| && i < |xs| && s.stage[i] == Found && d == k.digest(xs[i])
    requires Holds(table, s.cache)
    modifies table
    ensures ChunkStep(k, xs, s, s', i) && Holds(table, s'.cache) && (miss <==> s'.stage[i] == ToCompress)
    ensures |table.table| == old(|table.table|) && OneChain(table, d)
  {
    var pos := table.Search(d);
    miss := pos.None?;
    if miss {
      table.Insert(d, Content(Occupy, 0, []));
      s' := s.(cache := s.cache[d := Content(Occupy, 0, [])], stage := s.stage[i := ToCompress]);
    } else {
      s' := s.(stage := s.stage[i := ToSend]);
    }
  }

  /** sub_Compress on chunk i, whose compressed data is z: a compress step; the entry has to be there. */
  method Store(table: Table<Bytes, Content>, d: Bytes, z: Bytes, ghost k: Codec, ghost xs: seq<Bytes>, ghost s: State,
               ghost i: nat)
    returns (found: bool, ghost s': State)
    requires |s.stage| == |xs| && i < |xs| && s.stage[i] == ToCompress && d == k.digest(xs[i]) && z == k.compress(xs[i])
    requires Holds(table, s.cache)
    modifies table
    ensures CompressStep(k, xs, s, s', i) && Holds(table, s'.cache) && (found <==> s'.errors == s.errors)
    ensures |table.table| == old(|table.table|) && OneChain(table, d)
  {
    var pos := table.Search(d);
    found := pos.Some?;
    if found {
      table.Change(d, pos.value, Content(DataReady, |z|, z));
      s' := s.(cache := s.cache[d := Content(DataReady, |z|, z)], stage := s.stage[i := ToSend]);
    } else {
      s' := s.(stage := s.stage[i := ToSend], errors := s.errors + 1);
    }
  }

  /**
   The sender on chunk i, with record number n, once the entry of d is no longer occupied: a send step, and the
   record that it writes.
   */
  method Fetch(table: Table<Bytes, Content>, d: Bytes, n: nat, ghost k: Codec, ghost xs: seq<Bytes>, ghost s: State,
               ghost i: nat)
    returns (record: Option<Record>, ghost s': State)
    requires |s.stage| == |xs| && i < |xs| && s.stage[i] == ToSend && d == k.digest(xs[i]) && n == |s.file|
    requires Holds(table, s.cache) && (d in s.cache ==> s.cache[d].tag != Occupy)
    requires d in s.cache && s.cache[d].tag == DataReady ==> s.cache[d].len <= |s.cache[d].content|
    modifies table
    ensures SendStep(k, xs, s, s', i) && Holds(table, s'.cache)
    ensures s'.file == s.file + (if record.Some? then [record.value] else [])
    ensures record.None? <==> s'.errors > s.errors
    ensures |table.table| == old(|table.table|) && OneChain(table, d)
  {
    ghost var t := s.(stage := s.stage[i := Sent], order := s.order + [i]);
    var pos := table.Search(d);
    if pos.None? {
      record, s' := None, t.(errors := s.errors + 1);
      return;
    }
    var value := table.table[table.IndexFor(d)][pos.value].v;
    assert value == s.cache[d];
    if value.tag == Written {
      record, s' := Some(Fingerprint(n, d)), t.(file := s.file + [Fingerprint(n, d)]);
    } else {
      var data := Data(n, value.content[..value.len]);
      table.Change(d, pos.value, value.(tag := Written, len := n));
      record, s' := Some(data), t.(file := s.file + [data], cache := s.cache[d := value.(tag := Written, len := n)]);
    }
  }
}
