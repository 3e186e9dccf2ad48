/**
 The chained table of apps/dedup/hashtable.c that holds the digest cache.  hash stands for the
 scrambled hash value (lines 70-82); every chain has a lock of its own, so a step under that lock
 is a step on one chain.
 */
module HashTable {
  import opened Wrappers

  datatype Entry<K, V> = Entry(h: nat, k: K, v: V)

  const PRIMES: seq<nat> := [
    53, 97, 193, 389, 769, 1543, 3079, 6151, 12289, 24593, 49157, 98317, 196613, 393241, 786433, 1572869,
    3145739, 6291469, 12582917, 25165843, 50331653, 100663319, 201326611, 402653189, 805306457, 1610612741]

  /** The size that create_hashtable picks: the first in the list above minsize. */
  method ChooseSize(minsize: nat) returns (size: Option<nat>)
    ensures size.None? <==> minsize > 0x4000_0000
    ensures size.Some? ==> minsize < size.value && size.value in PRIMES
    ensures size.Some? ==> forall p :: p in PRIMES && p > minsize ==> size.value <= p
  {
    if minsize > 0x4000_0000 { return None; }
    var pindex := 0;
    while pindex < |PRIMES| && PRIMES[pindex] <= minsize
      invariant 0 <= pindex <= |PRIMES|
      invariant forall i :: 0 <= i < pindex ==> PRIMES[i] <= minsize
    {
      pindex := pindex + 1;
    }
    LastPrime();
    Increasing(pindex);
    size := Some(PRIMES[pindex]);
  }

  lemma LastPrime()
    ensures |PRIMES| == 26 && PRIMES[25] == 1610612741
  {
  }

  lemma {:induction false} Increasing(i: nat)
    requires i < 26
    ensures |PRIMES| == 26 && forall j :: i <= j < 26 ==> PRIMES[i] <= PRIMES[j]
    decreases 26 - i
  {
    if i < 25 {
      Increasing(i + 1);
      assert PRIMES[i] <= PRIMES[i + 1];
    }
  }

  /** What a search finds in a chain: the entry put in last. */
  function Lookup<K(==), V>(chain: seq<Entry<K, V>>, k: K): Option<V>
  {
    if chain == [] then None else if chain[0].k == k then Some(chain[0].v) else Lookup(chain[1..], k)
  }

  lemma {:induction false} LookupChanged<K, V>(chain: seq<Entry<K, V>>, i: nat, v: V, k: K)
    requires i < |chain| && forall j :: 0 <= j < i ==> chain[j].k != chain[i].k
    ensures Lookup(chain[i := chain[i].(v := v)], k) == if k == chain[i].k then Some(v) else Lookup(chain, k)
  {
    if i > 0 {
      LookupChanged(chain[1..], i - 1, v, k);
      assert chain[i := chain[i].(v := v)][1..] == chain[1..][i - 1 := chain[i].(v := v)];
    }
  }

  class Table<K(==, !new), V> {
    const hash: K -> nat
    var table: seq<seq<Entry<K, V>>>

    /** The chain, and so the lock, of a key. */
    function IndexFor(k: K): (i: nat)
      requires |table| >= 1
      reads this
      ensures i < |table|
    {
      hash(k) % |table|
    }

    /** Every entry keeps its hash value and sits in its own chain. */
    ghost predicate Valid()
      reads this
    {
      && |table| >= 1
      && forall b, i :: 0 <= b < |table| && 0 <= i < |table[b]| ==> table[b][i].h == hash(table[b][i].k)
    }

    function Find(k: K): Option<V>
      requires |table| >= 1
      reads this
    {
      Lookup(table[IndexFor(k)], k)
    }

    constructor (size: nat, hash: K -> nat)
      requires size >= 1
      ensures Valid() && |table| == size && this.hash == hash && forall k :: Find(k) == None
    {
      this.hash := hash;
      table := seq(size, _ => []);
    }

    /** hashtable_insert: later searches for k find v, other keys and other chains are untouched. */
    method Insert(k: K, v: V)
      requires Valid()
      modifies this
      ensures Valid() && |table| == old(|table|)
      ensures forall x :: Find(x) == if x == k then Some(v) else old(Find(x))
      ensures forall b: nat :: b < |table| && b != IndexFor(k) ==> table[b] == old(table[b])
    {
      var b := IndexFor(k);
      table := table[b := [Entry(hash(k), k, v)] + table[b]];
      assert table[b][1..] == old(table[b]);
    }

    /** hashtable_search: the position in the chain of k, at the entry that counts. */
    method Search(k: K) returns (pos: Option<nat>)
      requires Valid()
      ensures pos.None? <==> Find(k).None?
      ensures pos.Some? ==>
        pos.value < |table[IndexFor(k)]| && table[IndexFor(k)][pos.value].k == k
          && Find(k) == Some(table[IndexFor(k)][pos.value].v)
      ensures pos.Some? ==> forall j :: 0 <= j < pos.value ==> table[IndexFor(k)][j].k != k
    {
      var hashvalue := hash(k);
      var chain := table[IndexFor(k)];
      var e := 0;
      assert chain[0..] == chain;
      while e < |chain|
        invariant 0 <= e <= |chain| && Lookup(chain[e..], k) == Find(k)
        invariant forall j :: 0 <= j < e ==> chain[j].k != k
      {
        if hashvalue == chain[e].h && k == chain[e].k { return Some(e); }
        assert chain[e..][1..] == chain[e + 1..];
        e := e + 1;
      }
      pos := None;
    }

    /** hashtable_change on the entry that a search for k returned. */
    method Change(k: K, pos: nat, v: V)
      requires Valid() && pos < |table[IndexFor(k)]| && table[IndexFor(k)][pos].k == k
      requires forall j :: 0 <= j < pos ==> table[IndexFor(k)][j].k != k
      modifies this
      ensures Valid() && |table| == old(|table|)
      ensures forall x :: Find(x) == if x == k then Some(v) else old(Find(x))
      ensures forall b: nat :: b < |table| && b != IndexFor(k) ==> table[b] == old(table[b])
    {
      var b := IndexFor(k);
      ghost var chain := table[b];
      table := table[b := table[b][pos := table[b][pos].(v := v)]];
      forall x ensures Find(x) == if x == k then Some(v) else old(Find(x)) {
        if IndexFor(x) == b { LookupChanged(chain, pos, v, x); }
      }
    }
  }
}
