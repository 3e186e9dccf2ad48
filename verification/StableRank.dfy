/**
 Where a stable counting pass puts each key: after all keys with a smaller digit
 and after the keys with the same digit that come earlier.
 */
module StableRank {

  /** How many of ds[lo..hi] equal d. */
  function CountEq(ds: seq<nat>, d: nat, lo: nat, hi: nat): nat
    requires hi <= |ds|
    decreases hi
  {
    if hi <= lo then 0 else CountEq(ds, d, lo, hi - 1) + if ds[hi - 1] == d then 1 else 0
  }

  /** How many of ds[lo..hi] are below d. */
  function CountLt(ds: seq<nat>, d: nat, lo: nat, hi: nat): nat
    requires hi <= |ds|
    decreases hi
  {
    if hi <= lo then 0 else CountLt(ds, d, lo, hi - 1) + if ds[hi - 1] < d then 1 else 0
  }

  /** The place of index i after a stable pass. */
  function Rank(ds: seq<nat>, i: nat): nat
    requires i < |ds|
  {
    CountLt(ds, ds[i], 0, |ds|) + CountEq(ds, ds[i], 0, i)
  }

  lemma {:induction false} CountEqSplit(ds: seq<nat>, d: nat, lo: nat, mid: nat, hi: nat)
    requires lo <= mid <= hi <= |ds|
    ensures CountEq(ds, d, lo, mid) + CountEq(ds, d, mid, hi) == CountEq(ds, d, lo, hi)
  {
    if mid < hi { CountEqSplit(ds, d, lo, mid, hi - 1); }
  }

  lemma {:induction false} CountLtSplit(ds: seq<nat>, d: nat, lo: nat, mid: nat, hi: nat)
    requires lo <= mid <= hi <= |ds|
    ensures CountLt(ds, d, lo, mid) + CountLt(ds, d, mid, hi) == CountLt(ds, d, lo, hi)
  {
    if mid < hi { CountLtSplit(ds, d, lo, mid, hi - 1); }
  }

  lemma {:induction false} CountNext(ds: seq<nat>, d: nat, lo: nat, hi: nat)
    requires lo <= hi <= |ds|
    ensures CountLt(ds, d + 1, lo, hi) == CountLt(ds, d, lo, hi) + CountEq(ds, d, lo, hi)
    ensures CountLt(ds, d, lo, hi) <= hi - lo
    ensures CountLt(ds, 0, lo, hi) == 0
  {
    if lo < hi { CountNext(ds, d, lo, hi - 1); }
  }

  lemma {:induction false} CountLtGrows(ds: seq<nat>, d: nat, e: nat, hi: nat)
    requires d <= e && hi <= |ds|
    ensures CountLt(ds, d, 0, hi) <= CountLt(ds, e, 0, hi)
  {
    if hi > 0 { CountLtGrows(ds, d, e, hi - 1); }
  }

  /** Key i goes before key j: smaller digit, or same digit and earlier. */
  predicate Before(ds: seq<nat>, i: nat, j: nat)
    requires i < |ds| && j < |ds|
  {
    ds[i] < ds[j] || (ds[i] == ds[j] && i < j)
  }

  lemma RankBound(ds: seq<nat>, i: nat)
    requires i < |ds|
    ensures Rank(ds, i) < CountLt(ds, ds[i] + 1, 0, |ds|) <= |ds|
  {
    CountNext(ds, ds[i], 0, |ds|);
    CountNext(ds, ds[i] + 1, 0, |ds|);
    CountEqSplit(ds, ds[i], 0, i, |ds|);
    CountEqSplit(ds, ds[i], i, i + 1, |ds|);
    assert CountEq(ds, ds[i], i, i + 1) == CountEq(ds, ds[i], i, i) + 1;
  }

  /** Ranks follow the order, so no two keys get the same place. */
  lemma RankOrder(ds: seq<nat>, i: nat, j: nat)
    requires i < |ds| && j < |ds|
    ensures Rank(ds, i) < Rank(ds, j) <==> Before(ds, i, j)
    ensures Rank(ds, i) == Rank(ds, j) <==> i == j
  {
    if Before(ds, i, j) { RankUp(ds, i, j); }
    if Before(ds, j, i) { RankUp(ds, j, i); }
  }

  lemma RankUp(ds: seq<nat>, i: nat, j: nat)
    requires i < |ds| && j < |ds| && Before(ds, i, j)
    ensures Rank(ds, i) < Rank(ds, j)
  {
    if ds[i] < ds[j] {
      RankBound(ds, i);
      CountLtGrows(ds, ds[i] + 1, ds[j], |ds|);
    } else {
      CountEqSplit(ds, ds[i], 0, i, j);
      CountEqSplit(ds, ds[i], i, i + 1, j);
      assert CountEq(ds, ds[i], i, i + 1) == CountEq(ds, ds[i], i, i) + 1;
    }
  }

  // ---------------------------------------------------------------------
  // Permutations given by places
  // ---------------------------------------------------------------------

  /** f sends the indices of a sequence one to one onto places below |f|. */
  ghost predicate Places(f: seq<nat>)
  {
    && (forall i :: 0 <= i < |f| ==> f[i] < |f|)
    && (forall i, j :: 0 <= i < j < |f| ==> f[i] != f[j])
  }

  ghost predicate MovedBy<T>(from: seq<T>, to: seq<T>, f: seq<nat>)
    requires Places(f)
  {
    |from| == |to| == |f| && forall i :: 0 <= i < |f| ==> to[f[i]] == from[i]
  }

  /** Places without the last entry, closing the gap it leaves. */
  ghost function DropLast(f: seq<nat>): (g: seq<nat>)
    requires |f| > 0 && Places(f)
    ensures |g| == |f| - 1 && Places(g)
    ensures forall i :: 0 <= i < |g| ==> g[i] == if f[i] < f[|f| - 1] then f[i] else f[i] - 1
  {
    var p := f[|f| - 1];
    seq(|f| - 1, i requires 0 <= i < |f| - 1 => if f[i] < p then f[i] else f[i] - 1)
  }

  lemma MovedDropLast<T>(from: seq<T>, to: seq<T>, f: seq<nat>)
    requires |f| > 0 && Places(f) && MovedBy(from, to, f)
    ensures MovedBy(from[..|f| - 1], to[..f[|f| - 1]] + to[f[|f| - 1] + 1..], DropLast(f))
  {
    var n := |f| - 1;
    var p := f[n];
    var to' := to[..p] + to[p + 1..];
    forall i | 0 <= i < n ensures to'[DropLast(f)[i]] == from[..n][i] {
      assert to[f[i]] == from[i];
    }
  }

  lemma {:induction false} MovedIsPermutation<T>(from: seq<T>, to: seq<T>, f: seq<nat>)
    requires Places(f) && MovedBy(from, to, f)
    ensures multiset(to) == multiset(from)
    decreases |f|
  {
    if |f| > 0 {
      var n := |f| - 1;
      var p := f[n];
      MovedDropLast(from, to, f);
      MovedIsPermutation(from[..n], to[..p] + to[p + 1..], DropLast(f));
      hide Places;
      hide MovedBy;
      assert to == to[..p] + [to[p]] + to[p + 1..];
      assert from == from[..n] + [from[n]];
    }
  }

  /** Every place is taken. */
  lemma {:induction false} PlaceTaken(f: seq<nat>, a: nat) returns (i: nat)
    requires Places(f) && a < |f|
    ensures i < |f| && f[i] == a
    decreases |f|
  {
    var n := |f| - 1;
    if f[n] == a {
      i := n;
    } else {
      i := PlaceTaken(DropLast(f), if a < f[n] then a else a - 1);
    }
  }
}
