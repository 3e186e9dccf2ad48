/**
 The order in which SendBlock of apps/dedup/encoder.c is to write the items: by anchor, then by
 chunk.  counts is chunks_per_anchor when all chunks have been found.
 */
module SendOrder {
  import opened ReorderBuffer

  // ---------------------------------------------------------------------
  // The output order
  // ---------------------------------------------------------------------

  ghost predicate IsKey(counts: seq<nat>, k: Key)
  {
    k.0 < |counts| && k.1 < counts[k.0]
  }

  /** The keys (a, 0) .. (a, c - 1). */
  ghost function Row(a: nat, c: nat): (r: seq<Key>)
    ensures |r| == c && forall i :: 0 <= i < c ==> r[i] == (a, i)
  {
    seq(c, i requires 0 <= i < c => (a, i))
  }

  /** The keys of the first a anchors, in output order. */
  ghost function Order(counts: seq<nat>, a: nat): seq<Key>
    requires a <= |counts|
  {
    if a == 0 then [] else Order(counts, a - 1) + Row(a - 1, counts[a - 1])
  }

  /** The keys that come before k in the output. */
  ghost function Upto(counts: seq<nat>, k: Key): seq<Key>
    requires k.0 <= |counts|
  {
    Order(counts, k.0) + Row(k.0, k.1)
  }

  /** The key after k in the output. */
  function Succ(counts: seq<nat>, k: Key): Key
    requires k.0 < |counts|
  {
    if k.1 + 1 == counts[k.0] then (k.0 + 1, 0) else (k.0, k.1 + 1)
  }

  lemma UptoSucc(counts: seq<nat>, k: Key)
    requires IsKey(counts, k)
    ensures Upto(counts, Succ(counts, k)) == Upto(counts, k) + [k]
    ensures Upto(counts, (k.0, k.1 + 1)) == Upto(counts, k) + [k]
  {
    assert Row(k.0, k.1 + 1) == Row(k.0, k.1) + [k];
    assert Upto(counts, (k.0 + 1, 0)) == Order(counts, k.0 + 1);
  }

  /** Nothing lies between a key and the next one. */
  lemma SuccIsNext(counts: seq<nat>, k: Key, q: Key)
    requires IsKey(counts, k) && forall a :: 0 <= a < |counts| ==> counts[a] >= 1
    ensures IsKey(counts, Succ(counts, k)) || Succ(counts, k) == (|counts|, 0)
    ensures IsKey(counts, q) && Before(k, q) ==> q == Succ(counts, k) || Before(Succ(counts, k), q)
  {
  }

  /** Upto lists the keys before k. */
  lemma {:induction false} UptoIsBefore(counts: seq<nat>, k: Key, q: Key)
    requires k.0 <= |counts|
    requires k.0 == |counts| ==> k.1 == 0
    requires k.0 < |counts| ==> k.1 <= counts[k.0]
    ensures q in Upto(counts, k) <==> IsKey(counts, q) && Before(q, k)
    decreases k.0, k.1
  {
    if k.1 > 0 {
      UptoIsBefore(counts, (k.0, k.1 - 1), q);
      assert Row(k.0, k.1) == Row(k.0, k.1 - 1) + [(k.0, k.1 - 1)];
      assert Upto(counts, k) == Upto(counts, (k.0, k.1 - 1)) + [(k.0, k.1 - 1)];
    } else if k.0 > 0 {
      var a := k.0 - 1;
      UptoIsBefore(counts, (a, counts[a]), q);
      assert Upto(counts, k) == Order(counts, k.0) == Upto(counts, (a, counts[a]));
    }
  }

  /** The place of a key in the output: the items of earlier anchors, then those of its own. */
  ghost function PlaceOf(counts: seq<nat>, k: Key): nat
    requires IsKey(counts, k)
  {
    |Order(counts, k.0)| + k.1
  }

  lemma {:induction false} OrderIsByPlace(counts: seq<nat>, a: nat)
    requires a <= |counts|
    ensures forall i :: 0 <= i < |Order(counts, a)| ==>
              IsKey(counts, Order(counts, a)[i]) && PlaceOf(counts, Order(counts, a)[i]) == i
  {
    if a > 0 {
      OrderIsByPlace(counts, a - 1);
    }
  }

  lemma {:induction false} OrderGrows(counts: seq<nat>, a: nat, b: nat)
    requires a <= b <= |counts|
    ensures |Order(counts, a)| <= |Order(counts, b)|
  {
    if a < b { OrderGrows(counts, a, b - 1); }
  }

  /** Places follow the output order. */
  lemma PlacesIncrease(counts: seq<nat>, k: Key, q: Key)
    requires IsKey(counts, k) && IsKey(counts, q) && Before(k, q)
    ensures PlaceOf(counts, k) < PlaceOf(counts, q)
  {
    if k.0 < q.0 { OrderGrows(counts, k.0 + 1, q.0); }
  }

  ghost predicate Increasing(keys: seq<Key>)
  {
    forall i, j :: 0 <= i < j < |keys| ==> Before(keys[i], keys[j])
  }

  lemma {:induction false} OrderIncreases(counts: seq<nat>, a: nat)
    requires a <= |counts|
    ensures Increasing(Order(counts, a))
    ensures forall k :: k in Order(counts, a) ==> k.0 < a
  {
    if a > 0 {
      OrderIncreases(counts, a - 1);
    }
  }

  lemma OrderHasAll(counts: seq<nat>, k: Key)
    ensures k in Order(counts, |counts|) <==> IsKey(counts, k)
  {
    UptoIsBefore(counts, (|counts|, 0), k);
    assert Upto(counts, (|counts|, 0)) == Order(counts, |counts|);
  }

  /** There is only one way to list keys in increasing order. */
  lemma {:induction false} OneListing(xs: seq<Key>, ys: seq<Key>)
    requires Increasing(xs) && Increasing(ys) && forall k :: k in xs <==> k in ys
    ensures xs == ys
    decreases |xs|
  {
    if xs == [] {
      SomeIn(ys);
    } else {
      assert xs[0] in ys;
      var m, n := |xs| - 1, |ys| - 1;
      LastIsGreatest(xs, ys);
      LastIsGreatest(ys, xs);
      forall k ensures k in xs[..m] <==> k in ys[..n] {
        NotInFront(xs, k);
        NotInFront(ys, k);
      }
      OneListing(xs[..m], ys[..n]);
      assert xs == xs[..m] + [xs[m]] && ys == ys[..n] + [ys[n]];
    }
  }

  lemma SomeIn(ys: seq<Key>)
    ensures ys != [] ==> exists k :: k in ys
  {
    if ys != [] { assert ys[0] in ys; }
  }

  lemma LastIsGreatest(xs: seq<Key>, ys: seq<Key>)
    requires xs != [] && ys != [] && Increasing(ys) && forall k :: k in xs ==> k in ys
    ensures xs[|xs| - 1] == ys[|ys| - 1] || Before(xs[|xs| - 1], ys[|ys| - 1])
  {
    var x := xs[|xs| - 1];
    assert x in xs;
    var i :| 0 <= i < |ys| && ys[i] == x;
  }

  lemma NotInFront(xs: seq<Key>, k: Key)
    requires xs != [] && Increasing(xs)
    ensures k in xs[..|xs| - 1] <==> k in xs && k != xs[|xs| - 1]
  {
    var m := |xs| - 1;
    if k in xs && k != xs[m] {
      var i :| 0 <= i < |xs| && xs[i] == k;
      assert xs[..m][i] == k;
    }
    if k in xs[..m] {
      var i :| 0 <= i < m && xs[..m][i] == k;
      assert Before(xs[i], xs[m]);
    }
  }
}
