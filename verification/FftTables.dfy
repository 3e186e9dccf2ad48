/**
 The tables of roots, InitU and InitU2 of apps/fft/fft.c, lines 614-656.  w(q, k) stands for the
 pair cos(2 pi k / 2^q), -sin(2 pi k / 2^q).
 */
module FftTables {
  import opened PowerOfTwo
  import opened Complex
  import opened FftSpec
  import opened FftOnce
  import opened FftParallel
  import Arith

  /** The slot of root j among those for butterflies across 2^q positions. */
  function Slot(q: nat, j: nat): nat { Pow2(q) - 1 + j }

  lemma {:induction false} PowGrows(a: nat, b: nat)
    requires a < b
    ensures 2 * Pow2(a) <= Pow2(b)
    decreases b
  {
    if a + 1 < b { PowGrows(a, b - 1); }
  }

  lemma SlotBefore(q: nat, j: nat, r: nat, k: nat)
    requires j < Pow2(q) && (q < r || (q == r && j < k))
    ensures Slot(q, j) < Slot(r, k)
  {
    if q < r { PowGrows(q, r); }
  }

  /** All roots up to root j of group q, as far as the table reaches. */
  ghost predicate Filled(w: Root, u: seq<Cx>, q: nat, j: nat)
  {
    forall r: nat, k: nat :: k < Pow2(r) && (r < q || (r == q && k < j)) && Slot(r, k) < |u| ==>
      u[Slot(r, k)] == w(r + 1, k)
  }

  lemma FillOne(w: Root, u: seq<Cx>, q: nat, j: nat)
    requires Filled(w, u, q, j) && j < Pow2(q) && Slot(q, j) < |u|
    ensures Filled(w, u[Slot(q, j) := w(q + 1, j)], q, j + 1)
  {
    hide Slot, Pow2;
    forall r: nat, k: nat | k < Pow2(r) && (r < q || (r == q && k < j)) ensures Slot(r, k) != Slot(q, j) {
      SlotBefore(r, k, q, j);
    }
  }

  lemma NextGroup(w: Root, u: seq<Cx>, q: nat)
    requires Filled(w, u, q, Pow2(q))
    ensures Filled(w, u, q + 1, 0)
  {
    hide Slot, Pow2;
  }

  lemma FullEntry(w: Root, u: seq<Cx>, m: nat, q: nat, j: nat, r: nat, k: nat)
    requires Filled(w, u, q, j) && |u| == Pow2(m) && j <= Pow2(q) && (Slot(q, j) >= |u| || q >= m) && r < m
      && k < Pow2(r)
    ensures EntryOk(w, 1, u, r, k)
  {
    assert Slot(r, k) < |u| by { PowGrows(r, m); }
    if q < r || (q == r && j <= k) {
      assert q < m;
      if q < r && j == Pow2(q) { PowGrows(q, r); } else if q < r { SlotBefore(q, j, r, k); }
      assert false;
    }
  }

  /** Once the table is full it serves every transform of 2^m points. */
  lemma FullIsOk(w: Root, u: seq<Cx>, m: nat, q: nat, j: nat)
    requires Filled(w, u, q, j) && |u| == Pow2(m) && j <= Pow2(q) && (Slot(q, j) >= |u| || q >= m)
    ensures TableOk(w, 1, u, m)
  {
    hide Filled, Slot, EntryOk;
    forall r: nat, k: nat | r < m && k < Pow2(r) ensures EntryOk(w, 1, u, r, k) {
      FullEntry(w, u, m, q, j, r, k);
    }
  }

  /** InitU */
  method InitU(m: nat, N: nat, rootN: nat, w: Root, u: array<Cx>)
    requires N == Pow2(2 * m) && rootN == Pow2(m) && u.Length == rootN
    modifies u
    ensures TableOk(w, 1, u[..], m)
  {
    hide Filled, TableOk;
    assert Filled(w, u[..], 0, 0) by { Nothing(w, u[..]); }
    var q, n1 := 0, 1;
    while n1 < N
      invariant n1 == Pow2(q) && Filled(w, u[..], q, 0)
      decreases N - n1
    {
      var base := n1 - 1;
      var j := 0;
      while j < n1
        invariant 0 <= j <= n1 && Filled(w, u[..], q, j)
      {
        if base + j > rootN - 1 {
          FullIsOk(w, u[..], m, q, j);
          return;
        }
        FillOne(w, u[..], q, j);
        u[base + j] := w(q + 1, j);
        j := j + 1;
      }
      NextGroup(w, u[..], q);
      q, n1 := q + 1, 2 * n1;
    }
    EnoughGroups(m, q);
    FullIsOk(w, u[..], m, q, 0);
  }

  lemma Nothing(w: Root, u: seq<Cx>)
    ensures Filled(w, u, 0, 0)
  {
  }

  lemma EnoughGroups(m: nat, q: nat)
    requires Pow2(q) >= Pow2(2 * m)
    ensures q >= m
  {
    if q < m { PowGrows(q, 2 * m); }
  }

  /** InitU2 */
  method InitU2(m: nat, n1: nat, w: Root) returns (u: seq<seq<Cx>>)
    requires n1 == Pow2(m)
    ensures Table2Ok(w, 1, u, m)
  {
    u := [];
    var j := 0;
    while j < n1
      invariant 0 <= j <= n1 && |u| == j
      invariant forall r: nat :: r < j ==> |u[r]| == n1
      invariant forall r: nat, i: nat :: r < j && i < n1 ==> Entry2Ok(w, 1, u[r][i], m, r, i)
    {
      var row := [];
      var i := 0;
      while i < n1
        invariant 0 <= i <= n1 && |row| == i
        invariant forall c: nat :: c < i ==> Entry2Ok(w, 1, row[c], m, j, c)
      {
        Arith.TimesNat(j, i);
        row := row + [w(2 * m, j * i)];
        i := i + 1;
      }
      u := u + [row];
      j := j + 1;
    }
  }
}
