/**
 The prefix tree of apps/radix/radix.c, lines 596-692, as arithmetic.  P = 2^lg
 leaves sit at indices 0..P-1 of prefix_tree; level l starts at Base(lg, l) and
 holds Width(lg, l) nodes; node o of level l+1 joins nodes 2o and 2o+1 of level l.
 */
module TreeShape {
  import opened PowerOfTwo

  /** Nodes on level l (none above the root). */
  function Width(lg: nat, l: nat): nat
  {
    if l <= lg then Pow2(lg - l) else 0
  }

  /** Index of the first node of level l. */
  function Base(lg: nat, l: nat): nat
  {
    if l == 0 then 0 else Base(lg, l - 1) + Width(lg, l - 1)
  }

  /** p shifted right l times. */
  function Shr(p: nat, l: nat): nat
  {
    if l == 0 then p else Shr(p, l - 1) / 2
  }

  /** The leftmost leaf below node o of level l. */
  function First(l: nat, o: nat): nat
  {
    if l == 0 then o else First(l - 1, 2 * o)
  }

  /** The rightmost leaf below node o of level l: the processor that computes the node. */
  function Owner(l: nat, o: nat): nat
  {
    if l == 0 then o else Owner(l - 1, 2 * o + 1)
  }

  lemma Halves(lg: nat, l: nat)
    ensures Width(lg, l) / 2 == Width(lg, l + 1)
    ensures l < lg ==> Width(lg, l) == 2 * Width(lg, l + 1)
    ensures l <= lg ==> Width(lg, l) >= 1
  {
    if l < lg {
      assert Pow2(lg - l) == 2 * Pow2(lg - l - 1);
    }
  }

  lemma {:induction false} BaseIsTotal(lg: nat, l: nat)
    requires l <= lg + 1
    ensures Base(lg, l) == 2 * Pow2(lg) - (if l <= lg then 2 * Pow2(lg - l) else 1)
  {
    if l > 0 {
      BaseIsTotal(lg, l - 1);
    }
  }

  lemma {:induction false} BaseGrows(lg: nat, l: nat, l': nat)
    requires l <= l'
    ensures Base(lg, l) <= Base(lg, l')
  {
    if l < l' { BaseGrows(lg, l, l' - 1); }
  }

  lemma LevelsApart(lg: nat, l: nat, o: nat, l': nat)
    requires o < Width(lg, l) && l < l'
    ensures Base(lg, l) + o < Base(lg, l')
  {
    BaseGrows(lg, l + 1, l');
  }

  /** No two nodes share an index, and all indices stay below 2P-1. */
  lemma IndexInjective(lg: nat, l: nat, o: nat, l': nat, o': nat)
    requires o < Width(lg, l) && o' < Width(lg, l')
    ensures Base(lg, l) + o == Base(lg, l') + o' ==> l == l' && o == o'
    ensures Base(lg, l) + o < 2 * Pow2(lg) - 1
  {
    if l < l' { LevelsApart(lg, l, o, l'); }
    if l' < l { LevelsApart(lg, l', o', l); }
    LevelsApart(lg, l, o, lg + 1);
    BaseIsTotal(lg, lg + 1);
  }

  /** Every index below 2P-1 belongs to a node. */
  lemma IndexOnto(lg: nat, i: nat) returns (l: nat, o: nat)
    requires i < 2 * Pow2(lg) - 1
    ensures l <= lg && o < Width(lg, l) && i == Base(lg, l) + o
  {
    BaseIsTotal(lg, lg + 1);
    l := 0;
    while Base(lg, l + 1) <= i
      invariant l <= lg && Base(lg, l) <= i
      decreases lg - l
    {
      l := l + 1;
    }
    o := i - Base(lg, l);
  }

  lemma {:induction false} OwnerBelow(l: nat, o: nat)
    ensures l > 0 ==> Owner(l, o) == 2 * Owner(l - 1, o) + 1
    ensures Owner(l, o) + 1 == First(l, o + 1)
  {
    if l > 0 {
      OwnerBelow(l - 1, 2 * o + 1);
      OwnerBelow(l - 1, o);
    }
  }

  lemma {:induction false} ShrStep(p: nat, l: nat)
    ensures l > 0 ==> Shr(p, l) == Shr(p / 2, l - 1)
  {
    if l > 1 { ShrStep(p, l - 1); }
  }

  /** The bits of Owner(l, o) are o followed by l ones. */
  lemma {:induction false} OwnerBits(l: nat, o: nat, k: nat)
    requires k <= l
    ensures Shr(Owner(l, o), k) == Owner(l - k, o)
    ensures k < l ==> Shr(Owner(l, o), k) % 2 == 1
  {
    OwnerBelow(l, o);
    if k < l { OwnerBelow(l - k, o); }
    if k > 0 {
      ShrStep(Owner(l, o), k);
      OwnerBits(l - 1, o, k - 1);
    }
  }

  lemma {:induction false} FirstGrows(l: nat, o: nat, o': nat)
    requires o <= o'
    ensures First(l, o) <= First(l, o')
  {
    if l > 0 { FirstGrows(l - 1, 2 * o, 2 * o'); }
  }

  lemma {:induction false} LevelEnds(lg: nat, l: nat)
    requires l <= lg
    ensures First(l, Width(lg, l)) == Pow2(lg)
  {
    if l > 0 {
      Halves(lg, l - 1);
      LevelEnds(lg, l - 1);
    }
  }

  lemma OwnerInRange(lg: nat, l: nat, o: nat)
    requires l <= lg && o < Width(lg, l)
    ensures First(l, o) <= Owner(l, o) < Pow2(lg)
  {
    OwnerBelow(l, o);
    LevelEnds(lg, l);
    FirstGrows(l, o + 1, Width(lg, l));
    FirstBelowOwner(l, o);
  }

  lemma {:induction false} FirstBelowOwner(l: nat, o: nat)
    ensures First(l, o) <= Owner(l, o)
  {
    if l > 0 {
      FirstGrows(l - 1, 2 * o, 2 * o + 1);
      FirstBelowOwner(l - 1, 2 * o + 1);
    }
  }
}
