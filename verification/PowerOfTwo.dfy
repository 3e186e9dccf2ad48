/** Powers of two. */
module PowerOfTwo {

  function Pow2(q: nat): (r: nat)
    ensures r >= 1
  {
    if q == 0 then 1 else 2 * Pow2(q - 1)
  }

  lemma Pow2Next(q: nat)
    ensures Pow2(q + 1) == 2 * Pow2(q)
  {
  }
}
