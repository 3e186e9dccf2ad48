/** The threads of a phase; a driver lets them run in any order. */
module Threads {

  function Pool(P: nat): (r: set<nat>)
    ensures forall q: nat :: q in r <==> q < P
  {
    if P == 0 then {} else Pool(P - 1) + {P - 1}
  }
}
