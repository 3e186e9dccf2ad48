/**
 The local search around pgain, apps/streamcluster/streamcluster.cpp: pFL, lines 1210-1246, and
 the search for a centre cost in pkmedian, lines 1564-1618.  The order in which points
 are tried is arbitrary, and the loops may be cut off after any number of rounds.
 */
module StreamFL {
  import opened StreamSpec
  import opened RealSum
  import opened StreamGain

  /** The solution in the three arrays. */
  ghost function Now(assign: array<nat>, cost: array<real>, center: array<bool>, k: int): Solution
    reads assign, cost, center
  {
    Solution(assign[..], cost[..], center[..], k)
  }

  /** What the search keeps: a sound solution in which every centre serves itself. */
  ghost predicate Good(p: Points, s: Solution)
  {
    Sound(p, s) && SelfServing(p, s)
  }

  /** change / cost > e, with the floating-point meaning of a division by zero. */
  predicate GoesOn(change: real, cost: real, e: real)
  {
    if cost == 0.0 then change > 0.0 else change / cost > e
  }

  // ---------------------------------------------------------------------
  // One round
  // ---------------------------------------------------------------------

  /** The solution after n calls of pgain: the points of feasible in turn, starting over when they run out. */
  ghost function Tried(p: Points, s: Solution, z: real, feasible: seq<nat>, n: nat): (r: Solution)
    requires Shape(p, s) && |feasible| >= 1
    ensures Shape(p, r)
  {
    if n == 0 then s else Step(p, Tried(p, s, z, feasible, n - 1), z, feasible[(n - 1) % |feasible|])
  }

  /** What these calls gain together. */
  ghost function Gained(p: Points, s: Solution, z: real, feasible: seq<nat>, n: nat): real
    requires Shape(p, s) && |feasible| >= 1
  {
    if n == 0 then 0.0
    else Gained(p, s, z, feasible, n - 1)
         + Gain(p, Tried(p, s, z, feasible, n - 1), z, feasible[(n - 1) % |feasible|])
  }

  /** The calls of pgain in one round: iter points out of feasible, starting over when they run out. */
  method Round(p: Points, assign: array<nat>, cost: array<real>, center: array<bool>, table: array<nat>,
               switched: array<bool>, feasible: seq<nat>, z: real, k: nat, iter: nat, P: nat, line: nat)
    returns (change: real, k': nat)
    requires P >= 1 && line >= 1 && z > 0.0 && table.Length == switched.Length == |p.w| && center != switched
      && assign != table
    requires |feasible| >= 1 && forall i :: 0 <= i < |feasible| ==> feasible[i] < |p.w|
    requires Metric(p) && Good(p, Now(assign, cost, center, k))
    modifies assign, cost, center, table, switched
    ensures Good(p, Now(assign, cost, center, k'))
    ensures Now(assign, cost, center, k') == Tried(p, old(Now(assign, cost, center, k)), z, feasible, iter)
    ensures change == Gained(p, old(Now(assign, cost, center, k)), z, feasible, iter)
    ensures Total(z, Now(assign, cost, center, k')) == old(Total(z, Now(assign, cost, center, k))) - change
    ensures change >= 0.0
  {
    hide Total, Metric, Step, Gain, Good, Tried, Gained;
    change, k' := 0.0, k;
    ghost var s0 := Now(assign, cost, center, k);
    GoodIsSound(p, s0);
    TriedNone(p, s0, z, feasible);
    var i := 0;
    while i < iter
      invariant 0 <= i <= iter && Good(p, Now(assign, cost, center, k')) && change >= 0.0
      invariant Now(assign, cost, center, k') == Tried(p, s0, z, feasible, i)
      invariant change == Gained(p, s0, z, feasible, i)
      invariant Total(z, Now(assign, cost, center, k')) == Total(z, s0) - change
    {
      var x := feasible[i % |feasible|];
      ghost var s := Now(assign, cost, center, k');
      GoodIsSound(p, s);
      var gain, k1 := Pgain(p, assign, cost, center, table, switched, z, x, k', P, line);
      StepIsGood(p, s, z, x);
      GainIsTrue(p, s, z, x);
      TriedNext(p, s0, z, feasible, i);
      change := change + gain;
      k' := k1;
      i := i + 1;
    }
  }

  lemma TriedNone(p: Points, s: Solution, z: real, feasible: seq<nat>)
    requires Shape(p, s) && |feasible| >= 1
    ensures Tried(p, s, z, feasible, 0) == s && Gained(p, s, z, feasible, 0) == 0.0
  {
  }

  lemma TriedNext(p: Points, s: Solution, z: real, feasible: seq<nat>, n: nat)
    requires Shape(p, s) && |feasible| >= 1
    ensures var t, x := Tried(p, s, z, feasible, n), feasible[n % |feasible|];
      && Tried(p, s, z, feasible, n + 1) == Step(p, t, z, x)
      && Gained(p, s, z, feasible, n + 1) == Gained(p, s, z, feasible, n) + Gain(p, t, z, x)
  {
    hide Step, Gain;
  }

  lemma {:induction false} NothingGained(p: Points, s: Solution, z: real, feasible: seq<nat>, n: nat, m: nat)
    requires Good(p, s) && Metric(p) && z > 0.0 && m <= n
    requires |feasible| >= 1 && forall i :: 0 <= i < |feasible| ==> feasible[i] < |p.w|
    requires Gained(p, s, z, feasible, n) == 0.0
    ensures Tried(p, s, z, feasible, m) == s && Gained(p, s, z, feasible, m) == 0.0
    decreases m
  {
    hide Step, Gain, Metric, Good;
    GainsGrow(p, s, z, feasible, 0, m);
    GainsGrow(p, s, z, feasible, m, n);
    if m > 0 {
      NothingGained(p, s, z, feasible, n, m - 1);
      TriedNext(p, s, z, feasible, m - 1);
      GoodIsSound(p, s);
      GainIsTrue(p, s, z, feasible[(m - 1) % |feasible|]);
    }
  }

  lemma GoodIsSound(p: Points, s: Solution)
    requires Good(p, s)
    ensures Sound(p, s) && Shape(p, s)
  {
  }

  lemma {:induction false} TriedIsGood(p: Points, s: Solution, z: real, feasible: seq<nat>, n: nat)
    requires Good(p, s) && Metric(p) && z > 0.0
    requires |feasible| >= 1 && forall i :: 0 <= i < |feasible| ==> feasible[i] < |p.w|
    ensures Shape(p, s) && Good(p, Tried(p, s, z, feasible, n))
  {
    hide Step, Metric, Good;
    GoodIsSound(p, s);
    if n > 0 {
      TriedIsGood(p, s, z, feasible, n - 1);
      StepIsGood(p, Tried(p, s, z, feasible, n - 1), z, feasible[(n - 1) % |feasible|]);
    }
  }

  lemma {:induction false} GainsGrow(p: Points, s: Solution, z: real, feasible: seq<nat>, m: nat, n: nat)
    requires Good(p, s) && Metric(p) && z > 0.0 && m <= n
    requires |feasible| >= 1 && forall i :: 0 <= i < |feasible| ==> feasible[i] < |p.w|
    ensures Shape(p, s) && Gained(p, s, z, feasible, m) <= Gained(p, s, z, feasible, n)
    decreases n
  {
    hide Step, Gain, Metric, Good;
    GoodIsSound(p, s);
    if m < n {
      GainsGrow(p, s, z, feasible, m, n - 1);
      TriedNext(p, s, z, feasible, n - 1);
      TriedIsGood(p, s, z, feasible, n - 1);
      GoodIsSound(p, Tried(p, s, z, feasible, n - 1));
      GainIsTrue(p, Tried(p, s, z, feasible, n - 1), z, feasible[(n - 1) % |feasible|]);
    }
  }

  /** A round that gains nothing and has tried every point leaves a solution that no single opening improves. */
  lemma QuietRoundIsOptimal(p: Points, s: Solution, z: real, feasible: seq<nat>, iter: nat, i: nat, t: Solution)
    requires Good(p, s) && Metric(p) && z > 0.0
    requires |feasible| >= 1 && forall c :: 0 <= c < |feasible| ==> feasible[c] < |p.w|
    requires i < |feasible| <= iter && Gained(p, s, z, feasible, iter) == 0.0 && Rearranges(p, s, feasible[i], t)
    ensures Tried(p, s, z, feasible, iter) == s && Total(z, s) <= Total(z, t)
  {
    hide Step, Gain, Metric, Total, Rearranges, Good, Tried, Gained;
    GoodIsSound(p, s);
    NothingGained(p, s, z, feasible, iter, iter);
    NothingGained(p, s, z, feasible, iter, i);
    NothingGained(p, s, z, feasible, iter, i + 1);
    TriedNext(p, s, z, feasible, i);
    assert i % |feasible| == i;
    StepIsBest(p, s, z, feasible[i], t);
  }

  lemma StepIsGood(p: Points, s: Solution, z: real, x: nat)
    requires Good(p, s) && Metric(p) && z > 0.0 && x < |p.w|
    ensures Shape(p, s) && Good(p, Step(p, s, z, x)) && Step(p, s, z, x).k >= 0
  {
    StepKeepsSound(p, s, z, x);
    StepKeepsSelfServing(p, s, z, x);
    hide Step, Metric;
  }

  // ---------------------------------------------------------------------
  // pFL
  // ---------------------------------------------------------------------

  /** Orders in which points are tried. */
  ghost predicate Orders(p: Points, os: seq<seq<nat>>)
  {
    forall o :: o in os ==> |o| >= 1 && forall i :: 0 <= i < |o| ==> o[i] < |p.w|
  }

  /** The solution after the first m rounds. */
  ghost function AfterRounds(p: Points, s: Solution, z: real, os: seq<seq<nat>>, iter: nat, m: nat): (r: Solution)
    requires Shape(p, s) && Orders(p, os) && m <= |os|
    ensures Shape(p, r)
  {
    if m == 0 then s
    else
      assert os[m - 1] in os;
      Tried(p, AfterRounds(p, s, z, os, iter, m - 1), z, os[m - 1], iter)
  }

  /** What the last of m rounds gained; before the first round it is the whole cost. */
  ghost function LastChange(p: Points, s: Solution, z: real, os: seq<seq<nat>>, iter: nat, m: nat): real
    requires Shape(p, s) && Orders(p, os) && m <= |os|
  {
    if m == 0 then Total(z, s)
    else
      assert os[m - 1] in os;
      Gained(p, AfterRounds(p, s, z, os, iter, m - 1), z, os[m - 1], iter)
  }

  /** The gain is too small, relative to the cost, to go on. */
  ghost predicate TooSmall(change: real, cost: real, e: real)
  {
    (cost != 0.0 ==> change / cost <= e) && (cost == 0.0 ==> change <= 0.0)
  }

  /** r is what is left after the first m rounds; they went on as long as the gain was not too small. */
  ghost predicate IsFL(p: Points, s: Solution, z: real, os: seq<seq<nat>>, iter: nat, e: real, m: nat, r: Solution)
    requires Shape(p, s) && Orders(p, os)
  {
    && m <= |os| && r == AfterRounds(p, s, z, os, iter, m)
    && (forall i: nat :: i < m ==>
      !TooSmall(LastChange(p, s, z, os, iter, i), Total(z, AfterRounds(p, s, z, os, iter, i)), e))
    && (m < |os| ==> TooSmall(LastChange(p, s, z, os, iter, m), Total(z, r), e))
  }

  /** pFL: the rounds it takes, and the cost it carries along is the true cost of the solution it leaves. */
  method PFL(p: Points, assign: array<nat>, cost: array<real>, center: array<bool>, table: array<nat>,
             switched: array<bool>, orders: seq<seq<nat>>, z: real, k: nat, carried: real, iter: nat, e: real, P: nat,
             line: nat)
    returns (k': nat, carried': real, ghost taken: nat)
    requires P >= 1 && line >= 1 && z > 0.0 && table.Length == switched.Length == |p.w| && center != switched
      && assign != table
    requires Orders(p, orders)
    requires Metric(p) && Good(p, Now(assign, cost, center, k)) && carried == Total(z, Now(assign, cost, center, k))
    modifies assign, cost, center, table, switched
    ensures Good(p, Now(assign, cost, center, k')) && carried' == Total(z, Now(assign, cost, center, k'))
    ensures IsFL(p, old(Now(assign, cost, center, k)), z, orders, iter, e, taken, Now(assign, cost, center, k'))
    ensures carried' <= carried
  {
    hide Total, Metric, Good, AfterRounds, LastChange, GoesOn, TooSmall, Tried, Gained;
    ghost var s0 := Now(assign, cost, center, k);
    GoodIsSound(p, s0);
    k', carried' := k, carried;
    var change := carried;
    var r := 0;
    RoundsStart(p, s0, z, orders, iter);
    while r < |orders| && GoesOn(change, carried', e)
      invariant 0 <= r <= |orders| && carried' <= carried
      invariant Good(p, Now(assign, cost, center, k')) && carried' == Total(z, Now(assign, cost, center, k'))
      invariant Now(assign, cost, center, k') == AfterRounds(p, s0, z, orders, iter, r)
      invariant change == LastChange(p, s0, z, orders, iter, r)
      invariant forall i: nat :: i < r ==>
        !TooSmall(LastChange(p, s0, z, orders, iter, i), Total(z, AfterRounds(p, s0, z, orders, iter, i)), e)
    {
      assert orders[r] in orders;
      GoesOnIs(change, carried', e);
      RoundsNext(p, s0, z, orders, iter, r);
      change, k' := Round(p, assign, cost, center, table, switched, orders[r], z, k', iter, P, line);
      carried' := carried' - change;
      r := r + 1;
    }
    GoesOnIs(change, carried', e);
    taken := r;
  }

  lemma GoesOnIs(change: real, cost: real, e: real)
    ensures GoesOn(change, cost, e) <==> !TooSmall(change, cost, e)
  {
  }

  lemma RoundsStart(p: Points, s: Solution, z: real, os: seq<seq<nat>>, iter: nat)
    requires Shape(p, s) && Orders(p, os)
    ensures AfterRounds(p, s, z, os, iter, 0) == s && LastChange(p, s, z, os, iter, 0) == Total(z, s)
  {
  }

  lemma RoundsNext(p: Points, s: Solution, z: real, os: seq<seq<nat>>, iter: nat, m: nat)
    requires Shape(p, s) && Orders(p, os) && m < |os|
    ensures os[m] in os
    ensures var t := AfterRounds(p, s, z, os, iter, m);
      && AfterRounds(p, s, z, os, iter, m + 1) == Tried(p, t, z, os[m], iter)
      && LastChange(p, s, z, os, iter, m + 1) == Gained(p, t, z, os[m], iter)
  {
    hide Tried, Gained;
  }

  /** Changing the cost of a centre changes the true cost by that much for every centre. */
  lemma Retuned(z: real, z': real, s: Solution)
    ensures Total(z', s) == Total(z, s) + (z' - z) * (s.k as real)
  {
    hide Sum;
    DistributeDifference(z, z', s.k as real);
  }

  lemma DistributeDifference(z: real, z': real, k: real)
    ensures z' * k == z * k + (z' - z) * k
  {
  }

  /** Lines 1586-1587: close enough to the wanted number of centres for a longer search. */
  predicate NearlyRight(k: int, kmin: int, kmax: int)
  {
    (10 * k <= 11 * kmax && 10 * k >= 9 * kmin) || (k <= kmax + 2 && k >= kmin - 2)
  }

  /** One pass of the search: the bracket around the centre cost, and the solutions before, between and after. */
  datatype Visit = Visit(lo: real, hi: real, from: Solution, mid: Solution, to: Solution, a: nat, b: nat)
  {
    /** The centre cost of the pass. */
    function Z(): real { (lo + hi) / 2.0 }
  }

  /** v is a rough search, and a finer one where that left nearly the right number of centres. */
  ghost predicate IsVisit(p: Points, v: Visit, round: (seq<seq<nat>>, seq<seq<nat>>), iter: nat, kmin: nat, kmax: nat)
  {
    && Orders(p, round.0) && Orders(p, round.1) && Shape(p, v.from) && Shape(p, v.mid)
    && IsFL(p, v.from, v.Z(), round.0, iter, 0.1, v.a, v.mid)
    && if IsNear(v.mid.k, kmin, kmax) then IsFL(p, v.mid, v.Z(), round.1, iter, 0.001, v.b, v.to) else v.to == v.mid
  }

  /** Within a tenth of the wanted numbers of centres, or two off. */
  ghost predicate IsNear(k: int, kmin: nat, kmax: nat)
  {
    || 0.9 * (kmin as real) <= (k as real) <= 1.1 * (kmax as real)
    || kmin - 2 <= k <= kmax + 2
  }

  /** The bracket that follows v: dearer centres after too many, cheaper ones after too few. */
  ghost function Narrowed(v: Visit, kmin: nat, kmax: nat): (real, real)
  {
    if v.to.k > kmax then (v.Z(), v.hi) else if v.to.k < kmin then (v.lo, v.Z()) else (v.lo, v.hi)
  }

  ghost predicate Settled(v: Visit, kmin: nat, kmax: nat)
  {
    kmin <= v.to.k <= kmax || Narrowed(v, kmin, kmax).0 >= 0.999 * Narrowed(v, kmin, kmax).1
  }

  /** vs are passes one after the other from s, each in the bracket the one before leaves, and not settled before it. */
  ghost predicate AreVisits(p: Points, s: Solution, hi: real, rounds: seq<(seq<seq<nat>>, seq<seq<nat>>)>, iter: nat,
                            kmin: nat, kmax: nat, vs: seq<Visit>)
  {
    && |vs| <= |rounds|
    && (forall i: nat :: i < |vs| ==> IsVisit(p, vs[i], rounds[i], iter, kmin, kmax))
    && (|vs| > 0 ==> vs[0].from == s && vs[0].lo == 0.0 && vs[0].hi == hi)
    && forall i: nat, j: nat :: i < j < |vs| && j == i + 1 ==> Follows(vs[i], vs[j], kmin, kmax)
  }

  ghost predicate Follows(v: Visit, w: Visit, kmin: nat, kmax: nat)
  {
    w.from == v.to && (w.lo, w.hi) == Narrowed(v, kmin, kmax) && !Settled(v, kmin, kmax)
  }

  /** The bracket and the solution that the passes leave. */
  ghost function Bracket(hi: real, kmin: nat, kmax: nat, vs: seq<Visit>): (real, real)
  {
    if vs == [] then (0.0, hi) else Narrowed(vs[|vs| - 1], kmin, kmax)
  }

  ghost function LeftBy(s: Solution, vs: seq<Visit>): Solution
  {
    if vs == [] then s else vs[|vs| - 1].to
  }

  /** One of the passes had centre cost z and left too many centres. */
  ghost predicate LeftTooMany(vs: seq<Visit>, z: real, kmax: nat)
  {
    exists i :: 0 <= i < |vs| && vs[i].Z() == z && vs[i].to.k > kmax
  }

  ghost predicate LeftTooFew(vs: seq<Visit>, z: real, kmin: nat)
  {
    exists i :: 0 <= i < |vs| && vs[i].Z() == z && vs[i].to.k < kmin
  }

  /** The bracket ends at 0 or a cost that left too many centres, and at the start or a cost that left too few. */
  ghost predicate BracketOk(vs: seq<Visit>, top: real, kmin: nat, kmax: nat, lo: real, hi: real)
  {
    && 0.0 <= lo < hi <= top
    && (lo == 0.0 || LeftTooMany(vs, lo, kmax)) && (hi == top || LeftTooFew(vs, hi, kmin))
  }

  lemma {:induction false} BracketMeans(p: Points, s: Solution, hi: real,
                                        rounds: seq<(seq<seq<nat>>, seq<seq<nat>>)>, iter: nat, kmin: nat, kmax: nat,
                                        vs: seq<Visit>)
    requires AreVisits(p, s, hi, rounds, iter, kmin, kmax, vs) && hi > 0.0
    ensures var (lo', hi') := Bracket(hi, kmin, kmax, vs); BracketOk(vs, hi, kmin, kmax, lo', hi')
    decreases |vs|
  {
    hide AreVisits, Narrowed;
    if vs != [] {
      hide BracketOk;
      var n := |vs| - 1;
      var us, v := vs[..n], vs[n];
      FewerVisits(p, s, hi, rounds, iter, kmin, kmax, vs);
      BracketMeans(p, s, hi, rounds, iter, kmin, kmax, us);
      assert vs == us + [v];
      BracketNext(us, v, hi, kmin, kmax);
    }
  }

  lemma FewerVisits(p: Points, s: Solution, hi: real, rounds: seq<(seq<seq<nat>>, seq<seq<nat>>)>, iter: nat,
                    kmin: nat, kmax: nat, vs: seq<Visit>)
    requires AreVisits(p, s, hi, rounds, iter, kmin, kmax, vs) && vs != []
    ensures AreVisits(p, s, hi, rounds, iter, kmin, kmax, vs[..|vs| - 1])
    ensures (vs[|vs| - 1].lo, vs[|vs| - 1].hi) == Bracket(hi, kmin, kmax, vs[..|vs| - 1])
  {
    hide IsVisit, Settled, Narrowed;
    var n := |vs| - 1;
    var us := vs[..n];
    forall i: nat | i < |us| ensures IsVisit(p, us[i], rounds[i], iter, kmin, kmax) { assert us[i] == vs[i]; }
    forall i: nat, j: nat | i < j < |us| && j == i + 1 ensures Follows(us[i], us[j], kmin, kmax) {
      assert us[i] == vs[i] && us[j] == vs[j];
    }
    if n > 0 { assert us[n - 1] == vs[n - 1] && Follows(vs[n - 1], vs[n], kmin, kmax); }
  }

  lemma BracketNext(us: seq<Visit>, v: Visit, top: real, kmin: nat, kmax: nat)
    requires BracketOk(us, top, kmin, kmax, v.lo, v.hi)
    ensures var (lo', hi') := Narrowed(v, kmin, kmax); BracketOk(us + [v], top, kmin, kmax, lo', hi')
  {
    var vs := us + [v];
    if LeftTooMany(us, v.lo, kmax) {
      var i :| 0 <= i < |us| && us[i].Z() == v.lo && us[i].to.k > kmax;
      assert vs[i] == us[i];
    }
    if LeftTooFew(us, v.hi, kmin) {
      var i :| 0 <= i < |us| && us[i].Z() == v.hi && us[i].to.k < kmin;
      assert vs[i] == us[i];
    }
    assert vs[|us|] == v;
  }

  lemma NearIs(k: int, kmin: nat, kmax: nat)
    ensures NearlyRight(k, kmin, kmax) <==> IsNear(k, kmin, kmax)
  {
  }

  lemma VisitsGrow(p: Points, s: Solution, hi: real, rounds: seq<(seq<seq<nat>>, seq<seq<nat>>)>, iter: nat, kmin: nat,
                   kmax: nat, vs: seq<Visit>, v: Visit)
    requires AreVisits(p, s, hi, rounds, iter, kmin, kmax, vs) && |vs| < |rounds|
    requires IsVisit(p, v, rounds[|vs|], iter, kmin, kmax) && v.from == LeftBy(s, vs)
    requires (v.lo, v.hi) == Bracket(hi, kmin, kmax, vs) && (vs != [] ==> !Settled(vs[|vs| - 1], kmin, kmax))
    ensures AreVisits(p, s, hi, rounds, iter, kmin, kmax, vs + [v])
  {
    hide IsVisit, Settled, Narrowed;
    var us := vs + [v];
    forall i: nat, j: nat | i < j < |us| && j == i + 1 ensures Follows(us[i], us[j], kmin, kmax) {
      if j < |vs| { assert us[i] == vs[i] && us[j] == vs[j] && Follows(vs[i], vs[j], kmin, kmax); }
    }
  }

  /**
   The search of pkmedian: the passes it makes, each with the centre cost in the middle of its bracket, until the
   number of centres is right, the bracket is closed, or it is cut off; the carried cost stays the true cost.
   */
  method Search(p: Points, assign: array<nat>, cost: array<real>, center: array<bool>, table: array<nat>,
                switched: array<bool>, rounds: seq<(seq<seq<nat>>, seq<seq<nat>>)>, hi: real, k: nat, kmin: nat,
                kmax: nat, carried: real, iter: nat, P: nat, line: nat)
    returns (k': nat, z: real, carried': real, ghost visits: seq<Visit>)
    requires P >= 1 && line >= 1 && hi > 0.0 && kmin <= kmax
    requires table.Length == switched.Length == |p.w| && center != switched && assign != table
    requires forall o :: o in rounds ==> Orders(p, o.0) && Orders(p, o.1)
    requires Metric(p) && Good(p, Now(assign, cost, center, k))
      && carried == Total(hi / 2.0, Now(assign, cost, center, k))
    modifies assign, cost, center, table, switched
    ensures Good(p, Now(assign, cost, center, k')) && z > 0.0 && carried' == Total(z, Now(assign, cost, center, k'))
    ensures AreVisits(p, old(Now(assign, cost, center, k)), hi, rounds, iter, kmin, kmax, visits)
    ensures Now(assign, cost, center, k') == LeftBy(old(Now(assign, cost, center, k)), visits)
    ensures var (lo', hi') := Bracket(hi, kmin, kmax, visits); z == (lo' + hi') / 2.0
    ensures |visits| == |rounds| || (visits != [] && Settled(visits[|visits| - 1], kmin, kmax))
  {
    hide Total, Metric, Good, AreVisits, IsFL, Orders;
    ghost var s0 := Now(assign, cost, center, k);
    GoodIsSound(p, s0);
    var hiz, loz := hi, 0.0;
    k', carried' := k, carried;
    z := hi / 2.0;
    visits := [];
    NoVisits(p, s0, hi, rounds, iter, kmin, kmax);
    var r := 0;
    while r < |rounds|
      invariant 0 <= r == |visits| <= |rounds| && 0.0 <= loz < z < hiz && z == (loz + hiz) / 2.0
      invariant Good(p, Now(assign, cost, center, k')) && carried' == Total(z, Now(assign, cost, center, k'))
      invariant AreVisits(p, s0, hi, rounds, iter, kmin, kmax, visits)
      invariant Now(assign, cost, center, k') == LeftBy(s0, visits) && (loz, hiz) == Bracket(hi, kmin, kmax, visits)
      invariant visits != [] ==> !Settled(visits[|visits| - 1], kmin, kmax)
    {
      assert rounds[r] in rounds;
      ghost var from := Now(assign, cost, center, k');
      GoodIsSound(p, from);
      ghost var a, b := 0, 0;
      k', carried', a := PFL(p, assign, cost, center, table, switched, rounds[r].0, z, k', carried', iter, 0.1, P,
        line);
      ghost var mid := Now(assign, cost, center, k');
      GoodIsSound(p, mid);
      NearIs(k', kmin, kmax);
      if NearlyRight(k', kmin, kmax) {
        k', carried', b := PFL(p, assign, cost, center, table, switched, rounds[r].1, z, k', carried', iter, 0.001, P,
          line);
      }
      ghost var s := Now(assign, cost, center, k');
      ghost var v := Visit(loz, hiz, from, mid, s, a, b);
      VisitsGrow(p, s0, hi, rounds, iter, kmin, kmax, visits, v);
      visits := visits + [v];
      loz, hiz, z, carried' := Narrow(v, loz, hiz, z, k', kmin, kmax, carried');
      if kmin <= k' <= kmax || loz >= 0.999 * hiz {
        break;
      }
      r := r + 1;
    }
  }

  /** Lines 1595-1606: another centre cost, and the carried cost goes with it. */
  method Narrow(ghost v: Visit, loz: real, hiz: real, z: real, k: nat, kmin: nat, kmax: nat, carried: real)
    returns (loz': real, hiz': real, z': real, carried': real)
    requires loz == v.lo && hiz == v.hi && z == v.Z() && 0.0 <= loz < hiz && k == v.to.k && kmin <= kmax
    requires carried == Total(z, v.to)
    ensures (loz', hiz') == Narrowed(v, kmin, kmax) && 0.0 <= loz' < z' < hiz' && z' == (loz' + hiz') / 2.0
    ensures carried' == Total(z', v.to)
  {
    hide Total;
    loz', hiz', z', carried' := loz, hiz, z, carried;
    if k > kmax {
      loz' := z';
      z' := (hiz' + loz') / 2.0;
      carried' := carried' + (z' - loz') * (k as real);
      Retuned(loz', z', v.to);
    }
    if k < kmin {
      hiz' := z';
      z' := (hiz' + loz') / 2.0;
      carried' := carried' + (z' - hiz') * (k as real);
      Retuned(hiz', z', v.to);
    }
  }

  lemma NoVisits(p: Points, s: Solution, hi: real, rounds: seq<(seq<seq<nat>>, seq<seq<nat>>)>, iter: nat, kmin: nat,
                 kmax: nat)
    ensures AreVisits(p, s, hi, rounds, iter, kmin, kmax, [])
  {
  }
}
