/**
 Facility location as apps/streamcluster/streamcluster.cpp sees it, over the reals: a
 solution, its cost, and one local-search step as a function of the solution alone.
 */
module StreamSpec {
  import opened RealSum

  ghost function Count(b: seq<bool>, lo: nat, hi: nat): nat
    requires hi <= |b|
  {
    if hi <= lo then 0 else Count(b, lo, hi - 1) + if b[hi - 1] then 1 else 0
  }

  // ---------------------------------------------------------------------
  // Solutions
  // ---------------------------------------------------------------------

  /** The points: weights and pairwise distances; z is the cost of a centre. */
  datatype Points = Points(w: seq<real>, d: (int, int) -> real)
  {
    /** Cost of serving point i from x. */
    function Serve(i: int, x: int): real
      requires 0 <= i < |w|
    {
      d(i, x) * w[i]
    }
  }

  /** assign, cost, is_center and the number of centres the program carries along. */
  datatype Solution = Solution(assign: seq<nat>, cost: seq<real>, center: seq<bool>, k: int)

  ghost predicate Shape(p: Points, s: Solution)
  {
    |s.assign| == |p.w| && |s.cost| == |p.w| && |s.center| == |p.w|
  }

  /** Each point is assigned to an open centre at the right cost, and k is the number of centres. */
  ghost predicate Sound(p: Points, s: Solution)
  {
    && Shape(p, s) && s.k == Count(s.center, 0, |p.w|)
    && forall i :: 0 <= i < |p.w| ==>
      s.assign[i] < |p.w| && s.center[s.assign[i]] && s.cost[i] == p.Serve(i, s.assign[i])
  }

  /** Every open centre serves itself. */
  ghost predicate SelfServing(p: Points, s: Solution)
    requires Shape(p, s)
  {
    forall c :: 0 <= c < |p.w| && s.center[c] ==> s.assign[c] == c
  }

  /** What is true of squared Euclidean distances and of weights. */
  ghost predicate Metric(p: Points)
  {
    && (forall i :: 0 <= i < |p.w| ==> p.d(i, i) == 0.0)
    && (forall i, j :: 0 <= i < |p.w| && 0 <= j < |p.w| ==> p.d(i, j) >= 0.0)
    && (forall i :: 0 <= i < |p.w| ==> p.w[i] > 0.0)
    && (forall i, j, m :: 0 <= i < |p.w| && 0 <= j < |p.w| && 0 <= m < |p.w| && p.d(i, j) == 0.0 ==>
      p.d(m, i) == p.d(m, j))
  }

  ghost function CostOf(s: Solution): int -> real
  {
    i => if 0 <= i < |s.cost| then s.cost[i] else 0.0
  }

  /** The cost of k centres. */
  function Fixed(z: real, k: int): real { z * (k as real) }

  /** The true cost of a solution. */
  ghost function Total(z: real, s: Solution): real
  {
    Fixed(z, s.k) + Sum(CostOf(s), 0, |s.cost|)
  }

  // ---------------------------------------------------------------------
  // One step: open x, move who gains, close centres that are not worth it
  // ---------------------------------------------------------------------

  ghost predicate Switches(p: Points, s: Solution, x: nat, i: int)
    requires Shape(p, s)
  {
    0 <= i < |p.w| && p.Serve(i, x) < s.cost[i]
  }

  /** What point i contributes to the decision to close centre c. */
  ghost function Extra(p: Points, s: Solution, x: nat, c: int, i: int): real
    requires Shape(p, s)
  {
    if 0 <= i < |p.w| && !Switches(p, s, x, i) && s.assign[i] == c then s.cost[i] - p.Serve(i, x) else 0.0
  }

  ghost function ExtraOf(p: Points, s: Solution, x: nat, c: int): int -> real
    requires Shape(p, s)
  {
    i => Extra(p, s, x, c, i)
  }

  /** The field lower of centre c: what closing it would save. */
  ghost function Lower(p: Points, s: Solution, z: real, x: nat, c: int): real
    requires Shape(p, s)
  {
    z + Sum(ExtraOf(p, s, x, c), 0, |p.w|)
  }

  ghost predicate Closes(p: Points, s: Solution, z: real, x: nat, c: int)
    requires Shape(p, s)
  {
    0 <= c < |p.w| && s.center[c] && Lower(p, s, z, x, c) > 0.0
  }

  ghost function SwitchCost(p: Points, s: Solution, x: nat, i: int): real
    requires Shape(p, s)
  {
    if Switches(p, s, x, i) then p.Serve(i, x) - s.cost[i] else 0.0
  }

  ghost function CloseSaves(p: Points, s: Solution, z: real, x: nat, c: int): real
    requires Shape(p, s)
  {
    if Closes(p, s, z, x, c) then Lower(p, s, z, x, c) else 0.0
  }

  ghost function SwitchOf(p: Points, s: Solution, x: nat): int -> real
    requires Shape(p, s)
  {
    i => SwitchCost(p, s, x, i)
  }

  ghost function CloseOf(p: Points, s: Solution, z: real, x: nat): int -> real
    requires Shape(p, s)
  {
    c => CloseSaves(p, s, z, x, c)
  }

  /** gl_cost_of_opening_x */
  ghost function Opening(p: Points, s: Solution, z: real, x: nat): real
    requires Shape(p, s)
  {
    z + Sum(SwitchOf(p, s, x), 0, |p.w|) - Sum(CloseOf(p, s, z, x), 0, |p.w|)
  }

  ghost predicate Moves(p: Points, s: Solution, z: real, x: nat, i: int)
    requires Shape(p, s)
  {
    Switches(p, s, x, i) || (0 <= i < |p.w| && Closes(p, s, z, x, s.assign[i]))
  }

  ghost function Closing(p: Points, s: Solution, z: real, x: nat): (r: seq<bool>)
    requires Shape(p, s)
    ensures |r| == |p.w| && forall c :: 0 <= c < |p.w| ==> r[c] == Closes(p, s, z, x, c)
  {
    seq(|p.w|, c => Closes(p, s, z, x, c))
  }

  /** The solution after x has been opened. */
  ghost function Opened(p: Points, s: Solution, z: real, x: nat): (r: Solution)
    requires Shape(p, s)
    ensures Shape(p, r)
  {
    Solution(
      seq(|p.w|, i requires 0 <= i < |p.w| => if Moves(p, s, z, x, i) then x else s.assign[i]),
      seq(|p.w|, i requires 0 <= i < |p.w| => if Moves(p, s, z, x, i) then p.Serve(i, x) else s.cost[i]),
      seq(|p.w|, c requires 0 <= c < |p.w| => c == x || (s.center[c] && !Closes(p, s, z, x, c))),
      s.k + 1 - Count(Closing(p, s, z, x), 0, |p.w|))
  }

  /** One call of pgain: the step is taken only if it saves. */
  ghost function Step(p: Points, s: Solution, z: real, x: nat): (r: Solution)
    requires Shape(p, s)
    ensures Shape(p, r)
  {
    if Opening(p, s, z, x) < 0.0 then Opened(p, s, z, x) else s
  }

  ghost function Gain(p: Points, s: Solution, z: real, x: nat): real
    requires Shape(p, s)
  {
    if Opening(p, s, z, x) < 0.0 then -Opening(p, s, z, x) else 0.0
  }

  // ---------------------------------------------------------------------
  // What opening x and closing some centres costs
  // ---------------------------------------------------------------------

  ghost function Min(a: real, b: real): real { if a < b then a else b }

  /** What point i costs when x is open and the centres in closed are not: its own centre or x, whichever is cheaper. */
  ghost function Choice(p: Points, s: Solution, x: nat, closed: seq<bool>, i: int): real
    requires Shape(p, s)
  {
    if !(0 <= i < |p.w|) then 0.0
    else if Listed(closed, s.assign[i]) then p.d(i, x) * p.w[i]
    else Min(s.cost[i], p.d(i, x) * p.w[i])
  }

  ghost predicate Listed(closed: seq<bool>, c: int) { 0 <= c < |closed| && closed[c] }

  ghost function ChoiceOf(p: Points, s: Solution, x: nat, closed: seq<bool>): int -> real
    requires Shape(p, s)
  {
    i => Choice(p, s, x, closed, i)
  }

  /** The total cost then. */
  ghost function Rearranged(p: Points, s: Solution, z: real, x: nat, closed: seq<bool>): real
    requires Shape(p, s)
  {
    Fixed(z, s.k + 1 - Count(closed, 0, |closed|)) + Sum(ChoiceOf(p, s, x, closed), 0, |p.w|)
  }

  /** Savings of the centres in closed, counting only the points below m. */
  ghost function Upto(p: Points, s: Solution, x: nat, closed: seq<bool>, m: int, c: int): real
    requires Shape(p, s)
  {
    if Listed(closed, c) then Sum(ExtraOf(p, s, x, c), 0, m) else 0.0
  }

  /** What point i adds when its own centre closes. */
  ghost function Forced(p: Points, s: Solution, x: nat, closed: seq<bool>, i: int): real
    requires Shape(p, s)
  {
    if 0 <= i < |p.w| && !Switches(p, s, x, i) && Listed(closed, s.assign[i]) then s.cost[i] - p.Serve(i, x) else 0.0
  }

  ghost function UptoOf(p: Points, s: Solution, x: nat, closed: seq<bool>, m: int): int -> real
    requires Shape(p, s)
  {
    c => Upto(p, s, x, closed, m, c)
  }

  ghost function ForcedOf(p: Points, s: Solution, x: nat, closed: seq<bool>): int -> real
    requires Shape(p, s)
  {
    i => Forced(p, s, x, closed, i)
  }

  /** Summing over centres their points is summing over the points. */
  lemma {:induction false} ByCentreIsByPoint(p: Points, s: Solution, x: nat, closed: seq<bool>, m: int)
    requires Sound(p, s) && 0 <= m <= |p.w|
    ensures Sum(UptoOf(p, s, x, closed, m), 0, |p.w|) == Sum(ForcedOf(p, s, x, closed), 0, m)
  {
    var f := UptoOf(p, s, x, closed, m);
    if m == 0 {
      SumOne(f, 0, |p.w|, -1, 0.0);
    } else {
      ByCentreIsByPoint(p, s, x, closed, m - 1);
      var g := UptoOf(p, s, x, closed, m - 1);
      var a, v := s.assign[m - 1], Forced(p, s, x, closed, m - 1);
      var h := (c: int) => if c == a then v else 0.0;
      forall c | 0 <= c < |p.w| ensures f(c) == g(c) + h(c) {
        OnePointMore(p, s, x, closed, m, c);
      }
      SumAdd(g, h, f, 0, |p.w|);
      SumOne(h, 0, |p.w|, a, v);
    }
  }

  lemma OnePointMore(p: Points, s: Solution, x: nat, closed: seq<bool>, m: int, c: int)
    requires Sound(p, s) && 0 < m <= |p.w|
    ensures Upto(p, s, x, closed, m, c) == Upto(p, s, x, closed, m - 1, c) + if c == s.assign[m - 1]
      then Forced(p, s, x, closed, m - 1) else 0.0
  {
    hide Switches, Listed;
    var e := ExtraOf(p, s, x, c);
    assert Sum(e, 0, m) == Sum(e, 0, m - 1) + e(m - 1);
  }

  lemma {:induction false} SumOfClosing(closed: seq<bool>, z: real, f: int -> real, m: nat)
    requires m <= |closed| && forall c :: 0 <= c < m ==> f(c) == if closed[c] then z else 0.0
    ensures Sum(f, 0, m) == Fixed(z, Count(closed, 0, m))
  {
    FixedNext(z, -1);
    hide Fixed;
    if m > 0 {
      SumOfClosing(closed, z, f, m - 1);
      FixedNext(z, Count(closed, 0, m - 1));
    }
  }

  lemma FixedNext(z: real, n: int)
    ensures Fixed(z, n + 1) == Fixed(z, n) + z && Fixed(z, 0) == 0.0
  {
    assert (n + 1) as real == (n as real) + 1.0;
  }

  /** What the centres in closed save together. */
  ghost function SavesOf(p: Points, s: Solution, z: real, x: nat, closed: seq<bool>): int -> real
    requires Shape(p, s)
  {
    c => if Listed(closed, c) then Lower(p, s, z, x, c) else 0.0
  }

  /** Closing centres saves their fixed cost and what their points add. */
  lemma ClosingSaves(p: Points, s: Solution, z: real, x: nat, closed: seq<bool>)
    requires Sound(p, s) && |closed| == |p.w|
    ensures Sum(SavesOf(p, s, z, x, closed), 0, |p.w|)
         == Fixed(z, Count(closed, 0, |p.w|)) + Sum(ForcedOf(p, s, x, closed), 0, |p.w|)
  {
    var f := (c: int) => if Listed(closed, c) then z else 0.0;
    var g := UptoOf(p, s, x, closed, |p.w|);
    var h := SavesOf(p, s, z, x, closed);
    hide Sum, Extra, Forced, Count, Fixed;
    forall c | 0 <= c < |p.w| ensures h(c) == f(c) + g(c) { }
    hide Upto, Lower;
    SumAdd(f, g, h, 0, |p.w|);
    SumOfClosing(closed, z, f, |p.w|);
    ByCentreIsByPoint(p, s, x, closed, |p.w|);
  }

  lemma CostMoves(p: Points, s: Solution, x: nat, closed: seq<bool>)
    requires Shape(p, s)
    ensures Sum(ChoiceOf(p, s, x, closed), 0, |p.w|) + Sum(ForcedOf(p, s, x, closed), 0, |p.w|)
         == Sum(CostOf(s), 0, |p.w|) + Sum(SwitchOf(p, s, x), 0, |p.w|)
  {
    var a, b := ChoiceOf(p, s, x, closed), ForcedOf(p, s, x, closed);
    var c, d := CostOf(s), SwitchOf(p, s, x);
    var t := (i: int) => c(i) + d(i);
    forall i | 0 <= i < |p.w| ensures t(i) == a(i) + b(i) {
      ChosenCost(p, s, x, closed, i);
    }
    SumAdd(a, b, t, 0, |p.w|);
    SumAdd(c, d, t, 0, |p.w|);
  }

  lemma ChosenCost(p: Points, s: Solution, x: nat, closed: seq<bool>, i: int)
    requires Shape(p, s) && 0 <= i < |p.w|
    ensures Choice(p, s, x, closed, i) + Forced(p, s, x, closed, i) == s.cost[i] + SwitchCost(p, s, x, i)
  {
    hide Listed;
  }

  /** Whatever is closed: the total cost changes by z, what the points gain, and what the closed centres save. */
  lemma RearrangedIs(p: Points, s: Solution, z: real, x: nat, closed: seq<bool>)
    requires Sound(p, s) && |closed| == |p.w|
    ensures Rearranged(p, s, z, x, closed)
         == Total(z, s) + z + Sum(SwitchOf(p, s, x), 0, |p.w|) - Sum(SavesOf(p, s, z, x, closed), 0, |p.w|)
  {
    ClosingSaves(p, s, z, x, closed);
    CostMoves(p, s, x, closed);
    var m := Count(closed, 0, |p.w|);
    hide Count, Sum, SavesOf, ForcedOf, SwitchOf, CostOf, ChoiceOf, Fixed;
    CentresChange(z, s.k, m);
    Balance(Fixed(z, s.k + 1 - m), Fixed(z, s.k), z, Fixed(z, m), Sum(ChoiceOf(p, s, x, closed), 0, |p.w|),
            Sum(ForcedOf(p, s, x, closed), 0, |p.w|), Sum(CostOf(s), 0, |p.w|), Sum(SwitchOf(p, s, x), 0, |p.w|));
  }

  // ---------------------------------------------------------------------
  // The gain is the true decrease of the cost
  // ---------------------------------------------------------------------

  /** Opening x changes the true cost by exactly the computed amount. */
  lemma OpeningIsTrue(p: Points, s: Solution, z: real, x: nat)
    requires Sound(p, s)
    ensures Total(z, Opened(p, s, z, x)) == Total(z, s) + Opening(p, s, z, x)
  {
    var closed := Closing(p, s, z, x);
    RearrangedIs(p, s, z, x, closed);
    OpenedChooses(p, s, z, x);
    hide Count, Sum, Lower, Closing, Fixed;
    SumEq(SavesOf(p, s, z, x, closed), CloseOf(p, s, z, x), 0, |p.w|) by {
      forall c | 0 <= c < |p.w| ensures SavesOf(p, s, z, x, closed)(c) == CloseOf(p, s, z, x)(c) { }
    }
    OpenedCount(p, s, z, x);
  }

  /** Every point is where it is cheapest for it, given the centres that close. */
  lemma OpenedChooses(p: Points, s: Solution, z: real, x: nat)
    requires Shape(p, s)
    ensures Sum(CostOf(Opened(p, s, z, x)), 0, |p.w|) == Sum(ChoiceOf(p, s, x, Closing(p, s, z, x)), 0, |p.w|)
  {
    var f, g := CostOf(Opened(p, s, z, x)), ChoiceOf(p, s, x, Closing(p, s, z, x));
    forall i | 0 <= i < |p.w| ensures f(i) == g(i) {
      OpenedCost(p, s, z, x, i);
    }
    SumEq(f, g, 0, |p.w|);
  }

  lemma OpenedCost(p: Points, s: Solution, z: real, x: nat, i: int)
    requires Shape(p, s) && 0 <= i < |p.w|
    ensures Opened(p, s, z, x).cost[i] == Choice(p, s, x, Closing(p, s, z, x), i)
  {
    hide Lower;
  }

  lemma OpenedCount(p: Points, s: Solution, z: real, x: nat)
    requires Shape(p, s)
    ensures Opened(p, s, z, x).k == s.k + 1 - Count(Closing(p, s, z, x), 0, |p.w|) && |Opened(p, s, z, x).cost| == |p.w|
  {
  }

  lemma Balance(zr: real, zk: real, z: real, zm: real, r: real, f: real, c: real, w: real)
    requires zr == zk + z - zm && r + f == c + w
    ensures zr + r == (zk + c) + (z + w - (zm + f))
  {
  }

  lemma CentresChange(z: real, k: int, m: int)
    ensures Fixed(z, k + 1 - m) == Fixed(z, k) + z - Fixed(z, m)
  {
    assert (k + 1 - m) as real == (k as real) + 1.0 - (m as real);
    Distribute(z, k as real, m as real);
  }

  lemma Distribute(z: real, a: real, b: real)
    ensures z * (a + 1.0 - b) == z * a + z - z * b
  {
  }

  /** The value pgain returns is the true decrease of the cost; it is never negative, and zero means nothing changed. */
  lemma GainIsTrue(p: Points, s: Solution, z: real, x: nat)
    requires Sound(p, s)
    ensures Total(z, Step(p, s, z, x)) == Total(z, s) - Gain(p, s, z, x)
    ensures Gain(p, s, z, x) >= 0.0
    ensures Gain(p, s, z, x) == 0.0 ==> Step(p, s, z, x) == s
  {
    OpeningIsTrue(p, s, z, x);
  }

  // ---------------------------------------------------------------------
  // The step is the best of its kind
  // ---------------------------------------------------------------------

  /** After a step that opens x: a point whose centre is still open is at the cheaper of the two, any other one at x. */
  lemma StepCosts(p: Points, s: Solution, z: real, x: nat, i: nat)
    requires Sound(p, s) && x < |p.w| && i < |p.w| && Opening(p, s, z, x) < 0.0
    ensures var r := Step(p, s, z, x);
      && r.center[x]
      && (r.center[s.assign[i]] ==> r.cost[i] == Min(s.cost[i], p.d(i, x) * p.w[i]))
      && (!r.center[s.assign[i]] ==> r.cost[i] == p.d(i, x) * p.w[i])
  {
    hide Lower, Opening;
  }

  /** Whatever centres are closed instead, the cost changes by at least as much. */
  lemma OpeningIsLeast(p: Points, s: Solution, z: real, x: nat, closed: seq<bool>)
    requires Sound(p, s) && |closed| == |p.w| && forall c :: 0 <= c < |p.w| && closed[c] ==> s.center[c]
    ensures Total(z, s) + Opening(p, s, z, x) <= Rearranged(p, s, z, x, closed)
  {
    RearrangedIs(p, s, z, x, closed);
    var f, g := SavesOf(p, s, z, x, closed), CloseOf(p, s, z, x);
    hide Sum, Lower, Total, Rearranged;
    forall c | 0 <= c < |p.w| ensures f(c) <= g(c) { }
    SumLeq(f, g, 0, |p.w|);
  }

  /** t opens x, may close centres of s, and leaves every point where it was or puts it at x. */
  ghost predicate Rearranges(p: Points, s: Solution, x: nat, t: Solution)
  {
    && Sound(p, s) && Sound(p, t) && x < |p.w| && t.center[x]
    && (forall c :: 0 <= c < |p.w| && t.center[c] ==> c == x || s.center[c])
    && (forall i :: 0 <= i < |p.w| ==> t.assign[i] == x || t.assign[i] == s.assign[i])
  }

  /** The centres of s that t closes; x counts as closed and opened again. */
  ghost function ClosedBy(s: Solution, x: nat, t: Solution): (r: seq<bool>)
    requires |s.center| == |t.center|
    ensures |r| == |s.center|
  {
    seq(|s.center|, c requires 0 <= c < |s.center| => s.center[c] && (c == x || !t.center[c]))
  }

  lemma {:induction false} ClosedCount(p: Points, s: Solution, x: nat, t: Solution, m: nat)
    requires Rearranges(p, s, x, t) && m <= |p.w|
    ensures Count(t.center, 0, m) + Count(ClosedBy(s, x, t), 0, m) == Count(s.center, 0, m) + if x < m then 1 else 0
  {
    if m > 0 {
      ClosedCount(p, s, x, t, m - 1);
      assert ClosedBy(s, x, t)[m - 1] == (s.center[m - 1] && (m - 1 == x || !t.center[m - 1]));
    }
  }

  lemma CostsAtLeast(p: Points, s: Solution, x: nat, t: Solution)
    requires Rearranges(p, s, x, t)
    ensures Sum(ChoiceOf(p, s, x, ClosedBy(s, x, t)), 0, |p.w|) <= Sum(CostOf(t), 0, |p.w|)
  {
    var f, g := ChoiceOf(p, s, x, ClosedBy(s, x, t)), CostOf(t);
    forall i | 0 <= i < |p.w| ensures f(i) <= g(i) {
      assert t.cost[i] == p.Serve(i, t.assign[i]) && s.cost[i] == p.Serve(i, s.assign[i]);
    }
    SumLeq(f, g, 0, |p.w|);
  }

  /** No way to open x, close centres, and leave points where they are or put them at x is cheaper than the step. */
  lemma StepIsBest(p: Points, s: Solution, z: real, x: nat, t: Solution)
    requires Rearranges(p, s, x, t)
    ensures Total(z, Step(p, s, z, x)) <= Total(z, t) && Total(z, Step(p, s, z, x)) <= Total(z, s)
  {
    var closed := ClosedBy(s, x, t);
    GainIsTrue(p, s, z, x);
    OpeningIsLeast(p, s, z, x, closed);
    ClosedCount(p, s, x, t, |p.w|);
    CostsAtLeast(p, s, x, t);
    hide Sum, Count, Step, Opening, ChoiceOf, CostOf, Fixed;
  }

  // ---------------------------------------------------------------------
  // The invariant is kept
  // ---------------------------------------------------------------------

  /** A point that is a centre already is closed and opened again. */
  lemma CentreReopens(p: Points, s: Solution, z: real, x: nat)
    requires Sound(p, s) && z > 0.0 && x < |p.w| && s.center[x]
    ensures Closes(p, s, z, x, x)
  {
    var e := ExtraOf(p, s, x, x);
    SumOne(e, 0, |p.w|, -1, 0.0);
  }

  lemma {:induction false} CentreCount(p: Points, s: Solution, z: real, x: nat, m: nat)
    requires Shape(p, s) && m <= |p.w| && x < |p.w| && (s.center[x] ==> Closes(p, s, z, x, x))
    ensures Count(Opened(p, s, z, x).center, 0, m) + Count(Closing(p, s, z, x), 0, m)
         == Count(s.center, 0, m) + if x < m then 1 else 0
  {
    if m > 0 {
      CentreCount(p, s, z, x, m - 1);
      hide Lower;
      assert Closing(p, s, z, x)[m - 1] == Closes(p, s, z, x, m - 1);
    }
  }

  /** Every call keeps: each point at an open centre, the right costs, the right number of centres. */
  lemma StepKeepsSound(p: Points, s: Solution, z: real, x: nat)
    requires Sound(p, s) && z > 0.0 && x < |p.w|
    ensures Sound(p, Step(p, s, z, x))
  {
    if s.center[x] { CentreReopens(p, s, z, x); }
    CentreCount(p, s, z, x, |p.w|);
    hide Lower, Count, Opening;
    var r := Opened(p, s, z, x);
    forall i | 0 <= i < |p.w|
      ensures r.assign[i] < |p.w| && r.center[r.assign[i]] && r.cost[i] == p.Serve(i, r.assign[i]) {
    }
  }

  /** A point at distance zero from its centre makes that centre close. */
  lemma DuplicateCloses(p: Points, s: Solution, z: real, x: nat)
    requires Sound(p, s) && Metric(p) && z > 0.0 && x < |p.w| && s.cost[x] == 0.0
    ensures Closes(p, s, z, x, s.assign[x])
  {
    var c := s.assign[x];
    ZeroProduct(p.d(x, c), p.w[x]);
    assert p.d(x, c) == 0.0;
    var e := ExtraOf(p, s, x, c);
    SumOne(e, 0, |p.w|, -1, 0.0);
  }

  lemma ZeroProduct(a: real, b: real)
    requires a * b == 0.0 && b > 0.0
    ensures a == 0.0
  {
  }

  lemma ServeSigns(p: Points, x: nat, i: nat)
    requires Metric(p) && x < |p.w| && i < |p.w|
    ensures p.Serve(i, x) >= 0.0 && p.Serve(x, x) == 0.0
  {
    NonNegative(p.d(i, x), p.w[i]);
    assert p.d(x, x) == 0.0;
  }

  lemma NonNegative(a: real, b: real)
    requires a >= 0.0 && b >= 0.0
    ensures a * b >= 0.0
  {
  }

  /** Every call keeps: each open centre serves itself. */
  lemma StepKeepsSelfServing(p: Points, s: Solution, z: real, x: nat)
    requires Sound(p, s) && Metric(p) && z > 0.0 && x < |p.w| && SelfServing(p, s)
    ensures SelfServing(p, Step(p, s, z, x))
  {
    var r := Opened(p, s, z, x);
    forall c | 0 <= c < |p.w| && r.center[c] ensures r.assign[c] == c {
      ServeSigns(p, x, c);
      ServeSigns(p, c, c);
      if c == x {
        ServeSigns(p, s.assign[x], x);
        if s.cost[x] == 0.0 { DuplicateCloses(p, s, z, x); }
      } else {
        assert s.assign[c] == c && s.cost[c] == 0.0;
      }
    }
  }
}
