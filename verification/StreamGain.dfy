/**
 pgain of apps/streamcluster/streamcluster.cpp, lines 955-1164, as P threads run it: every
 loop over threads below takes them in any order.  The result is one step of StreamSpec,
 whatever P is.
 */
module StreamGain {
  import opened Threads
  import opened StreamSpec
  import opened RealSum
  import opened StreamBlocks
  import opened StreamTable

  /** Every point sits at an open centre, and the centres carry different numbers below K. */
  ghost predicate TableOk(s: Solution, table: seq<nat>, K: nat)
  {
    && |table| == |s.center| == |s.assign|
    && (forall i :: 0 <= i < |s.assign| ==> s.assign[i] < |s.center| && s.center[s.assign[i]])
    && (forall c :: 0 <= c < |table| && s.center[c] ==> table[c] < K)
    && (forall c, e :: 0 <= c < |table| && 0 <= e < |table| && s.center[c] && s.center[e] && table[c] == table[e] ==>
      c == e)
  }

  lemma NumbersApart(p: Points, s: Solution, table: seq<nat>, K: nat)
    requires Sound(p, s) && |table| == |p.w| && s.k <= K
    requires forall i :: 0 <= i < |table| && s.center[i] ==> table[i] == Count(s.center, 0, i)
    ensures TableOk(s, table, K)
  {
    hide Count;
    forall c | 0 <= c < |table| && s.center[c] ensures table[c] < K {
      RankBelow(s.center, c);
    }
    forall c, e | 0 <= c < |table| && 0 <= e < |table| && s.center[c] && s.center[e] && table[c] == table[e]
      ensures c == e {
      if c != e { RanksApart(s.center, c, e); }
    }
  }

  // ---------------------------------------------------------------------
  // Who switches, and the fields lower, lines 1047-1073
  // ---------------------------------------------------------------------

  /** Row r holds, for every centre, what the points lo..hi contribute to closing it. */
  ghost predicate RowOk(p: Points, s: Solution, x: nat, table: seq<nat>, r: seq<real>, K: nat, lo: int, hi: int)
  {
    && Shape(p, s) && TableOk(s, table, K) && K < |r|
    && forall c :: 0 <= c < |table| && s.center[c] ==> r[table[c]] == Sum(ExtraOf(p, s, x, c), lo, hi)
  }

  lemma RowNext(p: Points, s: Solution, x: nat, table: seq<nat>, r: seq<real>, r': seq<real>, K: nat, lo: nat, i: nat)
    requires RowOk(p, s, x, table, r, K, lo, i) && lo <= i < |p.w|
    requires |r'| == |r|
    requires Switches(p, s, x, i) ==> r' == r
    requires !Switches(p, s, x, i) ==>
      var t := table[s.assign[i]]; r' == r[t := r[t] + (s.cost[i] - p.Serve(i, x))]
    ensures RowOk(p, s, x, table, r', K, lo, i + 1)
  {
    hide Switches;
    forall c | 0 <= c < |table| && s.center[c] ensures r'[table[c]] == Sum(ExtraOf(p, s, x, c), lo, i + 1) {
      var e := ExtraOf(p, s, x, c);
      assert Sum(e, lo, i + 1) == Sum(e, lo, i) + e(i);
    }
  }

  /** Thread code: compare every point of the block with x. */
  method LowerBlock(p: Points, assign: array<nat>, cost: array<real>, table: array<nat>, switched: array<bool>,
                    row: seq<real>, x: nat, lo: nat, hi: nat, K: nat, ghost s: Solution)
    returns (lower: seq<real>, opening: real)
    requires Shape(p, s) && assign[..] == s.assign && cost[..] == s.cost && switched.Length == |p.w|
      && lo <= hi <= |p.w|
    requires TableOk(s, table[..], K) && RowOk(p, s, x, table[..], row, K, lo, lo)
    modifies switched
    ensures |lower| == |row| && RowOk(p, s, x, table[..], lower, K, lo, hi)
    ensures opening == Sum(SwitchOf(p, s, x), lo, hi)
    ensures forall i :: lo <= i < hi ==> (switched[i] <==> old(switched[i]) || Switches(p, s, x, i))
    ensures SameBut(old(switched[..]), switched[..], lo, hi)
  {
    hide RowOk, Shape, Lower;
    lower, opening := row, 0.0;
    var i := lo;
    while i < hi
      invariant lo <= i <= hi && |lower| == |row| && RowOk(p, s, x, table[..], lower, K, lo, i)
      invariant opening == Sum(SwitchOf(p, s, x), lo, i)
      invariant forall j :: lo <= j < i ==> (switched[j] <==> old(switched[j]) || Switches(p, s, x, j))
      invariant forall j :: 0 <= j < switched.Length && !(lo <= j < i) ==> switched[j] == old(switched[j])
    {
      ghost var before := lower;
      RowFacts(p, s, x, table[..], lower, K, lo, i);
      var xCost := p.Serve(i, x);
      var currentCost := cost[i];
      if xCost < currentCost {
        switched[i] := true;
        opening := opening + (xCost - currentCost);
      } else {
        var t := table[assign[i]];
        lower := lower[t := lower[t] + (currentCost - xCost)];
      }
      RowNext(p, s, x, table[..], before, lower, K, lo, i);
      i := i + 1;
    }
  }

  lemma RowFacts(p: Points, s: Solution, x: nat, table: seq<nat>, r: seq<real>, K: nat, lo: int, i: nat)
    requires RowOk(p, s, x, table, r, K, lo, i) && i < |p.w|
    ensures Shape(p, s) && K < |r| && s.assign[i] < |table| && table[s.assign[i]] < K
  {
  }

  /** Thread q has still its clear row and clear flags. */
  ghost predicate Fresh(switched: seq<bool>, work: seq<seq<real>>, K: nat, P: nat, q: nat)
  {
    && q < P < |work| && Clear(work[q], K + 2) && Hi(|switched|, P, q) <= |switched|
    && forall i :: InBlock(|switched|, P, q, i) ==> !switched[i]
  }

  /** Thread q has filled its row and its flags; mine is its own cost_of_opening_x. */
  ghost predicate Lowered(p: Points, s: Solution, x: nat, table: seq<nat>, switched: seq<bool>, work: seq<seq<real>>,
                          mine: seq<real>, K: nat, P: nat, q: nat)
  {
    && q < P < |work| && P == |mine| && |switched| == |p.w| && Shape(p, s) && |work[q]| == K + 2
    && Lo(|p.w|, P, q) <= Hi(|p.w|, P, q) <= |p.w|
    && RowOk(p, s, x, table, work[q], K, Lo(|p.w|, P, q), Hi(|p.w|, P, q))
    && mine[q] == Sum(SwitchOf(p, s, x), Lo(|p.w|, P, q), Hi(|p.w|, P, q))
    && forall i :: InBlock(|p.w|, P, q, i) ==> (switched[i] <==> Switches(p, s, x, i))
  }

  lemma FreshKept(sw: seq<bool>, sw': seq<bool>, w: seq<seq<real>>, w': seq<seq<real>>, K: nat, P: nat, p: nat, q: nat)
    requires Fresh(sw, w, K, P, q) && p < P && p != q && SameBut(sw, sw', Lo(|sw|, P, p), Hi(|sw|, P, p))
    requires |w'| == |w| && w'[q] == w[q]
    ensures Fresh(sw', w', K, P, q)
  {
    forall i | InBlock(|sw|, P, q, i) ensures sw'[i] == sw[i] {
      BlocksDisjoint(|sw|, P, p, q, i);
    }
  }

  lemma LoweredKept(p: Points, s: Solution, x: nat, table: seq<nat>, sw: seq<bool>, sw': seq<bool>, w: seq<seq<real>>,
                    w': seq<seq<real>>, mine: seq<real>, mine': seq<real>, K: nat, P: nat, t: nat, q: nat)
    requires Lowered(p, s, x, table, sw, w, mine, K, P, q) && t < P && t != q
      && SameBut(sw, sw', Lo(|sw|, P, t), Hi(|sw|, P, t))
    requires |w'| == |w| && w'[q] == w[q] && |mine'| == |mine| && mine'[q] == mine[q]
    ensures Lowered(p, s, x, table, sw', w', mine', K, P, q)
  {
    hide RowOk, Sum, Switches;
    forall i | InBlock(|sw|, P, q, i) ensures sw'[i] == sw[i] {
      BlocksDisjoint(|sw|, P, t, q, i);
    }
  }

  lemma ClearRowOk(p: Points, s: Solution, x: nat, table: seq<nat>, r: seq<real>, K: nat, lo: int)
    requires Shape(p, s) && TableOk(s, table, K) && Clear(r, K + 2)
    ensures RowOk(p, s, x, table, r, K, lo, lo)
  {
  }

  lemma LoweredNow(p: Points, s: Solution, x: nat, table: seq<nat>, sw: seq<bool>, sw': seq<bool>, w: seq<seq<real>>,
                   w': seq<seq<real>>, mine: seq<real>, K: nat, P: nat, q: nat)
    requires Shape(p, s) && |sw| == |sw'| == |p.w| && Fresh(sw, w, K, P, q) && |w'| == |w| && |mine| == P
      && |w'[q]| == K + 2
    requires Lo(|p.w|, P, q) <= Hi(|p.w|, P, q) <= |p.w|
    requires RowOk(p, s, x, table, w'[q], K, Lo(|p.w|, P, q), Hi(|p.w|, P, q))
    requires mine[q] == Sum(SwitchOf(p, s, x), Lo(|p.w|, P, q), Hi(|p.w|, P, q))
    requires forall i :: Lo(|p.w|, P, q) <= i < Hi(|p.w|, P, q) ==> (sw'[i] <==> sw[i] || Switches(p, s, x, i))
    ensures Lowered(p, s, x, table, sw', w', mine, K, P, q)
  {
    hide RowOk, Sum, Switches;
  }

  /** The phase of lines 1047-1073, threads in any order. */
  method LowerAll(p: Points, assign: array<nat>, cost: array<real>, table: array<nat>, switched: array<bool>,
                  work: array<seq<real>>, mine: array<real>, x: nat, K: nat, P: nat, ghost s: Solution)
    requires Shape(p, s) && assign[..] == s.assign && cost[..] == s.cost && switched.Length == |p.w|
    requires TableOk(s, table[..], K) && 1 <= P < work.Length && mine.Length == P && mine != cost
    requires forall q: nat :: q < P ==> Fresh(switched[..], work[..], K, P, q)
    modifies switched, work, mine
    ensures work[P] == old(work[P])
    ensures forall q: nat :: q < P ==> Lowered(p, s, x, table[..], switched[..], work[..], mine[..], K, P, q)
  {
    ghost var tab := table[..];
    var n := assign.Length;
    var todo := Pool(P);
    while todo != {}
      invariant assign[..] == s.assign && cost[..] == s.cost && table[..] == tab && work[P] == old(work[P])
      invariant forall q: nat :: q in todo ==> q < P && Fresh(switched[..], work[..], K, P, q)
      invariant forall q: nat :: q < P && q !in todo ==>
        Lowered(p, s, x, tab, switched[..], work[..], mine[..], K, P, q)
    {
      var t :| t in todo;
      ghost var sw, w, m := switched[..], work[..], mine[..];
      BlockBounds(n, P, t);
      assert Fresh(sw, w, K, P, t);
      ClearRowOk(p, s, x, tab, work[t], K, Lo(n, P, t));
      hide Fresh, Lowered, SameBut, TableOk, RowOk, Sum, Switches;
      var lower, opening := LowerBlock(p, assign, cost, table, switched, work[t], x, Lo(n, P, t), Hi(n, P, t), K, s);
      work[t] := lower;
      mine[t] := opening;
      RowLength(sw, w, K, P, t);
      LoweredNow(p, s, x, tab, sw, switched[..], w, work[..], mine[..], K, P, t);
      forall q: nat | q < P && q !in todo ensures Lowered(p, s, x, tab, switched[..], work[..], mine[..], K, P, q) {
        LoweredKept(p, s, x, tab, sw, switched[..], w, work[..], m, mine[..], K, P, t, q);
      }
      forall q: nat | q in todo && q != t ensures Fresh(switched[..], work[..], K, P, q) {
        FreshKept(sw, switched[..], w, work[..], K, P, t, q);
      }
      todo := todo - {t};
    }
  }

  lemma RowLength(sw: seq<bool>, w: seq<seq<real>>, K: nat, P: nat, q: nat)
    requires Fresh(sw, w, K, P, q)
    ensures q < |w| && |w[q]| == K + 2
  {
  }

  // ---------------------------------------------------------------------
  // Which centres close, lines 1079-1102
  // ---------------------------------------------------------------------

  /** All rows hold the contributions of their blocks. */
  ghost predicate RowsOk(p: Points, s: Solution, x: nat, table: seq<nat>, work: seq<seq<real>>, K: nat, P: nat)
  {
    && 1 <= P < |work| && Shape(p, s) && TableOk(s, table, K) && |work[P]| == K + 2
    && forall q: nat :: q < P ==>
      |work[q]| == K + 2 && RowOk(p, s, x, table, work[q], K, Lo(|p.w|, P, q), Hi(|p.w|, P, q))
  }

  /** low of one centre: the contributions of all threads added to z. */
  method SumColumn(p: Points, work: array<seq<real>>, z: real, t: nat, K: nat, P: nat, ghost s: Solution, ghost x: nat,
                   ghost table: seq<nat>, ghost c: nat)
    returns (low: real)
    requires RowsOk(p, s, x, table, work[..], K, P) && c < |table| && s.center[c] && table[c] == t
    ensures low == Lower(p, s, z, x, c)
  {
    low := z;
    var q := 0;
    ghost var e := ExtraOf(p, s, x, c);
    assert BlockSums(e, |p.w|, P, 0) == 0.0;
    hide RowsOk, BlockSums, Lower, ExtraOf, Sum, Lo, Hi;
    LowerByBlocks(p, s, z, x, table, work[..], K, P, c);
    while q < P
      invariant 0 <= q <= P && low == z + BlockSums(e, |p.w|, P, q)
    {
      ColumnEntry(p, s, x, table, work[..], K, P, q, c);
      BlockSumsNext(e, |p.w|, P, q);
      low := low + work[q][t];
      q := q + 1;
    }
  }

  lemma BlockSumsNext(f: int -> real, n: nat, P: nat, q: nat)
    requires q < P
    ensures BlockSums(f, n, P, q + 1) == BlockSums(f, n, P, q) + Sum(f, Lo(n, P, q), Hi(n, P, q))
  {
    hide Sum, Lo, Hi;
  }

  lemma LowerByBlocks(p: Points, s: Solution, z: real, x: nat, table: seq<nat>, work: seq<seq<real>>, K: nat, P: nat,
                      c: nat)
    requires RowsOk(p, s, x, table, work, K, P)
    ensures P < |work| && Shape(p, s) && Lower(p, s, z, x, c) == z + BlockSums(ExtraOf(p, s, x, c), |p.w|, P, P)
  {
    hide Sum, BlockSums, RowOk, TableOk;
    BlockSumsAre(ExtraOf(p, s, x, c), |p.w|, P, P);
    BlockBounds(|p.w|, P, P - 1);
  }

  lemma ColumnEntry(p: Points, s: Solution, x: nat, table: seq<nat>, work: seq<seq<real>>, K: nat, P: nat, q: nat,
                    c: nat)
    requires RowsOk(p, s, x, table, work, K, P) && q < P && c < |table| && s.center[c]
    ensures table[c] < K < |work[q]| && work[q][table[c]] == Sum(ExtraOf(p, s, x, c), Lo(|p.w|, P, q), Hi(|p.w|, P, q))
  {
    hide Sum;
  }

  /** The common row holds the field lower of every centre between lo and hi. */
  ghost predicate Decided(p: Points, s: Solution, z: real, x: nat, table: seq<nat>, gl: seq<real>, K: nat, lo: int,
                          hi: int)
  {
    && Shape(p, s) && TableOk(s, table, K) && |gl| == K + 2
    && forall c :: lo <= c < hi && 0 <= c < |table| && s.center[c] ==> gl[table[c]] == Lower(p, s, z, x, c)
  }

  /** Thread code: decide for the centres of one block; the common row is gl. */
  method CloseBlock(p: Points, center: array<bool>, table: array<nat>, work: array<seq<real>>, z: real, mine: real,
                    lo: nat, hi: nat, K: nat, P: nat, ghost s: Solution, ghost x: nat)
    returns (number: nat, opening: real)
    requires RowsOk(p, s, x, table[..], work[..], K, P) && center[..] == s.center && lo <= hi <= |p.w|
    modifies work
    ensures forall q :: 0 <= q < work.Length && q != P ==> work[q] == old(work[q])
    ensures Decided(p, s, z, x, table[..], work[P], K, lo, hi)
    ensures SameElsewhere(s, table[..], old(work[P]), work[P], lo, hi)
    ensures number == Count(Closing(p, s, z, x), lo, hi)
    ensures opening == mine - Sum(CloseOf(p, s, z, x), lo, hi)
  {
    ghost var tab, w := table[..], work[..];
    assert P < |w| && |w[P]| == K + 2 && Shape(p, s);
    hide RowsOk, Decided, SameElsewhere, RowOk, Lower, Closing, Sum, Count, TableOk;
    number, opening := 0, mine;
    var i := lo;
    StartDeciding(p, s, z, x, tab, w[P], K, lo);
    NothingClosed(p, s, z, x, lo);
    while i < hi
      invariant lo <= i <= hi && table[..] == tab && center[..] == s.center
      invariant forall q :: 0 <= q < work.Length && q != P ==> work[q] == w[q]
      invariant Decided(p, s, z, x, tab, work[P], K, lo, i)
      invariant SameElsewhere(s, tab, w[P], work[P], lo, i)
      invariant number == Count(Closing(p, s, z, x), lo, i) && opening == mine - Sum(CloseOf(p, s, z, x), lo, i)
    {
      DecidedLength(p, s, z, x, tab, work[P], K, lo, i);
      RowsKept(p, s, x, tab, w, work[..], K, P);
      RowsFacts(p, s, x, tab, work[..], K, P, i);
      if center[i] {
        ghost var gl := work[P];
        var low := SumColumn(p, work, z, table[i], K, P, s, x, tab, i);
        work[P] := work[P][table[i] := low];
        DecidedNext(p, s, z, x, tab, w[P], gl, work[P], K, lo, i, low);
        if low > 0.0 {
          number := number + 1;
          opening := opening - low;
        }
      } else {
        DecidedSkip(p, s, z, x, tab, w[P], work[P], K, lo, i);
      }
      ClosingNext(p, s, z, x, lo, i);
      i := i + 1;
    }
  }

  lemma RowsKept(p: Points, s: Solution, x: nat, table: seq<nat>, w: seq<seq<real>>, w': seq<seq<real>>, K: nat, P: nat)
    requires RowsOk(p, s, x, table, w, K, P) && |w'| == |w| && |w'[P]| == K + 2
    requires forall q :: 0 <= q < |w| && q != P ==> w'[q] == w[q]
    ensures RowsOk(p, s, x, table, w', K, P)
  {
    hide RowOk;
  }

  /** The two rows agree on every centre outside lo..hi. */
  ghost predicate SameElsewhere(s: Solution, table: seq<nat>, gl: seq<real>, gl': seq<real>, lo: int, hi: int)
  {
    && |table| == |s.center| && |gl'| == |gl|
    && forall c :: 0 <= c < |s.center| && s.center[c] && !(lo <= c < hi) ==>
      table[c] < |gl| && gl'[table[c]] == gl[table[c]]
  }

  lemma StartDeciding(p: Points, s: Solution, z: real, x: nat, table: seq<nat>, gl: seq<real>, K: nat, lo: nat)
    requires Shape(p, s) && TableOk(s, table, K) && |gl| == K + 2
    ensures Decided(p, s, z, x, table, gl, K, lo, lo) && SameElsewhere(s, table, gl, gl, lo, lo)
  {
  }

  lemma NothingClosed(p: Points, s: Solution, z: real, x: nat, lo: nat)
    requires Shape(p, s) && lo <= |p.w|
    ensures Count(Closing(p, s, z, x), lo, lo) == 0 && Sum(CloseOf(p, s, z, x), lo, lo) == 0.0
  {
  }

  lemma RowsFacts(p: Points, s: Solution, x: nat, table: seq<nat>, work: seq<seq<real>>, K: nat, P: nat, i: nat)
    requires RowsOk(p, s, x, table, work, K, P) && i < |p.w|
    ensures Shape(p, s) && |table| == |p.w| && P < |work| && |work[P]| == K + 2 && (s.center[i] ==> table[i] < K)
  {
  }

  lemma DecidedNext(p: Points, s: Solution, z: real, x: nat, table: seq<nat>, gl0: seq<real>, gl: seq<real>,
                    gl': seq<real>, K: nat, lo: nat, i: nat, low: real)
    requires Decided(p, s, z, x, table, gl, K, lo, i) && SameElsewhere(s, table, gl0, gl, lo, i) && lo <= i < |p.w|
      && s.center[i]
    requires low == Lower(p, s, z, x, i) && table[i] < |gl| && gl' == gl[table[i] := low]
    ensures Decided(p, s, z, x, table, gl', K, lo, i + 1) && SameElsewhere(s, table, gl0, gl', lo, i + 1)
  {
    hide Lower;
  }

  lemma DecidedSkip(p: Points, s: Solution, z: real, x: nat, table: seq<nat>, gl0: seq<real>, gl: seq<real>, K: nat,
                    lo: nat, i: nat)
    requires Decided(p, s, z, x, table, gl, K, lo, i) && SameElsewhere(s, table, gl0, gl, lo, i) && lo <= i < |p.w|
      && !s.center[i]
    ensures Decided(p, s, z, x, table, gl, K, lo, i + 1) && SameElsewhere(s, table, gl0, gl, lo, i + 1)
  {
    hide Lower;
  }

  lemma ClosingNext(p: Points, s: Solution, z: real, x: nat, lo: nat, i: nat)
    requires Shape(p, s) && lo <= i < |p.w|
    ensures Count(Closing(p, s, z, x), lo, i + 1)
         == Count(Closing(p, s, z, x), lo, i) + if s.center[i] && Lower(p, s, z, x, i) > 0.0 then 1 else 0
    ensures Sum(CloseOf(p, s, z, x), lo, i + 1)
         == Sum(CloseOf(p, s, z, x), lo, i) + if s.center[i] && Lower(p, s, z, x, i) > 0.0 then Lower(p, s, z, x, i)
           else 0.0
  {
    hide Lower;
    var f := CloseOf(p, s, z, x);
    assert Sum(f, lo, i + 1) == Sum(f, lo, i) + f(i);
  }

  /** Thread q has decided for its block and left its count and its cost at the end of its row. */
  ghost predicate Closed(p: Points, s: Solution, z: real, x: nat, table: seq<nat>, work: seq<seq<real>>, K: nat, P: nat,
                         q: nat)
  {
    && q < P < |work| && Shape(p, s) && |work[q]| == K + 2 && Lo(|p.w|, P, q) <= Hi(|p.w|, P, q) <= |p.w|
    && Decided(p, s, z, x, table, work[P], K, Lo(|p.w|, P, q), Hi(|p.w|, P, q))
    && work[q][K] == Count(Closing(p, s, z, x), Lo(|p.w|, P, q), Hi(|p.w|, P, q)) as real
    && work[q][K + 1] ==
      Sum(SwitchOf(p, s, x), Lo(|p.w|, P, q), Hi(|p.w|, P, q)) - Sum(CloseOf(p, s, z, x), Lo(|p.w|, P, q),
      Hi(|p.w|, P, q))
  }

  lemma ClosedKept(p: Points, s: Solution, z: real, x: nat, table: seq<nat>, w: seq<seq<real>>, w': seq<seq<real>>,
                   K: nat, P: nat, t: nat, q: nat)
    requires Closed(p, s, z, x, table, w, K, P, q) && t < P && t != q && |w'| == |w| && w'[q] == w[q]
      && |w'[P]| == K + 2
    requires SameElsewhere(s, table, w[P], w'[P], Lo(|p.w|, P, t), Hi(|p.w|, P, t))
    ensures Closed(p, s, z, x, table, w', K, P, q)
  {
    if q < t { BlocksInOrder(|p.w|, P, q, t); } else { BlocksInOrder(|p.w|, P, t, q); }
    hide Lower, Closing, Sum, Count, Lo, Hi, Decided, SameElsewhere;
    DecidedKept(p, s, z, x, table, w[P], w'[P], K, Lo(|p.w|, P, q), Hi(|p.w|, P, q), Lo(|p.w|, P, t), Hi(|p.w|, P, t));
  }

  lemma DecidedKept(p: Points, s: Solution, z: real, x: nat, table: seq<nat>, gl: seq<real>, gl': seq<real>, K: nat,
                    lo: int, hi: int, lo': int, hi': int)
    requires Decided(p, s, z, x, table, gl, K, lo, hi) && SameElsewhere(s, table, gl, gl', lo', hi')
      && (hi <= lo' || hi' <= lo)
    ensures Decided(p, s, z, x, table, gl', K, lo, hi)
  {
    hide Lower;
  }

  lemma TailWritten(p: Points, s: Solution, x: nat, table: seq<nat>, w: seq<seq<real>>, w': seq<seq<real>>, K: nat,
                    P: nat, t: nat, a: real, b: real)
    requires RowsOk(p, s, x, table, w, K, P) && t < P && w' == w[t := w[t][K := a][K + 1 := b]]
    ensures RowsOk(p, s, x, table, w', K, P)
  {
    forall q: nat | q < P
      ensures |w'[q]| == K + 2 && RowOk(p, s, x, table, w'[q], K, Lo(|p.w|, P, q), Hi(|p.w|, P, q)) {
      hide Sum;
      assert RowOk(p, s, x, table, w[q], K, Lo(|p.w|, P, q), Hi(|p.w|, P, q));
    }
  }

  /** The phase of lines 1079-1102, threads in any order. */
  method CloseAll(p: Points, center: array<bool>, table: array<nat>, work: array<seq<real>>, mine: array<real>, z: real,
                  K: nat, P: nat, ghost s: Solution, ghost x: nat)
    requires RowsOk(p, s, x, table[..], work[..], K, P) && center[..] == s.center && mine.Length == P
    requires forall q: nat :: q < P ==> mine[q] == Sum(SwitchOf(p, s, x), Lo(|p.w|, P, q), Hi(|p.w|, P, q))
    modifies work
    ensures work.Length > P
    ensures forall q: nat :: q < P ==> Closed(p, s, z, x, table[..], work[..], K, P, q)
  {
    ghost var tab := table[..];
    var n := center.Length;
    var todo := Pool(P);
    while todo != {}
      invariant table[..] == tab && center[..] == s.center && RowsOk(p, s, x, tab, work[..], K, P)
      invariant forall q: nat :: q in todo ==> q < P
      invariant forall q: nat :: q < P && q !in todo ==> Closed(p, s, z, x, tab, work[..], K, P, q)
    {
      hide Closed, RowOk, Decided, Lower, Sum, Count, Closing, SameElsewhere;
      var t :| t in todo;
      ghost var w := work[..];
      BlockBounds(n, P, t);
      var number, opening := CloseBlock(p, center, table, work, z, mine[t], Lo(n, P, t), Hi(n, P, t), K, P, s, x);
      DecidedLength(p, s, z, x, tab, work[P], K, Lo(n, P, t), Hi(n, P, t));
      ghost var v := work[..];
      RowsKept(p, s, x, tab, w, v, K, P);
      work[t] := work[t][K := number as real][K + 1 := opening];
      TailWritten(p, s, x, tab, v, work[..], K, P, t, number as real, opening);
      ClosedNow(p, s, z, x, tab, work[..], K, P, t);
      forall q: nat | q < P && q !in todo ensures Closed(p, s, z, x, tab, work[..], K, P, q) {
        ClosedKept(p, s, z, x, tab, w, work[..], K, P, t, q);
      }
      todo := todo - {t};
    }
  }

  lemma DecidedLength(p: Points, s: Solution, z: real, x: nat, table: seq<nat>, gl: seq<real>, K: nat, lo: int, hi: int)
    requires Decided(p, s, z, x, table, gl, K, lo, hi)
    ensures |gl| == K + 2
  {
  }

  lemma ClosedNow(p: Points, s: Solution, z: real, x: nat, table: seq<nat>, work: seq<seq<real>>, K: nat, P: nat,
                  q: nat)
    requires q < P < |work| && Shape(p, s) && |work[q]| == K + 2 && Lo(|p.w|, P, q) <= Hi(|p.w|, P, q) <= |p.w|
    requires Decided(p, s, z, x, table, work[P], K, Lo(|p.w|, P, q), Hi(|p.w|, P, q))
    requires work[q][K] == Count(Closing(p, s, z, x), Lo(|p.w|, P, q), Hi(|p.w|, P, q)) as real
    requires work[q][K + 1] ==
      Sum(SwitchOf(p, s, x), Lo(|p.w|, P, q), Hi(|p.w|, P, q)) - Sum(CloseOf(p, s, z, x), Lo(|p.w|, P, q),
      Hi(|p.w|, P, q))
    ensures Closed(p, s, z, x, table, work, K, P, q)
  {
    hide Sum, Count, Closing, Decided;
  }

  /** opening and number are the sums over the first q threads. */
  ghost predicate AddedUp(p: Points, s: Solution, z: real, x: nat, P: nat, q: nat, opening: real, number: int)
  {
    && Shape(p, s) && q <= P && Edge(|p.w|, P, q) <= |p.w|
    && opening == z + BlockSums(SwitchOf(p, s, x), |p.w|, P, q) - BlockSums(CloseOf(p, s, z, x), |p.w|, P, q)
    && number == Count(Closing(p, s, z, x), 0, Edge(|p.w|, P, q))
  }

  /** Where the first q blocks end. */
  ghost function Edge(n: nat, P: nat, q: nat): nat
    requires q <= P
  {
    if q == P then n else Lo(n, P, q)
  }

  lemma AddedNext(p: Points, s: Solution, z: real, x: nat, table: seq<nat>, work: seq<seq<real>>, K: nat, P: nat,
                  q: nat, opening: real, number: int)
    requires AddedUp(p, s, z, x, P, q, opening, number) && q < P && Closed(p, s, z, x, table, work, K, P, q)
    ensures |work[q]| == K + 2 && AddedUp(p, s, z, x, P, q + 1, opening + work[q][K + 1], number + work[q][K].Floor)
  {
    BlockEdges(|p.w|, P, q);
    hide Closed, Sum, Closing, Lo, Hi, Count, BlockSums, SwitchOf, CloseOf;
    ClosedFacts(p, s, z, x, table, work, K, P, q);
    CountSplit(Closing(p, s, z, x), 0, Lo(|p.w|, P, q), Hi(|p.w|, P, q));
    NextBlock(SwitchOf(p, s, x), |p.w|, P, q);
    NextBlock(CloseOf(p, s, z, x), |p.w|, P, q);
  }

  lemma AddedNone(p: Points, s: Solution, z: real, x: nat, P: nat)
    requires Shape(p, s) && P >= 1
    ensures AddedUp(p, s, z, x, P, 0, z, 0)
  {
    BlockBounds(|p.w|, P, 0);
    hide Lo, Hi, SwitchOf, CloseOf, Closing;
  }

  /** Thread 0 adds up, lines 1109-1116. */
  method Aggregate(p: Points, work: array<seq<real>>, z: real, K: nat, P: nat, ghost s: Solution, ghost x: nat,
                   ghost table: seq<nat>)
    returns (opening: real, number: int)
    requires Shape(p, s) && 1 <= P < work.Length && forall q: nat :: q < P ==>
      Closed(p, s, z, x, table, work[..], K, P, q)
    ensures opening == Opening(p, s, z, x) && number == Count(Closing(p, s, z, x), 0, |p.w|)
  {
    hide Closed, AddedUp, Opening, Count, Closing;
    opening, number := z, 0;
    var q := 0;
    AddedNone(p, s, z, x, P);
    while q < P
      invariant 0 <= q <= P && AddedUp(p, s, z, x, P, q, opening, number)
    {
      AddedNext(p, s, z, x, table, work[..], K, P, q, opening, number);
      number := number + work[q][K].Floor;
      opening := opening + work[q][K + 1];
      q := q + 1;
    }
    AddedAll(p, s, z, x, P, opening, number);
  }

  lemma AddedAll(p: Points, s: Solution, z: real, x: nat, P: nat, opening: real, number: int)
    requires AddedUp(p, s, z, x, P, P, opening, number) && P >= 1
    ensures opening == Opening(p, s, z, x) && number == Count(Closing(p, s, z, x), 0, |p.w|)
  {
    hide Opening, Count, Closing, BlockSums;
    OpeningFromBlocks(p, s, z, x, P);
  }

  lemma OpeningFromBlocks(p: Points, s: Solution, z: real, x: nat, P: nat)
    requires Shape(p, s) && P >= 1
    ensures Opening(p, s, z, x) ==
      z + BlockSums(SwitchOf(p, s, x), |p.w|, P, P) - BlockSums(CloseOf(p, s, z, x), |p.w|, P, P)
  {
    hide BlockSums, Sum;
    BlockSumsAre(SwitchOf(p, s, x), |p.w|, P, P);
    BlockSumsAre(CloseOf(p, s, z, x), |p.w|, P, P);
    LastBlock(|p.w|, P);
  }

  lemma NextBlock(f: int -> real, n: nat, P: nat, q: nat)
    requires q < P
    ensures BlockSums(f, n, P, q + 1) == BlockSums(f, n, P, q) + Sum(f, Lo(n, P, q), Hi(n, P, q))
  {
    hide Sum;
  }

  lemma BlockEdges(n: nat, P: nat, q: nat)
    requires q < P
    ensures Lo(n, P, q) <= Hi(n, P, q) <= n && (q + 1 < P ==> Hi(n, P, q) == Lo(n, P, q + 1))
      && (q + 1 == P ==> Hi(n, P, q) == n)
  {
    BlockBounds(n, P, q);
  }

  lemma LastBlock(n: nat, P: nat)
    requires P >= 1
    ensures Hi(n, P, P - 1) == n
  {
  }

  lemma ClosedFacts(p: Points, s: Solution, z: real, x: nat, table: seq<nat>, work: seq<seq<real>>, K: nat, P: nat,
                    q: nat)
    requires Closed(p, s, z, x, table, work, K, P, q)
    ensures q < |work| && |work[q]| == K + 2 && Shape(p, s) && Hi(|p.w|, P, q) <= |p.w|
    ensures work[q][K].Floor == Count(Closing(p, s, z, x), Lo(|p.w|, P, q), Hi(|p.w|, P, q))
    ensures work[q][K + 1] ==
      Sum(SwitchOf(p, s, x), Lo(|p.w|, P, q), Hi(|p.w|, P, q)) - Sum(CloseOf(p, s, z, x), Lo(|p.w|, P, q),
      Hi(|p.w|, P, q))
  {
    hide Sum, Count, Closing, Decided;
  }

  /** The blocks together cover all centres. */
  lemma AllDecided(p: Points, s: Solution, z: real, x: nat, table: seq<nat>, work: seq<seq<real>>, K: nat, P: nat)
    requires Shape(p, s) && 1 <= P < |work| && forall q: nat :: q < P ==> Closed(p, s, z, x, table, work, K, P, q)
    ensures Decided(p, s, z, x, table, work[P], K, 0, |p.w|)
  {
    hide Lower, Sum, Count, Closing;
    assert Closed(p, s, z, x, table, work, K, P, 0);
    forall c | 0 <= c < |p.w| && s.center[c] ensures work[P][table[c]] == Lower(p, s, z, x, c) {
      var q := BlockOf(|p.w|, P, P - 1, c);
      assert Closed(p, s, z, x, table, work, K, P, q);
    }
  }

  // ---------------------------------------------------------------------
  // Opening x, lines 1123-1147
  // ---------------------------------------------------------------------

  /** The three arrays hold u between lo and hi. */
  ghost predicate Part(u: Solution, a: seq<nat>, c: seq<real>, b: seq<bool>, n: nat, lo: nat, hi: nat)
  {
    PointsPart(u, a, c, n, lo, hi) && CentresPart(u, b, n, lo, hi)
  }

  ghost predicate PointsPart(u: Solution, a: seq<nat>, c: seq<real>, n: nat, lo: nat, hi: nat)
  {
    && |u.assign| == |u.cost| == |a| == |c| == n && lo <= hi <= n
    && forall i :: lo <= i < hi ==> a[i] == u.assign[i] && c[i] == u.cost[i]
  }

  ghost predicate CentresPart(u: Solution, b: seq<bool>, n: nat, lo: nat, hi: nat)
  {
    |u.center| == |b| == n && lo <= hi <= n && forall i :: lo <= i < hi ==> b[i] == u.center[i]
  }

  /** The flags mark exactly the points that gain by going to x. */
  ghost predicate FlagsOk(p: Points, s: Solution, x: nat, switched: seq<bool>)
  {
    Shape(p, s) && |switched| == |p.w| && forall i :: 0 <= i < |p.w| ==> (switched[i] <==> Switches(p, s, x, i))
  }

  /** Thread code: move the points of one block, close its centres, open x if it lies there. */
  method ApplyBlock(p: Points, assign: array<nat>, cost: array<real>, center: array<bool>, table: array<nat>,
                    switched: array<bool>, gl: seq<real>, x: nat, lo: nat, hi: nat, ghost s: Solution,
                    ghost r: Solution, ghost z: real, ghost K: nat)
    requires Shape(p, s) && Decided(p, s, z, x, table[..], gl, K, 0, |p.w|) && r == Opened(p, s, z, x)
    requires Part(s, assign[..], cost[..], center[..], |p.w|, lo, hi) && FlagsOk(p, s, x, switched[..])
    requires assign != table && center != switched
    modifies assign, cost, center
    ensures Part(r, assign[..], cost[..], center[..], |p.w|, lo, hi)
    ensures SameBut(old(assign[..]), assign[..], lo, hi) && SameBut(old(cost[..]), cost[..], lo, hi)
    ensures SameBut(old(center[..]), center[..], lo, hi)
    ensures table[..] == old(table[..]) && switched[..] == old(switched[..])
  {
    hide Opened, Decided, Switches, PointsPart, CentresPart, FlagsOk, SameBut;
    MovePoints(p, assign, cost, table, switched, gl, x, lo, hi, s, r, z, K);
    CloseCentres(p, center, table, gl, x, lo, hi, s, r, z, K);
  }

  method MovePoints(p: Points, assign: array<nat>, cost: array<real>, table: array<nat>, switched: array<bool>,
                    gl: seq<real>, x: nat, lo: nat, hi: nat, ghost s: Solution, ghost r: Solution, ghost z: real,
                    ghost K: nat)
    requires Shape(p, s) && Decided(p, s, z, x, table[..], gl, K, 0, |p.w|) && r == Opened(p, s, z, x)
    requires PointsPart(s, assign[..], cost[..], |p.w|, lo, hi) && FlagsOk(p, s, x, switched[..]) && assign != table
    modifies assign, cost
    ensures PointsPart(r, assign[..], cost[..], |p.w|, lo, hi)
    ensures SameBut(old(assign[..]), assign[..], lo, hi) && SameBut(old(cost[..]), cost[..], lo, hi)
    ensures table[..] == old(table[..])
  {
    OpenedShape(p, s, z, x);
    hide Opened, Decided, Switches, Moving;
    ghost var tab, a0, c0 := table[..], assign[..], cost[..];
    var i := lo;
    MovingStart(s, r, a0, c0, lo, hi);
    while i < hi
      invariant lo <= i <= hi && table[..] == tab
      invariant Moving(s, r, a0, c0, assign[..], cost[..], lo, i, hi)
    {
      ghost var a, c := assign[..], cost[..];
      PointMoves(p, s, z, x, tab, gl, K, i);
      MovingNext(s, r, a0, c0, a, c, lo, i, hi);
      var closeCentre := gl[table[assign[i]]] > 0.0;
      if switched[i] || closeCentre {
        cost[i] := p.Serve(i, x);
        assign[i] := x;
      }
      assert assign[..] == a[i := r.assign[i]] && cost[..] == c[i := r.cost[i]];
      i := i + 1;
    }
    MovingEnd(s, r, a0, c0, assign[..], cost[..], lo, hi);
  }

  /** The points lo..i are moved, those up to hi are as before, and the others are not touched. */
  ghost predicate Moving(s: Solution, r: Solution, a0: seq<nat>, c0: seq<real>, a: seq<nat>, c: seq<real>, lo: nat,
                         i: nat, hi: nat)
  {
    && PointsPart(r, a, c, |a|, lo, i) && PointsPart(s, a, c, |a|, i, hi)
    && SameBut(a0, a, lo, hi) && SameBut(c0, c, lo, hi)
  }

  lemma MovingStart(s: Solution, r: Solution, a: seq<nat>, c: seq<real>, lo: nat, hi: nat)
    requires PointsPart(s, a, c, |a|, lo, hi) && |r.assign| == |r.cost| == |a|
    ensures Moving(s, r, a, c, a, c, lo, lo, hi)
  {
  }

  lemma MovingNext(s: Solution, r: Solution, a0: seq<nat>, c0: seq<real>, a: seq<nat>, c: seq<real>, lo: nat, i: nat,
                   hi: nat)
    requires Moving(s, r, a0, c0, a, c, lo, i, hi) && i < hi
    ensures |a| == |c| == |r.assign| == |r.cost| == |s.assign| == |s.cost| && hi <= |a|
    ensures a[i] == s.assign[i] && c[i] == s.cost[i]
    ensures Moving(s, r, a0, c0, a[i := r.assign[i]], c[i := r.cost[i]], lo, i + 1, hi)
  {
  }

  lemma MovingEnd(s: Solution, r: Solution, a0: seq<nat>, c0: seq<real>, a: seq<nat>, c: seq<real>, lo: nat, hi: nat)
    requires Moving(s, r, a0, c0, a, c, lo, hi, hi)
    ensures PointsPart(r, a, c, |a|, lo, hi) && SameBut(a0, a, lo, hi) && SameBut(c0, c, lo, hi)
  {
  }

  lemma PointMoves(p: Points, s: Solution, z: real, x: nat, table: seq<nat>, gl: seq<real>, K: nat, i: nat)
    requires Shape(p, s) && Decided(p, s, z, x, table, gl, K, 0, |p.w|) && i < |p.w|
    ensures s.assign[i] < |table| && table[s.assign[i]] < |gl|
    ensures var m := Switches(p, s, x, i) || gl[table[s.assign[i]]] > 0.0;
      && Opened(p, s, z, x).assign[i] == (if m then x else s.assign[i])
      && Opened(p, s, z, x).cost[i] == (if m then p.Serve(i, x) else s.cost[i])
  {
    hide Lower, Switches, Closing, Count;
    var c := s.assign[i];
    assert s.center[c];
  }

  method CloseCentres(p: Points, center: array<bool>, table: array<nat>, gl: seq<real>, x: nat, lo: nat, hi: nat,
                      ghost s: Solution, ghost r: Solution, ghost z: real, ghost K: nat)
    requires Shape(p, s) && Decided(p, s, z, x, table[..], gl, K, 0, |p.w|) && r == Opened(p, s, z, x)
    requires CentresPart(s, center[..], |p.w|, lo, hi)
    modifies center
    ensures CentresPart(r, center[..], |p.w|, lo, hi)
    ensures SameBut(old(center[..]), center[..], lo, hi)
  {
    OpenedShape(p, s, z, x);
    hide Opened, Decided, Shutting;
    ghost var tab, b0 := table[..], center[..];
    var i := lo;
    ShuttingStart(s, r, x, b0, lo, hi);
    while i < hi
      invariant lo <= i <= hi && table[..] == tab
      invariant Shutting(s, r, x, b0, center[..], lo, i, hi)
    {
      ghost var b := center[..];
      CentreStays(p, s, z, x, tab, gl, K, i);
      var closes := center[i] && gl[table[i]] > 0.0;
      ShuttingNext(s, r, x, b0, b, lo, i, hi, b[i] && !closes);
      if closes {
        center[i] := false;
      }
      assert center[..] == b[i := b[i] && !closes];
      i := i + 1;
    }
    ghost var b := center[..];
    if lo <= x < hi {
      CentreStays(p, s, z, x, tab, gl, K, x);
    }
    ShuttingEnd(s, r, x, b0, b, lo, hi);
    if lo <= x < hi {
      center[x] := true;
      assert center[..] == b[x := true];
    }
  }

  /** The centres lo..i are settled but for x, those up to hi are as before, and the others are not touched. */
  ghost predicate Shutting(s: Solution, r: Solution, x: nat, b0: seq<bool>, b: seq<bool>, lo: nat, i: nat, hi: nat)
  {
    && |s.center| == |r.center| == |b0| == |b| && lo <= i <= hi <= |b|
    && (forall j :: lo <= j < i && j != x ==> b[j] == r.center[j])
    && (forall j :: i <= j < hi ==> b[j] == s.center[j])
    && SameBut(b0, b, lo, hi)
  }

  lemma ShuttingStart(s: Solution, r: Solution, x: nat, b: seq<bool>, lo: nat, hi: nat)
    requires CentresPart(s, b, |b|, lo, hi) && |r.center| == |b|
    ensures Shutting(s, r, x, b, b, lo, lo, hi)
  {
  }

  lemma ShuttingNext(s: Solution, r: Solution, x: nat, b0: seq<bool>, b: seq<bool>, lo: nat, i: nat, hi: nat, v: bool)
    requires Shutting(s, r, x, b0, b, lo, i, hi) && i < hi
    ensures hi <= |b| == |r.center| == |s.center| && b[i] == s.center[i]
    ensures i == x || v == r.center[i] ==> Shutting(s, r, x, b0, b[i := v], lo, i + 1, hi)
  {
  }

  lemma ShuttingEnd(s: Solution, r: Solution, x: nat, b0: seq<bool>, b: seq<bool>, lo: nat, hi: nat)
    requires Shutting(s, r, x, b0, b, lo, hi, hi) && hi <= |r.center| && (lo <= x < hi ==> r.center[x])
    ensures |b| == |r.center| && hi <= |b|
    ensures CentresPart(r, if lo <= x < hi then b[x := true] else b, |b|, lo, hi)
    ensures SameBut(b0, if lo <= x < hi then b[x := true] else b, lo, hi)
  {
  }

  lemma CentreStays(p: Points, s: Solution, z: real, x: nat, table: seq<nat>, gl: seq<real>, K: nat, i: nat)
    requires Shape(p, s) && Decided(p, s, z, x, table, gl, K, 0, |p.w|) && i < |p.w|
    ensures |table| == |p.w| && (s.center[i] ==> table[i] < |gl|)
    ensures Opened(p, s, z, x).center[i] == (i == x || (s.center[i] && !(gl[table[i]] > 0.0)))
  {
    hide Lower, Closing, Count;
  }

  /** Block q of the three arrays is as in u. */
  ghost predicate BlockIs(u: Solution, a: seq<nat>, c: seq<real>, b: seq<bool>, n: nat, P: nat, q: nat)
  {
    q < P && Part(u, a, c, b, n, Lo(n, P, q), Hi(n, P, q))
  }

  lemma BlockKept(u: Solution, a: seq<nat>, a': seq<nat>, c: seq<real>, c': seq<real>, b: seq<bool>, b': seq<bool>,
                  n: nat, P: nat, t: nat, q: nat)
    requires BlockIs(u, a, c, b, n, P, q) && t < P && t != q
    requires SameBut(a, a', Lo(n, P, t), Hi(n, P, t)) && SameBut(c, c', Lo(n, P, t), Hi(n, P, t))
      && SameBut(b, b', Lo(n, P, t), Hi(n, P, t))
    ensures BlockIs(u, a', c', b', n, P, q)
  {
    if q < t { BlocksInOrder(n, P, q, t); } else { BlocksInOrder(n, P, t, q); }
    hide Lo, Hi;
  }

  /** The phase of lines 1123-1143, threads in any order. */
  method ApplyAll(p: Points, assign: array<nat>, cost: array<real>, center: array<bool>, table: array<nat>,
                  switched: array<bool>, gl: seq<real>, x: nat, P: nat, ghost s: Solution, ghost r: Solution,
                  ghost z: real, ghost K: nat)
    requires Shape(p, s) && P >= 1 && Decided(p, s, z, x, table[..], gl, K, 0, |p.w|) && r == Opened(p, s, z, x)
    requires assign[..] == s.assign && cost[..] == s.cost && center[..] == s.center && assign != table
      && center != switched
    requires FlagsOk(p, s, x, switched[..])
    modifies assign, cost, center
    ensures assign[..] == r.assign && cost[..] == r.cost && center[..] == r.center
  {
    OpenedShape(p, s, z, x);
    hide Opened, Decided, Switches, SameBut, Part, FlagsOk, AllBlocks;
    ghost var tab, sw := table[..], switched[..];
    ghost var a, c, b := assign[..], cost[..], center[..];
    var n := assign.Length;
    StartBlocks(s, n, P);
    var todo := Pool(P);
    while todo != {}
      invariant table[..] == tab && switched[..] == sw && assign[..] == a && cost[..] == c && center[..] == b
      invariant forall q: nat :: q in todo ==> q < P
      invariant AllBlocks(s, r, a, c, b, n, P, todo)
    {
      var t :| t in todo;
      ghost var a0, c0, b0 := a, c, b;
      AllBlocksAt(s, r, a, c, b, n, P, todo, t);
      ApplyBlock(p, assign, cost, center, table, switched, gl, x, Lo(n, P, t), Hi(n, P, t), s, r, z, K);
      a, c, b := assign[..], cost[..], center[..];
      AllBlocksNext(s, r, a0, a, c0, c, b0, b, n, P, todo, t);
      todo := todo - {t};
    }
    BlocksAreAll(r, a, c, b, n, P, s);
  }

  /** The blocks of the threads still to run are as in s, the others as in r. */
  ghost predicate AllBlocks(s: Solution, r: Solution, a: seq<nat>, c: seq<real>, b: seq<bool>, n: nat, P: nat,
                            todo: set<nat>)
  {
    && (forall q: nat :: q < P && q in todo ==> BlockIs(s, a, c, b, n, P, q))
    && (forall q: nat :: q < P && q !in todo ==> BlockIs(r, a, c, b, n, P, q))
  }

  lemma StartBlocks(s: Solution, n: nat, P: nat)
    requires |s.assign| == |s.cost| == |s.center| == n
    ensures forall r, todo :: (forall q: nat :: q < P ==> q in todo) ==>
      AllBlocks(s, r, s.assign, s.cost, s.center, n, P, todo)
  {
    forall q: nat | q < P ensures BlockIs(s, s.assign, s.cost, s.center, n, P, q) {
      BlockBounds(n, P, q);
    }
    hide BlockIs;
  }

  lemma AllBlocksAt(s: Solution, r: Solution, a: seq<nat>, c: seq<real>, b: seq<bool>, n: nat, P: nat, todo: set<nat>,
                    t: nat)
    requires AllBlocks(s, r, a, c, b, n, P, todo) && t in todo && t < P
    ensures BlockIs(s, a, c, b, n, P, t)
  {
    hide BlockIs;
  }

  lemma AllBlocksNext(s: Solution, r: Solution, a: seq<nat>, a': seq<nat>, c: seq<real>, c': seq<real>, b: seq<bool>,
                      b': seq<bool>, n: nat, P: nat, todo: set<nat>, t: nat)
    requires AllBlocks(s, r, a, c, b, n, P, todo) && t in todo && t < P && BlockIs(r, a', c', b', n, P, t)
    requires SameBut(a, a', Lo(n, P, t), Hi(n, P, t)) && SameBut(c, c', Lo(n, P, t), Hi(n, P, t))
      && SameBut(b, b', Lo(n, P, t), Hi(n, P, t))
    ensures AllBlocks(s, r, a', c', b', n, P, todo - {t})
  {
    hide BlockIs, SameBut;
    forall q: nat | q < P && q in todo && q != t ensures BlockIs(s, a', c', b', n, P, q) {
      BlockKept(s, a, a', c, c', b, b', n, P, t, q);
    }
    forall q: nat | q < P && q !in todo ensures BlockIs(r, a', c', b', n, P, q) {
      BlockKept(r, a, a', c, c', b, b', n, P, t, q);
    }
  }

  lemma OpenedShape(p: Points, s: Solution, z: real, x: nat)
    requires Shape(p, s)
    ensures Shape(p, Opened(p, s, z, x))
  {
  }

  lemma BlocksAreAll(u: Solution, a: seq<nat>, c: seq<real>, b: seq<bool>, n: nat, P: nat, s: Solution)
    requires P >= 1 && AllBlocks(s, u, a, c, b, n, P, {})
    ensures a == u.assign && c == u.cost && b == u.center
  {
    assert BlockIs(u, a, c, b, n, P, 0);
    forall i | 0 <= i < n ensures a[i] == u.assign[i] && c[i] == u.cost[i] && b[i] == u.center[i] {
      BlockBounds(n, P, P - 1);
      var q := BlockOf(n, P, P - 1, i);
      assert BlockIs(u, a, c, b, n, P, q);
    }
  }

  // ---------------------------------------------------------------------
  // pgain
  // ---------------------------------------------------------------------

  /** Columns of the working memory: room for the centres and two more, rounded up to whole cache lines. */
  function Stride(k: nat, line: nat): (r: nat)
    requires line >= 1
    ensures k + 2 <= r
  {
    var stride := k + 2;
    if stride % line != 0 then RoundUp(stride, line); line * (stride / line + 1) else stride
  }

  /** The least such number of whole lines. */
  lemma StrideIsLeast(k: nat, line: nat)
    requires line >= 1
    ensures Stride(k, line) % line == 0 && k + 2 <= Stride(k, line) < k + 2 + line
  {
    var x := k + 2;
    Arith.DivMod(x, line);
    Arith.MulNext(x / line, line);
    Arith.MulCommutes(line, x / line + 1);
    if x % line != 0 { Arith.DivModUnique(line * (x / line + 1), line, x / line + 1, 0); }
  }

  lemma RoundUp(x: nat, line: nat)
    requires line >= 1
    ensures x <= line * (x / line + 1)
  {
    Arith.DivMod(x, line);
    Arith.MulNext(x / line, line);
    Arith.MulCommutes(line, x / line + 1);
  }

  lemma ReadyNow(b: seq<bool>, t: seq<nat>, w: seq<seq<real>>, w': seq<seq<real>>, P: nat)
    requires 1 <= P < |w| == |w'| && (forall q: nat :: q < P ==> Counted(b, t, w, P, q)) && Offsets(b, w', P)
    ensures forall q: nat :: q < P ==> Ready(b, t, w', P, q)
  {
    hide Count;
    forall q: nat | q < P ensures Ready(b, t, w', P, q) {
      assert Counted(b, t, w, P, q);
    }
  }

  lemma CountedHeads(b: seq<bool>, t: seq<nat>, w: seq<seq<real>>, P: nat, stride: nat)
    requires 1 <= P <= |w| && stride >= 1 && Rows(w, stride) && forall q: nat :: q < P ==> Counted(b, t, w, P, q)
    ensures Heads(b, w, P)
  {
    hide Count;
    forall q: nat | q < P
      ensures Lo(|b|, P, q) <= Hi(|b|, P, q) <= |b| && w[q][0] == Count(b, Lo(|b|, P, q), Hi(|b|, P, q)) as real {
      assert Counted(b, t, w, P, q);
    }
  }

  lemma NumberedAll(p: Points, s: Solution, t: seq<nat>, sw: seq<bool>, w: seq<seq<real>>, K: nat, stride: nat, P: nat)
    requires Sound(p, s) && s.k <= K && stride == K + 2 && 1 <= P < |w|
    requires forall q: nat :: q < P ==> Numbered(s.center, t, sw, w, stride, P, q)
    ensures TableOk(s, t, K) && |sw| == |p.w| && |w[P]| == K + 2
    ensures forall q: nat :: q < P ==> Fresh(sw, w, K, P, q)
  {
    hide Count, Sound;
    assert Numbered(s.center, t, sw, w, stride, P, 0);
    SoundShape(p, s);
    forall i | 0 <= i < |t| && s.center[i] ensures t[i] == Count(s.center, 0, i) {
      BlockBounds(|t|, P, P - 1);
      var q := BlockOf(|t|, P, P - 1, i);
      assert Numbered(s.center, t, sw, w, stride, P, q);
    }
    NumbersApart(p, s, t, K);
    forall q: nat | q < P ensures Fresh(sw, w, K, P, q) {
      assert Numbered(s.center, t, sw, w, stride, P, q);
    }
  }

  lemma SoundShape(p: Points, s: Solution)
    requires Sound(p, s)
    ensures Shape(p, s)
  {
  }

  lemma LoweredAll(p: Points, s: Solution, x: nat, t: seq<nat>, sw: seq<bool>, w: seq<seq<real>>, m: seq<real>, K: nat,
                   P: nat)
    requires Shape(p, s) && TableOk(s, t, K) && |sw| == |p.w| && 1 <= P < |w| && |m| == P && |w[P]| == K + 2
    requires forall q: nat :: q < P ==> Lowered(p, s, x, t, sw, w, m, K, P, q)
    ensures RowsOk(p, s, x, t, w, K, P) && FlagsOk(p, s, x, sw)
    ensures forall q: nat :: q < P ==> m[q] == Sum(SwitchOf(p, s, x), Lo(|p.w|, P, q), Hi(|p.w|, P, q))
  {
    hide RowOk, Sum, Switches, TableOk;
    forall q: nat | q < P
      ensures |w[q]| == K + 2 && RowOk(p, s, x, t, w[q], K, Lo(|p.w|, P, q), Hi(|p.w|, P, q))
      ensures m[q] == Sum(SwitchOf(p, s, x), Lo(|p.w|, P, q), Hi(|p.w|, P, q))
    {
      assert Lowered(p, s, x, t, sw, w, m, K, P, q);
    }
    forall i | 0 <= i < |p.w| ensures sw[i] <==> Switches(p, s, x, i) {
      BlockBounds(|p.w|, P, P - 1);
      var q := BlockOf(|p.w|, P, P - 1, i);
      assert Lowered(p, s, x, t, sw, w, m, K, P, q);
    }
  }

  /** The first two phases: every block is numbered from zero, and its offset is known. */
  method NumberBlocks(center: array<bool>, table: array<nat>, work: array<seq<real>>, P: nat, ghost stride: nat)
    requires 1 <= P < work.Length && table.Length == center.Length && stride >= 1 && Rows(work[..], stride)
    modifies table, work
    ensures forall q: nat :: q < P ==> Ready(center[..], table[..], work[..], P, q)
  {
    hide Counted, Ready, Heads, Offsets, Rows;
    ghost var b := center[..];
    CountAll(center, table, work, P, stride);
    assert center[..] == b;
    ghost var t, w := table[..], work[..];
    CountedHeads(b, t, w, P, stride);
    Accumulate(work, P, b);
    assert center[..] == b && table[..] == t;
    ReadyNow(b, t, w, work[..], P);
  }

  /** The first three phases: number the centres, clear the flags and the working memory. */
  method BuildTable(p: Points, center: array<bool>, table: array<nat>, switched: array<bool>, work: array<seq<real>>,
                    K: nat, P: nat, ghost s: Solution)
    requires Sound(p, s) && center[..] == s.center && table.Length == switched.Length == |p.w| && center != switched
    requires s.k <= K && P >= 1 && work.Length == P + 1 && Rows(work[..], K + 2)
    modifies table, switched, work
    ensures TableOk(s, table[..], K) && |work[P]| == K + 2
    ensures forall q: nat :: q < P ==> Fresh(switched[..], work[..], K, P, q)
  {
    SoundShape(p, s);
    hide Ready, Numbered, Fresh, TableOk, Sound, Rows;
    NumberBlocks(center, table, work, P, K + 2);
    ShiftAll(center, table, switched, work, K + 2, P);
    NumberedAll(p, s, table[..], switched[..], work[..], K, K + 2, P);
  }

  /** The decision: gl_cost_of_opening_x and the number of centres to close, and the common row of lower fields. */
  method Decide(p: Points, assign: array<nat>, cost: array<real>, center: array<bool>, table: array<nat>,
                switched: array<bool>, work: array<seq<real>>, z: real, x: nat, K: nat, P: nat, ghost s: Solution)
    returns (opening: real, number: int)
    requires Shape(p, s) && assign[..] == s.assign && cost[..] == s.cost && center[..] == s.center
      && switched.Length == |p.w|
    requires center != switched && TableOk(s, table[..], K) && P >= 1 && work.Length == P + 1 && |work[P]| == K + 2
    requires forall q: nat :: q < P ==> Fresh(switched[..], work[..], K, P, q)
    modifies switched, work
    ensures opening == Opening(p, s, z, x) && number == Count(Closing(p, s, z, x), 0, |p.w|)
    ensures FlagsOk(p, s, x, switched[..]) && Decided(p, s, z, x, table[..], work[P], K, 0, |p.w|)
  {
    hide Fresh, TableOk, Lowered, RowsOk, FlagsOk, Closed, Decided, Opening, Count, Closing, Sum, Lo, Hi;
    var mine := new real[P];
    LowerAll(p, assign, cost, table, switched, work, mine, x, K, P, s);
    LoweredAll(p, s, x, table[..], switched[..], work[..], mine[..], K, P);
    CloseAll(p, center, table, work, mine, z, K, P, s, x);
    opening, number := Aggregate(p, work, z, K, P, s, x, table[..]);
    AllDecided(p, s, z, x, table[..], work[..], K, P);
  }

  /** pgain: for every number of threads, one step of the specification and its gain. */
  method Pgain(p: Points, assign: array<nat>, cost: array<real>, center: array<bool>, table: array<nat>,
               switched: array<bool>, z: real, x: nat, k: nat, P: nat, line: nat)
    returns (gain: real, k': int)
    requires P >= 1 && line >= 1 && table.Length == switched.Length == |p.w| && center != switched && assign != table
    requires Sound(p, Solution(assign[..], cost[..], center[..], k))
    modifies assign, cost, center, table, switched
    ensures var s := Solution(old(assign[..]), old(cost[..]), old(center[..]), k);
      Shape(p, s) && Solution(assign[..], cost[..], center[..], k') == Step(p, s, z, x) && gain == Gain(p, s, z, x)
  {
    ghost var s := Solution(assign[..], cost[..], center[..], k);
    SoundShape(p, s);
    var K := Stride(k, line) - 2;
    var work := new seq<real>[P + 1](_ => ZeroRow(K + 2));
    hide Sound, TableOk, Fresh, Opening, Count, Closing, FlagsOk, Decided, Clear;
    BuildTable(p, center, table, switched, work, K, P, s);
    var opening, number := Decide(p, assign, cost, center, table, switched, work, z, x, K, P, s);
    if opening < 0.0 {
      hide Opened;
      OpenedCount(p, s, z, x);
      ghost var r := Opened(p, s, z, x);
      ApplyAll(p, assign, cost, center, table, switched, work[P], x, P, s, r, z, K);
      k' := k + 1 - number;
    } else {
      opening := 0.0;
      k' := k;
    }
    gain := -opening;
  }
}
