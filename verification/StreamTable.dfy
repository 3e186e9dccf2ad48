/**
 The first phases of pgain, apps/streamcluster/streamcluster.cpp, lines 996-1036: the P
 threads number the open centres.  Between two barriers the threads may run in any
 order; a thread writes only what belongs to its block or to its own row of the working
 memory, and reads nothing that another thread writes in that phase.
 */
module StreamTable {
  import opened Threads
  import opened StreamSpec
  import opened StreamBlocks

  /** s and t differ at most between lo and hi. */
  ghost predicate SameBut<T>(s: seq<T>, t: seq<T>, lo: nat, hi: nat)
  {
    |s| == |t| && forall i :: 0 <= i < |s| && !(lo <= i < hi) ==> s[i] == t[i]
  }

  // ---------------------------------------------------------------------
  // Numbering the centres, lines 1002-1031
  // ---------------------------------------------------------------------

  /** Thread code: number the centres of one block from zero. */
  method CountBlock(center: array<bool>, table: array<nat>, lo: nat, hi: nat) returns (count: nat)
    requires lo <= hi <= center.Length == table.Length
    modifies table
    ensures count == Count(center[..], lo, hi)
    ensures forall i :: lo <= i < hi && center[i] ==> table[i] == Count(center[..], lo, i)
    ensures SameBut(old(table[..]), table[..], lo, hi)
  {
    count := 0;
    var i := lo;
    while i < hi
      invariant lo <= i <= hi && count == Count(center[..], lo, i)
      invariant forall j :: lo <= j < i && center[j] ==> table[j] == Count(center[..], lo, j)
      invariant forall j :: 0 <= j < table.Length && !(lo <= j < i) ==> table[j] == old(table[j])
    {
      if center[i] {
        table[i] := count;
        count := count + 1;
      }
      i := i + 1;
    }
  }

  /** Block q is numbered from zero and its number of centres heads row q. */
  ghost predicate Counted(b: seq<bool>, table: seq<nat>, work: seq<seq<real>>, P: nat, q: nat)
  {
    && q < P <= |work| && |table| == |b| && |work[q]| >= 1 && Lo(|b|, P, q) <= Hi(|b|, P, q) <= |b|
    && work[q][0] == Count(b, Lo(|b|, P, q), Hi(|b|, P, q)) as real
    && forall i :: InBlock(|b|, P, q, i) && b[i] ==> table[i] == Count(b, Lo(|b|, P, q), i)
  }

  lemma CountedKept(b: seq<bool>, t: seq<nat>, t': seq<nat>, w: seq<seq<real>>, w': seq<seq<real>>, P: nat, p: nat,
                    q: nat)
    requires Counted(b, t, w, P, q) && p < P && p != q
    requires SameBut(t, t', Lo(|b|, P, p), Hi(|b|, P, p)) && |w'| == |w| && w'[q] == w[q]
    ensures Counted(b, t', w', P, q)
  {
    forall i | InBlock(|b|, P, q, i) ensures t'[i] == t[i] {
      BlocksDisjoint(|b|, P, p, q, i);
    }
  }

  /** All rows of the working memory have the same length. */
  ghost predicate Rows(w: seq<seq<real>>, stride: nat)
  {
    forall q: nat :: q < |w| ==> |w[q]| == stride
  }

  /** The first phase, threads in any order. */
  method CountAll(center: array<bool>, table: array<nat>, work: array<seq<real>>, P: nat, ghost stride: nat)
    requires 1 <= P <= work.Length && table.Length == center.Length && stride >= 1 && Rows(work[..], stride)
    modifies table, work
    ensures forall q: nat :: q < P ==> Counted(center[..], table[..], work[..], P, q)
    ensures Rows(work[..], stride)
  {
    ghost var b := center[..];
    var todo := Pool(P);
    while todo != {}
      invariant center[..] == b
      invariant forall q: nat :: q in todo ==> q < P
      invariant Rows(work[..], stride)
      invariant forall q: nat :: q < P && q !in todo ==> Counted(b, table[..], work[..], P, q)
    {
      hide Counted, SameBut;
      var p :| p in todo;
      ghost var t, w := table[..], work[..];
      BlockBounds(center.Length, P, p);
      var count := CountBlock(center, table, Lo(center.Length, P, p), Hi(center.Length, P, p));
      work[p] := work[p][0 := count as real];
      CountedNow(b, table[..], work[..], P, p);
      forall q: nat | q < P && q !in todo ensures Counted(b, table[..], work[..], P, q) {
        CountedKept(b, t, table[..], w, work[..], P, p, q);
      }
      todo := todo - {p};
    }
  }

  lemma CountedNow(b: seq<bool>, table: seq<nat>, work: seq<seq<real>>, P: nat, p: nat)
    requires p < P <= |work| && |table| == |b| && |work[p]| >= 1
    requires Lo(|b|, P, p) <= Hi(|b|, P, p) <= |b|
    requires work[p][0] == Count(b, Lo(|b|, P, p), Hi(|b|, P, p)) as real
    requires forall i :: Lo(|b|, P, p) <= i < Hi(|b|, P, p) && b[i] ==> table[i] == Count(b, Lo(|b|, P, p), i)
    ensures Counted(b, table, work, P, p)
  {
  }

  /** Every row is headed by the number of centres of its block. */
  ghost predicate Heads(b: seq<bool>, w: seq<seq<real>>, P: nat)
  {
    && 1 <= P <= |w| && (forall q: nat :: q < |w| ==> |w[q]| >= 1)
    && (forall q: nat :: q < P ==>
      Lo(|b|, P, q) <= Hi(|b|, P, q) <= |b| && w[q][0] == Count(b, Lo(|b|, P, q), Hi(|b|, P, q)) as real)
  }

  /** Every row is headed by the number of centres in the blocks before its own. */
  ghost predicate Offsets(b: seq<bool>, w: seq<seq<real>>, P: nat)
  {
    && 1 <= P <= |w| && (forall q: nat :: q < |w| ==> |w[q]| >= 1)
    && (forall q: nat :: q < P ==> Lo(|b|, P, q) <= |b| && w[q][0] == Count(b, 0, Lo(|b|, P, q)) as real)
  }

  /** Thread 0 turns the numbers of centres into the number of the first centre of each block. */
  method Accumulate(work: array<seq<real>>, P: nat, ghost b: seq<bool>)
    requires Heads(b, work[..], P)
    modifies work
    ensures Offsets(b, work[..], P)
  {
    var accum := 0;
    var p := 0;
    BlockBounds(|b|, P, 0);
    while p < P
      invariant 0 <= p <= P
      invariant p < P ==> accum == Count(b, 0, Lo(|b|, P, p))
      invariant forall q :: 0 <= q < work.Length ==> |work[q]| >= 1
      invariant forall q: nat :: p <= q < P ==> work[q][0] == Count(b, Lo(|b|, P, q), Hi(|b|, P, q)) as real
      invariant forall q: nat :: q < p ==> work[q][0] == Count(b, 0, Lo(|b|, P, q)) as real
    {
      BlockBounds(|b|, P, p);
      CountSplit(b, 0, Lo(|b|, P, p), Hi(|b|, P, p));
      var tmp := work[p][0].Floor;
      work[p] := work[p][0 := accum as real];
      accum := accum + tmp;
      p := p + 1;
    }
  }

  /** Thread code: final numbers for one block, and clean flags. */
  method ShiftBlock(center: array<bool>, table: array<nat>, switched: array<bool>, offset: nat, lo: nat, hi: nat)
    requires lo <= hi <= center.Length == table.Length == switched.Length && center != switched
    modifies table, switched
    ensures center[..] == old(center[..])
    ensures forall i :: lo <= i < hi && center[i] ==> table[i] == old(table[i]) + offset
    ensures forall i :: lo <= i < hi ==> !switched[i]
    ensures SameBut(old(table[..]), table[..], lo, hi) && SameBut(old(switched[..]), switched[..], lo, hi)
  {
    var i := lo;
    while i < hi
      invariant lo <= i <= hi && center[..] == old(center[..])
      invariant forall j :: lo <= j < i && center[j] ==> table[j] == old(table[j]) + offset
      invariant forall j :: lo <= j < i ==> !switched[j]
      invariant forall j :: 0 <= j < table.Length && !(lo <= j < i) ==>
        table[j] == old(table[j]) && switched[j] == old(switched[j])
    {
      if center[i] {
        table[i] := table[i] + offset;
      }
      switched[i] := false;
      i := i + 1;
    }
  }

  /** Block q carries the final numbers, its flags and its row are clear. */
  ghost predicate Numbered(b: seq<bool>, table: seq<nat>, switched: seq<bool>, work: seq<seq<real>>, stride: nat,
                           P: nat, q: nat)
  {
    && q < P < |work| && |table| == |b| == |switched| && Hi(|b|, P, q) <= |b|
    && Clear(work[q], stride) && (q == 0 ==> Clear(work[P], stride))
    && forall i :: InBlock(|b|, P, q, i) ==> !switched[i] && (b[i] ==> table[i] == Count(b, 0, i))
  }

  ghost predicate Clear(row: seq<real>, stride: nat)
  {
    |row| == stride && forall t :: 0 <= t < stride ==> row[t] == 0.0
  }

  function ZeroRow(stride: nat): (r: seq<real>)
    ensures Clear(r, stride)
  {
    seq(stride, _ => 0.0)
  }

  lemma NumberedKept(b: seq<bool>, t: seq<nat>, t': seq<nat>, sw: seq<bool>, sw': seq<bool>, w: seq<seq<real>>,
                     w': seq<seq<real>>, stride: nat, P: nat, p: nat, q: nat)
    requires Numbered(b, t, sw, w, stride, P, q) && p < P && p != q
    requires SameBut(t, t', Lo(|b|, P, p), Hi(|b|, P, p)) && SameBut(sw, sw', Lo(|b|, P, p), Hi(|b|, P, p))
    requires |w'| == |w| && w'[q] == w[q] && (q == 0 ==> w'[P] == w[P])
    ensures Numbered(b, t', sw', w', stride, P, q)
  {
    forall i | InBlock(|b|, P, q, i) ensures t'[i] == t[i] && sw'[i] == sw[i] {
      BlocksDisjoint(|b|, P, p, q, i);
    }
  }

  /** Block p is numbered from zero, its offset at the head of row p. */
  ghost predicate Ready(b: seq<bool>, t: seq<nat>, w: seq<seq<real>>, P: nat, p: nat)
  {
    && p < P < |w| && |t| == |b| && |w[p]| >= 1 && Lo(|b|, P, p) <= Hi(|b|, P, p) <= |b|
    && w[p][0] == Count(b, 0, Lo(|b|, P, p)) as real
    && forall i :: InBlock(|b|, P, p, i) && b[i] ==> t[i] == Count(b, Lo(|b|, P, p), i)
  }

  lemma ReadyKept(b: seq<bool>, t: seq<nat>, t': seq<nat>, w: seq<seq<real>>, w': seq<seq<real>>, P: nat, p: nat,
                  q: nat)
    requires Ready(b, t, w, P, q) && p < P && p != q
    requires SameBut(t, t', Lo(|b|, P, p), Hi(|b|, P, p)) && |w'| == |w| && w'[q] == w[q]
    ensures Ready(b, t', w', P, q)
  {
    forall i | InBlock(|b|, P, q, i) ensures t'[i] == t[i] {
      BlocksDisjoint(|b|, P, p, q, i);
    }
  }

  lemma NumberedNow(b: seq<bool>, t: seq<nat>, t': seq<nat>, sw: seq<bool>, w: seq<seq<real>>, w': seq<seq<real>>,
                    stride: nat, P: nat, p: nat)
    requires Ready(b, t, w, P, p) && |t'| == |b| == |sw| && |w'| == |w|
    requires forall i :: Lo(|b|, P, p) <= i < Hi(|b|, P, p) && b[i] ==> t'[i] == t[i] + Count(b, 0, Lo(|b|, P, p))
    requires forall i :: Lo(|b|, P, p) <= i < Hi(|b|, P, p) ==> !sw[i]
    requires Clear(w'[p], stride) && (p == 0 ==> Clear(w'[P], stride))
    ensures Numbered(b, t', sw, w', stride, P, p)
  {
    forall i | InBlock(|b|, P, p, i) && b[i] ensures t'[i] == Count(b, 0, i) {
      CountSplit(b, 0, Lo(|b|, P, p), i);
    }
  }

  /** The third phase, threads in any order. */
  method ShiftAll(center: array<bool>, table: array<nat>, switched: array<bool>, work: array<seq<real>>, stride: nat,
                  P: nat)
    requires 1 <= P < work.Length && center.Length == table.Length == switched.Length && center != switched
    requires forall q: nat :: q < P ==> Ready(center[..], table[..], work[..], P, q)
    modifies table, switched, work
    ensures center[..] == old(center[..])
    ensures forall q: nat :: q < P ==> Numbered(center[..], table[..], switched[..], work[..], stride, P, q)
  {
    ghost var b := center[..];
    var todo := Pool(P);
    while todo != {}
      invariant center[..] == b
      invariant forall q: nat :: q in todo ==> q < P && Ready(b, table[..], work[..], P, q)
      invariant forall q: nat :: q < P && q !in todo ==> Numbered(b, table[..], switched[..], work[..], stride, P, q)
    {
      var p :| p in todo;
      ghost var t, sw, w := table[..], switched[..], work[..];
      assert Ready(b, t, w, P, p);
      BlockBounds(center.Length, P, p);
      var offset := work[p][0].Floor;
      hide Ready, Numbered, SameBut, Clear;
      ShiftBlock(center, table, switched, offset, Lo(center.Length, P, p), Hi(center.Length, P, p));
      work[p] := ZeroRow(stride);
      if p == 0 {
        work[P] := ZeroRow(stride);
      }
      NumberedNow(b, t, table[..], switched[..], w, work[..], stride, P, p);
      forall q: nat | q < P && q !in todo ensures Numbered(b, table[..], switched[..], work[..], stride, P, q) {
        NumberedKept(b, t, table[..], sw, switched[..], w, work[..], stride, P, p, q);
      }
      forall q: nat | q in todo && q != p ensures Ready(b, table[..], work[..], P, q) {
        ReadyKept(b, t, table[..], w, work[..], P, p, q);
      }
      todo := todo - {p};
    }
  }
}
