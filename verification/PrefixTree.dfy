/**
 The parallel prefix of apps/radix/radix.c, lines 596-692, run by P = 2^lg
 processors in any interleaving.  SETPAUSE and WAITPAUSE are semaphore post and
 wait; between two synchronisation points a processor takes one step.
 */
module PrefixTree {
  import opened PowerOfTwo
  import opened TreeShape

  datatype Node = Node(dens: seq<int>, ranks: seq<int>)

  datatype Pc =
    | UpLeaf | UpPost | UpWait | UpSum | Bar4
    | DownWait | DownCopy | DownPost | DownSum | Bar5

  /** The locals of one processor; lev counts the rounds of its current climbing loop. */
  datatype Proc = Proc(pc: Pc, lev: nat, offset: nat, base: nat, level: nat, n: nat, rankFf: seq<int>)

  datatype State = State(procs: seq<Proc>, nodes: seq<Node>, sem: seq<nat>)

  /** Each processor's cumulative histogram (key_density) and histogram (rank_me). */
  datatype Input = Input(lg: nat, radix: nat, dens: seq<seq<int>>, ranks: seq<seq<int>>)
  {
    ghost predicate Valid() {
      && radix >= 1
      && |dens| == Pow2(lg) && |ranks| == Pow2(lg)
      && (forall p :: 0 <= p < Pow2(lg) ==> |dens[p]| == radix && |ranks[p]| == radix)
    }

    function P(): nat { Pow2(lg) }
  }

  // ---------------------------------------------------------------------
  // The steps
  // ---------------------------------------------------------------------

  /** The loop that climbs while the processor is in the right subtree. */
  function Climb(offset: nat, base: nat, level: nat): (nat, nat, nat)
  {
    if offset % 2 == 1 then Climb(offset / 2, base + level, level / 2) else (offset, base, level)
  }

  function MyNode(P: nat, p: nat): nat
  {
    if p + 1 == P then 2 * P - 2 else var c := Climb(p, 0, P); c.1 + c.0
  }

  function TheirNode(P: nat, p: nat): nat
  {
    var c := Climb(p, 0, P);
    var d := Climb(c.0 / 2, c.1 + c.2, c.2 / 2);
    d.1 + d.0
  }

  function Add(a: seq<int>, b: seq<int>): (r: seq<int>)
    requires |a| == |b|
    ensures |r| == |a| && forall d :: 0 <= d < |a| ==> r[d] == a[d] + b[d]
  {
    seq(|a|, d requires 0 <= d < |a| => a[d] + b[d])
  }

  /** Every node visited by the loop that adds up left siblings is in the tree. */
  ghost predicate LeftInTree(nodes: seq<Node>, radix: nat, offset: nat, base: nat, level: nat)
  {
    offset != 0 ==>
      && (offset % 2 == 1 ==> base + offset - 1 < |nodes| && |nodes[base + offset - 1].ranks| == radix)
      && LeftInTree(nodes, radix, offset / 2, base + level, level / 2)
  }

  function LeftRanks(nodes: seq<Node>, radix: nat, offset: nat, base: nat, level: nat, d: nat): int
    requires d < radix && LeftInTree(nodes, radix, offset, base, level)
  {
    if offset == 0 then 0
    else
      (if offset % 2 == 1 then nodes[base + offset - 1].ranks[d] else 0)
      + LeftRanks(nodes, radix, offset / 2, base + level, level / 2, d)
  }

  /** The index a processor posts to or waits on next. */
  function SemIndex(inp: Input, s: State, p: nat): int
    requires p < |s.procs|
  {
    var q := s.procs[p];
    match q.pc
    case UpPost => q.base + q.offset / 2
    case UpWait => q.base + q.offset / 2
    case DownWait => MyNode(inp.P(), p)
    case DownPost => q.base + q.offset - 1
    case _ => 0
  }

  predicate Posts(q: Proc)
  {
    (q.pc == UpPost && q.offset % 2 == 0) || (q.pc == DownPost && q.offset % 2 == 1)
  }

  predicate Waits(q: Proc)
  {
    q.pc == UpWait || q.pc == DownWait
  }

  /** What C needs for the next step of p to be defined: indices inside the arrays. */
  ghost predicate Safe(inp: Input, s: State, p: nat)
    requires inp.Valid() && p < inp.P() && |s.procs| == inp.P()
  {
    var q := s.procs[p];
    && (Posts(q) || Waits(q) ==> 0 <= SemIndex(inp, s, p) < |s.sem|)
    && match q.pc
       case UpLeaf => p < |s.nodes|
       case UpSum =>
         var i := q.base + q.offset / 2;
         && i < |s.nodes| && 1 <= q.n < |s.nodes|
         && |s.nodes[q.n].dens| == |s.nodes[q.n - 1].dens| && |s.nodes[q.n].ranks| == |s.nodes[q.n - 1].ranks|
       case DownCopy =>
         MyNode(inp.P(), p) < |s.nodes| && TheirNode(inp.P(), p) < |s.nodes|
       case DownSum =>
         && MyNode(inp.P(), p) < |s.nodes| && |s.nodes[MyNode(inp.P(), p)].dens| == inp.radix
         && LeftInTree(s.nodes, inp.radix, p, 0, inp.P())
       case _ => true
  }

  predicate Enabled(inp: Input, s: State, p: nat)
    requires p < |s.procs|
  {
    var q := s.procs[p];
    && q.pc != Bar4 && q.pc != Bar5
    && (Waits(q) ==> 0 <= SemIndex(inp, s, p) < |s.sem| ==> s.sem[SemIndex(inp, s, p)] > 0)
  }

  ghost function Do(inp: Input, s: State, p: nat): State
    requires inp.Valid() && p < inp.P() && |s.procs| == inp.P()
    requires Safe(inp, s, p) && Enabled(inp, s, p)
  {
    var q := s.procs[p];
    match q.pc
    case UpLeaf =>
      State(s.procs[p := Proc(UpPost, 0, p, inp.P(), inp.P() / 2, p, q.rankFf)],
            s.nodes[p := Node(inp.dens[p], inp.ranks[p])], s.sem)
    case UpPost =>
      if q.offset % 2 == 0 then
        var i := q.base + q.offset / 2;
        State(s.procs[p := q.(pc := Bar4)], s.nodes, s.sem[i := s.sem[i] + 1])
      else
        s.(procs := s.procs[p := q.(pc := UpWait)])
    case UpWait =>
      var i := q.base + q.offset / 2;
      State(s.procs[p := q.(pc := UpSum)], s.nodes, s.sem[i := s.sem[i] - 1])
    case UpSum =>
      var i := q.base + q.offset / 2;
      var r, l := s.nodes[q.n], s.nodes[q.n - 1];
      var ranks := if q.offset / 2 != q.level - 1 then Add(r.ranks, l.ranks) else s.nodes[i].ranks;
      State(s.procs[p := Proc(UpPost, q.lev + 1, q.offset / 2, q.base + q.level, q.level / 2, i, q.rankFf)],
            s.nodes[i := Node(Add(r.dens, l.dens), ranks)], s.sem)
    case DownWait =>
      var i := MyNode(inp.P(), p);
      State(s.procs[p := q.(pc := DownCopy)], s.nodes, s.sem[i := s.sem[i] - 1])
    case DownCopy =>
      var i := MyNode(inp.P(), p);
      var t := TheirNode(inp.P(), p);
      State(s.procs[p := Proc(DownPost, 0, p, 0, inp.P(), q.n, q.rankFf)],
            s.nodes[i := s.nodes[i].(dens := s.nodes[t].dens)], s.sem)
    case DownPost =>
      if q.offset % 2 == 1 then
        var i := q.base + q.offset - 1;
        State(s.procs[p := Proc(DownPost, q.lev + 1, q.offset / 2, q.base + q.level, q.level / 2, q.n, q.rankFf)],
              s.nodes, s.sem[i := s.sem[i] + 1])
      else
        s.(procs := s.procs[p := q.(pc := DownSum)])
    case DownSum =>
      var my := s.nodes[MyNode(inp.P(), p)];
      var ff := seq(inp.radix, d requires 0 <= d < inp.radix =>
        LeftRanks(s.nodes, inp.radix, p, 0, inp.P(), d) + if d > 0 then my.dens[d - 1] else 0);
      s.(procs := s.procs[p := q.(pc := Bar5, rankFf := ff)])
  }

  /** One step of processor p; a step that C leaves undefined may do anything. */
  ghost predicate Step(inp: Input, s: State, s': State, p: nat)
    requires inp.Valid() && p < inp.P() && |s.procs| == inp.P()
  {
    Enabled(inp, s, p) && (Safe(inp, s, p) ==> s' == Do(inp, s, p))
  }

  /** The barrier between the sweeps: all processors leave it together. */
  ghost predicate Barrier(inp: Input, s: State, s': State)
    requires inp.Valid() && |s.procs| == inp.P()
  {
    && (forall p :: 0 <= p < inp.P() ==> s.procs[p].pc == Bar4)
    && s' == s.(procs := seq(inp.P(), p requires 0 <= p < inp.P() => AfterBarrier(inp.P(), p, s.procs[p])))
  }

  function AfterBarrier(P: nat, p: nat, q: Proc): Proc
  {
    if p == P - 1 then Proc(DownPost, 0, p, 0, P, q.n, q.rankFf) else q.(pc := DownWait)
  }

  ghost predicate Next(inp: Input, s: State, s': State)
    requires inp.Valid()
  {
    |s.procs| == inp.P() && (Barrier(inp, s, s') || exists p: nat | p < inp.P() :: Step(inp, s, s', p))
  }

  /** The tree is allocated, its semaphores are at zero and everybody is about to enter. */
  ghost predicate Init(inp: Input, s: State)
    requires inp.Valid()
  {
    && |s.procs| == inp.P() && |s.nodes| >= 2 * inp.P() && |s.sem| >= 2 * inp.P()
    && (forall p :: 0 <= p < inp.P() ==> s.procs[p].pc == UpLeaf)
    && (forall i :: 0 <= i < |s.nodes| ==> |s.nodes[i].dens| == inp.radix && |s.nodes[i].ranks| == inp.radix)
    && (forall i :: 0 <= i < 2 * inp.P() - 1 ==> s.sem[i] == 0)
  }

  /** A sequence of states each of which follows from the one before. */
  ghost predicate Trace(inp: Input, tr: seq<State>)
    requires inp.Valid()
  {
    |tr| >= 1 && forall k :: 0 <= k < |tr| - 1 ==> Next(inp, tr[k], tr[k + 1])
  }

  ghost predicate Run(inp: Input, tr: seq<State>)
    requires inp.Valid()
  {
    Trace(inp, tr) && Init(inp, tr[0])
  }

  // ---------------------------------------------------------------------
  // Sums over the leaves
  // ---------------------------------------------------------------------

  ghost function Sum(v: seq<seq<int>>, d: nat, lo: nat, hi: nat): int
    requires hi <= |v| && forall p :: 0 <= p < |v| ==> d < |v[p]|
    decreases hi
  {
    if hi <= lo then 0 else Sum(v, d, lo, hi - 1) + v[hi - 1][d]
  }

  lemma {:induction false} SumSplit(v: seq<seq<int>>, d: nat, lo: nat, mid: nat, hi: nat)
    requires lo <= mid <= hi <= |v| && forall p :: 0 <= p < |v| ==> d < |v[p]|
    ensures Sum(v, d, lo, mid) + Sum(v, d, mid, hi) == Sum(v, d, lo, hi)
  {
    if mid < hi { SumSplit(v, d, lo, mid, hi - 1); }
  }

  /** a holds, digit by digit, the sum of the leaves below node o of level l. */
  ghost predicate SumsBelow(inp: Input, v: seq<seq<int>>, a: seq<int>, l: nat, o: nat)
    requires inp.Valid() && (v == inp.dens || v == inp.ranks)
  {
    && First(l, o + 1) <= inp.P() && |a| == inp.radix
    && forall d :: 0 <= d < inp.radix ==> a[d] == Sum(v, d, First(l, o), First(l, o + 1))
  }

  lemma SumsJoin(inp: Input, v: seq<seq<int>>, a: seq<int>, b: seq<int>, l: nat, o: nat)
    requires inp.Valid() && (v == inp.dens || v == inp.ranks)
    requires SumsBelow(inp, v, a, l, 2 * o) && SumsBelow(inp, v, b, l, 2 * o + 1)
    ensures SumsBelow(inp, v, Add(b, a), l + 1, o)
  {
    FirstGrows(l, 2 * o, 2 * o + 1);
    FirstGrows(l, 2 * o + 1, 2 * o + 2);
    forall d | 0 <= d < inp.radix ensures Add(b, a)[d] == Sum(v, d, First(l + 1, o), First(l + 1, o + 1)) {
      SumSplit(v, d, First(l, 2 * o), First(l, 2 * o + 1), First(l, 2 * o + 2));
    }
  }

  // ---------------------------------------------------------------------
  // What holds during the up-sweep
  // ---------------------------------------------------------------------

  function Index(inp: Input, l: nat, o: nat): nat
  {
    Base(inp.lg, l) + o
  }

  ghost predicate InTree(inp: Input, l: nat, o: nat)
  {
    l <= inp.lg && o < Width(inp.lg, l)
  }

  ghost predicate Shape(inp: Input, s: State)
    requires inp.Valid()
  {
    && |s.procs| == inp.P() && |s.nodes| >= 2 * inp.P() && |s.sem| >= 2 * inp.P()
    && (forall i :: 0 <= i < |s.nodes| ==> |s.nodes[i].dens| == inp.radix && |s.nodes[i].ranks| == inp.radix)
  }

  /** A processor that has finished node `offset` of level `lev`, the last one on its path so far. */
  ghost predicate ProcUp(inp: Input, q: Proc, p: nat)
  {
    && q.pc in {UpLeaf, UpPost, UpWait, UpSum, Bar4}
    && (q.pc != UpLeaf ==>
          && InTree(inp, q.lev, q.offset) && Owner(q.lev, q.offset) == p
          && q.n == Index(inp, q.lev, q.offset)
          && q.base == Base(inp.lg, q.lev + 1) && q.level == Width(inp.lg, q.lev + 1)
          && (q.pc == UpWait || q.pc == UpSum ==> q.offset % 2 == 1)
          && (q.pc == Bar4 ==> q.offset % 2 == 0))
  }

  /** Node o of level l holds its final sums. */
  ghost predicate Done(s: State, l: nat, o: nat)
  {
    Owner(l, o) < |s.procs| && var q := s.procs[Owner(l, o)]; q.pc != UpLeaf && l <= q.lev
  }

  /** The owner of the left node o has announced it to the parent. */
  ghost predicate Posted(s: State, l: nat, o: nat)
  {
    Owner(l, o) < |s.procs| && s.procs[Owner(l, o)].pc == Bar4
  }

  /** The owner of node o of level l has seen the announcement of the left child. */
  ghost predicate Waited(s: State, l: nat, o: nat)
  {
    && Owner(l, o) < |s.procs|
    && var q := s.procs[Owner(l, o)]; Done(s, l, o) || (q.pc == UpSum && q.lev + 1 == l)
  }

  function Bit(b: bool): int { if b then 1 else 0 }

  /** The rightmost node of an inner level never gets its ranks; nobody reads them. */
  ghost predicate Rightmost(inp: Input, l: nat, o: nat)
  {
    l > 0 && o == Width(inp.lg, l) - 1
  }

  ghost predicate NodeSums(inp: Input, n: Node, l: nat, o: nat)
    requires inp.Valid()
  {
    && SumsBelow(inp, inp.dens, n.dens, l, o)
    && (!Rightmost(inp, l, o) ==> SumsBelow(inp, inp.ranks, n.ranks, l, o))
  }

  ghost predicate SumsUp(inp: Input, s: State, l: nat, o: nat)
    requires inp.Valid() && Shape(inp, s)
  {
    && Index(inp, l, o) < 2 * inp.P() - 1
    && (Done(s, l, o) ==> NodeSums(inp, s.nodes[Index(inp, l, o)], l, o))
  }

  /** An inner node's semaphore counts the announcement of its left child until the owner takes it. */
  ghost predicate SemUp(inp: Input, s: State, l: nat, o: nat)
    requires inp.Valid() && Shape(inp, s)
  {
    && Index(inp, l, o) < 2 * inp.P() - 1
    && s.sem[Index(inp, l, o)] == if l == 0 then 0 else Bit(Posted(s, l - 1, 2 * o)) - Bit(Waited(s, l, o))
  }

  ghost predicate InvUp(inp: Input, s: State)
    requires inp.Valid()
  {
    && Shape(inp, s)
    && (forall p: nat :: p < inp.P() ==> ProcUp(inp, s.procs[p], p))
    && (forall l: nat, o: nat :: InTree(inp, l, o) ==> SumsUp(inp, s, l, o) && SemUp(inp, s, l, o))
  }

  lemma UpFacts(inp: Input, s: State, p: nat, l: nat, o: nat)
    requires inp.Valid() && InvUp(inp, s) && p < inp.P() && InTree(inp, l, o)
    ensures Shape(inp, s) && ProcUp(inp, s.procs[p], p) && SumsUp(inp, s, l, o) && SemUp(inp, s, l, o)
  {
    hide Shape, ProcUp, SumsUp, SemUp, InTree;
  }

  lemma OwnerOfParent(l: nat, o: nat)
    ensures Owner(l + 1, o) == Owner(l, 2 * o + 1)
  {
  }

  /** A leaf lies at the right end of a chain of right children and of nothing else. */
  lemma SameOwner(l: nat, o: nat, l': nat, o': nat)
    requires Owner(l, o) == Owner(l', o')
    ensures l == l' ==> o == o'
    ensures o % 2 == 0 && o' % 2 == 0 ==> l == l'
    ensures l < l' ==> o % 2 == 1
    ensures l' == l + 1 ==> o' == o / 2
  {
    OwnerBits(l, o, l);
    OwnerBits(l', o', l');
    if l < l' { OwnerBits(l', o', l); }
    if l' < l { OwnerBits(l, o, l'); }
    if l' == l + 1 { OwnerBelow(l', o'); }
  }

  /** The part of a step lemma that concerns one processor: its own entry. */
  ghost predicate UpReady(inp: Input, s: State, p: nat, pc: Pc)
    requires inp.Valid()
  {
    Shape(inp, s) && p < inp.P() && ProcUp(inp, s.procs[p], p) && s.procs[p].pc == pc
  }

  lemma UpAssemble(inp: Input, s: State, s': State, p: nat)
    requires inp.Valid() && InvUp(inp, s) && p < inp.P() && Shape(inp, s')
    requires s'.procs == s.procs[p := s'.procs[p]] && ProcUp(inp, s'.procs[p], p)
    requires forall l: nat, o: nat :: InTree(inp, l, o) ==> SumsUp(inp, s', l, o) && SemUp(inp, s', l, o)
    ensures InvUp(inp, s')
  {
    hide ProcUp, SumsUp, SemUp, InTree;
  }

  lemma UpLeafNode(inp: Input, s: State, s': State, p: nat, l: nat, o: nat)
    requires inp.Valid() && UpReady(inp, s, p, UpLeaf) && InTree(inp, l, o)
    requires s'.procs == s.procs[p := Proc(UpPost, 0, p, inp.P(), inp.P() / 2, p, s.procs[p].rankFf)]
    requires s'.nodes == s.nodes[p := Node(inp.dens[p], inp.ranks[p])] && s'.sem == s.sem
    requires SumsUp(inp, s, l, o) && SemUp(inp, s, l, o)
    ensures SumsUp(inp, s', l, o) && SemUp(inp, s', l, o)
  {
    Halves(inp.lg, 0);
    IndexInjective(inp.lg, l, o, 0, p);
    assert Owner(0, o) == o;
    LeafSums(inp, p);
  }

  lemma LeafSums(inp: Input, p: nat)
    requires inp.Valid() && p < inp.P()
    ensures NodeSums(inp, Node(inp.dens[p], inp.ranks[p]), 0, p)
  {
    assert First(0, p) == p && First(0, p + 1) == p + 1;
    assert forall d :: 0 <= d < inp.radix ==> Sum(inp.dens, d, p, p + 1) == Sum(inp.dens, d, p, p) + inp.dens[p][d];
    assert forall d :: 0 <= d < inp.radix ==> Sum(inp.ranks, d, p, p + 1) == Sum(inp.ranks, d, p, p) + inp.ranks[p][d];
  }

  /** Where the parent of a node sits; above the root it is one past the tree. */
  lemma ParentIndex(inp: Input, l: nat, o: nat)
    requires inp.Valid() && InTree(inp, l, o)
    ensures Base(inp.lg, l + 1) + o / 2 < 2 * inp.P()
    ensures l < inp.lg ==> InTree(inp, l + 1, o / 2) && Base(inp.lg, l + 1) + o / 2 < 2 * inp.P() - 1
    ensures o % 2 == 1 ==> l < inp.lg
    ensures l == inp.lg ==> Base(inp.lg, l + 1) + o / 2 == 2 * inp.P() - 1
  {
    Halves(inp.lg, l);
    if l < inp.lg {
      IndexInjective(inp.lg, l + 1, o / 2, l + 1, o / 2);
    } else {
      BaseIsTotal(inp.lg, l + 1);
    }
  }

  lemma UpPostNode(inp: Input, s: State, s': State, p: nat, i: nat, l: nat, o: nat)
    requires inp.Valid() && UpReady(inp, s, p, UpPost) && s.procs[p].offset % 2 == 0
    requires i == s.procs[p].base + s.procs[p].offset / 2 < |s.sem|
    requires s' == State(s.procs[p := s.procs[p].(pc := Bar4)], s.nodes, s.sem[i := s.sem[i] + 1])
    requires InTree(inp, l, o) && SumsUp(inp, s, l, o) && SemUp(inp, s, l, o)
    ensures SumsUp(inp, s', l, o) && SemUp(inp, s', l, o)
  {
    hide First, Base, Width, Pow2, NodeSums;
    var q := s.procs[p];
    ParentIndex(inp, q.lev, q.offset);
    if l > 0 && Owner(l - 1, 2 * o) == p {
      SameOwner(l - 1, 2 * o, q.lev, q.offset);
    } else if q.lev < inp.lg {
      IndexInjective(inp.lg, l, o, q.lev + 1, q.offset / 2);
    }
  }

  lemma UpWaitNode(inp: Input, s: State, s': State, p: nat, i: nat, l: nat, o: nat)
    requires inp.Valid() && UpReady(inp, s, p, UpWait)
    requires i == s.procs[p].base + s.procs[p].offset / 2 < |s.sem| && s.sem[i] > 0
    requires s' == State(s.procs[p := s.procs[p].(pc := UpSum)], s.nodes, s.sem[i := s.sem[i] - 1])
    requires InTree(inp, l, o) && SumsUp(inp, s, l, o) && SemUp(inp, s, l, o)
    ensures SumsUp(inp, s', l, o) && SemUp(inp, s', l, o)
  {
    hide First, Base, Width, Pow2, NodeSums;
    var q := s.procs[p];
    ParentIndex(inp, q.lev, q.offset);
    if Owner(l, o) == p && l == q.lev + 1 {
      SameOwner(q.lev, q.offset, l, o);
    } else {
      IndexInjective(inp.lg, l, o, q.lev + 1, q.offset / 2);
    }
  }

  /** A processor past its wait can rely on the left sibling: its owner has finished and posted. */
  lemma LeftSiblingDone(inp: Input, s: State, p: nat)
    requires inp.Valid() && InvUp(inp, s) && UpReady(inp, s, p, UpSum)
    ensures var q := s.procs[p];
      q.offset % 2 == 1 && q.lev < inp.lg && InTree(inp, q.lev, q.offset - 1) && Done(s, q.lev, q.offset - 1)
  {
    hide First, Base, Width, Pow2, InvUp, SumsUp;
    var q := s.procs[p];
    var o := q.offset / 2;
    ParentIndex(inp, q.lev, q.offset);
    UpFacts(inp, s, p, q.lev + 1, o);
    OwnerOfParent(q.lev, o);
    assert Posted(s, q.lev, 2 * o);
    hide Owner;
    LeftIsDone(inp, s, q.lev, q.offset);
  }

  lemma LeftIsDone(inp: Input, s: State, l: nat, o: nat)
    requires inp.Valid() && Shape(inp, s) && InvUp(inp, s) && InTree(inp, l, o) && o % 2 == 1 && Posted(s, l, o - 1)
    ensures InTree(inp, l, o - 1) && Done(s, l, o - 1)
  {
    hide First, Base, Width, Pow2, InvUp, SumsUp, SemUp, Owner;
    var p := Owner(l, o - 1);
    UpFacts(inp, s, p, l, o);
    SameOwner(l, o - 1, s.procs[p].lev, s.procs[p].offset);
  }

  /** When a processor adds its two children, both hold their final sums. */
  lemma ChildrenReady(inp: Input, s: State, p: nat)
    requires inp.Valid() && InvUp(inp, s) && UpReady(inp, s, p, UpSum)
    ensures var q := s.procs[p];
      && q.offset % 2 == 1 && q.lev < inp.lg && 1 <= q.n < 2 * inp.P()
      && NodeSums(inp, s.nodes[q.n], q.lev, q.offset) && NodeSums(inp, s.nodes[q.n - 1], q.lev, q.offset - 1)
  {
    hide NodeSums, SemUp, InvUp, Owner, Width, Base;
    LeftSiblingDone(inp, s, p);
    var q := s.procs[p];
    UpFacts(inp, s, p, q.lev, q.offset - 1);
    UpFacts(inp, s, p, q.lev, q.offset);
  }

  /** The node that UpSum writes. */
  ghost function Joined(q: Proc, r: Node, l: Node, old_: Node): Node
    requires |r.dens| == |l.dens| && |r.ranks| == |l.ranks|
  {
    Node(Add(r.dens, l.dens), if q.offset / 2 != q.level - 1 then Add(r.ranks, l.ranks) else old_.ranks)
  }

  /** Skipping the ranks of the rightmost node loses nothing: only its ancestors are without ranks too. */
  lemma JoinedSums(inp: Input, q: Proc, r: Node, l: Node, old_: Node)
    requires inp.Valid() && InTree(inp, q.lev, q.offset) && q.offset % 2 == 1 && q.lev < inp.lg
    requires q.level == Width(inp.lg, q.lev + 1)
    requires NodeSums(inp, r, q.lev, q.offset) && NodeSums(inp, l, q.lev, q.offset - 1)
    requires |r.ranks| == |l.ranks| == inp.radix
    ensures NodeSums(inp, Joined(q, r, l, old_), q.lev + 1, q.offset / 2)
  {
    var o := q.offset / 2;
    Halves(inp.lg, q.lev);
    SumsJoin(inp, inp.dens, l.dens, r.dens, q.lev, o);
    if q.offset / 2 != q.level - 1 {
      SumsJoin(inp, inp.ranks, l.ranks, r.ranks, q.lev, o);
    }
  }

  lemma UpSumNode(inp: Input, s: State, s': State, p: nat, i: nat, n: Node, l: nat, o: nat)
    requires inp.Valid() && UpReady(inp, s, p, UpSum) && InTree(inp, l, o)
    requires i == s.procs[p].base + s.procs[p].offset / 2 < |s.nodes|
    requires var q := s.procs[p];
      && NodeSums(inp, n, q.lev + 1, q.offset / 2) && |n.ranks| == inp.radix
      && s' == State(s.procs[p := Proc(UpPost, q.lev + 1, q.offset / 2, q.base + q.level, q.level / 2, i, q.rankFf)],
                     s.nodes[i := n], s.sem)
    requires SumsUp(inp, s, l, o) && SemUp(inp, s, l, o)
    ensures SumsUp(inp, s', l, o) && SemUp(inp, s', l, o)
  {
    hide First, Base, Width, Pow2, NodeSums;
    var q := s.procs[p];
    ParentIndex(inp, q.lev, q.offset);
    IndexInjective(inp.lg, l, o, q.lev + 1, q.offset / 2);
    if Owner(l, o) == p && l == q.lev + 1 {
      SameOwner(q.lev, q.offset, l, o);
    }
  }

  lemma UpSumProc(inp: Input, q: Proc, p: nat, i: nat)
    requires inp.Valid() && ProcUp(inp, q, p) && q.pc == UpSum && i == q.base + q.offset / 2
    ensures ProcUp(inp, Proc(UpPost, q.lev + 1, q.offset / 2, q.base + q.level, q.level / 2, i, q.rankFf), p)
  {
    ParentIndex(inp, q.lev, q.offset);
    Halves(inp.lg, q.lev + 1);
  }

  lemma UpLeafStep(inp: Input, s: State, p: nat)
    requires inp.Valid() && InvUp(inp, s) && UpReady(inp, s, p, UpLeaf)
    ensures Safe(inp, s, p) && InvUp(inp, Do(inp, s, p))
  {
    hide SumsUp, SemUp;
    var s' := Do(inp, s, p);
    Halves(inp.lg, 0);
    forall l: nat, o: nat | InTree(inp, l, o) ensures SumsUp(inp, s', l, o) && SemUp(inp, s', l, o) {
      UpLeafNode(inp, s, s', p, l, o);
    }
    assert Base(inp.lg, 1) == Base(inp.lg, 0) + Width(inp.lg, 0);
    UpAssemble(inp, s, s', p);
  }

  lemma UpTurnStep(inp: Input, s: State, p: nat)
    requires inp.Valid() && InvUp(inp, s) && UpReady(inp, s, p, UpPost) && s.procs[p].offset % 2 == 1
    ensures Safe(inp, s, p) && InvUp(inp, Do(inp, s, p))
  {
    hide First, Base, Width, Pow2, Owner, NodeSums, InvUp, InTree;
    var s' := Do(inp, s, p);
    forall l: nat, o: nat | InTree(inp, l, o) ensures SumsUp(inp, s', l, o) && SemUp(inp, s', l, o) {
      UpFacts(inp, s, p, l, o);
    }
    UpAssemble(inp, s, s', p);
  }

  lemma UpPostStep(inp: Input, s: State, p: nat)
    requires inp.Valid() && InvUp(inp, s) && UpReady(inp, s, p, UpPost) && s.procs[p].offset % 2 == 0
    ensures Safe(inp, s, p) && InvUp(inp, Do(inp, s, p))
  {
    hide First, Base, Width, Pow2, Owner, SumsUp, SemUp, InvUp;
    var q := s.procs[p];
    ParentIndex(inp, q.lev, q.offset);
    var s' := Do(inp, s, p);
    forall l: nat, o: nat | InTree(inp, l, o) ensures SumsUp(inp, s', l, o) && SemUp(inp, s', l, o) {
      UpFacts(inp, s, p, l, o);
      UpPostNode(inp, s, s', p, q.base + q.offset / 2, l, o);
    }
    UpAssemble(inp, s, s', p);
  }

  lemma UpWaitStep(inp: Input, s: State, p: nat)
    requires inp.Valid() && InvUp(inp, s) && UpReady(inp, s, p, UpWait)
    ensures Safe(inp, s, p)
    ensures Enabled(inp, s, p) ==> InvUp(inp, Do(inp, s, p))
  {
    hide SumsUp, SemUp;
    var q := s.procs[p];
    ParentIndex(inp, q.lev, q.offset);
    if Enabled(inp, s, p) {
      var s' := Do(inp, s, p);
      forall l: nat, o: nat | InTree(inp, l, o) ensures SumsUp(inp, s', l, o) && SemUp(inp, s', l, o) {
        UpWaitNode(inp, s, s', p, q.base + q.offset / 2, l, o);
      }
      UpAssemble(inp, s, s', p);
    }
  }

  lemma UpSumStep(inp: Input, s: State, p: nat)
    requires inp.Valid() && InvUp(inp, s) && UpReady(inp, s, p, UpSum)
    ensures Safe(inp, s, p) && InvUp(inp, Do(inp, s, p))
  {
    hide First, Base, Width, Pow2, Owner, SumsUp, SemUp, NodeSums;
    var q := s.procs[p];
    ParentIndex(inp, q.lev, q.offset);
    ChildrenReady(inp, s, p);
    var s' := Do(inp, s, p);
    var i := q.base + q.offset / 2;
    var n := Joined(q, s.nodes[q.n], s.nodes[q.n - 1], s.nodes[i]);
    JoinedSums(inp, q, s.nodes[q.n], s.nodes[q.n - 1], s.nodes[i]);
    forall l: nat, o: nat | InTree(inp, l, o) ensures SumsUp(inp, s', l, o) && SemUp(inp, s', l, o) {
      UpSumNode(inp, s, s', p, i, n, l, o);
    }
    UpSumProc(inp, q, p, i);
    UpAssemble(inp, s, s', p);
  }

  // ---------------------------------------------------------------------
  // The nodes a processor meets on the way down
  // ---------------------------------------------------------------------

  /** Where climbing from node o of level l ends: the first left child, or the root. */
  function Top(l: nat, o: nat): (nat, nat)
    decreases o
  {
    if o % 2 == 1 then Top(l + 1, o / 2) else (l, o)
  }

  lemma {:induction false} ClimbIsTop(inp: Input, l: nat, o: nat)
    requires inp.Valid() && InTree(inp, l, o)
    ensures var t := Top(l, o);
      && InTree(inp, t.0, t.1) && Owner(t.0, t.1) == Owner(l, o) && t.1 % 2 == 0
      && Climb(o, Base(inp.lg, l), Width(inp.lg, l)) == (t.1, Base(inp.lg, t.0), Width(inp.lg, t.0))
    decreases o
  {
    if o % 2 == 1 {
      ParentIndex(inp, l, o);
      Halves(inp.lg, l);
      ClimbIsTop(inp, l + 1, o / 2);
    }
  }

  /** The last processor is the right end of the root. */
  lemma LastOwnsRoot(inp: Input)
    requires inp.Valid()
    ensures Owner(inp.lg, 0) == inp.P() - 1 && InTree(inp, inp.lg, 0) && Index(inp, inp.lg, 0) == 2 * inp.P() - 2
  {
    OwnerBelow(inp.lg, 0);
    LevelEnds(inp.lg, inp.lg);
    BaseIsTotal(inp.lg, inp.lg);
    assert Width(inp.lg, inp.lg) == 1;
  }

  /** my_node is the left child (or root) with the processor at its right end. */
  lemma MyNodeIs(inp: Input, p: nat, l: nat, o: nat)
    requires inp.Valid() && InTree(inp, l, o) && o % 2 == 0 && Owner(l, o) == p
    ensures p < inp.P() && MyNode(inp.P(), p) == Index(inp, l, o) < 2 * inp.P() - 1
    ensures p + 1 == inp.P() <==> l == inp.lg
  {
    OwnerInRange(inp.lg, l, o);
    IndexInjective(inp.lg, l, o, l, o);
    LastOwnsRoot(inp);
    if p + 1 == inp.P() {
      SameOwner(l, o, inp.lg, 0);
    } else {
      LeafInTree(inp, p);
      ClimbIsTop(inp, 0, p);
      var t := Top(0, p);
      SameOwner(t.0, t.1, l, o);
    }
  }

  lemma LeafInTree(inp: Input, p: nat)
    requires inp.Valid() && p < inp.P()
    ensures InTree(inp, 0, p) && Owner(0, p) == p && Base(inp.lg, 0) == 0 && Width(inp.lg, 0) == inp.P()
  {
  }

  /** The left child p is the right end of; below the root it has a right sibling, whose owner is q. */
  lemma TheirNodeIs(inp: Input, p: nat) returns (l: nat, o: nat)
    requires inp.Valid() && p + 1 < inp.P()
    ensures InTree(inp, l, o) && o % 2 == 0 && Owner(l, o) == p && l < inp.lg && InTree(inp, l, o + 1)
    ensures MyNode(inp.P(), p) == Index(inp, l, o) < 2 * inp.P() - 1
    ensures Owner(l, o + 1) < inp.P()
    ensures TheirNode(inp.P(), p) == MyNode(inp.P(), Owner(l, o + 1)) < 2 * inp.P() - 1
  {
    hide First, Pow2, Shr, MyNode, Owner, Top;
    LeafInTree(inp, p);
    ClimbIsTop(inp, 0, p);
    l, o := Top(0, p).0, Top(0, p).1;
    OwnerOfLeaf(p);
    MyNodeIs(inp, p, l, o);
    Halves(inp.lg, l);
    OwnerOfParent(l, o / 2);
    ParentIndex(inp, l, o);
    ClimbIsTop(inp, l + 1, o / 2);
    var t := Top(l + 1, o / 2);
    MyNodeIs(inp, Owner(l, o + 1), t.0, t.1);
  }

  lemma OwnerOfLeaf(p: nat)
    ensures Owner(0, p) == p
  {
  }

  // ---------------------------------------------------------------------
  // What holds during the down-sweep
  // ---------------------------------------------------------------------

  /** The cumulative histogram of all keys. */
  ghost predicate Total(inp: Input, a: seq<int>)
    requires inp.Valid()
  {
    |a| == inp.radix && forall d :: 0 <= d < inp.radix ==> a[d] == Sum(inp.dens, d, 0, inp.P())
  }

  /** Where processor p's keys of each digit start. */
  ghost predicate RanksFor(inp: Input, p: nat, ff: seq<int>)
    requires inp.Valid() && p < inp.P()
  {
    && |ff| == inp.radix
    && forall d :: 0 <= d < inp.radix ==>
         ff[d] == Sum(inp.ranks, d, 0, p) + if d > 0 then Sum(inp.dens, d - 1, 0, inp.P()) else 0
  }

  ghost predicate ProcDown(inp: Input, q: Proc, p: nat)
    requires inp.Valid() && p < inp.P()
  {
    && q.pc in {DownWait, DownCopy, DownPost, DownSum, Bar5}
    && (q.pc == DownWait || q.pc == DownCopy ==> p + 1 < inp.P())
    && (q.pc == DownPost ==>
          && InTree(inp, q.lev, q.offset) && Owner(q.lev, q.offset) == p
          && q.base == Base(inp.lg, q.lev) && q.level == Width(inp.lg, q.lev))
    && (q.pc == Bar5 ==> RanksFor(inp, p, q.rankFf))
  }

  ghost predicate Copied(inp: Input, s: State, p: nat)
    requires inp.Valid() && Shape(inp, s) && p < inp.P()
  {
    && MyNode(inp.P(), p) < 2 * inp.P() - 1
    && (s.procs[p].pc in {DownPost, DownSum, Bar5} ==> Total(inp, s.nodes[MyNode(inp.P(), p)].dens))
  }

  /** The owner of the right sibling of node o has told it to go on. */
  ghost predicate Released(s: State, l: nat, o: nat)
  {
    && Owner(l, o + 1) < |s.procs|
    && var q := s.procs[Owner(l, o + 1)];
       q.pc == DownSum || q.pc == Bar5 || (q.pc == DownPost && l < q.lev)
  }

  ghost predicate Took(s: State, l: nat, o: nat)
  {
    Owner(l, o) < |s.procs| && s.procs[Owner(l, o)].pc != DownWait
  }

  ghost predicate SemDown(inp: Input, s: State, l: nat, o: nat)
    requires inp.Valid() && Shape(inp, s)
  {
    && Index(inp, l, o) < 2 * inp.P() - 1
    && s.sem[Index(inp, l, o)] == if l < inp.lg && o % 2 == 0 then Bit(Released(s, l, o)) - Bit(Took(s, l, o)) else 0
  }

  ghost predicate RanksDown(inp: Input, s: State, l: nat, o: nat)
    requires inp.Valid() && Shape(inp, s)
  {
    && Index(inp, l, o) < 2 * inp.P() - 1
    && (!Rightmost(inp, l, o) ==> SumsBelow(inp, inp.ranks, s.nodes[Index(inp, l, o)].ranks, l, o))
  }

  ghost predicate InvDown(inp: Input, s: State)
    requires inp.Valid()
  {
    && Shape(inp, s)
    && (forall p: nat :: p < inp.P() ==> ProcDown(inp, s.procs[p], p) && Copied(inp, s, p))
    && (forall l: nat, o: nat :: InTree(inp, l, o) ==> SemDown(inp, s, l, o) && RanksDown(inp, s, l, o))
  }

  ghost predicate DownReady(inp: Input, s: State, p: nat, pc: Pc)
    requires inp.Valid()
  {
    Shape(inp, s) && p < inp.P() && ProcDown(inp, s.procs[p], p) && Copied(inp, s, p) && s.procs[p].pc == pc
  }

  lemma DownAssemble(inp: Input, s: State, s': State, p: nat)
    requires inp.Valid() && InvDown(inp, s) && p < inp.P() && Shape(inp, s')
    requires s'.procs == s.procs[p := s'.procs[p]] && ProcDown(inp, s'.procs[p], p)
    requires forall p': nat :: p' < inp.P() ==> Copied(inp, s', p')
    requires forall l: nat, o: nat :: InTree(inp, l, o) ==> SemDown(inp, s', l, o) && RanksDown(inp, s', l, o)
    ensures InvDown(inp, s')
  {
    hide ProcDown, Copied, SemDown, RanksDown, InTree;
  }

  lemma DownWaitNode(inp: Input, s: State, s': State, p: nat, i: nat, l: nat, o: nat)
    requires inp.Valid() && DownReady(inp, s, p, DownWait)
    requires i == MyNode(inp.P(), p) < |s.sem| && s.sem[i] > 0
    requires s' == State(s.procs[p := s.procs[p].(pc := DownCopy)], s.nodes, s.sem[i := s.sem[i] - 1])
    requires InTree(inp, l, o) && SemDown(inp, s, l, o)
    ensures SemDown(inp, s', l, o)
  {
    var l', o' := TheirNodeIs(inp, p);
    IndexInjective(inp.lg, l, o, l', o');
    if Owner(l, o) == p && o % 2 == 0 {
      SameOwner(l, o, l', o');
    }
  }

  lemma DownWaitStep(inp: Input, s: State, p: nat)
    requires inp.Valid() && InvDown(inp, s) && DownReady(inp, s, p, DownWait)
    ensures Safe(inp, s, p)
    ensures Enabled(inp, s, p) ==> InvDown(inp, Do(inp, s, p))
  {
    hide SemDown, Total, SumsBelow;
    if Enabled(inp, s, p) {
      var s' := Do(inp, s, p);
      forall l: nat, o: nat | InTree(inp, l, o) ensures SemDown(inp, s', l, o) && RanksDown(inp, s', l, o) {
        DownWaitNode(inp, s, s', p, MyNode(inp.P(), p), l, o);
        assert RanksDown(inp, s, l, o);
      }
      forall p': nat | p' < inp.P() ensures Copied(inp, s', p') {
        assert Copied(inp, s, p');
      }
      DownAssemble(inp, s, s', p);
    }
  }

  /** When a processor copies from their_node, that node already holds the totals. */
  lemma TheirsIsTotal(inp: Input, s: State, p: nat)
    requires inp.Valid() && InvDown(inp, s) && DownReady(inp, s, p, DownCopy)
    ensures TheirNode(inp.P(), p) < 2 * inp.P() - 1 && Total(inp, s.nodes[TheirNode(inp.P(), p)].dens)
  {
    hide Total, RanksDown;
    var l, o := TheirNodeIs(inp, p);
    assert SemDown(inp, s, l, o);
    assert Released(s, l, o);
    assert Copied(inp, s, Owner(l, o + 1));
  }

  lemma DownCopyNode(inp: Input, s: State, s': State, p: nat, n: Node, l: nat, o: nat)
    requires inp.Valid() && DownReady(inp, s, p, DownCopy)
    requires n.ranks == s.nodes[MyNode(inp.P(), p)].ranks && |n.dens| == inp.radix
    requires s' == State(s.procs[p := Proc(DownPost, 0, p, 0, inp.P(), s.procs[p].n, s.procs[p].rankFf)],
                         s.nodes[MyNode(inp.P(), p) := n], s.sem)
    requires InTree(inp, l, o) && SemDown(inp, s, l, o) && RanksDown(inp, s, l, o)
    ensures SemDown(inp, s', l, o) && RanksDown(inp, s', l, o)
  {
    hide SumsBelow;
  }

  lemma DownCopyStep(inp: Input, s: State, p: nat)
    requires inp.Valid() && InvDown(inp, s) && DownReady(inp, s, p, DownCopy)
    ensures Safe(inp, s, p) && InvDown(inp, Do(inp, s, p))
  {
    hide SemDown, RanksDown;
    TheirsIsTotal(inp, s, p);
    hide Total;
    var s' := Do(inp, s, p);
    var my := MyNode(inp.P(), p);
    assert Copied(inp, s, p);
    forall l: nat, o: nat | InTree(inp, l, o) ensures SemDown(inp, s', l, o) && RanksDown(inp, s', l, o) {
      DownCopyNode(inp, s, s', p, s'.nodes[my], l, o);
    }
    LeafInTree(inp, p);
    forall p': nat | p' < inp.P() ensures Copied(inp, s', p') {
      assert Copied(inp, s, p');
    }
    DownAssemble(inp, s, s', p);
  }

  lemma DownPostNode(inp: Input, s: State, s': State, p: nat, i: nat, l: nat, o: nat)
    requires inp.Valid() && DownReady(inp, s, p, DownPost) && s.procs[p].offset % 2 == 1
    requires 0 <= i == s.procs[p].base + s.procs[p].offset - 1 < |s.sem|
    requires var q := s.procs[p];
      s' == State(s.procs[p := Proc(DownPost, q.lev + 1, q.offset / 2, q.base + q.level, q.level / 2, q.n, q.rankFf)],
                  s.nodes, s.sem[i := s.sem[i] + 1])
    requires InTree(inp, l, o) && SemDown(inp, s, l, o)
    ensures SemDown(inp, s', l, o)
  {
    hide First, Base, Width, Pow2, Owner, MyNode, Total, SumsBelow;
    var q := s.procs[p];
    ParentIndex(inp, q.lev, q.offset);
    IndexInjective(inp.lg, l, o, q.lev, q.offset - 1);
    if l == q.lev && Owner(l, o + 1) == p {
      SameOwner(l, o + 1, q.lev, q.offset);
    }
  }

  lemma DownPostProc(inp: Input, q: Proc, p: nat)
    requires inp.Valid() && p < inp.P() && ProcDown(inp, q, p) && q.pc == DownPost && q.offset % 2 == 1
    ensures q.base + q.offset - 1 < 2 * inp.P() - 1
    ensures ProcDown(inp, Proc(DownPost, q.lev + 1, q.offset / 2, q.base + q.level, q.level / 2, q.n, q.rankFf), p)
  {
    ParentIndex(inp, q.lev, q.offset);
    Halves(inp.lg, q.lev);
    IndexInjective(inp.lg, q.lev, q.offset, q.lev, q.offset);
  }

  lemma DownFacts(inp: Input, s: State, p: nat, l: nat, o: nat)
    requires inp.Valid() && InvDown(inp, s) && p < inp.P() && InTree(inp, l, o)
    ensures Shape(inp, s) && ProcDown(inp, s.procs[p], p) && Copied(inp, s, p)
    ensures SemDown(inp, s, l, o) && RanksDown(inp, s, l, o)
  {
    hide Shape, ProcDown, Copied, SemDown, RanksDown, InTree;
  }

  /** A step that leaves the nodes alone and keeps the processor beyond its copy. */
  lemma NodesKept(inp: Input, s: State, s': State, p: nat)
    requires inp.Valid() && InvDown(inp, s) && Shape(inp, s) && Shape(inp, s') && p < inp.P()
    requires s'.nodes == s.nodes && s'.procs == s.procs[p := s'.procs[p]] && s.procs[p].pc == s'.procs[p].pc
    ensures forall l: nat, o: nat :: InTree(inp, l, o) ==> RanksDown(inp, s', l, o)
    ensures forall p': nat :: p' < inp.P() ==> Copied(inp, s', p')
  {
    hide First, Base, Width, Pow2, MyNode, Total, SumsBelow, SemDown, ProcDown;
    forall l: nat, o: nat | InTree(inp, l, o) ensures RanksDown(inp, s', l, o) {
      assert RanksDown(inp, s, l, o);
    }
    forall p': nat | p' < inp.P() ensures Copied(inp, s', p') {
      assert Copied(inp, s, p');
    }
  }

  lemma DownPostStep(inp: Input, s: State, p: nat)
    requires inp.Valid() && InvDown(inp, s) && DownReady(inp, s, p, DownPost) && s.procs[p].offset % 2 == 1
    ensures Safe(inp, s, p) && InvDown(inp, Do(inp, s, p))
  {
    hide First, Base, Width, Pow2, MyNode, Owner, SemDown, RanksDown, Copied, ProcDown, InvDown;
    var q := s.procs[p];
    DownPostProc(inp, q, p);
    var s' := Do(inp, s, p);
    NodesKept(inp, s, s', p);
    forall l: nat, o: nat | InTree(inp, l, o) ensures SemDown(inp, s', l, o) {
      DownFacts(inp, s, p, l, o);
      DownPostNode(inp, s, s', p, q.base + q.offset - 1, l, o);
    }
    DownAssemble(inp, s, s', p);
  }

  lemma DownTurnNode(inp: Input, s: State, s': State, p: nat, l: nat, o: nat)
    requires inp.Valid() && DownReady(inp, s, p, DownPost) && s.procs[p].offset % 2 == 0
    requires s' == s.(procs := s.procs[p := s.procs[p].(pc := DownSum)])
    requires InTree(inp, l, o) && SemDown(inp, s, l, o)
    ensures SemDown(inp, s', l, o)
  {
    hide First, Base, Width, Pow2;
    var q := s.procs[p];
    if o % 2 == 0 && Owner(l, o + 1) == p {
      SameOwner(q.lev, q.offset, l, o + 1);
      SameOwner(l, o + 1, q.lev, q.offset);
    }
  }

  lemma DownTurnStep(inp: Input, s: State, p: nat)
    requires inp.Valid() && InvDown(inp, s) && DownReady(inp, s, p, DownPost) && s.procs[p].offset % 2 == 0
    ensures Safe(inp, s, p) && InvDown(inp, Do(inp, s, p))
  {
    hide SemDown, SumsBelow, Total;
    var s' := Do(inp, s, p);
    forall l: nat, o: nat | InTree(inp, l, o) ensures SemDown(inp, s', l, o) && RanksDown(inp, s', l, o) {
      DownTurnNode(inp, s, s', p, l, o);
      assert RanksDown(inp, s, l, o);
    }
    forall p': nat | p' < inp.P() ensures Copied(inp, s', p') {
      assert Copied(inp, s, p');
    }
    DownAssemble(inp, s, s', p);
  }

  lemma {:induction false} FirstOfZero(l: nat)
    ensures First(l, 0) == 0
  {
    if l > 0 { FirstOfZero(l - 1); }
  }

  /** Adding the ranks of the left siblings along the path gives the ranks of all processors to the left. */
  lemma {:induction false} LeftRanksAdd(inp: Input, s: State, l: nat, o: nat)
    requires inp.Valid() && Shape(inp, s) && InTree(inp, l, o)
    requires forall l: nat, o: nat :: InTree(inp, l, o) ==> RanksDown(inp, s, l, o)
    ensures LeftInTree(s.nodes, inp.radix, o, Base(inp.lg, l), Width(inp.lg, l)) && First(l, o) <= inp.P()
    ensures forall d: nat :: d < inp.radix ==>
      LeftRanks(s.nodes, inp.radix, o, Base(inp.lg, l), Width(inp.lg, l), d) == Sum(inp.ranks, d, 0, First(l, o))
    decreases o
  {
    hide Pow2, Owner, Shr, RanksDown;
    OwnerInRange(inp.lg, l, o);
    if o == 0 {
      FirstOfZero(l);
    } else {
      Halves(inp.lg, l);
      LeftRanksAdd(inp, s, l + 1, o / 2);
      assert Base(inp.lg, l + 1) == Base(inp.lg, l) + Width(inp.lg, l);
      assert First(l + 1, o / 2) == First(l, 2 * (o / 2));
      if o % 2 == 1 {
        LeftStep(inp, s, l, o);
      }
    }
  }

  lemma LeftStep(inp: Input, s: State, l: nat, o: nat)
    requires inp.Valid() && Shape(inp, s) && InTree(inp, l, o) && o % 2 == 1
    requires RanksDown(inp, s, l, o - 1) && First(l, o) <= inp.P()
    ensures Index(inp, l, o - 1) < |s.nodes| && First(l, o - 1) <= First(l, o)
    ensures forall d: nat :: d < inp.radix ==>
      Sum(inp.ranks, d, 0, First(l, o)) ==
        Sum(inp.ranks, d, 0, First(l, o - 1)) + s.nodes[Index(inp, l, o - 1)].ranks[d]
  {
    FirstGrows(l, o - 1, o);
    forall d: nat | d < inp.radix
      ensures Sum(inp.ranks, d, 0, First(l, o)) ==
        Sum(inp.ranks, d, 0, First(l, o - 1)) + s.nodes[Index(inp, l, o - 1)].ranks[d]
    {
      SumSplit(inp.ranks, d, 0, First(l, o - 1), First(l, o));
    }
  }

  lemma DownSumNode(inp: Input, s: State, s': State, p: nat, l: nat, o: nat)
    requires inp.Valid() && DownReady(inp, s, p, DownSum)
    requires p < |s'.procs| && s'.procs == s.procs[p := s'.procs[p]] && s'.procs[p].pc == Bar5
    requires s'.nodes == s.nodes && s'.sem == s.sem
    requires SemDown(inp, s, l, o) && RanksDown(inp, s, l, o)
    ensures SemDown(inp, s', l, o) && RanksDown(inp, s', l, o)
  {
    hide SumsBelow;
  }

  lemma DownSumRanks(inp: Input, s: State, p: nat)
    requires inp.Valid() && InvDown(inp, s) && DownReady(inp, s, p, DownSum)
    ensures Safe(inp, s, p) && RanksFor(inp, p, Do(inp, s, p).procs[p].rankFf)
  {
    hide SemDown, RanksDown, LeftRanks, LeftInTree;
    LeafInTree(inp, p);
    LeftRanksAdd(inp, s, 0, p);
  }

  lemma DownSumStep(inp: Input, s: State, p: nat)
    requires inp.Valid() && InvDown(inp, s) && DownReady(inp, s, p, DownSum)
    ensures Safe(inp, s, p) && InvDown(inp, Do(inp, s, p))
  {
    DownSumRanks(inp, s, p);
    hide SemDown, RanksDown, RanksFor, Total, LeftRanks, LeftInTree;
    var s' := Do(inp, s, p);
    forall l: nat, o: nat | InTree(inp, l, o) ensures SemDown(inp, s', l, o) && RanksDown(inp, s', l, o) {
      DownSumNode(inp, s, s', p, l, o);
    }
    forall p': nat | p' < inp.P() ensures Copied(inp, s', p') {
      assert Copied(inp, s, p');
    }
    DownAssemble(inp, s, s', p);
  }

  // ---------------------------------------------------------------------
  // Across the barrier
  // ---------------------------------------------------------------------

  /** With everybody at the barrier, every node is done. */
  lemma AllDone(inp: Input, s: State, l: nat, o: nat)
    requires inp.Valid() && InvUp(inp, s) && InTree(inp, l, o)
    requires forall p :: 0 <= p < inp.P() ==> s.procs[p].pc == Bar4
    ensures Owner(l, o) < inp.P() && Done(s, l, o)
  {
    hide SumsUp, SemUp;
    OwnerInRange(inp.lg, l, o);
    var q := s.procs[Owner(l, o)];
    if q.lev < l {
      SameOwner(q.lev, q.offset, l, o);
    }
  }

  /** With everybody at the barrier, every announcement has been taken. */
  lemma NothingPending(inp: Input, s: State, l: nat, o: nat)
    requires inp.Valid() && InvUp(inp, s) && InTree(inp, l, o)
    requires forall p :: 0 <= p < inp.P() ==> s.procs[p].pc == Bar4
    ensures Index(inp, l, o) < 2 * inp.P() - 1 && s.sem[Index(inp, l, o)] == 0
  {
    hide SumsUp;
    assert SemUp(inp, s, l, o);
    AllDone(inp, s, l, o);
    if l > 0 {
      Halves(inp.lg, l - 1);
      OwnerInRange(inp.lg, l - 1, 2 * o);
    }
  }

  lemma BarrierSem(inp: Input, s: State, s': State, l: nat, o: nat)
    requires inp.Valid() && Shape(inp, s) && Shape(inp, s') && Barrier(inp, s, s') && InTree(inp, l, o)
    requires Index(inp, l, o) < 2 * inp.P() - 1 && s.sem[Index(inp, l, o)] == 0
    ensures SemDown(inp, s', l, o)
  {
    if l < inp.lg && o % 2 == 0 {
      LastOwnsRoot(inp);
      Halves(inp.lg, l);
      OwnerInRange(inp.lg, l, o);
      OwnerInRange(inp.lg, l, o + 1);
      if Owner(l, o) + 1 == inp.P() {
        SameOwner(l, o, inp.lg, 0);
      }
    }
  }

  lemma BarrierNode(inp: Input, s: State, s': State, l: nat, o: nat)
    requires inp.Valid() && InvUp(inp, s) && Shape(inp, s') && Barrier(inp, s, s') && InTree(inp, l, o)
    ensures SemDown(inp, s', l, o) && RanksDown(inp, s', l, o)
  {
    hide SumsBelow, SemUp, SemDown;
    assert SumsUp(inp, s, l, o);
    AllDone(inp, s, l, o);
    NothingPending(inp, s, l, o);
    BarrierSem(inp, s, s', l, o);
  }

  lemma RootIsTotal(inp: Input, s: State)
    requires inp.Valid() && InvUp(inp, s)
    requires forall p :: 0 <= p < inp.P() ==> s.procs[p].pc == Bar4
    ensures inp.P() >= 1 && Total(inp, s.nodes[2 * inp.P() - 2].dens)
  {
    hide First, InvUp, SemUp, Owner, Base, Width, Pow2, Done, Sum;
    LastOwnsRoot(inp);
    AllDone(inp, s, inp.lg, 0);
    UpFacts(inp, s, Owner(inp.lg, 0), inp.lg, 0);
    FirstOfZero(inp.lg);
    OwnerBelow(inp.lg, 0);
  }

  lemma BarrierProc(inp: Input, s: State, s': State, p: nat)
    requires inp.Valid() && InvUp(inp, s) && Barrier(inp, s, s') && p < inp.P() && Shape(inp, s')
    ensures ProcDown(inp, s'.procs[p], p) && Copied(inp, s', p)
  {
    LeafInTree(inp, p);
    ClimbIsTop(inp, 0, p);
    MyNodeIs(inp, p, Top(0, p).0, Top(0, p).1);
    if p + 1 == inp.P() {
      RootIsTotal(inp, s);
    }
  }

  lemma BarrierStep(inp: Input, s: State, s': State)
    requires inp.Valid() && InvUp(inp, s) && Barrier(inp, s, s')
    ensures InvDown(inp, s')
  {
    assert Shape(inp, s');
    hide Barrier, SemDown, RanksDown, Copied, ProcDown;
    forall p: nat | p < inp.P() ensures ProcDown(inp, s'.procs[p], p) && Copied(inp, s', p) {
      BarrierProc(inp, s, s', p);
    }
    forall l: nat, o: nat | InTree(inp, l, o) ensures SemDown(inp, s', l, o) && RanksDown(inp, s', l, o) {
      BarrierNode(inp, s, s', l, o);
    }
  }

  // ---------------------------------------------------------------------
  // Whole runs
  // ---------------------------------------------------------------------

  lemma InitUp(inp: Input, s: State)
    requires inp.Valid() && Init(inp, s)
    ensures InvUp(inp, s)
  {
    forall l: nat, o: nat | InTree(inp, l, o) ensures SumsUp(inp, s, l, o) && SemUp(inp, s, l, o) {
      IndexInjective(inp.lg, l, o, l, o);
      OwnerInRange(inp.lg, l, o);
      if l > 0 {
        Halves(inp.lg, l - 1);
        OwnerInRange(inp.lg, l - 1, 2 * o);
      }
    }
  }

  lemma UpStep(inp: Input, s: State, p: nat)
    requires inp.Valid() && InvUp(inp, s) && p < inp.P()
    ensures Safe(inp, s, p)
    ensures Enabled(inp, s, p) ==> InvUp(inp, Do(inp, s, p))
  {
    assert ProcUp(inp, s.procs[p], p);
    var q := s.procs[p];
    assert UpReady(inp, s, p, q.pc);
    hide *;
    match q.pc
    case UpLeaf => UpLeafStep(inp, s, p);
    case UpPost => if q.offset % 2 == 0 { UpPostStep(inp, s, p); } else { UpTurnStep(inp, s, p); }
    case UpWait => UpWaitStep(inp, s, p);
    case UpSum => UpSumStep(inp, s, p);
    case _ =>
  }

  lemma DownStep(inp: Input, s: State, p: nat)
    requires inp.Valid() && InvDown(inp, s) && p < inp.P()
    ensures Safe(inp, s, p)
    ensures Enabled(inp, s, p) ==> InvDown(inp, Do(inp, s, p))
  {
    assert ProcDown(inp, s.procs[p], p) && Copied(inp, s, p);
    var q := s.procs[p];
    assert DownReady(inp, s, p, q.pc);
    hide *;
    match q.pc
    case DownWait => DownWaitStep(inp, s, p);
    case DownCopy => DownCopyStep(inp, s, p);
    case DownPost => if q.offset % 2 == 1 { DownPostStep(inp, s, p); } else { DownTurnStep(inp, s, p); }
    case DownSum => DownSumStep(inp, s, p);
    case _ =>
  }

  ghost predicate Inv(inp: Input, s: State)
    requires inp.Valid()
  {
    InvUp(inp, s) || InvDown(inp, s)
  }

  lemma NextKeepsInv(inp: Input, s: State, s': State)
    requires inp.Valid() && Inv(inp, s) && Next(inp, s, s')
    ensures Inv(inp, s')
  {
    if Barrier(inp, s, s') {
      BarrierLeavesUp(inp, s, s');
      BarrierStep(inp, s, s');
    } else {
      var p: nat :| p < inp.P() && Step(inp, s, s', p);
      if InvUp(inp, s) { UpStep(inp, s, p); } else { DownStep(inp, s, p); }
    }
  }

  lemma BarrierLeavesUp(inp: Input, s: State, s': State)
    requires inp.Valid() && Inv(inp, s) && Barrier(inp, s, s')
    ensures InvUp(inp, s)
  {
    hide SemDown, RanksDown, Copied;
    assert s.procs[0].pc == Bar4;
  }

  lemma {:induction false} RunKeepsInv(inp: Input, tr: seq<State>, k: nat)
    requires inp.Valid() && Run(inp, tr) && k < |tr|
    ensures Inv(inp, tr[k])
  {
    hide Inv;
    if k == 0 {
      InitUp(inp, tr[0]);
      UpIsInv(inp, tr[0]);
    } else {
      RunKeepsInv(inp, tr, k - 1);
      assert Next(inp, tr[k - 1], tr[k - 1 + 1]);
      NextKeepsInv(inp, tr[k - 1], tr[k]);
    }
  }

  lemma UpIsInv(inp: Input, s: State)
    requires inp.Valid() && InvUp(inp, s)
    ensures Inv(inp, s)
  {
  }

  ghost function Last(tr: seq<State>): State
    requires |tr| >= 1
  {
    tr[|tr| - 1]
  }

  ghost predicate Finished(inp: Input, s: State)
    requires inp.Valid()
  {
    |s.procs| == inp.P() && forall p :: 0 <= p < inp.P() ==> s.procs[p].pc == Bar5
  }

  /**
   In every interleaving: no processor ever steps outside the arrays, and once
   all have reached the barrier after the down-sweep each holds the start of its
   keys for every digit, with all semaphores back at zero for the next pass.
   */
  lemma EveryRunRanks(inp: Input, tr: seq<State>)
    requires inp.Valid() && Run(inp, tr)
    ensures Shape(inp, Last(tr))
    ensures forall p: nat :: p < inp.P() ==> Safe(inp, Last(tr), p)
    ensures Finished(inp, Last(tr)) ==>
      && (forall p: nat :: p < inp.P() ==> RanksFor(inp, p, Last(tr).procs[p].rankFf))
      && (forall i :: 0 <= i < 2 * inp.P() - 1 ==> Last(tr).sem[i] == 0)
  {
    var s := Last(tr);
    RunKeepsInv(inp, tr, |tr| - 1);
    forall p: nat | p < inp.P() ensures Safe(inp, s, p) {
      if InvUp(inp, s) { UpStep(inp, s, p); } else { DownStep(inp, s, p); }
    }
    if Finished(inp, s) {
      FinishedMeans(inp, s);
    }
  }

  lemma DownOnceFinished(inp: Input, s: State)
    requires inp.Valid() && Inv(inp, s) && Finished(inp, s)
    ensures InvDown(inp, s)
  {
    hide SumsUp, SemUp;
    assert s.procs[0].pc == Bar5;
  }

  lemma FinishedMeans(inp: Input, s: State)
    requires inp.Valid() && Inv(inp, s) && Finished(inp, s)
    ensures forall p: nat :: p < inp.P() ==> RanksFor(inp, p, s.procs[p].rankFf)
    ensures Shape(inp, s) && forall i :: 0 <= i < 2 * inp.P() - 1 ==> s.sem[i] == 0
  {
    DownOnceFinished(inp, s);
    forall p: nat | p < inp.P() ensures RanksFor(inp, p, s.procs[p].rankFf) {
      assert ProcDown(inp, s.procs[p], p);
    }
    forall i | 0 <= i < 2 * inp.P() - 1 ensures s.sem[i] == 0 {
      var l, o := IndexOnto(inp.lg, i);
      FinishedSem(inp, s, l, o);
    }
  }

  lemma FinishedSem(inp: Input, s: State, l: nat, o: nat)
    requires inp.Valid() && InvDown(inp, s) && Finished(inp, s) && InTree(inp, l, o)
    ensures Index(inp, l, o) < |s.sem| && s.sem[Index(inp, l, o)] == 0
  {
    hide RanksDown, Copied, ProcDown;
    assert SemDown(inp, s, l, o);
    OwnerInRange(inp.lg, l, o);
    if l < inp.lg && o % 2 == 0 {
      Halves(inp.lg, l);
      OwnerInRange(inp.lg, l, o + 1);
    }
  }

  // ---------------------------------------------------------------------
  // No deadlock
  // ---------------------------------------------------------------------

  /** A blocked wait of the up-sweep waits for a processor that is not at the barrier and is lower in the tree. */
  lemma UpWaitsFor(inp: Input, s: State, p: nat) returns (r: nat)
    requires inp.Valid() && InvUp(inp, s) && UpReady(inp, s, p, UpWait) && !Enabled(inp, s, p)
    ensures r < inp.P() && s.procs[r].pc != Bar4
    ensures s.procs[r].pc == UpWait ==> s.procs[r].lev < s.procs[p].lev
  {
    hide First, Base, Width, Pow2, Shr, SumsUp, InvUp, Owner;
    var q := s.procs[p];
    var o := q.offset / 2;
    ParentIndex(inp, q.lev, q.offset);
    UpFacts(inp, s, p, q.lev + 1, o);
    OwnerOfParent(q.lev, o);
    OwnerInRange(inp.lg, q.lev, 2 * o);
    r := Owner(q.lev, 2 * o);
    UpFacts(inp, s, r, q.lev + 1, o);
    if s.procs[r].pc == UpWait {
      SameOwner(q.lev, 2 * o, s.procs[r].lev, s.procs[r].offset);
    }
  }

  lemma {:induction false} UpWaitMoves(inp: Input, s: State, p: nat) returns (r: nat)
    requires inp.Valid() && InvUp(inp, s) && UpReady(inp, s, p, UpWait)
    ensures r < inp.P() && Enabled(inp, s, r)
    decreases s.procs[p].lev
  {
    hide SumsUp, SemUp;
    if Enabled(inp, s, p) { return p; }
    r := UpWaitsFor(inp, s, p);
    assert ProcUp(inp, s.procs[r], r);
    if s.procs[r].pc == UpWait {
      r := UpWaitMoves(inp, s, r);
    }
  }

  /** Behind every blocked wait of the down-sweep there is a processor further right that can move. */
  lemma {:induction false} DownWaitMoves(inp: Input, s: State, p: nat) returns (r: nat)
    requires inp.Valid() && InvDown(inp, s) && DownReady(inp, s, p, DownWait)
    ensures r < inp.P() && Enabled(inp, s, r)
    decreases inp.P() - p
  {
    hide First, Base, Width, Pow2, Climb, RanksDown, Total, InvDown, Owner;
    if Enabled(inp, s, p) { return p; }
    var l, o := TheirNodeIs(inp, p);
    r := Owner(l, o + 1);
    DownFacts(inp, s, r, l, o);
    OwnerBelow(l, o);
    FirstBelowOwner(l, o + 1);
    if s.procs[r].pc == DownWait {
      r := DownWaitMoves(inp, s, r);
    }
  }

  /** Until everybody has finished, somebody can move or all leave the barrier. */
  lemma NoDeadlock(inp: Input, tr: seq<State>)
    requires inp.Valid() && Run(inp, tr)
    ensures |Last(tr).procs| == inp.P()
    ensures Finished(inp, Last(tr)) || exists s' :: Next(inp, Last(tr), s')
  {
    var s := Last(tr);
    EveryRunRanks(inp, tr);
    RunKeepsInv(inp, tr, |tr| - 1);
    if exists p: nat :: p < inp.P() && s.procs[p].pc != Bar4 && s.procs[p].pc != Bar5 {
      var p: nat :| p < inp.P() && s.procs[p].pc != Bar4 && s.procs[p].pc != Bar5;
      var r := CanMove(inp, s, p);
      assert Step(inp, s, Do(inp, s, r), r);
      assert Next(inp, s, Do(inp, s, r));
    } else if !Finished(inp, s) {
      var s' := s.(procs := seq(inp.P(), p requires 0 <= p < inp.P() => AfterBarrier(inp.P(), p, s.procs[p])));
      AllSameSide(inp, s);
      assert Next(inp, s, s');
    }
  }

  lemma CanMove(inp: Input, s: State, p: nat) returns (r: nat)
    requires inp.Valid() && Inv(inp, s) && p < inp.P() && p < |s.procs|
    requires s.procs[p].pc != Bar4 && s.procs[p].pc != Bar5
    ensures |s.procs| == inp.P() && r < inp.P() && Enabled(inp, s, r)
  {
    r := p;
    if InvUp(inp, s) {
      assert ProcUp(inp, s.procs[p], p);
      if s.procs[p].pc == UpWait { r := UpWaitMoves(inp, s, p); }
    } else {
      assert ProcDown(inp, s.procs[p], p) && Copied(inp, s, p);
      if s.procs[p].pc == DownWait { r := DownWaitMoves(inp, s, p); }
    }
  }

  lemma AllSameSide(inp: Input, s: State)
    requires inp.Valid() && Inv(inp, s) && |s.procs| == inp.P() && !Finished(inp, s)
    requires forall p: nat :: p < inp.P() ==> s.procs[p].pc == Bar4 || s.procs[p].pc == Bar5
    ensures forall p: nat :: p < inp.P() ==> s.procs[p].pc == Bar4
  {
    if InvDown(inp, s) {
      hide Copied;
      hide SemDown;
      hide RanksDown;
    }
  }
}
