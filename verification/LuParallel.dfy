/**
 The parallel factorisation of apps/lu/lu.c, lines 652-797.  P processors walk
 through the block steps K; in each step they factor the diagonal block, meet at
 a barrier, finish block column and block row K, meet at a second barrier, and
 update the trailing blocks.  Nothing separates the trailing update of step K
 from the diagonal factorisation of step K + 1.

 Task (I, J, K) applies the eliminations of block step K to block (I, J): it is
 lu0, bdiv, bmodd or bmod according to which of I and J equal K.  The order of the
 tasks a processor owns between two barriers is left open, so every order of the
 source's loops is covered.
 */
module LuParallel {
  import opened LuSpec
  import opened LuKernels
  import Arith

  /** n by n matrix, blocks of bs, a grid of rows x cols processors. */
  datatype Config = Config(n: nat, bs: nat, rows: nat, cols: nat)
  {
    ghost predicate Valid() { 1 <= bs <= n && 1 <= rows && 1 <= cols }

    function P(): nat { rows * cols }

    function Blocks(): nat
      requires 1 <= bs
    {
      if n % bs == 0 then n / bs else n / bs + 1
    }

    function Block(i: nat): nat
      requires 1 <= bs
    {
      i / bs
    }

    function Owner(I: nat, J: nat): nat
      requires 1 <= rows && 1 <= cols
    {
      J % cols + (I % rows) * cols
    }
  }

  lemma OwnerInRange(c: Config, I: nat, J: nat)
    requires c.Valid()
    ensures c.Owner(I, J) < c.P()
  {
    Arith.MulGap(I % c.rows, c.rows, c.cols);
  }

  /** Two blocks with one owner lie a multiple of the grid apart in both directions. */
  lemma OwnerIsCyclic(c: Config, I: nat, J: nat, I': nat, J': nat)
    requires c.Valid()
    ensures c.Owner(I, J) == c.Owner(I', J') <==> I % c.rows == I' % c.rows && J % c.cols == J' % c.cols
  {
    var r, r' := I % c.rows, I' % c.rows;
    if r < r' { Arith.MulGap(r, r', c.cols); }
    if r' < r { Arith.MulGap(r', r, c.cols); }
  }

  /** Every row and column of the matrix lies in one of the blocks. */
  lemma BlockInRange(c: Config, i: nat)
    requires c.Valid() && i < c.n
    ensures c.Block(i) < c.Blocks()
  {
    Arith.DivMod(c.n, c.bs);
    Arith.MulNext(c.n / c.bs, c.bs);
    Arith.DivBelow(i, c.bs, c.Blocks());
  }

  /** The loop that picks the grid, started from the integer square root of P. */
  method Grid(p: nat, root: nat) returns (rows: nat, cols: nat)
    requires 1 <= root && root * root <= p < (root + 1) * (root + 1)
    ensures rows * cols == p && 1 <= rows <= cols
    ensures forall r: nat :: rows < r <= root ==> p % r != 0
  {
    rows := root;
    while true
      invariant 1 <= rows <= root
      invariant forall r: nat :: rows < r <= root ==> p % r != 0
      decreases rows
    {
      cols := p / rows;
      Arith.DivMod(p, rows);
      if rows * cols == p {
        GridIsWide(p, root, rows, cols);
        break;
      }
      assert p % 1 == 0;
      rows := rows - 1;
    }
  }

  lemma GridIsWide(p: nat, root: nat, rows: nat, cols: nat)
    requires 1 <= rows <= root && root * root <= p && rows * cols == p
    ensures rows <= cols
  {
    if cols < rows {
      Arith.MulGap(cols, rows, rows);
      Arith.MulOrder(rows, root, rows);
      Arith.MulOrder(rows, root, root);
      assert false;
    }
  }

  // ---------------------------------------------------------------------
  // Tasks
  // ---------------------------------------------------------------------

  datatype Task = Task(I: nat, J: nat, K: nat)

  /** A place in the program: block step K, phase 0 (factor), 1 (column and row K) or 2 (trailing update). */
  datatype Pos = Pos(K: nat, phase: nat)
  {
    ghost predicate Before(q: Pos) { K < q.K || (K == q.K && phase < q.phase) }

    /** Barriers passed on reaching this place. */
    function Passed(): nat { 2 * K + phase }
  }

  ghost predicate IsTask(c: Config, t: Task)
    requires c.Valid()
  {
    t.K <= t.I < c.Blocks() && t.K <= t.J < c.Blocks()
  }

  function Place(t: Task): Pos
  {
    if t.I == t.K && t.J == t.K then Pos(t.K, 0) else if t.I == t.K || t.J == t.K then Pos(t.K, 1) else Pos(t.K, 2)
  }

  /** Task t uses block (I, J): its target, the block left of it and the block above it in step K. */
  predicate Uses(t: Task, I: nat, J: nat)
  {
    (I == t.I && J == t.J) || (I == t.I && J == t.K) || (I == t.K && J == t.J)
  }

  /** One of two tasks writes a block that the other uses. */
  predicate Conflict(t: Task, u: Task)
  {
    Uses(t, u.I, u.J) || Uses(u, t.I, t.J)
  }

  /** Block (I, J) of M holds the entries of the factorisation of A after k block steps. */
  ghost predicate BlockAt<N>(c: Config, ops: Ops<N>, A: Matrix<N>, M: Matrix<N>, I: nat, J: nat, k: nat)
    requires c.Valid()
  {
    forall i: nat, j: nat :: i < c.n && j < c.n && c.Block(i) == I && c.Block(j) == J ==>
      M(i, j) == At(ops, A, i, j, k * c.bs)
  }

  ghost predicate InputsReady<N>(c: Config, ops: Ops<N>, A: Matrix<N>, M: Matrix<N>, t: Task)
    requires c.Valid()
  {
    && BlockAt(c, ops, A, M, t.I, t.J, t.K)
    && (t.J != t.K ==> BlockAt(c, ops, A, M, t.I, t.K, t.K + 1))
    && (t.I != t.K ==> BlockAt(c, ops, A, M, t.K, t.J, t.K + 1))
  }

  /** The first row of block row I, and the row after its last one, clipped at the edge of the matrix. */
  function First(c: Config, I: nat): (r: nat)
    requires c.Valid()
    ensures r == I * c.bs
  {
    Arith.MulCompare(0, I, c.bs);
    I * c.bs
  }

  function End(c: Config, I: nat): nat
    requires c.Valid()
  {
    if First(c, I + 1) > c.n then c.n else First(c, I + 1)
  }

  lemma InBlock(c: Config, i: nat, I: nat)
    requires c.Valid() && i < c.n
    ensures c.Block(i) == I <==> First(c, I) <= i < End(c, I)
  {
    Arith.DivMod(i, c.bs);
    Arith.MulNext(I, c.bs);
    if First(c, I) <= i < End(c, I) {
      Arith.DivModUnique(i, c.bs, I, i - I * c.bs);
    }
  }

  lemma FirstAndEnd(c: Config, I: nat)
    requires c.Valid() && I < c.Blocks()
    ensures First(c, I) < End(c, I) <= c.n && (I + 1 < c.Blocks() ==> End(c, I) == First(c, I + 1))
  {
    Arith.DivMod(c.n, c.bs);
    Arith.MulNext(I, c.bs);
    Arith.MulCompare(I, c.n / c.bs, c.bs);
    Arith.MulCompare(I + 1, c.n / c.bs, c.bs);
  }

  /** Later blocks begin where earlier ones have ended. */
  lemma BlocksInOrder(c: Config, K: nat, I: nat)
    requires c.Valid() && K < I
    ensures End(c, K) <= First(c, I)
  {
    Arith.MulCompare(K + 1, I, c.bs);
  }

  ghost function Target(c: Config, t: Task): Span
    requires c.Valid()
  {
    Span(First(c, t.I), End(c, t.I), First(c, t.J), End(c, t.J), First(c, t.K))
  }

  /** Memory after the kernel of task t: in its block what the kernel computes from the blocks it finds. */
  ghost function After<N>(c: Config, ops: Ops<N>, t: Task, M: Matrix<N>): Matrix<N>
    requires c.Valid() && IsTask(c, t)
  {
    FirstAndEnd(c, t.K);
    (i: int, j: int) => if i >= 0 && j >= 0 && Target(c, t).Has(i, j) then Now(ops, M, Target(c, t), i, j, End(c, t.K))
      else M(i, j)
  }

  /** Block (I, J) in memory, as an array of its own. */
  ghost predicate IsBlock<N>(c: Config, M: Matrix<N>, a: array2<N>, I: nat, J: nat)
    requires c.Valid()
    reads a
  {
    && First(c, I) + a.Length0 == End(c, I) && First(c, J) + a.Length1 == End(c, J)
    && Copies(M, a, First(c, I), First(c, J))
  }

  /**
   The kernel lu chooses for task t, on the blocks it passes, leaves in its target what After says, and touches
   nothing else.
   */
  method ApplyTask<N>(c: Config, ops: Ops<N>, t: Task, left: array2<N>, up: array2<N>, target: array2<N>,
                      ghost M: Matrix<N>)
    requires c.Valid() && IsTask(c, t)
    requires IsBlock(c, M, target, t.I, t.J) && IsBlock(c, M, left, t.I, t.K) && IsBlock(c, M, up, t.K, t.J)
    requires (left == target <==> t.J == t.K) && (up == target <==> t.I == t.K)
    modifies target
    ensures IsBlock(c, After(c, ops, t, M), target, t.I, t.J)
  {
    hide Now;
    ghost var T := Target(c, t);
    FirstAndEnd(c, t.K);
    if t.K < t.I { BlocksInOrder(c, t.K, t.I); }
    if t.K < t.J { BlocksInOrder(c, t.K, t.J); }
    var dimi, dimj, dimk := target.Length0, target.Length1, left.Length1;
    hide First, End;
    if t.I == t.K && t.J == t.K {
      Lu0(ops, target, dimk, M, T);
    } else if t.J == t.K {
      Bdiv(ops, target, up, dimi, dimk, M, T);
    } else if t.I == t.K {
      Bmodd(ops, left, target, dimk, dimj, M, T);
    } else {
      Bmod(ops, left, up, target, dimi, dimj, dimk, M, T);
    }
    KernelLeaves(c, ops, t, target, M);
  }

  lemma KernelLeaves<N>(c: Config, ops: Ops<N>, t: Task, target: array2<N>, M: Matrix<N>)
    requires c.Valid() && IsTask(c, t) && First(c, t.K) <= End(c, t.K)
      && Stands(ops, M, Target(c, t), target, End(c, t.K))
    requires First(c, t.I) + target.Length0 == End(c, t.I) && First(c, t.J) + target.Length1 == End(c, t.J)
    ensures IsBlock(c, After(c, ops, t, M), target, t.I, t.J)
  {
    var M', T := After(c, ops, t, M), Target(c, t);
    hide Now, First, End;
    forall i: nat, j: nat | i < target.Length0 && j < target.Length1 ensures target[i, j] == M'(T.r0 + i, T.c0 + j) {
      assert T.Has(T.r0 + i, T.c0 + j);
    }
  }

  /** A block step clipped at the edge of the matrix leaves in every entry what a full block step leaves. */
  lemma ClippedStep<N>(c: Config, ops: Ops<N>, A: Matrix<N>, i: nat, j: nat, k: nat)
    requires i < c.n && j < c.n
    ensures At(ops, A, i, j, if k < c.n then k else c.n) == At(ops, A, i, j, k)
  {
  }

  // ---------------------------------------------------------------------
  // A kernel that finds its inputs ready applies one block step
  // ---------------------------------------------------------------------

  /** An entry of a block that is through with step K is settled for every elimination of that step. */
  lemma ReadSettled<N>(c: Config, ops: Ops<N>, A: Matrix<N>, M: Matrix<N>, I: nat, J: nat, K: nat, i: nat, j: nat,
                       x: nat)
    requires c.Valid() && BlockAt(c, ops, A, M, I, J, K + 1)
    requires First(c, I) <= i < End(c, I) && First(c, J) <= j < End(c, J)
    requires (j <= i && j <= x <= First(c, K + 1)) || i < x <= First(c, K + 1)
    ensures M(i, j) == At(ops, A, i, j, x)
  {
    hide At, c.Block;
    InBlock(c, i, I);
    InBlock(c, j, J);
    AtSettled(ops, A, i, j, x, First(c, K + 1));
  }

  /** Elimination by elimination, the kernel's target follows the factorisation. */
  lemma {:induction false} NowIsAt<N>(c: Config, ops: Ops<N>, A: Matrix<N>, M: Matrix<N>, t: Task, T: Span, i: nat,
                                      j: nat, x: nat)
    requires c.Valid() && IsTask(c, t) && InputsReady(c, ops, A, M, t)
    requires T == Target(c, t) && T.Has(i, j) && First(c, t.K) <= x <= End(c, t.K)
    ensures Now(ops, M, T, i, j, x) == At(ops, A, i, j, x)
    decreases x, if i + 1 == x then 0 else 1
  {
    hide At, BlockAt, c.Blocks, First;
    if x == First(c, t.K) {
      StartIsAt(c, ops, A, M, t, i, j);
    } else {
      var k := x - 1;
      NowIsAt(c, ops, A, M, t, T, i, j, k);
      AtNext(ops, A, i, j, k);
      if i == k && k < j {
        if T.Has(k, k) { NowIsAt(c, ops, A, M, t, T, k, k, k); } else { LeftIsAt(c, ops, A, M, t, k, k); }
      } else if k < i && k < j {
        if T.Has(k, j) { NowIsAt(c, ops, A, M, t, T, k, j, x); } else { UpIsAt(c, ops, A, M, t, k, j); }
        if T.Has(i, k) { NowIsAt(c, ops, A, M, t, T, i, k, k); } else { LeftIsAt(c, ops, A, M, t, i, k); }
      }
    }
  }

  lemma StartIsAt<N>(c: Config, ops: Ops<N>, A: Matrix<N>, M: Matrix<N>, t: Task, i: nat, j: nat)
    requires c.Valid() && InputsReady(c, ops, A, M, t) && Target(c, t).Has(i, j)
    ensures M(i, j) == At(ops, A, i, j, First(c, t.K))
  {
    hide At, c.Block;
    InBlock(c, i, t.I);
    InBlock(c, j, t.J);
  }

  lemma LeftIsAt<N>(c: Config, ops: Ops<N>, A: Matrix<N>, M: Matrix<N>, t: Task, i: nat, k: nat)
    requires c.Valid() && IsTask(c, t) && InputsReady(c, ops, A, M, t) && !Target(c, t).Has(i, k)
    requires First(c, t.I) <= i < End(c, t.I) && First(c, t.K) <= k < End(c, t.K) && k <= i
    ensures M(i, k) == At(ops, A, i, k, k)
  {
    hide At, BlockAt, c.Blocks, First;
    ReadSettled(c, ops, A, M, t.I, t.K, t.K, i, k, k);
  }

  lemma UpIsAt<N>(c: Config, ops: Ops<N>, A: Matrix<N>, M: Matrix<N>, t: Task, k: nat, j: nat)
    requires c.Valid() && IsTask(c, t) && InputsReady(c, ops, A, M, t) && !Target(c, t).Has(k, j)
    requires First(c, t.J) <= j < End(c, t.J) && First(c, t.K) <= k < End(c, t.K)
    ensures M(k, j) == At(ops, A, k, j, k + 1)
  {
    hide At, BlockAt, c.Blocks, First;
    ReadSettled(c, ops, A, M, t.K, t.J, t.K, k, j, k + 1);
  }

  /** The kernel of a task whose inputs are ready brings its block one block step further. */
  lemma KernelAdvances<N>(c: Config, ops: Ops<N>, A: Matrix<N>, M: Matrix<N>, t: Task)
    requires c.Valid() && IsTask(c, t) && InputsReady(c, ops, A, M, t)
    ensures BlockAt(c, ops, A, After(c, ops, t, M), t.I, t.J, t.K + 1)
  {
    var M', T := After(c, ops, t, M), Target(c, t);
    FirstAndEnd(c, t.K);
    hide At, Now, InputsReady, IsTask, c.Block, c.Blocks, First;
    forall i: nat, j: nat | i < c.n && j < c.n && c.Block(i) == t.I && c.Block(j) == t.J
      ensures M'(i, j) == At(ops, A, i, j, (t.K + 1) * c.bs)
    {
      InBlock(c, i, t.I);
      InBlock(c, j, t.J);
      NowIsAt(c, ops, A, M, t, T, i, j, End(c, t.K));
      ClippedStep(c, ops, A, i, j, First(c, t.K + 1));
    }
  }

  // ---------------------------------------------------------------------
  // The machine
  // ---------------------------------------------------------------------

  datatype Run = Idle | Doing(t: Task)

  /**
   at: where each processor is; busy: the kernel it is in; done: the kernels finished
   so far; passed: barriers passed; racy: two conflicting kernels have overlapped, after
   which memory may hold anything.
   */
  datatype State<!N> = State(at: seq<Pos>, busy: seq<Run>, done: iset<Task>, passed: nat, racy: bool, M: Matrix<N>)

  datatype Action = Start(p: nat, t: Task) | Finish(p: nat) | Advance(p: nat) | Barrier

  ghost predicate Shape<N>(c: Config, s: State<N>)
    requires c.Valid()
  {
    |s.at| == c.P() && |s.busy| == c.P()
  }

  ghost predicate Init<N>(c: Config, A: Matrix<N>, s: State<N>)
    requires c.Valid()
  {
    && Shape(c, s) && s.done == iset{} && s.passed == 0 && !s.racy
    && (forall p :: 0 <= p < c.P() ==> s.at[p] == Pos(0, 0) && s.busy[p] == Idle)
    && (forall i: nat, j: nat :: i < c.n && j < c.n ==> s.M(i, j) == A(i, j))
  }

  /** t belongs to processor p at its present place. */
  ghost predicate Mine<N>(c: Config, s: State<N>, p: nat, t: Task)
    requires c.Valid() && Shape(c, s) && p < c.P()
  {
    IsTask(c, t) && c.Owner(t.I, t.J) == p && Place(t) == s.at[p]
  }

  /** Processor p has nothing left to do at its place. */
  ghost predicate Through<N>(c: Config, s: State<N>, p: nat)
    requires c.Valid() && Shape(c, s) && p < c.P()
  {
    s.busy[p] == Idle && s.at[p].K < c.Blocks() && forall t :: Mine(c, s, p, t) ==> t in s.done
  }

  ghost predicate Clash<N>(s: State<N>, t: Task)
  {
    exists q :: 0 <= q < |s.busy| && s.busy[q].Doing? && Conflict(t, s.busy[q].t)
  }

  ghost predicate StartStep<N>(c: Config, s: State<N>, s': State<N>, p: nat, t: Task)
    requires c.Valid() && Shape(c, s)
  {
    && p < c.P() && s.busy[p] == Idle && Mine(c, s, p, t) && t !in s.done
    && s' == s.(busy := s.busy[p := Doing(t)], racy := s.racy || Clash(s, t))
  }

  /** A kernel that nobody disturbed has done what its code does to the memory it found. */
  ghost predicate FinishStep<N>(c: Config, ops: Ops<N>, s: State<N>, s': State<N>, p: nat)
    requires c.Valid() && Shape(c, s)
  {
    && p < c.P() && s.busy[p].Doing? && IsTask(c, s.busy[p].t)
    && s' == s.(busy := s.busy[p := Idle], done := s.done + iset{s.busy[p].t}, M := s'.M)
    && (!s.racy ==> SameMemory(c, s'.M, After(c, ops, s.busy[p].t, s.M)))
  }

  ghost predicate SameMemory<N>(c: Config, M: Matrix<N>, M': Matrix<N>)
  {
    forall i: nat, j: nat :: i < c.n && j < c.n ==> M(i, j) == M'(i, j)
  }

  /** From the trailing update straight on to the next diagonal block. */
  ghost predicate AdvanceStep<N>(c: Config, s: State<N>, s': State<N>, p: nat)
    requires c.Valid() && Shape(c, s)
  {
    && p < c.P() && Through(c, s, p) && s.at[p].phase == 2
    && s' == s.(at := s.at[p := Pos(s.at[p].K + 1, 0)])
  }

  ghost predicate BarrierStep<N>(c: Config, s: State<N>, s': State<N>)
    requires c.Valid() && Shape(c, s)
  {
    && (forall p :: 0 <= p < c.P() ==> Through(c, s, p) && s.at[p].phase < 2)
    && |s'.at| == c.P()
    && (forall p :: 0 <= p < c.P() ==> s'.at[p] == Pos(s.at[p].K, s.at[p].phase + 1))
    && s' == s.(at := s'.at, passed := s.passed + 1)
  }

  ghost predicate Step<N>(c: Config, ops: Ops<N>, s: State<N>, s': State<N>, a: Action)
    requires c.Valid() && Shape(c, s)
  {
    match a
    case Start(p, t) => StartStep(c, s, s', p, t)
    case Finish(p) => FinishStep(c, ops, s, s', p)
    case Advance(p) => AdvanceStep(c, s, s', p)
    case Barrier => BarrierStep(c, s, s')
  }

  ghost predicate IsRun<N>(c: Config, ops: Ops<N>, A: Matrix<N>, tr: seq<State<N>>, acts: seq<Action>)
    requires c.Valid()
    decreases |tr|
  {
    && |tr| == |acts| + 1
    && if |acts| == 0 then Init(c, A, tr[0])
       else
         && IsRun(c, ops, A, tr[..|tr| - 1], acts[..|acts| - 1])
         && Shape(c, tr[|tr| - 2])
         && Step(c, ops, tr[|tr| - 2], tr[|tr| - 1], acts[|acts| - 1])
  }

  ghost predicate Finished<N>(c: Config, s: State<N>)
    requires c.Valid() && Shape(c, s)
  {
    forall p :: 0 <= p < c.P() ==> s.at[p].K == c.Blocks()
  }

  // ---------------------------------------------------------------------
  // What every run keeps
  // ---------------------------------------------------------------------

  /** Where everybody is: all processors have passed the same barriers. */
  ghost predicate PlacesOk<N>(c: Config, s: State<N>)
    requires c.Valid() && Shape(c, s)
  {
    forall p :: 0 <= p < c.P() ==>
      && s.at[p].phase <= 2 && s.at[p].Passed() == s.passed
      && s.at[p].K <= c.Blocks() && (s.at[p].K == c.Blocks() ==> s.at[p].phase == 0)
  }

  ghost predicate BusyOk<N>(c: Config, s: State<N>)
    requires c.Valid() && Shape(c, s)
  {
    forall p :: 0 <= p < c.P() && s.busy[p].Doing? ==> Mine(c, s, p, s.busy[p].t) && s.busy[p].t !in s.done
  }

  ghost predicate DoneOk<N>(c: Config, s: State<N>)
    requires c.Valid() && Shape(c, s)
  {
    && (forall t :: t in s.done ==> IsTask(c, t))
    && (forall t, p :: t in s.done && 0 <= p < c.P() && c.Owner(t.I, t.J) == p ==> !s.at[p].Before(Place(t)))
    && (forall t, p :: IsTask(c, t) && 0 <= p < c.P() && c.Owner(t.I, t.J) == p && Place(t).Before(s.at[p]) ==>
      t in s.done)
  }

  /** Exactly the tasks of the first k block steps have reached block (I, J). */
  ghost predicate Level(done: iset<Task>, I: nat, J: nat, k: nat)
  {
    forall x: nat :: Task(I, J, x) in done <==> x < k
  }

  ghost predicate MemoryOk<N>(c: Config, ops: Ops<N>, A: Matrix<N>, s: State<N>)
    requires c.Valid()
  {
    forall I: nat, J: nat, k: nat :: Level(s.done, I, J, k) ==> BlockAt(c, ops, A, s.M, I, J, k)
  }

  ghost predicate Inv<N>(c: Config, ops: Ops<N>, A: Matrix<N>, s: State<N>)
    requires c.Valid()
  {
    Shape(c, s) && PlacesOk(c, s) && BusyOk(c, s) && DoneOk(c, s) && !s.racy && MemoryOk(c, ops, A, s)
  }

  /** The owner of a task whose place was left behind by everybody has finished it. */
  lemma EarlierDone<N>(c: Config, s: State<N>, u: Task, K: nat)
    requires c.Valid() && Shape(c, s) && PlacesOk(c, s) && DoneOk(c, s)
    requires IsTask(c, u) && u.K == K && Place(u).Passed() < s.passed
    requires s.passed <= 2 * K + 2
    ensures u in s.done
  {
    OwnerInRange(c, u.I, u.J);
    var q := c.Owner(u.I, u.J);
    assert Place(u).Before(s.at[q]);
  }

  /** A block row or column of step K is complete, and nothing later touches it. */
  lemma SettledLevel<N>(c: Config, s: State<N>, I: nat, J: nat, K: nat)
    requires c.Valid() && Shape(c, s) && PlacesOk(c, s) && DoneOk(c, s)
    requires IsTask(c, Task(I, J, K)) && (I == K || J == K)
    requires Place(Task(I, J, K)).Passed() < s.passed <= 2 * K + 2
    ensures Level(s.done, I, J, K + 1)
  {
    OwnerInRange(c, I, J);
    EarlierDone(c, s, Task(I, J, K), K);
    forall x: nat ensures Task(I, J, x) in s.done <==> x < K + 1 {
      if x < K {
        assert Place(Task(I, J, x)) == Pos(x, 2);
        assert Place(Task(I, J, x)).Before(s.at[c.Owner(I, J)]);
      }
    }
  }

  /** A task that is about to be done finds its block after exactly K block steps. */
  lemma TargetLevel<N>(c: Config, s: State<N>, p: nat, t: Task)
    requires c.Valid() && Shape(c, s) && DoneOk(c, s) && p < c.P() && Mine(c, s, p, t) && t !in s.done
    ensures Level(s.done, t.I, t.J, t.K)
  {
    forall x: nat ensures Task(t.I, t.J, x) in s.done <==> x < t.K {
      var u := Task(t.I, t.J, x);
      if x < t.K {
        assert Place(u) == Pos(x, 2) && Place(u).Before(s.at[p]);
      } else if x > t.K && IsTask(c, u) {
        assert s.at[p].Before(Place(u));
      }
    }
  }

  /** Every kernel finds the blocks it reads in the state it needs. */
  lemma KernelsFindInputs<N>(c: Config, ops: Ops<N>, A: Matrix<N>, s: State<N>, p: nat)
    requires c.Valid() && Inv(c, ops, A, s) && p < c.P() && s.busy[p].Doing?
    ensures InputsReady(c, ops, A, s.M, s.busy[p].t)
  {
    hide BlockAt;
    var t := s.busy[p].t;
    TargetLevel(c, s, p, t);
    if t.J != t.K { SettledLevel(c, s, t.I, t.K, t.K); }
    if t.I != t.K { SettledLevel(c, s, t.K, t.J, t.K); }
  }

  /** Two kernels of different processors never touch each other's blocks. */
  lemma NoConflict<N>(c: Config, s: State<N>, p: nat, q: nat, t: Task, u: Task)
    requires c.Valid() && Shape(c, s) && PlacesOk(c, s)
    requires p < c.P() && q < c.P() && p != q && Mine(c, s, p, t) && Mine(c, s, q, u)
    ensures !Conflict(t, u)
  {
    assert Place(t).Passed() == Place(u).Passed();
  }

  // ---------------------------------------------------------------------
  // Each step keeps the invariant
  // ---------------------------------------------------------------------

  lemma StartKeeps<N>(c: Config, ops: Ops<N>, A: Matrix<N>, s: State<N>, s': State<N>, p: nat, t: Task)
    requires c.Valid() && Inv(c, ops, A, s) && StartStep(c, s, s', p, t)
    ensures Inv(c, ops, A, s')
  {
    hide BlockAt, Level;
    if Clash(s, t) {
      var q :| 0 <= q < |s.busy| && s.busy[q].Doing? && Conflict(t, s.busy[q].t);
      NoConflict(c, s, p, q, t, s.busy[q].t);
    }
  }

  lemma FinishKeepsDone<N>(c: Config, s: State<N>, s': State<N>, p: nat)
    requires c.Valid() && Shape(c, s) && BusyOk(c, s) && DoneOk(c, s) && Shape(c, s')
    requires p < c.P() && s.busy[p].Doing? && s'.at == s.at && s'.done == s.done + iset{s.busy[p].t}
    ensures DoneOk(c, s')
  {
  }

  lemma FinishKeepsMemory<N>(c: Config, ops: Ops<N>, A: Matrix<N>, s: State<N>, s': State<N>, t: Task)
    requires c.Valid() && IsTask(c, t) && MemoryOk(c, ops, A, s) && InputsReady(c, ops, A, s.M, t)
    requires SameMemory(c, s'.M, After(c, ops, t, s.M))
    requires t !in s.done && Level(s.done, t.I, t.J, t.K) && s'.done == s.done + iset{t}
    ensures MemoryOk(c, ops, A, s')
  {
    forall I: nat, J: nat, k: nat | Level(s'.done, I, J, k) ensures BlockAt(c, ops, A, s'.M, I, J, k) {
      if I == t.I && J == t.J {
        LevelAfter(s.done, s'.done, t, k);
        KernelAdvances(c, ops, A, s.M, t);
      } else {
        LevelElsewhere(s.done, s'.done, t, I, J, k);
        BlockKept(c, ops, A, s.M, t, I, J, k);
      }
      SameBlock(c, ops, A, After(c, ops, t, s.M), s'.M, I, J, k);
    }
  }

  lemma LevelAfter(done: iset<Task>, done': iset<Task>, t: Task, k: nat)
    requires Level(done, t.I, t.J, t.K) && done' == done + iset{t} && Level(done', t.I, t.J, k)
    ensures k == t.K + 1
  {
    var u, v := Task(t.I, t.J, t.K + 1), Task(t.I, t.J, t.K);
    assert v == t && v in done';
    assert u !in done && u !in done';
  }

  lemma LevelElsewhere(done: iset<Task>, done': iset<Task>, t: Task, I: nat, J: nat, k: nat)
    requires done' == done + iset{t} && Level(done', I, J, k) && !(I == t.I && J == t.J)
    ensures Level(done, I, J, k)
  {
    forall x: nat ensures Task(I, J, x) in done <==> x < k {
      assert Task(I, J, x) in done' <==> x < k;
    }
  }

  lemma BlockKept<N>(c: Config, ops: Ops<N>, A: Matrix<N>, M: Matrix<N>, t: Task, I: nat, J: nat, k: nat)
    requires c.Valid() && IsTask(c, t) && !(I == t.I && J == t.J) && BlockAt(c, ops, A, M, I, J, k)
    ensures BlockAt(c, ops, A, After(c, ops, t, M), I, J, k)
  {
    var M' := After(c, ops, t, M);
    hide At, Now, c.Block, c.Blocks, First, End;
    forall i: nat, j: nat | i < c.n && j < c.n && c.Block(i) == I && c.Block(j) == J ensures M'(i, j) == M(i, j) {
      InBlock(c, i, t.I);
      InBlock(c, j, t.J);
    }
  }

  lemma SameBlock<N>(c: Config, ops: Ops<N>, A: Matrix<N>, M: Matrix<N>, M': Matrix<N>, I: nat, J: nat, k: nat)
    requires c.Valid() && SameMemory(c, M', M) && BlockAt(c, ops, A, M, I, J, k)
    ensures BlockAt(c, ops, A, M', I, J, k)
  {
    hide At, c.Block;
  }

  lemma FinishKeeps<N>(c: Config, ops: Ops<N>, A: Matrix<N>, s: State<N>, s': State<N>, p: nat)
    requires c.Valid() && Inv(c, ops, A, s) && FinishStep(c, ops, s, s', p)
    ensures Inv(c, ops, A, s')
  {
    hide BlockAt, Level, After, SameMemory, InputsReady;
    var t := s.busy[p].t;
    TargetLevel(c, s, p, t);
    KernelsFindInputs(c, ops, A, s, p);
    FinishKeepsMemory(c, ops, A, s, s', t);
    FinishKeepsDone(c, s, s', p);
    forall q | 0 <= q < c.P() && s'.busy[q].Doing? ensures Mine(c, s', q, s'.busy[q].t) && s'.busy[q].t !in s'.done {
      assert Mine(c, s, q, s.busy[q].t);
    }
  }

  /** Moving a processor on from a place it is through with. */
  lemma MoveKeepsDone<N>(c: Config, s: State<N>, s': State<N>)
    requires c.Valid() && Shape(c, s) && Shape(c, s') && DoneOk(c, s) && s'.done == s.done
    requires forall p :: 0 <= p < c.P() ==> s'.at[p] == s.at[p] || (Through(c, s, p) && Follows(s.at[p], s'.at[p]))
    ensures DoneOk(c, s')
  {
    forall t, p | t in s'.done && 0 <= p < c.P() && c.Owner(t.I, t.J) == p ensures !s'.at[p].Before(Place(t)) {
      assert !s.at[p].Before(Place(t));
    }
    forall t, p | IsTask(c, t) && 0 <= p < c.P() && c.Owner(t.I, t.J) == p && Place(t).Before(s'.at[p])
      ensures t in s'.done {
      if !Place(t).Before(s.at[p]) {
        assert Place(t) == s.at[p];
        assert Mine(c, s, p, t);
      }
    }
  }

  ghost predicate Follows(a: Pos, b: Pos)
  {
    (a.phase < 2 && b == Pos(a.K, a.phase + 1)) || (a.phase == 2 && b == Pos(a.K + 1, 0))
  }

  lemma AdvanceKeeps<N>(c: Config, ops: Ops<N>, A: Matrix<N>, s: State<N>, s': State<N>, p: nat)
    requires c.Valid() && Inv(c, ops, A, s) && AdvanceStep(c, s, s', p)
    ensures Inv(c, ops, A, s')
  {
    hide BlockAt, Level;
    MoveKeepsDone(c, s, s');
    forall q | 0 <= q < c.P() && s'.busy[q].Doing? ensures Mine(c, s', q, s'.busy[q].t) {
      assert Mine(c, s, q, s.busy[q].t);
    }
  }

  lemma BarrierKeeps<N>(c: Config, ops: Ops<N>, A: Matrix<N>, s: State<N>, s': State<N>)
    requires c.Valid() && Inv(c, ops, A, s) && BarrierStep(c, s, s')
    ensures Inv(c, ops, A, s')
  {
    hide BlockAt, Level;
    MoveKeepsDone(c, s, s');
  }

  lemma LevelAtStart(done: iset<Task>, I: nat, J: nat, k: nat)
    requires done == iset{} && Level(done, I, J, k)
    ensures k == 0
  {
    assert Task(I, J, 0) !in done;
  }

  lemma BlockAtStart<N>(c: Config, ops: Ops<N>, A: Matrix<N>, M: Matrix<N>, I: nat, J: nat)
    requires c.Valid() && forall i: nat, j: nat :: i < c.n && j < c.n ==> M(i, j) == A(i, j)
    ensures BlockAt(c, ops, A, M, I, J, 0)
  {
    hide c.Block;
    forall i: nat, j: nat | i < c.n && j < c.n ensures M(i, j) == At(ops, A, i, j, 0 * c.bs) {
      assert 0 * c.bs == 0;
      assert At(ops, A, i, j, 0) == A(i, j);
    }
  }

  lemma InitMemory<N>(c: Config, ops: Ops<N>, A: Matrix<N>, s: State<N>)
    requires c.Valid() && s.done == iset{}
    requires forall i: nat, j: nat :: i < c.n && j < c.n ==> s.M(i, j) == A(i, j)
    ensures MemoryOk(c, ops, A, s)
  {
    hide BlockAt, Level;
    forall I: nat, J: nat, k: nat | Level(s.done, I, J, k) ensures BlockAt(c, ops, A, s.M, I, J, k) {
      LevelAtStart(s.done, I, J, k);
      BlockAtStart(c, ops, A, s.M, I, J);
    }
  }

  lemma InitPlaces<N>(c: Config, s: State<N>)
    requires c.Valid() && Shape(c, s) && s.passed == 0
    requires forall p :: 0 <= p < c.P() ==> s.at[p] == Pos(0, 0) && s.busy[p] == Idle
    ensures PlacesOk(c, s) && BusyOk(c, s)
  {
    hide Mine, c.P;
    assert c.Blocks() >= 0;
    hide c.Blocks;
  }

  lemma InitDone<N>(c: Config, s: State<N>)
    requires c.Valid() && Shape(c, s) && s.done == iset{}
    requires forall p :: 0 <= p < c.P() ==> s.at[p] == Pos(0, 0)
    ensures DoneOk(c, s)
  {
    hide c.P, c.Owner, IsTask, Place;
  }

  lemma InitHolds<N>(c: Config, ops: Ops<N>, A: Matrix<N>, s: State<N>)
    requires c.Valid() && Init(c, A, s)
    ensures Inv(c, ops, A, s)
  {
    hide MemoryOk, PlacesOk, BusyOk, DoneOk;
    InitMemory(c, ops, A, s);
    InitPlaces(c, s);
    InitDone(c, s);
  }

  lemma StepKeeps<N>(c: Config, ops: Ops<N>, A: Matrix<N>, s: State<N>, s': State<N>, a: Action)
    requires c.Valid() && Inv(c, ops, A, s) && Step(c, ops, s, s', a)
    ensures Inv(c, ops, A, s')
  {
    hide Inv, StartStep, FinishStep, AdvanceStep, BarrierStep;
    match a
    case Start(p, t) => StartKeeps(c, ops, A, s, s', p, t);
    case Finish(p) => FinishKeeps(c, ops, A, s, s', p);
    case Advance(p) => AdvanceKeeps(c, ops, A, s, s', p);
    case Barrier => BarrierKeeps(c, ops, A, s, s');
  }

  lemma {:induction false} RunKeeps<N>(c: Config, ops: Ops<N>, A: Matrix<N>, tr: seq<State<N>>, acts: seq<Action>)
    requires c.Valid() && IsRun(c, ops, A, tr, acts)
    ensures Inv(c, ops, A, tr[|tr| - 1])
    decreases |tr|
  {
    hide Inv, Init, Step;
    if |acts| == 0 {
      InitHolds(c, ops, A, tr[0]);
    } else {
      RunKeeps(c, ops, A, tr[..|tr| - 1], acts[..|acts| - 1]);
      StepKeeps(c, ops, A, tr[|tr| - 2], tr[|tr| - 1], acts[|acts| - 1]);
    }
  }

  // ---------------------------------------------------------------------
  // Main results
  // ---------------------------------------------------------------------

  /** In every run no kernel writes a block while another kernel reads or writes it. */
  lemma EveryRunIsRaceFree<N>(c: Config, ops: Ops<N>, A: Matrix<N>, tr: seq<State<N>>, acts: seq<Action>, p: nat,
                              q: nat)
    requires c.Valid() && IsRun(c, ops, A, tr, acts) && p < c.P() && q < c.P() && p != q
    ensures var s := tr[|tr| - 1];
      !s.racy && Shape(c, s) && (s.busy[p].Doing? && s.busy[q].Doing? ==> !Conflict(s.busy[p].t, s.busy[q].t))
  {
    RunKeeps(c, ops, A, tr, acts);
    var s := tr[|tr| - 1];
    if s.busy[p].Doing? && s.busy[q].Doing? {
      NoConflict(c, s, p, q, s.busy[p].t, s.busy[q].t);
    }
  }

  lemma FinishedLevel<N>(c: Config, s: State<N>, I: nat, J: nat)
    requires c.Valid() && Shape(c, s) && DoneOk(c, s) && Finished(c, s) && I < c.Blocks() && J < c.Blocks()
    ensures Level(s.done, I, J, (if I < J then I else J) + 1)
  {
    OwnerInRange(c, I, J);
    forall x: nat ensures Task(I, J, x) in s.done <==> x < (if I < J then I else J) + 1 {
      var u := Task(I, J, x);
      if IsTask(c, u) {
        assert Place(u).Before(s.at[c.Owner(I, J)]);
      }
    }
  }

  lemma FinishedEntry<N>(c: Config, ops: Ops<N>, A: Matrix<N>, s: State<N>, i: nat, j: nat)
    requires c.Valid() && Shape(c, s) && DoneOk(c, s) && MemoryOk(c, ops, A, s) && Finished(c, s) && i < c.n && j < c.n
    ensures s.M(i, j) == Final(ops, A, i, j)
  {
    var I, J := c.Block(i), c.Block(j);
    BlockInRange(c, i);
    BlockInRange(c, j);
    BelowNextBlock(c, i, I);
    BelowNextBlock(c, j, J);
    hide Final, Partial, Level, c.Block, c.Blocks;
    var k := (if I < J then I else J) + 1;
    FinishedLevel(c, s, I, J);
    assert BlockAt(c, ops, A, s.M, I, J, k);
  }

  /** A finished run leaves in every entry exactly what lu0 on the whole matrix leaves there. */
  lemma EveryRunFactors<N>(c: Config, ops: Ops<N>, A: Matrix<N>, tr: seq<State<N>>, acts: seq<Action>, i: nat, j: nat)
    requires c.Valid() && IsRun(c, ops, A, tr, acts) && i < c.n && j < c.n
    requires Shape(c, tr[|tr| - 1]) && Finished(c, tr[|tr| - 1])
    ensures tr[|tr| - 1].M(i, j) == Final(ops, A, i, j) == At(ops, A, i, j, c.n)
  {
    hide Final, Partial, Finished, DoneOk, MemoryOk, PlacesOk, BusyOk;
    RunKeeps(c, ops, A, tr, acts);
    FinishedEntry(c, ops, A, tr[|tr| - 1], i, j);
  }

  /** Taken as one block, the whole matrix goes through the eliminations one by one. */
  lemma {:induction false} WholeIsAt<N>(ops: Ops<N>, A: Matrix<N>, n: nat, i: nat, j: nat, x: nat)
    requires i < n && j < n && x <= n
    ensures Now(ops, A, Span(0, n, 0, n, 0), i, j, x) == At(ops, A, i, j, x)
    decreases x, if i + 1 == x then 0 else 1
  {
    hide At;
    if x == 0 {
      assert At(ops, A, i, j, 0) == A(i, j) by { AtStart(ops, A, i, j); }
    } else {
      var k := x - 1;
      WholeIsAt(ops, A, n, i, j, k);
      AtNext(ops, A, i, j, k);
      if i == k && k < j {
        WholeIsAt(ops, A, n, k, k, k);
      } else if k < i && k < j {
        WholeIsAt(ops, A, n, k, j, x);
        WholeIsAt(ops, A, n, i, k, k);
      }
    }
  }

  lemma AtStart<N>(ops: Ops<N>, A: Matrix<N>, i: nat, j: nat)
    ensures At(ops, A, i, j, 0) == A(i, j)
  {
  }

  /** lu0 on the whole matrix leaves in every entry what the processors left there in a finished run. */
  method SameAsLu0<N>(c: Config, ops: Ops<N>, a: array2<N>, ghost A: Matrix<N>, ghost last: State<N>,
                      ghost tr: seq<State<N>>, ghost acts: seq<Action>)
    requires c.Valid() && IsRun(c, ops, A, tr, acts) && last == tr[|tr| - 1] && Shape(c, last) && Finished(c, last)
    requires a.Length0 == c.n && a.Length1 == c.n && Copies(A, a, 0, 0)
    modifies a
    ensures forall i: nat, j: nat :: i < c.n && j < c.n ==> a[i, j] == last.M(i, j)
  {
    hide Final, Partial, IsRun, Finished, Shape, At, Now;
    Lu0(ops, a, c.n, A, Span(0, c.n, 0, c.n, 0));
    forall i: nat, j: nat | i < c.n && j < c.n ensures a[i, j] == last.M(i, j) {
      WholeIsAt(ops, A, c.n, i, j, c.n);
      EveryRunFactors(c, ops, A, tr, acts, i, j);
    }
  }

  lemma BelowNextBlock(c: Config, i: nat, I: nat)
    requires c.Valid() && I == c.Block(i)
    ensures i < (I + 1) * c.bs
  {
    Arith.DivMod(i, c.bs);
    Arith.MulNext(I, c.bs);
  }

  /** Over the reals, with nonzero pivots, the factors left in memory multiply back to the matrix. */
  lemma EveryRunMultipliesBack(c: Config, A: Matrix<real>, tr: seq<State<real>>, acts: seq<Action>, M: Matrix<real>,
                               i: nat, j: nat)
    requires c.Valid() && IsRun(c, RealOps, A, tr, acts) && i < c.n && j < c.n
    requires Shape(c, tr[|tr| - 1]) && Finished(c, tr[|tr| - 1]) && M == tr[|tr| - 1].M
    requires forall k: nat :: k < c.n ==> M(k, k) != 0.0
    ensures Product(M, i, j, c.n) == A(i, j)
  {
    hide IsRun, Final, Shape, Finished;
    forall x: nat, y: nat | x < c.n && y < c.n ensures M(x, y) == Final(RealOps, A, x, y) {
      EveryRunFactors(c, RealOps, A, tr, acts, x, y);
    }
    FactorsMultiplyBack(A, c.n, i, j);
    ProductIsDot(A, M, i, j, c.n, c.n);
  }

  /** Lower times unit upper triangle of one stored matrix, first m terms of entry (i, j). */
  ghost function Product(M: Matrix<real>, i: nat, j: nat, m: nat): real
  {
    if m == 0 then 0.0
    else Product(M, i, j, m - 1)
         + (if m - 1 <= i then M(i, m - 1) else 0.0) * (if m - 1 < j then M(m - 1, j) else if m - 1 == j then 1.0
           else 0.0)
  }

  lemma {:induction false} ProductIsDot(A: Matrix<real>, M: Matrix<real>, i: nat, j: nat, n: nat, m: nat)
    requires i < n && j < n && m <= n
    requires forall x: nat, y: nat :: x < n && y < n ==> M(x, y) == Final(RealOps, A, x, y)
    ensures Product(M, i, j, m) == Dot(A, i, j, m)
  {
    hide Final;
    if m > 0 {
      ProductIsDot(A, M, i, j, n, m - 1);
    }
  }

  /** In every reachable state that is not finished some processor, or the barrier, can move. */
  lemma NoDeadlock<N>(c: Config, ops: Ops<N>, A: Matrix<N>, s: State<N>) returns (a: Action, s': State<N>)
    requires c.Valid() && Inv(c, ops, A, s) && !Finished(c, s)
    ensures Step(c, ops, s, s', a)
  {
    hide BlockAt, Level, After, MemoryOk, DoneOk;
    if p :| 0 <= p < c.P() && s.busy[p].Doing? {
      var t := s.busy[p].t;
      a, s' := Finish(p), s.(busy := s.busy[p := Idle], done := s.done + iset{t}, M := After(c, ops, t, s.M));
    } else if p, t :| 0 <= p < c.P() && Mine(c, s, p, t) && t !in s.done {
      a, s' := Start(p, t), s.(busy := s.busy[p := Doing(t)], racy := s.racy || Clash(s, t));
    } else if p :| 0 <= p < c.P() && s.at[p].phase == 2 {
      a, s' := Advance(p), s.(at := s.at[p := Pos(s.at[p].K + 1, 0)]);
    } else {
      var p :| 0 <= p < c.P() && s.at[p].K != c.Blocks();
      a, s' := Barrier,
        s.(at := seq(c.P(), q requires 0 <= q < c.P() => Pos(s.at[q].K, s.at[q].phase + 1)), passed := s.passed + 1);
    }
  }
}
