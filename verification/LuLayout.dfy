/**
 Where matrix entry (i, j) is stored: the block arrays carved out of one area per
 processor (apps/lu/lu.c, lines 206-264) and the index computation of InitA
 (lines 811-836).
 */
module LuLayout {
  import opened LuParallel
  import Arith

  /** Side of the last block row and column, as main computes it. */
  function Edge(c: Config): nat
    requires c.Valid()
  {
    if c.n % c.bs == 0 then c.bs else c.n % c.bs
  }

  /** Number of matrix rows in block row I. */
  function Dim(c: Config, I: nat): nat
    requires c.Valid()
  {
    if I + 1 == c.Blocks() then Edge(c) else c.bs
  }

  /** The three-way choice of the size of a block. */
  function Size(c: Config, I: nat, J: nat): nat
    requires c.Valid()
  {
    if I + 1 == c.Blocks() && J + 1 == c.Blocks() then Edge(c) * Edge(c)
    else if I + 1 == c.Blocks() || J + 1 == c.Blocks() then Edge(c) * c.bs
    else c.bs * c.bs
  }

  lemma SizeIsArea(c: Config, I: nat, J: nat)
    requires c.Valid()
    ensures Size(c, I, J) == Dim(c, I) * Dim(c, J)
  {
    hide Edge, c.Blocks;
  }

  /** Index of (i, j) inside its block, as InitA computes it. */
  function Offset(c: Config, i: nat, j: nat): nat
    requires c.Valid() && i < c.n && j < c.n
  {
    var edge := c.n % c.bs;
    EdgeFits(c);
    var ibs := if c.n - i <= edge then c.n - edge else c.bs;
    var skip := if c.n - i <= edge then edge else c.bs;
    var jbs := if c.n - j <= edge then c.n - edge else c.bs;
    Arith.DivNat(i, ibs);
    Arith.DivNat(j, jbs);
    Arith.TimesNat(j % jbs, skip);
    i % ibs + (j % jbs) * skip
  }

  lemma EdgeFits(c: Config)
    requires c.Valid()
    ensures c.n % c.bs < c.bs <= c.n - c.n % c.bs
    ensures c.n - c.n % c.bs == (c.n / c.bs) * c.bs
  {
    Arith.DivMod(c.n, c.bs);
    Arith.MulCompare(c.n / c.bs, 0, c.bs);
    Arith.MulCompare(1, c.n / c.bs, c.bs);
  }

  /** Rows I * bs .. I * bs + Dim are the matrix rows of block row I. */
  lemma BlockRows(c: Config, i: nat, I: nat)
    requires c.Valid() && I < c.Blocks()
    ensures i < c.n && c.Block(i) == I <==> I * c.bs <= i < I * c.bs + Dim(c, I)
  {
    Arith.DivMod(i, c.bs);
    EdgeFits(c);
    var q := c.n / c.bs;
    Arith.DivMod(c.n, c.bs);
    Arith.MulNext(I, c.bs);
    Arith.MulCompare(I + 1, q, c.bs);
    if I * c.bs <= i < I * c.bs + Dim(c, I) {
      Arith.DivModUnique(i, c.bs, I, i - I * c.bs);
    }
  }

  /** The arrays the kernels work on have the sizes that were allocated. */
  lemma DimIsSpan(c: Config, I: nat)
    requires c.Valid() && I < c.Blocks()
    ensures First(c, I) + Dim(c, I) == End(c, I)
  {
    EdgeFits(c);
    Arith.MulNext(I, c.bs);
    Arith.MulCompare(I + 1, c.n / c.bs, c.bs);
  }

  /** The remainder InitA takes is the distance from the first row of the block. */
  lemma RowInBlock(c: Config, i: nat, I: nat)
    requires c.Valid() && i < c.n && I == c.Block(i)
    ensures I < c.Blocks() && I * c.bs <= i < I * c.bs + Dim(c, I)
    ensures c.n - i <= c.n % c.bs <==> I + 1 == c.Blocks() && c.n % c.bs != 0
    ensures c.n - i <= c.n % c.bs ==> i % (c.n - c.n % c.bs) == i - I * c.bs
    ensures !(c.n - i <= c.n % c.bs) ==> i % c.bs == i - I * c.bs
  {
    BlockInRange(c, i);
    BlockRows(c, i, I);
    EdgeFits(c);
    Arith.DivMod(i, c.bs);
    var q, m := c.n / c.bs, c.n - c.n % c.bs;
    Arith.MulNext(I, c.bs);
    Arith.MulCompare(I + 1, q, c.bs);
    Arith.MulCompare(q, I, c.bs);
    if c.n - i <= c.n % c.bs {
      Arith.DivModUnique(i, m, 1, i - m);
    }
  }

  /** Inside its block (i, j) is stored column by column, with the block's own height as stride. */
  lemma OffsetIsColumnMajor(c: Config, i: nat, j: nat, I: nat, J: nat)
    requires c.Valid() && i < c.n && j < c.n && I == c.Block(i) && J == c.Block(j)
    ensures I * c.bs <= i < I * c.bs + Dim(c, I) && J * c.bs <= j < J * c.bs + Dim(c, J)
    ensures Offset(c, i, j) == (i - I * c.bs) + (j - J * c.bs) * Dim(c, I)
  {
    RowInBlock(c, i, I);
    RowInBlock(c, j, J);
    hide c.Block;
  }

  // ---------------------------------------------------------------------
  // Carving the blocks out of the processors' areas
  // ---------------------------------------------------------------------

  /** Elements of processor p's area used by the first k blocks, taken row by row. */
  ghost function Used(c: Config, p: nat, k: nat): nat
    requires c.Valid()
  {
    if k == 0 then 0 else Used(c, p, k - 1) + Share(c, p, (k - 1) / Side(c), (k - 1) % Side(c))
  }

  /** Blocks per side, at least one. */
  function Side(c: Config): (r: nat)
    requires c.Valid()
    ensures r == c.Blocks() && r >= 1
  {
    EdgeFits(c);
    c.Blocks()
  }

  function Share(c: Config, p: nat, I: nat, J: nat): nat
    requires c.Valid()
  {
    if c.Owner(I, J) == p then Size(c, I, J) else 0
  }

  lemma UsedNext(c: Config, p: nat, I: nat, J: nat)
    requires c.Valid() && J < Side(c)
    ensures Used(c, p, I * Side(c) + J + 1) == Used(c, p, I * Side(c) + J) + Share(c, p, I, J)
  {
    Arith.DivModUnique(I * Side(c) + J, Side(c), I, J);
  }

  lemma {:induction false} UsedGrows(c: Config, p: nat, k: nat, k': nat)
    requires c.Valid() && k <= k'
    ensures Used(c, p, k) <= Used(c, p, k')
  {
    if k < k' { UsedGrows(c, p, k, k' - 1); }
  }

  /** The two allocation passes: the size of every area, then the start of every block in its area. */
  method Allocate(c: Config) returns (areas: array<nat>, starts: array2<nat>)
    requires c.Valid()
    ensures fresh(areas) && fresh(starts)
    ensures areas.Length == c.P() && starts.Length0 == Side(c) && starts.Length1 == Side(c)
    ensures forall p: nat :: p < c.P() ==> areas[p] == Used(c, p, Side(c) * Side(c))
    ensures forall I: nat, J: nat :: I < Side(c) && J < Side(c) ==> starts[I, J] == Start(c, I, J)
  {
    hide Size, c.Owner, c.P, c.Blocks, Start;
    areas := AreaSizes(c);
    var nb := Side(c);
    var last := new nat[c.P()](_ => 0);
    starts := new nat[nb, nb]((_, _) => 0);
    var i := 0;
    ghost var k := 0;
    while i < nb
      modifies last, starts
      invariant 0 <= i <= nb && k == i * nb
      invariant forall p: nat :: p < c.P() ==> last[p] == Used(c, p, k)
      invariant forall I: nat, J: nat :: I < i && J < nb ==> starts[I, J] == Start(c, I, J)
    {
      hide Used;
      var j := 0;
      while j < nb
        modifies last, starts
        invariant 0 <= j <= nb && k == i * nb + j
        invariant forall p: nat :: p < c.P() ==> last[p] == Used(c, p, k)
        invariant forall I: nat, J: nat :: I < nb && J < nb && (I < i || (I == i && J < j)) ==>
          starts[I, J] == Start(c, I, J)
      {
        OwnerInRange(c, i, j);
        NextBlock(c, i, j, k);
        var p := c.Owner(i, j);
        starts[i, j] := last[p];
        last[p] := last[p] + Size(c, i, j);
        j, k := j + 1, k + 1;
      }
      Arith.MulNext(i, nb);
      i := i + 1;
    }
  }

  method AreaSizes(c: Config) returns (areas: array<nat>)
    requires c.Valid()
    ensures fresh(areas) && areas.Length == c.P()
    ensures forall p: nat :: p < c.P() ==> areas[p] == Used(c, p, Side(c) * Side(c))
  {
    hide Size, c.Owner, c.P, c.Blocks, Start;
    var nb := Side(c);
    areas := new nat[c.P()](_ => 0);
    var i := 0;
    ghost var k := 0;
    while i < nb
      invariant 0 <= i <= nb && k == i * nb
      invariant forall p: nat :: p < c.P() ==> areas[p] == Used(c, p, k)
    {
      hide Used;
      var j := 0;
      while j < nb
        invariant 0 <= j <= nb && k == i * nb + j
        invariant forall p: nat :: p < c.P() ==> areas[p] == Used(c, p, k)
      {
        OwnerInRange(c, i, j);
        NextBlock(c, i, j, k);
        var p := c.Owner(i, j);
        areas[p] := areas[p] + Size(c, i, j);
        j, k := j + 1, k + 1;
      }
      Arith.MulNext(i, nb);
      i := i + 1;
    }
  }

  /** Where block (I, J) starts in the area of its owner. */
  ghost function Start(c: Config, I: nat, J: nat): nat
    requires c.Valid()
  {
    Used(c, c.Owner(I, J), I * Side(c) + J)
  }

  lemma NextBlock(c: Config, i: nat, j: nat, k: nat)
    requires c.Valid() && j < Side(c) && k == i * Side(c) + j
    ensures Used(c, c.Owner(i, j), k) == Start(c, i, j)
    ensures forall p: nat :: Used(c, p, k + 1) == Used(c, p, k) + if c.Owner(i, j) == p then Size(c, i, j) else 0
  {
    hide Size, c.Owner, Used;
    forall p: nat ensures Used(c, p, k + 1) == Used(c, p, k) + Share(c, p, i, j) {
      UsedNext(c, p, i, j);
    }
  }

  // ---------------------------------------------------------------------
  // The storage map is a bijection
  // ---------------------------------------------------------------------

  /** The processor area and the cell in it that hold matrix entry (i, j). */
  ghost function Cell(c: Config, i: nat, j: nat): (nat, nat)
    requires c.Valid() && i < c.n && j < c.n
  {
    var I, J := c.Block(i), c.Block(j);
    var p := c.Owner(I, J);
    (p, Used(c, p, I * Side(c) + J) + Offset(c, i, j))
  }

  /** The cells of a block fill [start, start + size) of its area. */
  lemma OffsetBelowSize(c: Config, i: nat, j: nat)
    requires c.Valid() && i < c.n && j < c.n
    ensures Offset(c, i, j) < Size(c, c.Block(i), c.Block(j))
  {
    hide Offset, Size, Dim, c.Block;
    var I, J := c.Block(i), c.Block(j);
    OffsetIsColumnMajor(c, i, j, I, J);
    SizeIsArea(c, I, J);
    Arith.MulGap(j - J * c.bs, Dim(c, J), Dim(c, I));
    Arith.MulCommutes(Dim(c, I), Dim(c, J));
  }

  lemma BlockNumber(nb: nat, I: nat, J: nat, I': nat, J': nat)
    requires I < nb && J < nb && I' < nb && J' < nb
    ensures I * nb + J < nb * nb
    ensures I * nb + J == I' * nb + J' ==> I == I' && J == J'
  {
    Arith.MulGap(I, nb, nb);
    Arith.DivModUnique(I * nb + J, nb, I, J);
    Arith.DivModUnique(I' * nb + J', nb, I', J');
  }

  /** The cells of block number k stay below the start of every later block of the same owner. */
  lemma BlockEndsBefore(c: Config, I: nat, J: nat, k: nat)
    requires c.Valid() && I < Side(c) && J < Side(c) && I * Side(c) + J < k
    ensures var p := c.Owner(I, J); Used(c, p, I * Side(c) + J) + Size(c, I, J) <= Used(c, p, k)
  {
    var p := c.Owner(I, J);
    UsedNext(c, p, I, J);
    UsedGrows(c, p, I * Side(c) + J + 1, k);
  }

  /** Every entry has a cell inside the area allocated to the owner of its block. */
  lemma CellInArea(c: Config, i: nat, j: nat)
    requires c.Valid() && i < c.n && j < c.n
    ensures Cell(c, i, j).0 < c.P() && Cell(c, i, j).1 < Used(c, Cell(c, i, j).0, Side(c) * Side(c))
  {
    hide Used, Offset, Size, c.Block, c.Owner, c.P;
    var I, J := c.Block(i), c.Block(j);
    BlockInRange(c, i);
    BlockInRange(c, j);
    OwnerInRange(c, I, J);
    OffsetBelowSize(c, i, j);
    BlockNumber(Side(c), I, J, I, J);
    BlockEndsBefore(c, I, J, Side(c) * Side(c));
  }

  /** Inside one block different entries have different offsets. */
  lemma OffsetInjective(c: Config, i: nat, j: nat, i': nat, j': nat)
    requires c.Valid() && i < c.n && j < c.n && i' < c.n && j' < c.n
    requires c.Block(i) == c.Block(i') && c.Block(j) == c.Block(j') && Offset(c, i, j) == Offset(c, i', j')
    ensures i == i' && j == j'
  {
    hide Offset, Dim, c.Block;
    var I, J := c.Block(i), c.Block(j);
    OffsetIsColumnMajor(c, i, j, I, J);
    OffsetIsColumnMajor(c, i', j', I, J);
    var d := Dim(c, I);
    Arith.DivModUnique(Offset(c, i, j), d, j - J * c.bs, i - I * c.bs);
    Arith.DivModUnique(Offset(c, i, j), d, j' - J * c.bs, i' - I * c.bs);
  }

  /** No two entries share a cell. */
  lemma CellInjective(c: Config, i: nat, j: nat, i': nat, j': nat)
    requires c.Valid() && i < c.n && j < c.n && i' < c.n && j' < c.n && Cell(c, i, j) == Cell(c, i', j')
    ensures i == i' && j == j'
  {
    hide Used, Offset, Size, c.Block, c.Owner, c.P;
    var I, J, I', J' := c.Block(i), c.Block(j), c.Block(i'), c.Block(j');
    BlockInRange(c, i);
    BlockInRange(c, j);
    BlockInRange(c, i');
    BlockInRange(c, j');
    OffsetBelowSize(c, i, j);
    OffsetBelowSize(c, i', j');
    BlockNumber(Side(c), I, J, I', J');
    var k, k' := I * Side(c) + J, I' * Side(c) + J';
    if k < k' {
      BlockEndsBefore(c, I, J, k');
    } else if k' < k {
      BlockEndsBefore(c, I', J', k);
    } else {
      OffsetInjective(c, i, j, i', j');
    }
  }

  /** The block whose share of processor p's area contains cell x. */
  lemma {:induction false} BlockHolding(c: Config, p: nat, x: nat, k: nat) returns (I: nat, J: nat)
    requires c.Valid() && x < Used(c, p, k) && k <= Side(c) * Side(c)
    ensures I < Side(c) && J < Side(c) && c.Owner(I, J) == p
    ensures Used(c, p, I * Side(c) + J) <= x < Used(c, p, I * Side(c) + J) + Size(c, I, J)
  {
    hide Size, c.Owner, c.Blocks, Used;
    NothingUsed(c, p);
    if x < Used(c, p, k - 1) {
      I, J := BlockHolding(c, p, x, k - 1);
    } else {
      I, J := (k - 1) / Side(c), (k - 1) % Side(c);
      Arith.DivMod(k - 1, Side(c));
      Arith.DivBelow(k - 1, Side(c), Side(c));
      UsedNext(c, p, I, J);
    }
  }

  lemma NothingUsed(c: Config, p: nat)
    requires c.Valid()
    ensures Used(c, p, 0) == 0
  {
  }

  /** Every allocated cell holds an entry of the matrix. */
  lemma CellOnto(c: Config, p: nat, x: nat) returns (i: nat, j: nat)
    requires c.Valid() && p < c.P() && x < Used(c, p, Side(c) * Side(c))
    ensures i < c.n && j < c.n && Cell(c, i, j) == (p, x)
  {
    hide Used, Offset, Size, Dim, c.Block, c.Owner, c.P;
    var I, J := BlockHolding(c, p, x, Side(c) * Side(c));
    var y := x - Used(c, p, I * Side(c) + J);
    i, j := EntryAt(c, I, J, y);
  }

  lemma EntryAt(c: Config, I: nat, J: nat, y: nat) returns (i: nat, j: nat)
    requires c.Valid() && I < Side(c) && J < Side(c) && y < Size(c, I, J)
    ensures i < c.n && j < c.n && c.Block(i) == I && c.Block(j) == J && Offset(c, i, j) == y
  {
    hide Offset, Size, c.Block, c.Blocks, Dim;
    SizeIsArea(c, I, J);
    DimPositive(c, I);
    var d, e := Dim(c, I), Dim(c, J);
    Arith.DivMod(y, d);
    Arith.DivNat(y, d);
    Arith.MulCommutes(d, e);
    Arith.DivBelow(y, d, e);
    i := RowAt(c, I, y % d);
    j := RowAt(c, J, y / d);
    OffsetIsColumnMajor(c, i, j, I, J);
  }

  /** Row r of block row I. */
  lemma RowAt(c: Config, I: nat, r: nat) returns (i: nat)
    requires c.Valid() && I < Side(c) && r < Dim(c, I)
    ensures i < c.n && c.Block(i) == I && i - I * c.bs == r
  {
    hide c.Block, Dim;
    Arith.TimesNat(I, c.bs);
    i := I * c.bs + r;
    BlockRows(c, i, I);
  }

  lemma DimPositive(c: Config, I: nat)
    requires c.Valid()
    ensures Dim(c, I) >= 1
  {
    EdgeFits(c);
  }
}
