/** The pointer loops of the Stockham pass kernels.

    Arrays hold one complex value per 16-byte cell, so a register that addresses one is a
    byte offset and a register of g points is g neighbouring cells. The butterfly and the
    twiddle product are parameters: the loops only decide what is read, what is multiplied
    and where it is stored. */
module PassWalk {
  import opened Modular

  /** The arithmetic of a pass kernel: output j of the butterfly of inputs xs, the product of
      an output and its twiddle, and the twiddle whose parts two cells hold. */
  datatype Body<!C> = Body(bfly: (seq<C>, int) -> C, mul: (C, C) -> C, join: (C, C) -> C)

  // ------------------------------------------------------------ the cells of a pass

  /** The points a radix-r pass over l1 blocks of r·ido points reads and writes. */
  function Size(r: int, ido: int, l1: int): int {
    ido * (l1 * r)
  }

  /** Cell i + ido·(k + l1·j), output j of point i of block k. */
  function Cell(ido: int, l1: int, i: int, k: int, j: int): int {
    i + ido * (k + l1 * j)
  }

  function PointOf(ido: int, a: int): int requires ido > 0 {
    a % ido
  }

  function BlockOf(ido: int, l1: int, a: int): int requires ido > 0 && l1 > 0 {
    (a / ido) % l1
  }

  function OutputOf(ido: int, l1: int, a: int): int requires ido > 0 && l1 > 0 {
    (a / ido) / l1
  }

  /** Every cell below r·l1·ido is that of exactly one point, block and output. */
  lemma CellDecodes(ido: int, l1: int, r: int, a: int)
    requires ido > 0 && l1 > 0 && 0 <= a < Size(r, ido, l1)
    ensures 0 <= PointOf(ido, a) < ido && 0 <= BlockOf(ido, l1, a) < l1 && 0 <= OutputOf(ido, l1, a) < r
    ensures a == Cell(ido, l1, PointOf(ido, a), BlockOf(ido, l1, a), OutputOf(ido, l1, a))
  {
    CellOf(ido, l1 * r, a);
    CellOf(l1, r, a / ido);
  }

  lemma CellEncodes(ido: int, l1: int, r: int, i: int, k: int, j: int)
    requires 0 <= i < ido && 0 <= k < l1 && 0 <= j < r
    ensures 0 <= Cell(ido, l1, i, k, j) < Size(r, ido, l1)
    ensures PointOf(ido, Cell(ido, l1, i, k, j)) == i
    ensures BlockOf(ido, l1, Cell(ido, l1, i, k, j)) == k
    ensures OutputOf(ido, l1, Cell(ido, l1, i, k, j)) == j
  {
    CellBounds(l1, r, k, j);
    CellBounds(ido, l1 * r, i, k + l1 * j);
    DivModUnique(ido, i, k + l1 * j);
    DivModUnique(l1, k, j);
  }

  // ------------------------------------------------------------ the grouped twiddle stream

  /** The first point, and the number of points, of the twiddle group point i is in: groups
      of four, then one pair and one single point for ido mod 4. */
  function GroupStart(ido: int, i: int): int {
    if i < ido - ido % 4 then i - i % 4
    else if ido % 4 >= 2 && i < ido - ido % 4 + 2 then ido - ido % 4
    else i
  }

  function GroupSize(ido: int, i: int): int {
    if i < ido - ido % 4 then 4
    else if ido % 4 >= 2 && i < ido - ido % 4 + 2 then 2
    else 1
  }

  lemma SameGroup(ido: int, i: int, p: int)
    requires 0 <= i && 0 <= p && i + p < GroupStart(ido, i) + GroupSize(ido, i)
    ensures GroupStart(ido, i + p) == GroupStart(ido, i) && GroupSize(ido, i + p) == GroupSize(ido, i)
  {
  }

  /** The cells one twiddle takes: radix 16 stores its real part and its imaginary part in
      a cell each. */
  function TwiddleCells(r: int): int {
    if r == 16 then 2 else 1
  }

  /** Where twiddle j of point i is stored: the groups before it, then the runs of the
      twiddles before j, then the points of the group before i. */
  function TwiddleIndex(ido: int, r: int, i: int, j: int): int {
    TwiddleCells(r) * ((r - 1) * GroupStart(ido, i) + (j - 1) * GroupSize(ido, i)) + (i - GroupStart(ido, i))
  }

  lemma GroupBounds(ido: int, i: int)
    requires 0 <= i < ido
    ensures 0 <= GroupStart(ido, i) <= i < GroupStart(ido, i) + GroupSize(ido, i) <= ido
  {
  }

  lemma TwiddleInTable(ido: int, r: int, i: int, j: int)
    requires 0 <= i < ido && 1 <= j < r
    ensures 0 <= TwiddleIndex(ido, r, i, j) < TwiddleCells(r) * ((r - 1) * ido)
    ensures r == 16 ==> TwiddleIndex(ido, r, i, j) + GroupSize(ido, i) < 2 * ((r - 1) * ido)
  {
    GroupBounds(ido, i);
    RunFits(r - 1, GroupStart(ido, i), GroupSize(ido, i), ido, i - GroupStart(ido, i), j - 1);
  }

  lemma RunFits(r: int, s: int, g: int, ido: int, p: int, j: int)
    requires 0 <= s && s + g <= ido && 0 <= p < g && 0 <= j < r
    ensures 0 <= r * s + j * g && r * s + j * g + g <= r * ido
  {
    MulAdd(r, s, g);
    MulAdd(r, s + g, ido - s - g);
    MulLower(r, ido - s - g);
    MulSub(g, r, j);
    MulLower(g, r - j);
  }

  /** Twiddle j of point i. */
  function Twiddle<C>(body: Body<C>, tw: seq<C>, r: int, ido: int, i: int, j: int): C
    requires 0 <= i < ido && 1 <= j < r && |tw| >= TwiddleCells(r) * ((r - 1) * ido)
  {
    TwiddleInTable(ido, r, i, j);
    var t := TwiddleIndex(ido, r, i, j);
    if r == 16 then body.join(tw[t], tw[t + GroupSize(ido, i)]) else tw[t]
  }

  // ------------------------------------------------------------ what a pass must compute

  /** Input j of point i of block k. */
  function InputCell(r: int, ido: int, i: int, k: int, j: int): int {
    i + ido * (j + r * k)
  }

  lemma InputInRange(r: int, ido: int, l1: int, i: int, k: int, j: int)
    requires 0 <= i < ido && 0 <= k < l1 && 0 <= j < r
    ensures 0 <= InputCell(r, ido, i, k, j) < Size(r, ido, l1)
  {
    CellBounds(r, l1, j, k);
    CellBounds(ido, l1 * r, i, j + r * k);
  }

  function PassInput<C>(cc: seq<C>, r: int, ido: int, l1: int, i: int, k: int): (xs: seq<C>)
    requires r > 0 && 0 <= i < ido && 0 <= k < l1 && |cc| >= Size(r, ido, l1)
  {
    seq(r, j requires 0 <= j < r => (InputInRange(r, ido, l1, i, k, j); cc[InputCell(r, ido, i, k, j)]))
  }

  /** The value of cell (i, k, j): point i = 0 of a block is not multiplied. */
  function PassOutput<C>(body: Body<C>, cc: seq<C>, tw: seq<C>, r: int, ido: int, l1: int, i: int, k: int, j: int): C
    requires 0 <= i < ido && 0 <= k < l1 && 0 <= j < r
    requires |cc| >= Size(r, ido, l1) && |tw| >= TwiddleCells(r) * ((r - 1) * ido)
  {
    var y := body.bfly(PassInput(cc, r, ido, l1, i, k), j);
    if j == 0 || i == 0 then y else body.mul(y, Twiddle(body, tw, r, ido, i, j))
  }

  /** What a pass makes of cc. */
  function PassResult<C>(body: Body<C>, cc: seq<C>, tw: seq<C>, r: int, ido: int, l1: int): (ch: seq<C>)
    requires r > 0 && ido > 0 && l1 > 0
    requires |cc| >= Size(r, ido, l1) && |tw| >= TwiddleCells(r) * ((r - 1) * ido)
    ensures |ch| == Size(r, ido, l1)
  {
    SizePositive(r, ido, l1);
    seq(Size(r, ido, l1), a requires 0 <= a < Size(r, ido, l1) => ResultCell(body, cc, tw, r, ido, l1, a))
  }

  function ResultCell<C>(body: Body<C>, cc: seq<C>, tw: seq<C>, r: int, ido: int, l1: int, a: int): C
    requires r > 0 && ido > 0 && l1 > 0 && 0 <= a < Size(r, ido, l1)
    requires |cc| >= Size(r, ido, l1) && |tw| >= TwiddleCells(r) * ((r - 1) * ido)
  {
    CellDecodes(ido, l1, r, a);
    PassOutput(body, cc, tw, r, ido, l1, PointOf(ido, a), BlockOf(ido, l1, a), OutputOf(ido, l1, a))
  }

  lemma SizePositive(r: int, ido: int, l1: int)
    requires r > 0 && ido > 0 && l1 > 0
    ensures Size(r, ido, l1) > 0
  {
    CellEncodes(ido, l1, r, 0, 0, 0);
  }

  /** Cell (i, k, j) of the result. */
  lemma ResultAt<C>(body: Body<C>, cc: seq<C>, tw: seq<C>, r: int, ido: int, l1: int, i: int, k: int, j: int)
    requires 0 <= i < ido && 0 <= k < l1 && 0 <= j < r
    requires |cc| >= Size(r, ido, l1) && |tw| >= TwiddleCells(r) * ((r - 1) * ido)
    ensures 0 <= Cell(ido, l1, i, k, j) < Size(r, ido, l1)
    ensures PassResult(body, cc, tw, r, ido, l1)[Cell(ido, l1, i, k, j)] == PassOutput(body, cc, tw, r, ido, l1, i, k, j)
  {
    CellEncodes(ido, l1, r, i, k, j);
  }

  // ------------------------------------------------------------ groups of g points

  lemma GroupCell(g: int, ido: int, i: int, p: int, n: int)
    ensures (p + g * i) + (g * ido) * n == p + g * (i + ido * n)
  {
    MulAdd(g, i, ido * n);
    MulRegroup(g, ido, n);
  }

  lemma GroupSizes(g: int, r: int, ido: int, l1: int)
    ensures Size(r, g * ido, l1) == g * Size(r, ido, l1)
  {
    MulRegroup(g, ido, l1 * r);
  }

  lemma FirstPoint(g: int, i: int, p: int)
    requires 0 <= i && 0 <= p < g
    ensures p + g * i == 0 <==> i == 0 && p == 0
  {
    MulLower(g, i);
    assert i == 0 ==> g * i == 0;
  }
}
