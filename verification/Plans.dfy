/** Plans over the kernels' own radices: their bodies in exact arithmetic, their tables in the
    order the kernels read them, and the transform they compute. */
module Plans {
  import opened Rings
  import opened Dft
  import opened Modular
  import opened PassWalk
  import opened KernelDft
  import opened Complexes
  import opened Butterflies
  import opened Circle
  import opened Radices
  import opened LargeRadices
  import Stockham

  // ------------------------------------------------------------ the tables

  /** The last cell a twiddle takes. */
  function LastCell(ido: int, r: int, i: int, j: int): int {
    TwiddleIndex(ido, r, i, j) + if r == 16 then GroupSize(ido, i) else 0
  }

  /** The cells of point i's group: those from (r-1)·cells times its start on. */
  lemma GroupCells(ido: int, r: int, i: int, j: int)
    requires 0 <= i < ido && 1 <= j < r
    ensures var c, s, g := TwiddleCells(r), GroupStart(ido, i), GroupSize(ido, i);
      && TwiddleIndex(ido, r, i, j) == c * ((r - 1) * s) + c * (g * (j - 1)) + (i - s)
      && c * ((r - 1) * s) <= TwiddleIndex(ido, r, i, j) <= LastCell(ido, r, i, j) < c * ((r - 1) * (s + g))
  {
    var c, s, g := TwiddleCells(r), GroupStart(ido, i), GroupSize(ido, i);
    GroupBounds(ido, i);
    hide GroupStart, GroupSize;
    MulAdd(c, (r - 1) * s, (j - 1) * g);
    MulAdd(r - 1, s, g);
    MulAdd(c, (r - 1) * s, (r - 1) * g);
    RunBounds(c, g, r, i - s, j);
  }

  lemma RunBounds(c: int, g: int, r: int, p: int, j: int)
    requires 1 <= c <= 2 && 0 <= p < g && 1 <= j < r
    ensures 0 <= c * (g * (j - 1)) + p && c * (g * (j - 1)) + p + (c - 1) * g < c * ((r - 1) * g)
    ensures g * (j - 1) == (j - 1) * g
  {
    MulMono(g, 0, j - 1);
    MulMono(g, j, r - 1);
    MulAdd(g, j - 1, 1);
  }

  /** Groups follow one another: of two points, either the groups are the same, or one ends
      before the other starts. */
  lemma GroupsInOrder(ido: int, i: int, i': int)
    requires 0 <= i < ido && 0 <= i' < ido
    ensures var s, g, s', g' := GroupStart(ido, i), GroupSize(ido, i), GroupStart(ido, i'), GroupSize(ido, i');
      (s == s' && g == g') || s + g <= s' || s' + g' <= s
  {
  }

  lemma RunsApart(c: int, g: int, p: int, j: int, p': int, j': int, d: int, d': int)
    requires 1 <= c <= 2 && 0 <= p < g && 0 <= p' < g && 0 <= d < c && 0 <= d' < c
    requires c * (g * (j - 1)) + p + d * g == c * (g * (j' - 1)) + p' + d' * g
    ensures p == p' && j == j' && d == d'
  {
    var m, m' := c * (j - 1) + d, c * (j' - 1) + d';
    assert c * (g * (j - 1)) + d * g == g * m && c * (g * (j' - 1)) + d' * g == g * m' by {
      MulAdd(g, c * (j - 1), d);
      MulAdd(g, c * (j' - 1), d');
      MulRegroup(c, g, j - 1);
      MulRegroup(c, g, j' - 1);
    }
    DivModUnique(g, p, m);
    DivModUnique(g, p', m');
  }

  /** Cell number d of a twiddle: its own, and for radix 16 the one of its imaginary part. */
  function CellOfTwiddle(ido: int, r: int, i: int, j: int, d: int): int {
    TwiddleIndex(ido, r, i, j) + d * GroupSize(ido, i)
  }

  /** No two twiddles share a cell, and all lie in the table, which has no more cells than they take. */
  lemma TwiddlesApart(ido: int, r: int, i: int, j: int, d: int, i': int, j': int, d': int)
    requires 0 <= i < ido && 1 <= j < r && 0 <= d < TwiddleCells(r)
    requires 0 <= i' < ido && 1 <= j' < r && 0 <= d' < TwiddleCells(r)
    ensures 0 <= CellOfTwiddle(ido, r, i, j, d) < TwiddleCells(r) * ((r - 1) * ido)
    ensures CellOfTwiddle(ido, r, i, j, d) == CellOfTwiddle(ido, r, i', j', d') ==> i == i' && j == j' && d == d'
  {
    hide GroupStart, GroupSize, TwiddleIndex, TwiddleCells, CellOfTwiddle, LastCell;
    CellsOrTable(r);
    InTable(ido, r, i, j, d);
    GroupsInOrder(ido, i, i');
    var s, g, s', g' := GroupStart(ido, i), GroupSize(ido, i), GroupStart(ido, i'), GroupSize(ido, i');
    if s == s' && g == g' {
      if CellOfTwiddle(ido, r, i, j, d) == CellOfTwiddle(ido, r, i', j', d') {
        ApartInGroup(ido, r, i, j, d, i', j', d');
      }
    } else if s + g <= s' {
      Before(ido, r, i, j, d, i', j', d');
    } else {
      Before(ido, r, i', j', d', i, j, d);
    }
  }

  lemma CellsOrTable(r: int)
    ensures 1 <= TwiddleCells(r) <= 2
  {
  }

  lemma InTable(ido: int, r: int, i: int, j: int, d: int)
    requires 0 <= i < ido && 1 <= j < r && 0 <= d < TwiddleCells(r)
    ensures 0 <= CellOfTwiddle(ido, r, i, j, d) < TwiddleCells(r) * ((r - 1) * ido)
  {
    hide GroupStart, GroupSize, TwiddleIndex, TwiddleCells, CellOfTwiddle;
    CellInGroup(ido, r, i, j, d);
    GroupBounds(ido, i);
    var c, s, g := TwiddleCells(r), GroupStart(ido, i), GroupSize(ido, i);
    StartsApart(c, r - 1, 0, s);
    StartsApart(c, r - 1, s + g, ido);
  }

  lemma ApartInGroup(ido: int, r: int, i: int, j: int, d: int, i': int, j': int, d': int)
    requires 0 <= i < ido && 1 <= j < r && 0 <= d < TwiddleCells(r)
    requires 0 <= i' < ido && 1 <= j' < r && 0 <= d' < TwiddleCells(r)
    requires GroupStart(ido, i) == GroupStart(ido, i') && GroupSize(ido, i) == GroupSize(ido, i')
    requires CellOfTwiddle(ido, r, i, j, d) == CellOfTwiddle(ido, r, i', j', d')
    ensures i == i' && j == j' && d == d'
  {
    hide GroupStart, GroupSize, TwiddleIndex, TwiddleCells, CellOfTwiddle;
    var s, g := GroupStart(ido, i), GroupSize(ido, i);
    CellsOrTable(r);
    GroupBounds(ido, i);
    GroupBounds(ido, i');
    CellAt(ido, r, i, j, d);
    CellAt(ido, r, i', j', d');
    RunsApart(TwiddleCells(r), g, i - s, j, i' - s, j', d, d');
  }

  lemma Before(ido: int, r: int, i: int, j: int, d: int, i': int, j': int, d': int)
    requires 0 <= i < ido && 1 <= j < r && 0 <= d < TwiddleCells(r)
    requires 0 <= i' < ido && 1 <= j' < r && 0 <= d' < TwiddleCells(r)
    requires GroupStart(ido, i) + GroupSize(ido, i) <= GroupStart(ido, i')
    ensures CellOfTwiddle(ido, r, i, j, d) < CellOfTwiddle(ido, r, i', j', d')
  {
    hide GroupStart, GroupSize, TwiddleIndex, TwiddleCells, CellOfTwiddle;
    CellInGroup(ido, r, i, j, d);
    CellInGroup(ido, r, i', j', d');
    StartsApart(TwiddleCells(r), r - 1, GroupStart(ido, i) + GroupSize(ido, i), GroupStart(ido, i'));
  }

  lemma CellAt(ido: int, r: int, i: int, j: int, d: int)
    requires 0 <= i < ido && 1 <= j < r
    ensures var c, s, g := TwiddleCells(r), GroupStart(ido, i), GroupSize(ido, i);
      CellOfTwiddle(ido, r, i, j, d) == c * ((r - 1) * s) + c * (g * (j - 1)) + (i - s) + d * g
  {
    GroupCells(ido, r, i, j);
    hide GroupStart, GroupSize, TwiddleIndex;
  }

  lemma CellInGroup(ido: int, r: int, i: int, j: int, d: int)
    requires 0 <= i < ido && 1 <= j < r && 0 <= d < TwiddleCells(r)
    ensures var c, s, g := TwiddleCells(r), GroupStart(ido, i), GroupSize(ido, i);
      c * ((r - 1) * s) <= CellOfTwiddle(ido, r, i, j, d) < c * ((r - 1) * (s + g))
  {
    GroupCells(ido, r, i, j);
    GroupBounds(ido, i);
    hide GroupStart, GroupSize, TwiddleIndex;
    assert d == 0 || d == 1;
  }

  lemma StartsApart(c: int, r: int, a: int, b: int)
    requires c >= 0 && r >= 0 && a <= b
    ensures c * (r * a) <= c * (r * b) && c * (r * 0) == 0
  {
    MulMono(r, a, b);
    MulMono(c, r * a, r * b);
  }

  /** Which group a point is in: fours, then in the last ido mod 4 points a pair and a single one. */
  function GroupNumber(ido: int, i: int): int {
    i / 4 * 2 + if i < ido / 4 * 4 then 0 else i % 4 / 2
  }

  /** Twiddles are stored group by group; in a group output by output; of an output, the points'
      real parts before their imaginary parts where both are stored. */
  predicate Earlier(ido: int, i: int, j: int, d: int, i': int, j': int, d': int) {
    var n, n' := GroupNumber(ido, i), GroupNumber(ido, i');
    n < n' || (n == n' && (j < j' || (j == j' && (d < d' || (d == d' && i < i')))))
  }

  /** The group of a point among the fours, and among the last ido mod 4. */
  lemma GroupPlace(ido: int, i: int)
    requires 0 <= i < ido
    ensures var q, m := i / 4, ido / 4;
      if i < 4 * m then
        GroupNumber(ido, i) == 2 * q && GroupStart(ido, i) == 4 * q && GroupSize(ido, i) == 4 && q < m
      else if i < 4 * m + 2 then
        GroupNumber(ido, i) == 2 * m && GroupStart(ido, i) == 4 * m && GroupSize(ido, i) <= 2
      else
        GroupNumber(ido, i) == 2 * m + 1 && GroupStart(ido, i) == 4 * m + 2 == i
  {
    assert ido == 4 * (ido / 4) + ido % 4 && i == 4 * (i / 4) + i % 4;
  }

  lemma GroupNumbers(ido: int, i: int, i': int)
    requires 0 <= i < ido && 0 <= i' < ido
    ensures GroupNumber(ido, i) < GroupNumber(ido, i') ==> GroupStart(ido, i) + GroupSize(ido, i) <= GroupStart(ido, i')
    ensures GroupNumber(ido, i) == GroupNumber(ido, i') ==> GroupStart(ido, i) == GroupStart(ido, i')
  {
    GroupPlace(ido, i);
    GroupPlace(ido, i');
    hide GroupNumber, GroupStart, GroupSize;
  }

  /** With `TwiddlesApart`, this fixes every cell of the table. */
  lemma TwiddleOrder(ido: int, r: int, i: int, j: int, d: int, i': int, j': int, d': int)
    requires 0 <= i < ido && 1 <= j < r && 0 <= d < TwiddleCells(r)
    requires 0 <= i' < ido && 1 <= j' < r && 0 <= d' < TwiddleCells(r)
    requires Earlier(ido, i, j, d, i', j', d')
    ensures CellOfTwiddle(ido, r, i, j, d) < CellOfTwiddle(ido, r, i', j', d')
  {
    GroupNumbers(ido, i, i');
    hide GroupStart, GroupSize, GroupNumber, TwiddleIndex, TwiddleCells, CellOfTwiddle;
    if GroupNumber(ido, i) < GroupNumber(ido, i') {
      Before(ido, r, i, j, d, i', j', d');
    } else {
      GroupsInOrder(ido, i, i');
      CellsOrTable(r);
      GroupBounds(ido, i);
      GroupBounds(ido, i');
      CellAt(ido, r, i, j, d);
      CellAt(ido, r, i', j', d');
      var s := GroupStart(ido, i);
      RunsInOrder(TwiddleCells(r), GroupSize(ido, i), i - s, j, d, i' - s, j', d');
    }
  }

  lemma RunsInOrder(c: int, g: int, p: int, j: int, d: int, p': int, j': int, d': int)
    requires 1 <= c <= 2 && 0 <= p < g && 0 <= p' < g && 0 <= d < c && 0 <= d' < c
    requires j < j' || (j == j' && (d < d' || (d == d' && p < p')))
    ensures c * (g * (j - 1)) + p + d * g < c * (g * (j' - 1)) + p' + d' * g
  {
    var m, m' := c * (j - 1) + d, c * (j' - 1) + d';
    assert c * (g * (j - 1)) + d * g == g * m && c * (g * (j' - 1)) + d' * g == g * m' by {
      MulAdd(g, c * (j - 1), d);
      MulAdd(g, c * (j' - 1), d');
      MulRegroup(c, g, j - 1);
      MulRegroup(c, g, j' - 1);
    }
    if m < m' {
      MulMono(g, m + 1, m');
      MulAdd(g, m, 1);
    }
  }

  /** So a table with any wanted values exists. */
  ghost predicate Wanted<C(!new)>(cell: (int, int, int) -> C, ido: int, r: int, t: int, v: C) {
    forall i, j, d :: 0 <= i < ido && 1 <= j < r && 0 <= d < TwiddleCells(r) && CellOfTwiddle(ido, r, i, j, d) == t ==> v == cell(i, j, d)
  }

  lemma CellExists<C(!new)>(cell: (int, int, int) -> C, ido: int, r: int, t: int)
    ensures exists v :: Wanted(cell, ido, r, t, v)
  {
    if i, j, d :| 0 <= i < ido && 1 <= j < r && 0 <= d < TwiddleCells(r) && CellOfTwiddle(ido, r, i, j, d) == t {
      forall i', j', d' | 0 <= i' < ido && 1 <= j' < r && 0 <= d' < TwiddleCells(r) && CellOfTwiddle(ido, r, i', j', d') == t
        ensures cell(i, j, d) == cell(i', j', d')
      {
        TwiddlesApart(ido, r, i, j, d, i', j', d');
      }
      assert Wanted(cell, ido, r, t, cell(i, j, d));
    } else {
      assert Wanted(cell, ido, r, t, cell(0, 0, 0));
    }
  }

  // ------------------------------------------------------------ the kernels' bodies

  /** What the constants tables hold: the rows of the small radices, those of radix 9, and the
      quarter circles of radix 16 and 32. */
  datatype Tables = Tables(k: Consts, nine: Consts9, sixteen: seq<real>, thirtytwo: seq<real>)

  ghost predicate Held(K: Tables) {
    && K.k.half + K.k.half == 1.0 && K.k.sin120 * K.k.sin120 + K.k.half * K.k.half == 1.0 && K.k.h * K.k.h == 0.5
    && NinthOfTurn(K.k, K.nine)
    && Cosines(K.sixteen, 4) && Cosines(K.thirtytwo, 8) && K.thirtytwo[4] == K.k.h
  }

  const KERNEL_RADICES := {2, 3, 4, 5, 8, 9, 10, 12, 15, 16, 20, 32}

  /** The butterfly of each radix. */
  function KernelBody(K: Tables, inverse: bool, r: int): (seq<Complex>, int) -> Complex
    requires r in KERNEL_RADICES && |K.sixteen| == 5 && |K.thirtytwo| == 9
  {
    if r == 9 then Radix9(K.k, K.nine, inverse)
    else if r == 12 then RadixPfa(K.k, inverse, 3, 4)
    else if r == 10 then RadixPfa(K.k, inverse, 5, 2)
    else if r == 15 then RadixPfa(K.k, inverse, 5, 3)
    else if r == 20 then RadixPfa(K.k, inverse, 5, 4)
    else if r == 16 then Radix16(K.k, K.sixteen, inverse)
    else if r == 32 then Radix32(K.k, K.thirtytwo, inverse)
    else Basic(K.k, inverse, r)
  }

  /** v is the root of unity of order r the constants of radix r are made from. */
  ghost predicate RadixRoot(K: Tables, inverse: bool, r: int, v: Complex)
    requires r in KERNEL_RADICES && |K.sixteen| == 5 && |K.thirtytwo| == 9
  {
    if r == 9 then v == Root(inverse, K.nine.c1, K.nine.s1)
    else if r == 12 then StageRoots(K.k, inverse, v, 3, 4)
    else if r == 10 then StageRoots(K.k, inverse, v, 5, 2)
    else if r == 15 then StageRoots(K.k, inverse, v, 5, 3)
    else if r == 20 then StageRoots(K.k, inverse, v, 5, 4)
    else if r == 16 then v == CircleRoot(inverse, K.sixteen, 4)
    else if r == 32 then v == CircleRoot(inverse, K.thirtytwo, 8)
    else if r == 8 then v == Root(inverse, K.k.h, K.k.h)
    else IsRoot(K.k, inverse, v, r)
  }

  /** v's real part is c, and its imaginary part s, negative forward. */
  predicate RootIs(inverse: bool, c: real, s: real, v: Complex) {
    v.re == c && v.im == if inverse then s else -s
  }

  /** Which root each radix turns by: cosine and sine of the whole turn over r, clockwise forward.
      A radix p·q turns by a root whose powers q and p are those of p and q. */
  lemma RootOfRadix(K: Tables, inverse: bool, r: int, v: Complex)
    requires r in KERNEL_RADICES && |K.sixteen| == 5 && |K.thirtytwo| == 9 && RadixRoot(K, inverse, r, v)
    ensures r == 2 ==> v == Complex(-1.0, 0.0)
    ensures r == 3 ==> RootIs(inverse, -K.k.half, K.k.sin120, v)
    ensures r == 4 ==> RootIs(inverse, 0.0, 1.0, v)
    ensures r == 5 ==> RootIs(inverse, K.k.c51, K.k.s51, v)
    ensures r == 8 ==> RootIs(inverse, K.k.h, K.k.h, v)
    ensures r == 9 ==> RootIs(inverse, K.nine.c1, K.nine.s1, v)
    ensures r == 16 ==> RootIs(inverse, K.sixteen[1], K.sixteen[3], v)
    ensures r == 32 ==> RootIs(inverse, K.thirtytwo[1], K.thirtytwo[7], v)
    ensures r == 12 ==> RootIs(inverse, -K.k.half, K.k.sin120, Pow(FIELD, v, 4)) && RootIs(inverse, 0.0, 1.0, Pow(FIELD, v, 3))
    ensures r == 10 ==> RootIs(inverse, K.k.c51, K.k.s51, Pow(FIELD, v, 2)) && Pow(FIELD, v, 5) == Complex(-1.0, 0.0)
    ensures r == 15 ==> RootIs(inverse, K.k.c51, K.k.s51, Pow(FIELD, v, 3)) && RootIs(inverse, -K.k.half, K.k.sin120, Pow(FIELD, v, 5))
    ensures r == 20 ==> RootIs(inverse, K.k.c51, K.k.s51, Pow(FIELD, v, 4)) && RootIs(inverse, 0.0, 1.0, Pow(FIELD, v, 5))
  {
    hide IsRoot, Pow, FIELD;
    match r {
      case 3 => RootOfStage(K.k, inverse, v, 3);
      case 4 => RootOfStage(K.k, inverse, v, 4);
      case 5 => RootOfStage(K.k, inverse, v, 5);
      case 2 => RootOfStage(K.k, inverse, v, 2);
      case 12 => RootsOfStages(K.k, inverse, v, 3, 4);
      case 10 => RootsOfStages(K.k, inverse, v, 5, 2);
      case 15 => RootsOfStages(K.k, inverse, v, 5, 3);
      case 20 => RootsOfStages(K.k, inverse, v, 5, 4);
      case _ =>
    }
  }

  lemma RootOfStage(k: Consts, inverse: bool, v: Complex, r: int)
    requires r in {2, 3, 4, 5} && IsRoot(k, inverse, v, r)
    ensures r == 2 ==> v == Complex(-1.0, 0.0)
    ensures r == 3 ==> RootIs(inverse, -k.half, k.sin120, v)
    ensures r == 4 ==> RootIs(inverse, 0.0, 1.0, v)
    ensures r == 5 ==> RootIs(inverse, k.c51, k.s51, v)
  {
    TimesOne(v);
    if r == 3 {
      assert Roots3(inverse, k)[1] == Mul(v, Roots3(inverse, k)[0]);
    } else if r == 5 {
      assert Roots5(inverse, k)[1] == Mul(v, Roots5(inverse, k)[0]);
    }
  }

  lemma RootsOfStages(k: Consts, inverse: bool, v: Complex, p: int, q: int)
    requires p in {3, 5} && q in {2, 3, 4} && StageRoots(k, inverse, v, p, q)
    ensures p == 3 ==> RootIs(inverse, -k.half, k.sin120, Pow(FIELD, v, q))
    ensures p == 5 ==> RootIs(inverse, k.c51, k.s51, Pow(FIELD, v, q))
    ensures q == 2 ==> Pow(FIELD, v, p) == Complex(-1.0, 0.0)
    ensures q == 3 ==> RootIs(inverse, -k.half, k.sin120, Pow(FIELD, v, p))
    ensures q == 4 ==> RootIs(inverse, 0.0, 1.0, Pow(FIELD, v, p))
  {
    hide IsRoot, Pow, FIELD;
    RootOfStage(k, inverse, Pow(FIELD, v, q), p);
    RootOfStage(k, inverse, Pow(FIELD, v, p), q);
  }

  /** Every kernel's body is the transform of its length. */
  lemma KernelBodyIsDft(K: Tables, inverse: bool, r: int, v: Complex)
    requires r in KERNEL_RADICES && Held(K) && RadixRoot(K, inverse, r, v)
    ensures IsButterfly(FIELD, v, r, KernelBody(K, inverse, r))
  {
    hide IsButterfly, Basic, Radix9, Radix16, Radix32, RadixPfa, StageRoots, IsRoot, Root, CircleRoot, Cosines, NinthOfTurn;
    if r == 9 {
      Radix9IsDft(K.k, K.nine, inverse);
    } else if r == 12 {
      RadixPfaIsDft(K.k, inverse, v, 3, 4);
    } else if r == 10 {
      RadixPfaIsDft(K.k, inverse, v, 5, 2);
    } else if r == 15 {
      RadixPfaIsDft(K.k, inverse, v, 5, 3);
    } else if r == 20 {
      RadixPfaIsDft(K.k, inverse, v, 5, 4);
    } else if r == 16 {
      Radix16IsDft(K.k, K.sixteen, inverse);
    } else if r == 32 {
      Radix32IsDft(K.k, K.thirtytwo, inverse);
    } else if r == 8 {
      Basic8(K.k, inverse);
    } else {
      StageIsDft(K.k, inverse, v, r);
    }
  }

  /** The arithmetic of a pass kernel: radix 16's twiddles come as (wr, wr) and (wi, wi). */
  function KernelArithmetic(K: Tables, inverse: bool, r: int): Body<Complex>
    requires r in KERNEL_RADICES && |K.sixteen| == 5 && |K.thirtytwo| == 9
  {
    Body(KernelBody(K, inverse, r), FIELD.mul, (re: Complex, im: Complex) => Complex(re.re, im.im))
  }

  /** The cells of twiddle w^(i·j). */
  ghost function PowerCells(w: Complex, r: int): (int, int, int) -> Complex {
    (i, j, d) =>
      var p := Pow(FIELD, w, i * j);
      if r != 16 then p else if d == 0 then Complex(p.re, p.re) else Complex(p.im, p.im)
  }

  /** The table of a pass with root w. */
  ghost function PowerTableOf(w: Complex, r: int, ido: int): (tw: seq<Complex>)
    requires r > 1 && ido > 0
    ensures |tw| == TwiddleCells(r) * ((r - 1) * ido)
    ensures forall t :: 0 <= t < |tw| ==> Wanted(PowerCells(w, r), ido, r, t, tw[t])
  {
    MulMono(r - 1, 0, ido);
    var n := TwiddleCells(r) * ((r - 1) * ido);
    hide Wanted;
    seq(n, t requires 0 <= t < n => (CellExists(PowerCells(w, r), ido, r, t); var v :| Wanted(PowerCells(w, r), ido, r, t, v); v))
  }

  lemma PowerTableServes(K: Tables, inverse: bool, w: Complex, r: int, ido: int)
    requires r in KERNEL_RADICES && |K.sixteen| == 5 && |K.thirtytwo| == 9 && ido > 0
    ensures IsTable(FIELD, w, KernelArithmetic(K, inverse, r), PowerTableOf(w, r, ido), r, ido)
  {
    hide KernelBody, Pow, TwiddleIndex;
    var tw, body := PowerTableOf(w, r, ido), KernelArithmetic(K, inverse, r);
    forall i, j | 1 <= i < ido && 1 <= j < r ensures Twiddle(body, tw, r, ido, i, j) == Pow(FIELD, w, i * j) {
      TwiddleInTable(ido, r, i, j);
      var t := TwiddleIndex(ido, r, i, j);
      assert CellOfTwiddle(ido, r, i, j, 0) == t && Wanted(PowerCells(w, r), ido, r, t, tw[t]);
      if r == 16 {
        var u := t + GroupSize(ido, i);
        assert CellOfTwiddle(ido, r, i, j, 1) == u && Wanted(PowerCells(w, r), ido, r, u, tw[u]);
      }
    }
  }

  // ------------------------------------------------------------ whole plans

  /** The stages of a list of radices, the first over l1 blocks. */
  ghost function PlanOf(K: Tables, inverse: bool, w: Complex, l1: nat, radices: seq<nat>): (plan: seq<Stage<Complex>>)
    requires |K.sixteen| == 5 && |K.thirtytwo| == 9 && forall r :: r in radices ==> r in KERNEL_RADICES
    ensures |plan| == |radices| && Length(plan) == Stockham.Product(radices)
    decreases |radices|
  {
    if radices == [] then []
    else
      var r, ido := radices[0], Stockham.Product(radices[1..]);
      ProductPositive(radices[1..]);
      [Stage(r, KernelArithmetic(K, inverse, r), PowerTableOf(Pow(FIELD, w, l1), r, ido))] +
      PlanOf(K, inverse, w, l1 * r, radices[1..])
  }

  lemma {:induction false} ProductPositive(radices: seq<nat>)
    requires forall r :: r in radices ==> r in KERNEL_RADICES
    ensures Stockham.Product(radices) > 0
  {
    if radices != [] {
      ProductPositive(radices[1..]);
      assert radices[0] in KERNEL_RADICES;
      MulLower(Stockham.Product(radices[1..]), radices[0]);
    }
  }

  /** The constants of radix r are the parts of w^(n/r), the r-th root its kernel turns by. */
  ghost predicate ConstantsOf(K: Tables, inverse: bool, w: Complex, n: nat, r: int)
    requires |K.sixteen| == 5 && |K.thirtytwo| == 9 && r in KERNEL_RADICES
  {
    RadixRoot(K, inverse, r, Pow(FIELD, w, n / r))
  }

  /** Wherever radix r stands in a plan of n points, its root is the same w^(n/r). */
  lemma StageRoot(w: Complex, n: nat, l1: nat, r: nat, ido: nat)
    requires r > 0 && n == l1 * (r * ido)
    ensures Pow(FIELD, Pow(FIELD, w, l1), ido) == Pow(FIELD, w, n / r)
  {
    hide Pow;
    ComplexIsRing();
    MulRegroup(l1, r, ido);
    DivModUnique(r, 0, l1 * ido);
    PowMul(FIELD, w, l1, ido);
  }

  lemma HeldSizes(K: Tables)
    requires Held(K)
    ensures |K.sixteen| == 5 && |K.thirtytwo| == 9
  {
  }

  /** The stage of radix r, with ido points to a block's stream. */
  lemma StageIsSound(K: Tables, inverse: bool, w: Complex, n: nat, l1: nat, r: nat, ido: nat)
    requires Held(K) && r in KERNEL_RADICES && ConstantsOf(K, inverse, w, n, r) && n == l1 * (r * ido) && ido > 0
    ensures IsButterfly(FIELD, Pow(FIELD, Pow(FIELD, w, l1), ido), r, KernelBody(K, inverse, r))
    ensures IsTable(FIELD, Pow(FIELD, w, l1), KernelArithmetic(K, inverse, r), PowerTableOf(Pow(FIELD, w, l1), r, ido), r, ido)
  {
    hide Held, RadixRoot, KernelBody, IsTable, IsButterfly, Pow, PowerTableOf, FIELD, KernelArithmetic;
    HeldSizes(K);
    StageRoot(w, n, l1, r, ido);
    KernelBodyIsDft(K, inverse, r, Pow(FIELD, w, n / r));
    PowerTableServes(K, inverse, Pow(FIELD, w, l1), r, ido);
  }

  lemma ProductStep(radices: seq<nat>)
    requires radices != []
    ensures Stockham.Product(radices) == radices[0] * Stockham.Product(radices[1..])
  {
  }

  lemma {:induction false} PlanIsSound(K: Tables, inverse: bool, w: Complex, n: nat, l1: nat, radices: seq<nat>)
    requires Held(K) && forall r :: r in radices ==> r in KERNEL_RADICES && ConstantsOf(K, inverse, w, n, r)
    requires n == l1 * Stockham.Product(radices)
    ensures Sound(FIELD, w, l1, PlanOf(K, inverse, w, l1, radices))
    decreases |radices|
  {
    hide Held, ConstantsOf, KernelBody, IsTable, IsButterfly, Pow, PowerTableOf, FIELD, Stockham.Product;
    HeldSizes(K);
    if radices != [] {
      var r, ido := radices[0], Stockham.Product(radices[1..]);
      ProductPositive(radices[1..]);
      ProductStep(radices);
      assert r in radices;
      StageIsSound(K, inverse, w, n, l1, r, ido);
      PlanSize(l1, r, ido);
      PlanIsSound(K, inverse, w, n, l1 * r, radices[1..]);
      assert PlanOf(K, inverse, w, l1, radices)[1..] == PlanOf(K, inverse, w, l1 * r, radices[1..]);
    }
  }

  /** Any plan over the kernels' radices, tables in the order the kernels read, leaves the
      transform of its input, in natural order. */
  lemma KernelPlansAreDft(K: Tables, inverse: bool, w: Complex, radices: seq<nat>, x: seq<Complex>, k: nat)
    requires Held(K) && forall r :: r in radices ==> r in KERNEL_RADICES && ConstantsOf(K, inverse, w, |x|, r)
    requires |x| == Stockham.Product(radices) && Pow(FIELD, w, |x|) == ONE && k < |x|
    ensures var plan := PlanOf(K, inverse, w, 1, radices);
      Sound(FIELD, w, 1, plan) && |RunPlan(FIELD, w, 1, plan, x)| == |x| &&
      RunPlan(FIELD, w, 1, plan, x)[k] == Transform(FIELD, w, |x|, Mem(FIELD, x), k)
  {
    ComplexIsRing();
    PlanIsSound(K, inverse, w, |x|, 1, radices);
    hide IsRing, Sound, Pow, Transform, RunPlan, Held, ConstantsOf;
    PlanIsDft(FIELD, w, PlanOf(K, inverse, w, 1, radices), x, k);
  }
}
