/** The batch pass kernels: one Stockham pass over w neighbouring transforms, the lines of a
    non-contiguous axis, a point of every line side by side in a row. */
module Batch {
  import opened Modular
  import opened PassWalk

  /** Point p of line q, when rows start s points apart. */
  function Spot(s: int, p: int, q: int): int {
    q + s * p
  }

  /** w lines of n points lie in m cells. */
  predicate HoldsRows(m: int, s: int, n: int, w: int) {
    0 <= w <= s && 0 < s && (0 < n ==> s * (n - 1) + w <= m)
  }

  lemma SpotInside(m: int, s: int, n: int, w: int, p: int, q: int)
    requires HoldsRows(m, s, n, w) && 0 <= p < n && 0 <= q < w
    ensures 0 <= Spot(s, p, q) < m && Spot(s, p, q) / s == p && Spot(s, p, q) % s == q
  {
    MulMono(s, p, n - 1);
    MulMono(s, 0, p);
    DivModUnique(s, q, p);
  }

  /** Line q of a strip, on its own. */
  function Line<C>(mem: seq<C>, s: int, n: int, w: int, q: int): (line: seq<C>)
    requires HoldsRows(|mem|, s, n, w) && 0 <= n && 0 <= q < w
    ensures |line| == n
  {
    seq(n, p requires 0 <= p < n => (SpotInside(|mem|, s, n, w, p, q); mem[Spot(s, p, q)]))
  }

  lemma LineAt<C>(mem: seq<C>, s: int, n: int, w: int, q: int, p: int)
    requires HoldsRows(|mem|, s, n, w) && 0 <= p < n && 0 <= q < w
    ensures 0 <= Spot(s, p, q) < |mem| && Line(mem, s, n, w, q)[p] == mem[Spot(s, p, q)]
  {
    SpotInside(|mem|, s, n, w, p, q);
    hide Spot;
  }

  /** The batch table holds the twiddles of points 1, 2, … of a pass, r - 1 to a point. */
  ghost predicate BatchTable<C(!new)>(body: Body<C>, tw: seq<C>, table: seq<C>, r: int, ido: int) {
    && r > 1 && ido > 0 && |tw| >= (r - 1) * (ido - 1) && |table| >= TwiddleCells(r) * ((r - 1) * ido)
    && forall i, j :: 1 <= i < ido && 1 <= j < r ==> BatchTwiddle(body, tw, table, r, ido, i, j)
  }

  ghost predicate BatchTwiddle<C(!new)>(body: Body<C>, tw: seq<C>, table: seq<C>, r: int, ido: int, i: int, j: int)
    requires 1 <= i < ido && 1 <= j < r && |tw| >= (r - 1) * (ido - 1) && |table| >= TwiddleCells(r) * ((r - 1) * ido)
  {
    CellBounds(r - 1, ido - 1, j - 1, i - 1);
    tw[j - 1 + (r - 1) * (i - 1)] == Twiddle(body, table, r, ido, i, j)
  }

  class Strip<C(!new)> {
    const cc: array<C>
    const ch: array<C>
    const tw: seq<C>
    const r: int
    const ido: int
    const l1: int
    const w: int     // lines
    const si: int    // points from a row to the next, on input
    const so: int    // and on output
    const body: Body<C>
    ghost const table: seq<C>
    ghost const input: seq<C>
    ghost const before: seq<C>

    var AX: int      // input row
    var SI: int
    var BX: int      // output row
    var DI: int
    var CX: int      // one input stream
    var DX: int      // one output stream
    var R10: int     // twiddle cursor
    var R8: int      // blocks left
    var R9: int      // points left
    var R11: int     // pairs left

    constructor (cc: array<C>, ch: array<C>, tw: seq<C>, r: int, ido: int, l1: int, w: int, si: int, so: int,
                 body: Body<C>, ghost table: seq<C>)
      requires r in {2, 3, 4, 5, 8} && l1 >= 0 && cc != ch && BatchTable(body, tw, table, r, ido)
      requires HoldsRows(cc.Length, si, Size(r, ido, l1), w) && HoldsRows(ch.Length, so, Size(r, ido, l1), w)
      ensures Valid() && this.cc == cc && this.ch == ch && this.tw == tw && this.r == r && this.ido == ido && this.l1 == l1
      ensures this.w == w && this.si == si && this.so == so && this.body == body && this.table == table
      ensures input == cc[..] && before == ch[..]
    {
      this.cc, this.ch, this.tw, this.r, this.ido, this.l1 := cc, ch, tw, r, ido, l1;
      this.w, this.si, this.so, this.body, this.table := w, si, so, body, table;
      input, before := cc[..], ch[..];
    }

    ghost predicate Valid()
      reads cc
    {
      && r in {2, 3, 4, 5, 8} && l1 >= 0 && cc != ch && BatchTable(body, tw, table, r, ido)
      && HoldsRows(cc.Length, si, Size(r, ido, l1), w) && HoldsRows(ch.Length, so, Size(r, ido, l1), w)
      && cc[..] == input && |before| == ch.Length
    }

    /** The registers stand at line q of point i of block k. */
    ghost predicate At(q: int, i: int, k: int)
      reads `AX, `SI, `BX, `DI, `CX, `DX, `R10, cc
    {
      && Valid() && 0 <= k < l1 && 0 <= i < ido && 0 <= q <= w
      && CX == 16 * (si * ido) && DX == 16 * (so * (l1 * ido))
      && AX == 16 * Spot(si, i + ido * (r * k), q) && BX == 16 * Spot(so, i + ido * k, q)
      && SI == AX + 4 * CX && DI == BX + 4 * DX
      && (i > 0 ==> R10 == 16 * ((r - 1) * (i - 1)))
    }

    function In(j: int): int
      reads this
    {
      if j < 4 then AX + j * CX else SI + (j - 4) * CX
    }

    function Out(j: int): int
      reads this
    {
      if j < 4 then BX + j * DX else DI + (j - 4) * DX
    }

    lemma Addresses(q: int, i: int, k: int, p: int, j: int)
      requires At(q, i, k) && 0 <= p && q + p < w && 0 <= j < r
      ensures 0 <= InputCell(r, ido, i, k, j) < Size(r, ido, l1) && 0 <= Cell(ido, l1, i, k, j) < Size(r, ido, l1)
      ensures (In(j) + 16 * p) / 16 == Spot(si, InputCell(r, ido, i, k, j), q + p)
      ensures 0 <= Spot(si, InputCell(r, ido, i, k, j), q + p) < cc.Length
      ensures (Out(j) + 16 * p) / 16 == Spot(so, Cell(ido, l1, i, k, j), q + p)
      ensures 0 <= Spot(so, Cell(ido, l1, i, k, j), q + p) < ch.Length
    {
      InputInRange(r, ido, l1, i, k, j);
      CellEncodes(ido, l1, r, i, k, j);
      SpotInside(cc.Length, si, Size(r, ido, l1), w, InputCell(r, ido, i, k, j), q + p);
      SpotInside(ch.Length, so, Size(r, ido, l1), w, Cell(ido, l1, i, k, j), q + p);
      assert l1 > 0 && ido > 0;
      hide Size, BatchTable, HoldsRows, Cell, InputCell;
      StreamOf(AX, CX, j);
      StreamOf(BX, DX, j);
      ByteAddress(si * (i + ido * (r * k)) + q, si * ido, j, p);
      ByteAddress(so * (i + ido * k) + q, so * (l1 * ido), j, p);
      InputStream(si, r, ido, i, k, j);
      OutputStream(so, ido, l1, i, k, j);
    }

    ghost function Want(c: int, q: int): C
      requires HoldsRows(|input|, si, Size(r, ido, l1), w) && 0 <= c < Size(r, ido, l1) && 0 <= q < w
      requires r > 0 && ido > 0 && l1 > 0 && |table| >= TwiddleCells(r) * ((r - 1) * ido)
    {
      ResultCell(body, Line(input, si, Size(r, ido, l1), w, q), table, r, ido, l1, c)
    }

    ghost predicate InStrip(c: int, q: int) {
      0 <= c < Size(r, ido, l1) && 0 <= q < w && l1 > 0
    }

    /** Cell c of line q holds what the pass makes of the line. */
    ghost predicate CellDone(c: int, q: int)
      requires Valid() && InStrip(c, q)
      reads cc, ch
    {
      SpotInside(ch.Length, so, Size(r, ido, l1), w, c, q);
      ch[Spot(so, c, q)] == Want(c, q)
    }

    /** The cells no line has are as they were. */
    ghost predicate Kept()
      requires Valid()
      reads cc, ch
    {
      forall a :: 0 <= a < ch.Length && !(a / so < Size(r, ido, l1) && a % so < w) ==> ch[a] == before[a]
    }

    ghost predicate Before(c: int, u: int, q: int, i: int, k: int)
      requires ido > 0 && l1 > 0
    {
      || BlockOf(ido, l1, c) < k
      || (BlockOf(ido, l1, c) == k && PointOf(ido, c) < i)
      || (BlockOf(ido, l1, c) == k && PointOf(ido, c) == i && u < q)
    }

    /** Everything before line q of point i of block k is done. */
    ghost predicate Done(q: int, i: int, k: int)
      requires Valid()
      reads cc, ch
    {
      Kept() && forall c, u :: InStrip(c, u) && Before(c, u, q, i, k) ==> CellDone(c, u)
    }

    /** So are streams below j of the register's lines, and lines below p of stream j. */
    ghost predicate Part(q: int, i: int, k: int, lanes: int, j: int, p: int)
      requires Valid()
      reads cc, ch
    {
      Done(q, i, k) && forall c, u :: InStrip(c, u) && InPart(c, u, q, i, k, lanes, j, p) ==> CellDone(c, u)
    }

    ghost predicate InPart(c: int, u: int, q: int, i: int, k: int, lanes: int, j: int, p: int)
      requires ido > 0 && l1 > 0
    {
      && BlockOf(ido, l1, c) == k && PointOf(ido, c) == i && q <= u < q + lanes
      && (OutputOf(ido, l1, c) < j || (OutputOf(ido, l1, c) == j && u < q + p))
    }

    ghost function Xs(q: int, i: int, k: int): seq<C>
      requires Valid() && 0 <= q < w && 0 <= i < ido && 0 <= k < l1
      reads cc
    {
      PassInput(Line(input, si, Size(r, ido, l1), w, q), r, ido, l1, i, k)
    }

    method Load(p: int, ghost q: int, ghost i: int, ghost k: int) returns (xs: seq<C>)
      requires At(q, i, k) && 0 <= p && q + p < w
      ensures xs == Xs(q + p, i, k)
    {
      xs := [];
      for j := 0 to r
        invariant |xs| == j && xs == Xs(q + p, i, k)[..j]
      {
        Addresses(q, i, k, p, j);
        xs := xs + [cc[(In(j) + 16 * p) / 16]];
      }
    }

    /** Output j of line q + p: point 0 of a block is not multiplied at all. */
    method Compute(x: seq<C>, j: int, p: int, twiddled: bool, ghost q: int, ghost i: int, ghost k: int) returns (y: C)
      requires At(q, i, k) && 0 <= p && q + p < w && 0 <= j < r && x == Xs(q + p, i, k) && (twiddled <==> i > 0)
      ensures 0 <= Cell(ido, l1, i, k, j) < Size(r, ido, l1) && y == Want(Cell(ido, l1, i, k, j), q + p)
    {
      y := body.bfly(x, j);
      CellEncodes(ido, l1, r, i, k, j);
      if j > 0 && twiddled {
        CellBounds(r - 1, ido - 1, j - 1, i - 1);
        assert BatchTwiddle(body, tw, table, r, ido, i, j);
        y := body.mul(y, tw[(R10 + (j - 1) * 16) / 16]);
      }
    }

    method Store(lanes: int, j: int, p: int, y: C, ghost q: int, ghost i: int, ghost k: int)
      requires At(q, i, k) && 0 <= p < lanes && q + lanes <= w && 0 <= j < r
      requires 0 <= Cell(ido, l1, i, k, j) < Size(r, ido, l1) && y == Want(Cell(ido, l1, i, k, j), q + p)
      requires Part(q, i, k, lanes, j, p)
      modifies ch
      ensures At(q, i, k) && Part(q, i, k, lanes, j, p + 1)
    {
      Addresses(q, i, k, p, j);
      ghost var c0, u0 := Cell(ido, l1, i, k, j), q + p;
      SpotInside(ch.Length, so, Size(r, ido, l1), w, c0, u0);
      CellEncodes(ido, l1, r, i, k, j);
      hide BatchTable, Want, Spot, Size, Cell;
      ch[(Out(j) + 16 * p) / 16] := y;
      forall c, u | InStrip(c, u) && old(CellDone(c, u)) ensures CellDone(c, u) {
        SpotInside(ch.Length, so, Size(r, ido, l1), w, c, u);
      }
      assert InStrip(c0, u0) && CellDone(c0, u0);
      forall c, u | InStrip(c, u) && InPart(c, u, q, i, k, lanes, j, p + 1) ensures CellDone(c, u) {
        if !InPart(c, u, q, i, k, lanes, j, p) {
          CellDecodes(ido, l1, r, c);
          assert c == c0 && u == u0;
        }
      }
    }

    /** One butterfly on `lanes` neighbouring lines. */
    method Step(lanes: int, twiddled: bool, ghost q: int, ghost i: int, ghost k: int)
      requires At(q, i, k) && 1 <= lanes && q + lanes <= w && (twiddled <==> i > 0) && Done(q, i, k)
      modifies ch
      ensures At(q, i, k) && Done(q + lanes, i, k)
    {
      hide BatchTable, Xs, Want, Part, Done, HoldsRows, Spot, Size, Cell;
      var xs: seq<seq<C>> := [];
      assert r > 0;
      for p := 0 to lanes
        invariant |xs| == p && At(q, i, k) && Done(q, i, k)
        invariant forall u :: 0 <= u < p ==> xs[u] == Xs(q + u, i, k)
      {
        var x := Load(p, q, i, k);
        xs := xs + [x];
      }
      NothingInPart(q, i, k, lanes);
      for j := 0 to r
        invariant At(q, i, k) && Part(q, i, k, lanes, j, 0)
      {
        for p := 0 to lanes
          invariant At(q, i, k) && Part(q, i, k, lanes, j, p)
        {
          var y := Compute(xs[p], j, p, twiddled, q, i, k);
          Store(lanes, j, p, y, q, i, k);
        }
        NextStream(q, i, k, lanes, j);
      }
      LinesDone(q, i, k, lanes);
    }

    method StepPast(lanes: int, twiddled: bool, ghost q: int, ghost i: int, ghost k: int)
      requires At(q, i, k) && 1 <= lanes && q + lanes <= w && (twiddled <==> i > 0) && Done(q, i, k)
      modifies this`AX, this`SI, this`BX, this`DI, ch
      ensures At(q + lanes, i, k) && Done(q + lanes, i, k)
    {
      hide BatchTable, Done, HoldsRows;
      Step(lanes, twiddled, q, i, k);
      AX, SI, BX, DI := AX + 16 * lanes, SI + 16 * lanes, BX + 16 * lanes, DI + 16 * lanes;
    }

    lemma NothingInPart(q: int, i: int, k: int, lanes: int)
      requires Valid() && Done(q, i, k)
      ensures Part(q, i, k, lanes, 0, 0)
    {
      forall c, u | InStrip(c, u) ensures !InPart(c, u, q, i, k, lanes, 0, 0) {
        CellDecodes(ido, l1, r, c);
      }
    }

    lemma NextStream(q: int, i: int, k: int, lanes: int, j: int)
      requires Valid() && Part(q, i, k, lanes, j, lanes)
      ensures Part(q, i, k, lanes, j + 1, 0)
    {
      hide CellDone, PointOf, BlockOf, OutputOf, BatchTable;
      forall c, u | InStrip(c, u) && InPart(c, u, q, i, k, lanes, j + 1, 0) ensures CellDone(c, u) {
        assert InPart(c, u, q, i, k, lanes, j, lanes);
      }
    }

    lemma LinesDone(q: int, i: int, k: int, lanes: int)
      requires Valid() && Part(q, i, k, lanes, r, 0)
      ensures Done(q + lanes, i, k)
    {
      forall c, u | InStrip(c, u) && Before(c, u, q + lanes, i, k) ensures CellDone(c, u) {
        CellDecodes(ido, l1, r, c);
        assert Before(c, u, q, i, k) || InPart(c, u, q, i, k, lanes, r, 0);
      }
    }

    /** Pairs of lines, then the odd one. */
    method Lines(pairs: int, odd: int, twiddled: bool, ghost i: int, ghost k: int)
      requires At(0, i, k) && (twiddled <==> i > 0) && Done(0, i, k) && pairs == w / 2 && odd == w % 2
      modifies this`AX, this`SI, this`BX, this`DI, this`R11, ch
      ensures At(w, i, k) && Done(w, i, k)
    {
      hide Done, At, Valid;
      WidthFits(0, i, k);
      R11 := pairs;
      ghost var q := 0;
      while R11 != 0
        invariant 0 <= R11 && 0 <= q && q + 2 * R11 + odd == w && At(q, i, k) && Valid() && Done(q, i, k)
        decreases R11
      {
        StepPast(2, twiddled, q, i, k);
        WidthFits(q + 2, i, k);
        q, R11 := q + 2, R11 - 1;
      }
      if odd != 0 {
        StepPast(1, twiddled, q, i, k);
      }
    }

    lemma WidthFits(q: int, i: int, k: int)
      requires At(q, i, k)
      ensures Valid() && w >= 0
    {
    }

    /** One point's row. */
    method Row(pairs: int, odd: int, twiddled: bool, adjin: int, adjout: int, ghost i: int, ghost k: int)
      requires At(0, i, k) && (twiddled <==> i > 0) && Done(0, i, k)
      requires pairs == w / 2 && odd == w % 2 && adjin == 16 * (si - w) && adjout == 16 * (so - w)
      modifies this`AX, this`SI, this`BX, this`DI, this`R11, ch
      ensures Valid() && Done(w, i, k)
      ensures AX == old(AX) + 16 * si && SI == AX + 4 * CX && BX == old(BX) + 16 * so && DI == BX + 4 * DX
    {
      hide Done, BatchTable, HoldsRows;
      Lines(pairs, odd, twiddled, i, k);
      AX, SI, BX, DI := AX + adjin, SI + adjin, BX + adjout, DI + adjout;
    }

    lemma RowDone(i: int, k: int)
      requires Valid() && Done(w, i, k)
      ensures Done(0, i + 1, k)
    {
    }

    lemma BlockDone(k: int)
      requires Valid() && Done(0, ido, k)
      ensures Done(0, 0, k + 1)
    {
      forall c, u | InStrip(c, u) && Before(c, u, 0, 0, k + 1) ensures CellDone(c, u) {
        CellDecodes(ido, l1, r, c);
        assert Before(c, u, 0, ido, k);
      }
    }

    /** The registers stand at the start of block k. */
    ghost predicate BlockReady(k: int)
      reads `AX, `BX, `CX, `DX, cc, ch
    {
      && Valid() && 0 <= k <= l1 && Done(0, 0, k)
      && CX == 16 * (si * ido) && DX == 16 * (so * (l1 * ido))
      && AX == 16 * Spot(si, ido * (r * k), 0) && BX == 16 * Spot(so, ido * k, 0)
    }

    /** The registers stand at the row of point i of block k, and everything before it is done. */
    ghost predicate RowReady(i: int, k: int)
      reads `AX, `SI, `BX, `DI, `CX, `DX, `R10, cc, ch
    {
      && Valid() && 0 <= k < l1 && 0 <= i <= ido && Done(0, i, k)
      && CX == 16 * (si * ido) && DX == 16 * (so * (l1 * ido))
      && AX == 16 * Spot(si, i + ido * (r * k), 0) && BX == 16 * Spot(so, i + ido * k, 0)
      && SI == AX + 4 * CX && DI == BX + 4 * DX
      && R10 == if i > 0 then 16 * ((r - 1) * (i - 1)) else 0
    }

    lemma RowIsAt(i: int, k: int)
      requires RowReady(i, k) && i < ido
      ensures Valid() && At(0, i, k) && Done(0, i, k)
    {
      hide Done;
    }

    /** A row further, in streams and in twiddles. */
    lemma NextRowBytes(i: int, k: int)
      ensures Spot(si, i + 1 + ido * (r * k), 0) == Spot(si, i + ido * (r * k), 0) + si
      ensures Spot(so, i + 1 + ido * k, 0) == Spot(so, i + ido * k, 0) + so
      ensures (r - 1) * 0 == 0 && (r - 1) * i == (r - 1) * (i - 1) + (r - 1)
    {
      MulAdd(si, i + ido * (r * k), 1);
      MulAdd(so, i + ido * k, 1);
      MulAdd(r - 1, i - 1, 1);
    }

    method NextRow(pairs: int, odd: int, twiddled: bool, adjin: int, adjout: int, ghost i: int, ghost k: int)
      requires RowReady(i, k) && i < ido && (twiddled <==> i > 0)
      requires pairs == w / 2 && odd == w % 2 && adjin == 16 * (si - w) && adjout == 16 * (so - w)
      modifies this`AX, this`SI, this`BX, this`DI, this`R10, this`R11, ch
      ensures RowReady(i + 1, k)
    {
      hide Done, At, Spot, Valid;
      RowIsAt(i, k);
      NextRowBytes(i, k);
      Row(pairs, odd, twiddled, adjin, adjout, i, k);
      RowDone(i, k);
      if twiddled {
        R10 := R10 + (r - 1) * 16;
      }
    }

    method Block(pairs: int, odd: int, adjin: int, adjout: int, ghost k: int)
      requires BlockReady(k) && k < l1
      requires pairs == w / 2 && odd == w % 2 && adjin == 16 * (si - w) && adjout == 16 * (so - w)
      modifies this`AX, this`SI, this`BX, this`DI, this`R9, this`R10, this`R11, ch
      ensures RowReady(ido, k)
    {
      FirstRow(k);
      hide BlockReady, RowReady, Valid;
      SI, DI, R10 := AX + CX * 4, BX + DX * 4, 0;
      RowFromBlock(k);
      NextRow(pairs, odd, false, adjin, adjout, 0, k);
      R9 := ido - 1;
      ghost var i := 1;
      while R9 != 0
        invariant 0 < i && 0 <= R9 && i + R9 == ido && RowReady(i, k)
        decreases R9
      {
        NextRow(pairs, odd, true, adjin, adjout, i, k);
        i, R9 := i + 1, R9 - 1;
      }
    }

    lemma FirstRow(k: int)
      requires BlockReady(k)
      ensures ido > 0
    {
    }

    lemma RowFromBlock(k: int)
      requires BlockReady(k) && k < l1 && SI == AX + CX * 4 && DI == BX + DX * 4 && R10 == 0
      ensures RowReady(0, k)
    {
      hide Done;
    }

    method OneBlock(pairs: int, odd: int, adjin: int, adjout: int, ghost k: int)
      requires BlockReady(k) && k < l1
      requires pairs == w / 2 && odd == w % 2 && adjin == 16 * (si - w) && adjout == 16 * (so - w)
      modifies this`AX, this`SI, this`BX, this`DI, this`R9, this`R10, this`R11, ch
      ensures BlockReady(k + 1)
    {
      hide Done, BatchTable, HoldsRows, Spot;
      Block(pairs, odd, adjin, adjout, k);
      BlockDone(k);
      NextSpots(k);
      PastStreams();
    }

    /** The rows moved one stream: r - 1 more are the next block. */
    method PastStreams()
      requires r in {2, 3, 4, 5, 8}
      modifies this`AX
      ensures AX == old(AX) + (r - 1) * CX
    {
      match r {
        case 2 => AX := AX + CX;
        case 3 => AX := AX + CX * 2;
        case 4 => AX := AX + CX * 3;
        case 5 => AX := AX + CX * 4;
        case _ => AX := AX + CX * 4; AX := AX + CX * 3;
      }
    }

    /** Where the next block starts. */
    lemma NextSpots(k: int)
      ensures Spot(si, ido + ido * (r * k), 0) + (r - 1) * (si * ido) == Spot(si, ido * (r * (k + 1)), 0)
      ensures Spot(so, ido + ido * k, 0) == Spot(so, ido * (k + 1), 0)
    {
      NextBlock(si, ido, r, k);
      MulAdd(ido, k, 1);
    }

    /** The whole pass: cell c of every line holds what the pass makes of that line alone, and
        the cells between the rows are as they were. */
    method Run(pairs: int, odd: int, jin: int, jout: int, adjin: int, adjout: int)
      requires Valid() && Kept()
      requires pairs == w / 2 && odd == w % 2 && adjin == 16 * (si - w) && adjout == 16 * (so - w)
      requires jin == 16 * (si * ido) && jout == 16 * (so * (l1 * ido))
      modifies this, ch
      ensures Valid() && Kept()
      ensures l1 > 0 ==> forall q :: 0 <= q < w ==>
        Line(ch[..], so, Size(r, ido, l1), w, q) == PassResult(body, Line(input, si, Size(r, ido, l1), w, q), table, r, ido, l1)
    {
      AX, BX, CX, DX, R8 := 0, 0, jin, jout, l1;
      ghost var k := 0;
      assert l1 >= 0;
      NothingDone();
      assert ido * (r * 0) == 0 && ido * 0 == 0 && si * 0 == 0 && so * 0 == 0;
      hide Done, BatchTable, HoldsRows;
      assert BlockReady(0);
      hide BlockReady;
      while R8 != 0
        invariant BlockReady(k) && 0 <= R8 && k + R8 == l1
        decreases R8
      {
        OneBlock(pairs, odd, adjin, adjout, k);
        k, R8 := k + 1, R8 - 1;
      }
      AllDone();
    }

    lemma NothingDone()
      requires Valid() && Kept()
      ensures Done(0, 0, 0)
    {
      forall c, u | InStrip(c, u) ensures !Before(c, u, 0, 0, 0) {
        CellDecodes(ido, l1, r, c);
      }
    }

    lemma AllDone()
      requires BlockReady(l1)
      ensures Valid() && Kept()
      ensures l1 > 0 ==> forall q :: 0 <= q < w ==>
        Line(ch[..], so, Size(r, ido, l1), w, q) == PassResult(body, Line(input, si, Size(r, ido, l1), w, q), table, r, ido, l1)
    {
      hide PassResult, Line, ResultCell;
      forall q | l1 > 0 && 0 <= q < w
        ensures Line(ch[..], so, Size(r, ido, l1), w, q) == PassResult(body, Line(input, si, Size(r, ido, l1), w, q), table, r, ido, l1)
      {
        LineDone(q);
      }
    }

    lemma LineDone(q: int)
      requires BlockReady(l1) && l1 > 0 && 0 <= q < w
      ensures Line(ch[..], so, Size(r, ido, l1), w, q) == PassResult(body, Line(input, si, Size(r, ido, l1), w, q), table, r, ido, l1)
    {
      assert r > 0 && ido > 0;
      hide ResultCell, BatchTable, Want, CellDone, Spot, Done, HoldsRows, Size;
      forall c | 0 <= c < Size(r, ido, l1) ensures Line(ch[..], so, Size(r, ido, l1), w, q)[c] == Want(c, q) {
        LineCell(q, c);
      }
      LinesAgree(q);
    }

    lemma LineCell(q: int, c: int)
      requires BlockReady(l1) && InStrip(c, q)
      ensures Line(ch[..], so, Size(r, ido, l1), w, q)[c] == Want(c, q)
    {
      CellDecodes(ido, l1, r, c);
      assert Before(c, q, 0, 0, l1);
      assert Done(0, 0, l1) && r > 0 && ido > 0;
      LineAt(ch[..], so, Size(r, ido, l1), w, q, c);
      hide Line, Spot, ResultCell, BatchTable, HoldsRows, Size, PointOf, BlockOf, OutputOf, Want;
      assert CellDone(c, q);
    }

    lemma LinesAgree(q: int)
      requires Valid() && l1 > 0 && 0 <= q < w
      requires forall c :: 0 <= c < Size(r, ido, l1) ==> Line(ch[..], so, Size(r, ido, l1), w, q)[c] == Want(c, q)
      ensures Line(ch[..], so, Size(r, ido, l1), w, q) == PassResult(body, Line(input, si, Size(r, ido, l1), w, q), table, r, ido, l1)
    {
      var got, want := Line(ch[..], so, Size(r, ido, l1), w, q), PassResult(body, Line(input, si, Size(r, ido, l1), w, q), table, r, ido, l1);
      hide Line, ResultCell, BatchTable, HoldsRows;
      forall c | 0 <= c < Size(r, ido, l1) ensures got[c] == want[c] {
      }
    }
  }

  lemma StreamOf(base: int, stride: int, j: int)
    ensures base + 4 * stride + (j - 4) * stride == base + j * stride
  {
  }

  lemma ByteAddress(x: int, stride: int, j: int, p: int)
    ensures (16 * x + j * (16 * stride) + 16 * p) / 16 == x + j * stride + p
  {
    MulRegroup(j, 16, stride);
  }

  lemma InputStream(s: int, r: int, ido: int, i: int, k: int, j: int)
    ensures s * InputCell(r, ido, i, k, j) == s * (i + ido * (r * k)) + j * (s * ido)
  {
    MulAdd(ido, j, r * k);
    MulAdd(s, i + ido * (r * k), ido * j);
    MulRegroup(j, s, ido);
    MulRegroup(s, ido, j);
  }

  lemma OutputStream(s: int, ido: int, l1: int, i: int, k: int, j: int)
    ensures s * Cell(ido, l1, i, k, j) == s * (i + ido * k) + j * (s * (l1 * ido))
  {
    MulAdd(ido, k, l1 * j);
    MulAdd(s, i + ido * k, ido * (l1 * j));
    MulRegroup(ido, l1, j);
    MulRegroup(j, s, l1 * ido);
    MulRegroup(s, l1 * ido, j);
  }

  lemma NextBlock(s: int, ido: int, r: int, k: int)
    ensures s * (ido + ido * (r * k)) + (r - 1) * (s * ido) == s * (ido * (r * (k + 1)))
  {
    MulAdd(r, k, 1);
    MulAdd(ido, r * k, r);
    MulAdd(s, ido * (r * k), ido);
    MulAdd(s, ido * (r * k), ido * r);
    MulRegroup(r, s, ido);
    MulSub(s * ido, r, 1);
  }
}
