/** In which order the twiddle tables of the batch, arm64 and split kernels hold the powers of the
    root: cell by cell, whatever the tables they are compared with. */
module TableOrders {
  import opened Modular
  import opened Rings
  import opened PassWalk
  import opened KernelDft
  import B = Batch
  import A = Arm64Pass
  import opened Floats
  import opened SplitLayout
  import opened Complexes
  import P = Plans

  /** Cell t of a stream of r - 1 twiddles to a point is output t mod (r-1) + 1 of point t / (r-1). */
  lemma StreamPlace(r: int, n: int, t: int)
    requires r > 1 && 0 <= t < (r - 1) * n
    ensures 0 <= t / (r - 1) < n && 1 <= t % (r - 1) + 1 < r && t == (r - 1) * (t / (r - 1)) + t % (r - 1)
  {
    CellOf(r - 1, n, t);
  }

  lemma TablePower<C(!new)>(R: Ring<C>, w: C, body: Body<C>, table: seq<C>, r: int, ido: int, i: int, j: int)
    requires IsTable(R, w, body, table, r, ido) && 1 <= i < ido && 1 <= j < r
    ensures |table| >= TwiddleCells(r) * ((r - 1) * ido) && Twiddle(body, table, r, ido, i, j) == Pow(R, w, i * j)
  {
    hide Twiddle, Pow;
  }

  /** The batch table: the twiddles of point 1, those of point 2, and so on. */
  lemma BatchOrder<C(!new)>(R: Ring<C>, w: C, body: Body<C>, tw: seq<C>, table: seq<C>, r: int, ido: int)
    requires IsTable(R, w, body, table, r, ido) && r > 1 && ido > 0 && |tw| == (r - 1) * (ido - 1)
    ensures B.BatchTable(body, tw, table, r, ido) <==>
            forall t :: 0 <= t < |tw| ==> tw[t] == Pow(R, w, (t / (r - 1) + 1) * (t % (r - 1) + 1))
  {
    hide Twiddle, Pow;
    assert |table| >= TwiddleCells(r) * ((r - 1) * ido);
    if B.BatchTable(body, tw, table, r, ido) {
      forall t | 0 <= t < |tw| ensures tw[t] == Pow(R, w, (t / (r - 1) + 1) * (t % (r - 1) + 1)) {
        StreamPlace(r, ido - 1, t);
        BatchCell(R, w, body, tw, table, r, ido, t / (r - 1) + 1, t % (r - 1) + 1);
      }
    }
    if forall t :: 0 <= t < |tw| ==> tw[t] == Pow(R, w, (t / (r - 1) + 1) * (t % (r - 1) + 1)) {
      forall i, j | 1 <= i < ido && 1 <= j < r ensures B.BatchTwiddle(body, tw, table, r, ido, i, j) {
        CellBounds(r - 1, ido - 1, j - 1, i - 1);
        DivModUnique(r - 1, j - 1, i - 1);
        var t := j - 1 + (r - 1) * (i - 1);
        assert tw[t] == Pow(R, w, (t / (r - 1) + 1) * (t % (r - 1) + 1));
        TablePower(R, w, body, table, r, ido, i, j);
      }
    }
  }

  lemma BatchCell<C(!new)>(R: Ring<C>, w: C, body: Body<C>, tw: seq<C>, table: seq<C>, r: int, ido: int, i: int, j: int)
    requires IsTable(R, w, body, table, r, ido) && B.BatchTable(body, tw, table, r, ido) && 1 <= i < ido && 1 <= j < r
    ensures 0 <= (r - 1) * (i - 1) + (j - 1) < |tw| && tw[(r - 1) * (i - 1) + (j - 1)] == Pow(R, w, i * j)
  {
    hide Twiddle, Pow, IsTable;
    CellBounds(r - 1, ido - 1, j - 1, i - 1);
    assert B.BatchTwiddle(body, tw, table, r, ido, i, j);
    TablePower(R, w, body, table, r, ido, i, j);
  }

  /** Point p of line q of a strip lies in column q of row p. */
  lemma LineOfStrip<C>(mem: seq<C>, s: int, n: int, w: int, q: int, p: int)
    requires B.HoldsRows(|mem|, s, n, w) && 0 <= p < n && 0 <= q < w
    ensures 0 <= s * p + q < |mem| && B.Line(mem, s, n, w, q)[p] == mem[s * p + q]
  {
    B.LineAt(mem, s, n, w, q, p);
    hide B.Line, B.HoldsRows;
  }

  /** The arm64 table: for every pair of points, r - 1 pairs of twiddles, the even point's first. */
  lemma PairOrder<C(!new)>(R: Ring<C>, w: C, body: Body<C>, tw: seq<(C, C)>, table: seq<C>, r: int, ido: int, t: int)
    requires IsTable(R, w, body, table, r, ido) && A.PairTable(body, tw, table, r, ido) && 0 <= t < (r - 1) * ((ido + 1) / 2)
    ensures 0 <= t / (r - 1) < (ido + 1) / 2 && t < |tw|
    ensures var i, j := t / (r - 1) * 2, t % (r - 1) + 1;
      && (0 < i ==> tw[t].0 == Pow(R, w, i * j))
      && (i + 1 < ido ==> tw[t].1 == Pow(R, w, (i + 1) * j))
  {
    hide Twiddle, Pow, IsTable, A.PairTable;
    PairTableSize(body, tw, table, r, ido);
    StreamPlace(r, (ido + 1) / 2, t);
    var i, j := t / (r - 1) * 2, t % (r - 1) + 1;
    if 0 < i {
      PairLane(R, w, body, tw, table, r, ido, i, j);
    }
    if i + 1 < ido {
      PairLane(R, w, body, tw, table, r, ido, i + 1, j);
    }
  }

  lemma PairTableSize<C(!new)>(body: Body<C>, tw: seq<(C, C)>, table: seq<C>, r: int, ido: int)
    requires A.PairTable(body, tw, table, r, ido)
    ensures r > 1 && ido > 0 && |tw| >= (r - 1) * ((ido + 1) / 2)
  {
  }

  lemma PairLane<C(!new)>(R: Ring<C>, w: C, body: Body<C>, tw: seq<(C, C)>, table: seq<C>, r: int, ido: int, i: int, j: int)
    requires IsTable(R, w, body, table, r, ido) && A.PairTable(body, tw, table, r, ido) && 1 <= i < ido && 1 <= j < r
    ensures 0 <= (r - 1) * (i / 2) + (j - 1) < |tw|
    ensures var p := tw[(r - 1) * (i / 2) + (j - 1)]; (if i % 2 == 0 then p.0 else p.1) == Pow(R, w, i * j)
  {
    hide Twiddle, Pow, IsTable;
    A.PairCell(r, ido, i, j);
    assert A.PairTwiddle(body, tw, table, r, ido, i, j);
    TablePower(R, w, body, table, r, ido, i, j);
  }

  /** The split table: for every group of points, r - 1 registers, their lanes in the order of the
      points' lanes. */
  lemma SplitOrder<F(!new)>(R: Ring<Cx<F>>, w: Cx<F>, point: Body<Cx<F>>, tw: seq<Pair<F>>, flat: seq<Cx<F>>,
                            g: nat, r: int, ido: int, t: int, l: int)
    requires g > 0 && g % 2 == 0 && IsTable(R, w, point, flat, r, g * ido) && SameTwiddles(point, tw, flat, g, r, ido)
    requires 0 <= t < (r - 1) * ido && 0 <= l < g
    ensures t < |tw| && 0 <= t / (r - 1) < ido
    ensures var p, j := g * (t / (r - 1)) + (if l % 2 == 0 then l / 2 else g / 2 + l / 2), t % (r - 1) + 1;
      0 < p ==> Cx(tw[t].re(l), tw[t].im(l)) == Pow(R, w, p * j)
  {
    hide Twiddle, Pow, IsTable;
    var i, q, j := t / (r - 1), if l % 2 == 0 then l / 2 else g / 2 + l / 2, t % (r - 1) + 1;
    StreamPlace(r, ido, t);
    CellBounds(g, ido, q, i);
    assert t == (r - 1) * i + j - 1 && LaneOf(g, q) == l && TwiddleMatches(point, tw, flat, g, r, ido, i, q, j);
    if 0 < q + g * i {
      TablePower(R, w, point, flat, r, g * ido, q + g * i, j);
    }
  }

  /** The pass tables, in the order of `Plans.TwiddleOrder`: a power to a cell, but for radix 16 its
      real part twice and its imaginary part twice. */
  lemma PowerCell(w: Complex, r: int, ido: int, i: int, j: int, d: int)
    requires 0 <= i < ido && 1 <= j < r && 0 <= d < TwiddleCells(r)
    ensures 0 <= P.CellOfTwiddle(ido, r, i, j, d) < |P.PowerTableOf(w, r, ido)|
    ensures var c, v := P.PowerTableOf(w, r, ido)[P.CellOfTwiddle(ido, r, i, j, d)], Pow(FIELD, w, i * j);
      c == if r != 16 then v else if d == 0 then Complex(v.re, v.re) else Complex(v.im, v.im)
  {
    hide Pow, FIELD, P.CellOfTwiddle, TwiddleCells;
    P.TwiddlesApart(ido, r, i, j, d, i, j, d);
    var t := P.CellOfTwiddle(ido, r, i, j, d);
    assert P.Wanted(P.PowerCells(w, r), ido, r, t, P.PowerTableOf(w, r, ido)[t]);
  }
}
