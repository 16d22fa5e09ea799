/** The radix-32 kernels in the layouts: every lane of a group is one point, and the kernel's
    run is one split pass, so that it may stand anywhere in a chain of passes. */
module Radix32Points {
  import opened Modular
  import opened PassWalk
  import opened Floats
  import opened Composite
  import opened SplitKernel
  import opened Radix32Kernel
  import opened L = SplitLayout

  // A register value is the sequence of its lanes; lanes past the end are never looked at.

  function LaneIn<Z>(zero: Z, v: seq<Z>, l: int): Z {
    if 0 <= l < |v| then v[l] else zero
  }

  function Lanes<Z>(zero: Z, xs: seq<seq<Z>>, l: int): (ps: seq<Z>)
    ensures |ps| == |xs|
  {
    seq(|xs|, t requires 0 <= t < |xs| => LaneIn(zero, xs[t], l))
  }

  /** A butterfly of points, in every lane. */
  function Lifted<Z>(zero: Z, g: nat, f: (seq<Z>, int) -> Z): (seq<seq<Z>>, int) -> seq<Z> {
    (xs, j) => seq(g, l => f(Lanes(zero, xs, l), j))
  }

  function LiftedTurn<Z>(zero: Z, g: nat, turn: (int, Z) -> Z): (int, seq<Z>) -> seq<Z> {
    (e: int, v: seq<Z>) => seq(g, l => turn(e, LaneIn(zero, v, l)))
  }

  /** The lanes of a register pair, and the pair of some lanes. */
  function FromPair<F>(g: nat, v: Pair<F>): (lanes: seq<Cx<F>>)
    ensures |lanes| == g
  {
    seq(g, l => Lane(v, l))
  }

  function ToPair<F>(zero: F, lanes: seq<Cx<F>>): Pair<F> {
    Pair((l: int) => LaneIn(Cx(zero, zero), lanes, l).re, (l: int) => LaneIn(Cx(zero, zero), lanes, l).im)
  }

  /** The arithmetic of a group, from that of a point: input and output in the layouts of their
      sides, the values between the stages always split. */
  function GroupArithmetic<F(!new)>(zero: F, g: nat, inS: bool, outS: bool, first: (seq<Cx<F>>, int) -> Cx<F>,
                                    second: (seq<Cx<F>>, int) -> Cx<F>, turn: (int, Cx<F>) -> Cx<F>,
                                    mul: (Cx<F>, Cx<F>) -> Cx<F>): Body32<seq<F>, seq<Cx<F>>>
  {
    var z := Cx(zero, zero);
    Body32((m: seq<F>) => FromPair(g, Load(zero, g, inS)(m)), (v: seq<Cx<F>>) => Store(g, outS)(ToPair(zero, v)),
           (v: seq<Cx<F>>) => Store(g, true)(ToPair(zero, v)), (m: seq<F>) => FromPair(g, Load(zero, g, true)(m)),
           Lifted(z, g, first), Lifted(z, g, second), LiftedTurn(z, g, turn),
           (y: seq<Cx<F>>, w: seq<Cx<F>>) => seq(g, l => mul(LaneIn(z, y, l), LaneIn(z, w, l))),
           (y: seq<Cx<F>>, t: seq<Cx<F>>) => seq(g, l => if l == 0 then LaneIn(z, y, l) else LaneIn(z, t, l)))
  }

  /** The 32-point body of a point: eight outputs of the first stage, four of the second. */
  function PointArithmetic<F>(zero: F, first: (seq<Cx<F>>, int) -> Cx<F>, second: (seq<Cx<F>>, int) -> Cx<F>,
                              turn: (int, Cx<F>) -> Cx<F>, mul: (Cx<F>, Cx<F>) -> Cx<F>, join: (Cx<F>, Cx<F>) -> Cx<F>): Body<Cx<F>>
  {
    Body(Composite.SplitBody(Cx(zero, zero), first, second, turn, 8, 4), mul, join)
  }

  lemma LiftedLane<Z>(zero: Z, g: nat, f: (seq<Z>, int) -> Z, xs: seq<seq<Z>>, j: int, l: int)
    requires 0 <= l < g
    ensures LaneIn(zero, Lifted(zero, g, f)(xs, j), l) == f(Lanes(zero, xs, l), j)
  {
  }

  lemma LiftedTurnLane<Z>(zero: Z, g: nat, turn: (int, Z) -> Z, e: int, v: seq<Z>, l: int)
    requires 0 <= l < g
    ensures LaneIn(zero, LiftedTurn(zero, g, turn)(e, v), l) == turn(e, LaneIn(zero, v, l))
  {
  }

  lemma CombLanes<Z>(zero: Z, xs: seq<seq<Z>>, n2: int, l: int)
    requires |xs| == 32 && 0 <= n2 < 4
    ensures Lanes(zero, Comb(xs, 8, 4, n2), l) == Comb(Lanes(zero, xs, l), 8, 4, n2)
  {
    forall n1 | 0 <= n1 < 8 ensures Lanes(zero, Comb(xs, 8, 4, n2), l)[n1] == Comb(Lanes(zero, xs, l), 8, 4, n2)[n1] {
      CellBounds(4, 8, n2, n1);
    }
  }

  /** The two stages, in every lane, are the two stages of that lane. */
  lemma SplitLanes<Z>(zero: Z, g: nat, first: (seq<Z>, int) -> Z, second: (seq<Z>, int) -> Z, turn: (int, Z) -> Z,
                      xs: seq<seq<Z>>, k1: int, k2: int, l: int)
    requires |xs| == 32 && 0 <= l < g
    ensures LaneIn(zero, SplitOutput(Lifted(zero, g, first), Lifted(zero, g, second), LiftedTurn(zero, g, turn), 8, 4, xs, k1, k2), l) ==
            SplitOutput(first, second, turn, 8, 4, Lanes(zero, xs, l), k1, k2)
  {
    hide Lifted, LiftedTurn, Comb;
    var column := SplitColumn(Lifted(zero, g, first), LiftedTurn(zero, g, turn), 8, 4, xs, k1);
    LiftedLane(zero, g, second, column, k2, l);
    var got, want := Lanes(zero, column, l), SplitColumn(first, turn, 8, 4, Lanes(zero, xs, l), k1);
    forall n2 | 0 <= n2 < 4 ensures got[n2] == want[n2] {
      CombLanes(zero, xs, n2, l);
      LiftedLane(zero, g, first, Comb(xs, 8, 4, n2), k1, l);
      LiftedTurnLane(zero, g, turn, n2 * k1, Lifted(zero, g, first)(Comb(xs, 8, 4, n2), k1), l);
    }
    assert got == want;
  }

  // ------------------------------------------------------------ registers and memory

  lemma PairLane<F>(zero: F, lanes: seq<Cx<F>>, l: int)
    ensures Lane(ToPair(zero, lanes), l) == LaneIn(Cx(zero, zero), lanes, l)
  {
  }

  /** What a store leaves depends on the group's lanes alone. */
  lemma StoreByLanes<F>(g: nat, split: bool, u: Pair<F>, v: Pair<F>)
    requires g % 2 == 0 && forall l :: 0 <= l < g ==> Lane(u, l) == Lane(v, l)
    ensures Store(g, split)(u) == Store(g, split)(v)
  {
    var s, t := Store(g, split)(u), Store(g, split)(v);
    forall n | 0 <= n < 2 * g ensures s[n] == t[n] {
      var l := if n < g then n else n - g;
      assert Lane(u, l) == Lane(v, l);
      assert Lane(u, if l % 2 == 0 then l + 1 else l - 1) == Lane(v, if l % 2 == 0 then l + 1 else l - 1);
    }
  }

  /** Values between the stages come back as they were kept. */
  lemma StagesKept<F(!new)>(zero: F, g: nat, inS: bool, outS: bool, first: (seq<Cx<F>>, int) -> Cx<F>,
                            second: (seq<Cx<F>>, int) -> Cx<F>, turn: (int, Cx<F>) -> Cx<F>, mul: (Cx<F>, Cx<F>) -> Cx<F>)
    requires g % 2 == 0
    ensures Keeps(GroupArithmetic(zero, g, inS, outS, first, second, turn, mul))
  {
    var body := GroupArithmetic(zero, g, inS, outS, first, second, turn, mul);
    forall e, v ensures Refetched(body, e, v) {
      var t := body.turn(e, v);
      LanesKept(zero, g, t);
      hide Store, Load, ToPair, FromPair;
    }
  }

  lemma LanesKept<F>(zero: F, g: nat, t: seq<Cx<F>>)
    requires g % 2 == 0 && |t| == g
    ensures FromPair(g, Load(zero, g, true)(Store(g, true)(ToPair(zero, t)))) == t
  {
    hide Store, Load;
    var back := FromPair(g, Load(zero, g, true)(Store(g, true)(ToPair(zero, t))));
    forall l | 0 <= l < g ensures back[l] == t[l] {
      LoadStore(zero, g, true, ToPair(zero, t), l);
      PairLane(zero, t, l);
    }
  }

  /** The inputs of a group, lane by lane, whichever form its registers take. */
  lemma InputLanes<F(!new)>(zero: F, g: nat, inS: bool, cc: seq<seq<F>>, ido: int, l1: int, i: int, k: int, l: int)
    requires 0 <= i < ido && 0 <= k < l1 && |cc| >= Size(32, ido, l1) && 0 <= l < g
    ensures Lanes(Cx(zero, zero), GroupInput((m: seq<F>) => FromPair(g, Load(zero, g, inS)(m)), cc, 32, ido, l1, i, k), l) ==
            LaneOfAll(GroupInput(Load(zero, g, inS), cc, 32, ido, l1, i, k), l)
  {
    var a := Lanes(Cx(zero, zero), GroupInput((m: seq<F>) => FromPair(g, Load(zero, g, inS)(m)), cc, 32, ido, l1, i, k), l);
    var b := LaneOfAll(GroupInput(Load(zero, g, inS), cc, 32, ido, l1, i, k), l);
    hide Load, Lane;
    forall t | 0 <= t < 32 ensures a[t] == b[t] {
      InputInRange(32, ido, l1, i, k, t);
    }
  }

  /** The twiddles of the kernel, as lanes. */
  function LaneTable<F>(g: nat, tw: seq<Pair<F>>): (t: seq<seq<Cx<F>>>)
    ensures |t| == |tw|
  {
    seq(|tw|, n requires 0 <= n < |tw| => FromPair(g, tw[n]))
  }

  lemma TableLane<F>(zero: F, g: nat, tw: seq<Pair<F>>, n: int, l: int)
    requires 0 <= n < |tw| && 0 <= l < g
    ensures LaneIn(Cx(zero, zero), LaneTable(g, tw)[n], l) == Lane(tw[n], l)
  {
  }

  /** The product and the blend, in every lane. */
  lemma ProductLane<F(!new)>(zero: F, g: nat, inS: bool, outS: bool, first: (seq<Cx<F>>, int) -> Cx<F>, second: (seq<Cx<F>>, int) -> Cx<F>,
                             turn: (int, Cx<F>) -> Cx<F>, mul: (Cx<F>, Cx<F>) -> Cx<F>, y: seq<Cx<F>>, w: seq<Cx<F>>, l: int)
    requires 0 <= l < g
    ensures var body, z := GroupArithmetic(zero, g, inS, outS, first, second, turn, mul), Cx(zero, zero);
      && LaneIn(z, body.mul(y, w), l) == mul(LaneIn(z, y, l), LaneIn(z, w, l))
      && LaneIn(z, body.blend(y, w), l) == if l == 0 then LaneIn(z, y, l) else LaneIn(z, w, l)
  {
  }

  lemma PointProduct<F>(zero: F, first: (seq<Cx<F>>, int) -> Cx<F>, second: (seq<Cx<F>>, int) -> Cx<F>,
                        turn: (int, Cx<F>) -> Cx<F>, mul: (Cx<F>, Cx<F>) -> Cx<F>, join: (Cx<F>, Cx<F>) -> Cx<F>)
    ensures PointArithmetic(zero, first, second, turn, mul, join).mul == mul
  {
  }

  /** A group's output, lane by lane, is the split pass's value. */
  lemma OutputLane<F(!new)>(zero: F, g: nat, inS: bool, outS: bool, first: (seq<Cx<F>>, int) -> Cx<F>, second: (seq<Cx<F>>, int) -> Cx<F>,
                            turn: (int, Cx<F>) -> Cx<F>, mul: (Cx<F>, Cx<F>) -> Cx<F>, join: (Cx<F>, Cx<F>) -> Cx<F>,
                            cc: seq<seq<F>>, tw: seq<Pair<F>>, ido: int, l1: int, i: int, k: int, j: int, l: int)
    requires 0 <= i < ido && 0 <= k < l1 && 0 <= j < 32 && |cc| >= Size(32, ido, l1) && |tw| >= 31 * ido && 0 <= l < g
    ensures LaneIn(Cx(zero, zero), Output32(GroupArithmetic(zero, g, inS, outS, first, second, turn, mul), cc, LaneTable(g, tw), ido, l1, i, k, j), l) ==
            Lane(GroupValue(L.SplitBody(zero, PointArithmetic(zero, first, second, turn, mul, join), g, inS, outS), cc, tw, 32, ido, l1, i, k, j), l)
  {
    hide SplitOutput, GroupInput, Lane, L.SplitBody, Size, Composite.SplitBody, GroupArithmetic, PointArithmetic, LaneIn, LaneTable;
    ButterflyLane(zero, g, inS, outS, first, second, turn, mul, join, cc, ido, l1, i, k, j, l);
    if j > 0 {
      var point := PointArithmetic(zero, first, second, turn, mul, join);
      var body, pass := GroupArithmetic(zero, g, inS, outS, first, second, turn, mul), L.SplitBody(zero, point, g, inS, outS);
      var y := SplitOutput(body.first, body.second, body.turn, 8, 4, GroupInput(body.load, cc, 32, ido, l1, i, k), j % 8, j / 8);
      var v := pass.bfly(GroupInput(pass.load, cc, 32, ido, l1, i, k), j);
      TwiddleBounds(32, ido, i, j);
      var n := 31 * i + j - 1;
      TableLane(zero, g, tw, n, l);
      ProductLane(zero, g, inS, outS, first, second, turn, mul, y, LaneTable(g, tw)[n], l);
      ProductLane(zero, g, inS, outS, first, second, turn, mul, y, body.mul(y, LaneTable(g, tw)[n]), l);
      LanewiseMul(zero, point, g, inS, outS, v, tw[n], l);
      LanewiseMul(zero, point, g, inS, outS, v, pass.mul(v, tw[n]), l);
      PointProduct(zero, first, second, turn, mul, join);
    }
  }

  lemma ButterflyLane<F(!new)>(zero: F, g: nat, inS: bool, outS: bool, first: (seq<Cx<F>>, int) -> Cx<F>, second: (seq<Cx<F>>, int) -> Cx<F>,
                               turn: (int, Cx<F>) -> Cx<F>, mul: (Cx<F>, Cx<F>) -> Cx<F>, join: (Cx<F>, Cx<F>) -> Cx<F>,
                               cc: seq<seq<F>>, ido: int, l1: int, i: int, k: int, j: int, l: int)
    requires 0 <= i < ido && 0 <= k < l1 && 0 <= j < 32 && |cc| >= Size(32, ido, l1) && 0 <= l < g
    ensures var body, pass := GroupArithmetic(zero, g, inS, outS, first, second, turn, mul),
                              L.SplitBody(zero, PointArithmetic(zero, first, second, turn, mul, join), g, inS, outS);
      LaneIn(Cx(zero, zero), SplitOutput(body.first, body.second, body.turn, 8, 4, GroupInput(body.load, cc, 32, ido, l1, i, k), j % 8, j / 8), l) ==
      Lane(pass.bfly(GroupInput(pass.load, cc, 32, ido, l1, i, k), j), l)
  {
    var z, point := Cx(zero, zero), PointArithmetic(zero, first, second, turn, mul, join);
    var body, pass := GroupArithmetic(zero, g, inS, outS, first, second, turn, mul), L.SplitBody(zero, point, g, inS, outS);
    var xs, ps := GroupInput(body.load, cc, 32, ido, l1, i, k), GroupInput(pass.load, cc, 32, ido, l1, i, k);
    assert pass.load == Load(zero, g, inS);
    InputLanes(zero, g, inS, cc, ido, l1, i, k, l);
    assert Lanes(z, xs, l) == LaneOfAll(ps, l);
    SplitLanes(z, g, first, second, turn, xs, j % 8, j / 8, l);
    LanewiseBfly(zero, point, g, inS, outS, ps, j, l);
    hide SplitOutput, GroupInput, Lane, L.SplitBody, LaneOfAll, Lanes, Load, Lifted, LiftedTurn;
  }

  /** The kernel's run is one split pass of radix 32. */
  lemma RunIsSplitStep<F(!new)>(p: R32<seq<F>, seq<Cx<F>>>, zero: F, g: nat, inS: bool, outS: bool,
                                first: (seq<Cx<F>>, int) -> Cx<F>, second: (seq<Cx<F>>, int) -> Cx<F>, turn: (int, Cx<F>) -> Cx<F>,
                                mul: (Cx<F>, Cx<F>) -> Cx<F>, join: (Cx<F>, Cx<F>) -> Cx<F>, tw: seq<Pair<F>>)
    requires g % 2 == 0 && p.Valid() && p.l1 > 0 && p.body == GroupArithmetic(zero, g, inS, outS, first, second, turn, mul)
    requires |tw| == |p.tw| && p.tw == LaneTable(g, tw)
    requires forall i, k, j :: 0 <= i < p.ido && 0 <= k < p.l1 && 0 <= j < 32 ==> p.Made(i, k, j)
    ensures SplitStep(zero, PointArithmetic(zero, first, second, turn, mul, join), g, inS, outS, tw, 32, p.ido, p.l1, p.input, p.ch[..])
  {
    var point := PointArithmetic(zero, first, second, turn, mul, join);
    hide GroupArithmetic, PointArithmetic, L.SplitBody, LaneTable;
    forall i, k, j | 0 <= i < p.ido && 0 <= k < p.l1 && 0 <= j < 32
      ensures StepCell(zero, point, g, inS, outS, tw, 32, p.ido, p.l1, p.input, p.ch[..], i, k, j)
    {
      assert p.Made(i, k, j);
      CellEncodes(p.ido, p.l1, 32, i, k, j);
      StoredAlike(zero, g, inS, outS, first, second, turn, mul, join, p.input, tw, p.ido, p.l1, i, k, j);
    }
  }

  lemma StoredAlike<F(!new)>(zero: F, g: nat, inS: bool, outS: bool, first: (seq<Cx<F>>, int) -> Cx<F>, second: (seq<Cx<F>>, int) -> Cx<F>,
                             turn: (int, Cx<F>) -> Cx<F>, mul: (Cx<F>, Cx<F>) -> Cx<F>, join: (Cx<F>, Cx<F>) -> Cx<F>,
                             cc: seq<seq<F>>, tw: seq<Pair<F>>, ido: int, l1: int, i: int, k: int, j: int)
    requires g % 2 == 0 && 0 <= i < ido && 0 <= k < l1 && 0 <= j < 32 && |cc| >= Size(32, ido, l1) && |tw| >= 31 * ido
    ensures var body, pass := GroupArithmetic(zero, g, inS, outS, first, second, turn, mul),
                              L.SplitBody(zero, PointArithmetic(zero, first, second, turn, mul, join), g, inS, outS);
      body.store(Output32(body, cc, LaneTable(g, tw), ido, l1, i, k, j)) == pass.store(GroupValue(pass, cc, tw, 32, ido, l1, i, k, j))
  {
    var body, pass := GroupArithmetic(zero, g, inS, outS, first, second, turn, mul),
                      L.SplitBody(zero, PointArithmetic(zero, first, second, turn, mul, join), g, inS, outS);
    var y, v := Output32(body, cc, LaneTable(g, tw), ido, l1, i, k, j), GroupValue(pass, cc, tw, 32, ido, l1, i, k, j);
    assert body.store(y) == Store(g, outS)(ToPair(zero, y)) && pass.store(v) == Store(g, outS)(v);
    hide GroupArithmetic, L.SplitBody, Output32, GroupValue, PointArithmetic, Store, Lane, ToPair;
    forall l | 0 <= l < g ensures Lane(ToPair(zero, y), l) == Lane(v, l) {
      OutputLane(zero, g, inS, outS, first, second, turn, mul, join, cc, tw, ido, l1, i, k, j, l);
      PairLane(zero, y, l);
    }
    StoreByLanes(g, outS, ToPair(zero, y), v);
  }
}
