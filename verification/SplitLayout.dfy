/** The block-split layout: a group of points as its real parts, then its imaginary parts, in
    the order the unpack instructions make of two interleaved registers. */
module SplitLayout {
  import opened Modular
  import opened PassWalk
  import opened Floats
  import opened SplitKernel

  /** A register of one part of every point, by lane. */
  type Register<F> = int -> F

  /** A group's two registers. */
  datatype Pair<!F> = Pair(re: Register<F>, im: Register<F>)

  function Lane<F>(v: Pair<F>, l: int): Cx<F> {
    Cx(v.re(l), v.im(l))
  }

  /** VUNPCKLPD: the even lanes of both, alternating. */
  function Low<F>(a: Register<F>, b: Register<F>): Register<F> {
    l => if l % 2 == 0 then a(l) else b(l - 1)
  }

  /** VUNPCKHPD: the odd lanes. */
  function High<F>(a: Register<F>, b: Register<F>): Register<F> {
    l => if l % 2 == 0 then a(l + 1) else b(l)
  }

  /** Unpacking twice is the identity, lane by lane. */
  lemma UnpackTwice<F>(a: Register<F>, b: Register<F>, l: int)
    ensures Low(Low(a, b), High(a, b))(l) == a(l) && High(Low(a, b), High(a, b))(l) == b(l)
  {
    if l % 2 == 0 {
      assert (l + 1) % 2 == 1;
    } else {
      assert (l - 1) % 2 == 0;
    }
  }

  /** The g lanes of memory from place `from` on. */
  function Half<F>(zero: F, m: seq<F>, from: int): Register<F> {
    l => if 0 <= from + l < |m| then m[from + l] else zero
  }

  /** A group of memory into registers: as it lies when split, unpacked when interleaved. */
  function Load<F>(zero: F, g: nat, split: bool): seq<F> -> Pair<F> {
    (m: seq<F>) =>
      var t0, t1 := Half(zero, m, 0), Half(zero, m, g);
      if split then Pair(t0, t1) else Pair(Low(t0, t1), High(t0, t1))
  }

  function Store<F>(g: nat, split: bool): Pair<F> -> seq<F> {
    (v: Pair<F>) =>
      var t0, t1 := if split then v.re else Low(v.re, v.im), if split then v.im else High(v.re, v.im);
      seq(2 * g, n => if n < g then t0(n) else t1(n - g))
  }

  /** The halves of a stored group are what was stored, on the group's lanes. */
  lemma StoredHalves<F>(zero: F, g: nat, split: bool, v: Pair<F>, l: int)
    requires 0 <= l < g
    ensures var m := Store(g, split)(v);
      if split then Half(zero, m, 0)(l) == v.re(l) && Half(zero, m, g)(l) == v.im(l)
      else Half(zero, m, 0)(l) == Low(v.re, v.im)(l) && Half(zero, m, g)(l) == High(v.re, v.im)(l)
  {
    var m := Store(g, split)(v);
    if split {
      assert m[l] == v.re(l) && m[g + l] == v.im(l);
    } else {
      assert m[l] == Low(v.re, v.im)(l) && m[g + l] == High(v.re, v.im)(l);
    }
  }

  /** Loading what was stored gives the lanes back. */
  lemma LoadStore<F>(zero: F, g: nat, split: bool, v: Pair<F>, l: int)
    requires g % 2 == 0 && 0 <= l < g
    ensures Lane(Load(zero, g, split)(Store(g, split)(v)), l) == Lane(v, l)
  {
    hide Store, Half;
    StoredHalves(zero, g, split, v, l);
    if !split {
      UnpackTwice(v.re, v.im, l);
      StoredHalves(zero, g, split, v, if l % 2 == 0 then l + 1 else l - 1);
    }
  }

  /** Storing what was loaded gives the memory back. */
  lemma StoreLoad<F>(zero: F, g: nat, split: bool, m: seq<F>)
    requires g % 2 == 0 && |m| == 2 * g
    ensures Store(g, split)(Load(zero, g, split)(m)) == m
  {
    hide Store, Half, Low, High;
    var t0, t1, v := Half(zero, m, 0), Half(zero, m, g), Load(zero, g, split)(m);
    StoredSize(g, split, v);
    forall n | 0 <= n < 2 * g ensures Store(g, split)(v)[n] == m[n] {
      StoredCell(g, split, v, n);
      var l := if n < g then n else n - g;
      UnpackTwice(t0, t1, l);
      HalfLanes(zero, g, m, l);
    }
  }

  lemma StoredSize<F>(g: nat, split: bool, v: Pair<F>)
    ensures |Store(g, split)(v)| == 2 * g
  {
  }

  lemma StoredCell<F>(g: nat, split: bool, v: Pair<F>, n: int)
    requires 0 <= n < 2 * g
    ensures |Store(g, split)(v)| == 2 * g
    ensures split ==> Store(g, split)(v)[n] == if n < g then v.re(n) else v.im(n - g)
    ensures !split ==> Store(g, split)(v)[n] == if n < g then Low(v.re, v.im)(n) else High(v.re, v.im)(n - g)
  {
    hide Low, High;
  }

  lemma HalfLanes<F>(zero: F, g: nat, m: seq<F>, l: int)
    requires |m| == 2 * g && 0 <= l < g
    ensures Half(zero, m, 0)(l) == m[l] && Half(zero, m, g)(l) == m[g + l]
  {
  }

  /** The lane of point p of a group. */
  function LaneOf(g: int, p: int): int {
    if p < g / 2 then 2 * p else 2 * (p - g / 2) + 1
  }

  lemma LaneBounds(g: int, p: int)
    requires g % 2 == 0 && 0 <= p < g
    ensures 0 <= LaneOf(g, p) < g && (LaneOf(g, p) == 0 <==> p == 0)
  {
  }

  /** Point p of a group of memory. */
  function PointIn<F>(zero: F, g: nat, split: bool, m: seq<F>, p: int): Cx<F> {
    Lane(Load(zero, g, split)(m), LaneOf(g, p))
  }

  /** In the interleaved layout, the point's parts lie side by side. */
  lemma InterleavedPoint<F>(zero: F, g: nat, m: seq<F>, p: int)
    requires |m| == 2 * g && g % 2 == 0 && 0 <= p < g
    ensures PointIn(zero, g, false, m, p) == Cx(m[2 * p], m[2 * p + 1])
  {
    var l := LaneOf(g, p);
    if p < g / 2 {
      assert l % 2 == 0;
    } else {
      assert l % 2 == 1 && g + l - 1 == 2 * p;
    }
  }

  /** In the split layout, a point's parts are g apart: the lane is twice its place in its half, and
      one more in the second half. */
  lemma SplitPoint<F>(zero: F, g: nat, m: seq<F>, p: int)
    requires |m| == 2 * g && g % 2 == 0 && 0 <= p < g
    ensures 2 * p < g ==> PointIn(zero, g, true, m, p) == Cx(m[2 * p], m[g + 2 * p])
    ensures 2 * p >= g ==> PointIn(zero, g, true, m, p) == Cx(m[2 * p - g + 1], m[2 * p + 1])
  {
    var l := LaneOf(g, p);
    assert l == if 2 * p < g then 2 * p else 2 * p - g + 1;
  }

  /** The orders of two, four and eight points: the lane of every point. */
  lemma Orders()
    ensures [LaneOf(2, 0), LaneOf(2, 1)] == [0, 1]
    ensures [LaneOf(4, 0), LaneOf(4, 2), LaneOf(4, 1), LaneOf(4, 3)] == [0, 1, 2, 3]
    ensures [LaneOf(8, 0), LaneOf(8, 4), LaneOf(8, 1), LaneOf(8, 5), LaneOf(8, 2), LaneOf(8, 6), LaneOf(8, 3), LaneOf(8, 7)] ==
            [0, 1, 2, 3, 4, 5, 6, 7]
  {
  }

  // ------------------------------------------------------------ the body, lane by lane

  /** The points in lane l of every register pair. */
  function LaneOfAll<F>(xs: seq<Pair<F>>, l: int): (ps: seq<Cx<F>>)
    ensures |ps| == |xs|
  {
    seq(|xs|, t requires 0 <= t < |xs| => Lane(xs[t], l))
  }

  /** The body of a split kernel: in every lane the body of a point, loads and stores in the
      layouts of the two sides, and a blend that keeps lane 0. */
  function SplitBody<F>(zero: F, point: Body<Cx<F>>, g: nat, inS: bool, outS: bool): GroupBody<seq<F>, Pair<F>> {
    GroupBody(Load(zero, g, inS), Store(g, outS),
              (xs, j) => Pair(l => point.bfly(LaneOfAll(xs, l), j).re, l => point.bfly(LaneOfAll(xs, l), j).im),
              (y, w) => Pair(l => point.mul(Lane(y, l), Lane(w, l)).re, l => point.mul(Lane(y, l), Lane(w, l)).im),
              (y: Pair<F>, t: Pair<F>) => Pair(l => if l == 0 then y.re(l) else t.re(l), l => if l == 0 then y.im(l) else t.im(l)))
  }

  lemma LanewiseBfly<F>(zero: F, point: Body<Cx<F>>, g: nat, inS: bool, outS: bool, xs: seq<Pair<F>>, j: int, l: int)
    ensures Lane(SplitBody(zero, point, g, inS, outS).bfly(xs, j), l) == point.bfly(LaneOfAll(xs, l), j)
  {
  }

  lemma LanewiseMul<F>(zero: F, point: Body<Cx<F>>, g: nat, inS: bool, outS: bool, y: Pair<F>, w: Pair<F>, l: int)
    ensures Lane(SplitBody(zero, point, g, inS, outS).mul(y, w), l) == point.mul(Lane(y, l), Lane(w, l))
    ensures Lane(SplitBody(zero, point, g, inS, outS).blend(y, w), l) == if l == 0 then Lane(y, l) else Lane(w, l)
  {
  }

  // ------------------------------------------------------------ the points of an array

  ghost predicate Groups<F>(mem: seq<seq<F>>, g: nat) {
    forall a :: 0 <= a < |mem| ==> |mem[a]| == 2 * g
  }

  function Points<F>(zero: F, g: nat, split: bool, mem: seq<seq<F>>): (pts: seq<Cx<F>>)
    requires g > 0
    ensures |pts| == g * |mem|
  {
    seq(g * |mem|, n requires 0 <= n < g * |mem| => (CellOf(g, |mem|, n); PointIn(zero, g, split, mem[n / g], n % g)))
  }

  lemma PointAt<F>(zero: F, g: nat, split: bool, mem: seq<seq<F>>, c: int, p: int)
    requires 0 <= c < |mem| && 0 <= p < g
    ensures 0 <= p + g * c < |Points(zero, g, split, mem)|
    ensures Points(zero, g, split, mem)[p + g * c] == PointIn(zero, g, split, mem[c], p)
  {
    CellBounds(g, |mem|, p, c);
    DivModUnique(g, p, c);
    hide PointIn;
  }

  /** Two interleaved arrays with the same points are the same memory. */
  lemma SamePoints<F>(zero: F, g: nat, m: seq<seq<F>>, n: seq<seq<F>>)
    requires g > 0 && g % 2 == 0 && Groups(m, g) && Groups(n, g) && |m| == |n|
    requires Points(zero, g, false, m) == Points(zero, g, false, n)
    ensures m == n
  {
    hide PointIn;
    forall c | 0 <= c < |m| ensures m[c] == n[c] {
      forall q | 0 <= q < 2 * g ensures m[c][q] == n[c][q] {
        PointAt(zero, g, false, m, c, q / 2);
        PointAt(zero, g, false, n, c, q / 2);
        InterleavedPoint(zero, g, m[c], q / 2);
        InterleavedPoint(zero, g, n[c], q / 2);
        assert q == 2 * (q / 2) || q == 2 * (q / 2) + 1;
      }
    }
  }

  // ------------------------------------------------------------ one pass

  /** The inputs of a group, in the lane of point p, are that point's inputs. */
  lemma LaneInputs<F(!new)>(zero: F, g: nat, inS: bool, cc: seq<seq<F>>, r: int, ido: int, l1: int, i: int, k: int, p: int)
    requires r > 0 && |cc| == Size(r, ido, l1) && 0 <= i < ido && 0 <= k < l1 && 0 <= p < g
    ensures 0 <= p + g * i < g * ido && |Points(zero, g, inS, cc)| == Size(r, g * ido, l1)
    ensures LaneOfAll(GroupInput(Load(zero, g, inS), cc, r, ido, l1, i, k), LaneOf(g, p)) ==
            PassInput(Points(zero, g, inS, cc), r, g * ido, l1, p + g * i, k)
  {
    CellBounds(g, ido, p, i);
    GroupSizes(g, r, ido, l1);
    var pts := Points(zero, g, inS, cc);
    var xs, ys := LaneOfAll(GroupInput(Load(zero, g, inS), cc, r, ido, l1, i, k), LaneOf(g, p)), PassInput(pts, r, g * ido, l1, p + g * i, k);
    forall t | 0 <= t < r ensures xs[t] == ys[t] {
      InputInRange(r, ido, l1, i, k, t);
      InputInRange(r, g * ido, l1, p + g * i, k, t);
      hide Points, Lane, Load, LaneOf, Size;
      var c := InputCell(r, ido, i, k, t);
      GroupCell(g, ido, i, p, t + r * k);
      PointAt(zero, g, inS, cc, c, p);
      assert InputCell(r, g * ido, p + g * i, k, t) == p + g * c;
    }
  }

  /** The split table holds, lane by lane, the twiddles of the table of points. */
  ghost predicate SameTwiddles<F(!new)>(point: Body<Cx<F>>, tw: seq<Pair<F>>, flat: seq<Cx<F>>, g: nat, r: int, ido: int) {
    && r > 1 && ido > 0 && |tw| >= (r - 1) * ido && |flat| >= TwiddleCells(r) * ((r - 1) * (g * ido))
    && forall i, p, j :: 0 <= i < ido && 0 <= p < g && 1 <= j < r ==> TwiddleMatches(point, tw, flat, g, r, ido, i, p, j)
  }

  ghost predicate TwiddleMatches<F(!new)>(point: Body<Cx<F>>, tw: seq<Pair<F>>, flat: seq<Cx<F>>, g: nat, r: int, ido: int, i: int, p: int, j: int)
    requires |tw| >= (r - 1) * ido && |flat| >= TwiddleCells(r) * ((r - 1) * (g * ido))
    requires 0 <= i < ido && 0 <= p < g && 1 <= j < r
  {
    TwiddleBounds(r, ido, i, j);
    CellBounds(g, ido, p, i);
    Lane(tw[(r - 1) * i + j - 1], LaneOf(g, p)) == Twiddle(point, flat, r, g * ido, p + g * i, j)
  }

  lemma LaneButterfly<F(!new)>(zero: F, point: Body<Cx<F>>, g: nat, inS: bool, outS: bool, cc: seq<seq<F>>,
                               r: int, ido: int, l1: int, i: int, k: int, j: int, p: int)
    requires r > 0 && |cc| == Size(r, ido, l1) && 0 <= i < ido && 0 <= k < l1 && 0 <= p < g
    ensures 0 <= p + g * i < g * ido && |Points(zero, g, inS, cc)| == Size(r, g * ido, l1)
    ensures var body := SplitBody(zero, point, g, inS, outS);
      Lane(body.bfly(GroupInput(body.load, cc, r, ido, l1, i, k), j), LaneOf(g, p)) ==
      point.bfly(PassInput(Points(zero, g, inS, cc), r, g * ido, l1, p + g * i, k), j)
  {
    var body := SplitBody(zero, point, g, inS, outS);
    assert body.load == Load(zero, g, inS);
    LaneInputs(zero, g, inS, cc, r, ido, l1, i, k, p);
    LanewiseBfly(zero, point, g, inS, outS, GroupInput(body.load, cc, r, ido, l1, i, k), j, LaneOf(g, p));
    hide SplitBody, LaneOf, Lane, GroupInput, LaneOfAll, PassInput, Points, Load;
  }

  /** The value of a group, in the lane of point p, is the pass's value of that point. */
  lemma LaneValue<F(!new)>(zero: F, point: Body<Cx<F>>, g: nat, inS: bool, outS: bool, cc: seq<seq<F>>,
                           tw: seq<Pair<F>>, flat: seq<Cx<F>>, r: int, ido: int, l1: int, i: int, k: int, j: int, p: int)
    requires g % 2 == 0 && |cc| == Size(r, ido, l1) && 0 <= i < ido && 0 <= k < l1 && 0 <= j < r && 0 <= p < g
    requires SameTwiddles(point, tw, flat, g, r, ido)
    ensures 0 <= p + g * i < g * ido && |Points(zero, g, inS, cc)| == Size(r, g * ido, l1)
    ensures Lane(GroupValue(SplitBody(zero, point, g, inS, outS), cc, tw, r, ido, l1, i, k, j), LaneOf(g, p)) ==
            PassOutput(point, Points(zero, g, inS, cc), flat, r, g * ido, l1, p + g * i, k, j)
  {
    LaneButterfly(zero, point, g, inS, outS, cc, r, ido, l1, i, k, j, p);
    LaneBounds(g, p);
    FirstPoint(g, i, p);
    hide LaneOf, Lane, GroupInput, PassInput, Points, Size;
    if j > 0 {
      LaneProduct(zero, point, g, inS, outS, cc, tw, flat, r, ido, l1, i, k, j, p);
    }
    hide SplitBody, Twiddle, SameTwiddles, GroupValue;
  }

  /** Past output 0: the product, and the blend of point 0. */
  lemma LaneProduct<F(!new)>(zero: F, point: Body<Cx<F>>, g: nat, inS: bool, outS: bool, cc: seq<seq<F>>,
                             tw: seq<Pair<F>>, flat: seq<Cx<F>>, r: int, ido: int, l1: int, i: int, k: int, j: int, p: int)
    requires g % 2 == 0 && |cc| == Size(r, ido, l1) && 0 <= i < ido && 0 <= k < l1 && 1 <= j < r && 0 <= p < g
    requires SameTwiddles(point, tw, flat, g, r, ido)
    ensures 0 <= p + g * i < g * ido
    ensures var body := SplitBody(zero, point, g, inS, outS);
      var y := Lane(body.bfly(GroupInput(body.load, cc, r, ido, l1, i, k), j), LaneOf(g, p));
      Lane(GroupValue(body, cc, tw, r, ido, l1, i, k, j), LaneOf(g, p)) ==
      if i == 0 && p == 0 then y else point.mul(y, Twiddle(point, flat, r, g * ido, p + g * i, j))
  {
    var body, l := SplitBody(zero, point, g, inS, outS), LaneOf(g, p);
    var y := body.bfly(GroupInput(body.load, cc, r, ido, l1, i, k), j);
    CellBounds(g, ido, p, i);
    TwiddleBounds(r, ido, i, j);
    LaneBounds(g, p);
    var w := tw[(r - 1) * i + j - 1];
    assert TwiddleMatches(point, tw, flat, g, r, ido, i, p, j);
    LanewiseMul(zero, point, g, inS, outS, y, w, l);
    LanewiseMul(zero, point, g, inS, outS, y, body.mul(y, w), l);
    hide SplitBody, LaneOf, Lane, GroupInput, Twiddle, SameTwiddles, Size;
  }

  /** ch holds what one split pass makes of cc. */
  ghost predicate SplitStep<F(!new)>(zero: F, point: Body<Cx<F>>, g: nat, inS: bool, outS: bool, tw: seq<Pair<F>>,
                                     r: int, ido: int, l1: int, cc: seq<seq<F>>, ch: seq<seq<F>>)
  {
    && r > 1 && ido > 0 && l1 > 0 && |cc| == |ch| == Size(r, ido, l1) && |tw| >= (r - 1) * ido
    && forall i, k, j :: 0 <= i < ido && 0 <= k < l1 && 0 <= j < r ==>
         StepCell(zero, point, g, inS, outS, tw, r, ido, l1, cc, ch, i, k, j)
  }

  ghost predicate StepCell<F(!new)>(zero: F, point: Body<Cx<F>>, g: nat, inS: bool, outS: bool, tw: seq<Pair<F>>,
                                    r: int, ido: int, l1: int, cc: seq<seq<F>>, ch: seq<seq<F>>, i: int, k: int, j: int)
    requires |cc| == |ch| == Size(r, ido, l1) && |tw| >= (r - 1) * ido && 0 <= i < ido && 0 <= k < l1 && 0 <= j < r
  {
    CellEncodes(ido, l1, r, i, k, j);
    var body := SplitBody(zero, point, g, inS, outS);
    ch[Cell(ido, l1, i, k, j)] == body.store(GroupValue(body, cc, tw, r, ido, l1, i, k, j))
  }

  /** The kernel does one split pass. */
  lemma KernelDoesStep<F(!new)>(p: SplitPass<seq<F>, Pair<F>>, zero: F, point: Body<Cx<F>>, g: nat, inS: bool, outS: bool)
    requires p.Valid() && p.l1 > 0 && p.body == SplitBody(zero, point, g, inS, outS)
    requires forall i, k, j :: 0 <= i < p.ido && 0 <= k < p.l1 && 0 <= j < p.r ==> p.Made(i, k, j)
    ensures SplitStep(zero, point, g, inS, outS, p.tw, p.r, p.ido, p.l1, p.input, p.ch[..])
  {
    hide SplitBody, GroupValue;
    forall i, k, j | 0 <= i < p.ido && 0 <= k < p.l1 && 0 <= j < p.r
      ensures StepCell(zero, point, g, inS, outS, p.tw, p.r, p.ido, p.l1, p.input, p.ch[..], i, k, j)
    {
      assert p.Made(i, k, j);
      CellEncodes(p.ido, p.l1, p.r, i, k, j);
    }
  }

  /** The points a split pass leaves are those of the pass on points, whatever the layouts. */
  lemma SplitPassIsPass<F(!new)>(zero: F, point: Body<Cx<F>>, g: nat, inS: bool, outS: bool, tw: seq<Pair<F>>, flat: seq<Cx<F>>,
                                 r: int, ido: int, l1: int, cc: seq<seq<F>>, ch: seq<seq<F>>)
    requires g > 0 && g % 2 == 0 && SplitStep(zero, point, g, inS, outS, tw, r, ido, l1, cc, ch)
    requires SameTwiddles(point, tw, flat, g, r, ido)
    ensures g * ido > 0 && |Points(zero, g, inS, cc)| == Size(r, g * ido, l1)
    ensures Points(zero, g, outS, ch) == PassResult(point, Points(zero, g, inS, cc), flat, r, g * ido, l1)
  {
    GroupSizes(g, r, ido, l1);
    MulLower(g, ido);
    var pts, out := Points(zero, g, inS, cc), Points(zero, g, outS, ch);
    var N := g * ido;
    hide Points, PassOutput, Twiddle;
    forall a | 0 <= a < Size(r, N, l1) ensures out[a] == ResultCell(point, pts, flat, r, N, l1, a) {
      CellDecodes(N, l1, r, a);
      PointOfPass(zero, point, g, inS, outS, tw, flat, r, ido, l1, cc, ch, PointOf(N, a), BlockOf(N, l1, a), OutputOf(N, l1, a));
    }
  }

  lemma PointOfPass<F(!new)>(zero: F, point: Body<Cx<F>>, g: nat, inS: bool, outS: bool, tw: seq<Pair<F>>, flat: seq<Cx<F>>,
                             r: int, ido: int, l1: int, cc: seq<seq<F>>, ch: seq<seq<F>>, u: int, k: int, j: int)
    requires g > 0 && g % 2 == 0 && SplitStep(zero, point, g, inS, outS, tw, r, ido, l1, cc, ch)
    requires SameTwiddles(point, tw, flat, g, r, ido)
    requires 0 <= u < g * ido && 0 <= k < l1 && 0 <= j < r
    ensures |Points(zero, g, inS, cc)| == Size(r, g * ido, l1) == |Points(zero, g, outS, ch)|
    ensures 0 <= Cell(g * ido, l1, u, k, j) < Size(r, g * ido, l1)
    ensures Points(zero, g, outS, ch)[Cell(g * ido, l1, u, k, j)] ==
            PassOutput(point, Points(zero, g, inS, cc), flat, r, g * ido, l1, u, k, j)
  {
    CellOf(g, ido, u);
    var p, i := u % g, u / g;
    var c := Cell(ido, l1, i, k, j);
    GroupSizes(g, r, ido, l1);
    CellEncodes(ido, l1, r, i, k, j);
    CellEncodes(g * ido, l1, r, u, k, j);
    GroupCell(g, ido, i, p, k + l1 * j);
    assert Cell(g * ido, l1, u, k, j) == p + g * c;
    StepStores(zero, point, g, inS, outS, tw, r, ido, l1, cc, ch, i, k, j);
    hide SplitBody, GroupValue, Points, PassOutput, Twiddle, SplitStep, SameTwiddles, Store, Load, LaneOf, Lane, Size, Cell, PointIn;
    PointAt(zero, g, outS, ch, c, p);
    PointStored(zero, g, outS, GroupValue(SplitBody(zero, point, g, inS, outS), cc, tw, r, ido, l1, i, k, j), p);
    LaneValue(zero, point, g, inS, outS, cc, tw, flat, r, ido, l1, i, k, j, p);
  }

  lemma PointStored<F>(zero: F, g: nat, split: bool, v: Pair<F>, p: int)
    requires g % 2 == 0 && 0 <= p < g
    ensures PointIn(zero, g, split, Store(g, split)(v), p) == Lane(v, LaneOf(g, p))
  {
    LaneBounds(g, p);
    LoadStore(zero, g, split, v, LaneOf(g, p));
    hide Store, Load, LaneOf, Lane;
  }

  lemma StepStores<F(!new)>(zero: F, point: Body<Cx<F>>, g: nat, inS: bool, outS: bool, tw: seq<Pair<F>>,
                            r: int, ido: int, l1: int, cc: seq<seq<F>>, ch: seq<seq<F>>, i: int, k: int, j: int)
    requires SplitStep(zero, point, g, inS, outS, tw, r, ido, l1, cc, ch) && 0 <= i < ido && 0 <= k < l1 && 0 <= j < r
    ensures 0 <= Cell(ido, l1, i, k, j) < |ch|
    ensures ch[Cell(ido, l1, i, k, j)] ==
            Store(g, outS)(GroupValue(SplitBody(zero, point, g, inS, outS), cc, tw, r, ido, l1, i, k, j))
  {
    CellEncodes(ido, l1, r, i, k, j);
    assert StepCell(zero, point, g, inS, outS, tw, r, ido, l1, cc, ch, i, k, j);
    hide GroupValue, Store;
  }

  // ------------------------------------------------------------ a chain of passes

  /** One pass of a chain, in groups: its layouts, tables and size. */
  datatype Link<!F> = Link(point: Body<Cx<F>>, inS: bool, outS: bool, tw: seq<Pair<F>>, flat: seq<Cx<F>>, r: int, ido: int, l1: int)

  /** Every pass reads the layout and the array the one before it wrote. */
  ghost predicate SplitChain<F(!new)>(zero: F, g: nat, links: seq<Link<F>>, mems: seq<seq<seq<F>>>)
    decreases |links|
  {
    |mems| == |links| + 1 &&
    (links != [] ==>
      var s := links[0];
      && SplitStep(zero, s.point, g, s.inS, s.outS, s.tw, s.r, s.ido, s.l1, mems[0], mems[1])
      && SameTwiddles(s.point, s.tw, s.flat, g, s.r, s.ido)
      && (|links| > 1 ==> links[1].inS == s.outS)
      && SplitChain(zero, g, links[1..], mems[1..]))
  }

  /** The same passes on points, all interleaved. */
  ghost predicate PointChain<F(!new)>(g: nat, links: seq<Link<F>>, pts: seq<seq<Cx<F>>>)
    decreases |links|
  {
    |pts| == |links| + 1 &&
    (links != [] ==>
      var s := links[0];
      && s.r > 0 && g * s.ido > 0 && s.l1 > 0 && |pts[0]| == Size(s.r, g * s.ido, s.l1)
      && |s.flat| >= TwiddleCells(s.r) * ((s.r - 1) * (g * s.ido))
      && pts[1] == PassResult(s.point, pts[0], s.flat, s.r, g * s.ido, s.l1)
      && PointChain(g, links[1..], pts[1..]))
  }

  /** Whatever layouts the passes keep between them, the last array holds the points the
      interleaved passes compute. */
  lemma {:induction false} ChainsAgree<F(!new)>(zero: F, g: nat, links: seq<Link<F>>, mems: seq<seq<seq<F>>>, pts: seq<seq<Cx<F>>>)
    requires g > 0 && g % 2 == 0 && links != []
    requires SplitChain(zero, g, links, mems) && PointChain(g, links, pts)
    requires pts[0] == Points(zero, g, links[0].inS, mems[0])
    ensures Points(zero, g, links[|links| - 1].outS, mems[|links|]) == pts[|links|]
    decreases |links|
  {
    var s := links[0];
    SplitPassIsPass(zero, s.point, g, s.inS, s.outS, s.tw, s.flat, s.r, s.ido, s.l1, mems[0], mems[1]);
    hide Points, PassResult, SplitStep, SameTwiddles;
    if |links| > 1 {
      ChainsAgree(zero, g, links[1..], mems[1..], pts[1..]);
    }
  }

  /** So a chain that ends interleaved leaves the very memory the interleaved chain does. */
  lemma SameMemory<F(!new)>(zero: F, g: nat, links: seq<Link<F>>, mems: seq<seq<seq<F>>>, pts: seq<seq<Cx<F>>>, other: seq<seq<F>>)
    requires g > 0 && g % 2 == 0 && links != [] && !links[|links| - 1].outS
    requires SplitChain(zero, g, links, mems) && PointChain(g, links, pts)
    requires pts[0] == Points(zero, g, links[0].inS, mems[0])
    requires |other| == |mems[|links|]| && Groups(other, g) && Groups(mems[|links|], g)
    requires Points(zero, g, false, other) == pts[|links|]
    ensures mems[|links|] == other
  {
    ChainsAgree(zero, g, links, mems, pts);
    SamePoints(zero, g, mems[|links|], other);
  }
}
