/** The pass kernels, chained, compute the discrete Fourier transform. */
module KernelDft {
  import opened Rings
  import opened Dft
  import opened Stockham
  import opened Modular
  import opened PassWalk

  /** An array read as a signal. */
  ghost function Mem<C(!new)>(R: Ring<C>, s: seq<C>): int -> C {
    a => if 0 <= a < |s| then s[a] else R.zero
  }

  /** bfly is the r-point transform with root v. */
  ghost predicate IsButterfly<C(!new)>(R: Ring<C>, v: C, r: int, bfly: (seq<C>, int) -> C) {
    forall xs, j :: |xs| == r && 0 <= j < r ==> bfly(xs, j) == Transform(R, v, r, Mem(R, xs), j)
  }

  /** tw holds the twiddles w^(i·j) of a radix-r pass, in the order the kernel reads them. */
  ghost predicate IsTable<C(!new)>(R: Ring<C>, w: C, body: Body<C>, tw: seq<C>, r: int, ido: int) {
    && |tw| >= TwiddleCells(r) * ((r - 1) * ido)
    && forall i, j :: 1 <= i < ido && 1 <= j < r ==> Twiddle(body, tw, r, ido, i, j) == Pow(R, w, i * j)
  }

  lemma PassButterfly<C(!new)>(R: Ring<C>, v: C, bfly: (seq<C>, int) -> C, cc: seq<C>, r: int, ido: int, l1: int, i: int, k: int, j: int)
    requires 0 <= i < ido && 0 <= k < l1 && 0 <= j < r && |cc| == Size(r, ido, l1) && IsButterfly(R, v, r, bfly)
    ensures bfly(PassInput(cc, r, ido, l1, i, k), j) == Transform(R, v, r, PassInputs(Mem(R, cc), r, ido, i, k), j)
  {
    var xs := PassInput(cc, r, ido, l1, i, k);
    assert bfly(xs, j) == Transform(R, v, r, Mem(R, xs), j);
    forall u | 0 <= u < r ensures Mem(R, xs)(u) == PassInputs(Mem(R, cc), r, ido, i, k)(u) {
      InputInRange(r, ido, l1, i, k, u);
    }
    hide Transform, IsButterfly;
    TransformExt(R, v, r, Mem(R, xs), PassInputs(Mem(R, cc), r, ido, i, k), j);
  }

  lemma ResultCellIsPassCell<C(!new)>(R: Ring<C>, w: C, body: Body<C>, cc: seq<C>, tw: seq<C>,
                                      r: int, ido: int, l1: int, i: int, k: int, j: int)
    requires IsRing(R) && 0 <= i < ido && 0 <= k < l1 && 0 <= j < r && |cc| == Size(r, ido, l1)
    requires IsButterfly(R, Pow(R, w, ido), r, body.bfly) && body.mul == R.mul && IsTable(R, w, body, tw, r, ido)
    ensures PassCell(R, w, r, ido, l1, Mem(R, cc), Mem(R, PassResult(body, cc, tw, r, ido, l1)), i, k, j)
  {
    hide Transform, IsButterfly, PassInput, IsRing, PassResult, Pow, PassInputs, Size, TwiddleCells, IsTable, Twiddle;
    TableHolds(R, w, body, tw, r, ido);
    ResultAt(body, cc, tw, r, ido, l1, i, k, j);
    PassButterfly(R, Pow(R, w, ido), body.bfly, cc, r, ido, l1, i, k, j);
    OneAtEdge(R, w, i, j, Transform(R, Pow(R, w, ido), r, PassInputs(Mem(R, cc), r, ido, i, k), j));
    if 0 < i && 0 < j {
      TwiddleHolds(R, w, body, tw, r, ido, i, j);
    }
  }

  lemma TableHolds<C(!new)>(R: Ring<C>, w: C, body: Body<C>, tw: seq<C>, r: int, ido: int)
    requires IsTable(R, w, body, tw, r, ido)
    ensures |tw| >= TwiddleCells(r) * ((r - 1) * ido)
  {
  }

  lemma TwiddleHolds<C(!new)>(R: Ring<C>, w: C, body: Body<C>, tw: seq<C>, r: int, ido: int, i: int, j: int)
    requires IsTable(R, w, body, tw, r, ido) && 1 <= i < ido && 1 <= j < r
    ensures |tw| >= TwiddleCells(r) * ((r - 1) * ido) && i * j >= 0 && Twiddle(body, tw, r, ido, i, j) == Pow(R, w, i * j)
  {
  }

  /** The twiddles of point 0 and of output 0 are one. */
  lemma OneAtEdge<C(!new)>(R: Ring<C>, w: C, i: int, j: int, y: C)
    requires IsRing(R) && 0 <= i && 0 <= j
    ensures i * j >= 0 && (i == 0 || j == 0 ==> R.mul(y, Pow(R, w, i * j)) == y)
  {
    assert MulOne(R, y);
    assert i * j >= 0 && (i == 0 || j == 0 ==> i * j == 0);
  }

  /** A pass kernel whose body is the r-point transform and whose table holds the powers of w
      does one Stockham pass. */
  lemma ResultIsPass<C(!new)>(R: Ring<C>, w: C, body: Body<C>, cc: seq<C>, tw: seq<C>, r: int, ido: int, l1: int)
    requires IsRing(R) && r > 0 && ido > 0 && l1 > 0 && |cc| == Size(r, ido, l1)
    requires IsButterfly(R, Pow(R, w, ido), r, body.bfly) && body.mul == R.mul && IsTable(R, w, body, tw, r, ido)
    ensures IsPass(R, w, r, ido, l1, Mem(R, cc), Mem(R, PassResult(body, cc, tw, r, ido, l1)))
  {
    forall i, k, j | 0 <= i < ido && 0 <= k < l1 && 0 <= j < r
      ensures PassCell(R, w, r, ido, l1, Mem(R, cc), Mem(R, PassResult(body, cc, tw, r, ido, l1)), i, k, j)
    {
      ResultCellIsPassCell(R, w, body, cc, tw, r, ido, l1, i, k, j);
    }
  }

  /** Cell a of a final pass over n blocks of r points: output a / n of block a mod n. */
  ghost predicate FinalCell<C(!new)>(bfly: (seq<C>, int) -> C, cc: seq<C>, ch: seq<C>, r: int, n: int, a: int)
    requires r > 0 && n > 0 && 0 <= a < |ch|
  {
    && 0 <= r * (a % n) && r * (a % n) + r <= |cc|
    && ch[a] == bfly(cc[r * (a % n)..r * (a % n) + r], a / n)
  }

  /** The final kernels do the pass with ido = 1. */
  lemma LastIsPass<C(!new)>(body: Body<C>, cc: seq<C>, tw: seq<C>, ch: seq<C>, r: int, n: int)
    requires r > 0 && n > 0 && |cc| == |ch| == Size(r, 1, n) && |tw| >= TwiddleCells(r) * ((r - 1) * 1)
    requires forall a :: 0 <= a < |ch| ==> FinalCell(body.bfly, cc, ch, r, n, a)
    ensures ch == PassResult(body, cc, tw, r, 1, n)
  {
    hide Twiddle, Size;
    forall a | 0 <= a < Size(r, 1, n) ensures ch[a] == ResultCell(body, cc, tw, r, 1, n, a) {
      CellDecodes(1, n, r, a);
      assert FinalCell(body.bfly, cc, ch, r, n, a);
      assert cc[r * (a % n)..r * (a % n) + r] == PassInput(cc, r, 1, n, 0, a % n);
    }
  }

  // ------------------------------------------------------------ a whole plan

  /** One pass of a plan: its radix, arithmetic and twiddle table. */
  datatype Stage<!C> = Stage(r: nat, body: Body<C>, tw: seq<C>)

  function Radices<C>(plan: seq<Stage<C>>): seq<nat> {
    seq(|plan|, s requires 0 <= s < |plan| => plan[s].r)
  }

  function Length<C>(plan: seq<Stage<C>>): nat {
    if plan == [] then 1 else plan[0].r * Length(plan[1..])
  }

  /** Every stage of the plan, the first over l1 blocks, has a butterfly that transforms with
      the right root and the twiddles of its pass. */
  ghost predicate Sound<C(!new)>(R: Ring<C>, w: C, l1: nat, plan: seq<Stage<C>>)
    decreases |plan|
  {
    plan != [] ==>
      var s, ido := plan[0], Length(plan[1..]);
      && s.r > 0 && ido > 0
      && IsButterfly(R, Pow(R, Pow(R, w, l1), ido), s.r, s.body.bfly) && s.body.mul == R.mul
      && IsTable(R, Pow(R, w, l1), s.body, s.tw, s.r, ido)
      && Sound(R, w, l1 * s.r, plan[1..])
  }

  /** The passes of the plan, one kernel's result the next one's input. */
  ghost function RunPlan<C(!new)>(R: Ring<C>, w: C, l1: nat, plan: seq<Stage<C>>, x: seq<C>): seq<C>
    requires l1 > 0 && Sound(R, w, l1, plan) && |x| == l1 * Length(plan)
    decreases |plan|
  {
    if plan == [] then x
    else
      var s, ido := plan[0], Length(plan[1..]);
      PlanSize(l1, s.r, ido);
      RunPlan(R, w, l1 * s.r, plan[1..], PassResult(s.body, x, s.tw, s.r, ido, l1))
  }

  lemma PlanSize(l1: nat, r: nat, ido: nat)
    ensures Size(r, ido, l1) == l1 * (r * ido) == l1 * r * ido
    ensures l1 > 0 && r > 0 ==> l1 * r > 0
  {
    MulRegroup(l1, r, ido);
    MulRegroup(ido, l1, r);
  }

  /** The arrays between the passes, as signals. */
  ghost function States<C(!new)>(R: Ring<C>, w: C, l1: nat, plan: seq<Stage<C>>, x: seq<C>): (ss: seq<int -> C>)
    requires l1 > 0 && Sound(R, w, l1, plan) && |x| == l1 * Length(plan)
    ensures |ss| == |plan| + 1 && ss[0] == Mem(R, x)
    decreases |plan|
  {
    if plan == [] then [Mem(R, x)]
    else
      var s, ido := plan[0], Length(plan[1..]);
      PlanSize(l1, s.r, ido);
      [Mem(R, x)] + States(R, w, l1 * s.r, plan[1..], PassResult(s.body, x, s.tw, s.r, ido, l1))
  }

  lemma {:induction false} StatesChain<C(!new)>(R: Ring<C>, w: C, l1: nat, plan: seq<Stage<C>>, x: seq<C>)
    requires IsRing(R) && l1 > 0 && Sound(R, w, l1, plan) && |x| == l1 * Length(plan)
    ensures Product(Radices(plan)) == Length(plan)
    ensures Chain(R, w, l1, Radices(plan), States(R, w, l1, plan, x))
    ensures States(R, w, l1, plan, x)[|plan|] == Mem(R, RunPlan(R, w, l1, plan, x))
    ensures |RunPlan(R, w, l1, plan, x)| == |x|
    decreases |plan|
  {
    if plan != [] {
      var s, ido := plan[0], Length(plan[1..]);
      PlanSize(l1, s.r, ido);
      var y := PassResult(s.body, x, s.tw, s.r, ido, l1);
      StatesChain(R, w, l1 * s.r, plan[1..], y);
      ResultIsPass(R, Pow(R, w, l1), s.body, x, s.tw, s.r, ido, l1);
      assert Radices(plan)[1..] == Radices(plan[1..]);
      assert States(R, w, l1, plan, x)[1..] == States(R, w, l1 * s.r, plan[1..], y);
    }
  }

  /** Whatever the radices, the kernels of a sound plan, run one after the other, leave the
      n-point transform of x in natural order. */
  lemma PlanIsDft<C(!new)>(R: Ring<C>, w: C, plan: seq<Stage<C>>, x: seq<C>, k: nat)
    requires IsRing(R) && Pow(R, w, |x|) == R.one
    requires Sound(R, w, 1, plan) && |x| == Length(plan) && k < |x|
    ensures |RunPlan(R, w, 1, plan, x)| == |x|
    ensures RunPlan(R, w, 1, plan, x)[k] == Transform(R, w, |x|, Mem(R, x), k)
  {
    StatesChain(R, w, 1, plan, x);
    StockhamIsDft(R, w, |x|, Radices(plan), States(R, w, 1, plan, x), k);
  }
}
