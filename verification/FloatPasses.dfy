/** Whole passes in floating point: the 256-bit, the 512-bit and the split kernels leave the bits
    of the scalar pass. */
module FloatPasses {
  import opened PassWalk
  import opened Scalar
  import opened Floats
  import opened SplitKernel
  import Bodies
  import PassKernel
  import L = SplitLayout

  // ------------------------------------------------------------ the bodies, radix by radix

  /** Output j of the scalar butterfly. */
  function ScalarButterfly<F(!new)>(A: Arith<F>, k: FConsts<F>, inverse: bool, fused: bool, r: int): (seq<Cx<F>>, int) -> Cx<F>
    requires r in {2, 3, 4, 5, 8}
  {
    (xs: seq<Cx<F>>, j: int) =>
      if |xs| == r && 0 <= j < r then Bfly(Reference(A, k, inverse, fused), r, xs)[j] else Cx(k.half, k.half)
  }

  /** One butterfly on interleaved registers. */
  method Interleaved<F(!new)>(A: Arith<F>, k: FConsts<F>, inverse: bool, fused: bool, r: int, x: seq<Cx<F>>) returns (y: seq<Cx<F>>)
    requires r in {2, 3, 4, 5, 8} && |x| == r && IsArith(A)
    ensures |y| == r && forall j :: 0 <= j < r ==> y[j] == ScalarButterfly(A, k, inverse, fused, r)(x, j)
  {
    hide Reference, IsArith, Bfly2, Bfly3, Bfly4, Bfly5, Bfly8;
    ghost var O := Reference(A, k, inverse, fused);
    match r {
      case 2 => y := Bodies.Interleaved2(A, k, inverse, fused, x);
      case 3 => y := Bodies.Interleaved3(A, k, inverse, fused, x);
      case 4 => y := Bodies.Interleaved4(A, k, inverse, fused, x);
      case 5 => y := Bodies.Interleaved5(A, k, inverse, fused, x);
      case _ => y := Bodies.Interleaved8(A, k, inverse, fused, x);
    }
    assert y == Bfly(O, r, x);
  }

  /** One butterfly on split registers. */
  method Split<F(!new)>(A: Arith<F>, k: FConsts<F>, inverse: bool, fused: bool, r: int, x: seq<Cx<F>>) returns (y: seq<Cx<F>>)
    requires r in {3, 4, 5, 8} && |x| == r && IsArith(A)
    ensures |y| == r && forall j :: 0 <= j < r ==> y[j] == ScalarButterfly(A, k, inverse, fused, r)(x, j)
  {
    hide Reference, IsArith, Bfly2, Bfly3, Bfly4, Bfly5, Bfly8;
    ghost var O := Reference(A, k, inverse, fused);
    match r {
      case 3 => y := Bodies.Split3(A, k, inverse, fused, x);
      case 4 => y := Bodies.Split4(A, k, inverse, fused, x);
      case 5 => y := Bodies.Split5(A, k, inverse, fused, x);
      case _ => y := Bodies.Split8(A, k, inverse, fused, x);
    }
    assert y == Bfly(O, r, x);
  }

  // ------------------------------------------------------------ the arithmetic of a pass

  /** A pass whose twiddle products are the reference's. */
  function ScalarBody<F>(A: Arith<F>, fused: bool, bfly: (seq<Cx<F>>, int) -> Cx<F>, join: (Cx<F>, Cx<F>) -> Cx<F>): Body<Cx<F>> {
    Body(bfly, (y, w) => CMul(A, fused, y, w), join)
  }

  /** One whose products are the interleaved instructions of a width. */
  function WidthBody<F>(A: Arith<F>, fused: bool, wide: bool, bfly: (seq<Cx<F>>, int) -> Cx<F>, join: (Cx<F>, Cx<F>) -> Cx<F>): Body<Cx<F>> {
    Body(bfly, (y, w) => TwInterleaved(A, fused, wide, y, w), join)
  }

  /** The product with one twiddle, at a width or not. */
  lemma SameOutput<F(!new)>(A: Arith<F>, fused: bool, wide: bool, bfly: (seq<Cx<F>>, int) -> Cx<F>, join: (Cx<F>, Cx<F>) -> Cx<F>,
                            cc: seq<Cx<F>>, tw: seq<Cx<F>>, r: int, ido: int, l1: int, i: int, k: int, j: int)
    requires IsArith(A) && 0 <= i < ido && 0 <= k < l1 && 0 <= j < r
    requires |cc| >= Size(r, ido, l1) && |tw| >= TwiddleCells(r) * ((r - 1) * ido)
    ensures PassOutput(WidthBody(A, fused, wide, bfly, join), cc, tw, r, ido, l1, i, k, j) ==
            PassOutput(ScalarBody(A, fused, bfly, join), cc, tw, r, ido, l1, i, k, j)
  {
    hide TwInterleaved, CMul, IsArith, PassInput, Size, TwiddleCells, TwiddleIndex;
    var y := bfly(PassInput(cc, r, ido, l1, i, k), j);
    if 0 < i && 0 < j {
      var w := Twiddle(ScalarBody(A, fused, bfly, join), tw, r, ido, i, j);
      assert Twiddle(WidthBody(A, fused, wide, bfly, join), tw, r, ido, i, j) == w;
      InterleavedIsReference(A, fused, wide, y, w);
    }
  }

  /** Whatever the butterfly, a pass at either width leaves the bits of the scalar pass. */
  lemma WidthIsScalar<F(!new)>(A: Arith<F>, fused: bool, wide: bool, bfly: (seq<Cx<F>>, int) -> Cx<F>, join: (Cx<F>, Cx<F>) -> Cx<F>,
                               cc: seq<Cx<F>>, tw: seq<Cx<F>>, r: int, ido: int, l1: int)
    requires IsArith(A) && r > 0 && ido > 0 && l1 > 0
    requires |cc| >= Size(r, ido, l1) && |tw| >= TwiddleCells(r) * ((r - 1) * ido)
    ensures PassResult(WidthBody(A, fused, wide, bfly, join), cc, tw, r, ido, l1) ==
            PassResult(ScalarBody(A, fused, bfly, join), cc, tw, r, ido, l1)
  {
    hide IsArith, PassOutput, Size, TwiddleCells, WidthBody, ScalarBody, PointOf, BlockOf, OutputOf;
    var a, b := PassResult(WidthBody(A, fused, wide, bfly, join), cc, tw, r, ido, l1), PassResult(ScalarBody(A, fused, bfly, join), cc, tw, r, ido, l1);
    forall c | 0 <= c < Size(r, ido, l1) ensures a[c] == b[c] {
      CellDecodes(ido, l1, r, c);
      SameOutput(A, fused, wide, bfly, join, cc, tw, r, ido, l1, PointOf(ido, c), BlockOf(ido, l1, c), OutputOf(ido, l1, c));
    }
  }

  // ------------------------------------------------------------ the kernels

  /** The pass kernel at a width, its body the scalar butterfly's operations on registers and its
      products that width's instructions, leaves the scalar pass's bits. */
  method RunWidth<F(!new)>(A: Arith<F>, fused: bool, wide: bool, bfly: (seq<Cx<F>>, int) -> Cx<F>, join: (Cx<F>, Cx<F>) -> Cx<F>,
                           cc: array<Cx<F>>, ch: array<Cx<F>>, tw: array<Cx<F>>, r: int, ido: int, l1: int)
    requires IsArith(A) && r in PassKernel.RADICES && ido >= 2 && (wide ==> ido >= 4) && l1 > 0
    requires cc.Length == ch.Length == Size(r, ido, l1) && tw.Length >= TwiddleCells(r) * ((r - 1) * ido) && cc != ch && tw != ch
    modifies ch
    ensures ch[..] == PassResult(ScalarBody(A, fused, bfly, join), old(cc[..]), old(tw[..]), r, ido, l1)
  {
    hide IsArith, PassResult, Size, TwiddleCells, WidthBody, ScalarBody;
    WidthIsScalar(A, fused, wide, bfly, join, cc[..], tw[..], r, ido, l1);
    var p := new PassKernel.Pass(cc, ch, tw, r, ido, l1, WidthBody(A, fused, wide, bfly, join));
    p.Run(wide);
  }

  /** The split kernel leaves the same points, in whatever layout. */
  method RunSplit<F(!new)>(A: Arith<F>, fused: bool, bfly: (seq<Cx<F>>, int) -> Cx<F>, join: (Cx<F>, Cx<F>) -> Cx<F>, zero: F, g: nat, bytes: nat,
                           inS: bool, outS: bool, cc: array<seq<F>>, ch: array<seq<F>>, tw: seq<L.Pair<F>>, ghost flat: seq<Cx<F>>, r: int, ido: int, l1: int)
    requires r in {3, 4, 5, 8} && g > 0 && g % 2 == 0 && bytes > 0 && ido > 0 && l1 > 0
    requires cc.Length == ch.Length == Size(r, ido, l1) && |tw| >= (r - 1) * ido && cc != ch
    requires L.SameTwiddles(ScalarBody(A, fused, bfly, join), tw, flat, g, r, ido)
    modifies ch
    ensures g * ido > 0 && |L.Points(zero, g, inS, old(cc[..]))| == Size(r, g * ido, l1)
    ensures L.Points(zero, g, outS, ch[..]) ==
            PassResult(ScalarBody(A, fused, bfly, join), L.Points(zero, g, inS, old(cc[..])), flat, r, g * ido, l1)
  {
    hide L.SameTwiddles, PassResult, Size, ScalarBody, L.SplitBody, L.Points, L.SplitStep;
    var point := ScalarBody(A, fused, bfly, join);
    var p := new SplitPass(cc, ch, tw, r, ido, l1, bytes, L.SplitBody(zero, point, g, inS, outS));
    p.Run();
    L.KernelDoesStep(p, zero, point, g, inS, outS);
    L.SplitPassIsPass(zero, point, g, inS, outS, tw, flat, r, ido, l1, p.input, ch[..]);
  }

  // ------------------------------------------------------------ chains

  /** The passes of a chain with the interleaved instructions of a width. */
  function AtWidth<F>(A: Arith<F>, fused: bool, wide: bool, links: seq<L.Link<F>>): (ws: seq<L.Link<F>>)
    ensures |ws| == |links|
  {
    seq(|links|, s requires 0 <= s < |links| => links[s].(point := WidthBody(A, fused, wide, links[s].point.bfly, links[s].point.join)))
  }

  /** Every pass of the chain has the reference's products. */
  ghost predicate ScalarLinks<F>(A: Arith<F>, fused: bool, links: seq<L.Link<F>>) {
    forall s :: 0 <= s < |links| ==> ScalarLink(A, fused, links[s])
  }

  ghost predicate ScalarLink<F>(A: Arith<F>, fused: bool, s: L.Link<F>) {
    s.point == ScalarBody(A, fused, s.point.bfly, s.point.join)
  }

  lemma {:induction false} ChainAtWidth<F(!new)>(A: Arith<F>, fused: bool, wide: bool, g: nat, links: seq<L.Link<F>>, pts: seq<seq<Cx<F>>>)
    requires IsArith(A) && ScalarLinks(A, fused, links) && L.PointChain(g, AtWidth(A, fused, wide, links), pts)
    ensures L.PointChain(g, links, pts)
    decreases |links|
  {
    hide IsArith, PassResult, Size, TwiddleCells, WidthBody, ScalarBody;
    if links != [] {
      var s := links[0];
      assert ScalarLink(A, fused, s);
      WidthIsScalar(A, fused, wide, s.point.bfly, s.point.join, pts[0], s.flat, s.r, g * s.ido, s.l1);
      assert AtWidth(A, fused, wide, links)[1..] == AtWidth(A, fused, wide, links[1..]);
      ChainAtWidth(A, fused, wide, g, links[1..], pts[1..]);
    }
  }

  /** A chain of split passes that ends interleaved and the chain of interleaved passes, at 256
      or at 512 bits, leave the same memory bit for bit. */
  lemma ChainsBitForBit<F(!new)>(A: Arith<F>, fused: bool, wide: bool, zero: F, g: nat, links: seq<L.Link<F>>,
                                 mems: seq<seq<seq<F>>>, pts: seq<seq<Cx<F>>>, other: seq<seq<F>>)
    requires IsArith(A) && ScalarLinks(A, fused, links)
    requires g > 0 && g % 2 == 0 && links != [] && !links[|links| - 1].outS
    requires L.SplitChain(zero, g, links, mems) && L.PointChain(g, AtWidth(A, fused, wide, links), pts)
    requires pts[0] == L.Points(zero, g, links[0].inS, mems[0])
    requires |other| == |mems[|links|]| && L.Groups(other, g) && L.Groups(mems[|links|], g)
    requires L.Points(zero, g, false, other) == pts[|links|]
    ensures mems[|links|] == other
  {
    hide IsArith, ScalarLinks, L.SplitChain, L.PointChain, L.Points, L.Groups, AtWidth;
    ChainAtWidth(A, fused, wide, g, links, pts);
    L.SameMemory(zero, g, links, mems, pts, other);
  }
}
