/** The pass kernels with the instructions of their bodies inside the loop: for every radix from 2
    to 20, the numbered registers' butterfly runs on each lane of each step of the walk. */
module RegisterPass {
  import opened Modular
  import opened PassWalk
  import opened PassKernel
  import opened Scalar
  import opened Floats
  import opened FloatPasses
  import opened Composite
  import opened StageBodies
  import opened StageRegisters
  import PfaRegisters

  /** What a body is emitted from: the constants, the turns inside radix 9 and 16, the index map of
      a radix 5·q with its multipliers, the direction, whether products are fused, and what scratch
      registers are left holding. */
  datatype Emitted<!F> = Emitted(
    A: Arith<F>, k: FConsts<F>, nine: int -> Cx<F>, sixteen: int -> Cx<F>, map5: PfaMap, a: int, b: int,
    zero: Cx<F>, inverse: bool, fused: bool, junk: int -> Cx<F>)

  /** rot9 and rot16: the product with entry e of their table. */
  function TableTurn<F>(A: Arith<F>, fused: bool, T: int -> Cx<F>): (int, Cx<F>) -> Cx<F> {
    (e: int, z: Cx<F>) => CMul(A, fused, z, T(e))
  }

  /** The scalar butterfly of a radix. */
  function BodyOf<F(!new)>(B: Emitted<F>, r: int): (seq<Cx<F>>, int) -> Cx<F>
    requires r in RADICES
  {
    var O := Reference(B.A, B.k, B.inverse, B.fused);
    match r
    case 9 => SplitBody(B.zero, Output(B.zero, O, 3), Output(B.zero, O, 3), Turn9Of(TableTurn(B.A, B.fused, B.nine)), 3, 3)
    case 10 => PfaBody(B.zero, Output(B.zero, O, 5), Output(B.zero, O, 2), 5, 2)
    case 12 => PfaBody(B.zero, Output(B.zero, O, 3), Output(B.zero, O, 4), 3, 4)
    case 15 => PfaBody(B.zero, Output(B.zero, O, 5), Output(B.zero, O, 3), 5, 3)
    case 16 => SplitBody(B.zero, Output(B.zero, O, 4), Output(B.zero, O, 4), Turn16Of(O, TableTurn(B.A, B.fused, B.sixteen)), 4, 4)
    case 20 => PfaBody(B.zero, Output(B.zero, O, 5), Output(B.zero, O, 4), 5, 4)
    case _ => Output(B.zero, O, r)
  }

  ghost predicate CanEmit<F(!new)>(B: Emitted<F>, r: int) {
    IsArith(B.A) && (r in {10, 15, 20} ==> IsPfaMap(5, r / 5, B.a, B.b, B.map5))
  }

  /** One lane through the instructions of the radix. */
  method Butterfly<F(!new)>(B: Emitted<F>, r: int, x: seq<Cx<F>>) returns (y: seq<Cx<F>>)
    requires r in RADICES && |x| == r && CanEmit(B, r)
    ensures |y| == r && forall j :: 0 <= j < r ==> y[j] == BodyOf(B, r)(x, j)
  {
    hide IsArith, IsPfaMap, Reference, PfaBody, SplitBody, Output, Turn9Of, Turn16Of, TableTurn;
    var O := Reference(B.A, B.k, B.inverse, B.fused);
    match r {
      case 9 => y := Body9(B.zero, O, TableTurn(B.A, B.fused, B.nine), B.junk, x);
      case 10 => y := PfaRegisters.Body5q(B.zero, O, B.junk, 2, B.map5, B.a, B.b, x);
      case 12 => y := PfaRegisters.Body12(B.zero, O, B.junk, x);
      case 15 => y := PfaRegisters.Body5q(B.zero, O, B.junk, 3, B.map5, B.a, B.b, x);
      case 16 => y := Body16(B.zero, O, TableTurn(B.A, B.fused, B.sixteen), B.junk, x);
      case 20 => y := PfaRegisters.Body5q(B.zero, O, B.junk, 4, B.map5, B.a, B.b, x);
      case _ =>
        y := Interleaved(B.A, B.k, B.inverse, B.fused, r, x);
        SmallBody(B, r, x);
    }
  }

  lemma SmallBody<F(!new)>(B: Emitted<F>, r: int, x: seq<Cx<F>>)
    requires r in {2, 3, 4, 5, 8} && |x| == r
    ensures forall j :: 0 <= j < r ==> BodyOf(B, r)(x, j) == ScalarButterfly(B.A, B.k, B.inverse, B.fused, r)(x, j)
  {
    hide Bfly, Reference;
  }

  // ------------------------------------------------------------ the walk

  // The blocks, groups and jumps of PassKernel.Pass, each step now the instructions'.

  ghost predicate Runs<F(!new)>(p: Pass<Cx<F>>, B: Emitted<F>) {
    p.r in RADICES && CanEmit(B, p.r) && p.body.bfly == BodyOf(B, p.r)
  }

  /** Every lane through the instructions, its outputs multiplied, blended and stored. */
  method Step<F(!new)>(p: Pass<Cx<F>>, B: Emitted<F>, lanes: int, g: int, half: int, first: bool, ghost i: int, ghost k: int)
    requires Runs(p, B) && p.CanStep(lanes, g, half, i, k) && (first <==> i == 0) && p.Done(i, k)
    modifies p`inBase, p`outBase, p.ch
    ensures p.Valid() && p.At(i + lanes, k) && p.Done(i + lanes, k)
  {
    var xs := p.LoadAll(lanes, i, k);
    var ys := Butterflies(p, B, xs, lanes, i, k);
    p.StoreAll(ys, lanes, g, half, first, i, k);
    assert p.Done(i + lanes, k) by {
      hide PassWalk.PointOf, PassWalk.BlockOf, PassWalk.OutputOf, Pass.Want;
      OutputsInRange(p.r, p.ido, p.l1);
    }
    p.Advance(lanes, i, k);
  }

  method Butterflies<F(!new)>(p: Pass<Cx<F>>, B: Emitted<F>, xs: seq<seq<Cx<F>>>, lanes: int, ghost i: int, ghost k: int)
    returns (ys: seq<seq<Cx<F>>>)
    requires Runs(p, B) && p.Valid() && 0 <= k < p.l1 && 0 <= i && 1 <= lanes && i + lanes <= p.ido
    requires |xs| == lanes && forall q :: 0 <= q < lanes ==> xs[q] == PassInput(p.input, p.r, p.ido, p.l1, i + q, k)
    ensures p.Computed(ys, lanes, i, k)
  {
    hide BodyOf, CanEmit, Size;
    ys := [];
    for q := 0 to lanes
      invariant |ys| == q
      invariant forall s :: 0 <= s < q ==> |ys[s]| == p.r && forall j :: 0 <= j < p.r ==> p.IsBody(ys[s][j], i + s, k, j)
    {
      var y := Butterfly(B, p.r, xs[q]);
      ys := ys + [y];
    }
  }

  /** A group of g points: at 256 bits a group of four is two pairs. */
  method Group<F(!new)>(p: Pass<Cx<F>>, B: Emitted<F>, wide: bool, g: int, first: bool, ghost i: int, ghost k: int)
    requires Runs(p, B) && p.Ready(i, k) && i + g <= p.ido && (first <==> i == 0)
    requires g == GroupSize(p.ido, i) && i == GroupStart(p.ido, i) && g in {1, 2, 4} && (g == 4 ==> i % 4 == 0)
    modifies p`inBase, p`outBase, p`R10, p.ch
    ensures p.Ready(i + g, k)
  {
    hide Pass.Done, Pass.At, Pass.TwiddlesAt, Runs, GroupSize, GroupStart;
    if g == 4 && !wide {
      p.GroupOfFour(p.ido, i);
      Step(p, B, 2, 4, 0, first, i, k);
      Step(p, B, 2, 4, 1, false, i + 2, k);
    } else {
      Step(p, B, g, g, 0, first, i, k);
    }
    p.NextTwiddles(g, i);
  }

  /** The groups of four. */
  method Quads<F(!new)>(p: Pass<Cx<F>>, B: Emitted<F>, wide: bool, ghost k: int)
    requires Runs(p, B) && p.Ready(0, k) && p.groups == p.ido / 4 > 0
    modifies p`inBase, p`outBase, p`R10, p`groups, p.ch
    ensures p.Ready(p.ido - p.ido % 4, k)
  {
    hide Pass.Ready, Runs;
    ghost var i := 0;
    p.GroupOfFour(p.ido, i);
    Group(p, B, wide, 4, true, i, k);
    i, p.groups := i + 4, p.groups - 1;
    while p.groups != 0
      invariant 0 < i && i % 4 == 0 && 0 <= p.groups && i + 4 * p.groups == p.ido - p.ido % 4 && p.Ready(i, k)
      decreases p.groups
    {
      p.GroupOfFour(p.ido, i);
      Group(p, B, wide, 4, false, i, k);
      i, p.groups := i + 4, p.groups - 1;
    }
  }

  /** The last point of an odd ido. */
  method Tail<F(!new)>(p: Pass<Cx<F>>, B: Emitted<F>, ghost i: int, ghost k: int)
    requires Runs(p, B) && p.Ready(i, k) && p.CX == 16 * p.ido && 0 < i == p.ido - p.ido % 2
    modifies p`inBase, p`outBase, p.ch
    ensures p.Walked(k)
  {
    BitOfOne(p.ido);
    TailGroups(p.ido);
    hide Pass.Done, Runs, GroupSize, GroupStart;
    if (p.CX / 16) % 2 != 0 {
      Step(p, B, 1, 1, 0, false, i, k);
    }
  }

  /** The pair of an ido with bit 1 set, and the tail. */
  method PairAndTail<F(!new)>(p: Pass<Cx<F>>, B: Emitted<F>, wide: bool, ghost i: int, ghost k: int)
    requires Runs(p, B) && p.Ready(i, k) && p.CX == 16 * p.ido && 0 < i == p.ido - p.ido % 4
    modifies p`inBase, p`outBase, p`R10, p.ch
    ensures p.Walked(k)
  {
    hide Pass.Ready, Pass.Walked, Pass.Done, Pass.At, Pass.Valid, Runs, CanEmit, BodyOf, GroupSize, GroupStart;
    BitOfTwo(p.ido);
    TailGroups(p.ido);
    if (p.CX / 32) % 2 != 0 {
      Group(p, B, wide, 2, false, i, k);
      Tail(p, B, i + 2, k);
    } else {
      Tail(p, B, i, k);
    }
  }

  /** One block of points. */
  method Block<F(!new)>(p: Pass<Cx<F>>, B: Emitted<F>, wide: bool, ghost k: int)
    requires Runs(p, B) && p.Ready(0, k) && p.ido >= 2 && (wide ==> p.ido >= 4) && p.CX == 16 * p.ido
    modifies p`inBase, p`outBase, p`R10, p`groups, p.ch
    ensures p.Walked(k)
  {
    hide Pass.Ready, Pass.Walked, Runs;
    p.groups := p.CX / 64;
    if wide || p.groups != 0 {
      Quads(p, B, wide, k);
      PairAndTail(p, B, wide, p.ido - p.ido % 4, k);
    } else {
      // ido is 2 or 3: the first pair is the two-point group.
      Group(p, B, false, 2, true, 0, k);
      Tail(p, B, 2, k);
    }
  }

  method OneBlock<F(!new)>(p: Pass<Cx<F>>, B: Emitted<F>, wide: bool, ghost k: int)
    requires Runs(p, B) && p.BlockReady(k) && k < p.l1 && p.ido >= 2 && (wide ==> p.ido >= 4)
    modifies p`inBase, p`outBase, p`R10, p`groups, p.ch
    ensures p.BlockReady(k + 1)
  {
    hide Runs;
    p.SetBases(k);
    p.R10 := 0;
    Block(p, B, wide, k);
    p.NextBlock(k);
    p.DoneBlock(k);
  }

  /** The blocks, from the first to the last. */
  method Blocks<F(!new)>(p: Pass<Cx<F>>, B: Emitted<F>, wide: bool)
    requires Runs(p, B) && p.Valid() && p.ido >= 2 && (wide ==> p.ido >= 4) && p.l1 > 0
    modifies p, p.ch
    ensures p.Valid() && p.Complete()
  {
    hide Runs, Pass.BlockReady, Pass.Complete, Pass.Valid;
    p.Setup();
    ghost var k := 0;
    while p.blocks != 0
      invariant p.BlockReady(k) && 0 <= p.blocks && k + p.blocks == p.l1
      decreases p.blocks
    {
      OneBlock(p, B, wide, k);
      k, p.blocks := k + 1, p.blocks - 1;
    }
    p.DoneAll();
  }

  /** The kernel of a radix, instructions and loop, leaves the bits of the scalar pass of that
      radix, at either width. */
  method Run<F(!new)>(B: Emitted<F>, wide: bool, join: (Cx<F>, Cx<F>) -> Cx<F>, cc: array<Cx<F>>, ch: array<Cx<F>>, tw: array<Cx<F>>,
                      r: int, ido: int, l1: int)
    requires r in RADICES && CanEmit(B, r) && ido >= 2 && (wide ==> ido >= 4) && l1 > 0
    requires cc.Length == ch.Length == Size(r, ido, l1) && tw.Length >= TwiddleCells(r) * ((r - 1) * ido) && cc != ch && tw != ch
    modifies ch
    ensures ch[..] == PassResult(ScalarBody(B.A, B.fused, BodyOf(B, r), join), old(cc[..]), old(tw[..]), r, ido, l1)
  {
    assert IsArith(B.A);
    hide IsArith, CanEmit, PassResult, Size, TwiddleCells, ScalarBody, BodyOf;
    WidthIsScalar(B.A, B.fused, wide, BodyOf(B, r), join, cc[..], tw[..], r, ido, l1);
    var p := new Pass(cc, ch, tw, r, ido, l1, WidthBody(B.A, B.fused, wide, BodyOf(B, r), join));
    Blocks(p, B, wide);
  }
}
