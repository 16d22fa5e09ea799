/** The float specifications over numbers that round nothing: what the register bodies are proved to
    compute, bit for bit, is the discrete Fourier transform of the radix. */
module ExactKernels {
  import opened Rings
  import opened Dft
  import opened PassWalk
  import opened KernelDft
  import opened Complexes
  import opened Scalar
  import opened Floats
  import opened Composite
  import opened StageRegisters
  import opened Maps
  import opened RealTransform
  import opened RegisterPass
  import opened FloatPasses
  import Butterflies
  import Circle
  import Radices
  import LargeRadices
  import Plans
  import PassKernel
  import FloatTurns
  import R32Registers
  import Arm64Bodies
  import Arm64Last

  function Reals(k: Consts): FConsts<real> {
    FConsts(k.half, k.sin120, k.c51, k.c52, k.s51, k.s52, k.h)
  }

  const PHI: Cx<real> -> Complex := (z: Cx<real>) => Exactly(z)

  lemma RealsAreArith()
    ensures IsArith(REALS)
  {
  }

  // ------------------------------------------------------------ the operations

  lemma ScaledExactly(c: real, z: Cx<real>)
    ensures Exactly(CScale(REALS, c, z)) == Scale(c, Exactly(z))
  {
  }

  lemma FusedExactly(fused: bool, h: real, a: Cx<real>, s: Cx<real>)
    ensures Exactly(PlusH(REALS, fused, h, a, s)) == Add(Exactly(a), Scale(h, Exactly(s)))
    ensures Exactly(MinusH(REALS, fused, h, a, s)) == Sub(Exactly(a), Scale(h, Exactly(s)))
  {
    assert -h * s.re == -(h * s.re) && -h * s.im == -(h * s.im);
  }

  /** The product with a twiddle or a turn, fused or not. */
  lemma ProductExactly(fused: bool, z: Cx<real>, w: Cx<real>)
    ensures Exactly(CMul(REALS, fused, z, w)) == Mul(Exactly(z), Exactly(w))
  {
  }

  lemma RotExactly(inverse: bool, z: Cx<real>)
    ensures Exactly(CRot(REALS, inverse, z)) == Rot(inverse, Exactly(z))
  {
  }

  lemma OpsExactly(k: Consts, inverse: bool, fused: bool)
    ensures OpsMap(PHI, Reference(REALS, Reals(k), inverse, fused), Exact(k, inverse))
  {
    hide CAdd, CSub, CRot, CScale, PlusH, MinusH, Add, Sub, Rot, Scale, Exactly;
    forall a: Cx<real>, b: Cx<real> ensures Exactly(CAdd(REALS, a, b)) == Add(Exactly(a), Exactly(b)) && Exactly(CSub(REALS, a, b)) == Sub(Exactly(a), Exactly(b)) {
      ExactSum(a, b);
    }
    forall z: Cx<real> ensures Exactly(CRot(REALS, inverse, z)) == Rot(inverse, Exactly(z)) {
      RotExactly(inverse, z);
    }
    forall c: real, z: Cx<real> ensures Exactly(CScale(REALS, c, z)) == Scale(c, Exactly(z)) {
      ScaledExactly(c, z);
    }
    forall a: Cx<real>, s: Cx<real>
      ensures Exactly(PlusH(REALS, fused, k.h, a, s)) == Add(Exactly(a), Scale(k.h, Exactly(s)))
      ensures Exactly(MinusH(REALS, fused, k.h, a, s)) == Sub(Exactly(a), Scale(k.h, Exactly(s)))
    {
      FusedExactly(fused, k.h, a, s);
    }
  }

  /** The basic radices. */
  lemma BasicExactly(zero: Cx<real>, k: Consts, inverse: bool, fused: bool, r: int)
    requires r in {2, 3, 4, 5, 8}
    ensures BodyMap(PHI, r, Output(zero, Reference(REALS, Reals(k), inverse, fused), r), Radices.Basic(k, inverse, r))
  {
    hide Bfly, OpsMap, Reference, Exact;
    var O, P := Reference(REALS, Reals(k), inverse, fused), Exact(k, inverse);
    OpsExactly(k, inverse, fused);
    forall x: seq<Cx<real>>, j | |x| == r && 0 <= j < r ensures PHI(Output(zero, O, r)(x, j)) == Radices.Basic(k, inverse, r)(Mapped(PHI, x), j) {
      BflyMap(PHI, O, P, r, x);
      assert Mapped(PHI, Bfly(O, r, x))[j] == PHI(Bfly(O, r, x)[j]);
    }
  }

  // ------------------------------------------------------------ the turns

  /** What a body is emitted from, when its numbers are those of K: the tables of its turns hold the
      powers of the roots of 9 and 16. */
  ghost predicate EmittedFrom(B: Emitted<real>, K: Plans.Tables) {
    && B.A == REALS && B.k == Reals(K.k) && |K.sixteen| == 5 && |K.thirtytwo| == 9
    && (forall e: nat :: e in {1, 2, 4} ==> Exactly(B.nine(e)) == Pow(FIELD, Butterflies.Root(B.inverse, K.nine.c1, K.nine.s1), e))
    && (forall e: nat :: e in {1, 2, 3, 6, 9} ==> Exactly(B.sixteen(e)) == Pow(FIELD, Circle.CircleRoot(B.inverse, K.sixteen, 4), e))
  }

  lemma Turns9Exactly(B: Emitted<real>, K: Plans.Tables)
    requires EmittedFrom(B, K) && Plans.Held(K)
    ensures TurnMap(PHI, 3, 3, Turn9Of(TableTurn(B.A, B.fused, B.nine)), LargeRadices.Turn9(K.nine, B.inverse))
  {
    var w := Butterflies.Root(B.inverse, K.nine.c1, K.nine.s1);
    LargeRadices.Turn9Turns(K.k, K.nine, B.inverse);
    hide LargeRadices.NinthOfTurn, LargeRadices.RotC, Pow, CMul, Mul, Butterflies.Root;
    forall n2, k1, z: Cx<real> | 0 <= n2 < 3 && 0 <= k1 < 3
      ensures PHI(Turn9Of(TableTurn(B.A, B.fused, B.nine))(n2 * k1, z)) == LargeRadices.Turn9(K.nine, B.inverse)(n2 * k1, PHI(z))
    {
      assert n2 * k1 == 0 || n2 * k1 == 1 || n2 * k1 == 2 || n2 * k1 == 4;
      assert LargeRadices.Turn9(K.nine, B.inverse)(n2 * k1, PHI(z)) == FIELD.mul(PHI(z), Pow(FIELD, w, n2 * k1));
      ProductExactly(B.fused, z, B.nine(n2 * k1));
    }
  }

  lemma Turn16Exactly(B: Emitted<real>, K: Plans.Tables, e: nat, z: Cx<real>)
    requires EmittedFrom(B, K) && Plans.Held(K) && e in {0, 1, 2, 3, 4, 6, 9}
    ensures PHI(Turn16Of(Reference(REALS, B.k, B.inverse, B.fused), TableTurn(B.A, B.fused, B.sixteen))(e, z)) ==
            LargeRadices.Turn16(K.sixteen, B.inverse)(e, PHI(z))
  {
    hide LargeRadices.RotC, Pow, CMul, Mul, CRot, Rot, Circle.CircleRoot, Circle.Cosines, LargeRadices.NinthOfTurn;
    if e == 4 {
      RotExactly(B.inverse, z);
    } else if e != 0 {
      LargeRadices.Turn16IsPower(K.sixteen, B.inverse, e, PHI(z));
      ProductExactly(B.fused, z, B.sixteen(e));
    }
  }

  lemma Turns16Exactly(B: Emitted<real>, K: Plans.Tables)
    requires EmittedFrom(B, K) && Plans.Held(K)
    ensures TurnMap(PHI, 4, 4, Turn16Of(Reference(REALS, B.k, B.inverse, B.fused), TableTurn(B.A, B.fused, B.sixteen)),
                    LargeRadices.Turn16(K.sixteen, B.inverse))
  {
    assert |K.sixteen| == 5;
    hide EmittedFrom, Plans.Held, LargeRadices.Turn16, Turn16Of, TableTurn, Reference, Exactly;
    forall n2, k1, z: Cx<real> | 0 <= n2 < 4 && 0 <= k1 < 4
      ensures PHI(Turn16Of(Reference(REALS, B.k, B.inverse, B.fused), TableTurn(B.A, B.fused, B.sixteen))(n2 * k1, z)) ==
              LargeRadices.Turn16(K.sixteen, B.inverse)(n2 * k1, PHI(z))
    {
      LargeRadices.SmallProducts(n2, k1);
      Turn16Exactly(B, K, n2 * k1, z);
    }
  }

  // ------------------------------------------------------------ the bodies

  /** Every body is the butterfly of its radix. */
  lemma BodyIsKernel(B: Emitted<real>, K: Plans.Tables, r: int)
    requires EmittedFrom(B, K) && Plans.Held(K) && r in PassKernel.RADICES
    ensures BodyMap(PHI, r, BodyOf(B, r), Plans.KernelBody(K, B.inverse, r))
  {
    hide BodyMap, TurnMap, Output, Radices.Basic, Reference, SplitBody, PfaBody, Plans.Held, Turn9Of, Turn16Of, TableTurn;
    hide LargeRadices.Turn9, LargeRadices.Turn16;
    var k, inverse, fused, z := K.k, B.inverse, B.fused, B.zero;
    var O := Reference(REALS, Reals(k), inverse, fused);
    BasicExactly(z, k, inverse, fused, 2);
    BasicExactly(z, k, inverse, fused, 3);
    BasicExactly(z, k, inverse, fused, 4);
    BasicExactly(z, k, inverse, fused, 5);
    if r == 9 {
      Turns9Exactly(B, K);
      SplitMap(PHI, 3, 3, Output(z, O, 3), Output(z, O, 3), Turn9Of(TableTurn(B.A, fused, B.nine)), z,
               Radices.Basic(k, inverse, 3), Radices.Basic(k, inverse, 3), LargeRadices.Turn9(K.nine, inverse), ZERO);
    } else if r == 16 {
      Turns16Exactly(B, K);
      SplitMap(PHI, 4, 4, Output(z, O, 4), Output(z, O, 4), Turn16Of(O, TableTurn(B.A, fused, B.sixteen)), z,
               Radices.Basic(k, inverse, 4), Radices.Basic(k, inverse, 4), LargeRadices.Turn16(K.sixteen, inverse), ZERO);
    } else if r == 12 {
      PfaMap(PHI, 3, 4, Output(z, O, 3), Output(z, O, 4), z, Radices.Basic(k, inverse, 3), Radices.Basic(k, inverse, 4), ZERO);
    } else if r in {10, 15, 20} {
      PfaMap(PHI, 5, r / 5, Output(z, O, 5), Output(z, O, r / 5), z, Radices.Basic(k, inverse, 5), Radices.Basic(k, inverse, r / 5), ZERO);
    } else {
      BasicExactly(z, k, inverse, fused, r);
    }
  }

  /** So it is the transform of its length, in both directions. */
  lemma BodyIsDft(B: Emitted<real>, K: Plans.Tables, r: int, v: Complex, x: seq<Cx<real>>, j: int)
    requires EmittedFrom(B, K) && Plans.Held(K) && r in PassKernel.RADICES && Plans.RadixRoot(K, B.inverse, r, v)
    requires |x| == r && 0 <= j < r
    ensures Exactly(BodyOf(B, r)(x, j)) == Transform(FIELD, v, r, Mem(FIELD, Mapped(PHI, x)), j)
  {
    hide Transform, BodyMap, BodyOf, Plans.KernelBody, Plans.Held, Plans.RadixRoot, EmittedFrom;
    Plans.HeldSizes(K);
    BodyIsKernel(B, K, r);
    Plans.KernelBodyIsDft(K, B.inverse, r, v);
    BodyMapAt(PHI, r, BodyOf(B, r), Plans.KernelBody(K, B.inverse, r), x, j);
    ButterflyAt(FIELD, v, r, Plans.KernelBody(K, B.inverse, r), Mapped(PHI, x), j);
  }

  /** The scalar butterflies the basic register bodies are compared with. */
  lemma ScalarIsDft(k: Consts, inverse: bool, fused: bool, r: int, v: Complex, x: seq<Cx<real>>, j: int)
    requires r in {2, 3, 4, 5} && LargeRadices.IsRoot(k, inverse, v, r) && |x| == r && 0 <= j < r
    ensures Exactly(ScalarButterfly(REALS, Reals(k), inverse, fused, r)(x, j)) == Transform(FIELD, v, r, Mem(FIELD, Mapped(PHI, x)), j)
  {
    hide Transform, Reference, BodyMap, Bfly, Radices.Basic, LargeRadices.IsRoot;
    var zero := Cx(0.0, 0.0);
    BasicExactly(zero, k, inverse, fused, r);
    BodyMapAt(PHI, r, Output(zero, Reference(REALS, Reals(k), inverse, fused), r), Radices.Basic(k, inverse, r), x, j);
    LargeRadices.StageIsDft(k, inverse, v, r);
    ButterflyAt(FIELD, v, r, Radices.Basic(k, inverse, r), Mapped(PHI, x), j);
  }

  // ------------------------------------------------------------ radix 32

  lemma SignExactly(s: int, t: int, x: real)
    requires s in {-1, 1}
    ensures FloatTurns.Sign(REALS, s, x) == Circle.Signed(s, x) && FloatTurns.Sign(REALS, -s, x) == -Circle.Signed(s, x)
  {
  }

  lemma Turn32Exactly(C: seq<real>, inverse: bool, e: nat, z: Cx<real>)
    requires |C| == 9 && e <= 24
    ensures Exactly(R32Registers.TurnOf(REALS, inverse, C)(e, z)) == LargeRadices.Turn32(C, inverse)(e, Exactly(z))
  {
    hide CMul, Mul, LargeRadices.RotC, FloatTurns.Sign, Circle.Signed, LargeRadices.Turn32By;
    LargeRadices.Turn32IsLast(C, inverse, e, Exactly(z));
    if e == 8 {
      RotExactly(inverse, z);
    } else if e > 0 {
      var t := Circle.Trig(8, e);
      SignExactly(t.1, 0, C[t.0]);
      SignExactly(t.3, 0, C[t.2]);
      LargeRadices.RotCTurns(inverse, Circle.Signed(t.1, C[t.0]), Circle.Signed(t.3, C[t.2]), Exactly(z));
      ProductExactly(true, z, Cx(FloatTurns.Sign(REALS, t.1, C[t.0]), FloatTurns.Sign(REALS, if inverse then t.3 else -t.3, C[t.2])));
    }
  }

  /** The split body of radix 32 is the thirty-two-point transform. */
  lemma Body32IsDft(zero: real, k: Consts, C: seq<real>, inverse: bool, x: seq<Cx<real>>, j: int)
    requires Circle.Cosines(C, 8) && |C| == 9 && C[4] == k.h && |x| == 32 && 0 <= j < 32
    ensures Exactly(R32Registers.Body32Of(zero, REALS, Reals(k), inverse, C)(x, j)) ==
            Transform(FIELD, Circle.CircleRoot(inverse, C, 8), 32, Mem(FIELD, Mapped(PHI, x)), j)
  {
    hide Transform, Circle.Cosines, Circle.CircleRoot, BodyMap, Output, Radices.Basic, Reference, SplitBody, R32Registers.TurnOf, LargeRadices.Turn32;
    var z, O := Cx(zero, zero), Reference(REALS, Reals(k), inverse, true);
    var w, f := Circle.CircleRoot(inverse, C, 8), LargeRadices.Radix32(k, C, inverse);
    BasicExactly(z, k, inverse, true, 8);
    BasicExactly(z, k, inverse, true, 4);
    Turns32Exactly(C, inverse);
    SplitMap(PHI, 8, 4, Output(z, O, 8), Output(z, O, 4), R32Registers.TurnOf(REALS, inverse, C), z,
             Radices.Basic(k, inverse, 8), Radices.Basic(k, inverse, 4), LargeRadices.Turn32(C, inverse), ZERO);
    LargeRadices.Radix32IsDft(k, C, inverse);
    BodyMapAt(PHI, 32, R32Registers.Body32Of(zero, REALS, Reals(k), inverse, C), f, x, j);
    ButterflyAt(FIELD, w, 32, f, Mapped(PHI, x), j);
  }

  lemma Turns32Exactly(C: seq<real>, inverse: bool)
    requires |C| == 9
    ensures TurnMap(PHI, 8, 4, R32Registers.TurnOf(REALS, inverse, C), LargeRadices.Turn32(C, inverse))
  {
    hide R32Registers.TurnOf, LargeRadices.Turn32, Exactly;
    forall n2, k1, z: Cx<real> | 0 <= n2 < 4 && 0 <= k1 < 8
      ensures PHI(R32Registers.TurnOf(REALS, inverse, C)(n2 * k1, z)) == LargeRadices.Turn32(C, inverse)(n2 * k1, PHI(z))
    {
      assert 0 <= n2 * k1 <= 24;
      Turn32Exactly(C, inverse, n2 * k1, z);
    }
  }

  // ------------------------------------------------------------ the arm64 bodies

  lemma RealsAreUnrounded()
    ensures Arm64Bodies.Unrounded(REALS)
  {
    forall x: real, y: real ensures REALS.mul(REALS.neg(x), y) == REALS.neg(REALS.mul(x, y)) {
      assert -x * y == -(x * y);
    }
  }

  lemma ArmOutputsAre(k: Consts, inverse: bool, r: int, x: seq<Cx<real>>)
    requires r in {2, 3, 4, 5, 8} && |x| == r
    ensures Arm64Last.ArmOutputs(REALS, Reals(k), inverse, r, x) == Bfly(Reference(REALS, Reals(k), inverse, r != 3 && r != 5), r, x)
  {
    hide Arm64Bodies.Unrounded, IsArith, Reference, Arm64Bodies.Compiled3, Arm64Bodies.Compiled5, Bfly3, Bfly5;
    RealsAreUnrounded();
    RealsAreArith();
    if r == 3 {
      Arm64Bodies.Compiled3IsScalar(REALS, Reals(k), inverse, x[0], x[1], x[2]);
    } else if r == 5 {
      Arm64Bodies.Compiled5IsScalar(REALS, Reals(k), inverse, x[0], x[1], x[2], x[3], x[4]);
    }
  }

  /** The compiled arm64 butterflies are the basic ones. */
  lemma ArmIsBasic(k: Consts, inverse: bool, r: int, zero: real)
    requires r in {2, 3, 4, 5, 8}
    ensures BodyMap(PHI, r, Arm64Last.ArmBody(REALS, Reals(k), inverse, r, zero), Radices.Basic(k, inverse, r))
  {
    hide Reference, BodyMap, Arm64Last.ArmOutputs, Bfly, Radices.Basic;
    var fused := r != 3 && r != 5;
    var f, g := Arm64Last.ArmBody(REALS, Reals(k), inverse, r, zero), Output(Cx(zero, zero), Reference(REALS, Reals(k), inverse, fused), r);
    forall x: seq<Cx<real>>, j | |x| == r && 0 <= j < r ensures f(x, j) == g(x, j) {
      ArmOutputsAre(k, inverse, r, x);
    }
    BasicExactly(Cx(zero, zero), k, inverse, fused, r);
    SameBody(r, f, g, Radices.Basic(k, inverse, r));
  }

  lemma SameBody(r: int, f: (seq<Cx<real>>, int) -> Cx<real>, g: (seq<Cx<real>>, int) -> Cx<real>, h: (seq<Complex>, int) -> Complex)
    requires BodyMap(PHI, r, g, h) && forall x: seq<Cx<real>>, j :: |x| == r && 0 <= j < r ==> f(x, j) == g(x, j)
    ensures BodyMap(PHI, r, f, h)
  {
  }

  // ------------------------------------------------------------ the loop

  /** The parts of radix 16's twiddles, each in a cell of its own. */
  function JoinParts<F>(): (Cx<F>, Cx<F>) -> Cx<F> {
    (x: Cx<F>, y: Cx<F>) => Cx(x.re, y.im)
  }

  lemma PassExactly(B: Emitted<real>, K: Plans.Tables, r: int)
    requires EmittedFrom(B, K) && Plans.Held(K) && r in PassKernel.RADICES
    ensures ArithmeticMap(PHI, r, ScalarBody(REALS, B.fused, BodyOf(B, r), JoinParts()), Plans.KernelArithmetic(K, B.inverse, r))
  {
    hide BodyMap, BodyOf, Plans.KernelBody, CMul, Mul, Plans.Held;
    BodyIsKernel(B, K, r);
    forall y: Cx<real>, w: Cx<real> ensures Exactly(CMul(REALS, B.fused, y, w)) == Mul(Exactly(y), Exactly(w)) {
      ProductExactly(B.fused, y, w);
    }
  }

  /** The kernel of a radix, its instructions inside the loop, over numbers that round nothing: with
      the powers of w in its table and the constants of w^ido's parts, it does one Stockham pass. */
  method RunIsPass(B: Emitted<real>, K: Plans.Tables, wide: bool, cc: array<Cx<real>>, ch: array<Cx<real>>, tw: array<Cx<real>>,
                   r: int, ido: nat, l1: int, ghost w: Complex)
    requires r in PassKernel.RADICES && CanEmit(B, r) && EmittedFrom(B, K) && Plans.Held(K)
    requires ido >= 2 && (wide ==> ido >= 4) && l1 > 0 && Plans.RadixRoot(K, B.inverse, r, Pow(FIELD, w, ido))
    requires cc.Length == ch.Length == Size(r, ido, l1) && tw.Length >= TwiddleCells(r) * ((r - 1) * ido) && cc != ch && tw != ch
    requires IsTable(FIELD, w, Plans.KernelArithmetic(K, B.inverse, r), Mapped(PHI, tw[..]), r, ido)
    modifies ch
    ensures Stockham.IsPass(FIELD, w, r, ido, l1, Mem(FIELD, Mapped(PHI, old(cc[..]))), Mem(FIELD, Mapped(PHI, ch[..])))
  {
    hide IsTable, Size, TwiddleCells, Plans.Held, Plans.RadixRoot, EmittedFrom, CanEmit, PassResult, BodyOf, ArithmeticMap, ScalarBody, Stockham.IsPass;
    hide Pow, IsRing, IsButterfly, Plans.KernelBody, Mapped;
    Plans.HeldSizes(K);
    ghost var x, t := cc[..], tw[..];
    EmittedReals(B, K);
    PassExactly(B, K, r);
    PassMap(PHI, ScalarBody(REALS, B.fused, BodyOf(B, r), JoinParts()), Plans.KernelArithmetic(K, B.inverse, r), x, t, r, ido, l1);
    ComplexIsRing();
    Plans.KernelBodyIsDft(K, B.inverse, r, Pow(FIELD, w, ido));
    ResultIsPass(FIELD, w, Plans.KernelArithmetic(K, B.inverse, r), Mapped(PHI, x), Mapped(PHI, t), r, ido, l1);
    RegisterPass.Run(B, wide, JoinParts(), cc, ch, tw, r, ido, l1);
  }

  lemma EmittedReals(B: Emitted<real>, K: Plans.Tables)
    requires EmittedFrom(B, K)
    ensures B.A == REALS
  {
  }
}
