/** The arm64 butterflies on one lane: real and imaginary parts in registers of their own, and
    fused products where the Go compiler fuses them in the passes the kernels replace. */
module Arm64Bodies {
  import opened Scalar
  import opened Floats
  import opened Bodies

  /** VFMLA and VFMLS: d ± n·m, rounded once. */
  function Fmla<F>(A: Arith<F>, d: F, n: F, m: F): F {
    A.fma(n, m, d)
  }

  function Fmls<F>(A: Arith<F>, d: F, n: F, m: F): F {
    A.fma(A.neg(n), m, d)
  }

  // ------------------------------------------------------------ the compiled references

  /** a - c·z, the product fused. */
  function MinusFused<F>(A: Arith<F>, a: Cx<F>, c: F, z: Cx<F>): Cx<F> {
    Cx(A.fma(A.neg(z.re), c, a.re), A.fma(A.neg(z.im), c, a.im))
  }

  /** c·x + d·y: the second product rounded, the first fused. */
  function SumFused<F>(A: Arith<F>, c: F, x: Cx<F>, d: F, y: Cx<F>): Cx<F> {
    Cx(A.fma(x.re, c, A.mul(y.re, d)), A.fma(x.im, c, A.mul(y.im, d)))
  }

  /** c·x - d·y: the first product rounded, the second fused. */
  function DifferenceFused<F>(A: Arith<F>, c: F, x: Cx<F>, d: F, y: Cx<F>): Cx<F> {
    Cx(A.fma(A.neg(y.re), d, A.mul(x.re, c)), A.fma(A.neg(y.im), d, A.mul(x.im, c)))
  }

  /** Radix 3: 1/2·t1 fused into x0 - 1/2·t1, sin(2π/3)·t2 rounded. */
  function Compiled3<F>(A: Arith<F>, k: FConsts<F>, inverse: bool, x0: Cx<F>, x1: Cx<F>, x2: Cx<F>): seq<Cx<F>> {
    var t1, t2 := CAdd(A, x1, x2), CSub(A, x1, x2);
    var ca, q := MinusFused(A, x0, k.half, t1), Cx(A.mul(t2.re, k.sin120), A.mul(t2.im, k.sin120));
    [CAdd(A, x0, t1), CAdd(A, ca, CRot(A, inverse, q)), CSub(A, ca, CRot(A, inverse, q))]
  }

  /** Radix 5. */
  function Compiled5<F>(A: Arith<F>, k: FConsts<F>, inverse: bool, x0: Cx<F>, x1: Cx<F>, x2: Cx<F>, x3: Cx<F>, x4: Cx<F>): seq<Cx<F>> {
    var t1, t2 := CAdd(A, x1, x4), CSub(A, x1, x4);
    var t3, t4 := CAdd(A, x2, x3), CSub(A, x2, x3);
    var r1, r2 := CAdd(A, x0, SumFused(A, k.c51, t1, k.c52, t3)), CAdd(A, x0, SumFused(A, k.c52, t1, k.c51, t3));
    var u, v := CRot(A, inverse, SumFused(A, k.s51, t2, k.s52, t4)), CRot(A, inverse, DifferenceFused(A, k.s52, t2, k.s51, t4));
    [CAdd(A, CAdd(A, x0, t1), t3), CAdd(A, r1, u), CAdd(A, r2, v), CSub(A, r2, v), CSub(A, r1, u)]
  }

  /** The twiddle product: yi·wi and, but for radix 2, yr·wi fused. */
  function CompiledMul<F>(A: Arith<F>, r: int, y: Cx<F>, w: Cx<F>): Cx<F> {
    Cx(A.fma(A.neg(y.im), w.im, A.mul(y.re, w.re)),
       if r == 2 then A.fma(y.im, w.re, A.mul(y.re, w.im)) else A.fma(y.re, w.im, A.mul(y.im, w.re)))
  }

  /** Arithmetic in which a fused product is a product and a sum, and signs factor out. */
  ghost predicate Unrounded<F(!new)>(A: Arith<F>) {
    && (forall x, y, z :: A.fma(x, y, z) == A.add(A.mul(x, y), z))
    && (forall x, y :: A.mul(A.neg(x), y) == A.neg(A.mul(x, y)))
  }

  lemma FusedMinus<F(!new)>(A: Arith<F>, a: F, x: F, c: F)
    requires IsArith(A) && Unrounded(A)
    ensures A.fma(A.neg(x), c, a) == A.sub(a, A.mul(c, x))
  {
    MulSwaps(A, x, c);
    AddSwaps(A, A.neg(A.mul(x, c)), a);
    Minus(A, a, A.mul(c, x));
    assert A.fma(A.neg(x), c, a) == A.add(A.mul(A.neg(x), c), a);
  }

  lemma FusedPlus<F(!new)>(A: Arith<F>, x: F, c: F, y: F, d: F)
    requires IsArith(A) && Unrounded(A)
    ensures A.fma(x, c, A.mul(y, d)) == A.add(A.mul(c, x), A.mul(d, y))
  {
    MulSwaps(A, x, c);
    MulSwaps(A, y, d);
    assert A.fma(x, c, A.mul(y, d)) == A.add(A.mul(x, c), A.mul(y, d));
  }

  /** Without rounding they are the scalar butterflies. */
  lemma Compiled3IsScalar<F(!new)>(A: Arith<F>, k: FConsts<F>, inverse: bool, x0: Cx<F>, x1: Cx<F>, x2: Cx<F>)
    requires IsArith(A) && Unrounded(A)
    ensures Compiled3(A, k, inverse, x0, x1, x2) == Bfly3(Reference(A, k, inverse, false), x0, x1, x2)
  {
    var t1, t2 := CAdd(A, x1, x2), CSub(A, x1, x2);
    FusedMinus(A, x0.re, t1.re, k.half);
    FusedMinus(A, x0.im, t1.im, k.half);
    MulSwaps(A, t2.re, k.sin120);
    MulSwaps(A, t2.im, k.sin120);
    assert MinusFused(A, x0, k.half, t1) == CSub(A, x0, CScale(A, k.half, t1));
    hide IsArith, Unrounded, CRot, CAdd, CSub;
  }

  lemma Compiled5IsScalar<F(!new)>(A: Arith<F>, k: FConsts<F>, inverse: bool, x0: Cx<F>, x1: Cx<F>, x2: Cx<F>, x3: Cx<F>, x4: Cx<F>)
    requires IsArith(A) && Unrounded(A)
    ensures Compiled5(A, k, inverse, x0, x1, x2, x3, x4) == Bfly5(Reference(A, k, inverse, false), x0, x1, x2, x3, x4)
  {
    hide IsArith, Unrounded, CRot, CAdd, CSub, CScale, SumFused, DifferenceFused;
    var t1, t2 := CAdd(A, x1, x4), CSub(A, x1, x4);
    var t3, t4 := CAdd(A, x2, x3), CSub(A, x2, x3);
    FusedSums(A, k.c51, t1, k.c52, t3);
    FusedSums(A, k.c52, t1, k.c51, t3);
    FusedSums(A, k.s51, t2, k.s52, t4);
    FusedSums(A, k.s52, t2, k.s51, t4);
  }

  /** So is the compiled product, whichever of its terms is fused. */
  lemma CompiledMulIsScalar<F(!new)>(A: Arith<F>, r: int, y: Cx<F>, w: Cx<F>)
    requires IsArith(A) && Unrounded(A)
    ensures CompiledMul(A, r, y, w) == CMul(A, false, y, w)
  {
    FusedMinus(A, A.mul(y.re, w.re), y.im, w.im);
    MulSwaps(A, w.im, y.im);
    FusedPlus(A, y.im, w.re, y.re, w.im);
    FusedPlus(A, y.re, w.im, y.im, w.re);
    MulSwaps(A, w.re, y.im);
    MulSwaps(A, w.im, y.re);
    AddSwaps(A, A.mul(y.re, w.im), A.mul(y.im, w.re));
  }

  lemma FusedSums<F(!new)>(A: Arith<F>, c: F, x: Cx<F>, d: F, y: Cx<F>)
    requires IsArith(A) && Unrounded(A)
    ensures SumFused(A, c, x, d, y) == CAdd(A, CScale(A, c, x), CScale(A, d, y))
    ensures DifferenceFused(A, c, x, d, y) == CSub(A, CScale(A, c, x), CScale(A, d, y))
  {
    FusedPlus(A, x.re, c, y.re, d);
    FusedPlus(A, x.im, c, y.im, d);
    FusedMinus(A, A.mul(x.re, c), y.re, d);
    FusedMinus(A, A.mul(x.im, c), y.im, d);
    MulSwaps(A, x.re, c);
    MulSwaps(A, x.im, c);
  }

  // ------------------------------------------------------------ the kernels

  /** a - s·z and a + s·z, s the direction's sign. */
  function AMinusSz<F>(A: Arith<F>, inverse: bool, a: F, z: F): F {
    if !inverse then A.add(a, z) else A.sub(a, z)
  }

  function APlusSz<F>(A: Arith<F>, inverse: bool, a: F, z: F): F {
    if inverse then A.add(a, z) else A.sub(a, z)
  }

  /** Exchanged registers and a choice of add or subtract are the rotation. */
  lemma RotSums<F(!new)>(A: Arith<F>, inverse: bool, a: Cx<F>, z: Cx<F>)
    requires IsArith(A)
    ensures Cx(AMinusSz(A, inverse, a.re, z.im), APlusSz(A, inverse, a.im, z.re)) == CAdd(A, a, CRot(A, inverse, z))
    ensures Cx(APlusSz(A, inverse, a.re, z.im), AMinusSz(A, inverse, a.im, z.re)) == CSub(A, a, CRot(A, inverse, z))
  {
    Minus(A, a.re, z.im);
    Minus(A, a.im, z.re);
  }

  method ArmBfly3<F(!new)>(A: Arith<F>, k: FConsts<F>, inverse: bool, x: seq<Cx<F>>) returns (y: seq<Cx<F>>)
    requires |x| == 3 && IsArith(A)
    ensures y == Compiled3(A, k, inverse, x[0], x[1], x[2])
  {
    var v0, v1, v2, v3, v4, v5 := x[0].re, x[0].im, x[1].re, x[1].im, x[2].re, x[2].im;
    var v6, v7 := A.add(v2, v4), A.add(v3, v5);
    v2, v3 := A.sub(v2, v4), A.sub(v3, v5);
    var v8, v9 := A.add(v0, v6), A.add(v1, v7);
    y := [Cx(v8, v9)];
    v0, v1 := Fmls(A, v0, v6, k.half), Fmls(A, v1, v7, k.half);
    v2, v3 := A.mul(v2, k.sin120), A.mul(v3, k.sin120);
    RotSums(A, inverse, Cx(v0, v1), Cx(v2, v3));
    var v10, v11 := AMinusSz(A, inverse, v0, v3), APlusSz(A, inverse, v1, v2);
    y := y + [Cx(v10, v11)];
    v10, v11 := APlusSz(A, inverse, v0, v3), AMinusSz(A, inverse, v1, v2);
    y := y + [Cx(v10, v11)];
    hide IsArith, CRot;
  }

  method ArmBfly4<F(!new)>(A: Arith<F>, k: FConsts<F>, inverse: bool, x: seq<Cx<F>>) returns (y: seq<Cx<F>>)
    requires |x| == 4 && IsArith(A)
    ensures y == Bfly4(Reference(A, k, inverse, true), x[0], x[1], x[2], x[3])
  {
    var v0, v1, v2, v3 := x[0].re, x[0].im, x[1].re, x[1].im;
    var v4, v5, v6, v7 := x[2].re, x[2].im, x[3].re, x[3].im;
    var v8, v9, v10, v11 := A.add(v0, v4), A.add(v1, v5), A.sub(v0, v4), A.sub(v1, v5);
    var v12, v13, v14, v15 := A.add(v2, v6), A.add(v3, v7), A.sub(v2, v6), A.sub(v3, v7);
    var v16, v17 := A.add(v8, v12), A.add(v9, v13);
    y := [Cx(v16, v17)];
    RotSums(A, inverse, Cx(v10, v11), Cx(v14, v15));
    v0, v1 := AMinusSz(A, inverse, v10, v15), APlusSz(A, inverse, v11, v14);
    y := y + [Cx(v0, v1)];
    v16, v17 := A.sub(v8, v12), A.sub(v9, v13);
    y := y + [Cx(v16, v17)];
    v0, v1 := APlusSz(A, inverse, v10, v15), AMinusSz(A, inverse, v11, v14);
    y := y + [Cx(v0, v1)];
    hide IsArith, CRot;
  }

  method ArmBfly5<F(!new)>(A: Arith<F>, k: FConsts<F>, inverse: bool, x: seq<Cx<F>>) returns (y: seq<Cx<F>>)
    requires |x| == 5 && IsArith(A)
    ensures y == Compiled5(A, k, inverse, x[0], x[1], x[2], x[3], x[4])
  {
    var v0, v1, v2, v3, v4, v5 := x[0].re, x[0].im, x[1].re, x[1].im, x[2].re, x[2].im;
    var v6, v7, v8, v9 := x[3].re, x[3].im, x[4].re, x[4].im;
    var v10, v11 := A.add(v2, v8), A.add(v3, v9);
    v2, v3 := A.sub(v2, v8), A.sub(v3, v9);
    var v12, v13 := A.add(v4, v6), A.add(v5, v7);
    v4, v5 := A.sub(v4, v6), A.sub(v5, v7);
    var v14, v15 := A.add(v0, v10), A.add(v1, v11);
    v14, v15 := A.add(v14, v12), A.add(v15, v13);
    y := [Cx(v14, v15)];
    var v16, v17 := Fmla(A, A.mul(v12, k.c52), v10, k.c51), Fmla(A, A.mul(v13, k.c52), v11, k.c51);
    v16, v17 := A.add(v0, v16), A.add(v1, v17);
    var v18, v19 := Fmla(A, A.mul(v12, k.c51), v10, k.c52), Fmla(A, A.mul(v13, k.c51), v11, k.c52);
    v18, v19 := A.add(v0, v18), A.add(v1, v19);
    var v20, v21 := Fmla(A, A.mul(v4, k.s52), v2, k.s51), Fmla(A, A.mul(v5, k.s52), v3, k.s51);
    var v22, v23 := Fmls(A, A.mul(v2, k.s52), v4, k.s51), Fmls(A, A.mul(v3, k.s52), v5, k.s51);
    RotSums(A, inverse, Cx(v16, v17), Cx(v20, v21));
    RotSums(A, inverse, Cx(v18, v19), Cx(v22, v23));
    v0, v1 := AMinusSz(A, inverse, v16, v21), APlusSz(A, inverse, v17, v20);
    y := y + [Cx(v0, v1)];
    v0, v1 := AMinusSz(A, inverse, v18, v23), APlusSz(A, inverse, v19, v22);
    y := y + [Cx(v0, v1)];
    v0, v1 := APlusSz(A, inverse, v18, v23), AMinusSz(A, inverse, v19, v22);
    y := y + [Cx(v0, v1)];
    v0, v1 := APlusSz(A, inverse, v16, v21), AMinusSz(A, inverse, v17, v20);
    y := y + [Cx(v0, v1)];
    hide IsArith, CRot;
  }

  /** The unscaled sums of the odd half: P + iQ and R + iT. */
  method ArmOdd8<F(!new)>(A: Arith<F>, inverse: bool, x1: Cx<F>, x3: Cx<F>, x5: Cx<F>, x7: Cx<F>)
    returns (s0: Cx<F>, s2: Cx<F>, c5: Cx<F>, c7: Cx<F>)
    requires IsArith(A)
    ensures var a1, a5, a3, a7 := CAdd(A, x1, x5), CSub(A, x1, x5), CAdd(A, x3, x7), CRot(A, inverse, CSub(A, x3, x7));
      var d5, d7 := CAdd(A, a5, a7), CSub(A, a5, a7);
      s0 == CAdd(A, a1, a3) && s2 == CSub(A, a1, a3)
      && c5 == CAdd(A, d5, CRot(A, inverse, d5)) && c7 == CSub(A, CRot(A, inverse, d7), d7)
  {
    var v2, v3, v6, v7, v10, v11, v14, v15 := x1.re, x1.im, x3.re, x3.im, x5.re, x5.im, x7.re, x7.im;
    var v16, v17 := A.add(v2, v10), A.add(v3, v11);
    v2, v3 := A.sub(v2, v10), A.sub(v3, v11);
    var v28, v29 := A.add(v6, v14), A.add(v7, v15);
    v6, v7 := A.sub(v6, v14), A.sub(v7, v15);
    var v20, v21 := A.add(v16, v28), A.add(v17, v29);
    v16, v17 := A.sub(v16, v28), A.sub(v17, v29);
    RotSums(A, inverse, Cx(v2, v3), Cx(v6, v7));
    var v22, v23 := AMinusSz(A, inverse, v2, v7), APlusSz(A, inverse, v3, v6);
    var v24, v25 := APlusSz(A, inverse, v2, v7), AMinusSz(A, inverse, v3, v6);
    RotSums(A, inverse, Cx(v22, v23), Cx(v22, v23));
    Minus(A, A.neg(v24), v25);
    Minus(A, A.neg(v25), v24);
    AddSwaps(A, A.neg(v24), A.neg(v25));
    v2, v3 := AMinusSz(A, inverse, v22, v23), APlusSz(A, inverse, v23, v22);
    if inverse {
      v6 := A.neg(v24);
      v6 := A.sub(v6, v25);
      v7 := A.sub(v24, v25);
    } else {
      v6 := A.sub(v25, v24);
      v7 := A.neg(v25);
      v7 := A.sub(v7, v24);
    }
    s0, s2, c5, c7 := Cx(v20, v21), Cx(v16, v17), Cx(v2, v3), Cx(v6, v7);
    hide IsArith;
  }

  /** Radix 8: each ±45° and ±135° rotation's √2/2 fused into the final sum. */
  method ArmBfly8<F(!new)>(A: Arith<F>, k: FConsts<F>, inverse: bool, x: seq<Cx<F>>) returns (y: seq<Cx<F>>)
    requires |x| == 8 && IsArith(A)
    ensures y == Bfly8(Reference(A, k, inverse, true), x)
  {
    Outputs8(A, k, inverse, true, x);
    OddHalf(A, k, inverse, true, x[1], x[3], x[5], x[7]);
    EvenHalf(A, k, inverse, true, x[0], x[2], x[4], x[6]);
    var s0, s2, c5, c7 := ArmOdd8(A, inverse, x[1], x[3], x[5], x[7]);
    var v0, v1, v4, v5, v8, v9, v12, v13 := x[0].re, x[0].im, x[2].re, x[2].im, x[4].re, x[4].im, x[6].re, x[6].im;
    var v22, v23 := A.add(v0, v8), A.add(v1, v9);
    v0, v1 := A.sub(v0, v8), A.sub(v1, v9);
    var v24, v25 := A.add(v4, v12), A.add(v5, v13);
    v4, v5 := A.sub(v4, v12), A.sub(v5, v13);
    var v26, v27 := A.add(v22, v24), A.add(v23, v25);
    v22, v23 := A.sub(v22, v24), A.sub(v23, v25);
    RotSums(A, inverse, Cx(v0, v1), Cx(v4, v5));
    v8, v9 := AMinusSz(A, inverse, v0, v5), APlusSz(A, inverse, v1, v4);
    var v10, v11 := APlusSz(A, inverse, v0, v5), AMinusSz(A, inverse, v1, v4);
    RotSums(A, inverse, Cx(v22, v23), s2);
    FmaHIs(A, k.h, c5, Cx(v8, v9));
    FmaHIs(A, k.h, c7, Cx(v10, v11));
    y := [Cx(A.add(v26, s0.re), A.add(v27, s0.im)),
          Cx(Fmla(A, v8, c5.re, k.h), Fmla(A, v9, c5.im, k.h)),
          Cx(AMinusSz(A, inverse, v22, s2.im), APlusSz(A, inverse, v23, s2.re)),
          Cx(Fmla(A, v10, c7.re, k.h), Fmla(A, v11, c7.im, k.h)),
          Cx(A.sub(v26, s0.re), A.sub(v27, s0.im)),
          Cx(Fmls(A, v8, c5.re, k.h), Fmls(A, v9, c5.im, k.h)),
          Cx(APlusSz(A, inverse, v22, s2.im), AMinusSz(A, inverse, v23, s2.re)),
          Cx(Fmls(A, v10, c7.re, k.h), Fmls(A, v11, c7.im, k.h))];
    hide IsArith, CRot, PlusH, MinusH, Odd8, Even8, Bfly8, Reference, AMinusSz, APlusSz;
  }

  /** The twiddle product in V30 and V31. */
  method ArmProduct<F(!new)>(A: Arith<F>, r: int, yr: F, yi: F, v28: F, v29: F) returns (v30: F, v31: F)
    ensures Cx(v30, v31) == CompiledMul(A, r, Cx(yr, yi), Cx(v28, v29))
  {
    v30 := A.mul(yr, v28);
    v30 := Fmls(A, v30, yi, v29);
    if r == 2 {
      v31 := A.mul(yr, v29);
      v31 := Fmla(A, v31, yi, v28);
    } else {
      v31 := A.mul(yi, v28);
      v31 := Fmla(A, v31, yr, v29);
    }
  }
}
