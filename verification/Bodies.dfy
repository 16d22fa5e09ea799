/** The straight-line butterfly bodies, register by register: the interleaved ones, whose
    registers hold complex values, and the split ones, whose registers hold one part. All of
    them give the scalar reference's bits. */
module Bodies {
  import opened Scalar
  import opened Floats

  // ------------------------------------------------------------ interleaved

  /** mulk: a register's lanes times a constant. */
  function Mulk<F>(A: Arith<F>, z: Cx<F>, c: F): Cx<F> {
    LaneMul(A, z, Cx(c, c))
  }

  lemma MulkScales<F(!new)>(A: Arith<F>, z: Cx<F>, c: F)
    requires IsArith(A)
    ensures Mulk(A, z, c) == CScale(A, c, z)
  {
    MulSwaps(A, z.re, c);
    MulSwaps(A, z.im, c);
  }

  lemma RotIsCRot<F>(A: Arith<F>, inverse: bool, z: Cx<F>)
    ensures RotLanes(A, inverse, z) == CRot(A, inverse, z)
  {
  }

  /** hpm's fused form on lanes: VFMADD231PD and VFNMADD231PD with the constant second. */
  function FmaH<F>(A: Arith<F>, minus: bool, h: F, s: Cx<F>, a: Cx<F>): Cx<F> {
    if minus then Cx(A.fma(A.neg(s.re), h, a.re), A.fma(A.neg(s.im), h, a.im))
    else Cx(A.fma(s.re, h, a.re), A.fma(s.im, h, a.im))
  }

  lemma FmaHIs<F(!new)>(A: Arith<F>, h: F, s: Cx<F>, a: Cx<F>)
    requires IsArith(A)
    ensures FmaH(A, false, h, s, a) == PlusH(A, true, h, a, s) && FmaH(A, true, h, s, a) == MinusH(A, true, h, a, s)
  {
    FmaSwaps(A, s.re, h, a.re);
    FmaSwaps(A, s.im, h, a.im);
  }

  method Interleaved2<F(!new)>(A: Arith<F>, k: FConsts<F>, inverse: bool, fused: bool, x: seq<Cx<F>>) returns (y: seq<Cx<F>>)
    requires |x| == 2
    ensures y == Bfly2(Reference(A, k, inverse, fused), x[0], x[1])
  {
    var r0, r1 := x[0], x[1];
    var r2 := CAdd(A, r0, r1);
    var r3 := CSub(A, r0, r1);
    y := [r2, r3];
  }

  method Interleaved3<F(!new)>(A: Arith<F>, k: FConsts<F>, inverse: bool, fused: bool, x: seq<Cx<F>>) returns (y: seq<Cx<F>>)
    requires |x| == 3 && IsArith(A)
    ensures y == Bfly3(Reference(A, k, inverse, fused), x[0], x[1], x[2])
  {
    var r0, r1, r2 := x[0], x[1], x[2];
    var r3 := CAdd(A, r1, r2);
    var r4 := CSub(A, r1, r2);
    var r5 := CAdd(A, r0, r3);
    MulkScales(A, r3, k.half);
    MulkScales(A, r4, k.sin120);
    var r6 := Mulk(A, r3, k.half);
    r6 := CSub(A, r0, r6);
    var r7 := Mulk(A, r4, k.sin120);
    r7 := RotLanes(A, inverse, r7);
    r1 := CAdd(A, r6, r7);
    r2 := CSub(A, r6, r7);
    hide CAdd, CSub, CScale, LaneMul;
    y := [r5, r1, r2];
  }

  method Interleaved4<F(!new)>(A: Arith<F>, k: FConsts<F>, inverse: bool, fused: bool, x: seq<Cx<F>>) returns (y: seq<Cx<F>>)
    requires |x| == 4
    ensures y == Bfly4(Reference(A, k, inverse, fused), x[0], x[1], x[2], x[3])
  {
    var r0, r1, r2, r3 := x[0], x[1], x[2], x[3];
    hide CAdd, CSub;
    var r4 := CAdd(A, r0, r2);
    var r5 := CSub(A, r0, r2);
    var r6 := CAdd(A, r1, r3);
    var r7 := CSub(A, r1, r3);
    r7 := RotLanes(A, inverse, r7);
    r0 := CAdd(A, r4, r6);
    r1 := CAdd(A, r5, r7);
    r2 := CSub(A, r4, r6);
    r3 := CSub(A, r5, r7);
    y := [r0, r1, r2, r3];
  }

  method Interleaved5<F(!new)>(A: Arith<F>, k: FConsts<F>, inverse: bool, fused: bool, x: seq<Cx<F>>) returns (y: seq<Cx<F>>)
    requires |x| == 5 && IsArith(A)
    ensures y == Bfly5(Reference(A, k, inverse, fused), x[0], x[1], x[2], x[3], x[4])
  {
    var r0, r1, r2 := x[0], x[1], x[4];
    var r3 := CAdd(A, r1, r2);
    var r4 := CSub(A, r1, r2);
    r1, r2 := x[2], x[3];
    var r5 := CAdd(A, r1, r2);
    var r6 := CSub(A, r1, r2);
    var r7 := CAdd(A, r0, r3);
    r7 := CAdd(A, r7, r5);
    Products5(A, k, r3, r5, r4, r6);
    hide CAdd, CSub, CScale, LaneMul, Mulk, CRot;
    var r8 := Mulk(A, r3, k.c51);
    var r9 := Mulk(A, r5, k.c52);
    r8 := CAdd(A, r8, r9);
    r8 := CAdd(A, r0, r8);
    r9 := Mulk(A, r3, k.c52);
    var r10 := Mulk(A, r5, k.c51);
    r9 := CAdd(A, r9, r10);
    r9 := CAdd(A, r0, r9);
    r10 := Mulk(A, r4, k.s51);
    var r11 := Mulk(A, r6, k.s52);
    r10 := CAdd(A, r10, r11);
    RotIsCRot(A, inverse, r10);
    r10 := RotLanes(A, inverse, r10);
    r11 := Mulk(A, r4, k.s52);
    var r12 := Mulk(A, r6, k.s51);
    r11 := CSub(A, r11, r12);
    RotIsCRot(A, inverse, r11);
    r11 := RotLanes(A, inverse, r11);
    hide RotLanes;
    r1 := CAdd(A, r8, r10);
    r4 := CSub(A, r8, r10);
    r2 := CAdd(A, r9, r11);
    r3 := CSub(A, r9, r11);
    y := [r7, r1, r2, r3, r4];
  }

  lemma Products5<F(!new)>(A: Arith<F>, k: FConsts<F>, t1: Cx<F>, t3: Cx<F>, t2: Cx<F>, t4: Cx<F>)
    requires IsArith(A)
    ensures Mulk(A, t1, k.c51) == CScale(A, k.c51, t1) && Mulk(A, t1, k.c52) == CScale(A, k.c52, t1)
    ensures Mulk(A, t3, k.c51) == CScale(A, k.c51, t3) && Mulk(A, t3, k.c52) == CScale(A, k.c52, t3)
    ensures Mulk(A, t2, k.s51) == CScale(A, k.s51, t2) && Mulk(A, t2, k.s52) == CScale(A, k.s52, t2)
    ensures Mulk(A, t4, k.s51) == CScale(A, k.s51, t4) && Mulk(A, t4, k.s52) == CScale(A, k.s52, t4)
  {
    hide Mulk, CScale;
    MulkScales(A, t1, k.c51);
    MulkScales(A, t1, k.c52);
    MulkScales(A, t3, k.c51);
    MulkScales(A, t3, k.c52);
    MulkScales(A, t2, k.s51);
    MulkScales(A, t2, k.s52);
    MulkScales(A, t4, k.s51);
    MulkScales(A, t4, k.s52);
  }

  /** The reference's radix-8 halves with the operations written out. */
  lemma OddHalf<F(!new)>(A: Arith<F>, k: FConsts<F>, inverse: bool, fused: bool, x1: Cx<F>, x3: Cx<F>, x5: Cx<F>, x7: Cx<F>)
    ensures var a1, a5, a3, a7 := CAdd(A, x1, x5), CSub(A, x1, x5), CAdd(A, x3, x7), CRot(A, inverse, CSub(A, x3, x7));
      var c5, c7 := CAdd(A, a5, a7), CSub(A, a5, a7);
      Odd8(Reference(A, k, inverse, fused), x1, x3, x5, x7) ==
      [CAdd(A, a1, a3), CAdd(A, c5, CRot(A, inverse, c5)), CRot(A, inverse, CSub(A, a1, a3)), CSub(A, CRot(A, inverse, c7), c7)]
  {
    hide CAdd, CSub, CRot;
  }

  lemma EvenHalf<F(!new)>(A: Arith<F>, k: FConsts<F>, inverse: bool, fused: bool, x0: Cx<F>, x2: Cx<F>, x4: Cx<F>, x6: Cx<F>)
    ensures var a0, a4, a2, a6 := CAdd(A, x0, x4), CSub(A, x0, x4), CAdd(A, x2, x6), CRot(A, inverse, CSub(A, x2, x6));
      Even8(Reference(A, k, inverse, fused), x0, x2, x4, x6) == [CAdd(A, a0, a2), CAdd(A, a4, a6), CSub(A, a0, a2), CSub(A, a4, a6)]
  {
    hide CAdd, CSub, CRot;
  }

  lemma Outputs8<F(!new)>(A: Arith<F>, k: FConsts<F>, inverse: bool, fused: bool, x: seq<Cx<F>>)
    requires |x| == 8
    ensures var O := Reference(A, k, inverse, fused);
      var o, e := Odd8(O, x[1], x[3], x[5], x[7]), Even8(O, x[0], x[2], x[4], x[6]);
      Bfly8(O, x) ==
      [CAdd(A, e[0], o[0]), PlusH(A, fused, k.h, e[1], o[1]), CAdd(A, e[2], o[2]), PlusH(A, fused, k.h, e[3], o[3]),
       CSub(A, e[0], o[0]), MinusH(A, fused, k.h, e[1], o[1]), CSub(A, e[2], o[2]), MinusH(A, fused, k.h, e[3], o[3])]
  {
    hide CAdd, CSub, CRot, PlusH, MinusH, Odd8, Even8;
  }

  /** The two outputs of hpm: the constant multiplied in before, or fused. */
  method Hpm<F(!new)>(A: Arith<F>, fused: bool, h: F, a: Cx<F>, s: Cx<F>) returns (plus: Cx<F>, minus: Cx<F>)
    requires IsArith(A)
    ensures plus == PlusH(A, fused, h, a, s) && minus == MinusH(A, fused, h, a, s)
  {
    if fused {
      FmaHIs(A, h, s, a);
      plus := FmaH(A, false, h, s, a);
      minus := FmaH(A, true, h, s, a);
    } else {
      MulkScales(A, s, h);
      var scaled := Mulk(A, s, h);
      plus := CAdd(A, a, scaled);
      minus := CSub(A, a, scaled);
    }
  }

  method Interleaved8<F(!new)>(A: Arith<F>, k: FConsts<F>, inverse: bool, fused: bool, x: seq<Cx<F>>) returns (y: seq<Cx<F>>)
    requires |x| == 8 && IsArith(A)
    ensures y == Bfly8(Reference(A, k, inverse, fused), x)
  {
    Outputs8(A, k, inverse, fused, x);
    OddHalf(A, k, inverse, fused, x[1], x[3], x[5], x[7]);
    EvenHalf(A, k, inverse, fused, x[0], x[2], x[4], x[6]);
    hide CAdd, CSub, CRot, PlusH, MinusH, Odd8, Even8, Bfly8, Reference, IsArith, RotLanes;
    var r1, r5 := x[1], x[5];
    var r8 := CAdd(A, r1, r5);
    var r9 := CSub(A, r1, r5);
    var r3, r7 := x[3], x[7];
    var r10 := CAdd(A, r3, r7);
    var r11 := CSub(A, r3, r7);
    var r12 := CAdd(A, r8, r10);
    r10 := CSub(A, r8, r10);
    RotIsCRot(A, inverse, r10);
    RotIsCRot(A, inverse, r11);
    r10 := RotLanes(A, inverse, r10);
    r11 := RotLanes(A, inverse, r11);
    r8 := CAdd(A, r9, r11);
    r9 := CSub(A, r9, r11);
    RotIsCRot(A, inverse, r8);
    RotIsCRot(A, inverse, r9);
    r11 := RotLanes(A, inverse, r8);
    r8 := CAdd(A, r8, r11);
    r11 := RotLanes(A, inverse, r9);
    r9 := CSub(A, r11, r9);
    var r0, r4 := x[0], x[4];
    r1 := CAdd(A, r0, r4);
    var r2 := CSub(A, r0, r4);
    r0, r4 := x[2], x[6];
    r3 := CAdd(A, r0, r4);
    r5 := CSub(A, r0, r4);
    r0 := CAdd(A, r1, r3);
    r1 := CSub(A, r1, r3);
    RotIsCRot(A, inverse, r5);
    r5 := RotLanes(A, inverse, r5);
    r3 := CAdd(A, r2, r5);
    r2 := CSub(A, r2, r5);
    r4 := CAdd(A, r0, r12);
    r0 := CSub(A, r0, r12);
    r12 := CAdd(A, r1, r10);
    r1 := CSub(A, r1, r10);
    r10, r3 := Hpm(A, fused, k.h, r3, r8);
    r8, r2 := Hpm(A, fused, k.h, r2, r9);
    y := [r4, r10, r12, r8, r0, r3, r1, r2];
  }

  // ------------------------------------------------------------ split

  /** (a + rotS(b), a - rotS(b)) by the choice of operands: no shuffle and no sign flip. */
  method RotAdd<F(!new)>(A: Arith<F>, inverse: bool, ar: F, ai: F, br: F, bi: F) returns (pr: F, pi: F, mr: F, mi: F)
    requires IsArith(A)
    ensures Cx(pr, pi) == CAdd(A, Cx(ar, ai), CRot(A, inverse, Cx(br, bi)))
    ensures Cx(mr, mi) == CSub(A, Cx(ar, ai), CRot(A, inverse, Cx(br, bi)))
  {
    Minus(A, ar, bi);
    Minus(A, ai, br);
    if !inverse {
      pr := A.add(ar, bi);
      pi := A.sub(ai, br);
      mr := A.sub(ar, bi);
      mi := A.add(ai, br);
    } else {
      pr := A.sub(ar, bi);
      pi := A.add(ai, br);
      mr := A.add(ar, bi);
      mi := A.sub(ai, br);
    }
  }

  method Split4<F(!new)>(A: Arith<F>, k: FConsts<F>, inverse: bool, fused: bool, x: seq<Cx<F>>) returns (y: seq<Cx<F>>)
    requires |x| == 4 && IsArith(A)
    ensures y == Bfly4(Reference(A, k, inverse, fused), x[0], x[1], x[2], x[3])
  {
    var y0, y1, y2, y3 := x[0].re, x[0].im, x[1].re, x[1].im;
    var y4, y5, y6, y7 := x[2].re, x[2].im, x[3].re, x[3].im;
    var y8 := A.add(y0, y4);
    y0 := A.sub(y0, y4);
    var y9 := A.add(y1, y5);
    y1 := A.sub(y1, y5);
    y4 := A.add(y2, y6);
    y2 := A.sub(y2, y6);
    y5 := A.add(y3, y7);
    y3 := A.sub(y3, y7);
    y6 := A.add(y8, y4);
    y7 := A.add(y9, y5);
    y8 := A.sub(y8, y4);
    y9 := A.sub(y9, y5);
    y4, y5, y0, y1 := RotAdd(A, inverse, y0, y1, y2, y3);
    hide IsArith;
    y := [Cx(y6, y7), Cx(y4, y5), Cx(y8, y9), Cx(y0, y1)];
  }

  /** c times both parts, register first. */
  method Mulc<F(!new)>(A: Arith<F>, re: F, im: F, c: F) returns (pr: F, pi: F)
    requires IsArith(A)
    ensures Cx(pr, pi) == CScale(A, c, Cx(re, im))
  {
    MulSwaps(A, re, c);
    MulSwaps(A, im, c);
    pr := A.mul(re, c);
    pi := A.mul(im, c);
  }

  method Split3<F(!new)>(A: Arith<F>, k: FConsts<F>, inverse: bool, fused: bool, x: seq<Cx<F>>) returns (y: seq<Cx<F>>)
    requires |x| == 3 && IsArith(A)
    ensures y == Bfly3(Reference(A, k, inverse, fused), x[0], x[1], x[2])
  {
    var y2, y3, y4, y5 := x[1].re, x[1].im, x[2].re, x[2].im;
    var y6 := A.add(y2, y4);
    y2 := A.sub(y2, y4);
    var y7 := A.add(y3, y5);
    y3 := A.sub(y3, y5);
    var y0, y1 := x[0].re, x[0].im;
    var y8 := A.add(y0, y6);
    var y9 := A.add(y1, y7);
    var y10, y11 := Mulc(A, y6, y7, k.half);
    y10 := A.sub(y0, y10);
    y11 := A.sub(y1, y11);
    y2, y3 := Mulc(A, y2, y3, k.sin120);
    y4, y5, y6, y7 := RotAdd(A, inverse, y10, y11, y2, y3);
    hide IsArith, CRot;
    y := [Cx(y8, y9), Cx(y4, y5), Cx(y6, y7)];
  }

  method Split5<F(!new)>(A: Arith<F>, k: FConsts<F>, inverse: bool, fused: bool, x: seq<Cx<F>>) returns (y: seq<Cx<F>>)
    requires |x| == 5 && IsArith(A)
    ensures y == Bfly5(Reference(A, k, inverse, fused), x[0], x[1], x[2], x[3], x[4])
  {
    hide IsArith, CRot;
    var y0, y1, y2, y3 := x[1].re, x[1].im, x[4].re, x[4].im;
    var y4 := A.add(y0, y2);
    y0 := A.sub(y0, y2);
    var y5 := A.add(y1, y3);
    y1 := A.sub(y1, y3);
    y2, y3 := x[2].re, x[2].im;
    var y6, y7 := x[3].re, x[3].im;
    var y8 := A.add(y2, y6);
    y2 := A.sub(y2, y6);
    var y9 := A.add(y3, y7);
    y3 := A.sub(y3, y7);
    y6, y7 := x[0].re, x[0].im;
    var y10 := A.add(y6, y4);
    y10 := A.add(y10, y8);
    var y11 := A.add(y7, y5);
    y11 := A.add(y11, y9);
    var out0 := Cx(y10, y11);
    // r1 and r2.
    var y12, y13, y14, y15;
    y10, y11 := Mulc(A, y4, y5, k.c51);
    y12, y13 := Mulc(A, y8, y9, k.c52);
    y10, y11 := A.add(y10, y12), A.add(y11, y13);
    y10, y11 := A.add(y6, y10), A.add(y7, y11);
    y12, y13 := Mulc(A, y4, y5, k.c52);
    y14, y15 := Mulc(A, y8, y9, k.c51);
    y12, y13 := A.add(y12, y14), A.add(y13, y15);
    y12, y13 := A.add(y6, y12), A.add(y7, y13);
    // The sine sums.
    y4, y5 := Mulc(A, y0, y1, k.s51);
    y8, y9 := Mulc(A, y2, y3, k.s52);
    y4, y5 := A.add(y4, y8), A.add(y5, y9);
    y6, y7 := Mulc(A, y0, y1, k.s52);
    y8, y9 := Mulc(A, y2, y3, k.s51);
    y6, y7 := A.sub(y6, y8), A.sub(y7, y9);
    y0, y1, y2, y3 := RotAdd(A, inverse, y10, y11, y4, y5);
    y8, y9, y14, y15 := RotAdd(A, inverse, y12, y13, y6, y7);
    y := [out0, Cx(y0, y1), Cx(y8, y9), Cx(y14, y15), Cx(y2, y3)];
  }

  /** The odd half: a1 + a3, a1 - a3 before its rotation, and the sums a5 + rotS(a5) and
      rotS(a7) - a7. */
  method SplitOdd8<F(!new)>(A: Arith<F>, inverse: bool, x1: Cx<F>, x3: Cx<F>, x5: Cx<F>, x7: Cx<F>)
    returns (s0: Cx<F>, s2: Cx<F>, c5: Cx<F>, c7: Cx<F>)
    requires IsArith(A)
    ensures var a1, a5, a3, a7 := CAdd(A, x1, x5), CSub(A, x1, x5), CAdd(A, x3, x7), CRot(A, inverse, CSub(A, x3, x7));
      var d5, d7 := CAdd(A, a5, a7), CSub(A, a5, a7);
      s0 == CAdd(A, a1, a3) && s2 == CSub(A, a1, a3)
      && c5 == CAdd(A, d5, CRot(A, inverse, d5)) && c7 == CSub(A, CRot(A, inverse, d7), d7)
  {
    var y0, y1, y2, y3 := x1.re, x1.im, x5.re, x5.im;
    var y4 := A.add(y0, y2);
    y0 := A.sub(y0, y2);
    y2 := A.add(y1, y3);
    y1 := A.sub(y1, y3);
    y3 := x3.re;
    var y5, y6, y7 := x3.im, x7.re, x7.im;
    var y8 := A.add(y3, y6);
    y3 := A.sub(y3, y6);
    y6 := A.add(y5, y7);
    y5 := A.sub(y5, y7);
    y7 := A.add(y4, y8);
    y4 := A.sub(y4, y8);
    y8 := A.add(y2, y6);
    y2 := A.sub(y2, y6);
    s0, s2 := Cx(y7, y8), Cx(y4, y2);
    var y9;
    y6, y9, y0, y1 := RotAdd(A, inverse, y0, y1, y3, y5);
    Minus(A, y6, y9);
    Minus(A, y9, y6);
    if !inverse {
      y3 := A.add(y6, y9);
      y5 := A.sub(y9, y6);
      y6 := A.sub(y1, y0);
      y0 := A.neg(y0);
      y0 := A.sub(y0, y1);
    } else {
      y3 := A.sub(y6, y9);
      y5 := A.add(y9, y6);
      y2 := A.sub(y0, y1);
      y1 := A.neg(y1);
      y6 := A.sub(y1, y0);
      y0 := y2;
    }
    hide IsArith;
    c5, c7 := Cx(y3, y5), Cx(y6, y0);
  }

  /** The even half: a0 + a2, a0 - a2, a4 + rotS(a6), a4 - rotS(a6). */
  method SplitEven8<F(!new)>(A: Arith<F>, inverse: bool, x0: Cx<F>, x2: Cx<F>, x4: Cx<F>, x6: Cx<F>)
    returns (e0: Cx<F>, e2: Cx<F>, e1: Cx<F>, e3: Cx<F>)
    requires IsArith(A)
    ensures var a0, a4, a2, a6 := CAdd(A, x0, x4), CSub(A, x0, x4), CAdd(A, x2, x6), CRot(A, inverse, CSub(A, x2, x6));
      e0 == CAdd(A, a0, a2) && e2 == CSub(A, a0, a2) && e1 == CAdd(A, a4, a6) && e3 == CSub(A, a4, a6)
  {
    var y1, y2, y4, y7 := x0.re, x0.im, x4.re, x4.im;
    var y8 := A.add(y1, y4);
    y1 := A.sub(y1, y4);
    y4 := A.add(y2, y7);
    y2 := A.sub(y2, y7);
    y7 := x2.re;
    var y9, y10, y11 := x2.im, x6.re, x6.im;
    var y12 := A.add(y7, y10);
    y7 := A.sub(y7, y10);
    y10 := A.add(y9, y11);
    y9 := A.sub(y9, y11);
    y11 := A.add(y8, y12);
    y8 := A.sub(y8, y12);
    y12 := A.add(y4, y10);
    y4 := A.sub(y4, y10);
    e0, e2 := Cx(y11, y12), Cx(y8, y4);
    var y13;
    y10, y13, y1, y2 := RotAdd(A, inverse, y1, y2, y7, y9);
    hide IsArith, CRot;
    e1, e3 := Cx(y10, y13), Cx(y1, y2);
  }

  /** The whole split radix-8 body: the odd half's sums go through the frame. */
  method Split8<F(!new)>(A: Arith<F>, k: FConsts<F>, inverse: bool, fused: bool, x: seq<Cx<F>>) returns (y: seq<Cx<F>>)
    requires |x| == 8 && IsArith(A)
    ensures y == Bfly8(Reference(A, k, inverse, fused), x)
  {
    Outputs8(A, k, inverse, fused, x);
    OddHalf(A, k, inverse, fused, x[1], x[3], x[5], x[7]);
    EvenHalf(A, k, inverse, fused, x[0], x[2], x[4], x[6]);
    var s0, s2, c5, c7 := SplitOdd8(A, inverse, x[1], x[3], x[5], x[7]);
    var e0, e2, e1, e3 := SplitEven8(A, inverse, x[0], x[2], x[4], x[6]);
    var y1, y5 := SplitHpm(A, fused, k.h, e1, c5);
    var y3, y7 := SplitHpm(A, fused, k.h, e3, c7);
    var y0, y4 := Cx(A.add(e0.re, s0.re), A.add(e0.im, s0.im)), Cx(A.sub(e0.re, s0.re), A.sub(e0.im, s0.im));
    var pr, pi, mr, mi := RotAdd(A, inverse, e2.re, e2.im, s2.re, s2.im);
    y := [y0, y1, Cx(pr, pi), y3, y4, y5, Cx(mr, mi), y7];
    hide IsArith, CRot, PlusH, MinusH, Odd8, Even8, Bfly8, Reference;
  }

  /** a ± h·s on split registers. */
  method SplitHpm<F(!new)>(A: Arith<F>, fused: bool, h: F, a: Cx<F>, s: Cx<F>) returns (plus: Cx<F>, minus: Cx<F>)
    requires IsArith(A)
    ensures plus == PlusH(A, fused, h, a, s) && minus == MinusH(A, fused, h, a, s)
  {
    if fused {
      FmaSwaps(A, s.re, h, a.re);
      FmaSwaps(A, s.im, h, a.im);
      plus := Cx(A.fma(s.re, h, a.re), A.fma(s.im, h, a.im));
      minus := Cx(A.fma(A.neg(s.re), h, a.re), A.fma(A.neg(s.im), h, a.im));
    } else {
      var tr, ti := Mulc(A, s.re, s.im, h);
      plus := Cx(A.add(a.re, tr), A.add(a.im, ti));
      minus := Cx(A.sub(a.re, tr), A.sub(a.im, ti));
    }
  }
}
