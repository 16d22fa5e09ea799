/** Floating point without its numbers: the operations are uninterpreted, and only the facts
    that hold of every IEEE result are known of them. No sum is ever reassociated. */
module Floats {
  import opened Scalar

  /** One rounded operation each; fma(x, y, z) is x·y + z rounded once. */
  datatype Arith<!F> = Arith(add: (F, F) -> F, sub: (F, F) -> F, mul: (F, F) -> F, neg: F -> F, fma: (F, F, F) -> F)

  ghost predicate AddCommutes<F(!new)>(A: Arith<F>) {
    forall x, y {:trigger A.add(x, y)} :: A.add(x, y) == A.add(y, x)
  }

  ghost predicate MulCommutes<F(!new)>(A: Arith<F>) {
    forall x, y {:trigger A.mul(x, y)} :: A.mul(x, y) == A.mul(y, x)
  }

  /** x - y is x + (-y), and a sign flip undoes itself. */
  ghost predicate SubIsAddNeg<F(!new)>(A: Arith<F>) {
    && (forall x, y :: A.sub(x, y) == A.add(x, A.neg(y)))
    && (forall x :: A.neg(A.neg(x)) == x)
  }

  /** The factors of a fused product exchange, and a sign flip moves between them. */
  ghost predicate FmaFactors<F(!new)>(A: Arith<F>) {
    && (forall x, y, z {:trigger A.fma(x, y, z)} :: A.fma(x, y, z) == A.fma(y, x, z))
    && (forall x, y, z :: A.fma(A.neg(x), y, z) == A.fma(x, A.neg(y), z))
  }

  ghost predicate IsArith<F(!new)>(A: Arith<F>) {
    AddCommutes(A) && MulCommutes(A) && SubIsAddNeg(A) && FmaFactors(A)
  }

  lemma Minus<F(!new)>(A: Arith<F>, x: F, y: F)
    requires SubIsAddNeg(A)
    ensures A.sub(x, y) == A.add(x, A.neg(y)) && A.sub(x, A.neg(y)) == A.add(x, y)
  {
    assert A.sub(x, A.neg(y)) == A.add(x, A.neg(A.neg(y)));
  }

  lemma AddSwaps<F(!new)>(A: Arith<F>, x: F, y: F)
    requires AddCommutes(A)
    ensures A.add(x, y) == A.add(y, x)
  {
  }

  lemma MulSwaps<F(!new)>(A: Arith<F>, x: F, y: F)
    requires MulCommutes(A)
    ensures A.mul(x, y) == A.mul(y, x)
  {
  }

  lemma FmaSwaps<F(!new)>(A: Arith<F>, x: F, y: F, z: F)
    requires FmaFactors(A)
    ensures A.fma(x, y, z) == A.fma(y, x, z) && A.fma(A.neg(x), y, z) == A.fma(A.neg(y), x, z)
  {
    assert A.fma(A.neg(x), y, z) == A.fma(x, A.neg(y), z) == A.fma(A.neg(y), x, z);
  }

  // ------------------------------------------------------------ complex values

  datatype Cx<F> = Cx(re: F, im: F)

  function CAdd<F>(A: Arith<F>, x: Cx<F>, y: Cx<F>): Cx<F> {
    Cx(A.add(x.re, y.re), A.add(x.im, y.im))
  }

  function CSub<F>(A: Arith<F>, x: Cx<F>, y: Cx<F>): Cx<F> {
    Cx(A.sub(x.re, y.re), A.sub(x.im, y.im))
  }

  /** rotS: the parts exchanged, and the sign the direction selects flipped. */
  function CRot<F>(A: Arith<F>, inverse: bool, z: Cx<F>): Cx<F> {
    if inverse then Cx(A.neg(z.im), z.re) else Cx(z.im, A.neg(z.re))
  }

  /** A constant's product with both parts. */
  function CScale<F>(A: Arith<F>, c: F, z: Cx<F>): Cx<F> {
    Cx(A.mul(c, z.re), A.mul(c, z.im))
  }

  datatype FConsts<F> = FConsts(half: F, sin120: F, c51: F, c52: F, s51: F, s52: F, h: F)

  /** a + h·s: the product rounded, or fused. */
  function PlusH<F>(A: Arith<F>, fused: bool, h: F, a: Cx<F>, s: Cx<F>): Cx<F> {
    if fused then Cx(A.fma(h, s.re, a.re), A.fma(h, s.im, a.im)) else CAdd(A, a, CScale(A, h, s))
  }

  /** a - h·s. */
  function MinusH<F>(A: Arith<F>, fused: bool, h: F, a: Cx<F>, s: Cx<F>): Cx<F> {
    if fused then Cx(A.fma(A.neg(h), s.re, a.re), A.fma(A.neg(h), s.im, a.im)) else CSub(A, a, CScale(A, h, s))
  }

  /** The scalar reference's operations. */
  function Reference<F(!new)>(A: Arith<F>, k: FConsts<F>, inverse: bool, fused: bool): Ops<Cx<F>> {
    Ops((a, b) => CAdd(A, a, b), (a, b) => CSub(A, a, b), z => CRot(A, inverse, z),
        z => CScale(A, k.half, z), z => CScale(A, k.sin120, z),
        z => CScale(A, k.c51, z), z => CScale(A, k.c52, z), z => CScale(A, k.s51, z), z => CScale(A, k.s52, z),
        (a, s) => PlusH(A, fused, k.h, a, s), (a, s) => MinusH(A, fused, k.h, a, s))
  }

  /** The reference's twiddle product: (yr·wr - yi·wi, yr·wi + yi·wr), or, fused,
      (fma(yr, wr, -(yi·wi)), fma(yi, wr, yr·wi)). */
  function CMul<F>(A: Arith<F>, fused: bool, y: Cx<F>, w: Cx<F>): Cx<F> {
    if fused then Cx(A.fma(y.re, w.re, A.neg(A.mul(y.im, w.im))), A.fma(y.im, w.re, A.mul(y.re, w.im)))
    else Cx(A.sub(A.mul(y.re, w.re), A.mul(y.im, w.im)), A.add(A.mul(y.re, w.im), A.mul(y.im, w.re)))
  }

  // ------------------------------------------------------------ the interleaved instructions

  // One point of a register is its real lane and its imaginary lane.

  /** VPERMILPD $5: the halves exchanged. */
  function Swap<F>(z: Cx<F>): Cx<F> {
    Cx(z.im, z.re)
  }

  /** VMOVDDUP, or VPERMILPD $0: the real part in both lanes. */
  function Low<F>(z: Cx<F>): Cx<F> {
    Cx(z.re, z.re)
  }

  /** VPERMILPD $15: the imaginary part in both. */
  function High<F>(z: Cx<F>): Cx<F> {
    Cx(z.im, z.im)
  }

  /** VMULPD. */
  function LaneMul<F>(A: Arith<F>, x: Cx<F>, y: Cx<F>): Cx<F> {
    Cx(A.mul(x.re, y.re), A.mul(x.im, y.im))
  }

  /** VXORPD with a sign mask. */
  function Flip<F>(A: Arith<F>, re: bool, im: bool, z: Cx<F>): Cx<F> {
    Cx(if re then A.neg(z.re) else z.re, if im then A.neg(z.im) else z.im)
  }

  /** VADDSUBPD: the difference in the real lane, the sum in the imaginary one. */
  function AddSub<F>(A: Arith<F>, x: Cx<F>, y: Cx<F>): Cx<F> {
    Cx(A.sub(x.re, y.re), A.add(x.im, y.im))
  }

  /** VFMADDSUB231PD: x·y less acc in the real lane, plus acc in the imaginary one. */
  function FmaAddSub<F>(A: Arith<F>, x: Cx<F>, y: Cx<F>, acc: Cx<F>): Cx<F> {
    Cx(A.fma(x.re, y.re, A.neg(acc.re)), A.fma(x.im, y.im, acc.im))
  }

  /** rot: swap, then the sign mask of the direction. */
  function RotLanes<F>(A: Arith<F>, inverse: bool, z: Cx<F>): Cx<F> {
    Flip(A, inverse, !inverse, Swap(z))
  }

  /** The interleaved twiddle product at 128, 256 and 512 bits: without a VADDSUBPD at 512
      bits, the real lane's sign is flipped and the products added. */
  function TwInterleaved<F>(A: Arith<F>, fused: bool, wide: bool, y: Cx<F>, w: Cx<F>): Cx<F> {
    if fused then FmaAddSub(A, y, Low(w), LaneMul(A, Swap(y), High(w)))
    else
      var t1, t2 := LaneMul(A, y, Low(w)), LaneMul(A, Swap(y), High(w));
      if wide then CAdd(A, t1, Flip(A, true, false, t2)) else AddSub(A, t1, t2)
  }

  /** Every interleaved product is the reference's. */
  lemma InterleavedIsReference<F(!new)>(A: Arith<F>, fused: bool, wide: bool, y: Cx<F>, w: Cx<F>)
    requires IsArith(A)
    ensures TwInterleaved(A, fused, wide, y, w) == CMul(A, fused, y, w)
  {
    Minus(A, A.mul(y.re, w.re), A.mul(y.im, w.im));
    AddSwaps(A, A.mul(y.re, w.im), A.mul(y.im, w.re));
  }

  // ------------------------------------------------------------ the split instructions

  /** The split twiddle product: four products and two sums, the parts in their own registers. */
  method TwSplit<F(!new)>(A: Arith<F>, fused: bool, re: F, im: F, wr: F, wi: F) returns (pr: F, pi: F)
    requires IsArith(A)
    ensures Cx(pr, pi) == CMul(A, fused, Cx(re, im), Cx(wr, wi))
  {
    var t0, t1 := wr, wi;
    if fused {
      var t2 := A.mul(im, t1);
      t2 := A.fma(re, t0, A.neg(t2));
      var t3 := A.mul(re, t1);
      t3 := A.fma(im, t0, t3);
      pr, pi := t2, t3;
    } else {
      var t2 := A.mul(re, t0);
      var t3 := A.mul(im, t1);
      t2 := A.sub(t2, t3);
      t0 := A.mul(im, t0);
      t1 := A.mul(re, t1);
      AddSwaps(A, t0, t1);
      t0 := A.add(t0, t1);
      pr, pi := t2, t0;
    }
  }
}
