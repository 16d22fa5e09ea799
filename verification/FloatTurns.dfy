/** The turns inside the radix-9, 16 and 32 butterflies, in floating point: however the signs are
    placed, the products are the reference's bits. */
module FloatTurns {
  import opened Floats
  import opened Circle

  /** A sign flip of a factor flips the product. */
  ghost predicate MulSigns<F(!new)>(A: Arith<F>) {
    forall x, y :: A.mul(x, A.neg(y)) == A.neg(A.mul(x, y))
  }

  lemma FlippedFactor<F(!new)>(A: Arith<F>, x: F, y: F)
    requires SubIsAddNeg(A) && MulSigns(A)
    ensures A.mul(x, A.neg(y)) == A.neg(A.mul(x, y)) && A.neg(A.neg(A.mul(x, y))) == A.mul(x, y)
  {
  }

  /** rotC: c·src + swap(src)·[-d, d], the product rounded or fused into the sum, is the product
      with c + i·d. */
  method RotC<F(!new)>(A: Arith<F>, fused: bool, src: Cx<F>, c: F, row: Cx<F>) returns (dst: Cx<F>)
    requires IsArith(A) && MulSigns(A) && row.re == A.neg(row.im)
    ensures dst == CMul(A, fused, src, Cx(c, row.im))
  {
    var d := row.im;
    FlippedFactor(A, src.im, d);
    var tb := Swap(src);
    tb := LaneMul(A, tb, row);
    if fused {
      dst := Cx(A.fma(c, src.re, tb.re), A.fma(c, src.im, tb.im));
      FmaSwaps(A, c, src.re, tb.re);
      FmaSwaps(A, c, src.im, tb.im);
    } else {
      var ta := LaneMul(A, src, Low(Cx(c, c)));
      Minus(A, A.mul(src.re, c), A.mul(src.im, d));
      AddSwaps(A, A.mul(src.im, c), A.mul(src.re, d));
      dst := CAdd(A, ta, tb);
    }
  }

  // ------------------------------------------------------------ radix 32

  /** ±x. */
  function Sign<F>(A: Arith<F>, s: int, x: F): F {
    if s < 0 then A.neg(x) else x
  }

  /** z·W32^e from the table of cosines: rotS for e = 8, else the fused product with ±C_p ± i·C_q,
      the sine's sign being the direction's. */
  function Turn<F>(A: Arith<F>, inverse: bool, C: seq<F>, e: int, z: Cx<F>): Cx<F>
    requires |C| == 9 && 0 < e <= 24
  {
    var t := Trig(8, e);
    if e == 8 then CRot(A, inverse, z)
    else CMul(A, true, z, Cx(Sign(A, t.1, C[t.0]), Sign(A, if inverse then t.3 else -t.3, C[t.2])))
  }

  /** VFMADD231PD, VFMSUB231PD, VFNMADD231PD and VFNMSUB231PD: ±(c·x) ± acc, rounded once. */
  function Fma231<F>(A: Arith<F>, product: int, addend: int, c: F, x: F, acc: F): F {
    A.fma(Sign(A, product, c), x, Sign(A, addend, acc))
  }

  lemma SignedProduct<F(!new)>(A: Arith<F>, s: int, x: F, y: F)
    requires SubIsAddNeg(A) && MulSigns(A)
    ensures A.mul(x, Sign(A, s, y)) == Sign(A, s, A.mul(x, y))
    ensures s in {-1, 1} ==> A.neg(A.mul(x, Sign(A, s, y))) == Sign(A, -s, A.mul(x, y))
  {
    FlippedFactor(A, x, y);
  }

  /** twiddle32 of the split kernels: the signs of cosine and sine choose the instruction. */
  method Turn32<F(!new)>(A: Arith<F>, inverse: bool, C: seq<F>, e: int, re: F, im: F) returns (pr: F, pi: F)
    requires IsArith(A) && MulSigns(A) && |C| == 9 && 0 < e <= 24
    ensures Cx(pr, pi) == Turn(A, inverse, C, e, Cx(re, im))
  {
    if e == 8 {
      if !inverse {
        pr, pi := im, A.neg(re);
      } else {
        pr, pi := A.neg(im), re;
      }
    } else {
      var (p, cs, q, sine) := Trig(8, e);
      var ss := if inverse then sine else -sine;
      pr, pi := FusedParts(A, cs, ss, C[p], C[q], re, im);
    }
  }

  method FusedParts<F(!new)>(A: Arith<F>, cs: int, ss: int, c: F, s: F, re: F, im: F) returns (pr: F, pi: F)
    requires IsArith(A) && MulSigns(A) && cs in {-1, 1} && ss in {-1, 1}
    ensures Cx(pr, pi) == CMul(A, true, Cx(re, im), Cx(Sign(A, cs, c), Sign(A, ss, s)))
  {
    hide MulSigns, SubIsAddNeg, FmaFactors, AddCommutes;
    var t0 := A.mul(s, im);
    MulSwaps(A, s, im);
    SignedProduct(A, ss, im, s);
    FmaSwaps(A, Sign(A, cs, c), re, Sign(A, -ss, t0));
    t0 := Fma231(A, cs, -ss, c, re, t0);
    var t1 := A.mul(s, re);
    MulSwaps(A, s, re);
    SignedProduct(A, ss, re, s);
    FmaSwaps(A, Sign(A, cs, c), im, Sign(A, ss, t1));
    t1 := Fma231(A, cs, ss, c, im, t1);
    pr, pi := t0, t1;
  }

  /** The final pass's turn: rotS for e = 8, else rotC with the rows of its table, in which the
      signs are stored. */
  method Turn32Last<F(!new)>(A: Arith<F>, inverse: bool, C: seq<F>, e: int, z: Cx<F>) returns (y: Cx<F>)
    requires IsArith(A) && MulSigns(A) && |C| == 9 && 0 < e <= 24
    ensures y == Turn(A, inverse, C, e, z)
  {
    if e == 8 {
      y := RotLanes(A, inverse, z);
    } else {
      var (p, cs, q, sine) := Trig(8, e);
      var ss := Sign(A, if inverse then sine else -sine, C[q]);
      y := RotC(A, true, z, Sign(A, cs, C[p]), Cx(A.neg(ss), ss));
    }
  }
}
