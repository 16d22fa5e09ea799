/** The arithmetic of one untangle or retangle bin: the reference, and the kernels' instructions,
    which compute it bit for bit. */
module UntangleBins {
  import opened Floats

  function Conj<F>(A: Arith<F>, z: Cx<F>): Cx<F> {
    Cx(z.re, A.neg(z.im))
  }

  /** z·i. */
  function TimesI<F>(A: Arith<F>, z: Cx<F>): Cx<F> {
    Cx(A.neg(z.im), z.re)
  }

  /** Bins k and m - k of the transform of 2m reals from bins k and m - k of the transform of m
      points: xe and xo are the transforms of the even and of the odd reals. */
  function UntangleBin<F>(A: Arith<F>, half: F): (Cx<F>, Cx<F>, Cx<F>) -> (Cx<F>, Cx<F>) {
    (a: Cx<F>, b: Cx<F>, w: Cx<F>) =>
      var s, d := CAdd(A, a, b), CSub(A, a, b);
      var xe := Cx(A.mul(s.re, half), A.mul(d.im, half));
      var xo := Cx(A.mul(s.im, half), A.mul(A.neg(d.re), half));
      var t := CMul(A, false, xo, w);
      (CAdd(A, xe, t), Conj(A, CSub(A, xe, t)))
  }

  /** And back, h times twice the points. */
  function RetangleBin<F>(A: Arith<F>, h: F): (Cx<F>, Cx<F>, Cx<F>) -> (Cx<F>, Cx<F>) {
    (a: Cx<F>, b: Cx<F>, w: Cx<F>) =>
      var s, d := CAdd(A, a, b), CSub(A, a, b);
      var xe := Cx(A.mul(s.re, h), A.mul(d.im, h));
      var dd := Cx(A.mul(d.re, h), A.mul(s.im, h));
      var xo := CMul(A, false, dd, Conj(A, w));
      (CAdd(A, xe, TimesI(A, xo)), Conj(A, CSub(A, xe, TimesI(A, xo))))
  }

  // ------------------------------------------------------------ the instructions, on one bin's two lanes

  /** VBLENDPD $10, VBLENDMPD under K1: the odd lane of the second register. */
  function BlendOdd<F>(x: Cx<F>, y: Cx<F>): Cx<F> {
    Cx(x.re, y.im)
  }

  /** VBLENDPD $5, VBLENDMPD under K2: the even lane. */
  function BlendEven<F>(x: Cx<F>, y: Cx<F>): Cx<F> {
    Cx(y.re, x.im)
  }

  /** VADDSUBPD, or at 512 bits the real lane's sign flip and an add. */
  function AddSubOr<F>(A: Arith<F>, wide: bool, x: Cx<F>, y: Cx<F>): Cx<F> {
    if wide then CAdd(A, x, Flip(A, true, false, y)) else AddSub(A, x, y)
  }

  lemma AddSubIsAdd<F(!new)>(A: Arith<F>, wide: bool, x: Cx<F>, y: Cx<F>)
    requires IsArith(A)
    ensures AddSubOr(A, wide, x, y) == Cx(A.sub(x.re, y.re), A.add(x.im, y.im))
  {
    Minus(A, x.re, y.re);
  }

  /** Untangle's step at 256 and at 512 bits is the reference, bit for bit. */
  method UntangleStep<F(!new)>(A: Arith<F>, half: F, wide: bool, forward: Cx<F>, mirror: Cx<F>, w: Cx<F>) returns (out: Cx<F>, back: Cx<F>)
    requires IsArith(A)
    ensures (out, back) == UntangleBin(A, half)(forward, mirror, w)
  {
    var y14 := Cx(half, half);
    var a, b := forward, mirror;
    var c := CAdd(A, a, b);
    var d := CSub(A, a, b);
    a := BlendOdd(c, d);
    a := LaneMul(A, a, y14);
    b := BlendEven(c, d);
    b := Flip(A, true, false, b);
    b := LaneMul(A, b, y14);
    c := Low(w);
    d := High(w);
    ghost var xo := Swap(b);
    d := LaneMul(A, d, b);
    b := Swap(b);
    c := LaneMul(A, c, b);
    AddSubIsAdd(A, wide, c, d);
    ProductLanes(A, xo, w);
    c := AddSubOr(A, wide, c, d);
    b := CAdd(A, a, c);
    d := CSub(A, a, c);
    d := Flip(A, false, true, d);
    out, back := b, d;
  }

  /** The lanes of the product, its factors and its terms the other way round. */
  lemma ProductLanes<F(!new)>(A: Arith<F>, x: Cx<F>, w: Cx<F>)
    requires IsArith(A)
    ensures Cx(A.sub(A.mul(w.re, x.re), A.mul(w.im, x.im)), A.add(A.mul(w.re, x.im), A.mul(w.im, x.re))) == CMul(A, false, x, w)
  {
    MulSwaps(A, w.re, x.re);
    MulSwaps(A, w.im, x.im);
    MulSwaps(A, w.re, x.im);
    MulSwaps(A, w.im, x.re);
    AddSwaps(A, A.mul(x.re, w.im), A.mul(x.im, w.re));
  }

  /** Retangle's step; the minus sign of conj(w) is flipped into both lanes of its part. */
  method RetangleStep<F(!new)>(A: Arith<F>, h: F, wide: bool, forward: Cx<F>, mirror: Cx<F>, w: Cx<F>) returns (out: Cx<F>, back: Cx<F>)
    requires IsArith(A)
    ensures (out, back) == RetangleBin(A, h)(forward, mirror, w)
  {
    var y14 := Cx(h, h);
    var a, b := forward, mirror;
    var c := CAdd(A, a, b);
    var d := CSub(A, a, b);
    a := BlendOdd(c, d);
    a := LaneMul(A, a, y14);
    b := BlendEven(c, d);
    b := LaneMul(A, b, y14);
    ghost var dd := b;
    d := Low(w);
    c := High(w);
    c := Flip(A, true, true, c);
    d := LaneMul(A, d, b);
    b := Swap(b);
    c := LaneMul(A, c, b);
    AddSubIsAdd(A, wide, d, c);
    ProductLanes(A, dd, Conj(A, w));
    d := AddSubOr(A, wide, d, c);
    b := Swap(d);
    b := Flip(A, false, true, b);
    Minus(A, a.re, b.re);
    Minus(A, a.im, d.re);
    c := CSub(A, a, b);
    d := CAdd(A, a, b);
    d := Flip(A, false, true, d);
    out, back := c, d;
  }
}
