/** What untangle and retangle are for, in exact arithmetic: the transform of 2m reals from
    that of the m points they pair into, and back. */
module RealTransform {
  import opened Modular
  import opened Rings
  import opened Complexes
  import opened Dft
  import opened Untangle
  import F = Floats
  import B = UntangleBins

  // h times the sums and differences of a bin and its mirror's conjugate.

  function Even(h: real, a: Complex, b: Complex): Complex {
    Scale(h, Complex(Add(a, b).re, Sub(a, b).im))
  }

  function Odd(h: real, a: Complex, b: Complex): Complex {
    Scale(h, Complex(Add(a, b).im, -Sub(a, b).re))
  }

  function Turned(h: real, a: Complex, b: Complex): Complex {
    Scale(h, Complex(Sub(a, b).re, Add(a, b).im))
  }

  /** x + y, and the conjugate of x - y. */
  function Sums(x: Complex, y: Complex): (Complex, Complex) {
    (Add(x, y), Conj(Sub(x, y)))
  }

  /** Bins k and m - k of the transform of the reals, from those of the points. */
  function Untangled(half: real): (Complex, Complex, Complex) -> (Complex, Complex) {
    (a, b, w) => Sums(Even(half, a, b), Mul(Odd(half, a, b), w))
  }

  function Retangled(h: real): (Complex, Complex, Complex) -> (Complex, Complex) {
    (a, b, w) => Sums(Even(h, a, b), Rot(true, Mul(Turned(h, a, b), Conj(w))))
  }

  const REALS: F.Arith<real> := F.Arith((x: real, y: real) => x + y, (x: real, y: real) => x - y, (x: real, y: real) => x * y,
                                        (x: real) => -x, (x: real, y: real, z: real) => x * y + z)

  function Exactly(z: F.Cx<real>): Complex {
    Complex(z.re, z.im)
  }

  lemma ExactSum(x: F.Cx<real>, y: F.Cx<real>)
    ensures Exactly(F.CAdd(REALS, x, y)) == Add(Exactly(x), Exactly(y)) && Exactly(F.CSub(REALS, x, y)) == Sub(Exactly(x), Exactly(y))
    ensures Exactly(B.Conj(REALS, x)) == Conj(Exactly(x)) && Exactly(B.TimesI(REALS, x)) == Rot(true, Exactly(x))
  {
  }

  lemma ExactProduct(x: F.Cx<real>, w: F.Cx<real>)
    ensures Exactly(F.CMul(REALS, false, x, w)) == Mul(Exactly(x), Exactly(w))
  {
  }

  lemma ExactScale(h: real, x: real, y: real)
    ensures Exactly(F.Cx(REALS.mul(x, h), REALS.mul(y, h))) == Scale(h, Complex(x, y)) && REALS.neg(x) == -x
  {
  }

  /** They are the kernels' formulas, the operations exact. */
  lemma ExactBins(h: real, a: F.Cx<real>, b: F.Cx<real>, w: F.Cx<real>)
    ensures var u, v := B.UntangleBin(REALS, h)(a, b, w), Untangled(h)(Exactly(a), Exactly(b), Exactly(w));
      Exactly(u.0) == v.0 && Exactly(u.1) == v.1
    ensures var u, v := B.RetangleBin(REALS, h)(a, b, w), Retangled(h)(Exactly(a), Exactly(b), Exactly(w));
      Exactly(u.0) == v.0 && Exactly(u.1) == v.1
  {
    hide B.UntangleBin, B.RetangleBin, Untangled, Retangled;
    ExactUntangle(h, a, b, w);
    ExactRetangle(h, a, b, w);
  }

  lemma ExactUntangle(h: real, a: F.Cx<real>, b: F.Cx<real>, w: F.Cx<real>)
    ensures var u, v := B.UntangleBin(REALS, h)(a, b, w), Untangled(h)(Exactly(a), Exactly(b), Exactly(w));
      Exactly(u.0) == v.0 && Exactly(u.1) == v.1
  {
    var s, d := F.CAdd(REALS, a, b), F.CSub(REALS, a, b);
    ExactSum(a, b);
    ExactScale(h, s.re, d.im);
    ExactScale(h, s.im, REALS.neg(d.re));
    var xe := F.Cx(REALS.mul(s.re, h), REALS.mul(d.im, h));
    var xo := F.Cx(REALS.mul(s.im, h), REALS.mul(REALS.neg(d.re), h));
    var t := F.CMul(REALS, false, xo, w);
    ExactNegated(d.re);
    hide Mul, Scale, Add, Sub, Conj, Rot, F.CMul, F.CAdd, F.CSub, B.Conj, B.TimesI;
    ExactProduct(xo, w);
    ExactSum(xe, t);
    ExactSum(F.CSub(REALS, xe, t), xe);
  }

  lemma ExactRetangle(h: real, a: F.Cx<real>, b: F.Cx<real>, w: F.Cx<real>)
    ensures var u, v := B.RetangleBin(REALS, h)(a, b, w), Retangled(h)(Exactly(a), Exactly(b), Exactly(w));
      Exactly(u.0) == v.0 && Exactly(u.1) == v.1
  {
    var s, d := F.CAdd(REALS, a, b), F.CSub(REALS, a, b);
    ExactSum(a, b);
    ExactScale(h, s.re, d.im);
    ExactScale(h, d.re, s.im);
    var xe := F.Cx(REALS.mul(s.re, h), REALS.mul(d.im, h));
    var dd := F.Cx(REALS.mul(d.re, h), REALS.mul(s.im, h));
    var r := F.CMul(REALS, false, dd, B.Conj(REALS, w));
    hide Mul, Scale, Add, Sub, Conj, Rot, F.CMul, F.CAdd, F.CSub, B.Conj, B.TimesI;
    ExactSum(w, w);
    ExactProduct(dd, B.Conj(REALS, w));
    ExactSum(r, r);
    ExactSum(xe, B.TimesI(REALS, r));
    ExactSum(F.CSub(REALS, xe, B.TimesI(REALS, r)), xe);
  }

  lemma ExactNegated(x: real)
    ensures REALS.neg(x) == -x
  {
  }

  /** A twiddle on the unit circle. */
  predicate Unit(w: Complex) {
    w.re * w.re + w.im * w.im == 1.0
  }

  lemma UnitConj(w: Complex)
    requires Unit(w)
    ensures Mul(w, Conj(w)) == ONE && Mul(Conj(w), w) == ONE
  {
  }

  lemma OneMul(x: Complex)
    ensures Mul(x, ONE) == x && Mul(ONE, x) == x
  {
  }

  /** A product with v and then with its inverse is no product at all. */
  lemma ProductUndone(x: Complex, v: Complex, w: Complex)
    requires Mul(v, w) == ONE
    ensures Mul(Mul(x, v), w) == x
  {
    hide Mul;
    MulIsAssociative(x, v, w);
    OneMul(x);
  }

  lemma ScaleMul(c: real, x: Complex, w: Complex)
    ensures Mul(Scale(c, x), w) == Scale(c, Mul(x, w))
  {
    assert c * x.re * w.re - c * x.im * w.im == c * (x.re * w.re - x.im * w.im);
    assert c * x.im * w.re + c * x.re * w.im == c * (x.im * w.re + x.re * w.im);
  }

  lemma ScaleSums(c: real, x: Complex, y: Complex)
    ensures Sums(Scale(c, x), Scale(c, y)).0 == Scale(c, Sums(x, y).0) && Sums(Scale(c, x), Scale(c, y)).1 == Scale(c, Sums(x, y).1)
    ensures Scale(c, Rot(true, x)) == Rot(true, Scale(c, x))
  {
    assert c * (x.re + y.re) == c * x.re + c * y.re && c * (x.im + y.im) == c * x.im + c * y.im;
    assert c * (x.re - y.re) == c * x.re - c * y.re && c * -(x.im - y.im) == -(c * x.im - c * y.im);
    assert c * -x.im == -(c * x.im);
  }

  /** The parts the sums of x and y are made of. */
  lemma PartsOfSums(h: real, x: Complex, y: Complex)
    ensures Even(h, Sums(x, y).0, Sums(x, y).1) == Scale(2.0 * h, x)
    ensures Turned(h, Sums(x, y).0, Sums(x, y).1) == Scale(2.0 * h, y)
  {
    assert h * (x.re + y.re + (x.re - y.re)) == 2.0 * h * x.re && h * (x.im + y.im - -(x.im - y.im)) == 2.0 * h * x.im;
    assert h * (x.re + y.re - (x.re - y.re)) == 2.0 * h * y.re && h * (x.im + y.im + -(x.im - y.im)) == 2.0 * h * y.im;
  }

  lemma SumsOfParts(a: Complex, b: Complex)
    ensures Sums(Even(0.5, a, b), Turned(0.5, a, b)) == (a, b)
    ensures Rot(true, Odd(0.5, a, b)) == Turned(0.5, a, b)
  {
  }

  lemma OddOfSums(x: Complex, y: Complex)
    ensures Odd(0.5, Sums(x, Rot(true, y)).0, Sums(x, Rot(true, y)).1) == y
  {
  }

  lemma ScaleOne(x: Complex)
    ensures Scale(2.0 * 0.5, x) == x
  {
  }

  /** Retangle after untangle is 2h times the points: the points themselves at h = 1/2. */
  lemma RetangleUndoesUntangle(h: real, a: Complex, b: Complex, w: Complex)
    requires Unit(w)
    ensures var out := Untangled(0.5)(a, b, w);
      Retangled(h)(out.0, out.1, w) == (Scale(2.0 * h, a), Scale(2.0 * h, b))
  {
    hide Mul, Scale, Sums, Conj, Rot, Even, Odd, Turned, Unit;
    var xe, xo := Even(0.5, a, b), Odd(0.5, a, b);
    var t := Mul(xo, w);
    PartsOfSums(h, xe, t);
    ScaleMul(2.0 * h, t, Conj(w));
    UnitConj(w);
    ProductUndone(xo, w, Conj(w));
    ScaleSums(2.0 * h, xo, xo);
    ScaleSums(2.0 * h, xe, Rot(true, xo));
    SumsOfParts(a, b);
  }

  /** And untangle after retangle. */
  lemma UntangleUndoesRetangle(a: Complex, b: Complex, w: Complex)
    requires Unit(w)
    ensures var out := Retangled(0.5)(a, b, w);
      Untangled(0.5)(out.0, out.1, w) == (a, b)
  {
    hide Mul, Scale, Sums, Conj, Rot, Even, Odd, Turned, Unit;
    var xe, dd := Even(0.5, a, b), Turned(0.5, a, b);
    var xo := Mul(dd, Conj(w));
    PartsOfSums(0.5, xe, Rot(true, xo));
    ScaleOne(xe);
    OddOfSums(xe, xo);
    UnitConj(w);
    ProductUndone(dd, Conj(w), w);
    SumsOfParts(a, b);
  }

  /** Whole arrays: whatever the slices, retangle at h = 1/2 after untangle restores every bin
      from 1 to `bins` and every mirror, and leaves everything else alone. */
  lemma ArraysRestored(input: seq<Complex>, z: int, mid: seq<Complex>, d: int, last: seq<Complex>, e: int,
                       tw: seq<Complex>, t: int, m: int, bins: int)
    requires BinsFit(m, bins, t, |tw|) && SliceIn(z, m, |input|) && SliceIn(d, m, |mid|) && SliceIn(e, m, |last|)
    requires forall a :: t < a <= t + bins ==> Unit(tw[a])
    ensures var y := Replaced(Untangled(0.5), mid, d, input, z, tw, t, m, bins);
      var out := Replaced(Retangled(0.5), last, e, y, d, tw, t, m, bins);
      && (forall k :: 0 < k <= bins ==> Restored(out, e, input, z, m, k))
      && (forall a :: 0 <= a < |last| && Apart(a, e, m, bins) ==> out[a] == last[a])
  {
    hide Unit, Undoes, Replaced, Restored, Untangled, Retangled;
    forall a | t < a <= t + bins ensures Undoes(Untangled(0.5), Retangled(0.5), tw[a]) {
      BinsUndone(tw[a]);
    }
    RoundTrip(Untangled(0.5), Retangled(0.5), input, z, mid, d, last, e, tw, t, m, bins);
  }

  lemma BinsUndone(w: Complex)
    requires Unit(w)
    ensures Undoes(Untangled(0.5), Retangled(0.5), w)
  {
    hide Unit, Untangled, Retangled, Scale;
    forall a, b ensures UndoesAt(Untangled(0.5), Retangled(0.5), w, a, b) {
      RetangleUndoesUntangle(0.5, a, b, w);
      ScaleOne(a);
      ScaleOne(b);
    }
  }

  // ------------------------------------------------------------ the transform of 2m reals

  /** The points the reals pair into. */
  ghost function Paired(x: int -> real): int -> Complex {
    t => Complex(x(2 * t), x(2 * t + 1))
  }

  ghost function AsComplex(x: int -> real): int -> Complex {
    t => Complex(x(t), 0.0)
  }

  /** Every other real from number e on. */
  ghost function Every2(x: int -> real, e: int): int -> Complex {
    t => Complex(x(2 * t + e), 0.0)
  }

  ghost function Conjugates(x: int -> Complex): int -> Complex {
    t => Conj(x(t))
  }

  lemma ConjMul(a: Complex, b: Complex)
    ensures Conj(Mul(a, b)) == Mul(Conj(a), Conj(b))
  {
  }

  lemma {:induction false} ConjPow(w: Complex, e: nat)
    ensures Conj(Pow(FIELD, w, e)) == Pow(FIELD, Conj(w), e)
  {
    if e == 0 {
    } else {
      ConjPow(w, e - 1);
      ConjMul(w, Pow(FIELD, w, e - 1));
      hide Mul, Conj;
    }
  }

  lemma {:induction false} ConjSum(n: nat, f: int -> Complex, g: int -> Complex)
    requires forall i :: 0 <= i < n ==> g(i) == Conj(f(i))
    ensures Sum(FIELD, n, g) == Conj(Sum(FIELD, n, f))
  {
    if n == 0 {
    } else {
      ConjSum(n - 1, f, g);
    }
  }

  lemma {:induction false} UnitPow(w: Complex, e: nat)
    requires Unit(w)
    ensures Unit(Pow(FIELD, w, e))
  {
    if e == 0 {
    } else {
      UnitPow(w, e - 1);
      UnitMul(w, Pow(FIELD, w, e - 1));
    }
  }

  lemma UnitMul(a: Complex, b: Complex)
    requires Unit(a) && Unit(b)
    ensures Unit(Mul(a, b))
  {
    var c := Mul(a, b);
    UnitConj(a);
    UnitConj(b);
    ConjMul(a, b);
    MulSwap(a, b, Conj(a), Conj(b));
    OneMul(ONE);
    ConjUnit(c);
    hide Mul, Conj, Unit;
  }

  lemma ConjUnit(w: Complex)
    ensures Mul(w, Conj(w)) == ONE ==> Unit(w)
  {
  }

  /** (ab)(cd) == (ac)(bd) */
  lemma MulSwap(a: Complex, b: Complex, c: Complex, d: Complex)
    ensures Mul(Mul(a, b), Mul(c, d)) == Mul(Mul(a, c), Mul(b, d))
  {
    MulIsAssociative(a, b, Mul(c, d));
    MulIsAssociative(b, c, d);
    MulIsAssociative(c, b, d);
    MulIsAssociative(a, c, Mul(b, d));
    assert Mul(b, c) == Mul(c, b);
    hide Mul;
  }

  /** The power that closes the circle from e is the conjugate of that to e. */
  lemma PowReflects(w: Complex, n: nat, e: nat)
    requires Unit(w) && Pow(FIELD, w, n) == ONE && e <= n
    ensures Pow(FIELD, w, n - e) == Conj(Pow(FIELD, w, e))
  {
    hide Pow, Mul, Conj, IsRing, Unit;
    ComplexIsRing();
    var p, q := Pow(FIELD, w, n - e), Pow(FIELD, w, e);
    PowAdd(FIELD, w, n - e, e);
    assert Mul(p, q) == ONE;
    UnitPow(w, e);
    UnitConj(q);
    ProductUndone(p, q, Conj(q));
    OneMul(Conj(q));
  }

  /** Bin m - k of a signal is the conjugate of bin k of the conjugates. */
  lemma MirrorBin(w: Complex, m: nat, z: int -> Complex, k: nat)
    requires Unit(w) && Pow(FIELD, w, m) == ONE && k <= m
    ensures Transform(FIELD, w, m, z, m - k) == Conj(Transform(FIELD, w, m, Conjugates(z), k))
  {
    forall t | 0 <= t < m ensures DftTerm(FIELD, w, z, m - k)(t) == Conj(DftTerm(FIELD, w, Conjugates(z), k)(t)) {
      MirrorTerm(w, m, z, k, t);
    }
    ConjSum(m, DftTerm(FIELD, w, Conjugates(z), k), DftTerm(FIELD, w, z, m - k));
  }

  lemma ConjTwice(z: Complex)
    ensures Conj(Conj(z)) == z
  {
  }

  lemma MirrorExponent(m: nat, k: nat, t: nat)
    requires k <= m
    ensures m * t == t * m && t * (m - k) == t * m - t * k && 0 <= t * k <= t * m
  {
    MulMono(t, k, m);
    MulMono(t, 0, k);
  }

  lemma MirrorTerm(w: Complex, m: nat, z: int -> Complex, k: nat, t: nat)
    requires Unit(w) && Pow(FIELD, w, m) == ONE && k <= m
    ensures DftTerm(FIELD, w, z, m - k)(t) == Conj(DftTerm(FIELD, w, Conjugates(z), k)(t))
  {
    hide Pow, Mul, Conj, IsRing, Unit;
    ComplexIsRing();
    PowMul(FIELD, w, m, t);
    PowOne(FIELD, t);
    MirrorExponent(m, k, t);
    PowReflects(w, t * m, t * k);
    ConjMul(Conj(z(t)), Pow(FIELD, w, t * k));
    ConjTwice(z(t));
  }

  const I := Complex(0.0, 1.0)

  lemma MulI(z: Complex)
    ensures Mul(I, z) == Rot(true, z) && Mul(Neg(I), z) == Neg(Rot(true, z))
  {
  }

  ghost function Multiples(c: Complex, f: int -> Complex): int -> Complex {
    t => Mul(c, f(t))
  }

  /** e + c·o transforms into E + c·O. */
  lemma SplitSignal(w: Complex, m: nat, z: int -> Complex, e: int -> Complex, o: int -> Complex, c: Complex, k: nat)
    requires forall t :: 0 <= t < m ==> z(t) == Add(e(t), Mul(c, o(t)))
    ensures Transform(FIELD, w, m, z, k) == Add(Transform(FIELD, w, m, e, k), Mul(c, Transform(FIELD, w, m, o, k)))
  {
    ComplexIsRing();
    hide Mul, Add, IsRing, Pow;
    var scaled := Multiples(c, DftTerm(FIELD, w, o, k));
    forall t | 0 <= t < m ensures DftTerm(FIELD, w, z, k)(t) == Add(DftTerm(FIELD, w, e, k)(t), scaled(t)) {
      var p := Pow(FIELD, w, t * k);
      assert z(t) == Add(e(t), Mul(c, o(t)));
      SumTimes(e(t), Mul(c, o(t)), p);
      MulIsAssociative(c, o(t), p);
    }
    SumScale(FIELD, m, c, DftTerm(FIELD, w, o, k), scaled);
    SumAdd(FIELD, m, DftTerm(FIELD, w, e, k), scaled, DftTerm(FIELD, w, z, k));
  }

  lemma SumTimes(a: Complex, b: Complex, p: Complex)
    ensures Mul(Add(a, b), p) == Add(Mul(a, p), Mul(b, p))
  {
    MulDistributes(p, a, b);
    assert Mul(Add(a, b), p) == Mul(p, Add(a, b)) && Mul(a, p) == Mul(p, a) && Mul(b, p) == Mul(p, b);
  }

  lemma PairedParts(x: int -> real)
    ensures forall t :: Paired(x)(t) == Add(Every2(x, 0)(t), Mul(I, Every2(x, 1)(t)))
    ensures forall t :: Conjugates(Paired(x))(t) == Add(Every2(x, 0)(t), Mul(Neg(I), Every2(x, 1)(t)))
  {
  }

  /** The transform of the points: E + iO in bin k, and the conjugate of E - iO in bin m - k. */
  lemma PointBins(w: Complex, m: nat, x: int -> real, k: nat)
    requires Unit(w) && Pow(FIELD, w, m) == ONE && k <= m
    ensures var E, O := Transform(FIELD, w, m, Every2(x, 0), k), Transform(FIELD, w, m, Every2(x, 1), k);
      (Transform(FIELD, w, m, Paired(x), k), Transform(FIELD, w, m, Paired(x), m - k)) == Sums(E, Rot(true, O))
  {
    hide Transform, Mul, Pow, Unit, Paired, Conjugates, Every2;
    var O := Transform(FIELD, w, m, Every2(x, 1), k);
    PairedParts(x);
    SplitSignal(w, m, Paired(x), Every2(x, 0), Every2(x, 1), I, k);
    SplitSignal(w, m, Conjugates(Paired(x)), Every2(x, 0), Every2(x, 1), Neg(I), k);
    MirrorBin(w, m, Paired(x), k);
    MulI(O);
  }

  /** Bin k of the reals is E + W^k·O. */
  lemma RealBin(W: Complex, m: nat, x: int -> real, k: nat)
    ensures Transform(FIELD, W, 2 * m, AsComplex(x), k) ==
            Add(Transform(FIELD, Pow(FIELD, W, 2), m, Every2(x, 0), k),
                Mul(Transform(FIELD, Pow(FIELD, W, 2), m, Every2(x, 1), k), Pow(FIELD, W, k)))
  {
    ComplexIsRing();
    var f, w := DftTerm(FIELD, W, AsComplex(x), k), Pow(FIELD, W, 2);
    var e, o := DftTerm(FIELD, w, Every2(x, 0), k), DftTerm(FIELD, w, Every2(x, 1), k);
    var turned := Multiples(Pow(FIELD, W, k), o);
    SumBlocks(FIELD, 2, m, f);
    forall t | 0 <= t < m ensures RowSums(FIELD, 2, Blocked(2, f))(t) == Add(e(t), turned(t)) {
      RowOfTwo(f, t);
      RealTerms(W, x, k, t);
      hide Mul, Pow;
    }
    hide Mul, Add, IsRing, Pow;
    SumScale(FIELD, m, Pow(FIELD, W, k), o, turned);
    SumAdd(FIELD, m, e, turned, RowSums(FIELD, 2, Blocked(2, f)));
    MulSwaps(Pow(FIELD, W, k), Sum(FIELD, m, o));
  }

  lemma MulSwaps(a: Complex, b: Complex)
    ensures Mul(a, b) == Mul(b, a)
  {
  }

  lemma RowOfTwo(f: int -> Complex, t: int)
    ensures RowSums(FIELD, 2, Blocked(2, f))(t) == Add(f(2 * t), f(1 + 2 * t))
  {
    var g := Row(Blocked(2, f), t);
    assert g(0) == f(2 * t) && g(1) == f(1 + 2 * t);
    assert Sum(FIELD, 0, g) == ZERO && Sum(FIELD, 1, g) == g(0) && Sum(FIELD, 2, g) == Add(g(0), g(1));
  }

  lemma TermExponents(t: nat, k: nat)
    ensures t * k >= 0 && 2 * t * k == 2 * (t * k) && (1 + 2 * t) * k == k + 2 * (t * k)
  {
  }

  lemma Reorder(v: Complex, p: Complex, q: Complex)
    ensures Mul(v, Mul(p, q)) == Mul(p, Mul(v, q))
  {
    hide Mul;
    MulIsAssociative(v, p, q);
    MulSwaps(v, p);
    MulIsAssociative(p, v, q);
  }

  lemma RealTerms(W: Complex, x: int -> real, k: nat, t: nat)
    ensures DftTerm(FIELD, W, AsComplex(x), k)(2 * t) == DftTerm(FIELD, Pow(FIELD, W, 2), Every2(x, 0), k)(t)
    ensures DftTerm(FIELD, W, AsComplex(x), k)(1 + 2 * t) ==
            Mul(Pow(FIELD, W, k), DftTerm(FIELD, Pow(FIELD, W, 2), Every2(x, 1), k)(t))
  {
    hide Pow, Mul, IsRing;
    ComplexIsRing();
    TermExponents(t, k);
    PowMul(FIELD, W, 2, t * k);
    PowAdd(FIELD, W, k, 2 * (t * k));
    Reorder(Complex(x(2 * t + 1), 0.0), Pow(FIELD, W, k), Pow(FIELD, W, 2 * (t * k)));
  }

  /** Every other real is its own conjugate. */
  lemma RealMirror(w: Complex, m: nat, x: int -> real, e: int, k: nat)
    requires Unit(w) && Pow(FIELD, w, m) == ONE && k <= m
    ensures Transform(FIELD, w, m, Every2(x, e), m - k) == Conj(Transform(FIELD, w, m, Every2(x, e), k))
  {
    hide Transform, Pow, Unit;
    MirrorBin(w, m, Every2(x, e), k);
    TransformExt(FIELD, w, m, Conjugates(Every2(x, e)), Every2(x, e), k);
  }

  lemma HalfTurn(W: Complex, m: nat, k: nat)
    requires Unit(W) && Pow(FIELD, W, m) == Neg(ONE) && k <= m
    ensures Pow(FIELD, W, m - k) == Neg(Conj(Pow(FIELD, W, k)))
  {
    hide Pow, Mul, Conj, IsRing, Unit;
    ComplexIsRing();
    var p, q := Pow(FIELD, W, m - k), Pow(FIELD, W, k);
    PowAdd(FIELD, W, m - k, k);
    UnitPow(W, k);
    UnitConj(q);
    assert Mul(p, q) == Neg(ONE);
    NegOne(p, q, Conj(q));
  }

  lemma NegOne(p: Complex, q: Complex, r: Complex)
    requires Mul(p, q) == Neg(ONE) && Mul(q, r) == ONE
    ensures p == Neg(r)
  {
    MulIsAssociative(p, q, r);
    OneMul(p);
    assert Mul(Neg(ONE), r) == Neg(r);
    hide Mul, Neg;
  }

  lemma MirrorSum(E: Complex, O: Complex, p: Complex)
    ensures Add(Conj(E), Mul(Conj(O), Neg(Conj(p)))) == Conj(Sub(E, Mul(O, p)))
  {
  }

  /** With W a root of unity of order 2m (W^m = -1), W² the root of the points' transform, and
      W^k the twiddle: untangle makes bins k and m - k of the transform of the 2m reals. */
  lemma UntangledIsTransform(W: Complex, m: nat, x: int -> real, k: nat)
    requires Unit(W) && Pow(FIELD, W, m) == Neg(ONE) && k <= m
    ensures var w, z, r := Pow(FIELD, W, 2), Paired(x), AsComplex(x);
      Untangled(0.5)(Transform(FIELD, w, m, z, k), Transform(FIELD, w, m, z, m - k), Pow(FIELD, W, k)) ==
      (Transform(FIELD, W, 2 * m, r, k), Transform(FIELD, W, 2 * m, r, m - k))
  {
    hide Transform, Pow, Mul, Unit, Even, Odd, Turned, Rot, Scale, Add, Sub, Neg, Conj;
    var w := Pow(FIELD, W, 2);
    SquareRoot(W, m);
    UnitPow(W, 2);
    var E, O := Transform(FIELD, w, m, Every2(x, 0), k), Transform(FIELD, w, m, Every2(x, 1), k);
    PointBins(w, m, x, k);
    PartsOfSums(0.5, E, Rot(true, O));
    ScaleOne(E);
    OddOfSums(E, O);
    RealBin(W, m, x, k);
    RealBin(W, m, x, m - k);
    RealMirror(w, m, x, 0, k);
    RealMirror(w, m, x, 1, k);
    HalfTurn(W, m, k);
    MirrorSum(E, O, Pow(FIELD, W, k));
  }

  lemma NegOneSquared()
    ensures Mul(Neg(ONE), Neg(ONE)) == ONE
  {
  }

  lemma SquareRoot(W: Complex, m: nat)
    requires Pow(FIELD, W, m) == Neg(ONE)
    ensures Pow(FIELD, Pow(FIELD, W, 2), m) == ONE
  {
    ComplexIsRing();
    hide Pow, IsRing, Mul;
    PowMul(FIELD, W, 2, m);
    PowAdd(FIELD, W, m, m);
    assert 2 * m == m + m;
    NegOneSquared();
  }
}
