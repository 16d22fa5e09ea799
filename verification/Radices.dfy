/** The butterfly of every kernel radix, 2 to 32, is the transform of its length in exact
    arithmetic, given what its stored constants mean. */
module Radices {
  import opened Rings
  import opened Dft
  import opened Scalar
  import opened Complexes
  import opened KernelDft
  import opened Butterflies
  import opened Circle
  import opened Composite

  /** The scalar butterfly as a function of its inputs and the output's number. */
  function Basic(k: Consts, inverse: bool, r: int): (seq<Complex>, int) -> Complex {
    (xs, j) => if r in {2, 3, 4, 5, 8} && |xs| == r && 0 <= j < r then Bfly(Exact(k, inverse), r, xs)[j] else ZERO
  }

  lemma Basic2At(k: Consts, inverse: bool, xs: seq<Complex>, j: int)
    requires |xs| == 2 && 0 <= j < 2
    ensures Basic(k, inverse, 2)(xs, j) == Transform(FIELD, Complex(-1.0, 0.0), 2, Mem(FIELD, xs), j)
  {
    Bfly2IsDft(k, inverse, xs, j);
    hide Transform, Exact, Bfly2;
    assert Bfly(Exact(k, inverse), 2, xs) == Bfly2(Exact(k, inverse), xs[0], xs[1]);
  }

  lemma Basic2(k: Consts, inverse: bool)
    ensures IsButterfly(FIELD, Complex(-1.0, 0.0), 2, Basic(k, inverse, 2))
  {
    hide Basic, Transform;
    forall xs: seq<Complex>, j | |xs| == 2 && 0 <= j < 2
      ensures Basic(k, inverse, 2)(xs, j) == Transform(FIELD, Complex(-1.0, 0.0), 2, Mem(FIELD, xs), j)
    {
      Basic2At(k, inverse, xs, j);
    }
  }

  lemma Basic3At(k: Consts, inverse: bool, v: Complex, xs: seq<Complex>, j: int)
    requires |xs| == 3 && 0 <= j < 3 && PowerTable(v, 3, Roots3(inverse, k))
    ensures Basic(k, inverse, 3)(xs, j) == Transform(FIELD, v, 3, Mem(FIELD, xs), j)
  {
    Bfly3IsDft(k, inverse, v, xs, j);
    hide Transform, Exact, Bfly3;
    assert Bfly(Exact(k, inverse), 3, xs) == Bfly3(Exact(k, inverse), xs[0], xs[1], xs[2]);
  }

  lemma Basic3(k: Consts, inverse: bool, v: Complex)
    requires PowerTable(v, 3, Roots3(inverse, k))
    ensures IsButterfly(FIELD, v, 3, Basic(k, inverse, 3))
  {
    hide Basic, Transform, PowerTable;
    forall xs: seq<Complex>, j | |xs| == 3 && 0 <= j < 3
      ensures Basic(k, inverse, 3)(xs, j) == Transform(FIELD, v, 3, Mem(FIELD, xs), j)
    {
      Basic3At(k, inverse, v, xs, j);
    }
  }

  lemma Basic4At(k: Consts, inverse: bool, xs: seq<Complex>, j: int)
    requires |xs| == 4 && 0 <= j < 4
    ensures Basic(k, inverse, 4)(xs, j) == Transform(FIELD, Quarter(inverse), 4, Mem(FIELD, xs), j)
  {
    Bfly4IsDft(k, inverse, xs, j);
    hide Transform, Exact, Bfly4;
    assert Bfly(Exact(k, inverse), 4, xs) == Bfly4(Exact(k, inverse), xs[0], xs[1], xs[2], xs[3]);
  }

  lemma Basic4(k: Consts, inverse: bool)
    ensures IsButterfly(FIELD, Quarter(inverse), 4, Basic(k, inverse, 4))
  {
    hide Basic, Transform;
    forall xs: seq<Complex>, j | |xs| == 4 && 0 <= j < 4
      ensures Basic(k, inverse, 4)(xs, j) == Transform(FIELD, Quarter(inverse), 4, Mem(FIELD, xs), j)
    {
      Basic4At(k, inverse, xs, j);
    }
  }

  lemma Basic5At(k: Consts, inverse: bool, v: Complex, xs: seq<Complex>, j: int)
    requires |xs| == 5 && 0 <= j < 5 && PowerTable(v, 5, Roots5(inverse, k))
    ensures Basic(k, inverse, 5)(xs, j) == Transform(FIELD, v, 5, Mem(FIELD, xs), j)
  {
    Bfly5IsDft(k, inverse, v, xs, j);
    hide Transform, Exact, Bfly5;
    assert Bfly(Exact(k, inverse), 5, xs) == Bfly5(Exact(k, inverse), xs[0], xs[1], xs[2], xs[3], xs[4]);
  }

  lemma Basic5(k: Consts, inverse: bool, v: Complex)
    requires PowerTable(v, 5, Roots5(inverse, k))
    ensures IsButterfly(FIELD, v, 5, Basic(k, inverse, 5))
  {
    hide Basic, Transform, PowerTable;
    forall xs: seq<Complex>, j | |xs| == 5 && 0 <= j < 5
      ensures Basic(k, inverse, 5)(xs, j) == Transform(FIELD, v, 5, Mem(FIELD, xs), j)
    {
      Basic5At(k, inverse, v, xs, j);
    }
  }

  // ------------------------------------------------------------ radix 8

  /** z times the e-th power of (1 + s·i)/√2, with the sums done before the one product. */
  function Turn8(k: Consts, inverse: bool): (int, Complex) -> Complex {
    (e, z) =>
      if e == 0 then z
      else if e == 1 then Scale(k.h, Add(z, Rot(inverse, z)))
      else if e == 2 then Rot(inverse, z)
      else Scale(k.h, Sub(Rot(inverse, z), z))
  }

  lemma Turn8IsPower(k: Consts, inverse: bool, e: int, z: Complex)
    requires k.h * k.h == 0.5 && 0 <= e < 4
    ensures Turn8(k, inverse)(e, z) == Mul(z, Pow(FIELD, Root(inverse, k.h, k.h), e))
  {
    hide Pow;
    EighthPowers(k, inverse, e);
    if e == 0 {
      MulByUnits(inverse, z);
    } else if e == 1 {
      MulByRoot(inverse, z, k.h, k.h);
      ScaleRot(inverse, k.h, z);
      ScaleSum(k.h, z, Rot(inverse, z));
    } else if e == 2 {
      MulByUnits(inverse, z);
    } else {
      MulByRoot(inverse, z, -k.h, k.h);
      ScaleRot(inverse, k.h, z);
      ScaleNeg(k.h, z);
      ScaleSum(k.h, Rot(inverse, z), z);
    }
  }

  lemma ScaleRot(inverse: bool, c: real, z: Complex)
    ensures Rot(inverse, Scale(c, z)) == Scale(c, Rot(inverse, z))
  {
    assert c * -z.re == -(c * z.re) && c * -z.im == -(c * z.im);
  }

  /** The cosines of an eighth of a turn. */
  function Cosines8(k: Consts): seq<real> {
    [1.0, k.h, 0.0]
  }

  lemma EighthPowers(k: Consts, inverse: bool, e: nat)
    requires k.h * k.h == 0.5
    ensures Cosines(Cosines8(k), 2) && Root(inverse, k.h, k.h) == CircleRoot(inverse, Cosines8(k), 2)
    ensures e <= 6 ==> Pow(FIELD, Root(inverse, k.h, k.h), e) == TrigRoot(inverse, Cosines8(k), 2, e)
    ensures Pow(FIELD, Root(inverse, k.h, k.h), 8) == FIELD.one
  {
    assert AngleAdds(Cosines8(k), 2, 0) && AngleAdds(Cosines8(k), 2, 1);
    hide Pow, Root;
    if e <= 6 {
      CirclePowers(inverse, Cosines8(k), 2, e);
    }
    CircleCloses(inverse, Cosines8(k), 2);
  }

  lemma Turn8Turns(k: Consts, inverse: bool)
    requires k.h * k.h == 0.5
    ensures TurnsBy(FIELD, Root(inverse, k.h, k.h), 4, 2, Turn8(k, inverse))
  {
    hide Turn8, Root, Pow, Mul;
    forall n2, k1, z | 0 <= n2 < 2 && 0 <= k1 < 4
      ensures Turn8(k, inverse)(n2 * k1, z) == FIELD.mul(z, Pow(FIELD, Root(inverse, k.h, k.h), n2 * k1))
    {
      assert n2 * k1 == 0 || n2 * k1 == k1;
      Turn8IsPower(k, inverse, n2 * k1, z);
    }
  }

  /** The odd half of radix 8 is a radix-4 butterfly, its outputs turned but for √2/2. */
  lemma Odd8IsTurned(k: Consts, inverse: bool, x1: Complex, x3: Complex, x5: Complex, x7: Complex)
    ensures var O, d := Exact(k, inverse), Bfly4(Exact(k, inverse), x1, x3, x5, x7);
      Odd8(O, x1, x3, x5, x7) ==
      [d[0], Add(d[1], Rot(inverse, d[1])), Rot(inverse, d[2]), Sub(Rot(inverse, d[3]), d[3])]
  {
    hide Add, Sub, Rot;
  }

  lemma Even8IsBfly4(k: Consts, inverse: bool, x0: Complex, x2: Complex, x4: Complex, x6: Complex)
    ensures Even8(Exact(k, inverse), x0, x2, x4, x6) == Bfly4(Exact(k, inverse), x0, x2, x4, x6)
  {
    hide Add, Sub, Rot;
  }

  /** Outputs k1 and k1 + 4 combine output k1 of the even half with the turned odd half's. */
  lemma Bfly8Combines(k: Consts, inverse: bool, x: seq<Complex>, k1: int)
    requires |x| == 8 && 0 <= k1 < 4
    ensures var O := Exact(k, inverse);
      var e, d := Bfly4(O, x[0], x[2], x[4], x[6]), Bfly4(O, x[1], x[3], x[5], x[7]);
      && Bfly8(O, x)[k1] == Add(e[k1], Turn8(k, inverse)(k1, d[k1]))
      && Bfly8(O, x)[k1 + 4] == Sub(e[k1], Turn8(k, inverse)(k1, d[k1]))
  {
    hide Add, Sub, Rot, Scale, Bfly4, Odd8, Even8;
    Odd8IsTurned(k, inverse, x[1], x[3], x[5], x[7]);
    Even8IsBfly4(k, inverse, x[0], x[2], x[4], x[6]);
    if k1 == 0 {
    } else if k1 == 1 {
    } else if k1 == 2 {
    } else {
    }
  }

  lemma Basic2Of(k: Consts, inverse: bool, v: seq<Complex>, j: int)
    requires |v| == 2 && 0 <= j < 2
    ensures Basic(k, inverse, 2)(v, j) == [Add(v[0], v[1]), Sub(v[0], v[1])][j]
  {
    hide Add, Sub;
    assert Bfly(Exact(k, inverse), 2, v) == [Add(v[0], v[1]), Sub(v[0], v[1])];
  }

  lemma Basic4Of(k: Consts, inverse: bool, v: seq<Complex>, j: int)
    requires |v| == 4 && 0 <= j < 4
    ensures Basic(k, inverse, 4)(v, j) == Bfly4(Exact(k, inverse), v[0], v[1], v[2], v[3])[j]
  {
    hide Exact, Bfly4;
    assert Bfly(Exact(k, inverse), 4, v) == Bfly4(Exact(k, inverse), v[0], v[1], v[2], v[3]);
  }

  lemma Basic8Of(k: Consts, inverse: bool, v: seq<Complex>, j: int)
    requires |v| == 8 && 0 <= j < 8
    ensures Basic(k, inverse, 8)(v, j) == Bfly8(Exact(k, inverse), v)[j]
  {
    hide Exact, Bfly8;
    assert Bfly(Exact(k, inverse), 8, v) == Bfly8(Exact(k, inverse), v);
  }

  lemma Combs8(x: seq<Complex>)
    requires |x| == 8
    ensures Comb(x, 4, 2, 0) == [x[0], x[2], x[4], x[6]] && Comb(x, 4, 2, 1) == [x[1], x[3], x[5], x[7]]
  {
  }

  lemma Column8(k: Consts, inverse: bool, x: seq<Complex>, k1: int)
    requires |x| == 8 && 0 <= k1 < 4
    ensures var O := Exact(k, inverse);
      SplitColumn(Basic(k, inverse, 4), Turn8(k, inverse), 4, 2, x, k1) ==
      [Bfly4(O, x[0], x[2], x[4], x[6])[k1], Turn8(k, inverse)(k1, Bfly4(O, x[1], x[3], x[5], x[7])[k1])]
  {
    Combs8(x);
    Basic4Of(k, inverse, Comb(x, 4, 2, 0), k1);
    Basic4Of(k, inverse, Comb(x, 4, 2, 1), k1);
    hide Exact, Bfly4, Add, Comb, Basic, Scale, Rot;
    assert 0 * k1 == 0 && 1 * k1 == k1;
  }

  lemma Bfly8IsSplit(k: Consts, inverse: bool, x: seq<Complex>, k1: int, k2: int)
    requires |x| == 8 && 0 <= k1 < 4 && 0 <= k2 < 2
    ensures Bfly8(Exact(k, inverse), x)[k1 + 4 * k2] ==
            SplitOutput(Basic(k, inverse, 4), Basic(k, inverse, 2), Turn8(k, inverse), 4, 2, x, k1, k2)
  {
    Bfly8Combines(k, inverse, x, k1);
    Column8(k, inverse, x, k1);
    hide Exact, Bfly4, Bfly8, Add, Sub, Basic, Turn8, SplitColumn;
    Basic2Of(k, inverse, SplitColumn(Basic(k, inverse, 4), Turn8(k, inverse), 4, 2, x, k1), k2);
  }

  lemma Eighths(k: Consts, inverse: bool)
    requires k.h * k.h == 0.5
    ensures var w := Root(inverse, k.h, k.h);
      Pow(FIELD, w, 2) == Quarter(inverse) && Pow(FIELD, w, 4) == Complex(-1.0, 0.0) && Pow(FIELD, w, 8) == FIELD.one
  {
    EighthPowers(k, inverse, 2);
    EighthPowers(k, inverse, 4);
    hide Pow;
  }

  /** Radix 8 is the split of its inputs into even and odd: 4 points, then 2. */
  function Split8(k: Consts, inverse: bool): (seq<Complex>, int) -> Complex {
    SplitBody(ZERO, Basic(k, inverse, 4), Basic(k, inverse, 2), Turn8(k, inverse), 4, 2)
  }

  lemma Basic8IsSplit(k: Consts, inverse: bool, xs: seq<Complex>, j: int)
    requires |xs| == 8 && 0 <= j < 8
    ensures Basic(k, inverse, 8)(xs, j) == Split8(k, inverse)(xs, j)
  {
    hide SplitOutput, Bfly8, Basic, Exact, Turn8;
    Bfly8IsSplit(k, inverse, xs, j % 4, j / 4);
    Basic8Of(k, inverse, xs, j);
    assert j == j % 4 + 4 * (j / 4);
  }

  lemma Split8IsDft(k: Consts, inverse: bool)
    requires k.h * k.h == 0.5
    ensures IsButterfly(FIELD, Root(inverse, k.h, k.h), 8, Split8(k, inverse))
  {
    ComplexIsRing();
    Eighths(k, inverse);
    Basic2(k, inverse);
    Basic4(k, inverse);
    Turn8Turns(k, inverse);
    hide IsRing, IsButterfly, TurnsBy, Turn8, Pow, Root, Basic, SplitBody;
    SplitBodyIsDft(FIELD, Root(inverse, k.h, k.h), Basic(k, inverse, 4), Basic(k, inverse, 2), Turn8(k, inverse), 4, 2);
  }

  lemma Basic8(k: Consts, inverse: bool)
    requires k.h * k.h == 0.5
    ensures IsButterfly(FIELD, Root(inverse, k.h, k.h), 8, Basic(k, inverse, 8))
  {
    Split8IsDft(k, inverse);
    hide Basic, Transform, Root, Split8;
    forall xs: seq<Complex>, j | |xs| == 8 && 0 <= j < 8
      ensures Basic(k, inverse, 8)(xs, j) == Transform(FIELD, Root(inverse, k.h, k.h), 8, Mem(FIELD, xs), j)
    {
      Basic8IsSplit(k, inverse, xs, j);
    }
  }
}
