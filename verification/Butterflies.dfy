/** In exact arithmetic the scalar butterflies of radix 2, 3, 4, 5 and 8 are the transforms of
    their lengths, given that their constants are the parts of a root's powers. */
module Butterflies {
  import opened Rings
  import opened Dft
  import opened Scalar
  import opened Complexes
  import opened KernelDft

  /** W holds v^0, …, v^(r-1), and v^r is 1. */
  ghost predicate PowerTable(v: Complex, r: int, W: seq<Complex>) {
    && |W| == r > 0 && W[0] == ONE && Mul(v, W[r - 1]) == ONE
    && forall e :: 0 < e < r ==> W[e] == Mul(v, W[e - 1])
  }

  lemma {:induction false} TablePower(v: Complex, r: int, W: seq<Complex>, e: int)
    requires PowerTable(v, r, W) && 0 <= e <= r
    ensures Pow(FIELD, v, e) == if e == r then ONE else W[e]
  {
    if e != 0 {
      TablePower(v, r, W, e - 1);
    }
  }

  /** Term t of bin j: input t times the root's power. */
  ghost function Part(W: seq<Complex>, x: seq<Complex>, j: int, t: int): Complex
    requires |W| == |x| && 0 <= t < |x| && 0 <= j
  {
    assert t * j >= 0;
    Mul(x[t], W[(t * j) % |x|])
  }

  ghost function PartSum(W: seq<Complex>, x: seq<Complex>, j: int, n: int): Complex
    requires |W| == |x| && 0 <= n <= |x| && 0 <= j
  {
    if n == 0 then ZERO else Add(PartSum(W, x, j, n - 1), Part(W, x, j, n - 1))
  }

  lemma PartIsTerm(v: Complex, r: int, W: seq<Complex>, x: seq<Complex>, j: int, t: int)
    requires PowerTable(v, r, W) && |x| == r && 0 <= j && 0 <= t < r
    ensures DftTerm(FIELD, v, Mem(FIELD, x), j)(t) == Part(W, x, j, t)
  {
    ComplexIsRing();
    assert t * j >= 0;
    TablePower(v, r, W, r);
    PowReduce(FIELD, v, r, t * j);
    TablePower(v, r, W, (t * j) % r);
    hide PowerTable, Mul, Pow, IsRing;
  }

  lemma {:induction false} PartSumIsSum(v: Complex, r: int, W: seq<Complex>, x: seq<Complex>, j: int, n: int)
    requires PowerTable(v, r, W) && |x| == r && 0 <= j && 0 <= n <= r
    ensures Sum(FIELD, n, DftTerm(FIELD, v, Mem(FIELD, x), j)) == PartSum(W, x, j, n)
  {
    if n != 0 {
      PartSumIsSum(v, r, W, x, j, n - 1);
      PartIsTerm(v, r, W, x, j, n - 1);
      hide Part, PowerTable, Mem, DftTerm, Mul;
    }
  }

  // ------------------------------------------------------------ linearity

  lemma ScaleSum(c: real, a: Complex, b: Complex)
    ensures Scale(c, Add(a, b)) == Add(Scale(c, a), Scale(c, b))
    ensures Scale(c, Sub(a, b)) == Sub(Scale(c, a), Scale(c, b))
  {
    assert c * (a.re + b.re) == c * a.re + c * b.re && c * (a.im + b.im) == c * a.im + c * b.im;
    assert c * (a.re - b.re) == c * a.re - c * b.re && c * (a.im - b.im) == c * a.im - c * b.im;
  }

  lemma RotSum(inverse: bool, a: Complex, b: Complex)
    ensures Rot(inverse, Add(a, b)) == Add(Rot(inverse, a), Rot(inverse, b))
    ensures Rot(inverse, Sub(a, b)) == Sub(Rot(inverse, a), Rot(inverse, b))
  {
  }

  /** cos θ + s·i·sin θ, s the direction. */
  function Root(inverse: bool, c: real, s: real): Complex {
    Complex(c, if inverse then s else -s)
  }

  lemma MulByRoot(inverse: bool, x: Complex, c: real, s: real)
    ensures Mul(x, Root(inverse, c, s)) == Add(Scale(c, x), Rot(inverse, Scale(s, x)))
    ensures Mul(x, Root(inverse, c, -s)) == Sub(Scale(c, x), Rot(inverse, Scale(s, x)))
  {
    if inverse {
      assert x.im * -s == -(s * x.im) && x.re * -s == -(s * x.re);
    } else {
      assert -(-s) == s && x.im * -s == -(s * x.im) && x.re * -s == -(s * x.re);
    }
  }

  lemma MulByUnits(inverse: bool, x: Complex)
    ensures Mul(x, ONE) == x && Mul(x, Complex(-1.0, 0.0)) == Neg(x)
    ensures Mul(x, Root(inverse, 0.0, 1.0)) == Rot(inverse, x)
    ensures Mul(x, Root(inverse, 0.0, -1.0)) == Neg(Rot(inverse, x))
  {
    if inverse {
    } else {
    }
  }

  // ------------------------------------------------------------ radix 2

  lemma Sum2(W: seq<Complex>, x: seq<Complex>, j: int)
    requires |W| == |x| == 2 && 0 <= j
    ensures PartSum(W, x, j, 2) == Add(Part(W, x, j, 0), Part(W, x, j, 1))
  {
    hide Part;
    assert PartSum(W, x, j, 1) == Add(ZERO, Part(W, x, j, 0));
  }

  lemma PartSum2(inverse: bool, x: seq<Complex>, j: int)
    requires |x| == 2 && 0 <= j < 2
    ensures PartSum([ONE, Complex(-1.0, 0.0)], x, j, 2) == [Add(x[0], x[1]), Sub(x[0], x[1])][j]
  {
    Sum2([ONE, Complex(-1.0, 0.0)], x, j);
    MulByUnits(inverse, x[0]);
    MulByUnits(inverse, x[1]);
    hide Mul, Root, Rot, PartSum;
    if j == 0 {
    } else {
    }
  }

  lemma Bfly2IsDft(k: Consts, inverse: bool, x: seq<Complex>, j: int)
    requires |x| == 2 && 0 <= j < 2
    ensures Bfly2(Exact(k, inverse), x[0], x[1])[j] == Transform(FIELD, Complex(-1.0, 0.0), 2, Mem(FIELD, x), j)
  {
    var v := Complex(-1.0, 0.0);
    assert PowerTable(v, 2, [ONE, v]);
    PartSumIsSum(v, 2, [ONE, v], x, j, 2);
    PartSum2(inverse, x, j);
    hide Pow, Transform, Sum, DftTerm;
  }

  // ------------------------------------------------------------ radix 3

  function Roots3(inverse: bool, k: Consts): seq<Complex> {
    [ONE, Root(inverse, -k.half, k.sin120), Root(inverse, -k.half, -k.sin120)]
  }

  lemma Sum3(W: seq<Complex>, x: seq<Complex>, j: int)
    requires |W| == |x| == 3 && 0 <= j
    ensures PartSum(W, x, j, 3) == Add(Add(Part(W, x, j, 0), Part(W, x, j, 1)), Part(W, x, j, 2))
  {
    hide Part;
    assert PartSum(W, x, j, 1) == Add(ZERO, Part(W, x, j, 0));
    assert PartSum(W, x, j, 2) == Add(PartSum(W, x, j, 1), Part(W, x, j, 1));
  }

  /** The outputs as sums of halved and turned inputs. */
  ghost function Explicit3(k: Consts, inverse: bool, x0: Complex, x1: Complex, x2: Complex): seq<Complex> {
    var p1, p2 := Scale(-k.half, x1), Scale(-k.half, x2);
    var q1, q2 := Rot(inverse, Scale(k.sin120, x1)), Rot(inverse, Scale(k.sin120, x2));
    [Add(Add(x0, x1), x2), Add(Add(x0, Add(p1, q1)), Sub(p2, q2)), Add(Add(x0, Sub(p1, q1)), Add(p2, q2))]
  }

  lemma Combine3(x0: Complex, p1: Complex, p2: Complex, q1: Complex, q2: Complex)
    ensures Add(Sub(x0, Add(p1, p2)), Sub(q1, q2)) == Add(Add(x0, Add(Neg(p1), q1)), Sub(Neg(p2), q2))
    ensures Sub(Sub(x0, Add(p1, p2)), Sub(q1, q2)) == Add(Add(x0, Sub(Neg(p1), q1)), Add(Neg(p2), q2))
  {
  }

  lemma Bfly3Unfolds(k: Consts, inverse: bool, x0: Complex, x1: Complex, x2: Complex)
    ensures Bfly3(Exact(k, inverse), x0, x1, x2) ==
      var t1, t2 := Add(x1, x2), Sub(x1, x2);
      var ca, cb := Sub(x0, Scale(k.half, t1)), Rot(inverse, Scale(k.sin120, t2));
      [Add(x0, t1), Add(ca, cb), Sub(ca, cb)]
  {
    hide Add, Sub, Scale, Rot;
  }

  lemma Bfly3IsExplicit(k: Consts, inverse: bool, x0: Complex, x1: Complex, x2: Complex)
    ensures Bfly3(Exact(k, inverse), x0, x1, x2) == Explicit3(k, inverse, x0, x1, x2)
  {
    Bfly3Unfolds(k, inverse, x0, x1, x2);
    ScaleSum(k.half, x1, x2);
    ScaleSum(k.sin120, x1, x2);
    var q1, q2 := Scale(k.sin120, x1), Scale(k.sin120, x2);
    RotSum(inverse, q1, q2);
    ScaleNeg(k.half, x1);
    ScaleNeg(k.half, x2);
    Combine3(x0, Scale(k.half, x1), Scale(k.half, x2), Rot(inverse, q1), Rot(inverse, q2));
    assert Add(x0, Add(x1, x2)) == Add(Add(x0, x1), x2);
    hide Scale, Rot, Exact, Add, Sub, Neg, Bfly3;
  }

  lemma ScaleNeg(c: real, x: Complex)
    ensures Scale(-c, x) == Neg(Scale(c, x))
  {
    assert -c * x.re == -(c * x.re) && -c * x.im == -(c * x.im);
  }

  lemma PartSum3(k: Consts, inverse: bool, x: seq<Complex>, j: int)
    requires |x| == 3 && 0 <= j < 3
    ensures PartSum(Roots3(inverse, k), x, j, 3) == Explicit3(k, inverse, x[0], x[1], x[2])[j]
  {
    hide Mul, Root, Scale, Rot, PartSum, Add, Sub;
    Sum3(Roots3(inverse, k), x, j);
    MulByUnits(inverse, x[0]);
    MulByUnits(inverse, x[1]);
    MulByUnits(inverse, x[2]);
    MulByRoot(inverse, x[1], -k.half, k.sin120);
    MulByRoot(inverse, x[2], -k.half, k.sin120);
    if j == 0 {
    } else if j == 1 {
    } else {
    }
  }

  lemma Bfly3IsDft(k: Consts, inverse: bool, v: Complex, x: seq<Complex>, j: int)
    requires PowerTable(v, 3, Roots3(inverse, k)) && |x| == 3 && 0 <= j < 3
    ensures Bfly3(Exact(k, inverse), x[0], x[1], x[2])[j] == Transform(FIELD, v, 3, Mem(FIELD, x), j)
  {
    PartSumIsSum(v, 3, Roots3(inverse, k), x, j, 3);
    PartSum3(k, inverse, x, j);
    Bfly3IsExplicit(k, inverse, x[0], x[1], x[2]);
  }

  /** 1/2 and √3/2 are the parts of a third root of unity. */
  lemma ThirdRoot(k: Consts, inverse: bool)
    requires k.half + k.half == 1.0 && k.sin120 * k.sin120 + k.half * k.half == 1.0
    ensures PowerTable(Root(inverse, -k.half, k.sin120), 3, Roots3(inverse, k))
  {
    var v, u := Root(inverse, -k.half, k.sin120), Root(inverse, -k.half, -k.sin120);
    var h, s := k.half, k.sin120;
    assert h == 0.5 && s * s == 0.75;
    assert Mul(v, v) == u;
    assert Mul(v, u) == ONE;
    assert Mul(v, ONE) == v;
  }

  // ------------------------------------------------------------ radix 4

  /** The forward root of four is -i, the inverse one i. */
  function Quarter(inverse: bool): Complex {
    Root(inverse, 0.0, 1.0)
  }

  function Roots4(inverse: bool): (w: seq<Complex>)
    ensures |w| == 4
  {
    [ONE, Root(inverse, 0.0, 1.0), Complex(-1.0, 0.0), Root(inverse, 0.0, -1.0)]
  }

  lemma Sum4(W: seq<Complex>, x: seq<Complex>, j: int)
    requires |W| == |x| == 4 && 0 <= j
    ensures PartSum(W, x, j, 4) == Add(Add(Part(W, x, j, 0), Part(W, x, j, 1)), Add(Part(W, x, j, 2), Part(W, x, j, 3)))
  {
    hide Part;
    assert PartSum(W, x, j, 1) == Add(ZERO, Part(W, x, j, 0));
    assert PartSum(W, x, j, 2) == Add(PartSum(W, x, j, 1), Part(W, x, j, 1));
    assert PartSum(W, x, j, 3) == Add(PartSum(W, x, j, 2), Part(W, x, j, 2));
  }

  ghost function Explicit4(inverse: bool, x0: Complex, x1: Complex, x2: Complex, x3: Complex): seq<Complex> {
    var r1, r3 := Rot(inverse, x1), Rot(inverse, x3);
    [Add(Add(x0, x1), Add(x2, x3)), Add(Add(x0, r1), Add(Neg(x2), Neg(r3))),
     Add(Add(x0, Neg(x1)), Add(x2, Neg(x3))), Add(Add(x0, Neg(r1)), Add(Neg(x2), r3))]
  }

  lemma Bfly4Unfolds(k: Consts, inverse: bool, x0: Complex, x1: Complex, x2: Complex, x3: Complex)
    ensures Bfly4(Exact(k, inverse), x0, x1, x2, x3) ==
      var t2, t1, t3, t4 := Add(x0, x2), Sub(x0, x2), Add(x1, x3), Rot(inverse, Sub(x1, x3));
      [Add(t2, t3), Add(t1, t4), Sub(t2, t3), Sub(t1, t4)]
  {
    hide Add, Sub, Rot;
  }

  lemma Bfly4IsExplicit(k: Consts, inverse: bool, x0: Complex, x1: Complex, x2: Complex, x3: Complex)
    ensures Bfly4(Exact(k, inverse), x0, x1, x2, x3) == Explicit4(inverse, x0, x1, x2, x3)
  {
    Bfly4Unfolds(k, inverse, x0, x1, x2, x3);
    RotSum(inverse, x1, x3);
    hide Rot, Exact, Bfly4;
  }

  /** z times the e-th power of the root of four. */
  ghost function Turned4(inverse: bool, e: int, z: Complex): Complex {
    if e == 0 then z else if e == 1 then Rot(inverse, z) else if e == 2 then Neg(z) else Neg(Rot(inverse, z))
  }

  lemma Part4(inverse: bool, x: seq<Complex>, j: int, t: int)
    requires |x| == 4 && 0 <= j < 4 && 0 <= t < 4
    ensures Part(Roots4(inverse), x, j, t) == Turned4(inverse, TurnOf4(j, t), x[t])
  {
    MulByUnits(inverse, x[t]);
    hide Mul, Root, Neg, Rot;
    assert t * j == (if j == 0 then 0 else if j == 1 then t else if j == 2 then 2 * t else 3 * t);
  }

  ghost function TurnOf4(j: int, t: int): (e: int)
    requires 0 <= j < 4 && 0 <= t < 4
    ensures 0 <= e < 4
  {
    if j == 0 then 0 else if j == 1 then t else if j == 2 then 2 * t % 4 else 3 * t % 4
  }

  lemma PartSum4(inverse: bool, x: seq<Complex>, j: int)
    requires |x| == 4 && 0 <= j < 4
    ensures PartSum(Roots4(inverse), x, j, 4) == Explicit4(inverse, x[0], x[1], x[2], x[3])[j]
  {
    hide Roots4, Add, Neg, Rot, PartSum, Part, Turned4, TurnOf4, Explicit4;
    Sum4(Roots4(inverse), x, j);
    Part4(inverse, x, j, 0);
    Part4(inverse, x, j, 1);
    Part4(inverse, x, j, 2);
    Part4(inverse, x, j, 3);
    TurnsAre(inverse, x[0], x[1], x[2], x[3], j);
  }

  lemma TurnsAre(inverse: bool, x0: Complex, x1: Complex, x2: Complex, x3: Complex, j: int)
    requires 0 <= j < 4
    ensures Add(Add(Turned4(inverse, TurnOf4(j, 0), x0), Turned4(inverse, TurnOf4(j, 1), x1)),
                Add(Turned4(inverse, TurnOf4(j, 2), x2), Turned4(inverse, TurnOf4(j, 3), x3))) ==
            Explicit4(inverse, x0, x1, x2, x3)[j]
  {
    hide Add, Neg, Rot;
    if j == 0 {
    } else if j == 1 {
    } else if j == 2 {
    } else {
    }
  }

  lemma Powers4(inverse: bool)
    ensures PowerTable(Quarter(inverse), 4, Roots4(inverse))
  {
    if inverse {
    } else {
    }
  }

  lemma Bfly4IsDft(k: Consts, inverse: bool, x: seq<Complex>, j: int)
    requires |x| == 4 && 0 <= j < 4
    ensures Bfly4(Exact(k, inverse), x[0], x[1], x[2], x[3])[j] ==
            Transform(FIELD, Quarter(inverse), 4, Mem(FIELD, x), j)
  {
    Powers4(inverse);
    PartSumIsSum(Quarter(inverse), 4, Roots4(inverse), x, j, 4);
    PartSum4(inverse, x, j);
    Bfly4IsExplicit(k, inverse, x[0], x[1], x[2], x[3]);
  }

  // ------------------------------------------------------------ radix 5

  function Roots5(inverse: bool, k: Consts): seq<Complex> {
    [ONE, Root(inverse, k.c51, k.s51), Root(inverse, k.c52, k.s52), Root(inverse, k.c52, -k.s52), Root(inverse, k.c51, -k.s51)]
  }

  lemma Sum5(W: seq<Complex>, x: seq<Complex>, j: int)
    requires |W| == |x| == 5 && 0 <= j
    ensures PartSum(W, x, j, 5) ==
      Add(Part(W, x, j, 0), Add(Add(Part(W, x, j, 1), Part(W, x, j, 4)), Add(Part(W, x, j, 2), Part(W, x, j, 3))))
  {
    hide Part;
    assert PartSum(W, x, j, 1) == Add(ZERO, Part(W, x, j, 0));
    assert PartSum(W, x, j, 2) == Add(PartSum(W, x, j, 1), Part(W, x, j, 1));
    assert PartSum(W, x, j, 3) == Add(PartSum(W, x, j, 2), Part(W, x, j, 2));
    assert PartSum(W, x, j, 4) == Add(PartSum(W, x, j, 3), Part(W, x, j, 3));
  }

  /** Input t times cos + s·i·sin of an angle: its two products. */
  datatype Turned = Turned(c1: Complex, c2: Complex, s1: Complex, s2: Complex)

  ghost function Turns(k: Consts, inverse: bool, x: Complex): Turned {
    Turned(Scale(k.c51, x), Scale(k.c52, x), Rot(inverse, Scale(k.s51, x)), Rot(inverse, Scale(k.s52, x)))
  }

  /** The outputs as sums of the inputs' products with the constants. */
  ghost function Explicit5(x0: Complex, x1: Complex, x2: Complex, x3: Complex, x4: Complex,
                           p: Turned, q: Turned, r: Turned, s: Turned): seq<Complex> {
    [Add(x0, Add(Add(x1, x4), Add(x2, x3))),
     Add(x0, Add(Add(Add(p.c1, p.s1), Sub(s.c1, s.s1)), Add(Add(q.c2, q.s2), Sub(r.c2, r.s2)))),
     Add(x0, Add(Add(Add(p.c2, p.s2), Sub(s.c2, s.s2)), Add(Sub(q.c1, q.s1), Add(r.c1, r.s1)))),
     Add(x0, Add(Add(Sub(p.c2, p.s2), Add(s.c2, s.s2)), Add(Add(q.c1, q.s1), Sub(r.c1, r.s1)))),
     Add(x0, Add(Add(Sub(p.c1, p.s1), Add(s.c1, s.s1)), Add(Sub(q.c2, q.s2), Add(r.c2, r.s2))))]
  }

  lemma Combine5(x0: Complex, x1: Complex, x2: Complex, x3: Complex, x4: Complex, p: Turned, q: Turned, r: Turned, s: Turned)
    ensures
      var r1 := Add(x0, Add(Add(p.c1, s.c1), Add(q.c2, r.c2)));
      var r2 := Add(x0, Add(Add(p.c2, s.c2), Add(q.c1, r.c1)));
      var i1 := Add(Sub(p.s1, s.s1), Sub(q.s2, r.s2));
      var i2 := Sub(Sub(p.s2, s.s2), Sub(q.s1, r.s1));
      [Add(Add(x0, Add(x1, x4)), Add(x2, x3)), Add(r1, i1), Add(r2, i2), Sub(r2, i2), Sub(r1, i1)] ==
      Explicit5(x0, x1, x2, x3, x4, p, q, r, s)
  {
  }

  lemma Bfly5Unfolds(k: Consts, inverse: bool, x0: Complex, x1: Complex, x2: Complex, x3: Complex, x4: Complex)
    ensures Bfly5(Exact(k, inverse), x0, x1, x2, x3, x4) ==
      var t1, t2 := Add(x1, x4), Sub(x1, x4);
      var t3, t4 := Add(x2, x3), Sub(x2, x3);
      var r1 := Add(x0, Add(Scale(k.c51, t1), Scale(k.c52, t3)));
      var r2 := Add(x0, Add(Scale(k.c52, t1), Scale(k.c51, t3)));
      var i1 := Rot(inverse, Add(Scale(k.s51, t2), Scale(k.s52, t4)));
      var i2 := Rot(inverse, Sub(Scale(k.s52, t2), Scale(k.s51, t4)));
      [Add(Add(x0, t1), t3), Add(r1, i1), Add(r2, i2), Sub(r2, i2), Sub(r1, i1)]
  {
    hide Add, Sub, Scale, Rot;
  }

  /** The turned difference of two scaled differences, by their products. */
  lemma Rotations(inverse: bool, c: real, d: real, a: Complex, b: Complex, e: Complex, f: Complex)
    ensures Rot(inverse, Add(Scale(c, Sub(a, b)), Scale(d, Sub(e, f)))) ==
      Add(Sub(Rot(inverse, Scale(c, a)), Rot(inverse, Scale(c, b))), Sub(Rot(inverse, Scale(d, e)), Rot(inverse, Scale(d, f))))
    ensures Rot(inverse, Sub(Scale(c, Sub(a, b)), Scale(d, Sub(e, f)))) ==
      Sub(Sub(Rot(inverse, Scale(c, a)), Rot(inverse, Scale(c, b))), Sub(Rot(inverse, Scale(d, e)), Rot(inverse, Scale(d, f))))
  {
    ScaleSum(c, a, b);
    ScaleSum(d, e, f);
    RotSum(inverse, Scale(c, a), Scale(c, b));
    RotSum(inverse, Scale(d, e), Scale(d, f));
    RotSum(inverse, Scale(c, Sub(a, b)), Scale(d, Sub(e, f)));
    hide Add, Sub, Scale, Rot;
  }

  lemma Bfly5IsExplicit(k: Consts, inverse: bool, x0: Complex, x1: Complex, x2: Complex, x3: Complex, x4: Complex)
    ensures Bfly5(Exact(k, inverse), x0, x1, x2, x3, x4) ==
      Explicit5(x0, x1, x2, x3, x4, Turns(k, inverse, x1), Turns(k, inverse, x2), Turns(k, inverse, x3), Turns(k, inverse, x4))
  {
    Bfly5Unfolds(k, inverse, x0, x1, x2, x3, x4);
    ScaleSum(k.c51, x1, x4);
    ScaleSum(k.c52, x2, x3);
    ScaleSum(k.c52, x1, x4);
    ScaleSum(k.c51, x2, x3);
    Rotations(inverse, k.s51, k.s52, x1, x4, x2, x3);
    Rotations(inverse, k.s52, k.s51, x1, x4, x2, x3);
    Combine5(x0, x1, x2, x3, x4, Turns(k, inverse, x1), Turns(k, inverse, x2), Turns(k, inverse, x3), Turns(k, inverse, x4));
    hide Scale, Rot, Exact, Add, Sub, Bfly5, Explicit5;
  }

  /** x times the e-th power of the root, by its products. */
  ghost function TurnedBy(x: Complex, z: Turned, e: int): Complex {
    if e == 0 then x
    else if e == 1 then Add(z.c1, z.s1)
    else if e == 2 then Add(z.c2, z.s2)
    else if e == 3 then Sub(z.c2, z.s2)
    else Sub(z.c1, z.s1)
  }

  lemma Part5(k: Consts, inverse: bool, x: seq<Complex>, j: int, t: int, e: int)
    requires |x| == 5 && 0 <= j && 0 <= t < 5 && t * j >= 0 && e == (t * j) % 5
    ensures Part(Roots5(inverse, k), x, j, t) == TurnedBy(x[t], Turns(k, inverse, x[t]), e)
  {
    MulByUnits(inverse, x[t]);
    MulByRoot(inverse, x[t], k.c51, k.s51);
    MulByRoot(inverse, x[t], k.c52, k.s52);
    hide Mul, Root, Scale, Rot, Add, Sub;
  }

  lemma PartSum5By(k: Consts, inverse: bool, x: seq<Complex>, j: int, e1: int, e2: int, e3: int, e4: int)
    requires |x| == 5 && 0 <= j && e1 == (1 * j) % 5 && e2 == (2 * j) % 5 && e3 == (3 * j) % 5 && e4 == (4 * j) % 5
    ensures PartSum(Roots5(inverse, k), x, j, 5) ==
      Add(x[0], Add(Add(TurnedBy(x[1], Turns(k, inverse, x[1]), e1), TurnedBy(x[4], Turns(k, inverse, x[4]), e4)),
                    Add(TurnedBy(x[2], Turns(k, inverse, x[2]), e2), TurnedBy(x[3], Turns(k, inverse, x[3]), e3))))
  {
    Sum5(Roots5(inverse, k), x, j);
    assert 0 * j == 0;
    Part5(k, inverse, x, j, 0, 0);
    Part5(k, inverse, x, j, 1, e1);
    Part5(k, inverse, x, j, 2, e2);
    Part5(k, inverse, x, j, 3, e3);
    Part5(k, inverse, x, j, 4, e4);
    hide Part, PartSum, Roots5, Turns, Add, Sub;
  }

  lemma PartSum5(k: Consts, inverse: bool, x: seq<Complex>, j: int)
    requires |x| == 5 && 0 <= j < 5
    ensures PartSum(Roots5(inverse, k), x, j, 5) ==
      Explicit5(x[0], x[1], x[2], x[3], x[4],
                Turns(k, inverse, x[1]), Turns(k, inverse, x[2]), Turns(k, inverse, x[3]), Turns(k, inverse, x[4]))[j]
  {
    hide PartSum, Roots5, Turns, Add, Sub;
    if j == 0 {
      PartSum5By(k, inverse, x, j, 0, 0, 0, 0);
    } else if j == 1 {
      PartSum5By(k, inverse, x, j, 1, 2, 3, 4);
    } else if j == 2 {
      PartSum5By(k, inverse, x, j, 2, 4, 1, 3);
    } else if j == 3 {
      PartSum5By(k, inverse, x, j, 3, 1, 4, 2);
    } else {
      PartSum5By(k, inverse, x, j, 4, 3, 2, 1);
    }
  }

  lemma Bfly5IsDft(k: Consts, inverse: bool, v: Complex, x: seq<Complex>, j: int)
    requires PowerTable(v, 5, Roots5(inverse, k)) && |x| == 5 && 0 <= j < 5
    ensures Bfly5(Exact(k, inverse), x[0], x[1], x[2], x[3], x[4])[j] == Transform(FIELD, v, 5, Mem(FIELD, x), j)
  {
    PartSumIsSum(v, 5, Roots5(inverse, k), x, j, 5);
    PartSum5(k, inverse, x, j);
    Bfly5IsExplicit(k, inverse, x[0], x[1], x[2], x[3], x[4]);
    hide Explicit5, Turns, Exact, Bfly5, PartSum, Roots5;
  }
}
