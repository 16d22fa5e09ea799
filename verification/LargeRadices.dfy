/** The composite butterflies: radix 9, 16 and 32 split in two stages with internal twiddles
    between them, radix 10, 12, 15 and 20 in the prime-factor stages with none. */
module LargeRadices {
  import opened Rings
  import opened Complexes
  import opened KernelDft
  import opened Butterflies
  import opened Circle
  import opened Composite
  import opened PrimeFactor
  import opened Radices

  /** c·z + swap(z)·[-ss, ss], ss = s·sin θ with the direction's sign s. */
  function RotC(inverse: bool, c: real, sin: real, z: Complex): Complex {
    var ss := if inverse then sin else -sin;
    Add(Scale(c, z), Complex(-ss * z.im, ss * z.re))
  }

  lemma RotCTurns(inverse: bool, c: real, sin: real, z: Complex)
    ensures RotC(inverse, c, sin, z) == Mul(z, Root(inverse, c, sin))
  {
    if inverse {
      assert z.re * c == c * z.re && z.im * c == c * z.im && z.im * sin == sin * z.im && z.re * sin == sin * z.re;
      assert -sin * z.im == -(sin * z.im);
    } else {
      assert z.re * c == c * z.re && z.im * c == c * z.im && z.im * -sin == -(sin * z.im) && z.re * -sin == -(sin * z.re);
      assert -sin * z.re == -(sin * z.re) && -(-sin) * z.im == sin * z.im;
    }
  }

  lemma TimesOne(z: Complex)
    ensures Mul(z, ONE) == z
  {
    MulByUnits(false, z);
  }

  // ------------------------------------------------------------ radix 9

  /** The cosines and sines of 2π·e/9, e = 1, 2, 4. */
  datatype Consts9 = Consts9(c1: real, s1: real, c2: real, s2: real, c4: real, s4: real)

  /** What the radix-9 rows mean: the angle doubles twice, and three times it is 2π/3. */
  ghost predicate NinthOfTurn(k: Consts, n: Consts9) {
    && AngleSum(n.c1, n.s1, n.c1, n.s1, n.c2, n.s2)
    && AngleSum(n.c2, n.s2, n.c2, n.s2, n.c4, n.s4)
    && AngleSum(n.c1, n.s1, n.c2, n.s2, -k.half, k.sin120)
  }

  /** z times W9^e, e = n2·k1. */
  function Turn9(n: Consts9, inverse: bool): (int, Complex) -> Complex {
    (e, z) => if e == 0 then z
              else if e == 1 then RotC(inverse, n.c1, n.s1, z)
              else if e == 2 then RotC(inverse, n.c2, n.s2, z)
              else RotC(inverse, n.c4, n.s4, z)
  }

  function Radix9(k: Consts, n: Consts9, inverse: bool): (seq<Complex>, int) -> Complex {
    SplitBody(ZERO, Basic(k, inverse, 3), Basic(k, inverse, 3), Turn9(n, inverse), 3, 3)
  }

  lemma NinthPowers(k: Consts, n: Consts9, inverse: bool)
    requires NinthOfTurn(k, n)
    ensures var w := Root(inverse, n.c1, n.s1);
      && Pow(FIELD, w, 1) == w && Pow(FIELD, w, 2) == Root(inverse, n.c2, n.s2)
      && Pow(FIELD, w, 4) == Root(inverse, n.c4, n.s4)
      && Pow(FIELD, w, 3) == Root(inverse, -k.half, k.sin120)
  {
    var w := Root(inverse, n.c1, n.s1);
    TimesOne(w);
    assert Pow(FIELD, w, 0) == ONE && Pow(FIELD, w, 1) == Mul(w, Pow(FIELD, w, 0));
    hide Pow, Root, Mul, AngleSum;
    PowProduct(inverse, w, 1, 1, n.c1, n.s1, n.c1, n.s1, n.c2, n.s2);
    PowProduct(inverse, w, 1, 2, n.c1, n.s1, n.c2, n.s2, -k.half, k.sin120);
    PowProduct(inverse, w, 2, 2, n.c2, n.s2, n.c2, n.s2, n.c4, n.s4);
  }

  lemma Turn9Turns(k: Consts, n: Consts9, inverse: bool)
    requires NinthOfTurn(k, n)
    ensures TurnsBy(FIELD, Root(inverse, n.c1, n.s1), 3, 3, Turn9(n, inverse))
  {
    var w := Root(inverse, n.c1, n.s1);
    NinthPowers(k, n, inverse);
    assert Pow(FIELD, w, 0) == ONE;
    hide RotC, Root, Pow, Mul, NinthOfTurn;
    forall n2, k1, z | 0 <= n2 < 3 && 0 <= k1 < 3
      ensures Turn9(n, inverse)(n2 * k1, z) == FIELD.mul(z, Pow(FIELD, w, n2 * k1))
    {
      assert n2 * k1 == 0 || n2 * k1 == 1 || n2 * k1 == 2 || n2 * k1 == 4;
      TimesOne(z);
      RotCTurns(inverse, n.c1, n.s1, z);
      RotCTurns(inverse, n.c2, n.s2, z);
      RotCTurns(inverse, n.c4, n.s4, z);
    }
  }

  /** Radix 9 is the nine-point transform. */
  lemma Radix9IsDft(k: Consts, n: Consts9, inverse: bool)
    requires NinthOfTurn(k, n) && k.half + k.half == 1.0 && k.sin120 * k.sin120 + k.half * k.half == 1.0
    ensures IsButterfly(FIELD, Root(inverse, n.c1, n.s1), 9, Radix9(k, n, inverse))
  {
    var w := Root(inverse, n.c1, n.s1);
    ComplexIsRing();
    ThirdRoot(k, inverse);
    Basic3(k, inverse, Root(inverse, -k.half, k.sin120));
    NinthPowers(k, n, inverse);
    Turn9Turns(k, n, inverse);
    TablePower(Root(inverse, -k.half, k.sin120), 3, Roots3(inverse, k), 3);
    PowMul(FIELD, w, 3, 3);
    hide IsRing, IsButterfly, TurnsBy, Turn9, Pow, Root, Basic, SplitBody, PowerTable, NinthOfTurn;
    SplitBodyIsDft(FIELD, w, Basic(k, inverse, 3), Basic(k, inverse, 3), Turn9(n, inverse), 3, 3);
  }

  // ------------------------------------------------------------ radix 16

  /** z times W16^e, e one of 0, 1, 2, 3, 4, 6, 9: W16^4 is the exact rotation. C holds the
      cosines of 0, π/8, …, π/2. */
  function Turn16(C: seq<real>, inverse: bool): (int, Complex) -> Complex
    requires |C| == 5
  {
    (e, z) => if e == 0 then z
              else if e == 1 then RotC(inverse, C[1], C[3], z)
              else if e == 2 then RotC(inverse, C[2], C[2], z)
              else if e == 3 then RotC(inverse, C[3], C[1], z)
              else if e == 4 then Rot(inverse, z)
              else if e == 6 then RotC(inverse, -C[2], C[2], z)
              else RotC(inverse, -C[1], -C[3], z)
  }

  function Radix16(k: Consts, C: seq<real>, inverse: bool): (seq<Complex>, int) -> Complex
    requires |C| == 5
  {
    SplitBody(ZERO, Basic(k, inverse, 4), Basic(k, inverse, 4), Turn16(C, inverse), 4, 4)
  }

  lemma Turn16IsPower(C: seq<real>, inverse: bool, e: nat, z: Complex)
    requires Cosines(C, 4) && e in {0, 1, 2, 3, 4, 6, 9}
    ensures Turn16(C, inverse)(e, z) == Mul(z, Pow(FIELD, CircleRoot(inverse, C, 4), e))
  {
    CirclePowers(inverse, C, 4, e);
    assert C[0] == 1.0 && C[4] == 0.0;
    var t := Trig(4, e);
    RotCTurns(inverse, Signed(t.1, C[t.0]), Signed(t.3, C[t.2]), z);
    MulByUnits(inverse, z);
    assert Root(inverse, 1.0, 0.0) == ONE;
    hide RotC, Root, Pow, Mul, Rot, Cosines, CircleRoot;
  }

  lemma Turn16Turns(C: seq<real>, inverse: bool)
    requires Cosines(C, 4)
    ensures TurnsBy(FIELD, CircleRoot(inverse, C, 4), 4, 4, Turn16(C, inverse))
  {
    assert |C| == 5;
    hide RotC, CircleRoot, Pow, Mul, Cosines, Turn16;
    forall n2, k1, z | 0 <= n2 < 4 && 0 <= k1 < 4
      ensures Turn16(C, inverse)(n2 * k1, z) == FIELD.mul(z, Pow(FIELD, CircleRoot(inverse, C, 4), n2 * k1))
    {
      SmallProducts(n2, k1);
      Turn16IsPower(C, inverse, n2 * k1, z);
    }
  }

  lemma SmallProducts(n2: int, k1: int)
    requires 0 <= n2 < 4 && 0 <= k1 < 4
    ensures n2 * k1 in {0, 1, 2, 3, 4, 6, 9}
  {
    assert n2 == 0 || n2 == 1 || n2 == 2 || n2 == 3;
  }

  lemma RootOfFour(C: seq<real>, n: int, inverse: bool)
    requires Cosines(C, n)
    ensures Pow(FIELD, CircleRoot(inverse, C, n), n) == Quarter(inverse)
    ensures Pow(FIELD, CircleRoot(inverse, C, n), 4 * n) == FIELD.one
  {
    QuarterCircle(inverse, C, n, n);
    CircleCloses(inverse, C, n);
  }

  /** Radix 16 is the sixteen-point transform. */
  lemma Radix16IsDft(k: Consts, C: seq<real>, inverse: bool)
    requires Cosines(C, 4)
    ensures IsButterfly(FIELD, CircleRoot(inverse, C, 4), 16, Radix16(k, C, inverse))
  {
    var w := CircleRoot(inverse, C, 4);
    ComplexIsRing();
    RootOfFour(C, 4, inverse);
    Basic4(k, inverse);
    Turn16Turns(C, inverse);
    hide IsRing, IsButterfly, TurnsBy, Turn16, Pow, CircleRoot, Basic, SplitBody, Cosines;
    SplitBodyIsDft(FIELD, w, Basic(k, inverse, 4), Basic(k, inverse, 4), Turn16(C, inverse), 4, 4);
  }

  // ------------------------------------------------------------ radix 32

  /** A fused multiply-add or -subtract, the product or the addend negated by its sign. */
  function Fused(product: int, addend: int, c: real, x: real, t: real): real {
    Signed(product, c * x) + Signed(addend, t)
  }

  /** z times W32^e of the split kernels: the cosine and the sine are ±C_p and ±C_q, and the
      signs, the direction's included, choose the fused instruction. */
  function Turn32(C: seq<real>, inverse: bool): (int, Complex) -> Complex
    requires |C| == 9
  {
    (e: int, z: Complex) => if e == 0 then z
              else if e == 8 then if inverse then Complex(-z.im, z.re) else Complex(z.im, -z.re)
              else if 0 < e <= 24 then Turn32By(C, inverse, e, z) else ZERO
  }

  function Turn32By(C: seq<real>, inverse: bool, e: int, z: Complex): Complex
    requires |C| == 9 && 0 < e <= 24
  {
    var t := Trig(8, e);
    FusedTurn(inverse, t.1, C[t.0], t.3, C[t.2], z)
  }

  /** z times cs·c + i·ss·s, or its conjugate. */
  function FusedTurn(inverse: bool, cs: int, c: real, ss: int, s: real, z: Complex): Complex {
    var d := if inverse then ss else -ss;
    Complex(Fused(cs, -d, c, z.re, s * z.im), Fused(cs, d, c, z.im, s * z.re))
  }

  /** z times W32^e of the final pass: rows of cos θ and [-ss, ss]. */
  function Turn32Last(C: seq<real>, inverse: bool): (int, Complex) -> Complex
    requires |C| == 9
  {
    (e, z) => if e == 0 then z
              else if e == 8 then Rot(inverse, z)
              else if 0 < e <= 24 then
                var t := Trig(8, e);
                RotC(inverse, Signed(t.1, C[t.0]), Signed(t.3, C[t.2]), z)
              else ZERO
  }

  function Radix32(k: Consts, C: seq<real>, inverse: bool): (seq<Complex>, int) -> Complex
    requires |C| == 9
  {
    SplitBody(ZERO, Basic(k, inverse, 8), Basic(k, inverse, 4), Turn32(C, inverse), 8, 4)
  }

  lemma FusedIsRotC(inverse: bool, c: real, s: real, cs: int, ss: int, z: Complex)
    requires cs in {-1, 1} && ss in {-1, 1}
    ensures FusedTurn(inverse, cs, c, ss, s, z) == RotC(inverse, Signed(cs, c), Signed(ss, s), z)
  {
    assert -c * z.re == -(c * z.re) && -c * z.im == -(c * z.im);
    assert -s * z.re == -(s * z.re) && -s * z.im == -(s * z.im);
    assert -(-s) * z.re == s * z.re && -(-s) * z.im == s * z.im;
  }

  /** The fused instructions and the rows form the same products. */
  lemma Turn32IsLast(C: seq<real>, inverse: bool, e: int, z: Complex)
    requires |C| == 9 && 0 <= e <= 24
    ensures Turn32(C, inverse)(e, z) == Turn32Last(C, inverse)(e, z)
  {
    hide RotC, FusedTurn, Signed, Trig;
    var t := Trig(8, e);
    FusedIsRotC(inverse, C[t.0], C[t.2], t.1, t.3, z);
  }

  lemma Turn32IsPower(C: seq<real>, inverse: bool, e: nat, z: Complex)
    requires Cosines(C, 8) && e <= 24
    ensures Turn32(C, inverse)(e, z) == Mul(z, Pow(FIELD, CircleRoot(inverse, C, 8), e))
  {
    Turn32IsLast(C, inverse, e, z);
    CirclePowers(inverse, C, 8, e);
    assert C[0] == 1.0 && C[8] == 0.0;
    var t := Trig(8, e);
    RotCTurns(inverse, Signed(t.1, C[t.0]), Signed(t.3, C[t.2]), z);
    MulByUnits(inverse, z);
    assert Root(inverse, 1.0, 0.0) == ONE;
    hide RotC, Root, Pow, Mul, Rot, Cosines, CircleRoot, Turn32;
  }

  lemma Turn32Turns(C: seq<real>, inverse: bool)
    requires Cosines(C, 8)
    ensures TurnsBy(FIELD, CircleRoot(inverse, C, 8), 8, 4, Turn32(C, inverse))
  {
    assert |C| == 9;
    hide CircleRoot, Pow, Mul, Cosines, Turn32;
    forall n2, k1, z | 0 <= n2 < 4 && 0 <= k1 < 8
      ensures Turn32(C, inverse)(n2 * k1, z) == FIELD.mul(z, Pow(FIELD, CircleRoot(inverse, C, 8), n2 * k1))
    {
      assert 0 <= n2 * k1 <= 24;
      Turn32IsPower(C, inverse, n2 * k1, z);
    }
  }

  /** Radix 32 is the thirty-two-point transform. */
  lemma Radix32IsDft(k: Consts, C: seq<real>, inverse: bool)
    requires Cosines(C, 8) && C[4] == k.h
    ensures IsButterfly(FIELD, CircleRoot(inverse, C, 8), 32, Radix32(k, C, inverse))
  {
    var w := CircleRoot(inverse, C, 8);
    ComplexIsRing();
    HalfSquared(C, inverse);
    RootOfFour(C, 8, inverse);
    QuarterCircle(inverse, C, 8, 4);
    Basic4(k, inverse);
    Basic8(k, inverse);
    Turn32Turns(C, inverse);
    hide IsRing, IsButterfly, TurnsBy, Turn32, Pow, CircleRoot, Basic, SplitBody, Cosines;
    SplitBodyIsDft(FIELD, w, Basic(k, inverse, 8), Basic(k, inverse, 4), Turn32(C, inverse), 8, 4);
  }

  /** The cosine of π/4 is √2/2. */
  lemma HalfSquared(C: seq<real>, inverse: bool)
    requires Cosines(C, 8)
    ensures C[4] * C[4] == 0.5
  {
    var w := CircleRoot(inverse, C, 8);
    assert C[0] == 1.0 && C[8] == 0.0;
    QuarterCircle(inverse, C, 8, 4);
    QuarterCircle(inverse, C, 8, 8);
    PowProduct(inverse, w, 4, 4, C[4], C[4], C[4], C[4], C[4] * C[4] - C[4] * C[4], C[4] * C[4] + C[4] * C[4]);
    hide Pow, CircleRoot, Cosines;
  }

  // ------------------------------------------------------------ radix 10, 12, 15, 20

  function RadixPfa(k: Consts, inverse: bool, p: int, q: int): (seq<Complex>, int) -> Complex
    requires p in {3, 5} && q in {2, 3, 4}
  {
    PfaBody(ZERO, Basic(k, inverse, p), Basic(k, inverse, q), p, q)
  }

  /** w^q and w^p are the roots the stages' constants are the powers of. */
  ghost predicate StageRoots(k: Consts, inverse: bool, w: Complex, p: int, q: int)
    requires p in {3, 5} && q in {2, 3, 4}
  {
    && IsRoot(k, inverse, Pow(FIELD, w, q), p) && IsRoot(k, inverse, Pow(FIELD, w, p), q)
  }

  ghost predicate IsRoot(k: Consts, inverse: bool, v: Complex, r: int)
    requires r in {2, 3, 4, 5}
  {
    match r
    case 2 => v == Complex(-1.0, 0.0)
    case 3 => PowerTable(v, 3, Roots3(inverse, k))
    case 4 => v == Quarter(inverse)
    case _ => PowerTable(v, 5, Roots5(inverse, k))
  }

  lemma StageIsDft(k: Consts, inverse: bool, v: Complex, r: int)
    requires r in {2, 3, 4, 5} && IsRoot(k, inverse, v, r)
    ensures IsButterfly(FIELD, v, r, Basic(k, inverse, r))
  {
    Basic2(k, inverse);
    Basic4(k, inverse);
    hide IsButterfly, Basic, PowerTable, Quarter;
    if r == 3 {
      Basic3(k, inverse, v);
    } else if r == 5 {
      Basic5(k, inverse, v);
    }
  }

  lemma RootCloses(k: Consts, inverse: bool, v: Complex, r: int)
    requires r in {3, 5} && IsRoot(k, inverse, v, r)
    ensures Pow(FIELD, v, r) == FIELD.one
  {
    TablePower(v, r, if r == 3 then Roots3(inverse, k) else Roots5(inverse, k), r);
    hide PowerTable, Pow;
  }

  /** Radix 10, 15, 20 (p = 5) and 12 (p = 3, q = 4) are the transforms of their lengths. */
  lemma RadixPfaIsDft(k: Consts, inverse: bool, w: Complex, p: int, q: int)
    requires (p == 5 && q in {2, 3, 4}) || (p == 3 && q == 4)
    requires StageRoots(k, inverse, w, p, q)
    ensures IsButterfly(FIELD, w, p * q, RadixPfa(k, inverse, p, q))
  {
    ComplexIsRing();
    StageIsDft(k, inverse, Pow(FIELD, w, q), p);
    StageIsDft(k, inverse, Pow(FIELD, w, p), q);
    RootCloses(k, inverse, Pow(FIELD, w, q), p);
    PowMul(FIELD, w, q, p);
    hide IsRing, IsButterfly, Pow, Basic, PfaBody, StageRoots, IsRoot;
    var a, b := Multipliers(p, q);
    PfaBodyIsDft(FIELD, w, Basic(k, inverse, p), Basic(k, inverse, q), p, q, a, b);
  }

  lemma Multipliers(p: int, q: int) returns (a: int, b: int)
    requires (p == 5 && q in {2, 3, 4}) || (p == 3 && q == 4)
    ensures Idempotents(p, q, a, b)
  {
    if p == 3 {
      a, b := 4, 9;
    } else if q == 2 {
      a, b := 6, 5;
    } else if q == 3 {
      a, b := 6, 10;
    } else {
      a, b := 16, 5;
    }
  }
}
