/** Kernels over two kinds of values that a map relates: when the operations correspond, so do the
    butterflies, the two-stage bodies and whole passes. */
module Maps {
  import opened PassWalk
  import Modular
  import opened Scalar
  import opened Composite

  function Mapped<Z, Y>(phi: Z -> Y, x: seq<Z>): (y: seq<Y>)
    ensures |y| == |x|
  {
    seq(|x|, i requires 0 <= i < |x| => phi(x[i]))
  }

  /** phi takes the operations of O to those of P. */
  ghost predicate OpsMap<Z(!new), Y>(phi: Z -> Y, O: Ops<Z>, P: Ops<Y>) {
    && (forall a, b :: phi(O.add(a, b)) == P.add(phi(a), phi(b)))
    && (forall a, b :: phi(O.sub(a, b)) == P.sub(phi(a), phi(b)))
    && (forall a :: phi(O.rot(a)) == P.rot(phi(a)))
    && (forall a :: phi(O.half(a)) == P.half(phi(a)))
    && (forall a :: phi(O.sin120(a)) == P.sin120(phi(a)))
    && (forall a :: phi(O.c51(a)) == P.c51(phi(a)))
    && (forall a :: phi(O.c52(a)) == P.c52(phi(a)))
    && (forall a :: phi(O.s51(a)) == P.s51(phi(a)))
    && (forall a :: phi(O.s52(a)) == P.s52(phi(a)))
    && (forall a, s :: phi(O.plusH(a, s)) == P.plusH(phi(a), phi(s)))
    && (forall a, s :: phi(O.minusH(a, s)) == P.minusH(phi(a), phi(s)))
  }

  /** The outputs of the r-point f map to those of g. */
  ghost predicate BodyMap<Z(!new), Y>(phi: Z -> Y, r: int, f: (seq<Z>, int) -> Z, g: (seq<Y>, int) -> Y) {
    forall x, j :: |x| == r && 0 <= j < r ==> phi(f(x, j)) == g(Mapped(phi, x), j)
  }

  /** The turns of two r-by-m stages correspond. */
  ghost predicate TurnMap<Z(!new), Y>(phi: Z -> Y, r: int, m: int, t: (int, Z) -> Z, u: (int, Y) -> Y) {
    forall n2, k1, z :: 0 <= n2 < m && 0 <= k1 < r ==> phi(t(n2 * k1, z)) == u(n2 * k1, phi(z))
  }

  lemma BodyMapAt<Z(!new), Y>(phi: Z -> Y, r: int, f: (seq<Z>, int) -> Z, g: (seq<Y>, int) -> Y, x: seq<Z>, j: int)
    requires BodyMap(phi, r, f, g) && |x| == r && 0 <= j < r
    ensures phi(f(x, j)) == g(Mapped(phi, x), j)
  {
  }

  lemma Bfly23Map<Z(!new), Y>(phi: Z -> Y, O: Ops<Z>, P: Ops<Y>, x: seq<Z>)
    requires OpsMap(phi, O, P)
    ensures |x| == 2 ==> Mapped(phi, Bfly2(O, x[0], x[1])) == Bfly2(P, phi(x[0]), phi(x[1]))
    ensures |x| == 3 ==> Mapped(phi, Bfly3(O, x[0], x[1], x[2])) == Bfly3(P, phi(x[0]), phi(x[1]), phi(x[2]))
  {
  }

  lemma Bfly4Map<Z(!new), Y>(phi: Z -> Y, O: Ops<Z>, P: Ops<Y>, x: seq<Z>)
    requires OpsMap(phi, O, P) && |x| == 4
    ensures Mapped(phi, Bfly4(O, x[0], x[1], x[2], x[3])) == Bfly4(P, phi(x[0]), phi(x[1]), phi(x[2]), phi(x[3]))
  {
  }

  lemma Bfly5Map<Z(!new), Y>(phi: Z -> Y, O: Ops<Z>, P: Ops<Y>, x: seq<Z>)
    requires OpsMap(phi, O, P) && |x| == 5
    ensures Mapped(phi, Bfly5(O, x[0], x[1], x[2], x[3], x[4])) == Bfly5(P, phi(x[0]), phi(x[1]), phi(x[2]), phi(x[3]), phi(x[4]))
  {
  }

  lemma HalvesMap<Z(!new), Y>(phi: Z -> Y, O: Ops<Z>, P: Ops<Y>, a: Z, b: Z, c: Z, d: Z)
    requires OpsMap(phi, O, P)
    ensures Mapped(phi, Odd8(O, a, b, c, d)) == Odd8(P, phi(a), phi(b), phi(c), phi(d))
    ensures Mapped(phi, Even8(O, a, b, c, d)) == Even8(P, phi(a), phi(b), phi(c), phi(d))
  {
  }

  lemma Bfly8Map<Z(!new), Y>(phi: Z -> Y, O: Ops<Z>, P: Ops<Y>, x: seq<Z>)
    requires OpsMap(phi, O, P) && |x| == 8
    ensures Mapped(phi, Bfly8(O, x)) == Bfly8(P, Mapped(phi, x))
  {
    var y := Mapped(phi, x);
    var o, e := Odd8(O, x[1], x[3], x[5], x[7]), Even8(O, x[0], x[2], x[4], x[6]);
    var p, f := Odd8(P, y[1], y[3], y[5], y[7]), Even8(P, y[0], y[2], y[4], y[6]);
    HalvesMap(phi, O, P, x[1], x[3], x[5], x[7]);
    HalvesMap(phi, O, P, x[0], x[2], x[4], x[6]);
    assert Mapped(phi, o) == p && Mapped(phi, e) == f;
    FourOf(O, x[1], x[3], x[5], x[7]);
    FourOf(O, x[0], x[2], x[4], x[6]);
    assert phi(o[0]) == p[0] && phi(o[1]) == p[1] && phi(o[2]) == p[2] && phi(o[3]) == p[3];
    assert phi(e[0]) == f[0] && phi(e[1]) == f[1] && phi(e[2]) == f[2] && phi(e[3]) == f[3];
    hide Odd8, Even8;
  }

  lemma FourOf<Z>(O: Ops<Z>, a: Z, b: Z, c: Z, d: Z)
    ensures |Odd8(O, a, b, c, d)| == |Even8(O, a, b, c, d)| == 4
  {
  }

  /** The basic butterflies correspond. */
  lemma BflyMap<Z(!new), Y>(phi: Z -> Y, O: Ops<Z>, P: Ops<Y>, r: int, x: seq<Z>)
    requires OpsMap(phi, O, P) && r in {2, 3, 4, 5, 8} && |x| == r
    ensures Mapped(phi, Bfly(O, r, x)) == Bfly(P, r, Mapped(phi, x))
  {
    hide OpsMap, Bfly2, Bfly3, Bfly4, Bfly5, Bfly8;
    match r {
      case 4 => Bfly4Map(phi, O, P, x);
      case 5 => Bfly5Map(phi, O, P, x);
      case 8 => Bfly8Map(phi, O, P, x);
      case _ => Bfly23Map(phi, O, P, x);
    }
  }

  /** Stage-1 value (n2, k1). */
  lemma ValueMap<Z(!new), Y>(phi: Z -> Y, r: nat, m: nat, f: (seq<Z>, int) -> Z, t: (int, Z) -> Z, f1: (seq<Y>, int) -> Y, t1: (int, Y) -> Y,
                             x: seq<Z>, n2: int, k1: int)
    requires BodyMap(phi, r, f, f1) && TurnMap(phi, r, m, t, t1) && |x| == r * m && 0 <= k1 < r && 0 <= n2 < m
    ensures phi(SplitValue(f, t, r, m, x, n2, k1)) == SplitValue(f1, t1, r, m, Mapped(phi, x), n2, k1)
  {
    var c := Comb(x, r, m, n2);
    forall n1 | 0 <= n1 < r ensures Mapped(phi, c)[n1] == Comb(Mapped(phi, x), r, m, n2)[n1] {
      Modular.CellBounds(m, r, n2, n1);
    }
    assert Mapped(phi, c) == Comb(Mapped(phi, x), r, m, n2);
    BodyMapAt(phi, r, f, f1, c, k1);
    hide BodyMap, Comb;
    assert phi(t(n2 * k1, f(c, k1))) == t1(n2 * k1, phi(f(c, k1)));
  }

  lemma SplitOutputMap<Z(!new), Y>(phi: Z -> Y, r: nat, m: nat, f: (seq<Z>, int) -> Z, s: (seq<Z>, int) -> Z, t: (int, Z) -> Z,
                                   f1: (seq<Y>, int) -> Y, s1: (seq<Y>, int) -> Y, t1: (int, Y) -> Y, x: seq<Z>, k1: int, k2: int)
    requires BodyMap(phi, r, f, f1) && BodyMap(phi, m, s, s1) && TurnMap(phi, r, m, t, t1) && |x| == r * m && 0 <= k1 < r && 0 <= k2 < m
    ensures phi(SplitOutput(f, s, t, r, m, x, k1, k2)) == SplitOutput(f1, s1, t1, r, m, Mapped(phi, x), k1, k2)
  {
    var v, u := SplitColumn(f, t, r, m, x, k1), SplitColumn(f1, t1, r, m, Mapped(phi, x), k1);
    forall n2 | 0 <= n2 < m ensures Mapped(phi, v)[n2] == u[n2] {
      ValueMap(phi, r, m, f, t, f1, t1, x, n2, k1);
      hide SplitValue;
    }
    assert Mapped(phi, v) == u;
    BodyMapAt(phi, m, s, s1, v, k2);
  }

  /** Two stages with turns between them. */
  lemma SplitMap<Z(!new), Y>(phi: Z -> Y, r: nat, m: nat, f: (seq<Z>, int) -> Z, s: (seq<Z>, int) -> Z, t: (int, Z) -> Z, zero: Z,
                             f1: (seq<Y>, int) -> Y, s1: (seq<Y>, int) -> Y, t1: (int, Y) -> Y, zero1: Y)
    requires r > 0 && BodyMap(phi, r, f, f1) && BodyMap(phi, m, s, s1) && TurnMap(phi, r, m, t, t1)
    ensures BodyMap(phi, r * m, SplitBody(zero, f, s, t, r, m), SplitBody(zero1, f1, s1, t1, r, m))
  {
    hide TurnMap, SplitOutput;
    forall x: seq<Z>, j | |x| == r * m && 0 <= j < r * m
      ensures phi(SplitBody(zero, f, s, t, r, m)(x, j)) == SplitBody(zero1, f1, s1, t1, r, m)(Mapped(phi, x), j)
    {
      Modular.CellOf(r, m, j);
      SplitOutputMap(phi, r, m, f, s, t, f1, s1, t1, x, j % r, j / r);
    }
  }

  /** Two stages without. */
  lemma PfaMap<Z(!new), Y>(phi: Z -> Y, p: nat, q: nat, f: (seq<Z>, int) -> Z, s: (seq<Z>, int) -> Z, zero: Z,
                           f1: (seq<Y>, int) -> Y, s1: (seq<Y>, int) -> Y, zero1: Y)
    requires p > 0 && q > 0 && BodyMap(phi, p, f, f1) && BodyMap(phi, q, s, s1)
    ensures BodyMap(phi, p * q, PfaBody(zero, f, s, p, q), PfaBody(zero1, f1, s1, p, q))
  {
    hide PfaOutput;
    forall x: seq<Z>, j | |x| == p * q && 0 <= j < p * q
      ensures phi(PfaBody(zero, f, s, p, q)(x, j)) == PfaBody(zero1, f1, s1, p, q)(Mapped(phi, x), j)
    {
      PfaOutputMap(phi, p, q, f, s, f1, s1, x, j % p, j % q);
    }
  }

  lemma PfaOutputMap<Z(!new), Y>(phi: Z -> Y, p: nat, q: nat, f: (seq<Z>, int) -> Z, s: (seq<Z>, int) -> Z, f1: (seq<Y>, int) -> Y, s1: (seq<Y>, int) -> Y,
                                 x: seq<Z>, k1: int, k2: int)
    requires p > 0 && q > 0 && BodyMap(phi, p, f, f1) && BodyMap(phi, q, s, s1) && |x| == p * q && 0 <= k1 < p && 0 <= k2 < q
    ensures phi(PfaOutput(f, s, p, q, x, k1, k2)) == PfaOutput(f1, s1, p, q, Mapped(phi, x), k1, k2)
  {
    var y := Mapped(phi, x);
    var v, u := seq(q, n2 requires 0 <= n2 < q => f(PfaComb(x, p, q, n2), k1)), seq(q, n2 requires 0 <= n2 < q => f1(PfaComb(y, p, q, n2), k1));
    forall n2 | 0 <= n2 < q ensures Mapped(phi, v)[n2] == u[n2] {
      assert Mapped(phi, PfaComb(x, p, q, n2)) == PfaComb(y, p, q, n2);
      BodyMapAt(phi, p, f, f1, PfaComb(x, p, q, n2), k1);
    }
    assert Mapped(phi, v) == u;
    BodyMapAt(phi, q, s, s1, v, k2);
  }

  // ------------------------------------------------------------ passes

  /** The butterflies, the products and the twiddles correspond. */
  ghost predicate ArithmeticMap<Z(!new), Y>(phi: Z -> Y, r: int, b: Body<Z>, c: Body<Y>) {
    && BodyMap(phi, r, b.bfly, c.bfly)
    && (forall y, w :: phi(b.mul(y, w)) == c.mul(phi(y), phi(w)))
    && (forall x, y :: phi(b.join(x, y)) == c.join(phi(x), phi(y)))
  }

  lemma TwiddleMap<Z(!new), Y>(phi: Z -> Y, b: Body<Z>, c: Body<Y>, tw: seq<Z>, r: int, ido: int, i: int, j: int)
    requires ArithmeticMap(phi, r, b, c) && 0 <= i < ido && 1 <= j < r && |tw| >= TwiddleCells(r) * ((r - 1) * ido)
    ensures phi(Twiddle(b, tw, r, ido, i, j)) == Twiddle(c, Mapped(phi, tw), r, ido, i, j)
  {
    hide BodyMap, TwiddleIndex, GroupSize;
    TwiddleInTable(ido, r, i, j);
    GroupBounds(ido, i);
    var t := TwiddleIndex(ido, r, i, j);
    assert Mapped(phi, tw)[t] == phi(tw[t]);
    if r == 16 {
      assert Mapped(phi, tw)[t + GroupSize(ido, i)] == phi(tw[t + GroupSize(ido, i)]);
    }
  }

  lemma OutputMap<Z(!new), Y>(phi: Z -> Y, b: Body<Z>, c: Body<Y>, cc: seq<Z>, tw: seq<Z>, r: int, ido: int, l1: int, i: int, k: int, j: int)
    requires ArithmeticMap(phi, r, b, c) && 0 <= i < ido && 0 <= k < l1 && 0 <= j < r
    requires |cc| >= Size(r, ido, l1) && |tw| >= TwiddleCells(r) * ((r - 1) * ido)
    ensures phi(PassOutput(b, cc, tw, r, ido, l1, i, k, j)) == PassOutput(c, Mapped(phi, cc), Mapped(phi, tw), r, ido, l1, i, k, j)
  {
    hide Size, TwiddleCells, TwiddleIndex, InputCell;
    var x := PassInput(cc, r, ido, l1, i, k);
    forall t | 0 <= t < r ensures Mapped(phi, x)[t] == PassInput(Mapped(phi, cc), r, ido, l1, i, k)[t] {
      InputInRange(r, ido, l1, i, k, t);
    }
    assert Mapped(phi, x) == PassInput(Mapped(phi, cc), r, ido, l1, i, k);
    BodyMapAt(phi, r, b.bfly, c.bfly, x, j);
    if j > 0 {
      TwiddleMap(phi, b, c, tw, r, ido, i, j);
    }
  }

  /** A pass over one kind of values is the pass over the other. */
  lemma PassMap<Z(!new), Y>(phi: Z -> Y, b: Body<Z>, c: Body<Y>, cc: seq<Z>, tw: seq<Z>, r: int, ido: int, l1: int)
    requires ArithmeticMap(phi, r, b, c) && r > 0 && ido > 0 && l1 > 0
    requires |cc| >= Size(r, ido, l1) && |tw| >= TwiddleCells(r) * ((r - 1) * ido)
    ensures Mapped(phi, PassResult(b, cc, tw, r, ido, l1)) == PassResult(c, Mapped(phi, cc), Mapped(phi, tw), r, ido, l1)
  {
    hide ArithmeticMap, PassOutput, Size, TwiddleCells, PointOf, BlockOf, OutputOf;
    var u, v := PassResult(b, cc, tw, r, ido, l1), PassResult(c, Mapped(phi, cc), Mapped(phi, tw), r, ido, l1);
    forall a | 0 <= a < Size(r, ido, l1) ensures Mapped(phi, u)[a] == v[a] {
      CellDecodes(ido, l1, r, a);
      OutputMap(phi, b, c, cc, tw, r, ido, l1, PointOf(ido, a), BlockOf(ido, l1, a), OutputOf(ido, l1, a));
    }
  }
}
