/** Butterflies built from smaller ones: the two-stage split of radix 8, 9, 16 and 32, with
    internal twiddles, and the prime-factor stages of radix 10, 12, 15 and 20, with none. */
module Composite {
  import opened Rings
  import opened Dft
  import opened PrimeFactor
  import opened Modular
  import opened KernelDft

  lemma ButterflyAt<C(!new)>(R: Ring<C>, v: C, r: int, bfly: (seq<C>, int) -> C, xs: seq<C>, j: int)
    requires IsButterfly(R, v, r, bfly) && |xs| == r && 0 <= j < r
    ensures bfly(xs, j) == Transform(R, v, r, Mem(R, xs), j)
  {
  }

  // ------------------------------------------------------------ two stages with twiddles

  /** Stage-1 value (n2, k1): output k1 of the r-point butterfly of inputs n2 + m·n1, turned by
      the (n2·k1)-th power of the root. */
  function SplitValue<C>(first: (seq<C>, int) -> C, turn: (int, C) -> C, r: nat, m: nat, x: seq<C>, n2: int, k1: int): C
    requires |x| == r * m && 0 <= n2 < m
  {
    turn(n2 * k1, first(Comb(x, r, m, n2), k1))
  }

  /** Every m-th element of x from element n2 on. */
  function Comb<C>(x: seq<C>, r: nat, m: nat, n2: int): (c: seq<C>)
    requires |x| == r * m && 0 <= n2 < m
    ensures |c| == r
  {
    seq(r, n1 requires 0 <= n1 < r => (CellBounds(m, r, n2, n1); x[n2 + m * n1]))
  }

  /** Output k1 + r·k2: output k2 of the m-point butterfly of the stage-1 values of k1. */
  function SplitOutput<C>(first: (seq<C>, int) -> C, second: (seq<C>, int) -> C, turn: (int, C) -> C,
                          r: nat, m: nat, x: seq<C>, k1: int, k2: int): C
    requires |x| == r * m
  {
    second(SplitColumn(first, turn, r, m, x, k1), k2)
  }

  /** The stage-1 values of k1. */
  function SplitColumn<C>(first: (seq<C>, int) -> C, turn: (int, C) -> C, r: nat, m: nat, x: seq<C>, k1: int): (v: seq<C>)
    requires |x| == r * m
    ensures |v| == m
  {
    seq(m, n2 requires 0 <= n2 < m => SplitValue(first, turn, r, m, x, n2, k1))
  }

  ghost predicate TurnsBy<C(!new)>(R: Ring<C>, w: C, r: int, m: int, turn: (int, C) -> C) {
    forall n2, k1, z :: 0 <= n2 < m && 0 <= k1 < r ==> turn(n2 * k1, z) == R.mul(z, Pow(R, w, n2 * k1))
  }

  lemma SplitValueIsTwiddled<C(!new)>(R: Ring<C>, w: C, first: (seq<C>, int) -> C, turn: (int, C) -> C,
                                      r: nat, m: nat, x: seq<C>, n2: int, k1: int)
    requires IsButterfly(R, Pow(R, w, m), r, first) && TurnsBy(R, w, r, m, turn)
    requires |x| == r * m && 0 <= n2 < m && 0 <= k1 < r
    ensures SplitValue(first, turn, r, m, x, n2, k1) == Twiddled(R, w, r, m, Mem(R, x), k1)(n2)
  {
    var c := Comb(x, r, m, n2);
    assert first(c, k1) == Transform(R, Pow(R, w, m), r, Mem(R, c), k1);
    forall n1 | 0 <= n1 < r ensures Mem(R, c)(n1) == Strided(Mem(R, x), m, n2)(n1) {
      CellBounds(m, r, n2, n1);
    }
    TransformExt(R, Pow(R, w, m), r, Mem(R, c), Strided(Mem(R, x), m, n2), k1);
  }

  /** The two stages are the r·m-point transform. */
  lemma SplitIsDft<C(!new)>(R: Ring<C>, w: C, first: (seq<C>, int) -> C, second: (seq<C>, int) -> C, turn: (int, C) -> C,
                            r: nat, m: nat, x: seq<C>, k1: nat, k2: nat)
    requires IsRing(R) && Pow(R, w, r * m) == R.one && |x| == r * m && k1 < r && k2 < m
    requires IsButterfly(R, Pow(R, w, m), r, first) && IsButterfly(R, Pow(R, w, r), m, second)
    requires TurnsBy(R, w, r, m, turn)
    ensures SplitOutput(first, second, turn, r, m, x, k1, k2) == Transform(R, w, r * m, Mem(R, x), k1 + r * k2)
  {
    var v := SplitColumn(first, turn, r, m, x, k1);
    assert second(v, k2) == Transform(R, Pow(R, w, r), m, Mem(R, v), k2);
    forall n2 | 0 <= n2 < m ensures Mem(R, v)(n2) == Twiddled(R, w, r, m, Mem(R, x), k1)(n2) {
      SplitValueIsTwiddled(R, w, first, turn, r, m, x, n2, k1);
    }
    TransformExt(R, Pow(R, w, r), m, Mem(R, v), Twiddled(R, w, r, m, Mem(R, x), k1), k2);
    CooleyTukey(R, w, r, m, Mem(R, x), k1, k2);
    assert m * r == r * m;
  }

  /** The whole two-stage butterfly, by output. */
  function SplitBody<C>(zero: C, first: (seq<C>, int) -> C, second: (seq<C>, int) -> C, turn: (int, C) -> C, r: nat, m: nat):
    (seq<C>, int) -> C
  {
    (xs, j) => if r > 0 && |xs| == r * m && 0 <= j < r * m then SplitOutput(first, second, turn, r, m, xs, j % r, j / r) else zero
  }

  lemma SplitBodyIsDft<C(!new)>(R: Ring<C>, w: C, first: (seq<C>, int) -> C, second: (seq<C>, int) -> C, turn: (int, C) -> C,
                                r: nat, m: nat)
    requires IsRing(R) && r > 0 && Pow(R, w, r * m) == R.one
    requires IsButterfly(R, Pow(R, w, m), r, first) && IsButterfly(R, Pow(R, w, r), m, second)
    requires TurnsBy(R, w, r, m, turn)
    ensures IsButterfly(R, w, r * m, SplitBody(R.zero, first, second, turn, r, m))
  {
    hide Pow, Transform, IsRing, SplitOutput, TurnsBy;
    forall xs: seq<C>, j | |xs| == r * m && 0 <= j < r * m
      ensures SplitBody(R.zero, first, second, turn, r, m)(xs, j) == Transform(R, w, r * m, Mem(R, xs), j)
    {
      CellOf(r, m, j);
      SplitIsDft(R, w, first, second, turn, r, m, xs, j % r, j / r);
    }
  }

  // ------------------------------------------------------------ two stages without

  /** The p inputs of stage-1 butterfly n2 of the prime-factor stages. */
  function PfaComb<C>(x: seq<C>, p: nat, q: nat, n2: int): (c: seq<C>)
    requires p > 0 && q > 0 && |x| == p * q
    ensures |c| == p
  {
    seq(p, n1 requires 0 <= n1 < p => x[PfaIn(p, q, n1, n2)])
  }

  /** What is stored at output PfaOut(p, q, a, b, k1, k2). */
  function PfaOutput<C>(first: (seq<C>, int) -> C, second: (seq<C>, int) -> C, p: nat, q: nat, x: seq<C>, k1: int, k2: int): C
    requires p > 0 && q > 0 && |x| == p * q
  {
    second(seq(q, n2 requires 0 <= n2 < q => first(PfaComb(x, p, q, n2), k1)), k2)
  }

  lemma PfaValueIsStage1<C(!new)>(R: Ring<C>, w: C, first: (seq<C>, int) -> C, p: nat, q: nat, x: seq<C>, n2: int, k1: int)
    requires p > 0 && q > 0 && |x| == p * q && 0 <= n2 < q && 0 <= k1 < p
    requires IsButterfly(R, Pow(R, w, q), p, first)
    ensures first(PfaComb(x, p, q, n2), k1) == PfaStage1(R, w, p, q, Mem(R, x), k1)(n2)
  {
    hide Pow, Transform;
    var c := PfaComb(x, p, q, n2);
    assert first(c, k1) == Transform(R, Pow(R, w, q), p, Mem(R, c), k1);
    TransformExt(R, Pow(R, w, q), p, Mem(R, c), PfaGather(p, q, Mem(R, x), n2), k1);
  }

  /** The two stages, their bins permuted, are the p·q-point transform. */
  lemma PfaIsDft<C(!new)>(R: Ring<C>, w: C, first: (seq<C>, int) -> C, second: (seq<C>, int) -> C,
                          p: nat, q: nat, a: int, b: int, x: seq<C>, k1: nat, k2: nat)
    requires IsRing(R) && Idempotents(p, q, a, b) && Pow(R, w, p * q) == R.one && |x| == p * q && k1 < p && k2 < q
    requires IsButterfly(R, Pow(R, w, q), p, first) && IsButterfly(R, Pow(R, w, p), q, second)
    ensures PfaOutput(first, second, p, q, x, k1, k2) == Transform(R, w, p * q, Mem(R, x), PfaOut(p, q, a, b, k1, k2))
  {
    hide Pow, Transform, PfaOut, PfaIn, PfaStage1, IsRing, PfaComb;
    var v := seq(q, n2 requires 0 <= n2 < q => first(PfaComb(x, p, q, n2), k1));
    ButterflyAt(R, Pow(R, w, p), q, second, v, k2);
    forall n2 | 0 <= n2 < q ensures Mem(R, v)(n2) == PfaStage1(R, w, p, q, Mem(R, x), k1)(n2) {
      PfaValueIsStage1(R, w, first, p, q, x, n2, k1);
    }
    TransformExt(R, Pow(R, w, p), q, Mem(R, v), PfaStage1(R, w, p, q, Mem(R, x), k1), k2);
    StagesAreDft(R, w, p, q, a, b, Mem(R, x), k1, k2);
  }

  /** The whole prime-factor butterfly, by output. */
  function PfaBody<C>(zero: C, first: (seq<C>, int) -> C, second: (seq<C>, int) -> C, p: nat, q: nat): (seq<C>, int) -> C {
    (xs, j) => if p > 0 && q > 0 && |xs| == p * q && 0 <= j < p * q then PfaOutput(first, second, p, q, xs, j % p, j % q) else zero
  }

  lemma PfaBodyIsDft<C(!new)>(R: Ring<C>, w: C, first: (seq<C>, int) -> C, second: (seq<C>, int) -> C, p: nat, q: nat, a: int, b: int)
    requires IsRing(R) && Idempotents(p, q, a, b) && Pow(R, w, p * q) == R.one
    requires IsButterfly(R, Pow(R, w, q), p, first) && IsButterfly(R, Pow(R, w, p), q, second)
    ensures IsButterfly(R, w, p * q, PfaBody(R.zero, first, second, p, q))
  {
    hide Pow, Transform, IsRing, PfaOutput, PfaOut;
    forall xs: seq<C>, j | |xs| == p * q && 0 <= j < p * q
      ensures PfaBody(R.zero, first, second, p, q)(xs, j) == Transform(R, w, p * q, Mem(R, xs), j)
    {
      PfaIsDft(R, w, first, second, p, q, a, b, xs, j % p, j % q);
      PfaOutputsPermute(p, q, a, b, j % p, j % q, j);
    }
  }
}
