/** The trampolines over the kernels' own arithmetic: in exact arithmetic they leave the transform
    of the points at cc, over floats the bits of the scalar passes. */
module Trampolines {
  import opened Rings
  import opened Dft
  import opened PassWalk
  import opened KernelDft
  import opened LastKernel
  import opened Complexes
  import opened Plans
  import opened Floats
  import opened FloatPasses
  import opened Frames
  import opened FrameKernels

  // ------------------------------------------------------------ exact arithmetic

  /** A word that is a part of a point holds a real number. */
  function RealCoding(): Coding<real, Complex> {
    Coding(0.0, (re: real, im: real) => Complex(re, im), (z: Complex) => z.re, (z: Complex) => z.im)
  }

  lemma RealsAreCoded()
    ensures IsCoding(RealCoding())
  {
  }

  /** What every plan over the kernels' radices needs: constants that are the parts of the
      radices' roots of unity, and a root of the length. */
  ghost predicate KernelPlan(K: Tables, inverse: bool, w: Complex, n: nat, radices: seq<nat>) {
    && Held(K) && (forall r :: r in radices ==> r in KERNEL_RADICES && ConstantsOf(K, inverse, w, n, r))
    && n == Stockham.Product(radices) && Pow(FIELD, w, n) == ONE
  }

  lemma KernelPlanIsSound(K: Tables, inverse: bool, w: Complex, n: nat, radices: seq<nat>)
    requires KernelPlan(K, inverse, w, n, radices)
    ensures |K.sixteen| == 5 && |K.thirtytwo| == 9 && forall r :: r in radices ==> r in KERNEL_RADICES
    ensures var plan := PlanOf(K, inverse, w, 1, radices);
      |plan| == |radices| && Length(plan) == n && Sound(FIELD, w, 1, plan) && IsRing(FIELD) && FIELD.one == ONE
  {
    hide IsRing, Sound, Pow, Held, ConstantsOf;
    HeldSizes(K);
    ComplexIsRing();
    PlanIsSound(K, inverse, w, n, 1, radices);
  }

  /** name(cc, ch, tw, k0, k1, ido, l1, pass, last) with the kernels, constants and tables of a
      plan of two radices. */
  method TwoPassPoints(m: Machine<real>, max: nat, K: Tables, inverse: bool, ghost w: Complex, bodies: int -> Body<Complex>,
                    tables: int -> seq<Complex>, r0: nat, r1: nat, ghost cc: int, ghost ch: int)
    requires m.TwoReady(max, cc, ch) && KernelPlan(K, inverse, w, m.points, [r0, r1]) && |K.sixteen| == 5 && |K.thirtytwo| == 9
    requires r0 in KERNEL_RADICES && r1 in KERNEL_RADICES
    requires TwoStages(bodies, tables, PlanOf(K, inverse, w, 1, [r0, r1]), r0, r1, m.Arg(2), m.Arg(3), m.Arg(4), m.Arg(5), m.Arg(6))
    modifies m
    ensures var x, y := RealCoding().Dec(old(Words(m.mem, cc, m.points))), RealCoding().Dec(Words(m.mem, ch, m.points));
      |x| == |y| == m.points && forall k :: 0 <= k < m.points ==> y[k] == Transform(FIELD, w, m.points, Mem(FIELD, x), k)
    ensures Words(m.mem, ch, m.points) == RealCoding().Enc(RealCoding().Dec(Words(m.mem, ch, m.points)))
  {
    hide Transform, Sound, IsRing, IsCoding, TwoStages, Words, Pow, RealCoding, PlanOf, Length, Machine.TwoReady, Machine.ArgIn;
    RealsAreCoded();
    KernelPlanIsSound(K, inverse, w, m.points, [r0, r1]);
    TwoPassTransforms(m, max, RealCoding(), FIELD, w, bodies, tables, r0, r1, PlanOf(K, inverse, w, 1, [r0, r1]), cc, ch);
  }

  /** The same for a plan of three radices. */
  method ThreePassPoints(m: Machine<real>, max: nat, K: Tables, inverse: bool, ghost w: Complex, bodies: int -> Body<Complex>,
                      tables: int -> seq<Complex>, r0: nat, r1: nat, r2: nat, ghost cc: int, ghost ch: int, ghost x: int)
    requires m.ThreeReady(max, cc, ch, x) && KernelPlan(K, inverse, w, m.points, [r0, r1, r2]) && |K.sixteen| == 5 && |K.thirtytwo| == 9
    requires r0 in KERNEL_RADICES && r1 in KERNEL_RADICES && r2 in KERNEL_RADICES
    requires ThreeStages(bodies, tables, PlanOf(K, inverse, w, 1, [r0, r1, r2]), r0, r1, r2,
                         m.Arg(3), m.Arg(4), m.Arg(5), m.Arg(6), m.Arg(7), m.Arg(8), m.Arg(9), m.Arg(10), m.Arg(11))
    modifies m
    ensures var u, y := RealCoding().Dec(old(Words(m.mem, cc, m.points))), RealCoding().Dec(Words(m.mem, ch, m.points));
      |u| == |y| == m.points && forall k :: 0 <= k < m.points ==> y[k] == Transform(FIELD, w, m.points, Mem(FIELD, u), k)
    ensures Words(m.mem, ch, m.points) == RealCoding().Enc(RealCoding().Dec(Words(m.mem, ch, m.points)))
  {
    hide Transform, Sound, IsRing, IsCoding, ThreeStages, Words, Pow, RealCoding, PlanOf, Length, Machine.ThreeReady, Machine.ArgIn;
    RealsAreCoded();
    KernelPlanIsSound(K, inverse, w, m.points, [r0, r1, r2]);
    ThreePassTransforms(m, max, RealCoding(), FIELD, w, bodies, tables, r0, r1, r2, PlanOf(K, inverse, w, 1, [r0, r1, r2]), cc, ch, x);
  }

  /** The same, of the words: with the parts of x at cc, eight bytes each, the real one first, the
      trampoline leaves those of the transform of x at ch. */
  method TwoPassDft(m: Machine<real>, max: nat, K: Tables, inverse: bool, ghost w: Complex, bodies: int -> Body<Complex>,
                    tables: int -> seq<Complex>, r0: nat, r1: nat, ghost cc: int, ghost ch: int, ghost x: int -> Complex)
    requires m.TwoReady(max, cc, ch) && KernelPlan(K, inverse, w, m.points, [r0, r1]) && |K.sixteen| == 5 && |K.thirtytwo| == 9
    requires r0 in KERNEL_RADICES && r1 in KERNEL_RADICES
    requires TwoStages(bodies, tables, PlanOf(K, inverse, w, 1, [r0, r1]), r0, r1, m.Arg(2), m.Arg(3), m.Arg(4), m.Arg(5), m.Arg(6))
    requires forall n :: 0 <= n < m.points ==> m.mem(cc + 16 * n) == Part(x(n).re) && m.mem(cc + 16 * n + 8) == Part(x(n).im)
    modifies m
    ensures forall k :: 0 <= k < m.points ==>
      && m.mem(ch + 16 * k) == Part(Transform(FIELD, w, m.points, x, k).re)
      && m.mem(ch + 16 * k + 8) == Part(Transform(FIELD, w, m.points, x, k).im)
  {
    hide Transform, KernelPlan, TwoStages, Words, PlanOf, Machine.TwoReady, Machine.ArgIn, Coding.Dec, Coding.Enc;
    RealsAreCoded();
    DecOfParts(RealCoding(), m.mem, cc, m.points, x);
    ghost var pts := RealCoding().Dec(Words(m.mem, cc, m.points));
    TwoPassPoints(m, max, K, inverse, w, bodies, tables, r0, r1, cc, ch);
    WordsOfTransform(m.mem, ch, w, m.points, x, pts);
  }

  /** The words of a transform of points. */
  lemma WordsOfTransform(mem: Memory<real>, ch: int, w: Complex, points: nat, x: int -> Complex, pts: seq<Complex>)
    requires |pts| == points && forall n :: 0 <= n < points ==> pts[n] == x(n)
    requires var y := RealCoding().Dec(Words(mem, ch, points));
      |y| == points && Words(mem, ch, points) == RealCoding().Enc(y) &&
      forall k :: 0 <= k < points ==> y[k] == Transform(FIELD, w, points, Mem(FIELD, pts), k)
    ensures forall k :: 0 <= k < points ==>
      && mem(ch + 16 * k) == Part(Transform(FIELD, w, points, x, k).re)
      && mem(ch + 16 * k + 8) == Part(Transform(FIELD, w, points, x, k).im)
  {
    hide Transform, Words, Coding.Dec, Coding.Enc;
    var y := RealCoding().Dec(Words(mem, ch, points));
    forall k | 0 <= k < points
      ensures mem(ch + 16 * k) == Part(Transform(FIELD, w, points, x, k).re)
      ensures mem(ch + 16 * k + 8) == Part(Transform(FIELD, w, points, x, k).im)
    {
      TransformExt(FIELD, w, points, Mem(FIELD, pts), x, k);
      PartsOfEnc(RealCoding(), mem, ch, y, k);
    }
  }

  method ThreePassDft(m: Machine<real>, max: nat, K: Tables, inverse: bool, ghost w: Complex, bodies: int -> Body<Complex>,
                      tables: int -> seq<Complex>, r0: nat, r1: nat, r2: nat, ghost cc: int, ghost ch: int, ghost between: int, ghost x: int -> Complex)
    requires m.ThreeReady(max, cc, ch, between) && KernelPlan(K, inverse, w, m.points, [r0, r1, r2]) && |K.sixteen| == 5 && |K.thirtytwo| == 9
    requires r0 in KERNEL_RADICES && r1 in KERNEL_RADICES && r2 in KERNEL_RADICES
    requires ThreeStages(bodies, tables, PlanOf(K, inverse, w, 1, [r0, r1, r2]), r0, r1, r2,
                         m.Arg(3), m.Arg(4), m.Arg(5), m.Arg(6), m.Arg(7), m.Arg(8), m.Arg(9), m.Arg(10), m.Arg(11))
    requires forall n :: 0 <= n < m.points ==> m.mem(cc + 16 * n) == Part(x(n).re) && m.mem(cc + 16 * n + 8) == Part(x(n).im)
    modifies m
    ensures forall k :: 0 <= k < m.points ==>
      && m.mem(ch + 16 * k) == Part(Transform(FIELD, w, m.points, x, k).re)
      && m.mem(ch + 16 * k + 8) == Part(Transform(FIELD, w, m.points, x, k).im)
  {
    hide Transform, KernelPlan, ThreeStages, Words, PlanOf, Machine.ThreeReady, Machine.ArgIn, Coding.Dec, Coding.Enc;
    RealsAreCoded();
    DecOfParts(RealCoding(), m.mem, cc, m.points, x);
    ghost var pts := RealCoding().Dec(Words(m.mem, cc, m.points));
    ThreePassPoints(m, max, K, inverse, w, bodies, tables, r0, r1, r2, cc, ch, between);
    WordsOfTransform(m.mem, ch, w, m.points, x, pts);
  }

  // ------------------------------------------------------------ floats

  function FloatCoding<F>(zero: F): Coding<F, Cx<F>> {
    Coding(zero, (re: F, im: F) => Cx(re, im), (z: Cx<F>) => z.re, (z: Cx<F>) => z.im)
  }

  lemma FloatsAreCoded<F(!new)>(zero: F)
    ensures IsCoding(FloatCoding(zero))
  {
  }

  type Butterfly<!F> = (seq<Cx<F>>, int) -> Cx<F>

  type Join<!F> = (Cx<F>, Cx<F>) -> Cx<F>

  /** The bodies the constants pointers select, at a width. */
  function WidthBodies<F>(A: Arith<F>, fused: bool, wide: bool, bflys: int -> Butterfly<F>, join: Join<F>): int -> Body<Cx<F>> {
    (k: int) => WidthBody(A, fused, wide, bflys(k), join)
  }

  /** A pass kernel at a width, on words, makes the scalar pass of their points. */
  lemma PassBits<F(!new)>(A: Arith<F>, fused: bool, wide: bool, bflys: int -> Butterfly<F>, join: Join<F>, tables: int -> seq<Cx<F>>,
                          zero: F, r: nat, ido: nat, l1: nat, w: seq<Word<F>>, t: int, k: int)
    requires IsArith(A) && r > 0 && ido > 0 && l1 > 0
    requires |FloatCoding(zero).Dec(w)| == Size(r, ido, l1) && |tables(t)| >= TwiddleCells(r) * ((r - 1) * ido)
    ensures FloatCoding(zero).Dec(PassFunction(FloatCoding(zero), r, WidthBodies(A, fused, wide, bflys, join), tables)(w, t, k, ido, l1)) ==
            PassResult(ScalarBody(A, fused, bflys(k), join), FloatCoding(zero).Dec(w), tables(t), r, ido, l1)
  {
    hide IsArith, PassResult, WidthBody, ScalarBody, FloatCoding, Coding.Dec, Coding.Enc, Size, TwiddleCells;
    var E, bodies := FloatCoding(zero), WidthBodies(A, fused, wide, bflys, join);
    FloatsAreCoded(zero);
    WidthIsScalar(A, fused, wide, bflys(k), join, E.Dec(w), tables(t), r, ido, l1);
    DecEnc(E, PassResult(bodies(k), E.Dec(w), tables(t), r, ido, l1));
  }

  /** So does a final kernel. */
  lemma LastBits<F(!new)>(A: Arith<F>, fused: bool, wide: bool, bflys: int -> Butterfly<F>, join: Join<F>,
                          zero: F, r: nat, l1: nat, w: seq<Word<F>>, k: int)
    requires r > 0 && l1 > 0 && |FloatCoding(zero).Dec(w)| == r * l1
    ensures FloatCoding(zero).Dec(LastFunction(FloatCoding(zero), r, WidthBodies(A, fused, wide, bflys, join))(w, 0, k, 1, l1)) ==
            LastResult(bflys(k), FloatCoding(zero).Dec(w), r, l1)
  {
    hide LastResult, FloatCoding, Coding.Dec, Coding.Enc;
    var E := FloatCoding(zero);
    FloatsAreCoded(zero);
    DecEnc(E, LastResult(bflys(k), E.Dec(w), r, l1));
  }

  /** The scalar passes of two radices. */
  function TwoScalar<F>(A: Arith<F>, fused: bool, bfly0: Butterfly<F>, bfly1: Butterfly<F>, join: Join<F>,
                        tw: seq<Cx<F>>, r0: nat, r1: nat, x: seq<Cx<F>>): (y: seq<Cx<F>>)
    requires r0 > 0 && r1 > 0 && |x| == r0 * r1 && |tw| >= TwiddleCells(r0) * ((r0 - 1) * r1)
    ensures |y| == r0 * r1
  {
    TwoSizes(r0, r1);
    LastResult(bfly1, PassResult(ScalarBody(A, fused, bfly0, join), x, tw, r0, r1, 1), r1, r0)
  }

  lemma TwoSizes(r0: int, r1: int)
    ensures Size(r0, r1, 1) == r0 * r1 == r1 * r0
  {
  }

  /** The two-pass trampoline over the kernels of a width, whatever the butterflies: at ch stand
      the bits of the scalar passes of the points at cc. */
  method TwoPassScalar<F(!new)>(m: Machine<F>, max: nat, zero: F, A: Arith<F>, fused: bool, wide: bool, bflys: int -> Butterfly<F>, join: Join<F>,
                              tables: int -> seq<Cx<F>>, r0: nat, r1: nat, ghost cc: int, ghost ch: int)
    requires m.TwoReady(max, cc, ch) && IsArith(A) && r0 > 0 && r1 > 0 && m.points == r0 * r1
    requires m.Arg(5) == r1 && m.Arg(6) == r0 && |tables(m.Arg(2))| >= TwiddleCells(r0) * ((r0 - 1) * r1)
    modifies m
    ensures |FloatCoding(zero).Dec(old(Words(m.mem, cc, m.points)))| == m.points
    ensures FloatCoding(zero).Dec(Words(m.mem, ch, m.points)) ==
      TwoScalar(A, fused, bflys(old(m.Arg(3))), bflys(old(m.Arg(4))), join, tables(old(m.Arg(2))), r0, r1,
                FloatCoding(zero).Dec(old(Words(m.mem, cc, m.points))))
    ensures Words(m.mem, ch, m.points) == FloatCoding(zero).Enc(FloatCoding(zero).Dec(Words(m.mem, ch, m.points)))
  {
    hide IsArith, IsKernel, Words, PassFunction, LastFunction, PassResult, LastResult, FloatCoding, Coding.Dec, Coding.Enc;
    hide ScalarBody, WidthBodies, Machine.ArgIn, Machine.ChangedThree, Size, TwiddleCells;
    ghost var E, words, tw, k0, k1 := FloatCoding(zero), Words(m.mem, cc, m.points), m.Arg(2), m.Arg(3), m.Arg(4);
    var bodies := WidthBodies(A, fused, wide, bflys, join);
    var pass, last := PassFunction(FloatCoding(zero), r0, bodies, tables), LastFunction(FloatCoding(zero), r1, bodies);
    PassIsKernel(FloatCoding(zero), r0, bodies, tables);
    LastIsKernel(FloatCoding(zero), r1, bodies);
    TwoSizes(r0, r1);
    PointsOf(E, words);
    m.TwoPass(max, pass, last, cc, ch);
    PassBits(A, fused, wide, bflys, join, tables, zero, r0, r1, 1, words, tw, k0);
    LastBits(A, fused, wide, bflys, join, zero, r1, r0, pass(words, tw, k0, r1, 1), k1);
    FloatsAreCoded(zero);
    KernelKeeps(pass, words, tw, k0, r1, 1);
    LastEncodes(FloatCoding(zero), r1, bodies, pass(words, tw, k0, r1, 1), k1, r0, m.points);
  }

  /** The scalar passes of three radices. */
  function ThreeScalar<F>(A: Arith<F>, fused: bool, bfly0: Butterfly<F>, bfly1: Butterfly<F>, bfly2: Butterfly<F>, join: Join<F>,
                          tw0: seq<Cx<F>>, tw1: seq<Cx<F>>, r0: nat, r1: nat, r2: nat, x: seq<Cx<F>>): (y: seq<Cx<F>>)
    requires r0 > 0 && r1 > 0 && r2 > 0 && |x| == r0 * (r1 * r2)
    requires |tw0| >= TwiddleCells(r0) * ((r0 - 1) * (r1 * r2)) && |tw1| >= TwiddleCells(r1) * ((r1 - 1) * r2)
    ensures |y| == r0 * (r1 * r2)
  {
    ThreeSizes(r0, r1, r2);
    var y := PassResult(ScalarBody(A, fused, bfly0, join), x, tw0, r0, r1 * r2, 1);
    var z := PassResult(ScalarBody(A, fused, bfly1, join), y, tw1, r1, r2, r0);
    LastResult(bfly2, z, r2, r0 * r1)
  }

  lemma ThreeSizes(r0: int, r1: int, r2: int)
    ensures Size(r0, r1 * r2, 1) == Size(r1, r2, r0) == r2 * (r0 * r1) == r0 * (r1 * r2)
    ensures r0 > 0 && r1 > 0 && r2 > 0 ==> r1 * r2 > 0 && r0 * r1 > 0
  {
    Modular.MulRegroup(r2, r0, r1);
    Modular.MulRegroup(r0, r1, r2);
  }

  /** And over three passes. */
  method ThreePassScalar<F(!new)>(m: Machine<F>, max: nat, zero: F, A: Arith<F>, fused: bool, wide: bool, bflys: int -> Butterfly<F>, join: Join<F>,
                                tables: int -> seq<Cx<F>>, r0: nat, r1: nat, r2: nat, ghost cc: int, ghost ch: int, ghost x: int)
    requires m.ThreeReady(max, cc, ch, x) && IsArith(A) && r0 > 0 && r1 > 0 && r2 > 0 && m.points == r0 * (r1 * r2)
    requires m.Arg(8) == r1 * r2 && m.Arg(9) == r2 && m.Arg(10) == r0 && m.Arg(11) == r0 * r1
    requires |tables(m.Arg(3))| >= TwiddleCells(r0) * ((r0 - 1) * (r1 * r2)) && |tables(m.Arg(4))| >= TwiddleCells(r1) * ((r1 - 1) * r2)
    modifies m
    ensures |FloatCoding(zero).Dec(old(Words(m.mem, cc, m.points)))| == m.points
    ensures FloatCoding(zero).Dec(Words(m.mem, ch, m.points)) ==
      ThreeScalar(A, fused, bflys(old(m.Arg(5))), bflys(old(m.Arg(6))), bflys(old(m.Arg(7))), join,
                  tables(old(m.Arg(3))), tables(old(m.Arg(4))), r0, r1, r2, FloatCoding(zero).Dec(old(Words(m.mem, cc, m.points))))
    ensures Words(m.mem, ch, m.points) == FloatCoding(zero).Enc(FloatCoding(zero).Dec(Words(m.mem, ch, m.points)))
  {
    hide IsArith, IsKernel, Words, PassFunction, LastFunction, PassResult, LastResult, FloatCoding, Coding.Dec, Coding.Enc;
    hide ScalarBody, WidthBodies, Machine.ArgIn, Machine.ChangedThree, Size, TwiddleCells;
    ghost var E, words, tw0, tw1 := FloatCoding(zero), Words(m.mem, cc, m.points), m.Arg(3), m.Arg(4);
    ghost var k0, k1, k2 := m.Arg(5), m.Arg(6), m.Arg(7);
    var bodies := WidthBodies(A, fused, wide, bflys, join);
    var p0, p1, p2 := PassFunction(FloatCoding(zero), r0, bodies, tables), PassFunction(FloatCoding(zero), r1, bodies, tables),
                      LastFunction(FloatCoding(zero), r2, bodies);
    PassIsKernel(FloatCoding(zero), r0, bodies, tables);
    PassIsKernel(FloatCoding(zero), r1, bodies, tables);
    LastIsKernel(FloatCoding(zero), r2, bodies);
    ThreeSizes(r0, r1, r2);
    PointsOf(E, words);
    m.ThreePass(max, p0, p1, p2, cc, ch, x);
    ghost var y := p0(words, tw0, k0, r1 * r2, 1);
    PassBits(A, fused, wide, bflys, join, tables, zero, r0, r1 * r2, 1, words, tw0, k0);
    PassBits(A, fused, wide, bflys, join, tables, zero, r1, r2, r0, y, tw1, k1);
    LastBits(A, fused, wide, bflys, join, zero, r2, r0 * r1, p1(y, tw1, k1, r2, r0), k2);
    FloatsAreCoded(zero);
    KernelKeeps(p0, words, tw0, k0, r1 * r2, 1);
    KernelKeeps(p1, y, tw1, k1, r2, r0);
    LastEncodes(FloatCoding(zero), r2, bodies, p1(y, tw1, k1, r2, r0), k2, r0 * r1, m.points);
  }

  lemma PointsAt<F(!new)>(zero: F, mem: Memory<F>, cc: int, x: seq<Cx<F>>)
    requires forall n :: 0 <= n < |x| ==> mem(cc + 16 * n) == Part(x[n].re) && mem(cc + 16 * n + 8) == Part(x[n].im)
    ensures FloatCoding(zero).Dec(Words(mem, cc, |x|)) == x
  {
    hide Words, Coding.Dec;
    FloatsAreCoded(zero);
    var y := (n: int) => if 0 <= n < |x| then x[n] else Cx(zero, zero);
    DecOfParts(FloatCoding(zero), mem, cc, |x|, y);
    assert FloatCoding(zero).Dec(Words(mem, cc, |x|)) == x;
  }

  lemma PartsAt<F(!new)>(zero: F, mem: Memory<F>, ch: int, y: seq<Cx<F>>)
    requires Words(mem, ch, |y|) == FloatCoding(zero).Enc(y)
    ensures forall k :: 0 <= k < |y| ==> mem(ch + 16 * k) == Part(y[k].re) && mem(ch + 16 * k + 8) == Part(y[k].im)
  {
    hide Words, Coding.Enc;
    forall k | 0 <= k < |y| ensures mem(ch + 16 * k) == Part(y[k].re) && mem(ch + 16 * k + 8) == Part(y[k].im) {
      PartsOfEnc(FloatCoding(zero), mem, ch, y, k);
    }
  }

  /** Of the words: with the parts of x at cc, those of the scalar passes of x at ch. */
  method TwoPassBits<F(!new)>(m: Machine<F>, max: nat, zero: F, A: Arith<F>, fused: bool, wide: bool, bflys: int -> Butterfly<F>, join: Join<F>,
                              tables: int -> seq<Cx<F>>, r0: nat, r1: nat, ghost cc: int, ghost ch: int, ghost x: seq<Cx<F>>) returns (ghost y: seq<Cx<F>>)
    requires m.TwoReady(max, cc, ch) && IsArith(A) && r0 > 0 && r1 > 0 && m.points == r0 * r1 == |x|
    requires m.Arg(5) == r1 && m.Arg(6) == r0 && |tables(m.Arg(2))| >= TwiddleCells(r0) * ((r0 - 1) * r1)
    requires forall n :: 0 <= n < |x| ==> m.mem(cc + 16 * n) == Part(x[n].re) && m.mem(cc + 16 * n + 8) == Part(x[n].im)
    modifies m
    ensures y == TwoScalar(A, fused, bflys(old(m.Arg(3))), bflys(old(m.Arg(4))), join, tables(old(m.Arg(2))), r0, r1, x)
    ensures forall k :: 0 <= k < |y| ==> m.mem(ch + 16 * k) == Part(y[k].re) && m.mem(ch + 16 * k + 8) == Part(y[k].im)
  {
    hide IsArith, Words, TwoScalar, FloatCoding, Coding.Dec, Coding.Enc, Machine.TwoReady, Machine.ArgIn, TwiddleCells;
    PointsAt(zero, m.mem, cc, x);
    y := TwoScalar(A, fused, bflys(m.Arg(3)), bflys(m.Arg(4)), join, tables(m.Arg(2)), r0, r1, x);
    TwoPassScalar(m, max, zero, A, fused, wide, bflys, join, tables, r0, r1, cc, ch);
    PartsAt(zero, m.mem, ch, y);
  }

  method ThreePassBits<F(!new)>(m: Machine<F>, max: nat, zero: F, A: Arith<F>, fused: bool, wide: bool, bflys: int -> Butterfly<F>, join: Join<F>,
                                tables: int -> seq<Cx<F>>, r0: nat, r1: nat, r2: nat, ghost cc: int, ghost ch: int, ghost between: int,
                                ghost x: seq<Cx<F>>) returns (ghost y: seq<Cx<F>>)
    requires m.ThreeReady(max, cc, ch, between) && IsArith(A) && r0 > 0 && r1 > 0 && r2 > 0 && m.points == r0 * (r1 * r2) == |x|
    requires m.Arg(8) == r1 * r2 && m.Arg(9) == r2 && m.Arg(10) == r0 && m.Arg(11) == r0 * r1
    requires |tables(m.Arg(3))| >= TwiddleCells(r0) * ((r0 - 1) * (r1 * r2)) && |tables(m.Arg(4))| >= TwiddleCells(r1) * ((r1 - 1) * r2)
    requires forall n :: 0 <= n < |x| ==> m.mem(cc + 16 * n) == Part(x[n].re) && m.mem(cc + 16 * n + 8) == Part(x[n].im)
    modifies m
    ensures y == ThreeScalar(A, fused, bflys(old(m.Arg(5))), bflys(old(m.Arg(6))), bflys(old(m.Arg(7))), join,
                             tables(old(m.Arg(3))), tables(old(m.Arg(4))), r0, r1, r2, x)
    ensures forall k :: 0 <= k < |y| ==> m.mem(ch + 16 * k) == Part(y[k].re) && m.mem(ch + 16 * k + 8) == Part(y[k].im)
  {
    hide IsArith, Words, ThreeScalar, FloatCoding, Coding.Dec, Coding.Enc, Machine.ThreeReady, Machine.ArgIn, TwiddleCells;
    PointsAt(zero, m.mem, cc, x);
    y := ThreeScalar(A, fused, bflys(m.Arg(5)), bflys(m.Arg(6)), bflys(m.Arg(7)), join, tables(m.Arg(3)), tables(m.Arg(4)), r0, r1, r2, x);
    ThreePassScalar(m, max, zero, A, fused, wide, bflys, join, tables, r0, r1, r2, cc, ch, between);
    PartsAt(zero, m.mem, ch, y);
  }
}
