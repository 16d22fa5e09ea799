/** The pass loops as the kernels the trampolines call: words in, words out, so that a trampoline
    over them computes the transform. */
module FrameKernels {
  import opened Modular
  import opened Rings
  import opened Dft
  import opened PassWalk
  import opened KernelDft
  import opened Frames
  import opened FrameDft
  import PassKernel
  import opened LastKernel

  /** The parts of a point. */
  datatype Coding<!F, !C> = Coding(zero: F, make: (F, F) -> C, re: C -> F, im: C -> F) {

    function PartOf(w: Word<F>): F {
      if w.Part? then w.x else zero
    }

    /** The points of some words, two words each. */
    function Dec(w: seq<Word<F>>): (x: seq<C>)
      ensures 2 * |x| == if |w| % 2 == 0 then |w| else 0
    {
      if |w| % 2 == 0 then seq(|w| / 2, n requires 0 <= n < |w| / 2 => make(PartOf(w[2 * n]), PartOf(w[2 * n + 1]))) else []
    }

    /** The words of some points: the real part, then the imaginary part. */
    function Enc(x: seq<C>): (w: seq<Word<F>>)
      ensures |w| == 2 * |x|
    {
      seq(2 * |x|, n requires 0 <= n < 2 * |x| => Part(if n % 2 == 0 then re(x[n / 2]) else im(x[n / 2])))
    }
  }

  /** A point is its two parts. */
  ghost predicate IsCoding<F, C(!new)>(E: Coding<F, C>) {
    forall c :: E.make(E.re(c), E.im(c)) == c
  }

  /** Point n of some points, through its words. */
  lemma DecEncAt<F, C(!new)>(E: Coding<F, C>, x: seq<C>, n: int)
    requires IsCoding(E) && 0 <= n < |x|
    ensures |E.Dec(E.Enc(x))| == |x| && E.Dec(E.Enc(x))[n] == x[n]
  {
    var w := E.Enc(x);
    EncAt(E, x, n);
    hide Coding.Enc;
    assert |w| % 2 == 0 && |w| / 2 == |x|;
  }

  lemma EncAt<F, C>(E: Coding<F, C>, x: seq<C>, n: int)
    requires 0 <= n < |x|
    ensures E.Enc(x)[2 * n] == Part(E.re(x[n])) && E.Enc(x)[2 * n + 1] == Part(E.im(x[n]))
  {
  }

  /** Writing points as words loses nothing. */
  lemma DecEnc<F, C(!new)>(E: Coding<F, C>, x: seq<C>)
    requires IsCoding(E)
    ensures E.Dec(E.Enc(x)) == x
  {
    hide Coding.Dec, Coding.Enc;
    assert |E.Dec(E.Enc(x))| == |x|;
    forall n | 0 <= n < |x| ensures E.Dec(E.Enc(x))[n] == x[n] {
      DecEncAt(E, x, n);
    }
  }

  /** Points whose parts are the words at a, sixteen bytes to a point. */
  lemma DecOfParts<F(!new), C(!new)>(E: Coding<F, C>, mem: Memory<F>, a: int, points: nat, x: int -> C)
    requires IsCoding(E)
    requires forall n :: 0 <= n < points ==> mem(a + 16 * n) == Part(E.re(x(n))) && mem(a + 16 * n + 8) == Part(E.im(x(n)))
    ensures |E.Dec(Words(mem, a, points))| == points && forall n :: 0 <= n < points ==> E.Dec(Words(mem, a, points))[n] == x(n)
  {
    var w := Words(mem, a, points);
    assert |w| % 2 == 0 && |w| / 2 == points;
    forall n | 0 <= n < points ensures E.Dec(w)[n] == x(n) {
      assert w[2 * n] == mem(a + 16 * n) && w[2 * n + 1] == mem(a + 16 * n + 8);
      assert x(n) == E.make(E.re(x(n)), E.im(x(n)));
    }
  }

  lemma PartsOfEnc<F(!new), C(!new)>(E: Coding<F, C>, mem: Memory<F>, a: int, y: seq<C>, k: int)
    requires Words(mem, a, |y|) == E.Enc(y) && 0 <= k < |y|
    ensures mem(a + 16 * k) == Part(E.re(y[k])) && mem(a + 16 * k + 8) == Part(E.im(y[k]))
  {
    var w := Words(mem, a, |y|);
    EncAt(E, y, k);
    hide Coding.Enc;
    assert w[2 * k] == mem(a + 16 * k) && w[2 * k + 1] == mem(a + 16 * k + 8);
  }

  lemma LengthKept<F, C>(E: Coding<F, C>, w: seq<Word<F>>, x: seq<C>)
    requires |x| == |E.Dec(w)| > 0
    ensures |E.Enc(x)| == |w|
  {
    hide Coding.Dec, Coding.Enc;
  }

  /** The radix-r pass kernel: arithmetic from its constants pointer, twiddles from its table
      pointer. Words that are no points of the pass are left as they are. */
  function PassFunction<F(!new), C(!new)>(E: Coding<F, C>, r: int, bodies: int -> Body<C>, tables: int -> seq<C>): Kernel<F>
    requires r > 0
  {
    (w: seq<Word<F>>, t: int, k: int, i: int, l: int) =>
      if i > 0 && l > 0 && |E.Dec(w)| == Size(r, i, l) && |tables(t)| >= TwiddleCells(r) * ((r - 1) * i)
      then E.Enc(PassResult(bodies(k), E.Dec(w), tables(t), r, i, l)) else w
  }

  /** The radix-r final kernel. */
  function LastFunction<F(!new), C(!new)>(E: Coding<F, C>, r: int, bodies: int -> Body<C>): Kernel<F>
    requires r > 0
  {
    (w: seq<Word<F>>, t: int, k: int, i: int, l: int) =>
      if l > 0 && |E.Dec(w)| == r * l then E.Enc(LastResult(bodies(k).bfly, E.Dec(w), r, l)) else w
  }

  lemma PassIsKernel<F(!new), C(!new)>(E: Coding<F, C>, r: int, bodies: int -> Body<C>, tables: int -> seq<C>)
    requires r > 0
    ensures IsKernel(PassFunction(E, r, bodies, tables))
  {
    hide PassResult, Coding.Dec, Coding.Enc;
    var p := PassFunction(E, r, bodies, tables);
    forall w, t, k, i, l ensures KeepsLength(p, w, t, k, i, l) {
      if i > 0 && l > 0 && |E.Dec(w)| == Size(r, i, l) && |tables(t)| >= TwiddleCells(r) * ((r - 1) * i) {
        SizePositive(r, i, l);
        LengthKept(E, w, PassResult(bodies(k), E.Dec(w), tables(t), r, i, l));
      }
    }
  }

  lemma LastIsKernel<F(!new), C(!new)>(E: Coding<F, C>, r: int, bodies: int -> Body<C>)
    requires r > 0
    ensures IsKernel(LastFunction(E, r, bodies))
  {
    hide LastResult, Coding.Dec, Coding.Enc;
    var p := LastFunction(E, r, bodies);
    forall w, t, k, i, l ensures KeepsLength(p, w, t, k, i, l) {
      if l > 0 && |E.Dec(w)| == r * l {
        MulMono(r, 1, l);
        LengthKept(E, w, LastResult(bodies(k).bfly, E.Dec(w), r, l));
      }
    }
  }

  /** The pass kernel runs the stage its pointers name. */
  lemma PassRunsStage<F(!new), C(!new)>(E: Coding<F, C>, bodies: int -> Body<C>, tables: int -> seq<C>, s: Stage<C>, t: int, k: int, ido: nat, l1: nat)
    requires IsCoding(E) && s.r > 0 && ido > 0 && l1 > 0 && bodies(k) == s.body && tables(t) == s.tw
    ensures RunsStage(PassFunction(E, s.r, bodies, tables), t, k, ido, l1, E.Dec, s, ido, l1)
  {
    hide PassResult, Coding.Dec, Coding.Enc;
    var p := PassFunction(E, s.r, bodies, tables);
    forall w | |E.Dec(w)| == Size(s.r, ido, l1) && |s.tw| >= TwiddleCells(s.r) * ((s.r - 1) * ido)
      ensures E.Dec(p(w, t, k, ido, l1)) == PassResult(s.body, E.Dec(w), s.tw, s.r, ido, l1)
    {
      DecEnc(E, PassResult(s.body, E.Dec(w), s.tw, s.r, ido, l1));
    }
  }

  /** The final kernel is the pass with one point to a block, whatever its table. */
  lemma LastRunsStage<F(!new), C(!new)>(E: Coding<F, C>, bodies: int -> Body<C>, s: Stage<C>, k: int, l1: nat)
    requires IsCoding(E) && s.r > 0 && l1 > 0 && bodies(k).bfly == s.body.bfly
    ensures RunsStage(LastFunction(E, s.r, bodies), 0, k, 1, l1, E.Dec, s, 1, l1)
  {
    hide PassResult, LastResult, Coding.Dec, Coding.Enc;
    var p := LastFunction(E, s.r, bodies);
    forall w | |E.Dec(w)| == Size(s.r, 1, l1) && |s.tw| >= TwiddleCells(s.r) * ((s.r - 1) * 1)
      ensures E.Dec(p(w, 0, k, 1, l1)) == PassResult(s.body, E.Dec(w), s.tw, s.r, 1, l1)
    {
      SizeOfLast(s.r, l1);
      DecEnc(E, LastResult(s.body.bfly, E.Dec(w), s.r, l1));
      LastResultIsPass(s.body, E.Dec(w), s.tw, s.r, l1);
    }
  }

  lemma SizeOfLast(r: int, n: int)
    ensures Size(r, 1, n) == r * n == n * r
  {
  }

  lemma LastResultIsPass<C(!new)>(body: Body<C>, cc: seq<C>, tw: seq<C>, r: int, n: int)
    requires r > 0 && n > 0 && |cc| == r * n == Size(r, 1, n) && |tw| >= TwiddleCells(r) * ((r - 1) * 1)
    ensures LastResult(body.bfly, cc, r, n) == PassResult(body, cc, tw, r, 1, n)
  {
    hide PassResult;
    var ch := LastResult(body.bfly, cc, r, n);
    forall a | 0 <= a < |ch| ensures FinalCell(body.bfly, cc, ch, r, n, a) {
      BlockBounds(r, n, a % n);
    }
    LastIsPass(body, cc, tw, ch, r, n);
  }

  // ------------------------------------------------------------ the loops are these functions

  /** A pass kernel on the points of some words. */
  method CallPass<F(!new), C(!new)>(E: Coding<F, C>, bodies: int -> Body<C>, tables: int -> seq<C>, r: int, wide: bool,
                     w: seq<Word<F>>, t: int, k: int, i: int, l: int) returns (out: seq<Word<F>>)
    requires r in PassKernel.RADICES && i >= 2 && (wide ==> i >= 4) && l > 0
    requires |E.Dec(w)| == Size(r, i, l) && |tables(t)| >= TwiddleCells(r) * ((r - 1) * i)
    ensures out == PassFunction(E, r, bodies, tables)(w, t, k, i, l)
  {
    var x, table := E.Dec(w), tables(t);
    hide PassResult, Coding.Dec, Coding.Enc;
    var cc := new C[|x|](n requires 0 <= n < |x| => x[n]);
    var ch := new C[|x|](n requires 0 <= n < |x| => x[n]);
    var tw := new C[|table|](n requires 0 <= n < |table| => table[n]);
    assert cc[..] == x && tw[..] == table;
    var p := new PassKernel.Pass(cc, ch, tw, r, i, l, bodies(k));
    p.Run(wide);
    out := E.Enc(ch[..]);
  }

  /** A final kernel on the points of some words. */
  method CallLast<F(!new), C(!new)>(E: Coding<F, C>, bodies: int -> Body<C>, r: int, wide: bool, w: seq<Word<F>>, k: int, l: int) returns (out: seq<Word<F>>)
    requires r > 0 && l > 0 && |E.Dec(w)| == r * l
    ensures out == LastFunction(E, r, bodies)(w, 0, k, 1, l)
  {
    hide Coding.Dec, Coding.Enc;
    var x := E.Dec(w);
    var cc := new C[|x|](n requires 0 <= n < |x| => x[n]);
    var ch := new C[|x|](n requires 0 <= n < |x| => x[n]);
    assert cc[..] == x;
    var p := new Last(cc, ch, r, l, l, bodies(k).bfly);
    p.Run(wide);
    assert p.input == x;
    IsLastResult(p, ch[..]);
    out := E.Enc(ch[..]);
  }

  /** The cells of a final kernel's run. */
  lemma IsLastResult<C>(p: Last<C>, ch: seq<C>)
    requires p.Valid() && p.n > 0 && |p.input| == p.r * p.n == |ch|
    requires forall a :: 0 <= a < |ch| ==> ch[a] == p.Output(a % p.n, a / p.n)
    ensures ch == LastResult(p.bfly, p.input, p.r, p.n)
  {
    forall a | 0 <= a < p.r * p.n ensures ch[a] == LastResult(p.bfly, p.input, p.r, p.n)[a] {
      assert ch[a] == p.Output(a % p.n, a / p.n);
    }
  }

  // ------------------------------------------------------------ the trampolines over them

  /** The pointers and counts of the two stages. */
  ghost predicate TwoStages<C(!new)>(bodies: int -> Body<C>, tables: int -> seq<C>, plan: seq<Stage<C>>, r0: nat, r1: nat,
                                     tw: int, k0: int, k1: int, ido: int, l1: int)
  {
    && |plan| == 2 && plan[0].r == r0 > 0 && plan[1].r == r1 > 0 && bodies(k0) == plan[0].body && tables(tw) == plan[0].tw
    && bodies(k1).bfly == plan[1].body.bfly && ido == r1 && l1 == r0
  }

  /** The two-pass trampoline, called with the tables of a plan of two stages, leaves at ch the
      transform of the points at cc. */
  method TwoPassTransforms<F(!new), C(!new)>(m: Machine<F>, max: nat, E: Coding<F, C>, ghost R: Ring<C>, ghost root: C, bodies: int -> Body<C>, tables: int -> seq<C>,
                                               r0: nat, r1: nat, ghost plan: seq<Stage<C>>, ghost cc: int, ghost ch: int)
    requires m.TwoReady(max, cc, ch) && IsCoding(E) && IsRing(R)
    requires TwoStages(bodies, tables, plan, r0, r1, m.Arg(2), m.Arg(3), m.Arg(4), m.Arg(5), m.Arg(6))
    requires Sound(R, root, 1, plan) && m.points == Length(plan) && Pow(R, root, m.points) == R.one
    modifies m
    ensures var x, y := E.Dec(old(Words(m.mem, cc, m.points))), E.Dec(Words(m.mem, ch, m.points));
      |x| == |y| == m.points && forall k :: 0 <= k < m.points ==> y[k] == Transform(R, root, m.points, Mem(R, x), k)
    ensures Words(m.mem, ch, m.points) == E.Enc(E.Dec(Words(m.mem, ch, m.points)))
  {
    hide PassFunction, LastFunction, Coding.Dec, Coding.Enc, IsRing, Sound, Transform, Pow, RunsStage, IsCoding, IsKernel, Words, Machine.ArgIn, Machine.ChangedThree;
    var pass, last := PassFunction(E, r0, bodies, tables), LastFunction(E, r1, bodies);
    PassIsKernel(E, r0, bodies, tables);
    LastIsKernel(E, r1, bodies);
    ghost var words, tw, k0, k1, ido, l1 := Words(m.mem, cc, m.points), m.Arg(2), m.Arg(3), m.Arg(4), m.Arg(5), m.Arg(6);
    m.TwoPass(max, pass, last, cc, ch);
    PointsOf(E, words);
    PassRunsStage(E, bodies, tables, plan[0], tw, k0, ido, 1);
    LastRunsStage(E, bodies, plan[1], k1, l1);
    LastLengths(plan);
    LastFactor(plan);
    KernelKeeps(pass, words, tw, k0, ido, 1);
    LastEncodes(E, r1, bodies, pass(words, tw, k0, ido, 1), k1, l1, m.points);
    forall k: nat | k < m.points ensures
      var out := E.Dec(last(pass(words, tw, k0, ido, 1), 0, k1, 1, l1));
      |out| == m.points && out[k] == Transform(R, root, m.points, Mem(R, E.Dec(words)), k)
    {
      TwoPassIsDft(R, root, E.Dec, pass, last, plan, tw, k0, k1, ido, l1, words, k);
    }
    SameLength(E, m, words, Words(m.mem, ch, m.points));
  }

  ghost predicate ThreeStages<C(!new)>(bodies: int -> Body<C>, tables: int -> seq<C>, plan: seq<Stage<C>>, r0: nat, r1: nat, r2: nat,
                                       tw0: int, tw1: int, k0: int, k1: int, k2: int, ido0: int, ido1: int, l1b: int, l1c: int)
  {
    && |plan| == 3 && plan[0].r == r0 > 0 && plan[1].r == r1 > 0 && plan[2].r == r2 > 0
    && bodies(k0) == plan[0].body && tables(tw0) == plan[0].tw && bodies(k1) == plan[1].body && tables(tw1) == plan[1].tw
    && bodies(k2).bfly == plan[2].body.bfly
    && ido0 == r1 * r2 && ido1 == r2 && l1b == r0 && l1c == r0 * r1
  }

  /** So does the three-pass trampoline with a plan of three. */
  method ThreePassTransforms<F(!new), C(!new)>(m: Machine<F>, max: nat, E: Coding<F, C>, ghost R: Ring<C>, ghost root: C, bodies: int -> Body<C>, tables: int -> seq<C>,
                                                 r0: nat, r1: nat, r2: nat, ghost plan: seq<Stage<C>>, ghost cc: int, ghost ch: int, ghost x: int)
    requires m.ThreeReady(max, cc, ch, x) && IsCoding(E) && IsRing(R)
    requires ThreeStages(bodies, tables, plan, r0, r1, r2, m.Arg(3), m.Arg(4), m.Arg(5), m.Arg(6), m.Arg(7), m.Arg(8), m.Arg(9), m.Arg(10), m.Arg(11))
    requires Sound(R, root, 1, plan) && m.points == Length(plan) && Pow(R, root, m.points) == R.one
    modifies m
    ensures var u, y := E.Dec(old(Words(m.mem, cc, m.points))), E.Dec(Words(m.mem, ch, m.points));
      |u| == |y| == m.points && forall k :: 0 <= k < m.points ==> y[k] == Transform(R, root, m.points, Mem(R, u), k)
    ensures Words(m.mem, ch, m.points) == E.Enc(E.Dec(Words(m.mem, ch, m.points)))
  {
    hide PassFunction, LastFunction, Coding.Dec, Coding.Enc, IsRing, Sound, Transform, Pow, RunsStage, IsCoding, IsKernel, Words, Machine.ArgIn, Machine.ChangedThree;
    var p0, p1, p2 := PassFunction(E, r0, bodies, tables), PassFunction(E, r1, bodies, tables), LastFunction(E, r2, bodies);
    PassIsKernel(E, r0, bodies, tables);
    PassIsKernel(E, r1, bodies, tables);
    LastIsKernel(E, r2, bodies);
    ghost var words, tw0, tw1, k0, k1, k2 := Words(m.mem, cc, m.points), m.Arg(3), m.Arg(4), m.Arg(5), m.Arg(6), m.Arg(7);
    ghost var ido0, ido1, l1b, l1c := m.Arg(8), m.Arg(9), m.Arg(10), m.Arg(11);
    m.ThreePass(max, p0, p1, p2, cc, ch, x);
    PointsOf(E, words);
    CountsPositive(r0, r1, r2);
    PassRunsStage(E, bodies, tables, plan[0], tw0, k0, ido0, 1);
    PassRunsStage(E, bodies, tables, plan[1], tw1, k1, ido1, l1b);
    LastRunsStage(E, bodies, plan[2], k2, l1c);
    LastLengths(plan);
    LastFactor(plan);
    KernelKeeps(p0, words, tw0, k0, ido0, 1);
    KernelKeeps(p1, p0(words, tw0, k0, ido0, 1), tw1, k1, ido1, l1b);
    LastEncodes(E, r2, bodies, p1(p0(words, tw0, k0, ido0, 1), tw1, k1, ido1, l1b), k2, l1c, m.points);
    forall k: nat | k < m.points ensures
      var out := E.Dec(p2(p1(p0(words, tw0, k0, ido0, 1), tw1, k1, ido1, l1b), 0, k2, 1, l1c));
      |out| == m.points && out[k] == Transform(R, root, m.points, Mem(R, E.Dec(words)), k)
    {
      ThreePassIsDft(R, root, E.Dec, p0, p1, p2, plan, tw0, tw1, k0, k1, k2, ido0, ido1, l1b, l1c, words, k);
    }
    SameLength(E, m, words, Words(m.mem, ch, m.points));
  }

  /** What a final kernel leaves are the words of points. */
  lemma LastEncodes<F(!new), C(!new)>(E: Coding<F, C>, r: int, bodies: int -> Body<C>, w: seq<Word<F>>, k: int, l: int, points: nat)
    requires IsCoding(E) && r > 0 && l > 0 && |w| == 2 * points && points == r * l
    ensures var out := LastFunction(E, r, bodies)(w, 0, k, 1, l); out == E.Enc(E.Dec(out))
  {
    hide LastResult, Coding.Dec, Coding.Enc;
    PointsOf(E, w);
    DecEnc(E, LastResult(bodies(k).bfly, E.Dec(w), r, l));
  }

  lemma KernelKeeps<F(!new)>(p: Kernel<F>, w: seq<Word<F>>, t: int, k: int, i: int, l: int)
    requires IsKernel(p)
    ensures |p(w, t, k, i, l)| == |w|
  {
    assert KeepsLength(p, w, t, k, i, l);
  }

  lemma LastFactor<C>(plan: seq<Stage<C>>)
    requires |plan| > 0
    ensures |plan| == 2 ==> Length(plan) == plan[1].r * plan[0].r
    ensures |plan| == 3 ==> Length(plan) == plan[2].r * (plan[0].r * plan[1].r)
  {
    LastLengths(plan);
    if |plan| == 2 || |plan| == 3 {
      assert plan[1..][0] == plan[1];
    }
    if |plan| == 2 {
      assert Length(plan) == plan[0].r * Length(plan[1..]);
    } else if |plan| == 3 {
      assert Length(plan) == plan[0].r * Length(plan[1..]);
      MulRegroup(plan[0].r, plan[1].r, plan[2].r);
    }
  }

  lemma CountsPositive(a: int, b: int, c: int)
    requires a > 0 && b > 0 && c > 0
    ensures a * b > 0 && b * c > 0
  {
  }

  lemma PointsOf<F(!new), C(!new)>(E: Coding<F, C>, w: seq<Word<F>>)
    requires |w| % 2 == 0
    ensures |E.Dec(w)| == |w| / 2
  {
  }

  lemma SameLength<F(!new), C(!new)>(E: Coding<F, C>, m: Machine<F>, v: seq<Word<F>>, w: seq<Word<F>>)
    requires |v| == |w| == 2 * m.points
    ensures |E.Dec(v)| == |E.Dec(w)| == m.points
  {
  }

  lemma LastLengths<C>(plan: seq<Stage<C>>)
    requires |plan| > 0
    ensures Length(plan[|plan|..]) == 1
    ensures |plan| > 1 ==> Length(plan[|plan| - 1..]) == plan[|plan| - 1].r
    ensures |plan| > 2 ==> Length(plan[|plan| - 2..]) == plan[|plan| - 2].r * plan[|plan| - 1].r
  {
    var n := |plan|;
    assert plan[n..] == [];
    assert plan[n - 1..][1..] == plan[n..];
    if n > 2 {
      assert plan[n - 2..][1..] == plan[n - 1..];
    }
  }
}
