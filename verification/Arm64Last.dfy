/** The arm64 final passes (ido = 1), two blocks at a time: Last on interleaved points and
    LastSplit on pairs of points stored split leave the same array. */
module Arm64Last {
  import opened Modular
  import opened Scalar
  import opened Floats
  import opened Arm64Bodies
  import opened Arm64Split
  import opened LastKernel

  // ------------------------------------------------------------ the memory

  /** Point p of a memory of n points: its parts side by side, or, split, those of a pair's points
      two and two. */
  function PointAt<F>(split: bool, m: seq<F>, n: int, p: int): Cx<F>
    requires |m| == 2 * n && 0 <= p < n && (split ==> n % 2 == 0)
  {
    if split then PairInside(n, p); Cx(m[4 * (p / 2) + p % 2], m[4 * (p / 2) + p % 2 + 2]) else Cx(m[2 * p], m[2 * p + 1])
  }

  function Points<F>(split: bool, m: seq<F>, n: nat): (pts: seq<Cx<F>>)
    requires |m| == 2 * n && (split ==> n % 2 == 0)
    ensures |pts| == n
  {
    seq(n, p requires 0 <= p < n => PointAt(split, m, n, p))
  }

  lemma PairInside(n: int, p: int)
    requires 0 <= p < n && n % 2 == 0
    ensures 0 <= 4 * (p / 2) + p % 2 && 4 * (p / 2) + p % 2 + 2 < 2 * n
  {
    assert n == 2 * (n / 2) && p / 2 < n / 2;
  }

  /** Cell c of the memory of some points. */
  function LaidCell<F>(split: bool, pts: seq<Cx<F>>, c: int): F
    requires 0 <= c < 2 * |pts| && (split ==> |pts| % 2 == 0)
  {
    if split then
      CellInPair(|pts|, c);
      var z := pts[2 * (c / 4) + c % 2];
      if c % 4 < 2 then z.re else z.im
    else if c % 2 == 0 then pts[c / 2].re else pts[c / 2].im
  }

  function Laid<F>(split: bool, pts: seq<Cx<F>>): (m: seq<F>)
    requires split ==> |pts| % 2 == 0
    ensures |m| == 2 * |pts|
  {
    seq(2 * |pts|, c requires 0 <= c < 2 * |pts| => LaidCell(split, pts, c))
  }

  lemma CellInPair(n: int, c: int)
    requires 0 <= c < 2 * n && n % 2 == 0
    ensures 0 <= 2 * (c / 4) + c % 2 < n
  {
    assert n == 2 * (n / 2) && c / 4 < n / 2;
  }

  lemma EvenProduct(r: int, n: int)
    requires r in {2, 4, 8}
    ensures (r * n) % 2 == 0
  {
    match r {
      case 2 => assert r * n == 2 * n;
      case 4 => assert r * n == 2 * (2 * n);
      case _ => assert r * n == 2 * (4 * n);
    }
  }

  lemma PairCells(p: int)
    requires 0 <= p
    ensures var c := 4 * (p / 2) + p % 2;
      && c / 4 == p / 2 && c % 4 == p % 2 && c % 2 == p % 2 && 2 * (p / 2) + p % 2 == p
      && (c + 2) / 4 == p / 2 && (c + 2) % 4 == p % 2 + 2 && (c + 2) % 2 == p % 2
  {
  }

  lemma LaidAt<F>(split: bool, pts: seq<Cx<F>>, p: int)
    requires 0 <= p < |pts| && (split ==> |pts| % 2 == 0)
    ensures PointAt(split, Laid(split, pts), |pts|, p) == pts[p]
  {
    if split {
      PairInside(|pts|, p);
      SplitAt(pts, p);
    } else {
      assert LaidCell(false, pts, 2 * p) == pts[p].re && LaidCell(false, pts, 2 * p + 1) == pts[p].im;
    }
    hide LaidCell;
  }

  lemma SplitAt<F>(pts: seq<Cx<F>>, p: int)
    requires 0 <= p < |pts| && |pts| % 2 == 0
    ensures 0 <= 4 * (p / 2) + p % 2 && 4 * (p / 2) + p % 2 + 2 < 2 * |pts|
    ensures LaidCell(true, pts, 4 * (p / 2) + p % 2) == pts[p].re && LaidCell(true, pts, 4 * (p / 2) + p % 2 + 2) == pts[p].im
  {
    PairInside(|pts|, p);
    PairCells(p);
  }

  /** Either layout holds the points it was laid from. */
  lemma LaidPoints<F>(split: bool, pts: seq<Cx<F>>)
    requires split ==> |pts| % 2 == 0
    ensures Points(split, Laid(split, pts), |pts|) == pts
  {
    hide Laid, PointAt;
    forall p | 0 <= p < |pts| ensures Points(split, Laid(split, pts), |pts|)[p] == pts[p] {
      LaidAt(split, pts, p);
    }
  }

  /** Four cells of the split layout are two real parts and two imaginary parts; two cells of the
      other are one point. */
  lemma LaidPairs<F>(pts: seq<Cx<F>>, q: nat)
    requires |pts| % 2 == 0 && 2 * q + 1 < |pts|
    ensures 4 * q + 4 <= 2 * |pts|
    ensures Laid(true, pts)[4 * q..4 * q + 4] == [pts[2 * q].re, pts[2 * q + 1].re, pts[2 * q].im, pts[2 * q + 1].im]
    ensures Laid(false, pts)[4 * q..4 * q + 4] == [pts[2 * q].re, pts[2 * q].im, pts[2 * q + 1].re, pts[2 * q + 1].im]
  {
    CellsOfPair(pts, q);
    hide LaidCell;
    var c := 4 * q;
    var s, t := Laid(true, pts), Laid(false, pts);
    assert s[c..c + 4] == [s[c], s[c + 1], s[c + 2], s[c + 3]] && t[c..c + 4] == [t[c], t[c + 1], t[c + 2], t[c + 3]];
  }

  lemma CellsOfPair<F>(pts: seq<Cx<F>>, q: nat)
    requires |pts| % 2 == 0 && 2 * q + 1 < |pts|
    ensures var c := 4 * q;
      && LaidCell(true, pts, c) == pts[2 * q].re && LaidCell(true, pts, c + 1) == pts[2 * q + 1].re
      && LaidCell(true, pts, c + 2) == pts[2 * q].im && LaidCell(true, pts, c + 3) == pts[2 * q + 1].im
      && LaidCell(false, pts, c) == pts[2 * q].re && LaidCell(false, pts, c + 1) == pts[2 * q].im
      && LaidCell(false, pts, c + 2) == pts[2 * q + 1].re && LaidCell(false, pts, c + 3) == pts[2 * q + 1].im
  {
  }

  // ------------------------------------------------------------ the registers

  /** Word m of memory is point m. */
  ghost predicate AsPoints<F>(M: seq<D2<F>>, pts: seq<Cx<F>>) {
    |M| == |pts| && forall m :: 0 <= m < |pts| ==> M[m] == D2(pts[m].re, pts[m].im)
  }

  /** Where the words of a radix are loaded. */
  function Temps(r: int): int {
    if r in {3, 5} then 10 else 20
  }

  /** The two zips of point j, from the points at a and c. */
  function ZipPoint<F>(V: seq<D2<F>>, j: int, a: int, c: int): (W: seq<D2<F>>)
    requires |V| == 32 && 0 <= 2 * j < 31 && 2 * j + 1 < a < 32 && 2 * j + 1 < c < 32
    ensures |W| == 32 && W[2 * j] == D2(V[a].lo, V[c].lo) && W[2 * j + 1] == D2(V[a].hi, V[c].hi)
    ensures forall v :: 0 <= v < 32 && v != 2 * j && v != 2 * j + 1 ==> W[v] == V[v]
  {
    V[2 * j := Zip1(V[a], V[c])][2 * j + 1 := Zip2(V[a], V[c])]
  }

  method Fill<F>(V: seq<D2<F>>, M: seq<D2<F>>, t: int, n: int) returns (W: seq<D2<F>>)
    requires |V| == 32 && 0 <= t && 0 <= n <= |M| && t + n <= 32
    ensures |W| == 32 && forall m :: 0 <= m < n ==> W[t + m] == M[m]
  {
    W := V;
    for m := 0 to n
      invariant |W| == 32 && forall u :: 0 <= u < m ==> W[t + u] == M[u]
    {
      W := W[t + m := M[m]];
    }
  }

  /** Two interleaved blocks but of radix 8: every word loaded, then zipped. */
  method LoadPoints<F>(zero: F, M: seq<D2<F>>, ghost pts: seq<Cx<F>>, r: int) returns (V: seq<D2<F>>)
    requires r in {2, 3, 4, 5} && |pts| == 2 * r && AsPoints(M, pts)
    ensures |V| == 32 && forall j :: 0 <= j < r ==> Paired(V, pts, r, j)
  {
    var t := Temps(r);
    V := Fill(seq(32, _ => D2(zero, zero)), M, t, 2 * r);
    for j := 0 to r
      invariant |V| == 32 && forall m :: 0 <= m < 2 * r ==> V[t + m] == M[m]
      invariant forall u :: 0 <= u < j ==> Paired(V, pts, r, u)
    {
      assert V[t + j] == M[j] && V[t + (r + j)] == M[r + j];
      ghost var W := V;
      V := ZipPoint(V, j, t + j, t + r + j);
      PairsKept(W, V, pts, r, j);
      assert Paired(V, pts, r, j);
    }
  }

  /** Radix 8, in halves: the second block's points 4 to 7 go into registers the first half has
      freed. */
  method LoadPoints8<F>(zero: F, M: seq<D2<F>>, ghost pts: seq<Cx<F>>) returns (V: seq<D2<F>>)
    requires |pts| == 16 && AsPoints(M, pts)
    ensures |V| == 32 && forall j :: 0 <= j < 8 ==> Paired(V, pts, 8, j)
  {
    V := Fill(seq(32, _ => D2(zero, zero)), M, 20, 12);
    for j := 0 to 4
      invariant |V| == 32 && forall m :: 0 <= m < 12 ==> V[20 + m] == M[m]
      invariant forall u :: 0 <= u < j ==> Paired(V, pts, 8, u)
    {
      assert V[20 + j] == M[j] && V[20 + (8 + j)] == M[8 + j];
      ghost var W := V;
      V := ZipPoint(V, j, 20 + j, 28 + j);
      PairsKept(W, V, pts, 8, j);
      assert Paired(V, pts, 8, j);
    }
    V := SecondHalf(V, M, pts);
  }

  method SecondHalf<F>(half: seq<D2<F>>, M: seq<D2<F>>, ghost pts: seq<Cx<F>>) returns (V: seq<D2<F>>)
    requires |pts| == 16 && AsPoints(M, pts) && |half| == 32 && forall m :: 0 <= m < 12 ==> half[20 + m] == M[m]
    requires forall j :: 0 <= j < 4 ==> Paired(half, pts, 8, j)
    ensures |V| == 32 && forall j :: 0 <= j < 8 ==> Paired(V, pts, 8, j)
  {
    V := half[20 := M[12]][21 := M[13]][22 := M[14]][23 := M[15]];
    assert half[20 + 4] == M[4] && half[20 + 5] == M[5] && half[20 + 6] == M[6] && half[20 + 7] == M[7];
    PairsKept(half, V, pts, 8, 4);
    for j := 4 to 8
      invariant |V| == 32 && V[24] == M[4] && V[25] == M[5] && V[26] == M[6] && V[27] == M[7]
      invariant V[20] == M[12] && V[21] == M[13] && V[22] == M[14] && V[23] == M[15]
      invariant forall u :: 0 <= u < j ==> Paired(V, pts, 8, u)
    {
      assert j == 4 || j == 5 || j == 6 || j == 7;
      assert V[20 + j] == M[j] && V[20 + j - 4] == M[8 + j];
      ghost var W := V;
      V := ZipPoint(V, j, 20 + j, 20 + j - 4);
      PairsKept(W, V, pts, 8, j);
      assert Paired(V, pts, 8, j);
    }
  }

  /** The last block of an odd number: every point in both lanes. */
  method LoadAlone<F>(zero: F, M: seq<D2<F>>, ghost pts: seq<Cx<F>>, r: int) returns (V: seq<D2<F>>)
    requires r in {2, 3, 4, 5, 8} && |pts| == r && AsPoints(M, pts)
    ensures |V| == 32 && forall j :: 0 <= j < r ==> Alone(V, pts, j)
  {
    var t := Temps(r);
    V := Fill(seq(32, _ => D2(zero, zero)), M, t, r);
    for j := 0 to r
      invariant |V| == 32 && forall m :: 0 <= m < r ==> V[t + m] == M[m]
      invariant forall u :: 0 <= u < j ==> Alone(V, pts, u)
    {
      assert V[t + j] == M[j];
      ghost var W := V;
      V := ZipPoint(V, j, t + j, t + j);
      AloneKept(W, V, pts, j);
      assert Alone(V, pts, j);
    }
  }

  // ------------------------------------------------------------ the butterflies

  /** What the registers compute: the scalar butterfly, or for radix 3 and 5 its compiled form. */
  function ArmBody<F(!new)>(A: Arith<F>, k: FConsts<F>, inverse: bool, r: int, zero: F): (seq<Cx<F>>, int) -> Cx<F>
    requires r in {2, 3, 4, 5, 8}
  {
    (x: seq<Cx<F>>, j: int) => if |x| == r && 0 <= j < r then ArmOutputs(A, k, inverse, r, x)[j] else Cx(zero, zero)
  }

  function ArmOutputs<F(!new)>(A: Arith<F>, k: FConsts<F>, inverse: bool, r: int, x: seq<Cx<F>>): (y: seq<Cx<F>>)
    requires r in {2, 3, 4, 5, 8} && |x| == r
    ensures |y| == r
  {
    match r
    case 3 => Compiled3(A, k, inverse, x[0], x[1], x[2])
    case 5 => Compiled5(A, k, inverse, x[0], x[1], x[2], x[3], x[4])
    case _ => Bfly(Reference(A, k, inverse, true), r, x)
  }

  /** One lane of every register pair. */
  function LanePoints<F>(V: seq<D2<F>>, r: int, high: bool): (x: seq<Cx<F>>)
    requires |V| == 32 && 0 <= r <= 8
    ensures |x| == r
  {
    seq(r, j requires 0 <= j < r => if high then Cx(V[2 * j].hi, V[2 * j + 1].hi) else Cx(V[2 * j].lo, V[2 * j + 1].lo))
  }

  /** The radix's instructions on one lane. */
  method ArmButterfly<F(!new)>(A: Arith<F>, k: FConsts<F>, inverse: bool, r: int, x: seq<Cx<F>>) returns (y: seq<Cx<F>>)
    requires r in {2, 3, 4, 5, 8} && |x| == r && IsArith(A)
    ensures y == ArmOutputs(A, k, inverse, r, x)
  {
    hide IsArith, CAdd, CSub, Bfly3, Bfly4, Bfly5, Bfly8, Compiled3, Compiled5;
    match r {
      case 2 => y := [CAdd(A, x[0], x[1]), CSub(A, x[0], x[1])];
      case 3 => y := ArmBfly3(A, k, inverse, x);
      case 4 => y := ArmBfly4(A, k, inverse, x);
      case 5 => y := ArmBfly5(A, k, inverse, x);
      case _ => y := ArmBfly8(A, k, inverse, x);
    }
  }

  lemma LanesOfPair<F>(V: seq<D2<F>>, pts: seq<Cx<F>>, r: int)
    requires 0 <= r <= 8 && |pts| == 2 * r && |V| == 32 && forall j :: 0 <= j < r ==> Paired(V, pts, r, j)
    ensures LanePoints(V, r, false) == pts[..r] && LanePoints(V, r, true) == pts[r..]
  {
    forall j | 0 <= j < r ensures LanePoints(V, r, false)[j] == pts[j] && LanePoints(V, r, true)[j] == pts[r + j] {
      assert Paired(V, pts, r, j);
    }
  }

  lemma LaneAlone<F>(V: seq<D2<F>>, pts: seq<Cx<F>>, r: int)
    requires 0 <= r <= 8 && |pts| == r && |V| == 32 && forall j :: 0 <= j < r ==> Alone(V, pts, j)
    ensures LanePoints(V, r, false) == pts
  {
    forall j | 0 <= j < r ensures LanePoints(V, r, false)[j] == pts[j] {
      assert Alone(V, pts, j);
    }
  }

  // ------------------------------------------------------------ the pass

  class Last<F(!new)> {
    const cc: array<F>
    const ch: array<Cx<F>>
    const r: int
    const l1: int
    /** LastSplit, which reads pairs stored split. */
    const split: bool
    const A: Arith<F>
    const k: FConsts<F>
    const inverse: bool
    const zero: F
    ghost const input: seq<F>

    var R0: int          // the next word of input
    var R5: int          // pairs of blocks left
    var R17: int         // one output stream
    var outs: seq<int>   // the output streams

    constructor (cc: array<F>, ch: array<Cx<F>>, r: int, l1: int, split: bool, A: Arith<F>, k: FConsts<F>, inverse: bool, zero: F)
      requires r in {2, 3, 4, 5, 8} && (split ==> r in {2, 4, 8}) && l1 > 0 && IsArith(A)
      requires cc.Length == 2 * (r * l1) && ch.Length == r * l1
      ensures Valid() && this.cc == cc && this.ch == ch && this.r == r && this.l1 == l1 && this.split == split
      ensures this.A == A && this.k == k && this.inverse == inverse && this.zero == zero && input == cc[..]
    {
      this.cc, this.ch, this.r, this.l1, this.split := cc, ch, r, l1, split;
      this.A, this.k, this.inverse, this.zero := A, k, inverse, zero;
      input := cc[..];
    }

    ghost predicate Valid()
      reads cc
    {
      && r in {2, 3, 4, 5, 8} && (split ==> r in {2, 4, 8}) && l1 > 0 && IsArith(A)
      && cc.Length == 2 * (r * l1) && ch.Length == r * l1 && cc[..] == input
    }

    lemma Even()
      requires Valid()
      ensures 0 <= r * l1 && (split ==> (r * l1) % 2 == 0)
    {
      hide IsArith;
      assert 0 <= r * l1;
      if split {
        EvenProduct(r, l1);
      }
    }

    /** The points of the input, whatever its layout. */
    ghost function X(): (x: seq<Cx<F>>)
      requires Valid()
      ensures |x| == r * l1
      reads cc
    {
      Even();
      Points(split, input, r * l1)
    }

    /** The points of n blocks from block b on. */
    ghost function Blocks(b: int, n: int): (x: seq<Cx<F>>)
      requires Valid() && 0 <= b && 0 <= n && b + n <= l1
      ensures |x| == r * n
      reads cc
    {
      BlocksFit(b, n);
      X()[r * b..r * (b + n)]
    }

    lemma BlocksFit(b: int, n: int)
      requires Valid() && 0 <= b && 0 <= n && b + n <= l1
      ensures 0 <= r * b && r * (b + n) <= r * l1 && r * (b + n) == r * b + r * n && 0 <= r * n
    {
      MulLower(r, l1 - (b + n));
      MulSub(r, l1, b + n);
    }

    /** Output j of block b. */
    ghost function Want(b: int, j: int): Cx<F>
      requires Valid() && 0 <= b < l1
      reads cc
    {
      ArmBody(A, k, inverse, r, zero)(Blocks(b, 1), j)
    }

    /** The output streams stand at block b, those below j `past` points past it. */
    ghost predicate OutsAt(b: int, j: int, past: int)
      reads `outs
    {
      |outs| == r && forall t :: 0 <= t < r ==> outs[t] == 16 * (b + l1 * t + if t < j then past else 0)
    }

    ghost predicate CellDone(a: int)
      requires Valid() && 0 <= a < ch.Length
      reads cc, ch
    {
      ch[a] == Want(a % l1, a / l1)
    }

    /** The columns before column b are done, and of the next `lanes` the outputs below j. */
    ghost predicate Done(b: int, lanes: int, j: int)
      requires Valid()
      reads cc, ch
    {
      forall a :: 0 <= a < ch.Length && (a % l1 < b || (a % l1 < b + lanes && a / l1 < j)) ==> CellDone(a)
    }

    /** The words of n points, loaded as they lie. */
    method Words(n: int, ghost p: int) returns (M: seq<D2<F>>)
      requires Valid() && R0 == 16 * p && 0 <= p && 0 <= n && p + n <= r * l1
      modifies `R0
      ensures R0 == 16 * (p + n) && |M| == n && forall v :: 0 <= v < n ==> M[v] == D2(input[2 * (p + v)], input[2 * (p + v) + 1])
    {
      M := [];
      for v := 0 to n
        invariant R0 == 16 * (p + v) && |M| == v
        invariant forall u :: 0 <= u < v ==> M[u] == D2(input[2 * (p + u)], input[2 * (p + u) + 1])
      {
        M := M + [D2(cc[R0 / 8], cc[R0 / 8 + 1])];
        R0 := R0 + 16;
      }
    }

    /** The words of n points are pairs, or points, in the layout. */
    lemma WordsLie(M: seq<D2<F>>, p: int, n: int)
      requires Valid() && 0 <= p && 0 <= n && p + n <= r * l1 && (split ==> p % 2 == 0 && n % 2 == 0)
      requires |M| == n && forall v :: 0 <= v < n ==> M[v] == D2(input[2 * (p + v)], input[2 * (p + v) + 1])
      ensures if split then AsPairs(M, X()[p..p + n]) else AsPoints(M, X()[p..p + n])
    {
      if split {
        forall q | 0 <= q < n / 2
          ensures M[2 * q] == PairRe(X()[p..p + n], q) && M[2 * q + 1] == PairIm(X()[p..p + n], q)
        {
          PairLies(p, q);
        }
      }
    }

    lemma PairLies(p: int, q: int)
      requires Valid() && split && 0 <= p && p % 2 == 0 && 0 <= q && p + 2 * q + 1 < r * l1
      ensures X()[p + 2 * q] == Cx(input[2 * (p + 2 * q)], input[2 * (p + 2 * q + 1)])
      ensures X()[p + 2 * q + 1] == Cx(input[2 * (p + 2 * q) + 1], input[2 * (p + 2 * q + 1) + 1])
    {
      hide IsArith;
      Even();
      var u := p / 2 + q;
      assert p + 2 * q == 2 * u;
      PairCells(2 * u);
      PairCells(2 * u + 1);
    }

    // ------------------------------------------------------ the loads

    /** Point j of two blocks in registers 2j and 2j + 1. */
    method LoadPair(ghost b: int) returns (V: seq<D2<F>>)
      requires Valid() && R0 == 16 * (r * b) && 0 <= b && b + 2 <= l1
      modifies `R0
      ensures R0 == 16 * (r * (b + 2)) && |V| == 32 && forall j :: 0 <= j < r ==> Paired(V, Blocks(b, 2), r, j)
    {
      BlocksFit(b, 2);
      EvenBlocks(b, 2);
      ghost var pts := Blocks(b, 2);
      hide X, IsArith, Paired;
      var M := Words(r * 2, r * b);
      WordsLie(M, r * b, r * 2);
      hide Blocks;
      if split {
        if r == 8 {
          V := LoadBlocks8(zero, M, pts);
        } else {
          V := LoadBlocks(zero, M, pts, r);
        }
      } else if r == 8 {
        V := LoadPoints8(zero, M, pts);
      } else {
        V := LoadPoints(zero, M, pts, r);
      }
    }

    lemma EvenBlocks(b: int, n: int)
      requires Valid()
      ensures split ==> (r * b) % 2 == 0 && (r * n) % 2 == 0
    {
      hide IsArith;
      if split {
        EvenProduct(r, b);
        EvenProduct(r, n);
      }
    }

    /** The last block, in lane 0. */
    method LoadLone(ghost b: int) returns (V: seq<D2<F>>)
      requires Valid() && R0 == 16 * (r * b) && 0 <= b < l1
      modifies `R0
      ensures |V| == 32 && forall j :: 0 <= j < r ==> Alone(V, Blocks(b, 1), j)
    {
      BlocksFit(b, 1);
      EvenBlocks(b, 1);
      ghost var pts := Blocks(b, 1);
      hide X, IsArith, Alone;
      var M := Words(r, r * b);
      WordsLie(M, r * b, r);
      hide Blocks;
      if split {
        V := LoadTail(zero, M, pts, r);
      } else {
        V := LoadAlone(zero, M, pts, r);
      }
    }

    // ------------------------------------------------------ the stores

    lemma WantIs(b: int, x: seq<Cx<F>>, j: int)
      requires Valid() && 0 <= b < l1 && x == Blocks(b, 1) && 0 <= j < r
      ensures Want(b, j) == ArmOutputs(A, k, inverse, r, x)[j]
    {
      hide Blocks, ArmOutputs, IsArith;
    }

    lemma StreamCell(b: int, t: int)
      requires 0 <= b < l1 && 0 <= t < r
      ensures var c := b + l1 * t; 0 <= c < r * l1 && c % l1 == b && c / l1 == t
    {
      CellBounds(l1, r, b, t);
      DivModUnique(l1, b, t);
      assert l1 * r == r * l1;
    }

    /** VST2.P: two points at stream j, and the stream past them. */
    method Vst2(j: int, y0: Cx<F>, y1: Cx<F>, ghost b: int)
      requires OutsAt(b, j, 2) && 0 <= j < r && 0 <= b && b + 2 <= l1 && ch.Length == r * l1
      modifies ch, `outs
      ensures OutsAt(b, j + 1, 2)
      ensures forall a :: 0 <= a < ch.Length ==> ch[a] == if a == b + l1 * j then y0 else if a == b + l1 * j + 1 then y1 else old(ch[a])
    {
      StreamCell(b, j);
      StreamCell(b + 1, j);
      ch[outs[j] / 16] := y0;
      ch[outs[j] / 16 + 1] := y1;
      outs := outs[j := outs[j] + 32];
    }

    /** Output j of both blocks. */
    method StoreTwo(j: int, y0: Cx<F>, y1: Cx<F>, ghost b: int)
      requires Valid() && OutsAt(b, j, 2) && 0 <= j < r && 0 <= b && b + 2 <= l1 && Done(b, 2, j)
      requires y0 == Want(b, j) && y1 == Want(b + 1, j)
      modifies ch, `outs
      ensures Valid() && OutsAt(b, j + 1, 2) && Done(b, 2, j + 1)
    {
      StreamCell(b, j);
      StreamCell(b + 1, j);
      hide Want, IsArith, OutsAt;
      Vst2(j, y0, y1, b);
      CellsAreDistinct(l1, b + l1 * j);
      CellsAreDistinct(l1, b + 1 + l1 * j);
      forall a | 0 <= a < ch.Length && (a % l1 < b || (a % l1 < b + 2 && a / l1 < j + 1)) ensures CellDone(a) {
        assert a == b + l1 * j || a == b + l1 * j + 1 || old(CellDone(a));
      }
    }

    /** The butterflies of one pair of blocks. */
    method ButterflyPair(ghost b: int) returns (y0: seq<Cx<F>>, y1: seq<Cx<F>>)
      requires Valid() && R0 == 16 * (r * b) && 0 <= b && b + 2 <= l1
      modifies `R0
      ensures R0 == 16 * (r * (b + 2)) && Outputs(y0, b) && Outputs(y1, b + 1)
    {
      hide Blocks, Want, ArmOutputs, IsArith, Paired;
      var V := LoadPair(b);
      PairLanes(V, b);
      hide LanePoints;
      y0 := OneLane(LanePoints(V, r, false), b);
      y1 := OneLane(LanePoints(V, r, true), b + 1);
    }

    ghost predicate Outputs(y: seq<Cx<F>>, b: int)
      requires Valid() && 0 <= b < l1
      reads cc
    {
      |y| == r && forall j :: 0 <= j < r ==> y[j] == Want(b, j)
    }

    method OneLane(x: seq<Cx<F>>, ghost b: int) returns (y: seq<Cx<F>>)
      requires Valid() && 0 <= b < l1 && x == Blocks(b, 1)
      ensures Outputs(y, b)
    {
      hide Blocks, Want, ArmOutputs, IsArith;
      y := ArmButterfly(A, k, inverse, r, x);
      forall j | 0 <= j < r ensures y[j] == Want(b, j) {
        WantIs(b, x, j);
      }
    }

    /** One pair of blocks. */
    method Step(ghost b: int)
      requires Valid() && R0 == 16 * (r * b) && OutsAt(b, 0, 2) && 0 <= b && b + 2 <= l1 && Done(b, 0, 0)
      modifies ch, `outs, `R0
      ensures Valid() && R0 == 16 * (r * (b + 2)) && OutsAt(b + 2, 0, 2) && Done(b + 2, 0, 0)
    {
      hide Want, IsArith, OutsAt, Done;
      var y0, y1 := ButterflyPair(b);
      StartPart(b, 2);
      for j := 0 to r
        invariant Valid() && R0 == 16 * (r * (b + 2)) && OutsAt(b, j, 2) && Done(b, 2, j)
      {
        StoreTwo(j, y0[j], y1[j], b);
      }
      EndPart(b, 2);
      OutsMoved(b);
    }

    lemma OutsMoved(b: int)
      requires OutsAt(b, r, 2)
      ensures OutsAt(b + 2, 0, 2)
    {
    }

    lemma PairLanes(V: seq<D2<F>>, b: int)
      requires Valid() && 0 <= b && b + 2 <= l1 && |V| == 32 && forall j :: 0 <= j < r ==> Paired(V, Blocks(b, 2), r, j)
      ensures LanePoints(V, r, false) == Blocks(b, 1) && LanePoints(V, r, true) == Blocks(b + 1, 1)
    {
      BlocksFit(b, 1);
      BlocksFit(b + 1, 1);
      BlocksFit(b, 2);
      hide X, IsArith, Paired, LanePoints;
      LanesOfPair(V, Blocks(b, 2), r);
    }

    lemma StartPart(b: int, lanes: int)
      requires Valid() && Done(b, 0, 0)
      ensures Done(b, lanes, 0)
    {
      hide Want, CellDone;
      forall a | 0 <= a < ch.Length ensures 0 <= a / l1 {
        CellOf(l1, r, a);
      }
    }

    lemma EndPart(b: int, lanes: int)
      requires Valid() && Done(b, lanes, r)
      ensures Done(b + lanes, 0, 0)
    {
      hide Want, CellDone;
      forall a | 0 <= a < ch.Length ensures 0 <= a / l1 < r {
        assert l1 * r == r * l1;
        CellOf(l1, r, a);
      }
    }

    /** The last block of an odd number: lane 0 of every output. */
    method Tail(ghost b: int)
      requires Valid() && R0 == 16 * (r * b) && OutsAt(b, 0, 2) && 0 <= b == l1 - l1 % 2 && Done(b, 0, 0)
      modifies ch, `R0
      ensures Valid() && Done(l1, 0, 0)
    {
      hide Want, IsArith, OutsAt, Done;
      if l1 % 2 != 0 {
        var y := ButterflyLone(b);
        StartPart(b, 1);
        for j := 0 to r
          invariant Valid() && OutsAt(b, 0, 2) && Done(b, 1, j)
        {
          StoreOne(j, y[j], b);
        }
        EndPart(b, 1);
      }
    }

    method ButterflyLone(ghost b: int) returns (y: seq<Cx<F>>)
      requires Valid() && R0 == 16 * (r * b) && 0 <= b < l1
      modifies `R0
      ensures Outputs(y, b)
    {
      hide Blocks, Want, ArmOutputs, IsArith, Alone;
      var V := LoadLone(b);
      LaneAlone(V, Blocks(b, 1), r);
      hide LanePoints;
      y := OneLane(LanePoints(V, r, false), b);
    }

    /** FSTPD. */
    method StoreOne(j: int, y: Cx<F>, ghost b: int)
      requires Valid() && OutsAt(b, 0, 2) && 0 <= j < r && 0 <= b < l1 && Done(b, 1, j) && y == Want(b, j)
      modifies ch
      ensures Valid() && Done(b, 1, j + 1)
    {
      StreamCell(b, j);
      hide Want, IsArith;
      ch[outs[j] / 16] := y;
      CellsAreDistinct(l1, b + l1 * j);
      forall a | 0 <= a < ch.Length && (a % l1 < b || (a % l1 < b + 1 && a / l1 < j + 1)) ensures CellDone(a) {
        assert a == b + l1 * j || old(CellDone(a));
      }
    }

    /** The streams, r of them R17 apart. */
    method SetStreams()
      requires Valid()
      modifies `R17, `outs
      ensures OutsAt(0, 0, 2)
    {
      R17 := l1 * 16;
      outs := [0];
      for j := 1 to r
        invariant R17 == 16 * l1 && |outs| == j && forall t :: 0 <= t < j ==> outs[t] == 16 * (l1 * t)
      {
        MulAdd(l1, j - 1, 1);
        outs := outs + [outs[j - 1] + R17];
      }
    }

    /** Both kernels leave the final pass of their input's points. */
    method Run()
      requires Valid()
      modifies this, ch
      ensures Valid() && ch[..] == LastResult(ArmBody(A, k, inverse, r, zero), X(), r, l1)
    {
      SetStreams();
      R0, R5 := 0, l1 / 2;
      ghost var b := 0;
      StartDone();
      hide OutsAt, Done, Want, X, IsArith, ArmBody;
      while R5 != 0
        invariant Valid() && R0 == 16 * (r * b) && OutsAt(b, 0, 2) && 0 <= b && 0 <= R5 && b == l1 - l1 % 2 - 2 * R5 && Done(b, 0, 0)
        decreases R5
      {
        Step(b);
        b, R5 := b + 2, R5 - 1;
      }
      Tail(b);
      AllDone();
    }

    lemma StartDone()
      requires Valid()
      ensures Done(0, 0, 0) && r * 0 == 0
    {
    }

    lemma AllDone()
      requires Valid() && Done(l1, 0, 0)
      ensures ch[..] == LastResult(ArmBody(A, k, inverse, r, zero), X(), r, l1)
    {
      hide X, IsArith, ArmBody;
      forall a | 0 <= a < ch.Length ensures ch[a] == LastResult(ArmBody(A, k, inverse, r, zero), X(), r, l1)[a] {
        BlockBounds(r, l1, a % l1);
        assert CellDone(a);
      }
    }
  }

  /** Whatever points two memories hold, LastSplit on the pair layout and Last on the interleaved
      one leave the same array, odd numbers of blocks included. */
  method SplitIsInterleaved<F(!new)>(A: Arith<F>, k: FConsts<F>, inverse: bool, zero: F, pts: seq<Cx<F>>, r: int, l1: int,
                                     interleaved: array<F>, pairs: array<F>, ch: array<Cx<F>>, other: array<Cx<F>>)
    requires r in {2, 4, 8} && l1 > 0 && IsArith(A) && |pts| == r * l1 && |pts| % 2 == 0
    requires interleaved[..] == Laid(false, pts) && pairs[..] == Laid(true, pts)
    requires ch.Length == other.Length == r * l1 && ch != other
    modifies ch, other
    ensures ch[..] == other[..] == LastResult(ArmBody(A, k, inverse, r, zero), pts, r, l1)
  {
    hide IsArith, Laid, Points, ArmBody, LastResult;
    LaidPoints(false, pts);
    LaidPoints(true, pts);
    var last := new Last(interleaved, ch, r, l1, false, A, k, inverse, zero);
    var lastSplit := new Last(pairs, other, r, l1, true, A, k, inverse, zero);
    last.Run();
    lastSplit.Run();
  }
}
