/** The final pass of the 128-bit split layout: the zips that gather point j of two blocks from
    pairs of points stored as they lie. */
module Arm64Split {
  import opened Floats

  /** A register of two lanes. */
  datatype D2<F> = D2(lo: F, hi: F)

  /** VZIP1 and VZIP2: the low, and the high, lanes of two registers. */
  function Zip1<F>(a: D2<F>, c: D2<F>): D2<F> {
    D2(a.lo, c.lo)
  }

  function Zip2<F>(a: D2<F>, c: D2<F>): D2<F> {
    D2(a.hi, c.hi)
  }

  function Zip<F>(j: int, a: D2<F>, c: D2<F>): D2<F> {
    if j % 2 == 0 then Zip1(a, c) else Zip2(a, c)
  }

  /** The registers one VLD1 fills from pair q of the split memory of some points. */
  function PairRe<F>(pts: seq<Cx<F>>, q: int): D2<F>
    requires 0 <= q && 2 * q + 1 < |pts|
  {
    D2(pts[2 * q].re, pts[2 * q + 1].re)
  }

  function PairIm<F>(pts: seq<Cx<F>>, q: int): D2<F>
    requires 0 <= q && 2 * q + 1 < |pts|
  {
    D2(pts[2 * q].im, pts[2 * q + 1].im)
  }

  /** What the VLD1s load from the split memory of some points, register by register. */
  ghost predicate AsPairs<F>(M: seq<D2<F>>, pts: seq<Cx<F>>) {
    |M| == |pts| && |pts| % 2 == 0 && forall q :: 0 <= q < |pts| / 2 ==> M[2 * q] == PairRe(pts, q) && M[2 * q + 1] == PairIm(pts, q)
  }

  /** Registers 2j and 2j + 1 hold point j of both blocks, as the interleaved kernel's do. */
  ghost predicate Paired<F>(V: seq<D2<F>>, pts: seq<Cx<F>>, r: int, j: int)
    requires 0 <= j < r && |pts| == 2 * r && |V| == 32 && r <= 8
  {
    V[2 * j] == D2(pts[j].re, pts[r + j].re) && V[2 * j + 1] == D2(pts[j].im, pts[r + j].im)
  }

  lemma ZipPairs<F>(pts: seq<Cx<F>>, r: int, j: int)
    requires r % 2 == 0 && 0 <= j < r && |pts| == 2 * r
    ensures 0 <= j / 2 && 2 * (j / 2) + 1 < r && 2 * (r / 2 + j / 2) + 1 < 2 * r
    ensures Zip(j, PairRe(pts, j / 2), PairRe(pts, r / 2 + j / 2)) == D2(pts[j].re, pts[r + j].re)
    ensures Zip(j, PairIm(pts, j / 2), PairIm(pts, r / 2 + j / 2)) == D2(pts[j].im, pts[r + j].im)
  {
  }

  /** The two zips of point j, from the pairs at a and at c. */
  function ZipInto<F>(V: seq<D2<F>>, j: int, a: int, c: int): (W: seq<D2<F>>)
    requires |V| == 32 && 0 <= 2 * j < 16 && 20 <= a < 31 && 20 <= c < 31
    ensures |W| == 32 && W[2 * j] == Zip(j, V[a], V[c]) && W[2 * j + 1] == Zip(j, V[a + 1], V[c + 1])
    ensures forall v :: 0 <= v < 32 && v != 2 * j && v != 2 * j + 1 ==> W[v] == V[v]
  {
    V[2 * j := Zip(j, V[a], V[c])][2 * j + 1 := Zip(j, V[a + 1], V[c + 1])]
  }

  /** Registers above the first 2j leave the pairs before point j. */
  lemma PairsKept<F>(V: seq<D2<F>>, W: seq<D2<F>>, pts: seq<Cx<F>>, r: int, j: int)
    requires 0 <= j <= r <= 8 && |pts| == 2 * r && |V| == |W| == 32
    requires forall v :: 0 <= v < 2 * j ==> W[v] == V[v]
    requires forall u :: 0 <= u < j ==> Paired(V, pts, r, u)
    ensures forall u :: 0 <= u < j ==> Paired(W, pts, r, u)
  {
    forall u | 0 <= u < j ensures Paired(W, pts, r, u) {
      assert Paired(V, pts, r, u);
    }
  }

  /** Radix 2 and 4: every pair loaded from V20 on, then zipped. */
  method LoadBlocks<F>(zero: F, M: seq<D2<F>>, ghost pts: seq<Cx<F>>, r: int) returns (V: seq<D2<F>>)
    requires r in {2, 4} && |pts| == 2 * r && AsPairs(M, pts)
    ensures |V| == 32 && forall j :: 0 <= j < r ==> Paired(V, pts, r, j)
  {
    hide ZipInto, Zip, PairRe, PairIm;
    V := seq(32, _ => D2(zero, zero));
    for q := 0 to r
      invariant |V| == 32 && forall u :: 0 <= u < q ==> V[20 + 2 * u] == PairRe(pts, u) && V[21 + 2 * u] == PairIm(pts, u)
    {
      V := V[20 + 2 * q := M[2 * q]][21 + 2 * q := M[2 * q + 1]];
    }
    for j := 0 to r
      invariant |V| == 32 && forall u :: 0 <= u < r ==> V[20 + 2 * u] == PairRe(pts, u) && V[21 + 2 * u] == PairIm(pts, u)
      invariant forall u :: 0 <= u < j ==> Paired(V, pts, r, u)
    {
      var qa, qb := j / 2, r / 2 + j / 2;
      ZipPairs(pts, r, j);
      assert V[20 + 2 * qa] == PairRe(pts, qa) && V[21 + 2 * qa] == PairIm(pts, qa);
      assert V[20 + 2 * qb] == PairRe(pts, qb) && V[21 + 2 * qb] == PairIm(pts, qb);
      ghost var W := V;
      V := ZipInto(V, j, 20 + 2 * qa, 20 + 2 * qb);
      PairsKept(W, V, pts, r, j);
      assert Paired(V, pts, r, j);
    }
  }

  /** Radix 8, in halves: pairs 6 and 7 go into registers the first half has freed. */
  method LoadBlocks8<F>(zero: F, M: seq<D2<F>>, ghost pts: seq<Cx<F>>) returns (V: seq<D2<F>>)
    requires |pts| == 16 && AsPairs(M, pts)
    ensures |V| == 32 && forall j :: 0 <= j < 8 ==> Paired(V, pts, 8, j)
  {
    hide ZipInto, Zip, PairRe, PairIm;
    V := seq(32, _ => D2(zero, zero));
    for q := 0 to 6
      invariant |V| == 32 && forall u :: 0 <= u < q ==> V[20 + 2 * u] == PairRe(pts, u) && V[21 + 2 * u] == PairIm(pts, u)
    {
      V := V[20 + 2 * q := M[2 * q]][21 + 2 * q := M[2 * q + 1]];
    }
    for j := 0 to 4
      invariant |V| == 32 && forall u :: 0 <= u < 6 ==> V[20 + 2 * u] == PairRe(pts, u) && V[21 + 2 * u] == PairIm(pts, u)
      invariant forall u :: 0 <= u < j ==> Paired(V, pts, 8, u)
    {
      ZipPairs(pts, 8, j);
      var q := j / 2;
      assert V[20 + 2 * q] == PairRe(pts, q) && V[21 + 2 * q] == PairIm(pts, q);
      assert V[20 + 2 * (4 + q)] == PairRe(pts, 4 + q) && V[21 + 2 * (4 + q)] == PairIm(pts, 4 + q);
      ghost var W := V;
      V := ZipInto(V, j, 20 + 2 * q, 28 + 2 * q);
      PairsKept(W, V, pts, 8, j);
      assert Paired(V, pts, 8, j);
    }
    V := SecondHalf8(V, M, pts);
  }

  method SecondHalf8<F>(half: seq<D2<F>>, M: seq<D2<F>>, ghost pts: seq<Cx<F>>) returns (V: seq<D2<F>>)
    requires |pts| == 16 && |half| == 32 && AsPairs(M, pts)
    requires forall u :: 0 <= u < 6 ==> half[20 + 2 * u] == PairRe(pts, u) && half[21 + 2 * u] == PairIm(pts, u)
    requires forall u :: 0 <= u < 4 ==> Paired(half, pts, 8, u)
    ensures |V| == 32 && forall j :: 0 <= j < 8 ==> Paired(V, pts, 8, j)
  {
    hide ZipInto, Zip, PairRe, PairIm;
    assert half[20 + 2 * 2] == PairRe(pts, 2) && half[20 + 2 * 3] == PairRe(pts, 3);
    V := half;
    assert M[2 * 6] == PairRe(pts, 6) && M[2 * 7] == PairRe(pts, 7);
    V := V[20 := M[12]][21 := M[13]][22 := M[14]][23 := M[15]];
    PairsKept(half, V, pts, 8, 4);
    for j := 4 to 8
      invariant |V| == 32
      invariant V[20] == PairRe(pts, 6) && V[21] == PairIm(pts, 6) && V[22] == PairRe(pts, 7) && V[23] == PairIm(pts, 7)
      invariant V[24] == PairRe(pts, 2) && V[25] == PairIm(pts, 2) && V[26] == PairRe(pts, 3) && V[27] == PairIm(pts, 3)
      invariant forall u :: 0 <= u < j ==> Paired(V, pts, 8, u)
    {
      ZipPairs(pts, 8, j);
      var q := j / 2;
      assert q == 2 || q == 3;
      ghost var W := V;
      V := ZipInto(V, j, 20 + 2 * q, 16 + 2 * q);
      PairsKept(W, V, pts, 8, j);
      assert Paired(V, pts, 8, j);
    }
  }

  /** Lane 0 of registers 2j and 2j + 1 holds point j. */
  ghost predicate Alone<F>(V: seq<D2<F>>, pts: seq<Cx<F>>, j: int)
    requires 0 <= j < |pts| <= 8 && |V| == 32
  {
    V[2 * j].lo == pts[j].re && V[2 * j + 1].lo == pts[j].im
  }

  /** A pair zipped with itself leaves point j in lane 0. */
  lemma ZipAlone<F>(V: seq<D2<F>>, pts: seq<Cx<F>>, j: int)
    requires |V| == 32 && |pts| in {2, 4, 8} && 0 <= j < |pts|
    requires V[20 + 2 * (j / 2)] == PairRe(pts, j / 2) && V[21 + 2 * (j / 2)] == PairIm(pts, j / 2)
    ensures Alone(ZipInto(V, j, 20 + 2 * (j / 2), 20 + 2 * (j / 2)), pts, j)
  {
    hide ZipInto;
    assert j == 2 * (j / 2) || j == 2 * (j / 2) + 1;
  }

  lemma AloneKept<F>(V: seq<D2<F>>, W: seq<D2<F>>, pts: seq<Cx<F>>, j: int)
    requires 0 <= j <= |pts| <= 8 && |V| == |W| == 32
    requires forall v :: 0 <= v < 2 * j ==> W[v] == V[v]
    requires forall u :: 0 <= u < j ==> Alone(V, pts, u)
    ensures forall u :: 0 <= u < j ==> Alone(W, pts, u)
  {
    forall u | 0 <= u < j ensures Alone(W, pts, u) {
      assert Alone(V, pts, u);
    }
  }

  /** The last block of an odd number, alone: point j in both lanes, of which lane 0 is stored. */
  method LoadTail<F>(zero: F, M: seq<D2<F>>, ghost pts: seq<Cx<F>>, r: int) returns (V: seq<D2<F>>)
    requires r in {2, 4, 8} && |pts| == r && AsPairs(M, pts)
    ensures |V| == 32 && forall j :: 0 <= j < r ==> Alone(V, pts, j)
  {
    hide Alone, ZipInto, PairRe, PairIm;
    V := seq(32, _ => D2(zero, zero));
    for q := 0 to r / 2
      invariant |V| == 32 && forall u :: 0 <= u < q ==> V[20 + 2 * u] == PairRe(pts, u) && V[21 + 2 * u] == PairIm(pts, u)
    {
      V := V[20 + 2 * q := M[2 * q]][21 + 2 * q := M[2 * q + 1]];
    }
    for j := 0 to r
      invariant |V| == 32 && forall u :: 0 <= u < r / 2 ==> V[20 + 2 * u] == PairRe(pts, u) && V[21 + 2 * u] == PairIm(pts, u)
      invariant forall u :: 0 <= u < j ==> Alone(V, pts, u)
    {
      var q := j / 2;
      assert V[20 + 2 * q] == PairRe(pts, q) && V[21 + 2 * q] == PairIm(pts, q);
      ZipAlone(V, pts, j);
      ghost var W := V;
      V := ZipInto(V, j, 20 + 2 * q, 20 + 2 * q);
      AloneKept(W, V, pts, j);
    }
  }
}
