/** The prime-factor bodies on the sixteen registers: radix 10, 15 and 20, whose stage-1 values all
    go through the frame, and radix 12, which keeps four of them. */
module PfaRegisters {
  import opened Scalar
  import opened PrimeFactor
  import opened Composite
  import opened StageBodies
  import opened StageRegisters

  // ------------------------------------------------------------ the butterflies

  datatype Triple = Triple(r0: int, r1: int, r2: int)

  predicate InFile3(q: Triple) {
    0 <= q.r0 < 16 && 0 <= q.r1 < 16 && 0 <= q.r2 < 16
  }

  predicate Without3(q: Triple, v: int) {
    v != q.r0 && v != q.r1 && v != q.r2
  }

  predicate Distinct3(q: Triple) {
    q.r0 != q.r1 && q.r0 != q.r2 && q.r1 != q.r2
  }

  /** comp12Bfly3 on registers x into y, through t: no register of t is one of x or y, and output 0
      does not take that of input 0. */
  predicate ThreeEach(x: Triple, y: Triple, t: Triple) {
    && InFile3(x) && InFile3(y) && InFile3(t) && Distinct3(y) && Distinct3(t) && y.r0 != x.r0
    && Without3(t, x.r0) && Without3(t, x.r1) && Without3(t, x.r2)
    && Without3(t, y.r0) && Without3(t, y.r1) && Without3(t, y.r2)
  }

  method Bfly3r<Z>(O: Ops<Z>, Y: Registers<Z>, x: Triple, y: Triple, t: Triple) returns (W: Registers<Z>)
    requires |Y| == 16 && ThreeEach(x, y, t)
    ensures |W| == 16
    ensures var b := Bfly3(O, Y[x.r0], Y[x.r1], Y[x.r2]); W[y.r0] == b[0] && W[y.r1] == b[1] && W[y.r2] == b[2]
    ensures forall v :: 0 <= v < 16 && Without3(y, v) && Without3(t, v) ==> W[v] == Y[v]
  {
    W := Y[t.r0 := O.add(Y[x.r1], Y[x.r2])];
    W := W[t.r1 := O.sub(W[x.r1], W[x.r2])];
    W := W[y.r0 := O.add(W[x.r0], W[t.r0])];
    W := W[t.r2 := O.half(W[t.r0])];
    W := W[t.r2 := O.sub(W[x.r0], W[t.r2])];
    W := W[t.r1 := O.sin120(W[t.r1])];
    W := W[t.r1 := O.rot(W[t.r1])];
    W := W[y.r1 := O.add(W[t.r2], W[t.r1])];
    W := W[y.r2 := O.sub(W[t.r2], W[t.r1])];
  }

  /** The loads and sums of comp2Bfly5: t1 to t4 in registers 3 to 6, y0 in 7, x0 in 0. */
  method Sums5<Z>(O: Ops<Z>, Y: Registers<Z>, c: seq<Z>) returns (W: Registers<Z>)
    requires |Y| == 16 && |c| == 5
    ensures |W| == 16 && W[0] == c[0] && W[3] == O.add(c[1], c[4]) && W[4] == O.sub(c[1], c[4])
    ensures W[5] == O.add(c[2], c[3]) && W[6] == O.sub(c[2], c[3]) && W[7] == O.add(O.add(c[0], O.add(c[1], c[4])), O.add(c[2], c[3]))
  {
    W := Y[0 := c[0]][1 := c[1]][2 := c[4]];
    W := W[3 := O.add(W[1], W[2])];
    W := W[4 := O.sub(W[1], W[2])];
    W := W[1 := c[2]][2 := c[3]];
    W := W[5 := O.add(W[1], W[2])];
    W := W[6 := O.sub(W[1], W[2])];
    W := W[7 := O.add(W[0], W[3])];
    W := W[7 := O.add(W[7], W[5])];
  }

  /** r1 and r2 in registers 8 and 9. */
  method Cosines5<Z>(O: Ops<Z>, Y: Registers<Z>) returns (W: Registers<Z>)
    requires |Y| == 16
    ensures |W| == 16 && W[8] == O.add(Y[0], O.add(O.c51(Y[3]), O.c52(Y[5]))) && W[9] == O.add(Y[0], O.add(O.c52(Y[3]), O.c51(Y[5])))
    ensures forall v :: 0 <= v < 8 ==> W[v] == Y[v]
  {
    W := Y[8 := O.c51(Y[3])];
    W := W[9 := O.c52(W[5])];
    W := W[8 := O.add(W[8], W[9])];
    W := W[8 := O.add(W[0], W[8])];
    W := W[9 := O.c52(W[3])];
    W := W[10 := O.c51(W[5])];
    W := W[9 := O.add(W[9], W[10])];
    W := W[9 := O.add(W[0], W[9])];
  }

  /** i1 and i2 in registers 10 and 11. */
  method Sines5<Z>(O: Ops<Z>, Y: Registers<Z>) returns (W: Registers<Z>)
    requires |Y| == 16
    ensures |W| == 16 && W[10] == O.rot(O.add(O.s51(Y[4]), O.s52(Y[6]))) && W[11] == O.rot(O.sub(O.s52(Y[4]), O.s51(Y[6])))
    ensures forall v :: 0 <= v < 10 ==> W[v] == Y[v]
  {
    W := Y[10 := O.s51(Y[4])];
    W := W[11 := O.s52(W[6])];
    W := W[10 := O.add(W[10], W[11])];
    W := W[10 := O.rot(W[10])];
    W := W[11 := O.s52(W[4])];
    W := W[12 := O.s51(W[6])];
    W := W[11 := O.sub(W[11], W[12])];
    W := W[11 := O.rot(W[11])];
  }

  /** comp2Bfly5: y0 to y4 in registers 7, 1, 2, 3 and 4. */
  method Bfly5r<Z>(O: Ops<Z>, Y: Registers<Z>, c: seq<Z>) returns (W: Registers<Z>)
    requires |Y| == 16 && |c| == 5
    ensures |W| == 16
    ensures var b := Bfly5(O, c[0], c[1], c[2], c[3], c[4]); [W[7], W[1], W[2], W[3], W[4]] == b
  {
    W := Sums5(O, Y, c);
    W := Cosines5(O, W);
    W := Sines5(O, W);
    W := W[1 := O.add(W[8], W[10])];
    W := W[4 := O.sub(W[8], W[10])];
    W := W[2 := O.add(W[9], W[11])];
    W := W[3 := O.sub(W[9], W[11])];
  }

  /** Where the second stage of radix 5·q leaves its first output. */
  function SecondAt(q: int): int {
    if q == 2 then 2 else if q == 3 then 3 else 8
  }

  /** The second stage of radix 5·q, on registers 0 to q - 1. */
  method Second<Z>(O: Ops<Z>, Y: Registers<Z>, q: int) returns (W: Registers<Z>)
    requires |Y| == 16 && q in {2, 3, 4}
    ensures |W| == 16 && forall k2 :: 0 <= k2 < q ==> W[SecondAt(q) + k2] == Bfly(O, q, Y[..q])[k2]
  {
    hide Bfly, Bfly3, Four;
    BflyOf(O, Y, q);
    if q == 2 {
      W := Y[2 := O.add(Y[0], Y[1])];
      W := W[3 := O.sub(W[0], W[1])];
    } else if q == 3 {
      W := Bfly3r(O, Y, Triple(0, 1, 2), Triple(3, 4, 5), Triple(6, 7, 8));
    } else {
      W := Bfly4r(O, Y, Quad(0, 1, 2, 3), Quad(4, 5, 6, 7), Quad(8, 9, 10, 11));
    }
  }

  lemma BflyOf<Z>(O: Ops<Z>, Y: Registers<Z>, q: int)
    requires |Y| == 16 && q in {2, 3, 4}
    ensures q == 2 ==> Bfly(O, q, Y[..q]) == [O.add(Y[0], Y[1]), O.sub(Y[0], Y[1])]
    ensures q == 3 ==> Bfly(O, q, Y[..q]) == Bfly3(O, Y[0], Y[1], Y[2]) && |Bfly3(O, Y[0], Y[1], Y[2])| == 3
    ensures q == 4 ==> Bfly(O, q, Y[..q]) == Four(O, [Y[0], Y[1], Y[2], Y[3]])
  {
  }

  // ------------------------------------------------------------ the values between the stages

  /** Stage-1 value (n2, k1). */
  function Value<Z>(zero: Z, O: Ops<Z>, p: nat, q: nat, x: seq<Z>, n2: int, k1: int): Z
    requires p in {2, 3, 4, 5, 8} && q > 0 && |x| == p * q
  {
    Output(zero, O, p)(PfaComb(x, p, q, n2), k1)
  }

  /** The values of k1, for the second stage. */
  function Values<Z>(zero: Z, O: Ops<Z>, p: nat, q: nat, x: seq<Z>, k1: int): (v: seq<Z>)
    requires p in {2, 3, 4, 5, 8} && q > 0 && |x| == p * q
    ensures |v| == q
  {
    seq(q, n2 requires 0 <= n2 < q => Value(zero, O, p, q, x, n2, k1))
  }

  lemma ValueIs<Z>(zero: Z, O: Ops<Z>, p: nat, q: nat, x: seq<Z>, n2: int, c: seq<Z>, k1: int)
    requires p in {3, 5} && q > 0 && |x| == p * q && c == PfaComb(x, p, q, n2) && 0 <= k1 < p
    ensures |c| == p && Value(zero, O, p, q, x, n2, k1) == Bfly(O, p, c)[k1]
  {
    hide Bfly, PfaComb;
  }

  lemma OutputIs<Z>(zero: Z, O: Ops<Z>, p: nat, q: nat, x: seq<Z>, k1: int, k2: int)
    requires p in {3, 5} && q in {2, 3, 4} && |x| == p * q && 0 <= k2 < q
    ensures PfaOutput(Output(zero, O, p), Output(zero, O, q), p, q, x, k1, k2) == Bfly(O, q, Values(zero, O, p, q, x, k1))[k2]
  {
    hide Bfly, PfaComb;
    assert Values(zero, O, p, q, x, k1) == seq(q, n2 requires 0 <= n2 < q => Output(zero, O, p)(PfaComb(x, p, q, n2), k1));
  }

  // ------------------------------------------------------------ the outputs

  /** The outputs of the first k1 second-stage butterflies, and k2 of the next one. */
  ghost predicate Made<Z>(zero: Z, O: Ops<Z>, p: nat, q: nat, x: seq<Z>, y: seq<Z>, k1: int, k2: int)
    requires p in {3, 5} && q in {2, 3, 4} && |x| == p * q
  {
    |y| == p * q && forall j :: 0 <= j < p * q && (OutputOf(p, j) < k1 || (OutputOf(p, j) == k1 && OutputOf(q, j) < k2)) ==>
      y[j] == PfaOutput(Output(zero, O, p), Output(zero, O, q), p, q, x, OutputOf(p, j), OutputOf(q, j))
  }

  lemma OneMore<Z>(zero: Z, O: Ops<Z>, p: nat, q: nat, m: PfaMap, a: int, b: int, x: seq<Z>, y: seq<Z>, k1: int, k2: int)
    requires p in {3, 5} && q in {2, 3, 4} && |x| == p * q && IsPfaMap(p, q, a, b, m) && 0 <= k1 < p && 0 <= k2 < q
    requires Made(zero, O, p, q, x, y, k1, k2)
    ensures |y| == p * q && 0 <= m.outs[k1][k2] < p * q
    ensures Made(zero, O, p, q, x, y[m.outs[k1][k2] := PfaOutput(Output(zero, O, p), Output(zero, O, q), p, q, x, k1, k2)], k1, k2 + 1)
  {
    hide PfaOut, PfaOutput, Output, Idempotents;
    PlaceOfBin(p, q, a, b, k1, k2);
  }

  lemma RowMade<Z>(zero: Z, O: Ops<Z>, p: nat, q: nat, x: seq<Z>, y: seq<Z>, k1: int)
    requires p in {3, 5} && q in {2, 3, 4} && |x| == p * q
    ensures Made(zero, O, p, q, x, y, k1, q) <==> Made(zero, O, p, q, x, y, k1 + 1, 0)
    ensures Made(zero, O, p, q, x, y, p, 0) ==> forall j :: 0 <= j < p * q ==>
      y[j] == PfaBody(zero, Output(zero, O, p), Output(zero, O, q), p, q)(x, j)
  {
    hide PfaOutput, Output;
    forall j | 0 <= j < p * q ensures 0 <= OutputOf(q, j) < q && 0 <= OutputOf(p, j) < p {
    }
  }

  /** Butterfly k1's outputs, in registers z on, to their places, the scratch registers of each
      product taken. */
  method StoreRow<Z>(zero: Z, O: Ops<Z>, junk: int -> Z, p: nat, q: nat, m: PfaMap, ghost a: int, ghost b: int, x: seq<Z>,
                     Y: Registers<Z>, z: int, y: seq<Z>, k1: int) returns (W: Registers<Z>, out: seq<Z>)
    requires p in {3, 5} && q in {2, 3, 4} && |x| == p * q && IsPfaMap(p, q, a, b, m) && 0 <= k1 < p
    requires |Y| == 16 && 0 <= z && z + q <= 12 && Made(zero, O, p, q, x, y, k1, 0)
    requires forall k2 :: 0 <= k2 < q ==> Y[z + k2] == Bfly(O, q, Values(zero, O, p, q, x, k1))[k2]
    ensures |W| == 16 && (forall v :: 0 <= v < 12 ==> W[v] == Y[v]) && Made(zero, O, p, q, x, out, k1 + 1, 0)
  {
    hide Made, Values, Bfly, Output, PfaOutput;
    W, out := Y, y;
    for k2 := 0 to q
      invariant |W| == 16 && (forall v :: 0 <= v < 12 ==> W[v] == Y[v]) && Made(zero, O, p, q, x, out, k1, k2)
    {
      OutputIs(zero, O, p, q, x, k1, k2);
      OneMore(zero, O, p, q, m, a, b, x, out, k1, k2);
      out := out[m.outs[k1][k2] := W[z + k2]];
      W := Clobber(W, [12, 13, 14, 15], junk);
    }
    RowMade(zero, O, p, q, x, out, k1);
  }

  // ------------------------------------------------------------ radix 10, 15 and 20

  /** Slot q·k1 + n2 holds value (n2, k1) for the butterflies before n. */
  ghost predicate Slots5<Z>(zero: Z, O: Ops<Z>, q: nat, x: seq<Z>, S: seq<Z>, n: int)
    requires q in {2, 3, 4} && |x| == 5 * q && |S| == 5 * q && n <= q
  {
    forall n2, k1 :: 0 <= n2 < n && 0 <= k1 < 5 ==> SlotHolds(zero, O, q, x, S, n2, k1)
  }

  ghost predicate SlotHolds<Z>(zero: Z, O: Ops<Z>, q: nat, x: seq<Z>, S: seq<Z>, n2: int, k1: int)
    requires q in {2, 3, 4} && |x| == 5 * q && |S| == 5 * q && 0 <= n2 < q && 0 <= k1 < 5
  {
    SlotInside(q, n2, k1);
    S[q * k1 + n2] == Value(zero, O, 5, q, x, n2, k1)
  }

  lemma SlotInside(q: nat, n2: int, k1: int)
    requires q in {2, 3, 4} && 0 <= n2 < q && 0 <= k1 < 5
    ensures 0 <= q * k1 + n2 < 5 * q
  {
  }

  /** The five stores of butterfly n2. */
  function FiveStored<Z>(S: seq<Z>, q: nat, n2: int, b: seq<Z>): (T: seq<Z>)
    requires q in {2, 3, 4} && |S| == 5 * q && 0 <= n2 < q && |b| == 5
    ensures |T| == 5 * q
  {
    S[n2 := b[0]][q + n2 := b[1]][q * 2 + n2 := b[2]][q * 3 + n2 := b[3]][q * 4 + n2 := b[4]]
  }

  lemma FiveAt<Z>(S: seq<Z>, q: nat, n2: int, b: seq<Z>, m: int, k1: int)
    requires q in {2, 3, 4} && |S| == 5 * q && 0 <= n2 < q && |b| == 5 && 0 <= m < q && 0 <= k1 < 5
    ensures 0 <= q * k1 + m < 5 * q
    ensures FiveStored(S, q, n2, b)[q * k1 + m] == if m == n2 then b[k1] else S[q * k1 + m]
  {
    SlotInside(q, m, k1);
    if k1 == 0 {
    } else if k1 == 1 {
    } else if k1 == 2 {
    } else if k1 == 3 {
    } else {
    }
  }

  lemma NextSlots<Z>(zero: Z, O: Ops<Z>, q: nat, x: seq<Z>, S: seq<Z>, n2: int, b: seq<Z>)
    requires q in {2, 3, 4} && |x| == 5 * q && |S| == 5 * q && 0 <= n2 < q && Slots5(zero, O, q, x, S, n2)
    requires |b| == 5 && forall k1 :: 0 <= k1 < 5 ==> b[k1] == Value(zero, O, 5, q, x, n2, k1)
    ensures Slots5(zero, O, q, x, FiveStored(S, q, n2, b), n2 + 1)
  {
    hide FiveStored, Value;
    forall m, k1 | 0 <= m < n2 + 1 && 0 <= k1 < 5 ensures SlotHolds(zero, O, q, x, FiveStored(S, q, n2, b), m, k1) {
      FiveAt(S, q, n2, b, m, k1);
      if m < n2 {
        assert SlotHolds(zero, O, q, x, S, m, k1);
      }
    }
  }

  /** The slots of k1 into registers 0 to q - 1. */
  method Reload5<Z>(zero: Z, O: Ops<Z>, q: nat, x: seq<Z>, Y: Registers<Z>, S: seq<Z>, k1: int) returns (W: Registers<Z>)
    requires q in {2, 3, 4} && |x| == 5 * q && |S| == 5 * q && |Y| == 16 && 0 <= k1 < 5 && Slots5(zero, O, q, x, S, q)
    ensures |W| == 16 && W[..q] == Values(zero, O, 5, q, x, k1)
  {
    hide Value;
    W := Y;
    for n2 := 0 to q
      invariant |W| == 16 && forall n :: 0 <= n < n2 ==> W[n] == Value(zero, O, 5, q, x, n, k1)
    {
      assert SlotHolds(zero, O, q, x, S, n2, k1);
      W := W[n2 := S[q * k1 + n2]];
    }
  }

  /** comp2Body, before the outer twiddles: every output of the two stages, whatever the scratch
      registers are left holding. */
  method Body5q<Z>(zero: Z, O: Ops<Z>, junk: int -> Z, q: nat, m: PfaMap, ghost a: int, ghost b: int, x: seq<Z>) returns (y: seq<Z>)
    requires q in {2, 3, 4} && |x| == 5 * q && IsPfaMap(5, q, a, b, m)
    ensures |y| == 5 * q
    ensures forall j :: 0 <= j < 5 * q ==> y[j] == PfaBody(zero, Output(zero, O, 5), Output(zero, O, q), 5, q)(x, j)
  {
    hide Slots5, Value, Values, Made, PfaBody, Output, PfaComb, Bfly, Bfly5, FiveStored;
    var Y, S := seq(16, v => junk(v)), seq(5 * q, v => junk(v));
    NoSlots(zero, O, q, x, S);
    for n2 := 0 to q
      invariant |Y| == 16 && |S| == 5 * q && Slots5(zero, O, q, x, S, n2)
    {
      var c := seq(5, n1 requires 0 <= n1 < 5 => (InputAt(m, q, a, b, n2, n1); x[m.ins[n2][n1]]));
      CombIs(m, q, a, b, x, n2, c);
      Y := Bfly5r(O, Y, c);
      ValuesOf5(zero, O, q, x, n2, c);
      NextSlots(zero, O, q, x, S, n2, [Y[7], Y[1], Y[2], Y[3], Y[4]]);
      S := FiveStored(S, q, n2, [Y[7], Y[1], Y[2], Y[3], Y[4]]);
    }
    y := seq(5 * q, v => zero);
    NoneMade(zero, O, 5, q, x, y);
    for k1 := 0 to 5
      invariant |Y| == 16 && |S| == 5 * q && Slots5(zero, O, q, x, S, q) && Made(zero, O, 5, q, x, y, k1, 0)
    {
      Y := Reload5(zero, O, q, x, Y, S, k1);
      Y := Second(O, Y, q);
      Y, y := StoreRow(zero, O, junk, 5, q, m, a, b, x, Y, SecondAt(q), y, k1);
    }
    AllMade(zero, O, 5, q, x, y);
  }

  lemma InputAt(m: PfaMap, q: nat, a: int, b: int, n2: int, n1: int)
    requires q in {2, 3, 4} && IsPfaMap(5, q, a, b, m) && 0 <= n2 < q && 0 <= n1 < 5
    ensures |m.ins| == q && |m.ins[n2]| == 5 && 0 <= m.ins[n2][n1] == PfaIn(5, q, n1, n2) < 5 * q
  {
  }

  lemma CombIs<Z>(m: PfaMap, q: nat, a: int, b: int, x: seq<Z>, n2: int, c: seq<Z>)
    requires q in {2, 3, 4} && IsPfaMap(5, q, a, b, m) && 0 <= n2 < q && |x| == 5 * q && |c| == 5
    requires forall n1 :: 0 <= n1 < 5 ==> 0 <= m.ins[n2][n1] < 5 * q && c[n1] == x[m.ins[n2][n1]]
    ensures c == PfaComb(x, 5, q, n2)
  {
  }

  lemma ValuesOf5<Z>(zero: Z, O: Ops<Z>, q: nat, x: seq<Z>, n2: int, c: seq<Z>)
    requires q in {2, 3, 4} && |x| == 5 * q && c == PfaComb(x, 5, q, n2)
    ensures |c| == 5 && var b := Bfly5(O, c[0], c[1], c[2], c[3], c[4]);
      |b| == 5 && forall k1 :: 0 <= k1 < 5 ==> b[k1] == Value(zero, O, 5, q, x, n2, k1)
  {
    hide PfaComb, Value;
    var b := Bfly5(O, c[0], c[1], c[2], c[3], c[4]);
    assert Bfly(O, 5, c) == b;
    hide Bfly5;
    forall k1 | 0 <= k1 < 5 ensures b[k1] == Value(zero, O, 5, q, x, n2, k1) {
      ValueIs(zero, O, 5, q, x, n2, c, k1);
    }
  }

  lemma NoSlots<Z>(zero: Z, O: Ops<Z>, q: nat, x: seq<Z>, S: seq<Z>)
    requires q in {2, 3, 4} && |x| == 5 * q && |S| == 5 * q
    ensures Slots5(zero, O, q, x, S, 0)
  {
  }

  lemma NoneMade<Z>(zero: Z, O: Ops<Z>, p: nat, q: nat, x: seq<Z>, y: seq<Z>)
    requires p in {3, 5} && q in {2, 3, 4} && |x| == p * q == |y|
    ensures Made(zero, O, p, q, x, y, 0, 0)
  {
    hide PfaOutput, Output;
    forall j | 0 <= j < p * q ensures 0 <= OutputOf(q, j) && 0 <= OutputOf(p, j) {
    }
  }

  lemma AllMade<Z>(zero: Z, O: Ops<Z>, p: nat, q: nat, x: seq<Z>, y: seq<Z>)
    requires p in {3, 5} && q in {2, 3, 4} && |x| == p * q && Made(zero, O, p, q, x, y, p, 0)
    ensures |y| == p * q
    ensures forall j :: 0 <= j < p * q ==> y[j] == PfaBody(zero, Output(zero, O, p), Output(zero, O, q), p, q)(x, j)
  {
    hide PfaOutput, Output, PfaBody;
    RowMade(zero, O, p, q, x, y, p);
  }

  // ------------------------------------------------------------ radix 12

  /** What stage 2 of radix 12 finds for value (n2, k1): a register for k1 = 0, else a slot. */
  function Found12<Z>(Y: Registers<Z>, S: seq<Z>, n2: int, k1: int): Z
    requires |Y| == 16 && |S| == 8 && 0 <= n2 < 4 && 0 <= k1 < 3
  {
    if k1 == 0 then Y[8 + n2] else S[4 * (k1 - 1) + n2]
  }

  ghost predicate Slots12<Z>(zero: Z, O: Ops<Z>, x: seq<Z>, Y: Registers<Z>, S: seq<Z>, n: int, from: int)
    requires |x| == 3 * 4 && |Y| == 16 && |S| == 8 && 0 <= n <= 4 && 0 <= from
  {
    forall n2, k1 :: 0 <= n2 < n && from <= k1 < 3 ==> Found12(Y, S, n2, k1) == Value(zero, O, 3, 4, x, n2, k1)
  }

  /** Stage 1 of butterfly n2: output 0 into register 8 + n2, the others through 3 and 4 to slots. */
  method RowOne12<Z>(zero: Z, O: Ops<Z>, x: seq<Z>, Y: Registers<Z>, S: seq<Z>, n2: int) returns (W: Registers<Z>, T: seq<Z>)
    requires |x| == 3 * 4 && |Y| == 16 && |S| == 8 && 0 <= n2 < 4 && Slots12(zero, O, x, Y, S, n2, 0)
    ensures |W| == 16 && |T| == 8 && Slots12(zero, O, x, W, T, n2 + 1, 0)
  {
    hide Bfly3, Value, PfaComb;
    var c := [x[MAP12.ins[n2][0]], x[MAP12.ins[n2][1]], x[MAP12.ins[n2][2]]];
    Comb12(x, n2, c);
    W := Y[0 := c[0]][1 := c[1]][2 := c[2]];
    W := Bfly3r(O, W, Triple(0, 1, 2), Triple(8 + n2, 3, 4), Triple(5, 6, 7));
    T := S[n2 := W[3]][4 + n2 := W[4]];
    Values12(zero, O, x, n2, c);
    forall m, k1 | 0 <= m < n2 + 1 && 0 <= k1 < 3 ensures Found12(W, T, m, k1) == Value(zero, O, 3, 4, x, m, k1) {
      if m < n2 {
        assert Found12(Y, S, m, k1) == Value(zero, O, 3, 4, x, m, k1);
      }
    }
  }

  lemma Comb12<Z>(x: seq<Z>, n2: int, c: seq<Z>)
    requires |x| == 3 * 4 && 0 <= n2 < 4 && |c| == 3
    requires forall n1 :: 0 <= n1 < 3 ==> 0 <= MAP12.ins[n2][n1] < 12 && c[n1] == x[MAP12.ins[n2][n1]]
    ensures c == PfaComb(x, 3, 4, n2)
  {
    hide PfaIn;
    forall n1 | 0 <= n1 < 3 ensures c[n1] == PfaComb(x, 3, 4, n2)[n1] {
      Map12Inputs(n2, n1);
    }
  }

  lemma Values12<Z>(zero: Z, O: Ops<Z>, x: seq<Z>, n2: int, c: seq<Z>)
    requires |x| == 3 * 4 && c == PfaComb(x, 3, 4, n2)
    ensures |c| == 3 && var b := Bfly3(O, c[0], c[1], c[2]);
      |b| == 3 && forall k1 :: 0 <= k1 < 3 ==> b[k1] == Value(zero, O, 3, 4, x, n2, k1)
  {
    hide PfaComb, Value;
    var b := Bfly3(O, c[0], c[1], c[2]);
    assert Bfly(O, 3, c) == b;
    hide Bfly3;
    forall k1 | 0 <= k1 < 3 ensures b[k1] == Value(zero, O, 3, 4, x, n2, k1) {
      ValueIs(zero, O, 3, 4, x, n2, c, k1);
    }
  }

  /** The butterfly of the values kept in registers 8 to 11, in registers 4 to 7. */
  method KeptRow12<Z>(O: Ops<Z>, Y: Registers<Z>) returns (W: Registers<Z>)
    requires |Y| == 16
    ensures |W| == 16 && [W[4], W[5], W[6], W[7]] == Four(O, [Y[8], Y[9], Y[10], Y[11]])
  {
    hide Four;
    W := Bfly4r(O, Y, Quad(8, 9, 10, 11), Quad(0, 1, 2, 3), Quad(4, 5, 6, 7));
  }

  /** That of the four slots from s on, in registers 8 to 11. */
  method SlotRow12<Z>(O: Ops<Z>, Y: Registers<Z>, S: seq<Z>, s: int) returns (W: Registers<Z>)
    requires |Y| == 16 && |S| == 8 && s in {0, 4}
    ensures |W| == 16 && [W[8], W[9], W[10], W[11]] == Four(O, [S[s], S[s + 1], S[s + 2], S[s + 3]])
  {
    hide Four;
    W := Y[0 := S[s]][1 := S[s + 1]][2 := S[s + 2]][3 := S[s + 3]];
    W := Bfly4r(O, W, Quad(0, 1, 2, 3), Quad(4, 5, 6, 7), Quad(8, 9, 10, 11));
  }

  /** Stage 2 of butterfly k1: its outputs in registers z to z + 3. */
  method RowTwo12<Z>(zero: Z, O: Ops<Z>, x: seq<Z>, Y: Registers<Z>, S: seq<Z>, k1: int) returns (W: Registers<Z>, z: int)
    requires |x| == 3 * 4 && |Y| == 16 && |S| == 8 && 0 <= k1 < 3 && Slots12(zero, O, x, Y, S, 4, k1)
    ensures |W| == 16 && 0 <= z && z + 4 <= 12
    ensures forall k2 :: 0 <= k2 < 4 ==> W[z + k2] == Bfly(O, 4, Values(zero, O, 3, 4, x, k1))[k2]
  {
    ghost var v := [Found12(Y, S, 0, k1), Found12(Y, S, 1, k1), Found12(Y, S, 2, k1), Found12(Y, S, 3, k1)];
    FoundAre(zero, O, x, Y, S, k1, v);
    hide Value, Values, Slots12, Bfly, Four;
    if k1 == 0 {
      W := KeptRow12(O, Y);
      z := 4;
    } else {
      W := SlotRow12(O, Y, S, 4 * (k1 - 1));
      z := 8;
    }
    assert [W[z], W[z + 1], W[z + 2], W[z + 3]] == Four(O, v);
  }

  lemma FoundAre<Z>(zero: Z, O: Ops<Z>, x: seq<Z>, Y: Registers<Z>, S: seq<Z>, k1: int, v: seq<Z>)
    requires |x| == 3 * 4 && |Y| == 16 && |S| == 8 && 0 <= k1 < 3 && Slots12(zero, O, x, Y, S, 4, k1)
    requires v == [Found12(Y, S, 0, k1), Found12(Y, S, 1, k1), Found12(Y, S, 2, k1), Found12(Y, S, 3, k1)]
    ensures v == Values(zero, O, 3, 4, x, k1) && Bfly(O, 4, Values(zero, O, 3, 4, x, k1)) == Four(O, v)
  {
    assert Bfly(O, 4, v) == Four(O, v);
    hide Value, Bfly, Four;
  }

  /** comp12Body, before the outer twiddles. */
  method Body12<Z>(zero: Z, O: Ops<Z>, junk: int -> Z, x: seq<Z>) returns (y: seq<Z>)
    requires |x| == 3 * 4
    ensures |y| == 12
    ensures forall j :: 0 <= j < 12 ==> y[j] == PfaBody(zero, Output(zero, O, 3), Output(zero, O, 4), 3, 4)(x, j)
  {
    Map12();
    hide Value, Values, Made, PfaBody, Output, IsPfaMap, Slots12, Bfly;
    var Y, S := seq(16, v => junk(v)), seq(8, v => junk(v));
    NoSlots12(zero, O, x, Y, S);
    for n2 := 0 to 4
      invariant |Y| == 16 && |S| == 8 && Slots12(zero, O, x, Y, S, n2, 0)
    {
      Y, S := RowOne12(zero, O, x, Y, S, n2);
    }
    y := seq(12, v => zero);
    NoneMade(zero, O, 3, 4, x, y);
    for k1 := 0 to 3
      invariant |Y| == 16 && |S| == 8 && Slots12(zero, O, x, Y, S, 4, k1) && Made(zero, O, 3, 4, x, y, k1, 0)
    {
      ghost var V := Y;
      var z;
      Y, z := RowTwo12(zero, O, x, Y, S, k1);
      Y, y := StoreRow(zero, O, junk, 3, 4, MAP12, 4, 9, x, Y, z, y, k1);
      LaterSlots(zero, O, x, V, Y, S, k1);
    }
    AllMade(zero, O, 3, 4, x, y);
  }

  /** Past k1 = 0 only slots are read. */
  lemma LaterSlots<Z>(zero: Z, O: Ops<Z>, x: seq<Z>, Y: Registers<Z>, W: Registers<Z>, S: seq<Z>, k1: int)
    requires |x| == 3 * 4 && |Y| == |W| == 16 && |S| == 8 && 0 <= k1 && Slots12(zero, O, x, Y, S, 4, k1)
    ensures Slots12(zero, O, x, W, S, 4, k1 + 1)
  {
    hide Value;
    forall n2, k | 0 <= n2 < 4 && k1 + 1 <= k < 3 ensures Found12(W, S, n2, k) == Value(zero, O, 3, 4, x, n2, k) {
      assert Found12(Y, S, n2, k) == Value(zero, O, 3, 4, x, n2, k);
    }
  }

  lemma NoSlots12<Z>(zero: Z, O: Ops<Z>, x: seq<Z>, Y: Registers<Z>, S: seq<Z>)
    requires |x| == 3 * 4 && |Y| == 16 && |S| == 8
    ensures Slots12(zero, O, x, Y, S, 0, 0)
  {
  }
}
