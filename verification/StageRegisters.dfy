/** The radix-16 and radix-9 bodies on the sixteen registers: which register or frame slot holds
    which value, and that no scratch register is taken before its value is used. */
module StageRegisters {
  import opened Scalar
  import opened Composite

  /** The registers, and what an instruction leaves in a scratch register v: any value at all. */
  type Registers<Z> = seq<Z>

  function Clobber<Z>(Y: Registers<Z>, scratch: seq<int>, junk: int -> Z): (W: Registers<Z>)
    requires |Y| == 16 && forall v :: v in scratch ==> 0 <= v < 16
    ensures |W| == 16 && forall v :: 0 <= v < 16 && v !in scratch ==> W[v] == Y[v]
  {
    seq(16, v requires 0 <= v < 16 => if v in scratch then junk(v) else Y[v])
  }

  /** The r-point butterfly as a function of output number. */
  function Output<Z>(zero: Z, O: Ops<Z>, r: int): (seq<Z>, int) -> Z
    requires r in {2, 3, 4, 5, 8}
  {
    (xs: seq<Z>, j: int) => if |xs| == r && 0 <= j < r then Bfly(O, r, xs)[j] else zero
  }

  // ------------------------------------------------------------ radix 16

  /** z·W16^e: nothing for e = 0, the rotation for 4, else rot16's product. */
  function Turn16Of<Z>(O: Ops<Z>, rot16: (int, Z) -> Z): (int, Z) -> Z {
    (e: int, z: Z) => if e == 0 then z else if e == 4 then O.rot(z) else rot16(e, z)
  }

  /** Four registers. */
  datatype Quad = Quad(r0: int, r1: int, r2: int, r3: int)

  predicate Apart(q: Quad) {
    q.r0 != q.r1 && q.r0 != q.r2 && q.r0 != q.r3 && q.r1 != q.r2 && q.r1 != q.r3 && q.r2 != q.r3
  }

  predicate InFile(q: Quad) {
    0 <= q.r0 < 16 && 0 <= q.r1 < 16 && 0 <= q.r2 < 16 && 0 <= q.r3 < 16
  }

  predicate Without(q: Quad, v: int) {
    v != q.r0 && v != q.r1 && v != q.r2 && v != q.r3
  }

  /** Four registers each for the inputs, the sums and the outputs: the sums are apart from both. */
  predicate FourEach(i: Quad, t: Quad, z: Quad) {
    && InFile(i) && InFile(t) && InFile(z) && Apart(t) && Apart(z)
    && Without(t, i.r0) && Without(t, i.r1) && Without(t, i.r2) && Without(t, i.r3)
    && Without(t, z.r0) && Without(t, z.r1) && Without(t, z.r2) && Without(t, z.r3)
  }

  /** The four outputs of a radix-4 butterfly. */
  function Four<Z>(O: Ops<Z>, c: seq<Z>): (b: seq<Z>)
    requires |c| == 4
    ensures |b| == 4
  {
    Bfly4(O, c[0], c[1], c[2], c[3])
  }

  /** bfly4r: the four sums, then the four outputs, which may take the inputs' registers. */
  method Bfly4r<Z>(O: Ops<Z>, Y: Registers<Z>, i: Quad, t: Quad, z: Quad) returns (W: Registers<Z>)
    requires |Y| == 16 && FourEach(i, t, z)
    ensures |W| == 16
    ensures var b := Four(O, [Y[i.r0], Y[i.r1], Y[i.r2], Y[i.r3]]);
      W[z.r0] == b[0] && W[z.r1] == b[1] && W[z.r2] == b[2] && W[z.r3] == b[3]
    ensures forall v :: 0 <= v < 16 && Without(t, v) && Without(z, v) ==> W[v] == Y[v]
  {
    W := Sums4(O, Y, i, t);
    W := Outputs4(O, W, t, z);
  }

  method Sums4<Z>(O: Ops<Z>, Y: Registers<Z>, i: Quad, t: Quad) returns (W: Registers<Z>)
    requires |Y| == 16 && InFile(i) && InFile(t) && Apart(t)
    requires Without(t, i.r0) && Without(t, i.r1) && Without(t, i.r2) && Without(t, i.r3)
    ensures |W| == 16 && W[t.r0] == O.add(Y[i.r0], Y[i.r2]) && W[t.r1] == O.sub(Y[i.r0], Y[i.r2])
    ensures W[t.r2] == O.add(Y[i.r1], Y[i.r3]) && W[t.r3] == O.rot(O.sub(Y[i.r1], Y[i.r3]))
    ensures forall v :: 0 <= v < 16 && Without(t, v) ==> W[v] == Y[v]
  {
    W := Y[t.r0 := O.add(Y[i.r0], Y[i.r2])];
    W := W[t.r1 := O.sub(W[i.r0], W[i.r2])];
    W := W[t.r2 := O.add(W[i.r1], W[i.r3])];
    W := W[t.r3 := O.sub(W[i.r1], W[i.r3])];
    W := W[t.r3 := O.rot(W[t.r3])];
  }

  method Outputs4<Z>(O: Ops<Z>, Y: Registers<Z>, t: Quad, z: Quad) returns (W: Registers<Z>)
    requires |Y| == 16 && InFile(t) && InFile(z) && Apart(z)
    requires Without(t, z.r0) && Without(t, z.r1) && Without(t, z.r2) && Without(t, z.r3)
    ensures |W| == 16 && W[z.r0] == O.add(Y[t.r0], Y[t.r2]) && W[z.r1] == O.add(Y[t.r1], Y[t.r3])
    ensures W[z.r2] == O.sub(Y[t.r0], Y[t.r2]) && W[z.r3] == O.sub(Y[t.r1], Y[t.r3])
    ensures forall v :: 0 <= v < 16 && Without(z, v) ==> W[v] == Y[v]
  {
    W := Y[z.r0 := O.add(Y[t.r0], Y[t.r2])];
    W := W[z.r1 := O.add(W[t.r1], W[t.r3])];
    W := W[z.r2 := O.sub(W[t.r0], W[t.r2])];
    W := W[z.r3 := O.sub(W[t.r1], W[t.r3])];
  }

  /** Stage-1 value (n2, k1): a register for k1 = 0 and 1, a frame slot for 2 and 3. */
  function Keep16(n2: int, k1: int): int {
    8 + 4 * k1 + n2
  }

  function Slot16(n2: int, k1: int): int {
    4 * (k1 - 2) + n2
  }

  /** What stage 2 finds where it looks for value (n2, k1). */
  function Found<Z>(Y: Registers<Z>, S: seq<Z>, n2: int, k1: int): Z
    requires |Y| == 16 && |S| == 8 && 0 <= n2 < 4 && 0 <= k1 < 4
  {
    if k1 < 2 then Y[Keep16(n2, k1)] else S[Slot16(n2, k1)]
  }

  /** The stage-1 value itself. */
  function Value16<Z>(zero: Z, O: Ops<Z>, rot16: (int, Z) -> Z, x: seq<Z>, n2: int, k1: int): Z
    requires |x| == 4 * 4 && 0 <= n2 < 4
  {
    SplitValue(Output(zero, O, 4), Turn16Of(O, rot16), 4, 4, x, n2, k1)
  }

  /** Registers past 5 and slots that are not those of value (n2, k1) are kept. */
  ghost predicate OthersKept<Z>(Y: Registers<Z>, S: seq<Z>, W: Registers<Z>, T: seq<Z>, n2: int, k1: int)
    requires |Y| == |W| == 16 && |S| == |T| == 8
  {
    && (forall v :: 8 <= v < 16 && !(k1 < 2 && v == Keep16(n2, k1)) ==> W[v] == Y[v])
    && (forall a :: 0 <= a < 8 && !(k1 >= 2 && a == Slot16(n2, k1)) ==> T[a] == S[a])
  }

  /** So are the other values that wait. */
  lemma OthersFound<Z>(Y: Registers<Z>, S: seq<Z>, W: Registers<Z>, T: seq<Z>, n2: int, k1: int, m: int, k: int)
    requires |Y| == |W| == 16 && |S| == |T| == 8 && OthersKept(Y, S, W, T, n2, k1)
    requires 0 <= n2 < 4 && 0 <= k1 < 4 && 0 <= m < 4 && 0 <= k < 4 && !(m == n2 && k == k1)
    ensures Found(W, T, m, k) == Found(Y, S, m, k)
  {
  }

  /** The instructions of a turn: nothing, a rotation, or rot16 with its two scratch registers. */
  method TurnTo<Z>(O: Ops<Z>, rot16: (int, Z) -> Z, junk: int -> Z, Y: Registers<Z>, ex: int, src: int, dst: int)
    returns (W: Registers<Z>)
    requires |Y| == 16 && 0 <= src < 3 && (dst == 5 || 8 <= dst < 16)
    ensures |W| == 16 && W[dst] == Turn16Of(O, rot16)(ex, Y[src])
    ensures forall v :: 0 <= v < 16 && v != 3 && v != 4 && v != dst ==> W[v] == Y[v]
  {
    if ex == 0 {
      W := Y[dst := Y[src]];
    } else if ex == 4 {
      W := Y[dst := O.rot(Y[src])];
    } else {
      W := Clobber(Y, [3, 4], junk)[dst := rot16(ex, Y[src])];
    }
  }

  /** The turn of output k1 of the butterfly n2, from register k1 - 1 to where it waits; a value
      that needs no turn and goes to a slot is stored as it is. */
  method TurnInto<Z>(O: Ops<Z>, rot16: (int, Z) -> Z, junk: int -> Z, Y: Registers<Z>, S: seq<Z>, n2: int, k1: int)
    returns (W: Registers<Z>, T: seq<Z>)
    requires |Y| == 16 && |S| == 8 && 0 <= n2 < 4 && 1 <= k1 < 4
    ensures |W| == 16 && |T| == 8 && Found(W, T, n2, k1) == Turn16Of(O, rot16)(n2 * k1, Y[k1 - 1])
    ensures forall v :: k1 <= v < 3 ==> W[v] == Y[v]
    ensures OthersKept(Y, S, W, T, n2, k1)
  {
    W, T := Y, S;
    if k1 == 1 {
      W := TurnTo(O, rot16, junk, Y, n2, 0, Keep16(n2, 1));
    } else {
      var dst := k1 - 1;
      if n2 * k1 != 0 {
        dst := 5;
        W := TurnTo(O, rot16, junk, Y, n2 * k1, k1 - 1, 5);
      }
      T := T[Slot16(n2, k1) := W[dst]];
    }
  }

  /** The loads and the sums of butterfly n2: output 0 where it waits, 1 to 3 in registers 0 to 2. */
  method SumsOne<Z>(O: Ops<Z>, x: seq<Z>, Y: Registers<Z>, S: seq<Z>, n2: int) returns (W: Registers<Z>)
    requires |x| == 4 * 4 && |Y| == 16 && |S| == 8 && 0 <= n2 < 4
    ensures |W| == 16 && Found(W, S, n2, 0) == Four(O, Comb(x, 4, 4, n2))[0]
    ensures forall k :: 1 <= k < 4 ==> W[k - 1] == Four(O, Comb(x, 4, 4, n2))[k]
    ensures OthersKept(Y, S, W, S, n2, 0)
  {
    hide Four, Comb;
    LoadsAreComb(x, n2);
    W := Y[0 := x[n2]][1 := x[n2 + 4]][2 := x[n2 + 8]][3 := x[n2 + 12]];
    assert [W[0], W[1], W[2], W[3]] == Comb(x, 4, 4, n2);
    W := Bfly4r(O, W, Quad(0, 1, 2, 3), Quad(4, 5, 6, 7), Quad(Keep16(n2, 0), 0, 1, 2));
  }

  /** Every value of the butterflies before n2 waits, and those of n2 before k1. */
  ghost predicate Waiting<Z>(zero: Z, O: Ops<Z>, rot16: (int, Z) -> Z, x: seq<Z>, Y: Registers<Z>, S: seq<Z>, n2: int, k1: int)
    requires |x| == 4 * 4 && |Y| == 16 && |S| == 8
  {
    forall m, k :: 0 <= m < 4 && 0 <= k < 4 && (m < n2 || (m == n2 && k < k1)) ==> Found(Y, S, m, k) == Value16(zero, O, rot16, x, m, k)
  }

  lemma NextWaits<Z>(zero: Z, O: Ops<Z>, rot16: (int, Z) -> Z, x: seq<Z>, Y: Registers<Z>, S: seq<Z>, W: Registers<Z>, T: seq<Z>, n2: int, k1: int)
    requires |x| == 4 * 4 && |Y| == |W| == 16 && |S| == |T| == 8 && 0 <= n2 < 4 && 0 <= k1 < 4
    requires Waiting(zero, O, rot16, x, Y, S, n2, k1) && OthersKept(Y, S, W, T, n2, k1)
    requires Found(W, T, n2, k1) == Value16(zero, O, rot16, x, n2, k1)
    ensures Waiting(zero, O, rot16, x, W, T, n2, k1 + 1)
  {
    hide Found, Value16, OthersKept;
    forall m, k | 0 <= m < 4 && 0 <= k < 4 && (m < n2 || (m == n2 && k < k1 + 1))
      ensures Found(W, T, m, k) == Value16(zero, O, rot16, x, m, k)
    {
      if !(m == n2 && k == k1) {
        OthersFound(Y, S, W, T, n2, k1, m, k);
      }
    }
  }

  lemma RowWaits<Z>(zero: Z, O: Ops<Z>, rot16: (int, Z) -> Z, x: seq<Z>, Y: Registers<Z>, S: seq<Z>, n2: int)
    requires |x| == 4 * 4 && |Y| == 16 && |S| == 8
    ensures Waiting(zero, O, rot16, x, Y, S, n2, 4) <==> Waiting(zero, O, rot16, x, Y, S, n2 + 1, 0)
  {
    hide Found, Value16;
  }

  /** Stage 1 of butterfly n2. */
  method RowOne<Z>(zero: Z, O: Ops<Z>, rot16: (int, Z) -> Z, junk: int -> Z, x: seq<Z>, Y: Registers<Z>, S: seq<Z>, n2: int)
    returns (W: Registers<Z>, T: seq<Z>)
    requires |x| == 4 * 4 && |Y| == 16 && |S| == 8 && 0 <= n2 < 4 && Waiting(zero, O, rot16, x, Y, S, n2, 0)
    ensures |W| == 16 && |T| == 8 && Waiting(zero, O, rot16, x, W, T, n2 + 1, 0)
  {
    hide Turn16Of, Value16, Comb, Four, Found, Waiting, OthersKept;
    ghost var b := Four(O, Comb(x, 4, 4, n2));
    W := SumsOne(O, x, Y, S, n2);
    T := S;
    ValueIs(zero, O, rot16, x, n2, 0);
    NextWaits(zero, O, rot16, x, Y, S, W, T, n2, 0);
    for k1 := 1 to 4
      invariant |W| == 16 && |T| == 8 && Waiting(zero, O, rot16, x, W, T, n2, k1)
      invariant forall k :: k1 <= k < 4 ==> W[k - 1] == b[k]
    {
      ValueIs(zero, O, rot16, x, n2, k1);
      ghost var V, R := W, T;
      W, T := TurnInto(O, rot16, junk, W, T, n2, k1);
      NextWaits(zero, O, rot16, x, V, R, W, T, n2, k1);
    }
    RowWaits(zero, O, rot16, x, W, T, n2);
  }

  lemma LoadsAreComb<Z>(x: seq<Z>, n2: int)
    requires |x| == 4 * 4 && 0 <= n2 < 4
    ensures Comb(x, 4, 4, n2) == [x[n2], x[n2 + 4], x[n2 + 8], x[n2 + 12]]
  {
  }

  lemma OutputIs<Z>(zero: Z, O: Ops<Z>, c: seq<Z>, k: int)
    requires |c| == 4 && 0 <= k < 4
    ensures Output(zero, O, 4)(c, k) == Four(O, c)[k]
  {
    assert Bfly(O, 4, c) == Four(O, c);
    hide Bfly, Four;
  }

  lemma ValueIs<Z>(zero: Z, O: Ops<Z>, rot16: (int, Z) -> Z, x: seq<Z>, n2: int, k: int)
    requires |x| == 4 * 4 && 0 <= n2 < 4 && 0 <= k < 4
    ensures Value16(zero, O, rot16, x, n2, k) == Turn16Of(O, rot16)(n2 * k, Four(O, Comb(x, 4, 4, n2))[k])
    ensures k == 0 ==> Value16(zero, O, rot16, x, n2, k) == Four(O, Comb(x, 4, 4, n2))[k]
  {
    hide Output, Comb, Four;
    OutputIs(zero, O, Comb(x, 4, 4, n2), k);
  }

  /** The stage-1 values of k1, where they wait. */
  function Column<Z>(Y: Registers<Z>, S: seq<Z>, k1: int): (v: seq<Z>)
    requires |Y| == 16 && |S| == 8 && 0 <= k1 < 4
    ensures |v| == 4
  {
    [Found(Y, S, 0, k1), Found(Y, S, 1, k1), Found(Y, S, 2, k1), Found(Y, S, 3, k1)]
  }

  /** What still waits after k1 is kept. */
  ghost predicate LaterKept<Z>(Y: Registers<Z>, W: Registers<Z>, k1: int)
    requires |Y| == |W| == 16
  {
    k1 == 0 ==> W[12] == Y[12] && W[13] == Y[13] && W[14] == Y[14] && W[15] == Y[15]
  }

  lemma LaterFound<Z>(Y: Registers<Z>, S: seq<Z>, W: Registers<Z>, k1: int, m: int, k: int)
    requires |Y| == |W| == 16 && |S| == 8 && LaterKept(Y, W, k1) && 0 <= m < 4 && 0 <= k1 < k < 4
    ensures Found(W, S, m, k) == Found(Y, S, m, k)
  {
  }

  /** Stage 2 of butterfly k1, from the kept registers or the slots read back: its outputs in the
      registers from z on, and the scratch registers of the products from tt on. */
  method SumsTwo<Z>(O: Ops<Z>, Y: Registers<Z>, S: seq<Z>, k1: int) returns (W: Registers<Z>, z: int, tt: int)
    requires |Y| == 16 && |S| == 8 && 0 <= k1 < 4
    ensures |W| == 16 && z == (if k1 < 2 then 4 else 8) && tt == z + 4 && LaterKept(Y, W, k1)
    ensures var b := Four(O, Column(Y, S, k1)); W[z] == b[0] && W[z + 1] == b[1] && W[z + 2] == b[2] && W[z + 3] == b[3]
  {
    hide Four;
    if k1 < 2 {
      W := Bfly4r(O, Y, Quad(Keep16(0, k1), Keep16(1, k1), Keep16(2, k1), Keep16(3, k1)), Quad(0, 1, 2, 3), Quad(4, 5, 6, 7));
      z, tt := 4, 8;
    } else {
      W := Y[0 := S[Slot16(0, k1)]][1 := S[Slot16(1, k1)]][2 := S[Slot16(2, k1)]][3 := S[Slot16(3, k1)]];
      assert [W[0], W[1], W[2], W[3]] == Column(Y, S, k1);
      W := Bfly4r(O, W, Quad(0, 1, 2, 3), Quad(4, 5, 6, 7), Quad(8, 9, 10, 11));
      z, tt := 8, 12;
    }
  }

  /** The outputs k1 + 4·k2 stored, the scratch registers of each product taken. */
  method RowTwo<Z>(O: Ops<Z>, junk: int -> Z, Y: Registers<Z>, S: seq<Z>, y: seq<Z>, k1: int) returns (W: Registers<Z>, out: seq<Z>)
    requires |Y| == 16 && |S| == 8 && |y| == 16 && 0 <= k1 < 4
    ensures |W| == 16 && |out| == 16 && LaterKept(Y, W, k1)
    ensures forall k2 :: 0 <= k2 < 4 ==> out[k1 + 4 * k2] == Four(O, Column(Y, S, k1))[k2]
    ensures forall j :: 0 <= j < 16 && j % 4 != k1 ==> out[j] == y[j]
  {
    hide Four, Column;
    ghost var b := Four(O, Column(Y, S, k1));
    var z, tt;
    W, z, tt := SumsTwo(O, Y, S, k1);
    ghost var V := W;
    assert V[z] == b[0] && V[z + 1] == b[1] && V[z + 2] == b[2] && V[z + 3] == b[3];
    out := y;
    for k2 := 0 to 4
      invariant |W| == 16 && |out| == 16 && forall v :: 0 <= v < 16 && !(tt <= v < tt + 4) ==> W[v] == V[v]
      invariant forall q :: 0 <= q < k2 ==> out[k1 + 4 * q] == b[q]
      invariant forall j :: 0 <= j < 16 && j % 4 != k1 ==> out[j] == y[j]
    {
      assert V[z + k2] == b[k2];
      out := out[k1 + 4 * k2 := W[z + k2]];
      W := Clobber(W, [tt, tt + 1, tt + 2, tt + 3], junk);
    }
  }

  /** The whole radix-16 body, before the outer twiddles: every output of the two stages. */
  method Body16<Z>(zero: Z, O: Ops<Z>, rot16: (int, Z) -> Z, junk: int -> Z, x: seq<Z>) returns (y: seq<Z>)
    requires |x| == 4 * 4
    ensures |y| == 16
    ensures forall j :: 0 <= j < 16 ==> y[j] == SplitBody(zero, Output(zero, O, 4), Output(zero, O, 4), Turn16Of(O, rot16), 4, 4)(x, j)
  {
    hide Found, SplitBody, Output, Turn16Of, Four, Value16, Column, LaterKept;
    var Y, S := seq(16, v => junk(v)), seq(8, v => junk(v));
    for n2 := 0 to 4
      invariant |Y| == 16 && |S| == 8 && Waiting(zero, O, rot16, x, Y, S, n2, 0)
    {
      Y, S := RowOne(zero, O, rot16, junk, x, Y, S, n2);
    }
    y := seq(16, v => zero);
    for k1 := 0 to 4
      invariant |Y| == 16 && |y| == 16
      invariant forall m, k :: 0 <= m < 4 && k1 <= k < 4 ==> Found(Y, S, m, k) == Value16(zero, O, rot16, x, m, k)
      invariant forall j :: 0 <= j < 16 && j % 4 < k1 ==>
        y[j] == SplitBody(zero, Output(zero, O, 4), Output(zero, O, 4), Turn16Of(O, rot16), 4, 4)(x, j)
    {
      ghost var V, was := Y, y;
      Y, y := RowTwo(O, junk, Y, S, y, k1);
      forall m, k | 0 <= m < 4 && k1 + 1 <= k < 4 ensures Found(Y, S, m, k) == Value16(zero, O, rot16, x, m, k) {
        LaterFound(V, S, Y, k1, m, k);
      }
      forall j | 0 <= j < 16 && j % 4 < k1 + 1
        ensures y[j] == SplitBody(zero, Output(zero, O, 4), Output(zero, O, 4), Turn16Of(O, rot16), 4, 4)(x, j)
      {
        if j % 4 == k1 {
          assert j == k1 + 4 * (j / 4);
          BodyAt(zero, O, rot16, x, j, V, S);
        }
      }
    }
  }

  /** Output j of the two stages, from the stage-1 values of k1 = j mod 4. */
  lemma BodyAt<Z>(zero: Z, O: Ops<Z>, rot16: (int, Z) -> Z, x: seq<Z>, j: int, Y: Registers<Z>, S: seq<Z>)
    requires |x| == 4 * 4 && 0 <= j < 16 && |Y| == 16 && |S| == 8
    requires forall m :: 0 <= m < 4 ==> Found(Y, S, m, j % 4) == Value16(zero, O, rot16, x, m, j % 4)
    ensures SplitBody(zero, Output(zero, O, 4), Output(zero, O, 4), Turn16Of(O, rot16), 4, 4)(x, j) == Four(O, Column(Y, S, j % 4))[j / 4]
  {
    hide Output, Turn16Of, SplitValue, Four, Found;
    OutputIs(zero, O, Column(Y, S, j % 4), j / 4);
    assert SplitColumn(Output(zero, O, 4), Turn16Of(O, rot16), 4, 4, x, j % 4) == Column(Y, S, j % 4);
  }

  // ------------------------------------------------------------ radix 9

  /** z·W9^e: nothing for e = 0, else csRot9's product. */
  function Turn9Of<Z>(rot9: (int, Z) -> Z): (int, Z) -> Z {
    (e: int, z: Z) => if e == 0 then z else rot9(e, z)
  }

  /** The sums of a radix-3 butterfly of registers a, b, c: output 0 in `out`, the others the sum
      and the difference of registers 14 and 15. */
  method Sums3<Z>(O: Ops<Z>, Y: Registers<Z>, a: int, b: int, c: int, out: int) returns (W: Registers<Z>)
    requires |Y| == 16 && 0 <= a < 12 && 0 <= b < 12 && 0 <= c < 12 && 0 <= out < 12 && out != a
    ensures |W| == 16
    ensures var y := Bfly3(O, Y[a], Y[b], Y[c]); W[out] == y[0] && O.add(W[14], W[15]) == y[1] && O.sub(W[14], W[15]) == y[2]
    ensures forall v :: 0 <= v < 12 && v != out ==> W[v] == Y[v]
  {
    W := Y[12 := O.add(Y[b], Y[c])];
    W := W[13 := O.sub(W[b], W[c])];
    W := W[out := O.add(W[a], W[12])];
    W := W[14 := O.half(W[12])];
    W := W[14 := O.sub(W[a], W[14])];
    W := W[15 := O.sin120(W[13])];
    W := W[15 := O.rot(W[15])];
  }

  function Value9<Z>(zero: Z, O: Ops<Z>, rot9: (int, Z) -> Z, x: seq<Z>, n2: int, k1: int): Z
    requires |x| == 3 * 3 && 0 <= n2 < 3
  {
    SplitValue(Output(zero, O, 3), Turn9Of(rot9), 3, 3, x, n2, k1)
  }

  lemma Value9Is<Z>(zero: Z, O: Ops<Z>, rot9: (int, Z) -> Z, x: seq<Z>, n2: int)
    requires |x| == 3 * 3 && 0 <= n2 < 3
    ensures var b := Bfly3(O, x[n2], x[n2 + 3], x[n2 + 6]);
      && Value9(zero, O, rot9, x, n2, 0) == b[0]
      && Value9(zero, O, rot9, x, n2, 1) == (if n2 == 0 then b[1] else rot9(n2, b[1]))
      && Value9(zero, O, rot9, x, n2, 2) == (if n2 == 0 then b[2] else rot9(2 * n2, b[2]))
  {
    hide Bfly3, Output;
    var c := [x[n2], x[n2 + 3], x[n2 + 6]];
    assert Comb(x, 3, 3, n2) == c;
    assert n2 * 0 == 0 && n2 * 1 == n2 && n2 * 2 == 2 * n2;
    ThreeOutputs(zero, O, c);
  }

  lemma ThreeOutputs<Z>(zero: Z, O: Ops<Z>, c: seq<Z>)
    requires |c| == 3
    ensures var b := Bfly3(O, c[0], c[1], c[2]);
      |b| == 3 && Output(zero, O, 3)(c, 0) == b[0] && Output(zero, O, 3)(c, 1) == b[1] && Output(zero, O, 3)(c, 2) == b[2]
  {
    assert Bfly(O, 3, c) == Bfly3(O, c[0], c[1], c[2]);
  }

  /** The values of the butterflies before n2 are in their registers. */
  ghost predicate Waiting9<Z>(zero: Z, O: Ops<Z>, rot9: (int, Z) -> Z, x: seq<Z>, Y: Registers<Z>, n2: int)
    requires |x| == 3 * 3 && |Y| == 16 && n2 <= 3
  {
    forall m, k :: 0 <= m < n2 && 0 <= k < 3 ==> Y[3 * m + k] == Value9(zero, O, rot9, x, m, k)
  }

  lemma NoneWait9<Z>(zero: Z, O: Ops<Z>, rot9: (int, Z) -> Z, x: seq<Z>, Y: Registers<Z>)
    requires |x| == 3 * 3 && |Y| == 16
    ensures Waiting9(zero, O, rot9, x, Y, 0)
  {
  }

  lemma Column9<Z>(zero: Z, O: Ops<Z>, rot9: (int, Z) -> Z, x: seq<Z>, Y: Registers<Z>, k1: int)
    requires |x| == 3 * 3 && |Y| == 16 && Waiting9(zero, O, rot9, x, Y, 3) && 0 <= k1 < 3
    ensures Y[k1] == Value9(zero, O, rot9, x, 0, k1) && Y[3 + k1] == Value9(zero, O, rot9, x, 1, k1)
    ensures Y[6 + k1] == Value9(zero, O, rot9, x, 2, k1)
  {
    hide Value9;
    assert Y[3 * 0 + k1] == Value9(zero, O, rot9, x, 0, k1) && Y[3 * 1 + k1] == Value9(zero, O, rot9, x, 1, k1);
    assert Y[3 * 2 + k1] == Value9(zero, O, rot9, x, 2, k1);
  }

  lemma NextWaits9<Z>(zero: Z, O: Ops<Z>, rot9: (int, Z) -> Z, x: seq<Z>, Y: Registers<Z>, W: Registers<Z>, n2: int)
    requires |x| == 3 * 3 && |Y| == |W| == 16 && 0 <= n2 < 3 && Waiting9(zero, O, rot9, x, Y, n2)
    requires forall k :: 0 <= k < 3 ==> W[3 * n2 + k] == Value9(zero, O, rot9, x, n2, k)
    requires forall v :: 0 <= v < 9 && v / 3 != n2 ==> W[v] == Y[v]
    ensures Waiting9(zero, O, rot9, x, W, n2 + 1)
  {
    hide Value9;
    forall m, k | 0 <= m < n2 && 0 <= k < 3 ensures W[3 * m + k] == Value9(zero, O, rot9, x, m, k) {
      assert (3 * m + k) / 3 == m;
    }
  }

  /** Stage 1 of butterfly n2: its values in registers 3·n2, 3·n2 + 1 and 3·n2 + 2. */
  method RowOne9<Z>(zero: Z, O: Ops<Z>, rot9: (int, Z) -> Z, junk: int -> Z, x: seq<Z>, Y: Registers<Z>, n2: int) returns (W: Registers<Z>)
    requires |x| == 3 * 3 && |Y| == 16 && 0 <= n2 < 3
    ensures |W| == 16 && forall k :: 0 <= k < 3 ==> W[3 * n2 + k] == Value9(zero, O, rot9, x, n2, k)
    ensures forall v :: 0 <= v < 9 && v / 3 != n2 ==> W[v] == Y[v]
  {
    hide Bfly3, Value9;
    var d := 3 * n2;
    W := Y[9 := x[n2]][10 := x[n2 + 3]][11 := x[n2 + 6]];
    W := Sums3(O, W, 9, 10, 11, d);
    Value9Is(zero, O, rot9, x, n2);
    if n2 == 0 {
      W := W[d + 1 := O.add(W[14], W[15])];
      W := W[d + 2 := O.sub(W[14], W[15])];
    } else {
      W := W[10 := O.add(W[14], W[15])];
      W := W[11 := O.sub(W[14], W[15])];
      W := Rot9(rot9, junk, W, d + 1, 10, n2);
      W := Rot9(rot9, junk, W, d + 2, 11, 2 * n2);
    }
  }

  /** csRot9, with registers 12 and 13 as scratch. */
  method Rot9<Z>(rot9: (int, Z) -> Z, junk: int -> Z, Y: Registers<Z>, dst: int, src: int, e: int) returns (W: Registers<Z>)
    requires |Y| == 16 && 0 <= dst < 9 && 0 <= src < 12
    ensures |W| == 16 && W[dst] == rot9(e, Y[src]) && forall v :: 0 <= v < 12 && v != dst ==> W[v] == Y[v]
  {
    W := Clobber(Y, [12, 13], junk);
    W := W[dst := rot9(e, Y[src])];
  }

  /** Stage 2 of butterfly k1: outputs k1, k1 + 3 and k1 + 6, with 12 to 15 as scratch. */
  method RowTwo9<Z>(O: Ops<Z>, junk: int -> Z, Y: Registers<Z>, y: seq<Z>, k1: int) returns (W: Registers<Z>, out: seq<Z>)
    requires |Y| == 16 && |y| == 9 && 0 <= k1 < 3
    ensures |W| == 16 && |out| == 9 && forall v :: 0 <= v < 9 ==> W[v] == Y[v]
    ensures var b := Bfly3(O, Y[k1], Y[3 + k1], Y[6 + k1]); out[k1] == b[0] && out[k1 + 3] == b[1] && out[k1 + 6] == b[2]
    ensures forall j :: 0 <= j < 9 && j % 3 != k1 ==> out[j] == y[j]
  {
    hide Bfly3;
    W := Sums3(O, Y, k1, 3 + k1, 6 + k1, 9);
    W := W[10 := O.add(W[14], W[15])];
    W := W[11 := O.sub(W[14], W[15])];
    out := y;
    W, out := Store9(junk, W, out, k1, 9, k1 > 0);
    W, out := Store9(junk, W, out, k1 + 3, 10, true);
    W, out := Store9(junk, W, out, k1 + 6, 11, true);
  }

  /** Output j from register src, its product's scratch registers taken when there is one. */
  method Store9<Z>(junk: int -> Z, Y: Registers<Z>, y: seq<Z>, j: int, src: int, product: bool) returns (W: Registers<Z>, out: seq<Z>)
    requires |Y| == 16 && |y| == 9 && 0 <= j < 9 && 0 <= src < 12
    ensures |W| == 16 && (forall v :: 0 <= v < 12 ==> W[v] == Y[v]) && out == y[j := Y[src]]
  {
    W, out := Y, y[j := Y[src]];
    if product {
      W := Clobber(W, [12, 13, 14, 15], junk);
    }
  }

  /** The whole radix-9 body. */
  method Body9<Z>(zero: Z, O: Ops<Z>, rot9: (int, Z) -> Z, junk: int -> Z, x: seq<Z>) returns (y: seq<Z>)
    requires |x| == 3 * 3
    ensures |y| == 9
    ensures forall j :: 0 <= j < 9 ==> y[j] == SplitBody(zero, Output(zero, O, 3), Output(zero, O, 3), Turn9Of(rot9), 3, 3)(x, j)
  {
    hide SplitBody, Output, Turn9Of, Bfly3, Value9, Waiting9;
    var Y := seq(16, v => junk(v));
    assert Waiting9(zero, O, rot9, x, Y, 0) by {
      NoneWait9(zero, O, rot9, x, Y);
    }
    for n2 := 0 to 3
      invariant |Y| == 16 && Waiting9(zero, O, rot9, x, Y, n2)
    {
      ghost var V := Y;
      Y := RowOne9(zero, O, rot9, junk, x, Y, n2);
      NextWaits9(zero, O, rot9, x, V, Y, n2);
    }
    ghost var V := Y;
    ghost var body := SplitBody(zero, Output(zero, O, 3), Output(zero, O, 3), Turn9Of(rot9), 3, 3);
    y := seq(9, v => zero);
    for k1 := 0 to 3
      invariant |Y| == 16 && |y| == 9 && forall v :: 0 <= v < 9 ==> Y[v] == V[v]
      invariant Made9(y, body, x, k1)
    {
      Column9(zero, O, rot9, x, V, k1);
      ghost var was := y;
      Y, y := RowTwo9(O, junk, Y, y, k1);
      Outputs9(zero, O, rot9, x, k1, V[k1], V[3 + k1], V[6 + k1]);
      NextMade9(was, y, body, x, k1);
    }
    assert Made9(y, body, x, 3);
  }

  /** The outputs of the first k1 second-stage butterflies. */
  ghost predicate Made9<Z>(y: seq<Z>, body: (seq<Z>, int) -> Z, x: seq<Z>, k1: int) {
    |y| == 9 && forall j :: 0 <= j < 9 && j % 3 < k1 ==> y[j] == body(x, j)
  }

  lemma NextMade9<Z>(was: seq<Z>, y: seq<Z>, body: (seq<Z>, int) -> Z, x: seq<Z>, k1: int)
    requires Made9(was, body, x, k1) && |y| == 9 && 0 <= k1 < 3
    requires y[k1] == body(x, k1) && y[k1 + 3] == body(x, k1 + 3) && y[k1 + 6] == body(x, k1 + 6)
    requires forall j :: 0 <= j < 9 && j % 3 != k1 ==> y[j] == was[j]
    ensures Made9(y, body, x, k1 + 1)
  {
    forall j | 0 <= j < 9 && j % 3 < k1 + 1 ensures y[j] == body(x, j) {
      if j % 3 == k1 {
        assert j == k1 || j == k1 + 3 || j == k1 + 6;
      }
    }
  }

  lemma Outputs9<Z>(zero: Z, O: Ops<Z>, rot9: (int, Z) -> Z, x: seq<Z>, k1: int, a: Z, b: Z, c: Z)
    requires |x| == 3 * 3 && 0 <= k1 < 3
    requires a == Value9(zero, O, rot9, x, 0, k1) && b == Value9(zero, O, rot9, x, 1, k1) && c == Value9(zero, O, rot9, x, 2, k1)
    ensures var y, body := Bfly3(O, a, b, c), SplitBody(zero, Output(zero, O, 3), Output(zero, O, 3), Turn9Of(rot9), 3, 3);
      body(x, k1) == y[0] && body(x, k1 + 3) == y[1] && body(x, k1 + 6) == y[2]
  {
    hide Bfly3, Turn9Of, SplitValue, Output;
    ThreeOutputs(zero, O, [a, b, c]);
    assert SplitColumn(Output(zero, O, 3), Turn9Of(rot9), 3, 3, x, k1) == [a, b, c];
    assert (k1 + 3) % 3 == k1 && (k1 + 3) / 3 == 1 && (k1 + 6) % 3 == k1 && (k1 + 6) / 3 == 2;
  }
}
