/** The prime-factor bodies: stage-1 values wait in registers and frame slots and are read back
    for stage 2, whose outputs go where the output map says. */
module StageBodies {
  import opened PrimeFactor
  import opened Composite

  function OutputOf(r: int, j: int): int requires r > 0 {
    j % r
  }

  /** The index maps of a prime-factor kernel: the inputs of each first-stage butterfly and
      the outputs of each second-stage one. */
  datatype PfaMap = PfaMap(ins: seq<seq<int>>, outs: seq<seq<int>>)

  ghost predicate IsPfaMap(p: int, q: int, a: int, b: int, m: PfaMap) {
    && Idempotents(p, q, a, b) && |m.ins| == q && |m.outs| == p
    && (forall n2 :: 0 <= n2 < q ==> |m.ins[n2]| == p && forall n1 :: 0 <= n1 < p ==> m.ins[n2][n1] == PfaIn(p, q, n1, n2))
    && (forall k1 :: 0 <= k1 < p ==> |m.outs[k1]| == q && forall k2 :: 0 <= k2 < q ==> m.outs[k1][k2] == PfaOut(p, q, a, b, k1, k2))
  }

  /** The multipliers of radix 5·q, by search. */
  method FindMultipliers(q: int) returns (a: int, b: int)
    requires q in {2, 3, 4}
    ensures Idempotents(5, q, a, b) && a < 5 * q && b < 5 * q
  {
    a, b := 0, 0;
    ghost var lastA, lastB := if q == 4 then 16 else 6, if q == 3 then 10 else 5;
    for x := 0 to 5 * q
      invariant a == if x > lastA then lastA else 0
      invariant b == if x > lastB then lastB else 0
    {
      if x % 5 == 1 && x % q == 0 {
        a := x;
      }
      if x % 5 == 0 && x % q == 1 {
        b := x;
      }
    }
  }

  /** The maps of radix 5·q. */
  method NewMap(q: int) returns (m: PfaMap, a: int, b: int)
    requires q in {2, 3, 4}
    ensures IsPfaMap(5, q, a, b, m)
  {
    var r := 5 * q;
    var u, v := FindMultipliers(q);
    a, b := u, v;
    var ins: seq<seq<int>> := [];
    for n2 := 0 to q
      invariant |ins| == n2
      invariant forall i :: 0 <= i < n2 ==> |ins[i]| == 5 && forall j :: 0 <= j < 5 ==> ins[i][j] == PfaIn(5, q, j, i)
    {
      ins := ins + [seq(5, n1 => (q * n1 + 5 * n2) % r)];
    }
    var outs: seq<seq<int>> := [];
    for k1 := 0 to 5
      invariant |outs| == k1
      invariant forall i :: 0 <= i < k1 ==> |outs[i]| == q && forall j :: 0 <= j < q ==> outs[i][j] == PfaOut(5, q, a, b, i, j)
    {
      outs := outs + [seq(q, k2 => (u * k1 + v * k2) % r)];
    }
    m := PfaMap(ins, outs);
  }

  /** The maps radix 12 stores as tables. */
  const MAP12 := PfaMap([[0, 4, 8], [3, 7, 11], [6, 10, 2], [9, 1, 5]],
                        [[0, 9, 6, 3], [4, 1, 10, 7], [8, 5, 2, 11]])

  lemma Map12Inputs(n2: int, n1: int)
    requires 0 <= n2 < 4 && 0 <= n1 < 3
    ensures MAP12.ins[n2][n1] == PfaIn(3, 4, n1, n2)
  {
    if n2 == 0 {
    } else if n2 == 1 {
    } else if n2 == 2 {
    } else {
    }
  }

  lemma Map12Outputs(k1: int, k2: int)
    requires 0 <= k1 < 3 && 0 <= k2 < 4
    ensures MAP12.outs[k1][k2] == PfaOut(3, 4, 4, 9, k1, k2)
  {
    if k1 == 0 {
    } else if k1 == 1 {
    } else {
    }
  }

  lemma Map12()
    ensures IsPfaMap(3, 4, 4, 9, MAP12)
  {
    assert Idempotents(3, 4, 4, 9);
    hide PfaIn, PfaOut;
    forall n2, n1 | 0 <= n2 < 4 && 0 <= n1 < 3 ensures MAP12.ins[n2][n1] == PfaIn(3, 4, n1, n2) {
      Map12Inputs(n2, n1);
    }
    forall k1, k2 | 0 <= k1 < 3 && 0 <= k2 < 4 ensures MAP12.outs[k1][k2] == PfaOut(3, 4, 4, 9, k1, k2) {
      Map12Outputs(k1, k2);
    }
  }

  /** The body of radix 10, 12, 15 and 20: every output is stored once, at its place. */
  method PfaThroughSlots<C>(zero: C, first: (seq<C>, int) -> C, second: (seq<C>, int) -> C, p: nat, q: nat,
                            m: PfaMap, ghost a: int, ghost b: int, x: seq<C>) returns (y: seq<C>)
    requires IsPfaMap(p, q, a, b, m) && |x| == p * q
    ensures |y| == p * q
    ensures forall j :: 0 <= j < p * q ==> y[j] == PfaBody(zero, first, second, p, q)(x, j)
  {
    var slots: seq<seq<C>> := [];
    for n2 := 0 to q
      invariant |slots| == n2
      invariant forall i :: 0 <= i < n2 ==> |slots[i]| == p && forall k1 :: 0 <= k1 < p ==> slots[i][k1] == first(PfaComb(x, p, q, i), k1)
    {
      var xs := seq(p, n1 requires 0 <= n1 < p => x[m.ins[n2][n1]]);
      assert xs == PfaComb(x, p, q, n2);
      slots := slots + [seq(p, k1 => first(xs, k1))];
    }
    y := seq(p * q, _ => zero);
    hide PfaComb, PfaOut, Idempotents;
    for k1 := 0 to p
      invariant |y| == p * q
      invariant forall j :: 0 <= j < p * q && OutputOf(p, j) < k1 ==> y[j] == PfaOutput(first, second, p, q, x, OutputOf(p, j), OutputOf(q, j))
    {
      var v := seq(q, n2 requires 0 <= n2 < q => slots[n2][k1]);
      assert v == seq(q, n2 requires 0 <= n2 < q => first(PfaComb(x, p, q, n2), k1));
      for k2 := 0 to q
        invariant |y| == p * q
        invariant forall j :: 0 <= j < p * q && (OutputOf(p, j) < k1 || (OutputOf(p, j) == k1 && OutputOf(q, j) < k2)) ==>
          y[j] == PfaOutput(first, second, p, q, x, OutputOf(p, j), OutputOf(q, j))
      {
        PlaceOfBin(p, q, a, b, k1, k2);
        y := y[m.outs[k1][k2] := second(v, k2)];
      }
    }
  }

  lemma PlaceOfBin(p: int, q: int, a: int, b: int, k1: int, k2: int)
    requires Idempotents(p, q, a, b) && 0 <= k1 < p && 0 <= k2 < q
    ensures 0 <= PfaOut(p, q, a, b, k1, k2) < p * q
    ensures OutputOf(p, PfaOut(p, q, a, b, k1, k2)) == k1 && OutputOf(q, PfaOut(p, q, a, b, k1, k2)) == k2
    ensures forall j :: 0 <= j < p * q && OutputOf(p, j) == k1 && OutputOf(q, j) == k2 ==> j == PfaOut(p, q, a, b, k1, k2)
  {
    PfaOutRemainders(p, q, a, b, k1, k2);
    forall j | 0 <= j < p * q && OutputOf(p, j) == k1 && OutputOf(q, j) == k2 ensures j == PfaOut(p, q, a, b, k1, k2) {
      PfaOutputsPermute(p, q, a, b, k1, k2, j);
    }
  }
}
