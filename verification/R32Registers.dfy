/** The split radix-32 body on its sixteen registers of parts, the radix-8 body's four spilled
    registers and the slots between the stages. */
module R32Registers {
  import opened Scalar
  import opened Floats
  import opened Composite
  import opened StageRegisters
  import FloatTurns
  import Bodies

  /** rotAdd: pr, pi = a + rotS(b); mr, mi = a - rotS(b). The four are apart, and each is apart
      from what is still to be read. */
  method RotAdd<F(!new)>(A: Arith<F>, inverse: bool, Y: Registers<F>, pr: int, pi: int, mr: int, mi: int, br: int, bi: int)
    returns (W: Registers<F>)
    requires |Y| == 16 && 0 <= pr < 16 && 0 <= pi < 16 && 0 <= mr < 16 && 0 <= mi < 16 && 0 <= br < 16 && 0 <= bi < 16
    requires pr != pi && pr != mr && pr != mi && pi != mr && pi != mi && mr != mi
    requires br != pr && br != pi && br != mr && bi != pr && bi != pi && bi != mr && bi != mi && br != mi && IsArith(A)
    ensures |W| == 16 && Cx(W[pr], W[pi]) == CAdd(A, Cx(Y[mr], Y[mi]), CRot(A, inverse, Cx(Y[br], Y[bi])))
    ensures Cx(W[mr], W[mi]) == CSub(A, Cx(Y[mr], Y[mi]), CRot(A, inverse, Cx(Y[br], Y[bi])))
    ensures forall v :: 0 <= v < 16 && v != pr && v != pi && v != mr && v != mi ==> W[v] == Y[v]
  {
    Minus(A, Y[mr], Y[bi]);
    Minus(A, Y[mi], Y[br]);
    hide IsArith, SubIsAddNeg;
    if !inverse {
      W := Y[pr := A.add(Y[mr], Y[bi])];
      W := W[pi := A.sub(W[mi], W[br])];
      W := W[mr := A.sub(W[mr], W[bi])];
      W := W[mi := A.add(W[mi], W[br])];
    } else {
      W := Y[pr := A.sub(Y[mr], Y[bi])];
      W := W[pi := A.add(W[mi], W[br])];
      W := W[mr := A.add(W[mr], W[bi])];
      W := W[mi := A.sub(W[mi], W[br])];
    }
  }

  /** loadAt: a point's parts, the scratch registers of an interleaved input taken. */
  function Loaded<F>(junk: int -> F, Y: Registers<F>, z: Cx<F>, re: int, im: int, t0: int, t1: int): (W: Registers<F>)
    requires |Y| == 16 && 0 <= re < 16 && 0 <= im < 16 && 0 <= t0 < 16 && 0 <= t1 < 16
    requires re != im && re != t0 && re != t1 && im != t0 && im != t1
    ensures |W| == 16
  {
    Y[t0 := junk(t0)][t1 := junk(t1)][re := z.re][im := z.im]
  }

  // ------------------------------------------------------------ the odd half

  /** x1 ± x5 in (4, 2) and (0, 1). */
  method OddFirst<F>(A: Arith<F>, junk: int -> F, Y: Registers<F>, x1: Cx<F>, x5: Cx<F>) returns (W: Registers<F>)
    requires |Y| == 16
    ensures |W| == 16 && Cx(W[4], W[2]) == CAdd(A, x1, x5) && Cx(W[0], W[1]) == CSub(A, x1, x5)
  {
    W := Loaded(junk, Y, x1, 0, 1, 12, 13);
    W := Loaded(junk, W, x5, 2, 3, 12, 13);
    W := W[4 := A.add(W[0], W[2])];
    W := W[0 := A.sub(W[0], W[2])];
    W := W[2 := A.add(W[1], W[3])];
    W := W[1 := A.sub(W[1], W[3])];
  }

  /** x3 ± x7 in (8, 6) and (3, 5). */
  method OddSecond<F>(A: Arith<F>, junk: int -> F, Y: Registers<F>, x3: Cx<F>, x7: Cx<F>) returns (W: Registers<F>)
    requires |Y| == 16
    ensures |W| == 16 && Cx(W[8], W[6]) == CAdd(A, x3, x7) && Cx(W[3], W[5]) == CSub(A, x3, x7)
    ensures W[0] == Y[0] && W[1] == Y[1] && W[2] == Y[2] && W[4] == Y[4]
  {
    W := Loaded(junk, Y, x3, 3, 5, 12, 13);
    W := Loaded(junk, W, x7, 6, 7, 12, 13);
    W := W[8 := A.add(W[3], W[6])];
    W := W[3 := A.sub(W[3], W[6])];
    W := W[6 := A.add(W[5], W[7])];
    W := W[5 := A.sub(W[5], W[7])];
  }

  /** a1 + a3 and a1 - a3 to the four spill slots. */
  method OddSpill<F>(A: Arith<F>, Y: Registers<F>) returns (W: Registers<F>, S: seq<F>)
    requires |Y| == 16
    ensures |W| == 16 && |S| == 4
    ensures Cx(S[0], S[1]) == CAdd(A, Cx(Y[4], Y[2]), Cx(Y[8], Y[6])) && Cx(S[2], S[3]) == CSub(A, Cx(Y[4], Y[2]), Cx(Y[8], Y[6]))
    ensures W[0] == Y[0] && W[1] == Y[1] && W[3] == Y[3] && W[5] == Y[5]
  {
    W := Y[7 := A.add(Y[4], Y[8])];
    W := W[4 := A.sub(W[4], W[8])];
    W := W[8 := A.add(W[2], W[6])];
    W := W[2 := A.sub(W[2], W[6])];
    S := [W[7], W[8], W[4], W[2]];
  }

  /** a5 + rotS(a5) in (3, 5) and rotS(a7) - a7 in (6, 0), from a5 in (6, 9) and a7 in (0, 1). */
  method OddTurn<F(!new)>(A: Arith<F>, inverse: bool, Y: Registers<F>) returns (W: Registers<F>)
    requires |Y| == 16 && IsArith(A)
    ensures |W| == 16
    ensures var d5, d7 := Cx(Y[6], Y[9]), Cx(Y[0], Y[1]);
      Cx(W[3], W[5]) == CAdd(A, d5, CRot(A, inverse, d5)) && Cx(W[6], W[0]) == CSub(A, CRot(A, inverse, d7), d7)
  {
    Minus(A, Y[6], Y[9]);
    Minus(A, Y[9], Y[6]);
    Minus(A, Y[1], Y[0]);
    hide IsArith, SubIsAddNeg;
    if !inverse {
      W := Y[3 := A.add(Y[6], Y[9])];
      W := W[5 := A.sub(W[9], W[6])];
      W := W[6 := A.sub(W[1], W[0])];
      W := W[0 := A.neg(W[0])];
      W := W[0 := A.sub(W[0], W[1])];
    } else {
      W := Y[3 := A.sub(Y[6], Y[9])];
      W := W[5 := A.add(W[9], W[6])];
      W := W[2 := A.sub(W[0], W[1])];
      W := W[1 := A.neg(W[1])];
      W := W[6 := A.sub(W[1], W[0])];
      W := W[0 := W[2]];
    }
  }

  /** The odd half: its even-numbered sums in the spill slots, the others in (3, 5) and (6, 0). */
  method OddHalf<F(!new)>(A: Arith<F>, k: FConsts<F>, inverse: bool, junk: int -> F, Y: Registers<F>, x: seq<Cx<F>>)
    returns (W: Registers<F>, S: seq<F>)
    requires |Y| == 16 && |x| == 8 && IsArith(A)
    ensures |W| == 16 && |S| == 4
    ensures var o := Odd8(Reference(A, k, inverse, true), x[1], x[3], x[5], x[7]);
      && Cx(S[0], S[1]) == o[0] && Cx(W[3], W[5]) == o[1] && CRot(A, inverse, Cx(S[2], S[3])) == o[2] && Cx(W[6], W[0]) == o[3]
  {
    hide IsArith, CAdd, CSub, CRot, Odd8, Reference;
    W := OddFirst(A, junk, Y, x[1], x[5]);
    W := OddSecond(A, junk, W, x[3], x[7]);
    W, S := OddSpill(A, W);
    W := RotAdd(A, inverse, W, 6, 9, 0, 1, 3, 5);
    W := OddTurn(A, inverse, W);
    Bodies.OddHalf(A, k, inverse, true, x[1], x[3], x[5], x[7]);
  }

  // ------------------------------------------------------------ the even half

  /** x0 ± x4 in (8, 4) and (1, 2), the odd half's registers kept. */
  method EvenFirst<F>(A: Arith<F>, junk: int -> F, Y: Registers<F>, x0: Cx<F>, x4: Cx<F>) returns (W: Registers<F>)
    requires |Y| == 16
    ensures |W| == 16 && Cx(W[8], W[4]) == CAdd(A, x0, x4) && Cx(W[1], W[2]) == CSub(A, x0, x4)
    ensures W[0] == Y[0] && W[3] == Y[3] && W[5] == Y[5] && W[6] == Y[6]
  {
    W := Loaded(junk, Y, x0, 1, 2, 13, 14);
    W := Loaded(junk, W, x4, 4, 7, 13, 14);
    W := W[8 := A.add(W[1], W[4])];
    W := W[1 := A.sub(W[1], W[4])];
    W := W[4 := A.add(W[2], W[7])];
    W := W[2 := A.sub(W[2], W[7])];
  }

  /** x2 ± x6 in (12, 10) and (7, 9). */
  method EvenSecond<F>(A: Arith<F>, junk: int -> F, Y: Registers<F>, x2: Cx<F>, x6: Cx<F>) returns (W: Registers<F>)
    requires |Y| == 16
    ensures |W| == 16 && Cx(W[12], W[10]) == CAdd(A, x2, x6) && Cx(W[7], W[9]) == CSub(A, x2, x6)
    ensures W[0] == Y[0] && W[1] == Y[1] && W[2] == Y[2] && W[3] == Y[3] && W[4] == Y[4] && W[5] == Y[5] && W[6] == Y[6] && W[8] == Y[8]
  {
    W := Loaded(junk, Y, x2, 7, 9, 13, 14);
    W := Loaded(junk, W, x6, 10, 11, 13, 14);
    W := W[12 := A.add(W[7], W[10])];
    W := W[7 := A.sub(W[7], W[10])];
    W := W[10 := A.add(W[9], W[11])];
    W := W[9 := A.sub(W[9], W[11])];
  }

  /** a0 + a2 in (11, 12), a0 - a2 in (8, 4). */
  method EvenSums<F>(A: Arith<F>, Y: Registers<F>) returns (W: Registers<F>)
    requires |Y| == 16
    ensures |W| == 16 && Cx(W[11], W[12]) == CAdd(A, Cx(Y[8], Y[4]), Cx(Y[12], Y[10]))
    ensures Cx(W[8], W[4]) == CSub(A, Cx(Y[8], Y[4]), Cx(Y[12], Y[10]))
    ensures W[0] == Y[0] && W[1] == Y[1] && W[2] == Y[2] && W[3] == Y[3] && W[5] == Y[5] && W[6] == Y[6] && W[7] == Y[7] && W[9] == Y[9]
  {
    W := Y[11 := A.add(Y[8], Y[12])];
    W := W[8 := A.sub(W[8], W[12])];
    W := W[12 := A.add(W[4], W[10])];
    W := W[4 := A.sub(W[4], W[10])];
  }

  /** The even half: in (11, 12), (10, 13), (8, 4) and (1, 2). */
  method EvenHalf<F(!new)>(A: Arith<F>, k: FConsts<F>, inverse: bool, junk: int -> F, Y: Registers<F>, x: seq<Cx<F>>)
    returns (W: Registers<F>)
    requires |Y| == 16 && |x| == 8 && IsArith(A)
    ensures |W| == 16 && W[0] == Y[0] && W[3] == Y[3] && W[5] == Y[5] && W[6] == Y[6]
    ensures var e := Even8(Reference(A, k, inverse, true), x[0], x[2], x[4], x[6]);
      && Cx(W[11], W[12]) == e[0] && Cx(W[10], W[13]) == e[1] && Cx(W[8], W[4]) == e[2] && Cx(W[1], W[2]) == e[3]
  {
    hide IsArith, CAdd, CSub, CRot, Even8, Reference;
    W := EvenFirst(A, junk, Y, x[0], x[4]);
    W := EvenSecond(A, junk, W, x[2], x[6]);
    W := EvenSums(A, W);
    W := RotAdd(A, inverse, W, 10, 13, 1, 2, 7, 9);
    Bodies.EvenHalf(A, k, inverse, true, x[0], x[2], x[4], x[6]);
  }

  // ------------------------------------------------------------ the outputs

  /** The turn between the stages: nothing past exponent 0. */
  function TurnOf<F>(A: Arith<F>, inverse: bool, C: seq<F>): (int, Cx<F>) -> Cx<F>
    requires |C| == 9
  {
    (e: int, z: Cx<F>) => if 0 < e <= 24 then FloatTurns.Turn(A, inverse, C, e, z) else z
  }

  /** What a kernel with these constants is given. */
  ghost predicate TurnsReady<F(!new)>(A: Arith<F>, C: seq<F>) {
    IsArith(A) && FloatTurns.MulSigns(A) && |C| == 9
  }

  /** An output of stage 1 to its slot, turned through t's registers when it has a turn. */
  method Out<F(!new)>(A: Arith<F>, inverse: bool, C: seq<F>, junk: int -> F, Y: Registers<F>, re: int, im: int, e: int, t: Quad)
    returns (W: Registers<F>, slot: Cx<F>)
    requires TurnsReady(A, C) && |Y| == 16 && 0 <= re < 16 && 0 <= im < 16 && 0 <= e <= 24 && InFile(t)
    ensures |W| == 16 && slot == TurnOf(A, inverse, C)(e, Cx(Y[re], Y[im]))
    ensures forall v :: 0 <= v < 16 && v != re && v != im && Without(t, v) ==> W[v] == Y[v]
  {
    slot := Cx(Y[re], Y[im]);
    W := Y;
    if e > 0 {
      var pr, pi := FloatTurns.Turn32(A, inverse, C, e, Y[re], Y[im]);
      slot := Cx(pr, pi);
      W := Clobber(Y, [re, im, t.r0, t.r1, t.r2, t.r3], junk);
    }
  }

  /** hpm: plus = a + h·s, a = a - h·s, fused. */
  method Hpm<F>(A: Arith<F>, h: F, Y: Registers<F>, plus: int, a: int, s: int) returns (W: Registers<F>)
    requires |Y| == 16 && 0 <= plus < 16 && 0 <= a < 16 && 0 <= s < 16 && plus != a && plus != s && a != s
    ensures |W| == 16 && W[plus] == A.fma(h, Y[s], Y[a]) && W[a] == A.fma(A.neg(h), Y[s], Y[a])
    ensures forall v :: 0 <= v < 16 && v != plus && v != a ==> W[v] == Y[v]
  {
    W := Y[plus := Y[a]];
    W := W[plus := A.fma(h, W[s], W[plus])];
    W := W[a := A.fma(A.neg(h), W[s], W[a])];
  }

  /** Two outputs a ± h·s, plus in (7, 9), each turned into its slot. */
  method OddPair<F(!new)>(A: Arith<F>, h: F, inverse: bool, C: seq<F>, junk: int -> F, Y: Registers<F>, a: int, b: int, s: int, t: int,
                          e: int, f: int, q: Quad) returns (W: Registers<F>, plus: Cx<F>, minus: Cx<F>)
    requires TurnsReady(A, C) && |Y| == 16 && 0 <= e <= 24 && 0 <= f <= 24 && InFile(q)
    requires 0 <= a < 16 && 0 <= b < 16 && 0 <= s < 16 && 0 <= t < 16 && a != b && Without(Quad(7, 9, 7, 9), a) && Without(Quad(7, 9, 7, 9), b)
    requires Without(Quad(7, 9, a, b), s) && Without(Quad(7, 9, a, b), t) && Without(q, a) && Without(q, b)
    ensures |W| == 16
    ensures plus == TurnOf(A, inverse, C)(e, PlusH(A, true, h, Cx(Y[a], Y[b]), Cx(Y[s], Y[t])))
    ensures minus == TurnOf(A, inverse, C)(f, MinusH(A, true, h, Cx(Y[a], Y[b]), Cx(Y[s], Y[t])))
    ensures forall v :: 0 <= v < 16 && Without(Quad(7, 9, a, b), v) && Without(q, v) ==> W[v] == Y[v]
  {
    hide TurnsReady, TurnOf;
    W := Hpm(A, h, Y, 7, a, s);
    W := Hpm(A, h, W, 9, b, t);
    W, plus := Out(A, inverse, C, junk, W, 7, 9, e, q);
    W, minus := Out(A, inverse, C, junk, W, a, b, f, q);
  }

  /** Outputs 1, 5, 3 and 7. */
  method OddOutputs<F(!new)>(A: Arith<F>, h: F, inverse: bool, C: seq<F>, junk: int -> F, Y: Registers<F>, n2: int)
    returns (W: Registers<F>, u1: Cx<F>, u3: Cx<F>, u5: Cx<F>, u7: Cx<F>)
    requires TurnsReady(A, C) && |Y| == 16 && 0 <= n2 < 4
    ensures |W| == 16 && W[11] == Y[11] && W[12] == Y[12] && W[8] == Y[8] && W[4] == Y[4]
    ensures var e1, e3, o1, o3, turn := Cx(Y[10], Y[13]), Cx(Y[1], Y[2]), Cx(Y[3], Y[5]), Cx(Y[6], Y[0]), TurnOf(A, inverse, C);
      && u1 == turn(n2, PlusH(A, true, h, e1, o1)) && u5 == turn(n2 * 5, MinusH(A, true, h, e1, o1))
      && u3 == turn(n2 * 3, PlusH(A, true, h, e3, o3)) && u7 == turn(n2 * 7, MinusH(A, true, h, e3, o3))
  {
    hide TurnsReady, TurnOf, PlusH, MinusH;
    W, u1, u5 := OddPair(A, h, inverse, C, junk, Y, 10, 13, 3, 5, n2, n2 * 5, Quad(3, 5, 14, 15));
    W, u3, u7 := OddPair(A, h, inverse, C, junk, W, 1, 2, 6, 0, n2 * 3, n2 * 7, Quad(3, 5, 10, 13));
  }

  /** Outputs 0 and 4, from the spilled a1 + a3. */
  method Outputs04<F(!new)>(A: Arith<F>, inverse: bool, C: seq<F>, junk: int -> F, Y: Registers<F>, S: seq<F>, n2: int)
    returns (W: Registers<F>, u0: Cx<F>, u4: Cx<F>)
    requires TurnsReady(A, C) && |Y| == 16 && |S| == 4 && 0 <= n2 < 4
    ensures |W| == 16 && W[8] == Y[8] && W[4] == Y[4]
    ensures u0 == TurnOf(A, inverse, C)(0, CAdd(A, Cx(Y[11], Y[12]), Cx(S[0], S[1])))
    ensures u4 == TurnOf(A, inverse, C)(n2 * 4, CSub(A, Cx(Y[11], Y[12]), Cx(S[0], S[1])))
  {
    hide TurnsReady, TurnOf;
    W := Y[7 := A.add(Y[11], S[0])];
    W := W[11 := A.sub(W[11], S[0])];
    W := W[9 := A.add(W[12], S[1])];
    W := W[12 := A.sub(W[12], S[1])];
    W, u0 := Out(A, inverse, C, junk, W, 7, 9, 0, Quad(0, 1, 2, 3));
    W, u4 := Out(A, inverse, C, junk, W, 11, 12, n2 * 4, Quad(0, 1, 2, 3));
  }

  /** Outputs 2 and 6, from a1 - a3 before its rotation. */
  method Outputs26<F(!new)>(A: Arith<F>, inverse: bool, C: seq<F>, junk: int -> F, Y: Registers<F>, S: seq<F>, n2: int)
    returns (u2: Cx<F>, u6: Cx<F>)
    requires TurnsReady(A, C) && |Y| == 16 && |S| == 4 && 0 <= n2 < 4
    ensures u2 == TurnOf(A, inverse, C)(n2 * 2, CAdd(A, Cx(Y[8], Y[4]), CRot(A, inverse, Cx(S[2], S[3]))))
    ensures u6 == TurnOf(A, inverse, C)(n2 * 6, CSub(A, Cx(Y[8], Y[4]), CRot(A, inverse, Cx(S[2], S[3]))))
  {
    assert IsArith(A);
    hide TurnsReady, TurnOf, IsArith, CRot, CAdd, CSub;
    var W := Y[6 := S[2]];
    W := W[0 := S[3]];
    W := RotAdd(A, inverse, W, 7, 9, 8, 4, 6, 0);
    W, u2 := Out(A, inverse, C, junk, W, 7, 9, n2 * 2, Quad(1, 2, 3, 5));
    W, u6 := Out(A, inverse, C, junk, W, 8, 4, n2 * 6, Quad(1, 2, 3, 5));
  }

  /** Both halves, where the outputs look for them. */
  method Halves<F(!new)>(A: Arith<F>, k: FConsts<F>, inverse: bool, junk: int -> F, x: seq<Cx<F>>) returns (Y: Registers<F>, S: seq<F>)
    requires |x| == 8 && IsArith(A)
    ensures |Y| == 16 && |S| == 4
    ensures var o := Odd8(Reference(A, k, inverse, true), x[1], x[3], x[5], x[7]);
      && Cx(S[0], S[1]) == o[0] && Cx(Y[3], Y[5]) == o[1] && CRot(A, inverse, Cx(S[2], S[3])) == o[2] && Cx(Y[6], Y[0]) == o[3]
    ensures var e := Even8(Reference(A, k, inverse, true), x[0], x[2], x[4], x[6]);
      && Cx(Y[11], Y[12]) == e[0] && Cx(Y[10], Y[13]) == e[1] && Cx(Y[8], Y[4]) == e[2] && Cx(Y[1], Y[2]) == e[3]
  {
    hide IsArith, CAdd, CSub, CRot, Odd8, Even8, Reference;
    Y := seq(16, v => junk(v));
    Y, S := OddHalf(A, k, inverse, junk, Y, x);
    Y := EvenHalf(A, k, inverse, junk, Y, x);
  }

  /** The eight slots, from the halves o and e. */
  method EightOutputs<F(!new)>(A: Arith<F>, h: F, inverse: bool, C: seq<F>, junk: int -> F, Y: Registers<F>, S: seq<F>, n2: int,
                               ghost o: seq<Cx<F>>, ghost e: seq<Cx<F>>) returns (U: seq<Cx<F>>)
    requires TurnsReady(A, C) && |Y| == 16 && |S| == 4 && 0 <= n2 < 4 && |o| == |e| == 4
    requires Cx(S[0], S[1]) == o[0] && Cx(Y[3], Y[5]) == o[1] && CRot(A, inverse, Cx(S[2], S[3])) == o[2] && Cx(Y[6], Y[0]) == o[3]
    requires Cx(Y[11], Y[12]) == e[0] && Cx(Y[10], Y[13]) == e[1] && Cx(Y[8], Y[4]) == e[2] && Cx(Y[1], Y[2]) == e[3]
    ensures |U| == 8
    ensures var turn := TurnOf(A, inverse, C);
      && U[0] == turn(0, CAdd(A, e[0], o[0])) && U[4] == turn(n2 * 4, CSub(A, e[0], o[0]))
      && U[2] == turn(n2 * 2, CAdd(A, e[2], o[2])) && U[6] == turn(n2 * 6, CSub(A, e[2], o[2]))
      && U[1] == turn(n2, PlusH(A, true, h, e[1], o[1])) && U[5] == turn(n2 * 5, MinusH(A, true, h, e[1], o[1]))
      && U[3] == turn(n2 * 3, PlusH(A, true, h, e[3], o[3])) && U[7] == turn(n2 * 7, MinusH(A, true, h, e[3], o[3]))
  {
    hide TurnsReady, TurnOf, CAdd, CSub, CRot, PlusH, MinusH;
    var W, u1, u3, u5, u7 := OddOutputs(A, h, inverse, C, junk, Y, n2);
    var u0, u4;
    W, u0, u4 := Outputs04(A, inverse, C, junk, W, S, n2);
    var u2, u6 := Outputs26(A, inverse, C, junk, W, S, n2);
    U := [u0, u1, u2, u3, u4, u5, u6, u7];
  }

  /** bfly8 with its outputs turned: slot k1 of butterfly n2. */
  method Bfly8r<F(!new)>(A: Arith<F>, k: FConsts<F>, inverse: bool, C: seq<F>, junk: int -> F, x: seq<Cx<F>>, n2: int) returns (U: seq<Cx<F>>)
    requires TurnsReady(A, C) && |x| == 8 && 0 <= n2 < 4
    ensures |U| == 8 && forall k1 :: 0 <= k1 < 8 ==>
      U[k1] == TurnOf(A, inverse, C)(n2 * k1, Bfly8(Reference(A, k, inverse, true), x)[k1])
  {
    assert IsArith(A);
    hide IsArith, TurnsReady, TurnOf, CAdd, CSub, CRot, PlusH, MinusH, Odd8, Even8, Bfly8, Reference;
    ghost var O := Reference(A, k, inverse, true);
    ghost var o, e := Odd8(O, x[1], x[3], x[5], x[7]), Even8(O, x[0], x[2], x[4], x[6]);
    HalvesHaveFour(O, x);
    var Y, S := Halves(A, k, inverse, junk, x);
    U := EightOutputs(A, k.h, inverse, C, junk, Y, S, n2, o, e);
    TurnedHalves(A, k, inverse, TurnOf(A, inverse, C), n2, x, o, e, U);
  }

  lemma HalvesHaveFour<F>(O: Ops<Cx<F>>, x: seq<Cx<F>>)
    requires |x| == 8
    ensures |Odd8(O, x[1], x[3], x[5], x[7])| == |Even8(O, x[0], x[2], x[4], x[6])| == 4 && |Bfly8(O, x)| == 8
  {
  }

  /** The eight slots, from the two halves. */
  lemma TurnedHalves<F(!new)>(A: Arith<F>, k: FConsts<F>, inverse: bool, turn: (int, Cx<F>) -> Cx<F>, n2: int, x: seq<Cx<F>>,
                              o: seq<Cx<F>>, e: seq<Cx<F>>, U: seq<Cx<F>>)
    requires |x| == |U| == 8 && |o| == |e| == 4
    requires o == Odd8(Reference(A, k, inverse, true), x[1], x[3], x[5], x[7]) && e == Even8(Reference(A, k, inverse, true), x[0], x[2], x[4], x[6])
    requires U[0] == turn(0, CAdd(A, e[0], o[0])) && U[4] == turn(n2 * 4, CSub(A, e[0], o[0]))
    requires U[2] == turn(n2 * 2, CAdd(A, e[2], o[2])) && U[6] == turn(n2 * 6, CSub(A, e[2], o[2]))
    requires U[1] == turn(n2, PlusH(A, true, k.h, e[1], o[1])) && U[5] == turn(n2 * 5, MinusH(A, true, k.h, e[1], o[1]))
    requires U[3] == turn(n2 * 3, PlusH(A, true, k.h, e[3], o[3])) && U[7] == turn(n2 * 7, MinusH(A, true, k.h, e[3], o[3]))
    ensures |Bfly8(Reference(A, k, inverse, true), x)| == 8
    ensures forall k1 :: 0 <= k1 < 8 ==> U[k1] == turn(n2 * k1, Bfly8(Reference(A, k, inverse, true), x)[k1])
  {
    hide CAdd, CSub, PlusH, MinusH, Odd8, Even8, Bfly8, Reference;
    HalvesHaveFour(Reference(A, k, inverse, true), x);
    Bodies.Outputs8(A, k, inverse, true, x);
    TurnedAll(turn, n2, Bfly8(Reference(A, k, inverse, true), x), U);
  }

  lemma TurnedAll<F>(turn: (int, Cx<F>) -> Cx<F>, n2: int, b: seq<Cx<F>>, U: seq<Cx<F>>)
    requires |b| == |U| == 8
    requires U[0] == turn(0, b[0]) && U[1] == turn(n2, b[1]) && U[2] == turn(n2 * 2, b[2]) && U[3] == turn(n2 * 3, b[3])
    requires U[4] == turn(n2 * 4, b[4]) && U[5] == turn(n2 * 5, b[5]) && U[6] == turn(n2 * 6, b[6]) && U[7] == turn(n2 * 7, b[7])
    ensures forall k1 :: 0 <= k1 < 8 ==> U[k1] == turn(n2 * k1, b[k1])
  {
    assert n2 * 0 == 0 && n2 * 1 == n2;
  }

  // ------------------------------------------------------------ stage 2

  /** Stage 2's sums: four points in registers 0 to 7, y0 to y3 left in (6, 7), (4, 5), (8, 9) and
      (0, 1). */
  method Bfly4p<F(!new)>(A: Arith<F>, k: FConsts<F>, inverse: bool, Y: Registers<F>, x: seq<Cx<F>>) returns (W: Registers<F>)
    requires |Y| == 16 && |x| == 4 && IsArith(A)
    ensures |W| == 16 && [Cx(W[6], W[7]), Cx(W[4], W[5]), Cx(W[8], W[9]), Cx(W[0], W[1])] ==
                         Bfly4(Reference(A, k, inverse, true), x[0], x[1], x[2], x[3])
  {
    hide IsArith, CAdd, CSub, CRot;
    W := LoadFour(Y, x);
    W := SumsFour(A, W, x);
    W := RotAdd(A, inverse, W, 4, 5, 0, 1, 2, 3);
  }

  method LoadFour<F>(Y: Registers<F>, x: seq<Cx<F>>) returns (W: Registers<F>)
    requires |Y| == 16 && |x| == 4
    ensures |W| == 16 && Cx(W[0], W[1]) == x[0] && Cx(W[2], W[3]) == x[1] && Cx(W[4], W[5]) == x[2] && Cx(W[6], W[7]) == x[3]
  {
    W := Y[0 := x[0].re][1 := x[0].im][2 := x[1].re][3 := x[1].im][4 := x[2].re][5 := x[2].im][6 := x[3].re][7 := x[3].im];
  }

  /** y0 and y2; t1 in (0, 1) and t4 in (2, 3). */
  method SumsFour<F>(A: Arith<F>, Y: Registers<F>, ghost x: seq<Cx<F>>) returns (W: Registers<F>)
    requires |Y| == 16 && |x| == 4
    requires Cx(Y[0], Y[1]) == x[0] && Cx(Y[2], Y[3]) == x[1] && Cx(Y[4], Y[5]) == x[2] && Cx(Y[6], Y[7]) == x[3]
    ensures |W| == 16 && Cx(W[0], W[1]) == CSub(A, x[0], x[2]) && Cx(W[2], W[3]) == CSub(A, x[1], x[3])
    ensures Cx(W[6], W[7]) == CAdd(A, CAdd(A, x[0], x[2]), CAdd(A, x[1], x[3]))
    ensures Cx(W[8], W[9]) == CSub(A, CAdd(A, x[0], x[2]), CAdd(A, x[1], x[3]))
  {
    W := Y[8 := A.add(Y[0], Y[4])];
    W := W[0 := A.sub(W[0], W[4])];
    W := W[9 := A.add(W[1], W[5])];
    W := W[1 := A.sub(W[1], W[5])];
    W := W[4 := A.add(W[2], W[6])];
    W := W[2 := A.sub(W[2], W[6])];
    W := W[5 := A.add(W[3], W[7])];
    W := W[3 := A.sub(W[3], W[7])];
    W := W[6 := A.add(W[8], W[4])];
    W := W[7 := A.add(W[9], W[5])];
    W := W[8 := A.sub(W[8], W[4])];
    W := W[9 := A.sub(W[9], W[5])];
  }

  /** The outputs of stage 2 in the order they are stored, the scratch registers of each product
      taken in between. */
  method StoreFour<F>(junk: int -> F, Y: Registers<F>) returns (b: seq<Cx<F>>)
    requires |Y| == 16
    ensures b == [Cx(Y[6], Y[7]), Cx(Y[4], Y[5]), Cx(Y[8], Y[9]), Cx(Y[0], Y[1])]
  {
    b := [Cx(Y[6], Y[7])];
    var W := Clobber(Y, [10, 11, 12, 13], junk);
    b := b + [Cx(W[4], W[5])];
    W := Clobber(W, [10, 11, 12, 13], junk);
    b := b + [Cx(W[8], W[9])];
    W := Clobber(W, [10, 11, 12, 13], junk);
    b := b + [Cx(W[0], W[1])];
  }

  // ------------------------------------------------------------ the whole body

  /** The body of a point: stage-1 value k1 + 8·n2, and its outputs. */
  function Body32Of<F(!new)>(zero: F, A: Arith<F>, k: FConsts<F>, inverse: bool, C: seq<F>): (seq<Cx<F>>, int) -> Cx<F>
    requires |C| == 9
  {
    var O, z := Reference(A, k, inverse, true), Cx(zero, zero);
    SplitBody(z, Output(z, O, 8), Output(z, O, 4), TurnOf(A, inverse, C), 8, 4)
  }

  function StageOne<F(!new)>(zero: F, A: Arith<F>, k: FConsts<F>, inverse: bool, C: seq<F>, x: seq<Cx<F>>, n2: int, k1: int): Cx<F>
    requires |C| == 9 && |x| == 8 * 4 && 0 <= n2 < 4
  {
    SplitValue(Output(Cx(zero, zero), Reference(A, k, inverse, true), 8), TurnOf(A, inverse, C), 8, 4, x, n2, k1)
  }

  /** Slot k1 + 8·n2 holds its value, for the butterflies before n. */
  ghost predicate Slots32<F(!new)>(zero: F, A: Arith<F>, k: FConsts<F>, inverse: bool, C: seq<F>, x: seq<Cx<F>>, T: seq<seq<Cx<F>>>, n: int)
    requires |C| == 9 && |x| == 8 * 4
  {
    0 <= n <= 4 && |T| == n &&
    forall n2 :: 0 <= n2 < n ==> |T[n2]| == 8 && forall k1 :: 0 <= k1 < 8 ==> T[n2][k1] == StageOne(zero, A, k, inverse, C, x, n2, k1)
  }

  lemma StageOneIs<F(!new)>(zero: F, A: Arith<F>, k: FConsts<F>, inverse: bool, C: seq<F>, x: seq<Cx<F>>, n2: int, k1: int)
    requires |C| == 9 && |x| == 8 * 4 && 0 <= n2 < 4 && 0 <= k1 < 8
    ensures StageOne(zero, A, k, inverse, C, x, n2, k1) ==
            TurnOf(A, inverse, C)(n2 * k1, Bfly8(Reference(A, k, inverse, true), Comb(x, 8, 4, n2))[k1])
  {
    var O, c := Reference(A, k, inverse, true), Comb(x, 8, 4, n2);
    assert Bfly(O, 8, c) == Bfly8(O, c);
    hide TurnOf, Reference, Comb, Bfly8, Bfly;
  }

  /** Output j, from the values of k1 = j mod 8. */
  lemma OutputIs32<F(!new)>(zero: F, A: Arith<F>, k: FConsts<F>, inverse: bool, C: seq<F>, x: seq<Cx<F>>, j: int, v: seq<Cx<F>>)
    requires |C| == 9 && |x| == 8 * 4 && 0 <= j < 32 && |v| == 4
    requires forall n2 :: 0 <= n2 < 4 ==> v[n2] == StageOne(zero, A, k, inverse, C, x, n2, j % 8)
    ensures Body32Of(zero, A, k, inverse, C)(x, j) == Bfly4(Reference(A, k, inverse, true), v[0], v[1], v[2], v[3])[j / 8]
  {
    hide TurnOf, Reference, SplitValue, Bfly4;
    var O, z := Reference(A, k, inverse, true), Cx(zero, zero);
    assert SplitColumn(Output(z, O, 8), TurnOf(A, inverse, C), 8, 4, x, j % 8) == v;
    assert Bfly(O, 4, v) == Bfly4(O, v[0], v[1], v[2], v[3]);
  }

  /** The body of the split radix-32 kernel, before the outer twiddles. */
  method Body32<F(!new)>(zero: F, A: Arith<F>, k: FConsts<F>, inverse: bool, C: seq<F>, junk: int -> F, x: seq<Cx<F>>) returns (y: seq<Cx<F>>)
    requires TurnsReady(A, C) && |x| == 8 * 4
    ensures |y| == 32 && forall j :: 0 <= j < 32 ==> y[j] == Body32Of(zero, A, k, inverse, C)(x, j)
  {
    assert IsArith(A) && |C| == 9;
    hide IsArith, TurnsReady, TurnOf, StageOne, Body32Of, Reference, Bfly8, Bfly4, Comb;
    var T := StageOneAll(zero, A, k, inverse, C, junk, x);
    hide Slots32;
    y := seq(32, _ => Cx(zero, zero));
    for k1 := 0 to 8
      invariant |y| == 32 && forall j :: 0 <= j < 32 && j % 8 < k1 ==> y[j] == Body32Of(zero, A, k, inverse, C)(x, j)
    {
      y := RowTwo32(zero, A, k, inverse, C, junk, x, T, y, k1);
    }
  }

  /** Stage 1: the slots of the four butterflies. */
  method StageOneAll<F(!new)>(zero: F, A: Arith<F>, k: FConsts<F>, inverse: bool, C: seq<F>, junk: int -> F, x: seq<Cx<F>>)
    returns (T: seq<seq<Cx<F>>>)
    requires TurnsReady(A, C) && |C| == 9 && |x| == 8 * 4
    ensures Slots32(zero, A, k, inverse, C, x, T, 4)
  {
    hide TurnsReady, TurnOf, StageOne, Reference, Bfly8, Comb;
    T := [];
    for n2 := 0 to 4
      invariant Slots32(zero, A, k, inverse, C, x, T, n2)
    {
      var U := Bfly8r(A, k, inverse, C, junk, Comb(x, 8, 4, n2), n2);
      forall k1 | 0 <= k1 < 8 ensures U[k1] == StageOne(zero, A, k, inverse, C, x, n2, k1) {
        StageOneIs(zero, A, k, inverse, C, x, n2, k1);
      }
      T := T + [U];
    }
  }

  /** Butterfly k1 of stage 2: its four slots read, its outputs stored to the places k1 + 8·k2. */
  method RowTwo32<F(!new)>(zero: F, A: Arith<F>, k: FConsts<F>, inverse: bool, C: seq<F>, junk: int -> F, x: seq<Cx<F>>,
                           T: seq<seq<Cx<F>>>, y: seq<Cx<F>>, k1: int) returns (u: seq<Cx<F>>)
    requires IsArith(A) && |C| == 9 && |x| == 8 * 4 && |y| == 32 && 0 <= k1 < 8 && Slots32(zero, A, k, inverse, C, x, T, 4)
    ensures |u| == 32 && forall j :: 0 <= j < 32 ==> u[j] == if j % 8 == k1 then Body32Of(zero, A, k, inverse, C)(x, j) else y[j]
  {
    hide IsArith, StageOne, Body32Of, Reference, Bfly4;
    var v := [T[0][k1], T[1][k1], T[2][k1], T[3][k1]];
    var Y := Bfly4p(A, k, inverse, seq(16, r => junk(r)), v);
    var b := StoreFour(junk, Y);
    u := y[k1 := b[0]][k1 + 8 := b[1]][k1 + 16 := b[2]][k1 + 24 := b[3]];
    forall j | 0 <= j < 32 && j % 8 == k1 ensures u[j] == Body32Of(zero, A, k, inverse, C)(x, j) {
      OutputIs32(zero, A, k, inverse, C, x, j, v);
      assert j == k1 + 8 * (j / 8);
    }
  }
}
