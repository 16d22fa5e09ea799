/** The final radix-32 kernel (ido = 1): stage 1 of each butterfly is parked in the butterfly's own
    output cells, and stage 2 reads them there and stores over them. */
module LastRadix32 {
  import opened Modular
  import opened Scalar
  import opened Floats
  import opened Composite
  import opened StageRegisters
  import opened LastKernel
  import Complexes
  import Circle
  import Radices
  import LargeRadices
  import R32Registers

  /** z·W32^e: nothing for e = 0, the rotation for 8, else rotC's product. */
  function Turn32Of<Z>(O: Ops<Z>, rot32: (int, Z) -> Z): (int, Z) -> Z {
    (e: int, z: Z) => if e == 0 then z else if e == 8 then O.rot(z) else rot32(e, z)
  }

  // ------------------------------------------------------------ the butterflies on registers

  /** The registers stage 1 leaves its outputs in. */
  const EIGHT := [4, 10, 12, 8, 0, 3, 1, 2]

  method OddHalf<Z>(O: Ops<Z>, Y: Registers<Z>, x: seq<Z>) returns (W: Registers<Z>)
    requires |Y| == 16 && |x| == 8
    ensures |W| == 16 && [W[12], W[8], W[10], W[9]] == Odd8(O, x[1], x[3], x[5], x[7])
  {
    W := Y[1 := x[1]][5 := x[5]];
    W := W[8 := O.add(W[1], W[5])];
    W := W[9 := O.sub(W[1], W[5])];
    W := W[3 := x[3]][7 := x[7]];
    W := W[10 := O.add(W[3], W[7])];
    W := W[11 := O.sub(W[3], W[7])];
    W := W[12 := O.add(W[8], W[10])];
    W := W[10 := O.sub(W[8], W[10])];
    W := W[10 := O.rot(W[10])];
    W := W[11 := O.rot(W[11])];
    W := W[8 := O.add(W[9], W[11])];
    W := W[9 := O.sub(W[9], W[11])];
    W := W[11 := O.rot(W[8])];
    W := W[8 := O.add(W[8], W[11])];
    W := W[11 := O.rot(W[9])];
    W := W[9 := O.sub(W[11], W[9])];
  }

  method EvenHalf<Z>(O: Ops<Z>, Y: Registers<Z>, x: seq<Z>) returns (W: Registers<Z>)
    requires |Y| == 16 && |x| == 8
    ensures |W| == 16 && [W[0], W[3], W[1], W[2]] == Even8(O, x[0], x[2], x[4], x[6])
    ensures forall v :: 8 <= v < 16 ==> W[v] == Y[v]
  {
    W := Y[0 := x[0]][4 := x[4]];
    W := W[1 := O.add(W[0], W[4])];
    W := W[2 := O.sub(W[0], W[4])];
    W := W[0 := x[2]][4 := x[6]];
    W := W[3 := O.add(W[0], W[4])];
    W := W[5 := O.sub(W[0], W[4])];
    W := W[0 := O.add(W[1], W[3])];
    W := W[1 := O.sub(W[1], W[3])];
    W := W[5 := O.rot(W[5])];
    W := W[3 := O.add(W[2], W[5])];
    W := W[2 := O.sub(W[2], W[5])];
  }

  method Outputs8<Z>(O: Ops<Z>, Y: Registers<Z>, ghost o: seq<Z>, ghost e: seq<Z>) returns (W: Registers<Z>)
    requires |Y| == 16 && [Y[12], Y[8], Y[10], Y[9]] == o && [Y[0], Y[3], Y[1], Y[2]] == e
    ensures |W| == 16
    ensures [W[4], W[10], W[12], W[8], W[0], W[3], W[1], W[2]] ==
            [O.add(e[0], o[0]), O.plusH(e[1], o[1]), O.add(e[2], o[2]), O.plusH(e[3], o[3]),
             O.sub(e[0], o[0]), O.minusH(e[1], o[1]), O.sub(e[2], o[2]), O.minusH(e[3], o[3])]
  {
    assert o[0] == Y[12] && o[1] == Y[8] && o[2] == Y[10] && o[3] == Y[9];
    assert e[0] == Y[0] && e[1] == Y[3] && e[2] == Y[1] && e[3] == Y[2];
    W := Y[4 := O.add(Y[0], Y[12])];
    W := W[0 := O.sub(W[0], W[12])];
    W := W[12 := O.add(W[1], W[10])];
    W := W[1 := O.sub(W[1], W[10])];
    W := W[10 := O.plusH(W[3], W[8])];
    W := W[3 := O.minusH(W[3], W[8])];
    W := W[8 := O.plusH(W[2], W[9])];
    W := W[2 := O.minusH(W[2], W[9])];
  }

  /** r32Bfly8. */
  method Eight<Z>(O: Ops<Z>, Y: Registers<Z>, x: seq<Z>) returns (W: Registers<Z>)
    requires |Y| == 16 && |x| == 8
    ensures |W| == 16 && |Bfly8(O, x)| == 8 && forall k1 :: 0 <= k1 < 8 ==> W[EIGHT[k1]] == Bfly8(O, x)[k1]
  {
    ghost var o, e := Odd8(O, x[1], x[3], x[5], x[7]), Even8(O, x[0], x[2], x[4], x[6]);
    EightFromHalves(O, x, o, e);
    hide Odd8, Even8, Bfly8;
    W := OddHalf(O, Y, x);
    W := EvenHalf(O, W, x);
    W := Outputs8(O, W, o, e);
    ghost var b := Bfly8(O, x);
    assert [W[4], W[10], W[12], W[8], W[0], W[3], W[1], W[2]] == b;
    assert b == seq(8, k1 requires 0 <= k1 < 8 => W[EIGHT[k1]]);
  }

  lemma EightFromHalves<Z>(O: Ops<Z>, x: seq<Z>, o: seq<Z>, e: seq<Z>)
    requires |x| == 8 && o == Odd8(O, x[1], x[3], x[5], x[7]) && e == Even8(O, x[0], x[2], x[4], x[6])
    ensures |o| == |e| == 4
    ensures Bfly8(O, x) == [O.add(e[0], o[0]), O.plusH(e[1], o[1]), O.add(e[2], o[2]), O.plusH(e[3], o[3]),
                            O.sub(e[0], o[0]), O.minusH(e[1], o[1]), O.sub(e[2], o[2]), O.minusH(e[3], o[3])]
  {
  }

  /** Register v turned in place; a product takes registers 13 and 14. */
  method TurnRegister<Z>(O: Ops<Z>, rot32: (int, Z) -> Z, junk: int -> Z, Y: Registers<Z>, v: int, e: int) returns (W: Registers<Z>)
    requires |Y| == 16 && 0 <= v < 13 && e >= 0
    ensures |W| == 16 && W[v] == Turn32Of(O, rot32)(e, Y[v]) && forall u :: 0 <= u < 13 && u != v ==> W[u] == Y[u]
  {
    if e == 8 {
      W := Y[v := O.rot(Y[v])];
    } else if e > 0 {
      W := Clobber(Y, [13, 14], junk)[v := rot32(e, Y[v])];
    } else {
      W := Y;
    }
  }

  // ------------------------------------------------------------ the kernel

  class Final<C> {
    const cc: array<C>
    const ch: array<C>
    const n: int                  // blocks
    const zero: C
    const O: Ops<C>
    const rot32: (int, C) -> C
    const junk: int -> C
    ghost const input: seq<C>

    var AX: int     // the step's inputs
    var BX: int     // its output 0
    var DX: int     // one output stream
    var R13: int    // three
    var R11: int    // sixteen
    var R8: int
    var R9: int
    var R10: int    // steps left

    constructor (cc: array<C>, ch: array<C>, n: int, zero: C, O: Ops<C>, rot32: (int, C) -> C, junk: int -> C)
      requires n >= 0 && cc.Length == ch.Length == 32 * n && cc != ch
      ensures Valid() && this.cc == cc && this.ch == ch && this.n == n && this.zero == zero && this.O == O && this.rot32 == rot32
      ensures input == cc[..]
    {
      this.cc, this.ch, this.n, this.zero, this.O, this.rot32, this.junk := cc, ch, n, zero, O, rot32, junk;
      input := cc[..];
    }

    ghost predicate Valid()
      reads cc
    {
      n >= 0 && cc.Length == ch.Length == 32 * n && cc != ch && cc[..] == input
    }

    /** The 32 inputs of block b. */
    ghost function Block(b: int): (x: seq<C>)
      requires |input| == 32 * n && 0 <= b < n
      ensures |x| == 8 * 4
    {
      BlockBounds(32, n, b);
      input[32 * b..32 * b + 32]
    }

    /** Stage-1 value s = k1 + 8·n2 of block b. */
    ghost function Parked(b: int, s: int): C {
      if |input| == 32 * n && 0 <= b < n && 0 <= s < 32 then
        SplitValue(Output(zero, O, 8), Turn32Of(O, rot32), 8, 4, Block(b), s / 8, s % 8)
      else zero
    }

    /** Output j of block b. */
    ghost function Want(b: int, j: int): C {
      if |input| == 32 * n && 0 <= b < n && 0 <= j < 32 then
        SplitOutput(Output(zero, O, 8), Output(zero, O, 4), Turn32Of(O, rot32), 8, 4, Block(b), j % 8, j / 8)
      else zero
    }

    /** The registers stand at block b. */
    ghost predicate At(b: int)
      reads `AX, `BX, `DX, `R13, `R11
    {
      DX == 16 * n && R13 == 3 * DX && R11 == 16 * DX && AX == 16 * (32 * b) && BX == 16 * b
    }

    /** The step of `lanes` blocks from block b on. */
    ghost predicate CanStep(b: int, lanes: int)
      reads cc, `AX, `BX, `DX, `R13, `R11
    {
      Valid() && At(b) && 0 <= b && 0 <= lanes && b + lanes <= n
    }

    // ------------------------------------------------------ addresses

    /** r32Bases. */
    method Bases(n2: int)
      requires 0 <= n2 < 4 && R13 == 3 * DX && R11 == 16 * DX
      modifies `R8, `R9
      ensures R8 == BX + 8 * n2 * DX && R9 == R8 + 4 * DX
    {
      match n2 {
        case 0 => R8 := BX;
        case 1 => R8 := BX + DX * 8;
        case 2 => R8 := BX + R11;
        case _ => R8 := BX + R13 * 8;
      }
      R9 := R8 + DX * 4;
    }

    /** Stage 1's slot k1 + 8·n2. */
    function Slot1(k1: int): int
      reads `DX, `R8, `R9, `R13
    {
      match k1
      case 0 => R8
      case 1 => R8 + DX
      case 2 => R8 + DX * 2
      case 3 => R8 + R13
      case 4 => R9
      case 5 => R9 + DX
      case 6 => R8 + R13 * 2
      case _ => R9 + R13
    }

    /** Stage 2's slot k1 + 8·k2. */
    function Slot2(k2: int): int
      reads `DX, `R8, `R11, `R13
    {
      match k2
      case 0 => R8
      case 1 => R8 + DX * 8
      case 2 => R8 + R11
      case _ => R8 + R13 * 8
    }

    /** Lane q of slot s is cell b + q + n·s. */
    lemma SlotCell(b: int, lanes: int, q: int, s: int)
      requires CanStep(b, lanes) && 0 <= q < lanes && 0 <= s < 32
      ensures var c := b + q + n * s; 0 <= c < ch.Length && (BX + s * DX + 16 * q) / 16 == c && c % n == b + q && c / n == s
    {
      CellBounds(n, 32, b + q, s);
      DivModUnique(n, b + q, s);
      MulRegroup(s, 16, n);
    }

    lemma Slot1Address(n2: int, k1: int)
      requires 0 <= n2 < 4 && 0 <= k1 < 8 && R8 == BX + 8 * n2 * DX && R9 == R8 + 4 * DX && R13 == 3 * DX
      ensures Slot1(k1) == BX + (k1 + 8 * n2) * DX
    {
      MulAdd(DX, k1, 8 * n2);
    }

    lemma Slot2Address(k1: int, k2: int)
      requires 0 <= k2 < 4 && R8 == BX + k1 * DX && R13 == 3 * DX && R11 == 16 * DX
      ensures Slot2(k2) == BX + (k1 + 8 * k2) * DX
    {
      MulAdd(DX, k1, 8 * k2);
    }

    /** Column a mod n is one of the step's. */
    ghost predicate Reached(a: int, b: int, lanes: int) requires n > 0 {
      b <= a % n < b + lanes
    }

    /** Store y to lane q of the slot at address `at`. */
    method Store(at: int, q: int, y: C, ghost s: int, ghost b: int, ghost lanes: int)
      requires CanStep(b, lanes) && 0 <= q < lanes && 0 <= s < 32 && at == BX + s * DX
      modifies ch
      ensures forall a :: 0 <= a < ch.Length ==> ch[a] == if a % n == b + q && a / n == s then y else old(ch[a])
    {
      SlotCell(b, lanes, q, s);
      ch[(at + 16 * q) / 16] := y;
      CellsAreDistinct(n, b + q + n * s);
    }

    // ------------------------------------------------------ stage 1

    /** The first s slots of the step's blocks hold their values. */
    ghost predicate ParkedUpTo(b: int, lanes: int, before: seq<C>, s: int, q: int)
      requires n > 0 && |before| == ch.Length
      reads ch
    {
      forall a :: 0 <= a < ch.Length ==>
        ch[a] == if (Reached(a, b, lanes) && a / n < s) || (Reached(a, b, q) && a / n == s) then Parked(a % n, a / n) else before[a]
    }

    /** The inputs n2 + 4·n1 of lane q. */
    method Load(n2: int, q: int, ghost b: int, ghost lanes: int) returns (x: seq<C>)
      requires CanStep(b, lanes) && 0 <= n2 < 4 && 0 <= q < lanes
      ensures x == Comb(Block(b + q), 8, 4, n2)
    {
      x := [];
      BlockBounds(32, n, b + q);
      for n1 := 0 to 8
        invariant |x| == n1 && x == Comb(Block(b + q), 8, 4, n2)[..n1]
      {
        x := x + [cc[(AX + 16 * (32 * q + (n2 + 4 * n1))) / 16]];
      }
    }

    /** Lane by lane, the outputs of butterfly n2 in their registers. */
    ghost predicate InRegisters(Ys: seq<Registers<C>>, b: int, lanes: int, n2: int, from: int) {
      |Ys| == lanes && forall q :: 0 <= q < lanes ==> LaneHolds(Ys[q], b + q, n2, from)
    }

    ghost predicate LaneHolds(Y: Registers<C>, b: int, n2: int, from: int) {
      && |Y| == 16 && |input| == 32 * n && 0 <= b < n && 0 <= n2 < 4 && 0 <= from
      && forall k1 :: from <= k1 < 8 ==> Y[EIGHT[k1]] == Bfly8(O, Comb(Block(b), 8, 4, n2))[k1]
    }

    method Butterflies(n2: int, lanes: int, ghost b: int) returns (Ys: seq<Registers<C>>)
      requires CanStep(b, lanes) && 0 <= n2 < 4
      ensures InRegisters(Ys, b, lanes, n2, 0)
    {
      hide Bfly8, Comb, Block;
      Ys := [];
      for q := 0 to lanes
        invariant InRegisters(Ys, b, q, n2, 0)
      {
        var x := Load(n2, q, b, lanes);
        var Y := Eight(O, seq(16, v => junk(v)), x);
        Ys := Ys + [Y];
      }
    }

    lemma ParkedIs(b: int, n2: int, k1: int)
      requires |input| == 32 * n && 0 <= b < n && 0 <= n2 < 4 && 0 <= k1 < 8
      ensures Parked(b, k1 + 8 * n2) == Turn32Of(O, rot32)(n2 * k1, Bfly8(O, Comb(Block(b), 8, 4, n2))[k1])
    {
      hide Turn32Of, Comb, Block;
      var c := Comb(Block(b), 8, 4, n2);
      assert Bfly(O, 8, c) == Bfly8(O, c);
      hide Bfly8, Bfly;
      assert (k1 + 8 * n2) / 8 == n2 && (k1 + 8 * n2) % 8 == k1;
    }

    /** Output k1 turned in its register, to be parked. */
    method OneLane(Y: Registers<C>, n2: int, k1: int, ghost b: int) returns (W: Registers<C>, y: C)
      requires 0 <= n2 < 4 && 0 <= k1 < 8 && LaneHolds(Y, b, n2, k1)
      ensures LaneHolds(W, b, n2, k1 + 1) && y == Parked(b, k1 + 8 * n2)
    {
      hide Turn32Of, Parked, Bfly8, Comb, Block;
      ParkedIs(b, n2, k1);
      W := TurnRegister(O, rot32, junk, Y, EIGHT[k1], n2 * k1);
      assert forall k :: k1 < k < 8 ==> EIGHT[k] != EIGHT[k1] && 0 <= EIGHT[k] < 13;
      y := W[EIGHT[k1]];
    }

    /** Slot s of lane q parked. */
    method ParkLane(at: int, q: int, y: C, ghost s: int, ghost b: int, ghost lanes: int, ghost before: seq<C>)
      requires CanStep(b, lanes) && n > 0 && 0 <= q < lanes && 0 <= s < 32 && at == BX + s * DX && y == Parked(b + q, s)
      requires |before| == ch.Length && ParkedUpTo(b, lanes, before, s, q)
      modifies ch
      ensures CanStep(b, lanes) && ParkedUpTo(b, lanes, before, s, q + 1)
    {
      hide Parked, At;
      Store(at, q, y, s, b, lanes);
    }

    lemma LaneParked(b: int, lanes: int, before: seq<C>, s: int)
      requires n > 0 && |before| == ch.Length && ParkedUpTo(b, lanes, before, s, lanes)
      ensures ParkedUpTo(b, lanes, before, s + 1, 0)
    {
      hide Parked;
    }

    /** Output k1 of butterfly n2, turned and parked, in every lane. */
    method Park(Ys: seq<Registers<C>>, at: int, n2: int, k1: int, lanes: int, ghost s: int, ghost b: int, ghost before: seq<C>)
      returns (Ws: seq<Registers<C>>)
      requires CanStep(b, lanes) && n > 0 && 0 <= n2 < 4 && 0 <= k1 < 8 && s == k1 + 8 * n2 && at == BX + s * DX
      requires InRegisters(Ys, b, lanes, n2, k1) && |before| == ch.Length && ParkedUpTo(b, lanes, before, s, 0)
      modifies ch
      ensures CanStep(b, lanes) && InRegisters(Ws, b, lanes, n2, k1 + 1) && ParkedUpTo(b, lanes, before, s + 1, 0)
    {
      hide LaneHolds, Parked, At, ParkedUpTo;
      Ws := [];
      for q := 0 to lanes
        invariant CanStep(b, lanes) && InRegisters(Ws, b, q, n2, k1 + 1) && ParkedUpTo(b, lanes, before, s, q)
      {
        var W, y := OneLane(Ys[q], n2, k1, b + q);
        ParkLane(at, q, y, s, b, lanes, before);
        Ws := Ws + [W];
      }
      LaneParked(b, lanes, before, s);
    }

    /** Stage 1: the 32 slots of every block of the step, in order. */
    method StageOne(lanes: int, ghost b: int, ghost before: seq<C>)
      requires CanStep(b, lanes) && n > 0 && |before| == ch.Length && ParkedUpTo(b, lanes, before, 0, 0)
      modifies ch, `R8, `R9
      ensures CanStep(b, lanes) && ParkedUpTo(b, lanes, before, 32, 0)
    {
      hide ParkedUpTo, InRegisters, Slot1;
      for n2 := 0 to 4
        invariant CanStep(b, lanes) && ParkedUpTo(b, lanes, before, 8 * n2, 0)
      {
        Bases(n2);
        var Ys := Butterflies(n2, lanes, b);
        for k1 := 0 to 8
          invariant CanStep(b, lanes) && R8 == BX + 8 * n2 * DX && R9 == R8 + 4 * DX
          invariant InRegisters(Ys, b, lanes, n2, k1) && ParkedUpTo(b, lanes, before, k1 + 8 * n2, 0)
        {
          Slot1Address(n2, k1);
          Ys := Park(Ys, Slot1(k1), n2, k1, lanes, k1 + 8 * n2, b, before);
        }
      }
    }

    // ------------------------------------------------------ stage 2

    /** Output j is stored: those of the butterflies before k1, k2 of butterfly k1's, and its next
        one in the first q lanes. */
    ghost predicate Stored(a: int, b: int, k1: int, k2: int, q: int) requires n > 0 {
      var j := a / n;
      j % 8 < k1 || (j % 8 == k1 && (j / 8 < k2 || (j / 8 == k2 && Reached(a, b, q))))
    }

    /** What is not yet stored is still parked. */
    ghost predicate StoredUpTo(b: int, lanes: int, before: seq<C>, k1: int, k2: int, q: int)
      requires n > 0 && |before| == ch.Length
      reads ch
    {
      forall a :: 0 <= a < ch.Length ==>
        ch[a] == if !Reached(a, b, lanes) then before[a]
                 else if Stored(a, b, k1, k2, q) then Want(a % n, a / n) else Parked(a % n, a / n)
    }

    lemma AllParked(b: int, lanes: int, before: seq<C>)
      requires Valid() && n > 0 && |before| == ch.Length && ParkedUpTo(b, lanes, before, 32, 0)
      ensures StoredUpTo(b, lanes, before, 0, 0, 0)
    {
      hide Parked, Want;
      forall a | 0 <= a < ch.Length ensures 0 <= a / n < 32 {
        CellOf(n, 32, a);
      }
    }

    /** The four slots of butterfly k1 into registers 0 to 3, and its outputs in 8 to 11. */
    method SecondLane(k1: int, q: int, ghost b: int, ghost lanes: int, ghost before: seq<C>) returns (W: Registers<C>)
      requires CanStep(b, lanes) && n > 0 && 0 <= q < lanes && 0 <= k1 < 8 && R8 == BX + k1 * DX
      requires |before| == ch.Length && StoredUpTo(b, lanes, before, k1, 0, 0)
      ensures |W| == 16 && forall k2 :: 0 <= k2 < 4 ==> W[8 + k2] == Want(b + q, k1 + 8 * k2)
    {
      hide Want, Parked, Four;
      W := seq(16, v => junk(v));
      for n2 := 0 to 4
        invariant |W| == 16 && forall m :: 0 <= m < n2 ==> W[m] == Parked(b + q, k1 + 8 * m)
      {
        Slot2Address(k1, n2);
        SlotCell(b, lanes, q, k1 + 8 * n2);
        W := W[n2 := ch[(Slot2(n2) + 16 * q) / 16]];
      }
      ghost var v := [W[0], W[1], W[2], W[3]];
      WantIs(b + q, k1, v);
      W := Bfly4r(O, W, Quad(0, 1, 2, 3), Quad(4, 5, 6, 7), Quad(8, 9, 10, 11));
    }

    lemma WantIs(b: int, k1: int, v: seq<C>)
      requires |input| == 32 * n && 0 <= b < n && 0 <= k1 < 8 && |v| == 4
      requires forall n2 :: 0 <= n2 < 4 ==> v[n2] == Parked(b, k1 + 8 * n2)
      ensures forall k2 :: 0 <= k2 < 4 ==> Want(b, k1 + 8 * k2) == Four(O, v)[k2]
    {
      hide SplitValue, Block;
      var first, turn := Output(zero, O, 8), Turn32Of(O, rot32);
      forall n2 | 0 <= n2 < 4 ensures v[n2] == SplitValue(first, turn, 8, 4, Block(b), n2, k1) {
        assert (k1 + 8 * n2) / 8 == n2 && (k1 + 8 * n2) % 8 == k1;
      }
      assert SplitColumn(first, turn, 8, 4, Block(b), k1) == v;
      assert Bfly(O, 4, v) == Four(O, v);
      hide Bfly, Four;
      forall k2 | 0 <= k2 < 4 ensures Want(b, k1 + 8 * k2) == Four(O, v)[k2] {
        assert (k1 + 8 * k2) / 8 == k2 && (k1 + 8 * k2) % 8 == k1;
      }
    }

    /** Every lane's butterfly k1. */
    method SecondAll(k1: int, lanes: int, ghost b: int, ghost before: seq<C>) returns (Ws: seq<Registers<C>>)
      requires CanStep(b, lanes) && n > 0 && 0 <= k1 < 8 && R8 == BX + k1 * DX
      requires |before| == ch.Length && StoredUpTo(b, lanes, before, k1, 0, 0)
      ensures |Ws| == lanes
      ensures forall q :: 0 <= q < lanes ==> |Ws[q]| == 16 && forall k2 :: 0 <= k2 < 4 ==> Ws[q][8 + k2] == Want(b + q, k1 + 8 * k2)
    {
      hide Want, StoredUpTo, At;
      Ws := [];
      for q := 0 to lanes
        invariant |Ws| == q
        invariant forall p :: 0 <= p < q ==> |Ws[p]| == 16 && forall k2 :: 0 <= k2 < 4 ==> Ws[p][8 + k2] == Want(b + p, k1 + 8 * k2)
      {
        var W := SecondLane(k1, q, b, lanes, before);
        Ws := Ws + [W];
      }
    }

    /** Output k1 + 8·k2 of lane q over its slot. */
    method StoreLane(at: int, q: int, y: C, k1: int, k2: int, ghost b: int, ghost lanes: int, ghost before: seq<C>)
      requires CanStep(b, lanes) && n > 0 && 0 <= q < lanes && 0 <= k1 < 8 && 0 <= k2 < 4 && at == BX + (k1 + 8 * k2) * DX
      requires y == Want(b + q, k1 + 8 * k2) && |before| == ch.Length && StoredUpTo(b, lanes, before, k1, k2, q)
      modifies ch
      ensures CanStep(b, lanes) && StoredUpTo(b, lanes, before, k1, k2, q + 1)
    {
      hide Want, Parked, At;
      Store(at, q, y, k1 + 8 * k2, b, lanes);
    }

    lemma LaneStored(b: int, lanes: int, before: seq<C>, k1: int, k2: int)
      requires n > 0 && |before| == ch.Length && StoredUpTo(b, lanes, before, k1, k2, lanes)
      ensures StoredUpTo(b, lanes, before, k1, k2 + 1, 0)
    {
      hide Want, Parked;
    }

    /** Output k1 + 8·k2 of every lane. */
    method StoreOver(Ws: seq<Registers<C>>, k1: int, k2: int, lanes: int, ghost b: int, ghost before: seq<C>)
      requires CanStep(b, lanes) && n > 0 && 0 <= k1 < 8 && 0 <= k2 < 4 && R8 == BX + k1 * DX
      requires |before| == ch.Length && StoredUpTo(b, lanes, before, k1, k2, 0)
      requires |Ws| == lanes && forall q :: 0 <= q < lanes ==> |Ws[q]| == 16 && Ws[q][8 + k2] == Want(b + q, k1 + 8 * k2)
      modifies ch
      ensures CanStep(b, lanes) && StoredUpTo(b, lanes, before, k1, k2 + 1, 0)
    {
      Slot2Address(k1, k2);
      var at := Slot2(k2);
      hide Slot2, Want, StoredUpTo, At;
      for q := 0 to lanes
        invariant CanStep(b, lanes) && StoredUpTo(b, lanes, before, k1, k2, q)
      {
        StoreLane(at, q, Ws[q][8 + k2], k1, k2, b, lanes, before);
      }
      LaneStored(b, lanes, before, k1, k2);
    }

    lemma RowStored(b: int, lanes: int, before: seq<C>, k1: int)
      requires Valid() && n > 0 && |before| == ch.Length && StoredUpTo(b, lanes, before, k1, 4, 0)
      ensures StoredUpTo(b, lanes, before, k1 + 1, 0, 0)
    {
      hide Parked, Want;
      forall a | 0 <= a < ch.Length ensures 0 <= a / n < 32 {
        CellOf(n, 32, a);
      }
    }

    /** Stage 2. */
    method StageTwo(lanes: int, ghost b: int, ghost before: seq<C>)
      requires CanStep(b, lanes) && n > 0 && |before| == ch.Length && StoredUpTo(b, lanes, before, 0, 0, 0)
      modifies ch, `R8
      ensures CanStep(b, lanes) && StoredUpTo(b, lanes, before, 8, 0, 0)
    {
      hide StoredUpTo, Want;
      R8 := BX;
      for k1 := 0 to 8
        invariant CanStep(b, lanes) && R8 == BX + (if k1 > 0 then k1 - 1 else 0) * DX && StoredUpTo(b, lanes, before, k1, 0, 0)
      {
        if k1 > 0 {
          R8 := R8 + DX;
        }
        var Ws := SecondAll(k1, lanes, b, before);
        for k2 := 0 to 4
          invariant CanStep(b, lanes) && R8 == BX + k1 * DX && StoredUpTo(b, lanes, before, k1, k2, 0)
        {
          StoreOver(Ws, k1, k2, lanes, b, before);
        }
        RowStored(b, lanes, before, k1);
      }
    }

    // ------------------------------------------------------ the walk

    /** The columns before column b hold the outputs of the blocks of the same number. */
    ghost predicate Done(b: int)
      reads ch
    {
      n > 0 ==> forall a :: 0 <= a < ch.Length && a % n < b ==> ch[a] == Want(a % n, a / n)
    }

    /** r32Last on `lanes` blocks, and the step past them. */
    method Step(lanes: int, ghost b: int)
      requires CanStep(b, lanes) && 0 < lanes && Done(b)
      modifies ch, `R8, `R9, `AX, `BX
      ensures Valid() && At(b + lanes) && Done(b + lanes)
    {
      ghost var before := ch[..];
      StartParking(b, lanes, before);
      hide ParkedUpTo, StoredUpTo, Done;
      StageOne(lanes, b, before);
      AllParked(b, lanes, before);
      StageTwo(lanes, b, before);
      StepEnds(b, lanes, before);
      AX := AX + 32 * (16 * lanes);
      BX := BX + 16 * lanes;
    }

    lemma StartParking(b: int, lanes: int, before: seq<C>)
      requires CanStep(b, lanes) && 0 < lanes && before == ch[..] && Done(b)
      ensures n > 0 && |before| == ch.Length && ParkedUpTo(b, lanes, before, 0, 0)
      ensures forall a :: 0 <= a < |before| && a % n < b ==> before[a] == Want(a % n, a / n)
    {
      hide Parked, Want;
      forall a | 0 <= a < ch.Length ensures 0 <= a / n {
        CellOf(n, 32, a);
      }
    }

    lemma StepEnds(b: int, lanes: int, before: seq<C>)
      requires Valid() && n > 0 && |before| == ch.Length && 0 <= b && StoredUpTo(b, lanes, before, 8, 0, 0)
      requires forall a :: 0 <= a < |before| && a % n < b ==> before[a] == Want(a % n, a / n)
      ensures Done(b + lanes)
    {
      hide Parked, Want;
    }

    /** The block pairs (256 bits) or quads (512 bits). */
    method Blocks(wide: bool) returns (ghost b: int)
      requires Valid() && Done(0) && DX == 16 * n && R13 == 3 * DX && R11 == 16 * DX
      modifies ch, `R8, `R9, `R10, `AX, `BX
      ensures Valid() && At(b) && b == (if wide then n - n % 4 else n - n % 2) && Done(b)
    {
      AX, BX := 0, 0;
      R10 := if wide then n / 4 else n / 2;
      b := 0;
      hide Done;
      while R10 != 0
        invariant Valid() && At(b) && 0 <= b && 0 <= R10 && Done(b)
        invariant b == (if wide then n - n % 4 - 4 * R10 else n - n % 2 - 2 * R10)
        decreases R10
      {
        Step(if wide then 4 else 2, b);
        b := b + if wide then 4 else 2;
        R10 := R10 - 1;
      }
    }

    /** The last block of an odd number. */
    method Tail(ghost b: int)
      requires Valid() && At(b) && Done(b) && 0 <= b == n - n % 2
      modifies ch, `R8, `R9, `AX, `BX
      ensures Valid() && Done(n)
    {
      BitOfOne(n);
      hide Done;
      if (DX / 16) % 2 != 0 {
        Step(1, b);
      }
    }

    method PairAndTail(ghost b: int)
      requires Valid() && At(b) && Done(b) && 0 <= b == n - n % 4
      modifies ch, `R8, `R9, `AX, `BX
      ensures Valid() && Done(n)
    {
      BitOfTwo(n);
      hide Done;
      if (DX / 32) % 2 != 0 {
        Step(2, b);
        Tail(b + 2);
      } else {
        Tail(b);
      }
    }

    /** Output j of block b, the two-stage butterfly of its 32 inputs, is at cell b + n·j. */
    method Run(wide: bool)
      requires Valid()
      modifies this, ch
      ensures Valid()
      ensures forall a :: 0 <= a < ch.Length ==> ch[a] == Want(a % n, a / n)
    {
      DX := n;
      DX := DX * 16;
      R13 := DX + DX * 2;
      R11 := DX * 16;
      NothingDone();
      hide Done, At, Want;
      ghost var b := Blocks(wide);
      if wide {
        PairAndTail(b);
      } else {
        Tail(b);
      }
      AllDone();
    }

    /** The run's cells, given what each output is. */
    lemma IsResult(bfly: (seq<C>, int) -> C)
      requires Valid() && n > 0 && forall a :: 0 <= a < ch.Length ==> ch[a] == Want(a % n, a / n)
      requires forall b, j :: 0 <= b < n && 0 <= j < 32 ==> Want(b, j) == bfly(Block(b), j)
      ensures ch[..] == LastResult(bfly, input, 32, n)
    {
      hide Want;
      forall a | 0 <= a < ch.Length ensures ch[a] == LastResult(bfly, input, 32, n)[a] {
        CellOf(n, 32, a);
        BlockBounds(32, n, a % n);
        assert ch[a] == Want(a % n, a / n) == bfly(Block(a % n), a / n);
      }
    }

    lemma NothingDone()
      requires Valid()
      ensures Done(0)
    {
    }

    lemma AllDone()
      requires Valid() && Done(n)
      ensures forall a :: 0 <= a < ch.Length ==> ch[a] == Want(a % n, a / n)
    {
    }
  }

  // ------------------------------------------------------------ the arithmetic

  /** The two stages with butterflies and turns that agree agree. */
  lemma SameStages<Z(!new)>(first: (seq<Z>, int) -> Z, second: (seq<Z>, int) -> Z, turn: (int, Z) -> Z,
                            first1: (seq<Z>, int) -> Z, second1: (seq<Z>, int) -> Z, turn1: (int, Z) -> Z, x: seq<Z>, k1: int, k2: int)
    requires |x| == 8 * 4 && 0 <= k1 < 8 && 0 <= k2 < 4
    requires forall c, j :: |c| == 8 && 0 <= j < 8 ==> first(c, j) == first1(c, j)
    requires forall c, j :: |c| == 4 && 0 <= j < 4 ==> second(c, j) == second1(c, j)
    requires forall e, z :: 0 <= e <= 24 ==> turn(e, z) == turn1(e, z)
    ensures SplitOutput(first, second, turn, 8, 4, x, k1, k2) == SplitOutput(first1, second1, turn1, 8, 4, x, k1, k2)
  {
    hide Comb;
    forall n2 | 0 <= n2 < 4 ensures SplitValue(first, turn, 8, 4, x, n2, k1) == SplitValue(first1, turn1, 8, 4, x, n2, k1) {
      assert 0 <= n2 * k1 <= 24;
    }
    assert SplitColumn(first, turn, 8, 4, x, k1) == SplitColumn(first1, turn1, 8, 4, x, k1);
  }

  lemma TurnsAgree<F(!new)>(A: Arith<F>, k: FConsts<F>, inverse: bool, C: seq<F>, e: int, z: Cx<F>)
    requires |C| == 9 && 0 <= e <= 24
    ensures Turn32Of(Reference(A, k, inverse, true), R32Registers.TurnOf(A, inverse, C))(e, z) == R32Registers.TurnOf(A, inverse, C)(e, z)
  {
  }

  lemma WantIsBody<F(!new)>(p: Final<Cx<F>>, A: Arith<F>, k: FConsts<F>, inverse: bool, C: seq<F>, zero: F, b: int, j: int)
    requires |C| == 9 && |p.input| == 32 * p.n && 0 <= b < p.n && 0 <= j < 32
    requires p.zero == Cx(zero, zero) && p.O == Reference(A, k, inverse, true) && p.rot32 == R32Registers.TurnOf(A, inverse, C)
    ensures p.Want(b, j) == R32Registers.Body32Of(zero, A, k, inverse, C)(p.Block(b), j)
  {
    hide Reference, R32Registers.TurnOf, Turn32Of, SplitOutput, Output, Final.Block;
    forall e, z: Cx<F> | 0 <= e <= 24
      ensures Turn32Of(Reference(A, k, inverse, true), R32Registers.TurnOf(A, inverse, C))(e, z) == R32Registers.TurnOf(A, inverse, C)(e, z)
    {
      TurnsAgree(A, k, inverse, C, e, z);
    }
    var O := Reference(A, k, inverse, true);
    SameStages(Output(p.zero, O, 8), Output(p.zero, O, 4), Turn32Of(O, p.rot32),
               Output(p.zero, O, 8), Output(p.zero, O, 4), R32Registers.TurnOf(A, inverse, C), p.Block(b), j % 8, j / 8);
  }

  /** Over floats the kernel leaves the final pass of the split pass kernel's body, bit for bit. */
  method Bits<F(!new)>(A: Arith<F>, k: FConsts<F>, inverse: bool, C: seq<F>, zero: F, junk: int -> Cx<F>, wide: bool,
                       cc: array<Cx<F>>, ch: array<Cx<F>>, n: int)
    requires |C| == 9 && n > 0 && cc.Length == ch.Length == 32 * n && cc != ch
    modifies ch
    ensures ch[..] == LastResult(R32Registers.Body32Of(zero, A, k, inverse, C), old(cc[..]), 32, n)
  {
    hide R32Registers.Body32Of, R32Registers.TurnOf, Reference, LastResult, Final.Want, Final.Block;
    var p := new Final(cc, ch, n, Cx(zero, zero), Reference(A, k, inverse, true), R32Registers.TurnOf(A, inverse, C), junk);
    p.Run(wide);
    forall b, j | 0 <= b < n && 0 <= j < 32 ensures p.Want(b, j) == R32Registers.Body32Of(zero, A, k, inverse, C)(p.Block(b), j) {
      WantIsBody(p, A, k, inverse, C, zero, b, j);
    }
    p.IsResult(R32Registers.Body32Of(zero, A, k, inverse, C));
  }

  lemma WantIsRadix32(p: Final<Complexes.Complex>, k: Complexes.Consts, C: seq<real>, inverse: bool, b: int, j: int)
    requires |C| == 9 && |p.input| == 32 * p.n && 0 <= b < p.n && 0 <= j < 32
    requires p.zero == Complexes.ZERO && p.O == Complexes.Exact(k, inverse) && p.rot32 == LargeRadices.Turn32Last(C, inverse)
    ensures p.Want(b, j) == LargeRadices.Radix32(k, C, inverse)(p.Block(b), j)
  {
    hide SplitOutput, Final.Block, Complexes.Exact, Turn32Of, Output, LargeRadices.Turn32, LargeRadices.Turn32Last, Radices.Basic;
    var O, first, second := Complexes.Exact(k, inverse), Radices.Basic(k, inverse, 8), Radices.Basic(k, inverse, 4);
    forall e, z | 0 <= e <= 24 ensures Turn32Of(O, p.rot32)(e, z) == LargeRadices.Turn32(C, inverse)(e, z) {
      ExactTurns(k, C, inverse, e, z);
    }
    forall c: seq<Complexes.Complex>, i | |c| == 8 && 0 <= i < 8 ensures Output(p.zero, O, 8)(c, i) == first(c, i) {
      ExactOutputs(k, inverse, 8, c, i);
    }
    forall c: seq<Complexes.Complex>, i | |c| == 4 && 0 <= i < 4 ensures Output(p.zero, O, 4)(c, i) == second(c, i) {
      ExactOutputs(k, inverse, 4, c, i);
    }
    SameStages(Output(p.zero, O, 8), Output(p.zero, O, 4), Turn32Of(O, p.rot32), first, second, LargeRadices.Turn32(C, inverse),
               p.Block(b), j % 8, j / 8);
  }

  lemma ExactTurns(k: Complexes.Consts, C: seq<real>, inverse: bool, e: int, z: Complexes.Complex)
    requires |C| == 9 && 0 <= e <= 24
    ensures Turn32Of(Complexes.Exact(k, inverse), LargeRadices.Turn32Last(C, inverse))(e, z) == LargeRadices.Turn32(C, inverse)(e, z)
  {
    LargeRadices.Turn32IsLast(C, inverse, e, z);
    hide LargeRadices.RotC, LargeRadices.Turn32By, Circle.Trig;
  }

  lemma ExactOutputs(k: Complexes.Consts, inverse: bool, r: int, c: seq<Complexes.Complex>, i: int)
    requires r in {2, 3, 4, 5, 8} && |c| == r && 0 <= i < r
    ensures Output(Complexes.ZERO, Complexes.Exact(k, inverse), r)(c, i) == Radices.Basic(k, inverse, r)(c, i)
  {
    hide Bfly, Complexes.Exact;
  }

  /** In exact arithmetic it leaves the final pass of the radix-32 butterfly, which is the
      thirty-two-point transform (LargeRadices.Radix32IsDft). */
  method Exactly(k: Complexes.Consts, C: seq<real>, inverse: bool, junk: int -> Complexes.Complex, wide: bool,
                 cc: array<Complexes.Complex>, ch: array<Complexes.Complex>, n: int)
    requires |C| == 9 && n > 0 && cc.Length == ch.Length == 32 * n && cc != ch
    modifies ch
    ensures ch[..] == LastResult(LargeRadices.Radix32(k, C, inverse), old(cc[..]), 32, n)
  {
    hide LargeRadices.Radix32, LargeRadices.Turn32Last, Complexes.Exact, LastResult, Final.Want, Final.Block;
    var p := new Final(cc, ch, n, Complexes.ZERO, Complexes.Exact(k, inverse), LargeRadices.Turn32Last(C, inverse), junk);
    p.Run(wide);
    forall b, j | 0 <= b < n && 0 <= j < 32 ensures p.Want(b, j) == LargeRadices.Radix32(k, C, inverse)(p.Block(b), j) {
      WantIsRadix32(p, k, C, inverse, b, j);
    }
    p.IsResult(LargeRadices.Radix32(k, C, inverse));
  }
}
