/** The scalar butterflies, which every kernel repeats operation for operation, over complex
    values of any kind. */
module Scalar {

  /** The complex operations of a butterfly: sums, the rotation by ±i of the transform's
      direction, the products with the constants 1/2, sin(2π/3), the cosines and sines of
      2π/5 and 4π/5, and a + h·s and a - h·s with h = √2/2. */
  datatype Ops<!Z> = Ops(
    add: (Z, Z) -> Z, sub: (Z, Z) -> Z, rot: Z -> Z,
    half: Z -> Z, sin120: Z -> Z, c51: Z -> Z, c52: Z -> Z, s51: Z -> Z, s52: Z -> Z,
    plusH: (Z, Z) -> Z, minusH: (Z, Z) -> Z)

  function Bfly2<Z>(O: Ops<Z>, x0: Z, x1: Z): seq<Z> {
    [O.add(x0, x1), O.sub(x0, x1)]
  }

  function Bfly3<Z>(O: Ops<Z>, x0: Z, x1: Z, x2: Z): seq<Z> {
    var t1, t2 := O.add(x1, x2), O.sub(x1, x2);
    var ca, cb := O.sub(x0, O.half(t1)), O.rot(O.sin120(t2));
    [O.add(x0, t1), O.add(ca, cb), O.sub(ca, cb)]
  }

  function Bfly4<Z>(O: Ops<Z>, x0: Z, x1: Z, x2: Z, x3: Z): seq<Z> {
    var t2, t1 := O.add(x0, x2), O.sub(x0, x2);
    var t3, t4 := O.add(x1, x3), O.rot(O.sub(x1, x3));
    [O.add(t2, t3), O.add(t1, t4), O.sub(t2, t3), O.sub(t1, t4)]
  }

  function Bfly5<Z>(O: Ops<Z>, x0: Z, x1: Z, x2: Z, x3: Z, x4: Z): seq<Z> {
    var t1, t2 := O.add(x1, x4), O.sub(x1, x4);
    var t3, t4 := O.add(x2, x3), O.sub(x2, x3);
    var r1 := O.add(x0, O.add(O.c51(t1), O.c52(t3)));
    var r2 := O.add(x0, O.add(O.c52(t1), O.c51(t3)));
    var i1 := O.rot(O.add(O.s51(t2), O.s52(t4)));
    var i2 := O.rot(O.sub(O.s52(t2), O.s51(t4)));
    [O.add(O.add(x0, t1), t3), O.add(r1, i1), O.add(r2, i2), O.sub(r2, i2), O.sub(r1, i1)]
  }

  /** The odd half of radix 8: the sums of x1, x5, x3, x7 the even half is combined with. */
  function Odd8<Z>(O: Ops<Z>, x1: Z, x3: Z, x5: Z, x7: Z): seq<Z> {
    var a1, a5 := O.add(x1, x5), O.sub(x1, x5);
    var a3, a7 := O.add(x3, x7), O.rot(O.sub(x3, x7));
    var c5, c7 := O.add(a5, a7), O.sub(a5, a7);
    [O.add(a1, a3), O.add(c5, O.rot(c5)), O.rot(O.sub(a1, a3)), O.sub(O.rot(c7), c7)]
  }

  /** The even half: a radix-4 butterfly of x0, x2, x4, x6. */
  function Even8<Z>(O: Ops<Z>, x0: Z, x2: Z, x4: Z, x6: Z): seq<Z> {
    var a0, a4 := O.add(x0, x4), O.sub(x0, x4);
    var a2, a6 := O.add(x2, x6), O.rot(O.sub(x2, x6));
    [O.add(a0, a2), O.add(a4, a6), O.sub(a0, a2), O.sub(a4, a6)]
  }

  function Bfly8<Z>(O: Ops<Z>, x: seq<Z>): seq<Z>
    requires |x| == 8
  {
    var o, e := Odd8(O, x[1], x[3], x[5], x[7]), Even8(O, x[0], x[2], x[4], x[6]);
    [O.add(e[0], o[0]), O.plusH(e[1], o[1]), O.add(e[2], o[2]), O.plusH(e[3], o[3]),
     O.sub(e[0], o[0]), O.minusH(e[1], o[1]), O.sub(e[2], o[2]), O.minusH(e[3], o[3])]
  }

  /** The radix-r butterfly. */
  function Bfly<Z>(O: Ops<Z>, r: int, x: seq<Z>): (y: seq<Z>)
    requires |x| == r && r in {2, 3, 4, 5, 8}
    ensures |y| == r
  {
    match r
    case 2 => Bfly2(O, x[0], x[1])
    case 3 => Bfly3(O, x[0], x[1], x[2])
    case 4 => Bfly4(O, x[0], x[1], x[2], x[3])
    case 5 => Bfly5(O, x[0], x[1], x[2], x[3], x[4])
    case _ => Bfly8(O, x)
  }
}
