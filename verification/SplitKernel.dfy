/** The split-layout pass kernels, on whole groups of points: a block is ido groups, and a
    group is read and written in the layout of its side. */
module SplitKernel {
  import opened Modular
  import opened PassWalk

  /** How a group in memory becomes register values and back, and what is done between. */
  datatype GroupBody<!M, !V> = GroupBody(load: M -> V, store: V -> M, bfly: (seq<V>, int) -> V,
                                         mul: (V, V) -> V, blend: (V, V) -> V)

  /** The values of group i of block k. */
  function GroupInput<M, V>(load: M -> V, cc: seq<M>, r: int, ido: int, l1: int, i: int, k: int): (xs: seq<V>)
    requires r > 0 && 0 <= i < ido && 0 <= k < l1 && |cc| >= Size(r, ido, l1)
    ensures |xs| == r
  {
    seq(r, j requires 0 <= j < r => (InputInRange(r, ido, l1, i, k, j); load(cc[InputCell(r, ido, i, k, j)])))
  }

  /** Output j of group i of block k: in a block's first group the blend keeps lane 0 as it was. */
  function GroupValue<M, V>(body: GroupBody<M, V>, cc: seq<M>, tw: seq<V>, r: int, ido: int, l1: int, i: int, k: int, j: int): V
    requires 0 <= i < ido && 0 <= k < l1 && 0 <= j < r && |cc| >= Size(r, ido, l1) && |tw| >= (r - 1) * ido
  {
    var y := body.bfly(GroupInput(body.load, cc, r, ido, l1, i, k), j);
    if j == 0 then y
    else
      TwiddleBounds(r, ido, i, j);
      var t := body.mul(y, tw[(r - 1) * i + j - 1]);
      if i == 0 then body.blend(y, t) else t
  }

  lemma TwiddleBounds(r: int, ido: int, i: int, j: int)
    requires 0 <= i < ido && 1 <= j < r
    ensures 0 <= (r - 1) * i + j - 1 < (r - 1) * ido
  {
    CellBounds(r - 1, ido, j - 1, i);
  }

  class SplitPass<M, V> {
    const cc: array<M>
    const ch: array<M>
    const tw: seq<V>
    const r: int
    const ido: int     // groups in a stream
    const l1: int
    const group: int   // bytes in a group
    const body: GroupBody<M, V>
    ghost const input: seq<M>

    var AX: int        // input block + i
    var SI: int        // four streams on
    var BX: int        // output + i
    var DI: int        // four streams on
    var CX: int        // one input stream
    var DX: int        // one output stream
    var R10: int       // twiddle cursor
    var R8: int        // blocks left
    var R9: int        // groups left

    constructor (cc: array<M>, ch: array<M>, tw: seq<V>, r: int, ido: int, l1: int, group: int, body: GroupBody<M, V>)
      requires r in {3, 4, 5, 8} && ido > 0 && l1 >= 0 && group > 0 && |tw| >= (r - 1) * ido
      requires cc.Length == Size(r, ido, l1) && ch.Length == Size(r, ido, l1) && cc != ch
      ensures Valid() && this.cc == cc && this.ch == ch && this.tw == tw && input == cc[..]
      ensures this.r == r && this.ido == ido && this.l1 == l1 && this.body == body
    {
      this.cc, this.ch, this.tw := cc, ch, tw;
      this.r, this.ido, this.l1, this.group, this.body := r, ido, l1, group, body;
      input := cc[..];
    }

    ghost predicate Valid()
      reads cc
    {
      && r in {3, 4, 5, 8} && ido > 0 && l1 >= 0 && group > 0 && |tw| >= (r - 1) * ido
      && cc.Length == Size(r, ido, l1) && ch.Length == Size(r, ido, l1) && cc != ch && cc[..] == input
    }

    /** The registers stand at group i of block k. */
    ghost predicate At(i: int, k: int)
      reads `AX, `SI, `BX, `DI, `CX, `DX, `R10, cc
    {
      && Valid() && 0 <= k < l1 && 0 <= i <= ido
      && CX == group * ido && DX == group * (l1 * ido)
      && AX == group * (i + ido * (r * k)) && BX == group * (i + ido * k)
      && (r > 4 ==> SI == AX + 4 * CX && DI == BX + 4 * DX)
      && R10 == group * ((r - 1) * i)
    }

    function In(j: int): int
      reads this
    {
      if j < 4 then AX + j * CX else SI + (j - 4) * CX
    }

    function Out(j: int): int
      reads this
    {
      if j < 4 then BX + j * DX else DI + (j - 4) * DX
    }

    lemma Addresses(i: int, k: int, j: int)
      requires At(i, k) && i < ido && 0 <= j < r
      ensures 0 <= InputCell(r, ido, i, k, j) < cc.Length && In(j) / group == InputCell(r, ido, i, k, j)
      ensures 0 <= Cell(ido, l1, i, k, j) < ch.Length && Out(j) / group == Cell(ido, l1, i, k, j)
    {
      assert In(j) == AX + j * CX && Out(j) == BX + j * DX by {
        assert (j - 4) * CX == j * CX - 4 * CX && (j - 4) * DX == j * DX - 4 * DX;
      }
      hide In, Out;
      GroupStride(group, i + ido * (r * k), ido, j);
      GroupStride(group, i + ido * k, l1 * ido, j);
      InputStream(r, ido, i, k, j);
      OutputStream(ido, l1, i, k, j);
      InputInRange(r, ido, l1, i, k, j);
      CellEncodes(ido, l1, r, i, k, j);
    }

    /** What the output group of cell a must hold. */
    ghost function Want(i: int, k: int, j: int): M
      requires |input| >= Size(r, ido, l1) && |tw| >= (r - 1) * ido && 0 <= i < ido && 0 <= k < l1 && 0 <= j < r
    {
      body.store(GroupValue(body, input, tw, r, ido, l1, i, k, j))
    }

    /** Output j of group i of block k is stored in its cell. */
    ghost predicate Made(i: int, k: int, j: int)
      requires Valid() && 0 <= i < ido && 0 <= k < l1 && 0 <= j < r
      reads cc, ch
    {
      CellEncodes(ido, l1, r, i, k, j);
      ch[Cell(ido, l1, i, k, j)] == Want(i, k, j)
    }

    ghost predicate CellDone(a: int)
      requires Valid() && l1 > 0 && 0 <= a < ch.Length
      reads cc, ch
    {
      CellDecodes(ido, l1, r, a);
      ch[a] == Want(PointOf(ido, a), BlockOf(ido, l1, a), OutputOf(ido, l1, a))
    }

    /** The outputs below j of group i of block k, and everything before them, are done. */
    ghost predicate Done(i: int, k: int, j: int)
      requires Valid()
      reads cc, ch
    {
      l1 > 0 ==> forall a :: 0 <= a < ch.Length && Before(a, i, k, j) ==> CellDone(a)
    }

    ghost predicate Before(a: int, i: int, k: int, j: int)
      requires ido > 0 && l1 > 0
    {
      || BlockOf(ido, l1, a) < k
      || (BlockOf(ido, l1, a) == k && PointOf(ido, a) < i)
      || (BlockOf(ido, l1, a) == k && PointOf(ido, a) == i && OutputOf(ido, l1, a) < j)
    }

    /** The inputs of a group. */
    method Load(ghost i: int, ghost k: int) returns (xs: seq<V>)
      requires At(i, k) && i < ido
      ensures xs == GroupInput(body.load, input, r, ido, l1, i, k)
    {
      xs := [];
      for j := 0 to r
        invariant |xs| == j && xs == GroupInput(body.load, input, r, ido, l1, i, k)[..j]
      {
        Addresses(i, k, j);
        xs := xs + [body.load(cc[In(j) / group])];
      }
    }

    /** Output j of a group, from its butterfly. */
    method Value(xs: seq<V>, j: int, first: bool, ghost i: int, ghost k: int) returns (t: V)
      requires At(i, k) && i < ido && 0 <= j < r && (first <==> i == 0)
      requires xs == GroupInput(body.load, input, r, ido, l1, i, k)
      ensures t == GroupValue(body, input, tw, r, ido, l1, i, k, j)
    {
      t := body.bfly(xs, j);
      if j > 0 {
        var y := t;
        TwiddleBounds(r, ido, i, j);
        GroupStride(group, (r - 1) * i, 1, j - 1);
        t := body.mul(y, tw[(R10 + (j - 1) * group) / group]);
        if first {
          t := body.blend(y, t);
        }
      }
    }

    method StoreOne(j: int, t: V, ghost i: int, ghost k: int)
      requires At(i, k) && i < ido && 0 <= j < r && t == GroupValue(body, input, tw, r, ido, l1, i, k, j) && Done(i, k, j)
      modifies ch
      ensures At(i, k) && Done(i, k, j + 1)
    {
      Addresses(i, k, j);
      ghost var c := Cell(ido, l1, i, k, j);
      ch[Out(j) / group] := body.store(t);
      forall a | 0 <= a < ch.Length && Before(a, i, k, j + 1) ensures CellDone(a) {
        CellEncodes(ido, l1, r, i, k, j);
        CellDecodes(ido, l1, r, a);
        if a != c {
          assert Before(a, i, k, j);
          assert ch[a] == old(ch[a]) && old(CellDone(a));
        }
      }
    }

    /** One butterfly on a group and the step past it. */
    method Step(first: bool, ghost i: int, ghost k: int)
      requires At(i, k) && i < ido && (first <==> i == 0) && Done(i, k, 0)
      modifies this`AX, this`SI, this`BX, this`DI, this`R10, this`R9, ch
      ensures At(i + 1, k) && Done(i + 1, k, 0) && R9 == old(R9) - 1
    {
      var xs := Load(i, k);
      hide Done;
      for j := 0 to r
        invariant At(i, k) && Done(i, k, j) && R9 == old(R9)
      {
        var t := Value(xs, j, first, i, k);
        StoreOne(j, t, i, k);
      }
      NextGroup(i, k);
      GroupBytes(group, i + ido * (r * k), i + ido * k, r - 1, i);
      AX, BX, SI, DI := AX + group, BX + group, SI + group, DI + group;
      R10 := R10 + (r - 1) * group;
      R9 := R9 - 1;
    }

    lemma NextGroup(i: int, k: int)
      requires Valid() && Done(i, k, r)
      ensures Done(i + 1, k, 0)
    {
      forall a | l1 > 0 && 0 <= a < ch.Length && Before(a, i + 1, k, 0) ensures Before(a, i, k, r) {
        CellDecodes(ido, l1, r, a);
      }
    }

    lemma NextBlock(k: int)
      requires Valid() && Done(ido, k, 0)
      ensures Done(0, k + 1, 0)
    {
      forall a | l1 > 0 && 0 <= a < ch.Length && Before(a, 0, k + 1, 0) ensures Before(a, ido, k, 0) {
        CellDecodes(ido, l1, r, a);
      }
    }

    method Block(ghost k: int)
      requires At(0, k) && Done(0, k, 0)
      modifies this`AX, this`SI, this`BX, this`DI, this`R10, this`R9, ch
      ensures At(ido, k) && Done(ido, k, 0)
    {
      hide Done;
      R9 := CX / group;
      assert R9 == ido by {
        DivModUnique(group, 0, ido);
      }
      ghost var i := 0;
      Step(true, i, k);
      i := i + 1;
      while R9 != 0
        invariant 0 < i && 0 <= R9 && i + R9 == ido && At(i, k) && Done(i, k, 0)
        decreases R9
      {
        Step(false, i, k);
        i := i + 1;
      }
    }

    /** The whole pass. */
    method Run()
      requires Valid()
      modifies this, ch
      ensures Valid()
      ensures forall i, k, j :: 0 <= i < ido && 0 <= k < l1 && 0 <= j < r ==> Made(i, k, j)
    {
      CX, DX, R8 := group * ido, group * (l1 * ido), l1;
      AX, BX := 0, 0;
      ghost var k := 0;
      assert Done(0, 0, 0) by {
        forall a | l1 > 0 && 0 <= a < ch.Length ensures !Before(a, 0, 0, 0) {
          CellDecodes(ido, l1, r, a);
        }
      }
      assert ido * (r * 0) == 0 && ido * 0 == 0;
      hide Done;
      while R8 != 0
        invariant Valid() && 0 <= R8 && k + R8 == l1
        invariant CX == group * ido && DX == group * (l1 * ido)
        invariant AX == group * (ido * (r * k)) && BX == group * (ido * k)
        invariant Done(0, k, 0)
        decreases R8
      {
        OneBlock(k);
        k, R8 := k + 1, R8 - 1;
      }
      AllDone();
    }

    method OneBlock(ghost k: int)
      requires Valid() && 0 <= k < l1 && CX == group * ido && DX == group * (l1 * ido)
      requires AX == group * (ido * (r * k)) && BX == group * (ido * k) && Done(0, k, 0)
      modifies this`AX, this`SI, this`BX, this`DI, this`R10, this`R9, ch
      ensures Valid() && AX == group * (ido * (r * (k + 1))) && BX == group * (ido * (k + 1)) && Done(0, k + 1, 0)
    {
      hide Done;
      if r > 4 {
        SI, DI := AX + CX * 4, BX + DX * 4;
      }
      R10 := 0;
      Block(k);
      NextBlock(k);
      StreamsOn(group, ido, r, k);
      // The input cursor stands one stream on: r - 1 more are the next block.
      AX := if r == 3 then AX + CX * 2 else if r == 4 then AX + CX * 3 else if r == 5 then AX + CX * 4 else AX + CX * 4 + CX * 3;
    }

    lemma AllDone()
      requires Valid() && Done(0, l1, 0)
      ensures forall i, k, j :: 0 <= i < ido && 0 <= k < l1 && 0 <= j < r ==> Made(i, k, j)
    {
      forall i, k, j | 0 <= i < ido && 0 <= k < l1 && 0 <= j < r ensures Made(i, k, j) {
        CellEncodes(ido, l1, r, i, k, j);
        assert Before(Cell(ido, l1, i, k, j), 0, l1, 0);
      }
    }
  }

  lemma GroupStride(group: int, base: int, stride: int, n: int)
    requires group > 0
    ensures (group * base + n * (group * stride)) / group == base + n * stride
  {
    assert n * (group * stride) == group * (n * stride);
    MulAdd(group, base, n * stride);
    DivModUnique(group, 0, base + n * stride);
  }

  lemma InputStream(r: int, ido: int, i: int, k: int, j: int)
    ensures InputCell(r, ido, i, k, j) == i + ido * (r * k) + j * ido
  {
    MulAdd(ido, j, r * k);
  }

  lemma OutputStream(ido: int, l1: int, i: int, k: int, j: int)
    ensures Cell(ido, l1, i, k, j) == i + ido * k + j * (l1 * ido)
  {
    MulAdd(ido, k, l1 * j);
    MulRegroup(ido, l1, j);
    MulRegroup(j, l1, ido);
  }

  lemma StreamsOn(group: int, ido: int, r: int, k: int)
    ensures group * (ido + ido * (r * k)) + (r - 1) * (group * ido) == group * (ido * (r * (k + 1)))
    ensures group * (ido + ido * k) == group * (ido * (k + 1))
  {
    MulAdd(r, k, 1);
    MulAdd(ido, r * k, r);
    MulAdd(ido, k, 1);
    MulRegroup(r - 1, group, ido);
    MulAdd(group, ido + ido * (r * k), (r - 1) * ido);
    assert ido * r == ido + (r - 1) * ido;
  }

  /** The bytes of one group more. */
  lemma GroupBytes(group: int, a: int, b: int, r: int, i: int)
    ensures group * (a + 1) == group * a + group && group * (b + 1) == group * b + group
    ensures group * (r * (i + 1)) == group * (r * i) + r * group
  {
    MulAdd(group, a, 1);
    MulAdd(group, b, 1);
    MulAdd(r, i, 1);
    MulAdd(group, r * i, r);
  }
}
