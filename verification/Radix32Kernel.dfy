/** The radix-32 pass kernels on groups of points. The values between the two stages of a
    butterfly go through the cells of its own output, or through the frame. */
module Radix32Kernel {
  import opened Modular
  import opened PassWalk
  import opened Composite
  import opened SplitKernel

  /** The arithmetic on whole groups: how a group in memory becomes register values and back,
      in the layout of each side; how a value between the stages is kept and fetched; the 8- and
      4-point butterflies, the turn by W32^e, the product with a twiddle group, and the blend
      that keeps lane 0 of its first operand. */
  datatype Body32<!M, !V(!new)> = Body32(load: M -> V, store: V -> M, keep: V -> M, fetch: M -> V,
                                         first: (seq<V>, int) -> V, second: (seq<V>, int) -> V, turn: (int, V) -> V,
                                         mul: (V, V) -> V, blend: (V, V) -> V)

  /** What is kept between the stages is fetched again. */
  ghost predicate Keeps<M, V(!new)>(body: Body32<M, V>) {
    forall e, v :: Refetched(body, e, v)
  }

  ghost predicate Refetched<M, V(!new)>(body: Body32<M, V>, e: int, v: V) {
    body.fetch(body.keep(body.turn(e, v))) == body.turn(e, v)
  }

  /** Output j of group i of block k, out of place. */
  function Output32<M, V(!new)>(body: Body32<M, V>, cc: seq<M>, tw: seq<V>, ido: int, l1: int, i: int, k: int, j: int): V
    requires 0 <= i < ido && 0 <= k < l1 && 0 <= j < 32 && |cc| >= Size(32, ido, l1) && |tw| >= 31 * ido
  {
    var y := SplitOutput(body.first, body.second, body.turn, 8, 4, GroupInput(body.load, cc, 32, ido, l1, i, k), j % 8, j / 8);
    if j == 0 then y
    else
      var t := body.mul(y, tw[31 * i + j - 1]);
      if i == 0 then body.blend(y, t) else t
  }

  /** Stage-1 value s = k1 + 8·n2 of group i of block k. */
  function Value32<M, V(!new)>(body: Body32<M, V>, cc: seq<M>, ido: int, l1: int, i: int, k: int, s: int): V
    requires 0 <= i < ido && 0 <= k < l1 && 0 <= s < 32 && |cc| >= Size(32, ido, l1)
  {
    SplitValue(body.first, body.turn, 8, 4, GroupInput(body.load, cc, 32, ido, l1, i, k), s / 8, s % 8)
  }

  class R32<M, V(!new)> {
    const cc: array<M>
    const ch: array<M>
    /** Where the values between the stages are kept: ch itself, or the frame. */
    const slots: array<M>
    const tw: seq<V>
    const ido: int     // groups in a stream
    const l1: int
    const group: int   // bytes in a group
    const body: Body32<M, V>
    ghost const input: seq<M>

    var AX: int        // input block + i
    var BX: int        // output + i
    var CX: int        // one input stream
    var DX: int        // one output stream
    var R10: int       // twiddle group cursor
    var blocks: int
    var groups: int

    constructor (cc: array<M>, ch: array<M>, slots: array<M>, tw: seq<V>, ido: int, l1: int, group: int, body: Body32<M, V>)
      requires ido > 0 && l1 >= 0 && group > 0 && |tw| >= 31 * ido
      requires cc.Length == Size(32, ido, l1) && ch.Length == Size(32, ido, l1) && cc != ch && cc != slots
      requires (slots == ch || slots.Length == 32) && Keeps(body)
      ensures Valid() && this.cc == cc && this.ch == ch && this.slots == slots && this.tw == tw
      ensures this.ido == ido && this.l1 == l1 && this.body == body && input == cc[..]
    {
      this.cc, this.ch, this.slots, this.tw := cc, ch, slots, tw;
      this.ido, this.l1, this.group, this.body := ido, l1, group, body;
      input := cc[..];
    }

    ghost predicate Valid()
      reads cc
    {
      && ido > 0 && l1 >= 0 && group > 0 && |tw| >= 31 * ido
      && cc.Length == Size(32, ido, l1) && ch.Length == Size(32, ido, l1)
      && cc != ch && cc != slots && (slots == ch || slots.Length == 32) && Keeps(body)
      && cc[..] == input
    }

    /** The registers stand at group i of block k. */
    ghost predicate At(i: int, k: int)
      reads `AX, `BX, `CX, `DX, `R10, cc
    {
      && Valid() && 0 <= k < l1 && 0 <= i <= ido
      && CX == group * ido && DX == group * (l1 * ido)
      && AX == group * (i + ido * (32 * k)) && BX == group * (i + ido * k)
      && R10 == group * (31 * i)
    }

    /** The cell of slot s between the stages. */
    function SlotCell(i: int, k: int, s: int): int {
      if slots == ch then Cell(ido, l1, i, k, s) else s
    }

    /** Input n2 + 4·n1, through SI, DI and the strides S and 3·S. */
    function In(n2: int, n1: int): int
      reads this
    {
      var SI := AX + n2 * CX;
      var DI := SI + 16 * CX;
      match n1
      case 0 => SI
      case 1 => SI + CX * 4
      case 2 => SI + CX * 8
      case 3 => SI + 3 * CX * 4
      case 4 => DI
      case 5 => DI + CX * 4
      case 6 => SI + 3 * CX * 8
      case _ => DI + 3 * CX * 4
    }

    /** Stage 1's slot k1 + 8·n2, through R8, R9 and the strides D and 3·D. */
    function Slot1(n2: int, k1: int): int
      reads this
    {
      var R8 := BX + 8 * n2 * DX;
      var R9 := R8 + 4 * DX;
      match k1
      case 0 => R8
      case 1 => R8 + DX
      case 2 => R8 + DX * 2
      case 3 => R8 + 3 * DX
      case 4 => R9
      case 5 => R9 + DX
      case 6 => R8 + 3 * DX * 2
      case _ => R9 + 3 * DX
    }

    /** Stage 2's slot k1 + 8·k2, through R8 and the strides D, 3·D and 16·D. */
    function Slot2(k1: int, k2: int): int
      reads this
    {
      var R8 := BX + k1 * DX;
      match k2
      case 0 => R8
      case 1 => R8 + DX * 8
      case 2 => R8 + 16 * DX
      case _ => R8 + 3 * DX * 8
    }

    lemma InputAddress(i: int, k: int, n2: int, n1: int)
      requires At(i, k) && i < ido && 0 <= n2 < 4 && 0 <= n1 < 8
      ensures 0 <= InputCell(32, ido, i, k, n2 + 4 * n1) < cc.Length
      ensures In(n2, n1) / group == InputCell(32, ido, i, k, n2 + 4 * n1)
    {
      var c := i + ido * (32 * k);
      assert In(n2, n1) == AX + (n2 + 4 * n1) * CX;
      StrideAddress(group, c, ido, n2 + 4 * n1);
      assert ido * (n2 + 4 * n1 + 32 * k) == (n2 + 4 * n1) * ido + ido * (32 * k);
      InputInRange(32, ido, l1, i, k, n2 + 4 * n1);
    }

    lemma SlotStride(k1: int, n2: int)
      requires 0 <= n2 < 4 && 0 <= k1 < 8
      ensures Slot1(n2, k1) == BX + (k1 + 8 * n2) * DX && Slot2(k1, n2) == BX + (k1 + 8 * n2) * DX
    {
      assert (k1 + 8 * n2) * DX == k1 * DX + 8 * (n2 * DX) && 8 * n2 * DX == 8 * (n2 * DX);
    }

    lemma OutputAddress(i: int, k: int, k1: int, n2: int)
      requires At(i, k) && i < ido && 0 <= n2 < 4 && 0 <= k1 < 8
      ensures 0 <= Cell(ido, l1, i, k, k1 + 8 * n2) < ch.Length
      ensures Slot1(n2, k1) / group == Cell(ido, l1, i, k, k1 + 8 * n2)
      ensures Slot2(k1, n2) / group == Cell(ido, l1, i, k, k1 + 8 * n2)
    {
      var s := k1 + 8 * n2;
      SlotStride(k1, n2);
      hide Slot1, Slot2;
      StrideAddress(group, i + ido * k, l1 * ido, s);
      OutputCell(ido, l1, i, k, s);
      CellEncodes(ido, l1, 32, i, k, s);
    }

    /** Cell a is one of group i of block k. */
    ghost predicate Mine(a: int, i: int, k: int)
      requires ido > 0 && l1 > 0
    {
      PointOf(ido, a) == i && BlockOf(ido, l1, a) == k
    }

    /** The 32 cells of group i of block k are apart. */
    lemma CellsApart(i: int, k: int)
      requires Valid() && 0 <= i < ido && 0 <= k < l1
      ensures forall s :: 0 <= s < 32 ==>
        0 <= Cell(ido, l1, i, k, s) < ch.Length && OutputOf(ido, l1, Cell(ido, l1, i, k, s)) == s && Mine(Cell(ido, l1, i, k, s), i, k)
      ensures forall a :: 0 <= a < ch.Length && Mine(a, i, k) ==>
        0 <= OutputOf(ido, l1, a) < 32 && a == Cell(ido, l1, i, k, OutputOf(ido, l1, a))
    {
      forall s | 0 <= s < 32
        ensures 0 <= Cell(ido, l1, i, k, s) < ch.Length && OutputOf(ido, l1, Cell(ido, l1, i, k, s)) == s
        ensures Mine(Cell(ido, l1, i, k, s), i, k)
      {
        CellEncodes(ido, l1, 32, i, k, s);
      }
      forall a | 0 <= a < ch.Length && Mine(a, i, k)
        ensures 0 <= OutputOf(ido, l1, a) < 32 && a == Cell(ido, l1, i, k, OutputOf(ido, l1, a))
      {
        CellDecodes(ido, l1, 32, a);
      }
    }

    /** What the butterflies of group i of block k store between the stages. */
    ghost function Between(i: int, k: int, s: int): V
      requires ido > 0 && |input| >= Size(32, ido, l1) && 0 <= i < ido && 0 <= k < l1 && 0 <= s < 32
    {
      Value32(body, input, ido, l1, i, k, s)
    }

    ghost function Want(i: int, k: int, j: int): V
      requires |input| >= Size(32, ido, l1) && |tw| >= 31 * ido && 0 <= i < ido && 0 <= k < l1 && 0 <= j < 32
    {
      Output32(body, input, tw, ido, l1, i, k, j)
    }

    /** Slot s holds its stage-1 value. */
    ghost predicate Kept(i: int, k: int, s: int)
      requires Valid() && 0 <= i < ido && 0 <= k < l1 && 0 <= s < 32
      reads cc, slots
    {
      0 <= SlotCell(i, k, s) < slots.Length && slots[SlotCell(i, k, s)] == body.keep(Between(i, k, s))
    }

    /** Output cell s holds its result. */
    ghost predicate Made(i: int, k: int, s: int)
      requires Valid() && 0 <= i < ido && 0 <= k < l1 && 0 <= s < 32
      reads cc, ch
    {
      0 <= Cell(ido, l1, i, k, s) < ch.Length && ch[Cell(ido, l1, i, k, s)] == body.store(Want(i, k, s))
    }

    /** Every fourth input from n2 on. */
    method Load(n2: int, ghost i: int, ghost k: int) returns (xs: seq<V>)
      requires At(i, k) && i < ido && 0 <= n2 < 4
      ensures xs == Comb(GroupInput(body.load, input, 32, ido, l1, i, k), 8, 4, n2)
    {
      xs := [];
      for n1 := 0 to 8
        invariant |xs| == n1 && xs == Comb(GroupInput(body.load, input, 32, ido, l1, i, k), 8, 4, n2)[..n1]
      {
        InputAddress(i, k, n2, n1);
        xs := xs + [body.load(cc[In(n2, n1) / group])];
      }
    }

    /** One stage-1 value into its slot. */
    method Keep(n2: int, k1: int, y: V, ghost i: int, ghost k: int)
      requires At(i, k) && i < ido && 0 <= n2 < 4 && 0 <= k1 < 8 && y == Between(i, k, k1 + 8 * n2)
      modifies slots
      ensures At(i, k) && Kept(i, k, k1 + 8 * n2)
      ensures forall s :: 0 <= s < 32 && old(Kept(i, k, s)) ==> Kept(i, k, s)
      ensures forall a :: 0 <= a < ch.Length && !Mine(a, i, k) ==> ch[a] == old(ch[a])
    {
      CellsApart(i, k);
      OutputAddress(i, k, k1, n2);
      hide Cell, PointOf, BlockOf, OutputOf, Between;
      if slots == ch {
        slots[Slot1(n2, k1) / group] := body.keep(y);
      } else {
        slots[k1 + 8 * n2] := body.keep(y);
      }
    }

    /** Stage-1 value k1 + 8·n2 from the butterfly's output k1. */
    lemma StageOneValue(i: int, k: int, n2: int, k1: int)
      requires Valid() && 0 <= i < ido && 0 <= k < l1 && 0 <= n2 < 4 && 0 <= k1 < 8
      ensures body.turn(n2 * k1, body.first(Comb(GroupInput(body.load, input, 32, ido, l1, i, k), 8, 4, n2), k1)) == Between(i, k, k1 + 8 * n2)
    {
      assert (k1 + 8 * n2) / 8 == n2 && (k1 + 8 * n2) % 8 == k1;
      hide Comb, GroupInput;
    }

    /** Stage 1: every butterfly's outputs, turned, into its slots. */
    method Stage1(ghost i: int, ghost k: int)
      requires At(i, k) && i < ido
      modifies slots
      ensures At(i, k)
      ensures forall s :: 0 <= s < 32 ==> Kept(i, k, s)
      ensures forall a :: 0 <= a < ch.Length && !Mine(a, i, k) ==> ch[a] == old(ch[a])
    {
      hide Comb, GroupInput, Kept, Between, Mine;
      for n2 := 0 to 4
        invariant At(i, k)
        invariant forall s :: 0 <= s < 8 * n2 ==> Kept(i, k, s)
        invariant forall a :: 0 <= a < ch.Length && !Mine(a, i, k) ==> ch[a] == old(ch[a])
      {
        var xs := Load(n2, i, k);
        for k1 := 0 to 8
          invariant At(i, k)
          invariant forall s :: 0 <= s < 8 * n2 + k1 ==> Kept(i, k, s)
          invariant forall a :: 0 <= a < ch.Length && !Mine(a, i, k) ==> ch[a] == old(ch[a])
        {
          StageOneValue(i, k, n2, k1);
          Keep(n2, k1, body.turn(n2 * k1, body.first(xs, k1)), i, k);
        }
      }
    }

    /** A kept value comes back as it was. */
    lemma Fetched(i: int, k: int, s: int)
      requires Valid() && 0 <= i < ido && 0 <= k < l1 && 0 <= s < 32
      ensures body.fetch(body.keep(Between(i, k, s))) == Between(i, k, s)
    {
      assert Refetched(body, s / 8 * (s % 8), body.first(Comb(GroupInput(body.load, input, 32, ido, l1, i, k), 8, 4, s / 8), s % 8));
    }

    /** The four stage-1 values of k1. */
    method Reload(k1: int, ghost i: int, ghost k: int) returns (v: seq<V>)
      requires At(i, k) && i < ido && 0 <= k1 < 8
      requires forall n2 :: 0 <= n2 < 4 ==> Kept(i, k, k1 + 8 * n2)
      ensures v == SplitColumn(body.first, body.turn, 8, 4, GroupInput(body.load, input, 32, ido, l1, i, k), k1)
    {
      ghost var want := SplitColumn(body.first, body.turn, 8, 4, GroupInput(body.load, input, 32, ido, l1, i, k), k1);
      v := [];
      for n2 := 0 to 4
        invariant |v| == n2 && v == want[..n2]
      {
        OutputAddress(i, k, k1, n2);
        assert Kept(i, k, k1 + 8 * n2);
        assert (k1 + 8 * n2) / 8 == n2 && (k1 + 8 * n2) % 8 == k1;
        assert want[n2] == Between(i, k, k1 + 8 * n2);
        Fetched(i, k, k1 + 8 * n2);
        v := v + [body.fetch(if slots == ch then slots[Slot2(k1, n2) / group] else slots[k1 + 8 * n2])];
      }
    }

    /** Output j, multiplied by its twiddle group, lane 0 of a block's first group put back. */
    method Finish(y: V, j: int, first: bool, ghost i: int, ghost k: int) returns (t: V)
      requires At(i, k) && i < ido && 0 <= j < 32 && (first <==> i == 0)
      requires y == SplitOutput(body.first, body.second, body.turn, 8, 4, GroupInput(body.load, input, 32, ido, l1, i, k), j % 8, j / 8)
      ensures t == Want(i, k, j)
    {
      t := y;
      if j > 0 {
        TwiddleAt(group, i, j - 1);
        t := body.mul(y, tw[(R10 + (j - 1) * group) / group]);
        if first {
          t := body.blend(y, t);
        }
      }
    }

    /** One result into its output, which is one of the slots of k1. */
    method Make(k1: int, k2: int, t: V, ghost i: int, ghost k: int)
      requires At(i, k) && i < ido && 0 <= k1 < 8 && 0 <= k2 < 4 && t == Want(i, k, k1 + 8 * k2)
      modifies ch
      ensures At(i, k) && Made(i, k, k1 + 8 * k2)
      ensures forall s :: 0 <= s < 32 && old(Made(i, k, s)) ==> Made(i, k, s)
      ensures forall s :: 0 <= s < 32 && s % 8 != k1 && old(Kept(i, k, s)) ==> Kept(i, k, s)
      ensures forall a :: 0 <= a < ch.Length && !Mine(a, i, k) ==> ch[a] == old(ch[a])
    {
      CellsApart(i, k);
      OutputAddress(i, k, k1, k2);
      hide Cell, PointOf, BlockOf, OutputOf, Between, Want;
      ch[Slot2(k1, k2) / group] := body.store(t);
    }

    /** Stage 2: butterfly k1 from the four slots of k1, to the same four outputs. */
    method Stage2(first: bool, ghost i: int, ghost k: int)
      requires At(i, k) && i < ido && (first <==> i == 0)
      requires forall s :: 0 <= s < 32 ==> Kept(i, k, s)
      modifies ch
      ensures At(i, k)
      ensures forall s :: 0 <= s < 32 ==> Made(i, k, s)
      ensures forall a :: 0 <= a < ch.Length && !Mine(a, i, k) ==> ch[a] == old(ch[a])
    {
      hide GroupInput, Kept, Made, Want, Mine;
      for k1 := 0 to 8
        invariant At(i, k)
        invariant forall s :: 0 <= s < 32 && s % 8 < k1 ==> Made(i, k, s)
        invariant forall s :: 0 <= s < 32 && s % 8 >= k1 ==> Kept(i, k, s)
        invariant forall a :: 0 <= a < ch.Length && !Mine(a, i, k) ==> ch[a] == old(ch[a])
      {
        var v := Reload(k1, i, k);
        FourOutputs(k1, v, first, i, k);
      }
    }

    /** The outputs of butterfly k1, over the four slots it has read. */
    method FourOutputs(k1: int, v: seq<V>, first: bool, ghost i: int, ghost k: int)
      requires At(i, k) && i < ido && (first <==> i == 0) && 0 <= k1 < 8
      requires v == SplitColumn(body.first, body.turn, 8, 4, GroupInput(body.load, input, 32, ido, l1, i, k), k1)
      modifies ch
      ensures At(i, k)
      ensures forall s :: 0 <= s < 32 && (s % 8 == k1 || old(Made(i, k, s))) ==> Made(i, k, s)
      ensures forall s :: 0 <= s < 32 && s % 8 != k1 && old(Kept(i, k, s)) ==> Kept(i, k, s)
      ensures forall a :: 0 <= a < ch.Length && !Mine(a, i, k) ==> ch[a] == old(ch[a])
    {
      hide GroupInput, Kept, Made, Want, Mine, SplitColumn;
      for k2 := 0 to 4
        invariant At(i, k)
        invariant forall s :: 0 <= s < 32 && ((s % 8 == k1 && s < k1 + 8 * k2) || old(Made(i, k, s))) ==> Made(i, k, s)
        invariant forall s :: 0 <= s < 32 && s % 8 != k1 && old(Kept(i, k, s)) ==> Kept(i, k, s)
        invariant forall a :: 0 <= a < ch.Length && !Mine(a, i, k) ==> ch[a] == old(ch[a])
      {
        assert (k1 + 8 * k2) / 8 == k2 && (k1 + 8 * k2) % 8 == k1;
        var t := Finish(body.second(v, k2), k1 + 8 * k2, first, i, k);
        Make(k1, k2, t, i, k);
      }
    }

    /** Every cell of the blocks before k, and of the groups before i of block k, is done. */
    ghost predicate Done(i: int, k: int)
      requires Valid()
      reads cc, ch
    {
      l1 > 0 ==> forall a :: 0 <= a < ch.Length && (BlockOf(ido, l1, a) < k || (BlockOf(ido, l1, a) == k && PointOf(ido, a) < i)) ==>
        CellDone(a)
    }

    ghost predicate CellDone(a: int)
      requires Valid() && l1 > 0 && 0 <= a < ch.Length
      reads cc, ch
    {
      CellDecodes(ido, l1, 32, a);
      ch[a] == body.store(Want(PointOf(ido, a), BlockOf(ido, l1, a), OutputOf(ido, l1, a)))
    }

    /** One butterfly on a group and the step past it. */
    method Step(first: bool, ghost i: int, ghost k: int)
      requires At(i, k) && i < ido && (first <==> i == 0) && Done(i, k)
      modifies this`AX, this`BX, this`R10, ch, slots
      ensures At(i + 1, k) && Done(i + 1, k)
    {
      Stage1(i, k);
      Stage2(first, i, k);
      GroupDone(i, k);
      assert Done(i + 1, k) by {
        hide PointOf, BlockOf, OutputOf, Want, Cell;
        forall a | 0 <= a < ch.Length && (BlockOf(ido, l1, a) < k || (BlockOf(ido, l1, a) == k && PointOf(ido, a) < i + 1))
          ensures CellDone(a)
        {
          if !Mine(a, i, k) {
            assert ch[a] == old(ch[a]);
          }
        }
      }
      MulAdd(group, i + ido * (32 * k), 1);
      MulAdd(group, i + ido * k, 1);
      MulAdd(group, 31 * i, 31);
      AX, BX, R10 := AX + group, BX + group, R10 + 31 * group;
    }

    lemma GroupDone(i: int, k: int)
      requires Valid() && 0 <= i < ido && 0 <= k < l1
      requires forall s :: 0 <= s < 32 ==> Made(i, k, s)
      ensures forall a :: 0 <= a < ch.Length && Mine(a, i, k) ==> CellDone(a)
    {
      CellsApart(i, k);
      forall a | 0 <= a < ch.Length && Mine(a, i, k) ensures CellDone(a) {
        assert Made(i, k, OutputOf(ido, l1, a));
      }
    }

    method Block(ghost k: int)
      requires At(0, k) && Done(0, k)
      modifies this`AX, this`BX, this`R10, this`groups, ch, slots
      ensures At(ido, k) && Done(ido, k)
    {
      hide Done;
      groups := CX / group;
      assert groups == ido by {
        Quotient(group, ido);
      }
      ghost var i := 0;
      Step(true, i, k);
      i, groups := i + 1, groups - 1;
      while groups != 0
        invariant 0 < i && 0 <= groups && i + groups == ido && At(i, k) && Done(i, k)
        decreases groups
      {
        Step(false, i, k);
        i, groups := i + 1, groups - 1;
      }
    }

    lemma NextDone(k: int)
      requires Valid() && Done(ido, k)
      ensures Done(0, k + 1)
    {
      forall a | l1 > 0 && 0 <= a < ch.Length ensures 0 <= PointOf(ido, a) < ido {
        CellDecodes(ido, l1, 32, a);
      }
    }

    /** The pass leaves every cell as the out-of-place butterflies make it, whether the values
        between the stages went through the output or through the frame. */
    method Run()
      requires Valid()
      modifies this, ch, slots
      ensures Valid()
      ensures forall i, k, j :: 0 <= i < ido && 0 <= k < l1 && 0 <= j < 32 ==> Made(i, k, j)
    {
      CX, DX, blocks := group * ido, group * (l1 * ido), l1;
      AX, BX := 0, 0;
      ghost var k := 0;
      assert Done(0, 0) by {
        forall a | l1 > 0 && 0 <= a < ch.Length ensures 0 <= BlockOf(ido, l1, a) {
          CellDecodes(ido, l1, 32, a);
        }
      }
      assert ido * (32 * 0) == 0 && ido * 0 == 0;
      hide Done;
      while blocks != 0
        invariant Valid() && 0 <= blocks && k + blocks == l1
        invariant CX == group * ido && DX == group * (l1 * ido)
        invariant AX == group * (ido * (32 * k)) && BX == group * (ido * k)
        invariant Done(0, k)
        decreases blocks
      {
        R10 := 0;
        Block(k);
        NextDone(k);
        NextBlock(group, ido, k);
        AX := AX + 31 * CX;
        k, blocks := k + 1, blocks - 1;
      }
      AllMade();
    }

    lemma AllMade()
      requires Valid() && Done(0, l1)
      ensures forall i, k, j :: 0 <= i < ido && 0 <= k < l1 && 0 <= j < 32 ==> Made(i, k, j)
    {
      forall i, k, j | 0 <= i < ido && 0 <= k < l1 && 0 <= j < 32 ensures Made(i, k, j) {
        CellEncodes(ido, l1, 32, i, k, j);
        assert CellDone(Cell(ido, l1, i, k, j));
      }
    }
  }

  lemma StrideAddress(group: int, base: int, stride: int, n: int)
    requires group > 0
    ensures (group * base + n * (group * stride)) / group == base + n * stride
  {
    assert n * (group * stride) == group * (n * stride);
    MulAdd(group, base, n * stride);
    DivModUnique(group, 0, base + n * stride);
  }

  lemma OutputCell(ido: int, l1: int, i: int, k: int, s: int)
    ensures Cell(ido, l1, i, k, s) == i + ido * k + s * (l1 * ido)
  {
    assert ido * (k + l1 * s) == ido * k + ido * (l1 * s) && ido * (l1 * s) == s * (l1 * ido);
  }

  lemma Quotient(group: int, n: int)
    requires group > 0
    ensures group * n / group == n
  {
    DivModUnique(group, 0, n);
  }

  lemma TwiddleAt(group: int, i: int, j: int)
    requires group > 0
    ensures (group * (31 * i) + j * group) / group == 31 * i + j
  {
    StrideAddress(group, 31 * i, 1, j);
  }

  lemma NextBlock(group: int, ido: int, k: int)
    ensures group * (ido + ido * (32 * k)) + 31 * (group * ido) == group * (ido * (32 * (k + 1)))
    ensures group * (ido + ido * k) == group * (ido * (k + 1))
  {
    assert ido * (32 * (k + 1)) == ido * (32 * k) + 32 * ido && ido * (k + 1) == ido * k + ido;
    MulAdd(group, ido + ido * (32 * k), 31 * ido);
    assert group * (31 * ido) == 31 * (group * ido);
  }
}
