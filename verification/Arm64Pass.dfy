/** The arm64 pass kernels, radix 2, 3, 4, 5 and 8: every stream has a register of its own,
    moved past a pair of points by the load or store that uses it. */
module Arm64Pass {
  import opened Modular
  import opened PassWalk

  /** One lane of a pair of twiddles. */
  function LaneOf<C>(w: (C, C), l: int): C {
    if l == 0 then w.0 else w.1
  }

  lemma PairCell(r: int, ido: int, i: int, j: int)
    requires 0 <= i < ido && 1 <= j < r
    ensures 0 <= (r - 1) * (i / 2) + (j - 1) < (r - 1) * ((ido + 1) / 2)
  {
    CellBounds(r - 1, (ido + 1) / 2, j - 1, i / 2);
  }

  /** The table holds the twiddles of points 2q and 2q + 1 side by side, r - 1 pairs to a pair
      of points. */
  ghost predicate PairTable<C(!new)>(body: Body<C>, tw: seq<(C, C)>, table: seq<C>, r: int, ido: int) {
    && r > 1 && ido > 0 && |tw| >= (r - 1) * ((ido + 1) / 2) && |table| >= TwiddleCells(r) * ((r - 1) * ido)
    && forall i, j :: 0 <= i < ido && 1 <= j < r ==> PairTwiddle(body, tw, table, r, ido, i, j)
  }

  ghost predicate PairTwiddle<C(!new)>(body: Body<C>, tw: seq<(C, C)>, table: seq<C>, r: int, ido: int, i: int, j: int)
    requires 0 <= i < ido && 1 <= j < r
    requires |tw| >= (r - 1) * ((ido + 1) / 2) && |table| >= TwiddleCells(r) * ((r - 1) * ido)
  {
    PairCell(r, ido, i, j);
    LaneOf(tw[(r - 1) * (i / 2) + (j - 1)], i % 2) == Twiddle(body, table, r, ido, i, j)
  }

  class Streams<C(!new)> {
    const cc: array<C>
    const ch: array<C>
    const tw: seq<(C, C)>
    const r: int
    const ido: int
    const l1: int
    const body: Body<C>
    ghost const table: seq<C>
    ghost const input: seq<C>

    var ins: seq<int>    // the input streams
    var outs: seq<int>   // the output streams
    var R14: int         // twiddle cursor
    var R15: int         // pairs left
    var R16: int         // one input stream
    var R17: int         // one output stream
    var R19: int         // the block's input
    var R20: int         // and output
    var R5: int          // blocks left

    constructor (cc: array<C>, ch: array<C>, tw: seq<(C, C)>, r: int, ido: int, l1: int, body: Body<C>, ghost table: seq<C>)
      requires r in {2, 3, 4, 5, 8} && l1 > 0 && cc != ch && PairTable(body, tw, table, r, ido)
      requires cc.Length == ch.Length == Size(r, ido, l1)
      ensures Valid() && this.cc == cc && this.ch == ch && this.tw == tw && this.r == r && this.ido == ido && this.l1 == l1
      ensures this.body == body && this.table == table && input == cc[..]
    {
      this.cc, this.ch, this.tw, this.r, this.ido, this.l1, this.body, this.table := cc, ch, tw, r, ido, l1, body, table;
      input := cc[..];
    }

    ghost predicate Valid()
      reads cc
    {
      && r in {2, 3, 4, 5, 8} && l1 > 0 && cc != ch && PairTable(body, tw, table, r, ido)
      && cc.Length == ch.Length == Size(r, ido, l1) && cc[..] == input
    }

    /** Input streams below j stand `past` points past point i of block k, the others at it. */
    ghost predicate InsAt(i: int, k: int, j: int, past: int)
      reads `ins
    {
      |ins| == r && forall t :: 0 <= t < r ==> ins[t] == 16 * (InputCell(r, ido, i, k, t) + if t < j then past else 0)
    }

    ghost predicate OutsAt(i: int, k: int, j: int, past: int)
      reads `outs
    {
      |outs| == r && forall t :: 0 <= t < r ==> outs[t] == 16 * (Cell(ido, l1, i, k, t) + if t < j then past else 0)
    }

    /** The cursor stands at twiddle j of the pair of point i. */
    ghost predicate CursorAt(i: int, j: int)
      reads `R14
    {
      R14 == 32 * ((r - 1) * (i / 2) + (j - 1))
    }

    ghost predicate Here(i: int, k: int) {
      0 <= k < l1 && 0 <= i && i % 2 == 0
    }

    ghost predicate CellDone(a: int)
      requires Valid() && 0 <= a < ch.Length
      reads cc, ch
    {
      ch[a] == ResultCell(body, input, table, r, ido, l1, a)
    }

    ghost predicate Before(a: int, i: int, k: int)
      requires ido > 0 && l1 > 0
    {
      BlockOf(ido, l1, a) < k || (BlockOf(ido, l1, a) == k && PointOf(ido, a) < i)
    }

    ghost predicate InPart(a: int, i: int, k: int, lanes: int, j: int)
      requires ido > 0 && l1 > 0
    {
      BlockOf(ido, l1, a) == k && i <= PointOf(ido, a) < i + lanes && OutputOf(ido, l1, a) < j
    }

    /** Everything before point i of block k is done. */
    ghost predicate Done(i: int, k: int)
      requires Valid()
      reads cc, ch
    {
      forall a :: 0 <= a < ch.Length && Before(a, i, k) ==> CellDone(a)
    }

    /** And outputs below j of the points from i on. */
    ghost predicate Part(i: int, k: int, lanes: int, j: int)
      requires Valid()
      reads cc, ch
    {
      Done(i, k) && forall a :: 0 <= a < ch.Length && InPart(a, i, k, lanes, j) ==> CellDone(a)
    }

    ghost function Xs(i: int, k: int): (xs: seq<C>)
      requires Valid() && 0 <= i < ido && 0 <= k < l1
      ensures |xs| == r
      reads cc
    {
      PassInput(input, r, ido, l1, i, k)
    }

    /** Where input j of a pair of points lies. */
    lemma PairInputs(i: int, k: int, j: int)
      requires Valid() && Here(i, k) && i + 2 <= ido && InsAt(i, k, j, 2) && 0 <= j < r
      ensures 0 <= ins[j] / 16 && ins[j] / 16 + 1 < cc.Length
      ensures |Xs(i, k)| == |Xs(i + 1, k)| == r && Xs(i, k)[j] == cc[ins[j] / 16] && Xs(i + 1, k)[j] == cc[ins[j] / 16 + 1]
    {
      InputInRange(r, ido, l1, i, k, j);
      InputInRange(r, ido, l1, i + 1, k, j);
      assert ins[j] / 16 == InputCell(r, ido, i, k, j);
    }

    /** The inputs of a pair of points, the streams moved past them. */
    method LoadPair(ghost i: int, ghost k: int) returns (x0: seq<C>, x1: seq<C>)
      requires Valid() && Here(i, k) && i + 2 <= ido && InsAt(i, k, 0, 2)
      modifies `ins
      ensures x0 == Xs(i, k) && x1 == Xs(i + 1, k) && InsAt(i + 2, k, 0, 2)
    {
      hide Xs;
      x0, x1 := [], [];
      for j := 0 to r
        invariant InsAt(i, k, j, 2)
        invariant |x0| == |x1| == j && x0 == Xs(i, k)[..j] && x1 == Xs(i + 1, k)[..j]
      {
        PairInputs(i, k, j);
        x0, x1 := x0 + [cc[ins[j] / 16]], x1 + [cc[ins[j] / 16 + 1]];
        ins := ins[j := ins[j] + 32];
      }
      assert Xs(i, k)[..r] == Xs(i, k) && Xs(i + 1, k)[..r] == Xs(i + 1, k);
    }

    /** The inputs of a lone point. */
    method LoadPoint(ghost i: int, ghost k: int) returns (x0: seq<C>)
      requires Valid() && Here(i, k) && i < ido && InsAt(i, k, 0, 0)
      ensures x0 == Xs(i, k)
    {
      x0 := [];
      for j := 0 to r
        invariant |x0| == j && x0 == Xs(i, k)[..j]
      {
        InputInRange(r, ido, l1, i, k, j);
        assert ins[j] / 16 == InputCell(r, ido, i, k, j);
        assert Xs(i, k)[j] == cc[ins[j] / 16];
        x0 := x0 + [cc[ins[j] / 16]];
      }
      assert Xs(i, k)[..r] == Xs(i, k);
    }

    /** Output j >= 1 of lane l: point 0 is put back untwiddled. */
    method Value(x: seq<C>, w: (C, C), j: int, l: int, first: bool, ghost i: int, ghost k: int) returns (y: C)
      requires Valid() && Here(i, k) && 0 <= l <= 1 && i + l < ido && 1 <= j < r && x == Xs(i + l, k)
      requires 0 <= (r - 1) * (i / 2) + (j - 1) < |tw| && w == tw[(r - 1) * (i / 2) + (j - 1)]
      requires first <==> i == 0
      ensures y == PassOutput(body, input, table, r, ido, l1, i + l, k, j)
    {
      y := body.bfly(x, j);
      assert PairTwiddle(body, tw, table, r, ido, i + l, j);
      assert (i + l) / 2 == i / 2 && (i + l) % 2 == l;
      var t := body.mul(y, LaneOf(w, l));
      if !(first && l == 0) {
        y := t;
      }
    }

    /** Output j of the step's points, stored. */
    method StoreOutput(y0: C, y1: C, j: int, lanes: int, ghost i: int, ghost k: int)
      requires Valid() && Here(i, k) && 1 <= lanes <= 2 && i + lanes <= ido && 0 <= j < r
      requires OutsAt(i, k, j, if lanes == 2 then 2 else 0) && Part(i, k, lanes, j)
      requires y0 == PassOutput(body, input, table, r, ido, l1, i, k, j)
      requires lanes == 2 ==> y1 == PassOutput(body, input, table, r, ido, l1, i + 1, k, j)
      modifies ch, `outs
      ensures Valid() && OutsAt(i, k, j + 1, if lanes == 2 then 2 else 0) && Part(i, k, lanes, j + 1)
    {
      hide PassOutput, PairTable;
      ghost var c := Cell(ido, l1, i, k, j);
      CellEncodes(ido, l1, r, i, k, j);
      if lanes == 2 {
        CellEncodes(ido, l1, r, i + 1, k, j);
      }
      assert outs[j] / 16 == c;
      ch[outs[j] / 16] := y0;
      if lanes == 2 {
        ch[outs[j] / 16 + 1] := y1;
        outs := outs[j := outs[j] + 32];
      }
      forall a | 0 <= a < ch.Length && (Before(a, i, k) || InPart(a, i, k, lanes, j + 1)) ensures CellDone(a) {
        CellDecodes(ido, l1, r, a);
        if a != c && !(lanes == 2 && a == c + 1) {
          assert Before(a, i, k) || InPart(a, i, k, lanes, j);
          assert ch[a] == old(ch[a]) && old(CellDone(a));
        }
      }
    }

    /** One butterfly on a pair of points. */
    method PairStep(first: bool, ghost i: int, ghost k: int)
      requires Valid() && Here(i, k) && i + 2 <= ido && (first <==> i == 0) && Done(i, k)
      requires InsAt(i, k, 0, 2) && OutsAt(i, k, 0, 2) && CursorAt(i, 1)
      modifies `ins, `outs, `R14, ch
      ensures Valid() && Done(i + 2, k) && InsAt(i + 2, k, 0, 2) && OutsAt(i + 2, k, 0, 2) && CursorAt(i + 2, 1)
    {
      hide Xs, Part, Done, InsAt, OutsAt, PairTable, PassOutput, Size;
      SeveralOutputs();
      var x0, x1 := LoadPair(i, k);
      NothingInPart(i, k, 2);
      FirstOutput(x0, i, k);
      FirstOutput(x1, i + 1, k);
      StoreOutput(body.bfly(x0, 0), body.bfly(x1, 0), 0, 2, i, k);
      for j := 1 to r
        invariant Valid() && Part(i, k, 2, j) && InsAt(i + 2, k, 0, 2) && OutsAt(i, k, j, 2) && CursorAt(i, j)
      {
        var w := LoadTwiddle(j, i, k);
        var y0 := Value(x0, w, j, 0, first, i, k);
        var y1 := Value(x1, w, j, 1, first, i, k);
        StoreOutput(y0, y1, j, 2, i, k);
      }
      PointsDone(i, k, 2);
      StreamsMoved(i, k);
      NextPair(r - 1, i);
    }

    lemma StreamsMoved(i: int, k: int)
      requires OutsAt(i, k, r, 2)
      ensures OutsAt(i + 2, k, 0, 2)
    {
    }

    lemma SeveralOutputs()
      requires Valid()
      ensures r >= 2
    {
    }

    /** Output 0 is never multiplied. */
    lemma FirstOutput(x: seq<C>, i: int, k: int)
      requires Valid() && 0 <= i < ido && 0 <= k < l1 && x == Xs(i, k)
      ensures body.bfly(x, 0) == PassOutput(body, input, table, r, ido, l1, i, k, 0)
    {
    }

    /** VLD1.P 32(R14). */
    method LoadTwiddle(j: int, ghost i: int, ghost k: int) returns (w: (C, C))
      requires Valid() && Here(i, k) && i < ido && 1 <= j < r && CursorAt(i, j)
      modifies `R14
      ensures CursorAt(i, j + 1)
      ensures 0 <= (r - 1) * (i / 2) + (j - 1) < |tw| && w == tw[(r - 1) * (i / 2) + (j - 1)]
    {
      PairCell(r, ido, i, j);
      hide InsAt, OutsAt;
      w := tw[R14 / 32];
      R14 := R14 + 32;
    }

    /** The last point of an odd ido. */
    method PointStep(ghost i: int, ghost k: int)
      requires Valid() && Here(i, k) && 0 < i && i + 1 == ido && Done(i, k)
      requires InsAt(i, k, 0, 0) && OutsAt(i, k, 0, 0) && CursorAt(i, 1)
      modifies `outs, `R14, ch
      ensures Valid() && Done(ido, k)
    {
      hide Xs, Part, Done, InsAt, OutsAt, PairTable, PassOutput, Size;
      SeveralOutputs();
      var x0 := LoadPoint(i, k);
      NothingInPart(i, k, 1);
      FirstOutput(x0, i, k);
      StoreOutput(body.bfly(x0, 0), body.bfly(x0, 0), 0, 1, i, k);
      for j := 1 to r
        invariant Valid() && Part(i, k, 1, j) && OutsAt(i, k, j, 0) && CursorAt(i, j)
      {
        var w := LoadTwiddle(j, i, k);
        var y0 := Value(x0, w, j, 0, false, i, k);
        StoreOutput(y0, y0, j, 1, i, k);
      }
      PointsDone(i, k, 1);
    }

    lemma NothingInPart(i: int, k: int, lanes: int)
      requires Valid() && Done(i, k)
      ensures Part(i, k, lanes, 0)
    {
      forall a | 0 <= a < ch.Length ensures !InPart(a, i, k, lanes, 0) {
        CellDecodes(ido, l1, r, a);
      }
    }

    lemma PointsDone(i: int, k: int, lanes: int)
      requires Valid() && Part(i, k, lanes, r)
      ensures Done(i + lanes, k)
    {
      forall a | 0 <= a < ch.Length && Before(a, i + lanes, k) ensures CellDone(a) {
        CellDecodes(ido, l1, r, a);
        assert Before(a, i, k) || InPart(a, i, k, lanes, r);
      }
    }

    /** The streams of a block. */
    method SetStreams(ghost k: int)
      requires Valid() && 0 <= k < l1 && R16 == 16 * ido && R17 == 16 * (l1 * ido)
      requires R19 == 16 * (ido * (r * k)) && R20 == 16 * (ido * k)
      modifies `ins, `outs
      ensures InsAt(0, k, 0, 2) && OutsAt(0, k, 0, 2)
    {
      ins, outs := [R19], [R20];
      StreamStart(r, ido, l1, k);
      assert r > 1;
      hide PairTable, Size, InputCell, Cell;
      for j := 1 to r
        invariant |ins| == |outs| == j
        invariant forall t :: 0 <= t < j ==> ins[t] == 16 * InputCell(r, ido, 0, k, t) && outs[t] == 16 * Cell(ido, l1, 0, k, t)
      {
        StreamNext(r, ido, l1, k, j);
        ins, outs := ins + [ins[j - 1] + R16], outs + [outs[j - 1] + R17];
      }
    }

    method Block(ghost k: int)
      requires Valid() && ido >= 2 && 0 <= k < l1 && Done(0, k)
      requires InsAt(0, k, 0, 2) && OutsAt(0, k, 0, 2) && R14 == 0
      modifies `ins, `outs, `R14, `R15, ch
      ensures Valid() && Done(ido, k)
    {
      hide Done, PairTable, InsAt, OutsAt;
      assert (r - 1) * 0 == 0;
      PairStep(true, 0, k);
      R15 := ido / 2 - 1;
      ghost var i := 2;
      while R15 != 0
        invariant 0 < i && i % 2 == 0 && 0 <= R15 && i + 2 * R15 == ido - ido % 2 && Valid() && Done(i, k)
        invariant InsAt(i, k, 0, 2) && OutsAt(i, k, 0, 2) && CursorAt(i, 1)
        decreases R15
      {
        PairStep(false, i, k);
        i, R15 := i + 2, R15 - 1;
      }
      if ido % 2 != 0 {
        AtRest(i, k);
        PointStep(i, k);
      }
    }

    /** No stream has moved: how far they would is no matter. */
    lemma AtRest(i: int, k: int)
      requires InsAt(i, k, 0, 2) && OutsAt(i, k, 0, 2)
      ensures InsAt(i, k, 0, 0) && OutsAt(i, k, 0, 0)
    {
    }

    ghost predicate BlockReady(k: int)
      reads `R16, `R17, `R19, `R20, cc, ch
    {
      && Valid() && 0 <= k <= l1 && Done(0, k) && R16 == 16 * ido && R17 == 16 * (l1 * ido)
      && R19 == 16 * (ido * (r * k)) && R20 == 16 * (ido * k)
    }

    method OneBlock(ghost k: int)
      requires BlockReady(k) && k < l1 && ido >= 2
      modifies `ins, `outs, `R14, `R15, `R19, `R20, ch
      ensures BlockReady(k + 1)
    {
      hide Done, PairTable, InsAt, OutsAt, Size;
      SetStreams(k);
      R14 := 0;
      Block(k);
      BlockDone(k);
      NextBlock(ido, r, k);
      R19, R20 := R19 + r * R16, R20 + R16;
    }

    /** The whole pass. */
    method Run()
      requires Valid() && ido >= 2
      modifies this, ch
      ensures Valid() && ch[..] == PassResult(body, input, table, r, ido, l1)
    {
      R16, R17, R19, R20, R5 := 16 * ido, l1 * (16 * ido), 0, 0, l1;
      ghost var k := 0;
      NothingDone();
      Starts(ido, r, l1);
      hide Done, PairTable, Size, PassResult;
      assert BlockReady(0);
      hide BlockReady;
      while true
        invariant BlockReady(k) && 0 < R5 && k + R5 == l1
        decreases R5
      {
        OneBlock(k);
        k, R5 := k + 1, R5 - 1;
        if R5 == 0 {
          break;
        }
      }
      AllDone();
    }

    lemma NothingDone()
      requires Valid()
      ensures Done(0, 0)
    {
      forall a | 0 <= a < ch.Length ensures !Before(a, 0, 0) {
        CellDecodes(ido, l1, r, a);
      }
    }

    lemma BlockDone(k: int)
      requires Valid() && Done(ido, k)
      ensures Done(0, k + 1)
    {
      forall a | 0 <= a < ch.Length && Before(a, 0, k + 1) ensures CellDone(a) {
        CellDecodes(ido, l1, r, a);
        assert Before(a, ido, k);
      }
    }

    lemma AllDone()
      requires BlockReady(l1)
      ensures Valid() && ch[..] == PassResult(body, input, table, r, ido, l1)
    {
      var want := PassResult(body, input, table, r, ido, l1);
      hide ResultCell, PairTable;
      forall a | 0 <= a < ch.Length ensures ch[a] == want[a] {
        CellDecodes(ido, l1, r, a);
        assert Before(a, 0, l1);
        assert CellDone(a);
      }
    }
  }

  lemma NextPair(r: int, i: int)
    ensures r * (i / 2) + r == r * ((i + 2) / 2)
  {
    assert (i + 2) / 2 == i / 2 + 1;
    MulAdd(r, i / 2, 1);
  }

  lemma StreamStart(r: int, ido: int, l1: int, k: int)
    ensures InputCell(r, ido, 0, k, 0) == ido * (r * k) && Cell(ido, l1, 0, k, 0) == ido * k
  {
  }

  lemma StreamNext(r: int, ido: int, l1: int, k: int, j: int)
    ensures InputCell(r, ido, 0, k, j) == InputCell(r, ido, 0, k, j - 1) + ido
    ensures Cell(ido, l1, 0, k, j) == Cell(ido, l1, 0, k, j - 1) + l1 * ido
  {
    MulAdd(ido, j - 1 + r * k, 1);
    MulAdd(l1, j - 1, 1);
    MulAdd(ido, k + l1 * (j - 1), l1);
  }

  lemma NextBlock(ido: int, r: int, k: int)
    ensures 16 * (ido * (r * k)) + r * (16 * ido) == 16 * (ido * (r * (k + 1))) && ido * k + ido == ido * (k + 1)
  {
    MulAdd(r, k, 1);
    MulAdd(ido, r * k, r);
    MulAdd(ido, k, 1);
    MulRegroup(r, 16, ido);
  }

  lemma Starts(ido: int, r: int, l1: int)
    ensures ido * (r * 0) == 0 && ido * 0 == 0 && l1 * (16 * ido) == 16 * (l1 * ido)
  {
    MulRegroup(l1, 16, ido);
  }
}
