/** The strided pass kernels, radix 4 and 8: a pass over blocks of points whose strides are
    all parameters, and the pieces of a plain pass they run. */
module Strided {
  import opened Modular
  import opened PassWalk

  /** The strides of a call, in points: between inputs and outputs of a butterfly, between
      blocks, and between the tables of neighbouring blocks; and whether the first point of
      block 0, and of the others, is the pass's untwiddled point. */
  datatype Strides = Strides(r: int, cnt: int, nb: int, sin: int, sout: int, bin: int, bout: int, bt: int, bf: bool, br: bool)

  predicate IsPoint(s: Strides, b: int, i: int) {
    0 <= b < s.nb && 0 <= i < s.cnt
  }

  predicate IsOutput(s: Strides, b: int, i: int, j: int) {
    IsPoint(s, b, i) && 0 <= j < s.r
  }

  /** Where input j and output j of point i of block b lie, from the slices' starts. */
  function From(s: Strides, b: int, i: int, j: int): int {
    b * s.bin + i + j * s.sin
  }

  function To(s: Strides, b: int, i: int, j: int): int {
    b * s.bout + i + j * s.sout
  }

  /** Twiddle j of point i of block b: groups of four points. */
  function TwiddleAt(s: Strides, b: int, i: int, j: int): int {
    b * s.bt + (s.r - 1) * (i - i % 4) + 4 * (j - 1) + i % 4
  }

  /** Point i of block b is kept unmultiplied. */
  predicate Plain(s: Strides, b: int, i: int) {
    i == 0 && if b == 0 then s.bf else s.br
  }

  /** Every place of a call lies in its array, and no two outputs share one. */
  ghost predicate Fits(s: Strides, cc: int, from: int, ch: int, to: int, tw: int, at: int) {
    && s.r in {4, 8} && s.cnt > 0 && s.cnt % 4 == 0 && s.nb >= 0
    && (forall b, i, j :: IsOutput(s, b, i, j) ==> InsideAll(s, cc, from, ch, to, tw, at, b, i, j))
    && (forall b, i, j, b', i', j' :: IsOutput(s, b, i, j) && IsOutput(s, b', i', j') && To(s, b, i, j) == To(s, b', i', j') ==>
          b == b' && i == i' && j == j')
  }

  ghost predicate InsideAll(s: Strides, cc: int, from: int, ch: int, to: int, tw: int, at: int, b: int, i: int, j: int) {
    && 0 <= from + From(s, b, i, j) < cc && 0 <= to + To(s, b, i, j) < ch
    && (j > 0 ==> 0 <= at + TwiddleAt(s, b, i, j) < tw)
  }

  /** The inputs of point i of block b. */
  function Inputs<C>(cc: seq<C>, from: int, s: Strides, b: int, i: int): (xs: seq<C>)
    requires s.r > 0 && forall j :: 0 <= j < s.r ==> 0 <= from + From(s, b, i, j) < |cc|
  {
    seq(s.r, j requires 0 <= j < s.r => cc[from + From(s, b, i, j)])
  }

  ghost function Value<C>(body: Body<C>, cc: seq<C>, from: int, ch: int, to: int, tw: seq<C>, at: int, s: Strides, b: int, i: int, j: int): C
    requires Fits(s, |cc|, from, ch, to, |tw|, at) && IsOutput(s, b, i, j)
  {
    InputsInside(s, |cc|, from, ch, to, |tw|, at, b, i);
    assert InsideAll(s, |cc|, from, ch, to, |tw|, at, b, i, j);
    var y := body.bfly(Inputs(cc, from, s, b, i), j);
    if j == 0 || Plain(s, b, i) then y else body.mul(y, tw[at + TwiddleAt(s, b, i, j)])
  }

  lemma InputsInside(s: Strides, cc: int, from: int, ch: int, to: int, tw: int, at: int, b: int, i: int)
    requires Fits(s, cc, from, ch, to, tw, at) && IsPoint(s, b, i)
    ensures forall j :: 0 <= j < s.r ==> 0 <= from + From(s, b, i, j) < cc
  {
    forall j | 0 <= j < s.r ensures 0 <= from + From(s, b, i, j) < cc {
      assert InsideAll(s, cc, from, ch, to, tw, at, b, i, j);
    }
  }

  class Kernel<C> {
    const cc: array<C>
    const ch: array<C>
    const tw: seq<C>
    const from: int      // the slices start here
    const to: int
    const at: int
    const s: Strides
    const body: Body<C>
    ghost const input: seq<C>
    ghost const before: seq<C>

    var AX: int
    var SI: int
    var BX: int
    var DI: int
    var CX: int
    var DX: int
    var R10: int    // twiddle group cursor
    var R15: int    // the block's table
    var R8: int     // blocks left
    var R9: int     // groups left
    var R11: bool   // the block's first point is kept

    constructor (cc: array<C>, from: int, ch: array<C>, to: int, tw: seq<C>, at: int, s: Strides, body: Body<C>)
      requires Fits(s, cc.Length, from, ch.Length, to, |tw|, at) && cc != ch
      ensures Valid() && this.cc == cc && this.ch == ch && this.tw == tw && this.from == from && this.to == to
      ensures this.at == at && this.s == s && this.body == body && input == cc[..] && before == ch[..]
    {
      this.cc, this.from, this.ch, this.to, this.tw, this.at, this.s, this.body := cc, from, ch, to, tw, at, s, body;
      input, before := cc[..], ch[..];
    }

    ghost predicate Valid()
      reads cc
    {
      Fits(s, cc.Length, from, ch.Length, to, |tw|, at) && cc != ch && cc[..] == input && |before| == ch.Length
    }

    /** The registers stand at point i of block b. */
    ghost predicate At(b: int, i: int)
      reads `AX, `SI, `BX, `DI, `CX, `DX, `R10, `R15, cc
    {
      && Valid() && 0 <= b < s.nb && 0 <= i <= s.cnt
      && CX == 16 * s.sin && DX == 16 * s.sout
      && AX == 16 * (from + b * s.bin + i) && BX == 16 * (to + b * s.bout + i)
      && SI == AX + 4 * CX && DI == BX + 4 * DX
      && R15 == 16 * (at + b * s.bt) && R10 == R15 + 16 * ((s.r - 1) * (i - i % 4))
    }

    function In(j: int): int
      reads this
    {
      if j < 4 then AX + j * CX else SI + (j - 4) * CX
    }

    function Out(j: int): int
      reads this
    {
      if j < 4 then BX + j * DX else DI + (j - 4) * DX
    }

    lemma Addresses(b: int, i: int, p: int, j: int)
      requires At(b, i) && 0 <= p && i + p < s.cnt && 0 <= j < s.r
      ensures (In(j) + 16 * p) / 16 == from + From(s, b, i + p, j) && 0 <= from + From(s, b, i + p, j) < cc.Length
      ensures (Out(j) + 16 * p) / 16 == to + To(s, b, i + p, j) && 0 <= to + To(s, b, i + p, j) < ch.Length
    {
      assert IsOutput(s, b, i + p, j);
      assert InsideAll(s, cc.Length, from, ch.Length, to, |tw|, at, b, i + p, j);
      assert In(j) == AX + j * CX && Out(j) == BX + j * DX;
      assert j * (16 * s.sin) == 16 * (j * s.sin) && j * (16 * s.sout) == 16 * (j * s.sout);
    }

    ghost function Want(b: int, i: int, j: int): C
      requires Fits(s, |input|, from, |before|, to, |tw|, at) && IsOutput(s, b, i, j)
    {
      Value(body, input, from, |before|, to, tw, at, s, b, i, j)
    }

    /** Output j of point i of block b is in its place. */
    ghost predicate Have(b: int, i: int, j: int)
      requires Valid() && IsOutput(s, b, i, j)
      reads cc, ch
    {
      InsideAll(s, cc.Length, from, ch.Length, to, |tw|, at, b, i, j) && ch[to + To(s, b, i, j)] == Want(b, i, j)
    }

    /** Cell a is no output of the call. */
    ghost predicate Outside(a: int) {
      forall b, i, j :: IsOutput(s, b, i, j) ==> to + To(s, b, i, j) != a
    }

    ghost predicate Kept()
      requires Valid()
      reads cc, ch
    {
      forall a :: 0 <= a < ch.Length && Outside(a) ==> ch[a] == before[a]
    }

    ghost function Xs(b: int, i: int): seq<C>
      requires Fits(s, |input|, from, |before|, to, |tw|, at) && IsPoint(s, b, i)
    {
      InputsInside(s, |input|, from, |before|, to, |tw|, at, b, i);
      Inputs(input, from, s, b, i)
    }

    /** The inputs of point i + p. */
    method Load(p: int, ghost b: int, ghost i: int) returns (xs: seq<C>)
      requires At(b, i) && 0 <= p && i + p < s.cnt
      ensures xs == Xs(b, i + p)
    {
      InputsInside(s, cc.Length, from, ch.Length, to, |tw|, at, b, i + p);
      xs := [];
      for j := 0 to s.r
        invariant |xs| == j && xs == Inputs(input, from, s, b, i + p)[..j]
      {
        Addresses(b, i, p, j);
        xs := xs + [cc[(In(j) + 16 * p) / 16]];
      }
    }

    lemma TwiddlePlace(j: int, p: int, half: int, b: int, i: int)
      requires At(b, i) && 0 <= p < 4 - 2 * half && i % 4 == 2 * half && 0 <= half <= 1 && i + p < s.cnt && 0 < j < s.r
      ensures (R10 + (j - 1) * 64 + 32 * half + 16 * p) / 16 == at + TwiddleAt(s, b, i + p, j)
      ensures 0 <= at + TwiddleAt(s, b, i + p, j) < |tw|
    {
      TwiddleInside(b, i + p, j);
      assert (i + p) % 4 == 2 * half + p && i + p - (i + p) % 4 == i - i % 4;
      GroupByte(at + b * s.bt + (s.r - 1) * (i - i % 4), j, half, p);
      hide Fits;
    }

    lemma TwiddleInside(b: int, i: int, j: int)
      requires Valid() && IsOutput(s, b, i, j) && j > 0
      ensures 0 <= at + TwiddleAt(s, b, i, j) < |tw|
    {
      assert InsideAll(s, cc.Length, from, ch.Length, to, |tw|, at, b, i, j);
      hide From, To, TwiddleAt;
    }

    lemma WantIs(b: int, i: int, j: int)
      requires Valid() && IsOutput(s, b, i, j)
      ensures j > 0 ==> 0 <= at + TwiddleAt(s, b, i, j) < |tw|
      ensures var y := body.bfly(Xs(b, i), j);
        Want(b, i, j) == if j == 0 || Plain(s, b, i) then y else body.mul(y, tw[at + TwiddleAt(s, b, i, j)])
    {
      assert InsideAll(s, cc.Length, from, ch.Length, to, |tw|, at, b, i, j);
      hide From, To, TwiddleAt, Inputs;
    }

    /** Output j of one lane; lane 0 of a block's first group is put back when it is kept. */
    method Compute(x: seq<C>, j: int, p: int, half: int, first: bool, ghost b: int, ghost i: int) returns (y: C)
      requires At(b, i) && 0 <= p < 4 - 2 * half && i % 4 == 2 * half && 0 <= half <= 1 && i + p < s.cnt && 0 <= j < s.r
      requires (first <==> Plain(s, b, i)) && x == Xs(b, i + p)
      ensures y == Want(b, i + p, j)
    {
      hide Fits, InsideAll, Inputs;
      y := body.bfly(x, j);
      WantIs(b, i + p, j);
      if j > 0 {
        TwiddlePlace(j, p, half, b, i);
        var t := body.mul(y, tw[(R10 + (j - 1) * 64 + 32 * half + 16 * p) / 16]);
        if !(first && p == 0) {
          y := t;
        }
      }
    }

    /** Everything before point i of block b is in place. */
    ghost predicate Done(b: int, i: int)
      requires Valid()
      reads cc, ch
    {
      && Kept()
      && forall b', i', j' :: IsOutput(s, b', i', j') && (b' < b || (b' == b && i' < i)) ==> Have(b', i', j')
    }

    /** So are the streams below j of the register's points, and lanes below p of stream j. */
    ghost predicate Part(b: int, i: int, lanes: int, j: int, p: int)
      requires Valid()
      reads cc, ch
    {
      && Done(b, i)
      && forall q, t :: IsOutput(s, b, q, t) && i <= q < i + lanes && (t < j || (t == j && q < i + p)) ==> Have(b, q, t)
    }

    method Store(lanes: int, j: int, p: int, y: C, ghost b: int, ghost i: int)
      requires At(b, i) && 0 <= p < lanes && i + lanes <= s.cnt && 0 <= j < s.r && y == Want(b, i + p, j) && Part(b, i, lanes, j, p)
      modifies ch
      ensures At(b, i) && Part(b, i, lanes, j, p + 1)
    {
      hide Value, TwiddleAt, From, To;
      Addresses(b, i, p, j);
      ghost var c := to + To(s, b, i + p, j);
      assert IsOutput(s, b, i + p, j);
      assert InsideAll(s, cc.Length, from, ch.Length, to, |tw|, at, b, i + p, j);
      ch[(Out(j) + 16 * p) / 16] := y;
      forall b', i', j' | IsOutput(s, b', i', j') && old(Have(b', i', j')) ensures Have(b', i', j') {
        if to + To(s, b', i', j') == c {
          assert b' == b && i' == i + p && j' == j;
        }
      }
      assert Have(b, i + p, j);
    }

    /** One butterfly on `lanes` points of a group, in its second half when half is 1. */
    method Step(lanes: int, half: int, first: bool, ghost b: int, ghost i: int)
      requires At(b, i) && 0 <= half <= 1 && 1 <= lanes && 2 * half + lanes <= 4 && i % 4 == 2 * half && i + lanes <= s.cnt
      requires (first <==> Plain(s, b, i)) && Done(b, i)
      modifies ch
      ensures At(b, i) && Done(b, i + lanes)
    {
      var xs: seq<seq<C>> := [];
      for p := 0 to lanes
        invariant |xs| == p && At(b, i) && Done(b, i)
        invariant forall q :: 0 <= q < p ==> xs[q] == Xs(b, i + q)
      {
        var x := Load(p, b, i);
        xs := xs + [x];
      }
      assert Part(b, i, lanes, 0, 0);
      assert s.r > 0;
      hide Have, Xs, Want, Part, Done, Fits;
      for j := 0 to s.r
        invariant At(b, i) && Part(b, i, lanes, j, 0)
      {
        for p := 0 to lanes
          invariant At(b, i) && Part(b, i, lanes, j, p)
        {
          var y := Compute(xs[p], j, p, half, first, b, i);
          Store(lanes, j, p, y, b, i);
        }
        NextStream(b, i, lanes, j);
      }
      PointsDone(b, i, lanes);
    }

    lemma NextStream(b: int, i: int, lanes: int, j: int)
      requires Valid() && Part(b, i, lanes, j, lanes)
      ensures Part(b, i, lanes, j + 1, 0)
    {
    }

    lemma PointsDone(b: int, i: int, lanes: int)
      requires Valid() && Part(b, i, lanes, s.r, 0)
      ensures Done(b, i + lanes)
    {
    }

    method Advance(n: int)
      modifies `AX, `SI, `BX, `DI
      ensures AX == old(AX) + 16 * n && SI == old(SI) + 16 * n && BX == old(BX) + 16 * n && DI == old(DI) + 16 * n
    {
      AX, SI, BX, DI := AX + 16 * n, SI + 16 * n, BX + 16 * n, DI + 16 * n;
    }

    /** The registers stand at point i of block b, and everything before it is in place. */
    ghost predicate Ready(b: int, i: int)
      reads `AX, `SI, `BX, `DI, `CX, `DX, `R10, `R15, cc, ch
    {
      At(b, i) && Done(b, i)
    }

    /** One group of four points: two pairs, or one wide register. */
    method Group(wide: bool, first: bool, ghost b: int, ghost i: int)
      requires Ready(b, i) && i % 4 == 0 && i + 4 <= s.cnt && (first <==> Plain(s, b, i))
      modifies this`AX, this`SI, this`BX, this`DI, this`R10, ch
      ensures Ready(b, i + 4)
    {
      hide Ready, Fits, Plain;
      if wide {
        WideGroup(first, b, i);
      } else {
        TwoPairs(first, b, i);
      }
    }

    /** R10 past four points. */
    lemma RowStep(r: int, i: int)
      requires i % 4 == 0
      ensures 16 * ((r - 1) * (i + 4 - (i + 4) % 4)) == 16 * ((r - 1) * (i - i % 4)) + (r - 1) * 64
    {
      MulAdd(r - 1, i, 4);
    }

    method WideGroup(first: bool, ghost b: int, ghost i: int)
      requires Ready(b, i) && i % 4 == 0 && i + 4 <= s.cnt && (first <==> Plain(s, b, i))
      modifies this`AX, this`SI, this`BX, this`DI, this`R10, ch
      ensures Ready(b, i + 4)
    {
      hide Done, Fits, Plain;
      RowStep(s.r, i);
      Step(4, 0, first, b, i);
      Advance(4);
      R10 := R10 + (s.r - 1) * 64;
    }

    method TwoPairs(first: bool, ghost b: int, ghost i: int)
      requires Ready(b, i) && i % 4 == 0 && i + 4 <= s.cnt && (first <==> Plain(s, b, i))
      modifies this`AX, this`SI, this`BX, this`DI, this`R10, ch
      ensures Ready(b, i + 4)
    {
      hide Done, Fits, Plain;
      RowStep(s.r, i);
      OnlyFirstIsPlain(b, i + 2);
      Pair(0, first, b, i);
      Pair(1, false, b, i + 2);
      R10 := R10 + (s.r - 1) * 64;
    }

    /** One pair of points, and the step past it inside its group. */
    method Pair(half: int, first: bool, ghost b: int, ghost i: int)
      requires Ready(b, i) && 0 <= half <= 1 && i % 4 == 2 * half && i + 2 <= s.cnt && (first <==> Plain(s, b, i))
      modifies this`AX, this`SI, this`BX, this`DI, ch
      ensures Valid() && Done(b, i + 2) && AX == old(AX) + 32 && SI == old(SI) + 32 && BX == old(BX) + 32 && DI == old(DI) + 32
    {
      hide Done, Fits, Plain;
      Step(2, half, first, b, i);
      Advance(2);
    }

    lemma WholeGroups()
      requires Valid()
      ensures s.cnt > 0 && s.cnt % 4 == 0
    {
    }

    lemma FirstIsPlain(b: int)
      ensures Plain(s, b, 0) <==> if b == 0 then s.bf else s.br
    {
    }

    lemma OnlyFirstIsPlain(b: int, i: int)
      ensures i > 0 ==> !Plain(s, b, i)
    {
    }

    /** One block. */
    method Block(wide: bool, ghost b: int)
      requires Valid() && Ready(b, 0) && (R11 <==> Plain(s, b, 0))
      modifies this`AX, this`SI, this`BX, this`DI, this`R10, this`R9, ch
      ensures Ready(b, s.cnt)
    {
      hide Ready, Fits, Valid, Plain;
      WholeGroups();
      R9 := s.cnt / 4;
      ghost var i := 0;
      if R11 {
        Group(wide, true, b, 0);
      } else {
        Group(wide, false, b, 0);
      }
      i, R9 := 4, R9 - 1;
      while R9 != 0
        invariant 0 < i && i % 4 == 0 && 0 <= R9 && i + 4 * R9 == s.cnt && Ready(b, i)
        decreases R9
      {
        OnlyFirstIsPlain(b, i);
        Group(wide, false, b, i);
        i, R9 := i + 4, R9 - 1;
      }
    }

    /** The registers stand at the start of block b. */
    ghost predicate BlockReady(b: int)
      reads `AX, `BX, `CX, `DX, `R15, `R11, cc, ch
    {
      && Valid() && 0 <= b && Done(b, 0)
      && CX == 16 * s.sin && DX == 16 * s.sout
      && AX == 16 * (from + b * s.bin) && BX == 16 * (to + b * s.bout) && R15 == 16 * (at + b * s.bt)
      && R11 == if b == 0 then s.bf else s.br
    }

    method OneBlock(wide: bool, din: int, dout: int, dtw: int, ghost b: int)
      requires BlockReady(b) && b < s.nb
      requires din == 16 * (s.bin - s.cnt) && dout == 16 * (s.bout - s.cnt) && dtw == 16 * s.bt
      modifies this`AX, this`SI, this`BX, this`DI, this`R10, this`R15, this`R9, this`R11, ch
      ensures BlockReady(b + 1)
    {
      hide Fits, Done, Plain;
      FirstIsPlain(b);
      WholeGroups();
      SI, DI, R10 := AX + CX * 4, BX + DX * 4, R15;
      Block(wide, b);
      PastBlock(din, dout, dtw, b);
    }

    /** The jumps left after a block. */
    method PastBlock(din: int, dout: int, dtw: int, ghost b: int)
      requires Ready(b, s.cnt)
      requires din == 16 * (s.bin - s.cnt) && dout == 16 * (s.bout - s.cnt) && dtw == 16 * s.bt
      modifies this`AX, this`BX, this`R15, this`R11
      ensures BlockReady(b + 1)
    {
      hide Fits, Done;
      BlockDone(b);
      NextBlock(b, s.bin, s.cnt);
      NextBlock(b, s.bout, s.cnt);
      NextBlock(b, s.bt, 0);
      AX, BX, R15, R11 := AX + din, BX + dout, R15 + dtw, s.br;
    }

    /** The whole call: every output in its place, and nothing else touched. din, dout and
        dtw are what the caller passes: the jumps left after a block. */
    method Run(wide: bool, din: int, dout: int, dtw: int)
      requires Valid() && Kept()
      requires din == 16 * (s.bin - s.cnt) && dout == 16 * (s.bout - s.cnt) && dtw == 16 * s.bt
      modifies this, ch
      ensures Valid() && Kept()
      ensures forall b, i, j :: IsOutput(s, b, i, j) ==> Have(b, i, j)
    {
      hide Done, Fits, BlockReady;
      AX, BX, R15 := 16 * from, 16 * to, 16 * at;
      CX, DX, R8, R11 := 16 * s.sin, 16 * s.sout, s.nb, s.bf;
      ghost var b := 0;
      ReadyToStart();
      while R8 != 0
        invariant BlockReady(b) && 0 <= R8 && b + R8 == s.nb
        decreases R8
      {
        OneBlock(wide, din, dout, dtw, b);
        b, R8 := b + 1, R8 - 1;
      }
      AllDone();
    }

    lemma ReadyToStart()
      requires Valid() && Kept() && AX == 16 * from && BX == 16 * to && R15 == 16 * at
      requires CX == 16 * s.sin && DX == 16 * s.sout && R11 == s.bf
      ensures BlockReady(0) && s.nb >= 0
    {
      assert 0 * s.bin == 0 && 0 * s.bout == 0 && 0 * s.bt == 0;
    }

    lemma BlockDone(b: int)
      requires Valid() && Done(b, s.cnt)
      ensures Done(b + 1, 0)
    {
    }

    lemma AllDone()
      requires BlockReady(s.nb)
      ensures Valid() && Kept()
      ensures forall b, i, j :: IsOutput(s, b, i, j) ==> Have(b, i, j)
    {
    }
  }

  lemma GroupByte(x: int, j: int, half: int, p: int)
    ensures (16 * x + (j - 1) * 64 + 32 * half + 16 * p) / 16 == x + 4 * (j - 1) + 2 * half + p
  {
  }

  lemma NextBlock(b: int, stride: int, cnt: int)
    ensures b * stride + cnt + (stride - cnt) == (b + 1) * stride
  {
  }

  // ------------------------------------------------------------ the pieces of a pass

  /** Points i0, …, i0 + cnt - 1 of every block of a radix-r pass: the slices start i0 points
      in, and every block reads the same twiddles. */
  function Piece(r: int, ido: int, l1: int, i0: int, cnt: int): Strides {
    Strides(r, cnt, l1, ido, l1 * ido, r * ido, ido, 0, i0 == 0, i0 == 0)
  }

  ghost predicate IsPiece(r: int, ido: int, l1: int, i0: int, cnt: int) {
    r in {4, 8} && l1 >= 0 && 0 <= i0 && i0 % 4 == 0 && cnt > 0 && cnt % 4 == 0 && i0 + cnt <= ido
  }

  lemma PiecePlaces(r: int, ido: int, l1: int, i0: int, cnt: int, b: int, i: int, j: int)
    requires IsPiece(r, ido, l1, i0, cnt) && IsOutput(Piece(r, ido, l1, i0, cnt), b, i, j)
    ensures var s := Piece(r, ido, l1, i0, cnt);
      && i0 + From(s, b, i, j) == InputCell(r, ido, i0 + i, b, j) && 0 <= i0 + From(s, b, i, j) < Size(r, ido, l1)
      && i0 + To(s, b, i, j) == Cell(ido, l1, i0 + i, b, j) && 0 <= i0 + To(s, b, i, j) < Size(r, ido, l1)
      && (j > 0 ==> (r - 1) * i0 + TwiddleAt(s, b, i, j) == TwiddleIndex(ido, r, i0 + i, j)
                    && 0 <= TwiddleIndex(ido, r, i0 + i, j) < (r - 1) * ido)
  {
    InputInRange(r, ido, l1, i0 + i, b, j);
    CellEncodes(ido, l1, r, i0 + i, b, j);
    if j > 0 {
      PieceTwiddle(r, ido, l1, i0, cnt, i, j);
    }
    StreamPlaces(r, ido, l1, b, j);
    hide Size, TwiddleIndex, TwiddleAt;
  }

  lemma StreamPlaces(r: int, ido: int, l1: int, b: int, j: int)
    ensures b * (r * ido) + j * ido == ido * (j + r * b)
    ensures b * ido + j * (l1 * ido) == ido * (b + l1 * j)
  {
    MulAdd(ido, j, r * b);
    MulAdd(ido, b, l1 * j);
    MulRegroup(b, r, ido);
    MulRegroup(ido, r, b);
    MulRegroup(j, l1, ido);
    MulRegroup(ido, l1, j);
  }

  lemma PieceTwiddle(r: int, ido: int, l1: int, i0: int, cnt: int, i: int, j: int)
    requires IsPiece(r, ido, l1, i0, cnt) && 0 <= i < cnt && 1 <= j < r
    ensures forall b :: (r - 1) * i0 + TwiddleAt(Piece(r, ido, l1, i0, cnt), b, i, j) == TwiddleIndex(ido, r, i0 + i, j)
    ensures 0 <= TwiddleIndex(ido, r, i0 + i, j) < (r - 1) * ido
  {
    TwiddleInTable(ido, r, i0 + i, j);
    PieceGroup(ido, i0, cnt, i);
    PieceRun(r - 1, i0, i - i % 4, j, i % 4);
    hide GroupStart, GroupSize;
  }

  lemma PieceGroup(ido: int, i0: int, cnt: int, i: int)
    requires 0 <= i0 && i0 % 4 == 0 && cnt % 4 == 0 && i0 + cnt <= ido && 0 <= i < cnt
    ensures GroupStart(ido, i0 + i) == i0 + (i - i % 4) && GroupSize(ido, i0 + i) == 4
  {
  }

  lemma PieceRun(r: int, i0: int, start: int, j: int, lane: int)
    ensures r * i0 + (r * start + 4 * (j - 1) + lane) == r * (i0 + start) + (j - 1) * 4 + lane
  {
    MulAdd(r, i0, start);
  }

  lemma PieceFits(r: int, ido: int, l1: int, i0: int, cnt: int, tw: int)
    requires IsPiece(r, ido, l1, i0, cnt) && tw >= (r - 1) * ido
    ensures Fits(Piece(r, ido, l1, i0, cnt), Size(r, ido, l1), i0, Size(r, ido, l1), i0, tw, (r - 1) * i0)
  {
    var s := Piece(r, ido, l1, i0, cnt);
    forall b, i, j | IsOutput(s, b, i, j)
      ensures InsideAll(s, Size(r, ido, l1), i0, Size(r, ido, l1), i0, tw, (r - 1) * i0, b, i, j)
    {
      PiecePlaces(r, ido, l1, i0, cnt, b, i, j);
    }
    hide To;
    forall b, i, j, b', i', j' | IsOutput(s, b, i, j) && IsOutput(s, b', i', j') && To(s, b, i, j) == To(s, b', i', j')
      ensures b == b' && i == i' && j == j'
    {
      PiecePlaces(r, ido, l1, i0, cnt, b, i, j);
      PiecePlaces(r, ido, l1, i0, cnt, b', i', j');
      CellEncodes(ido, l1, r, i0 + i, b, j);
      CellEncodes(ido, l1, r, i0 + i', b', j');
    }
  }

  /** What a piece computes is the pass's output. */
  lemma PieceValue<C>(body: Body<C>, cc: seq<C>, tw: seq<C>, r: int, ido: int, l1: int, i0: int, cnt: int, b: int, i: int, j: int)
    requires IsPiece(r, ido, l1, i0, cnt) && |cc| == Size(r, ido, l1) && |tw| >= (r - 1) * ido
    requires IsOutput(Piece(r, ido, l1, i0, cnt), b, i, j)
    ensures Fits(Piece(r, ido, l1, i0, cnt), |cc|, i0, |cc|, i0, |tw|, (r - 1) * i0)
    ensures Value(body, cc, i0, |cc|, i0, tw, (r - 1) * i0, Piece(r, ido, l1, i0, cnt), b, i, j) ==
            PassOutput(body, cc, tw, r, ido, l1, i0 + i, b, j)
  {
    var s := Piece(r, ido, l1, i0, cnt);
    PieceFits(r, ido, l1, i0, cnt, |tw|);
    PiecePlaces(r, ido, l1, i0, cnt, b, i, j);
    InputsInside(s, |cc|, i0, |cc|, i0, |tw|, (r - 1) * i0, b, i);
    forall t | 0 <= t < r ensures Inputs(cc, i0, s, b, i)[t] == PassInput(cc, r, ido, l1, i0 + i, b)[t] {
      PiecePlaces(r, ido, l1, i0, cnt, b, i, t);
    }
    assert Inputs(cc, i0, s, b, i) == PassInput(cc, r, ido, l1, i0 + i, b);
    hide Fits, Inputs, PassInput, From, To, TwiddleAt, TwiddleIndex, Size;
  }

  /** Points i0 to i1 of every block now hold the pass's outputs, and nothing else changed. */
  ghost predicate PointsDone<C(!new)>(body: Body<C>, cc: seq<C>, tw: seq<C>, r: int, ido: int, l1: int, i0: int, i1: int, old_: seq<C>, new_: seq<C>) {
    && r > 0 && ido > 0 && l1 >= 0 && |cc| == |old_| == |new_| == Size(r, ido, l1) && |tw| >= TwiddleCells(r) * ((r - 1) * ido)
    && (l1 > 0 ==> forall a :: 0 <= a < |new_| ==>
          new_[a] == if i0 <= PointOf(ido, a) < i1 then ResultCell(body, cc, tw, r, ido, l1, a) else old_[a])
  }

  /** One piece. */
  method RunPiece<C(!new)>(cc: array<C>, ch: array<C>, tw: seq<C>, r: int, ido: int, l1: int, i0: int, cnt: int, body: Body<C>, wide: bool)
    requires IsPiece(r, ido, l1, i0, cnt) && cc.Length == ch.Length == Size(r, ido, l1) && |tw| >= (r - 1) * ido && cc != ch
    modifies ch
    ensures PointsDone(body, cc[..], tw, r, ido, l1, i0, i0 + cnt, old(ch[..]), ch[..])
  {
    hide Fits;
    var s := Piece(r, ido, l1, i0, cnt);
    PieceFits(r, ido, l1, i0, cnt, |tw|);
    var k := new Kernel(cc, i0, ch, i0, tw, (r - 1) * i0, s, body);
    ghost var before := ch[..];
    assert k.Kept();
    k.Run(wide, (r * ido - cnt) * 16, (ido - cnt) * 16, 0);
    forall a | l1 > 0 && 0 <= a < ch.Length
      ensures ch[a] == if i0 <= PointOf(ido, a) < i0 + cnt then ResultCell(body, cc[..], tw, r, ido, l1, a) else before[a]
    {
      PieceCell(k, r, ido, l1, i0, cnt, a);
    }
  }

  /** A cell after a piece's run. */
  lemma PieceCell<C(!new)>(k: Kernel<C>, r: int, ido: int, l1: int, i0: int, cnt: int, a: int)
    requires IsPiece(r, ido, l1, i0, cnt) && l1 > 0 && k.s == Piece(r, ido, l1, i0, cnt) && k.from == k.to == i0 && k.at == (r - 1) * i0
    requires k.cc.Length == k.ch.Length == Size(r, ido, l1) && |k.tw| >= (r - 1) * ido && 0 <= a < k.ch.Length
    requires k.Valid() && k.Kept() && forall b, i, j :: IsOutput(k.s, b, i, j) ==> k.Have(b, i, j)
    ensures k.ch[a] == if i0 <= PointOf(ido, a) < i0 + cnt then ResultCell(k.body, k.input, k.tw, r, ido, l1, a) else k.before[a]
  {
    hide Fits;
    CellOfPiece(r, ido, l1, i0, cnt, a);
    if i0 <= PointOf(ido, a) < i0 + cnt {
      var b, i, j := BlockOf(ido, l1, a), PointOf(ido, a) - i0, OutputOf(ido, l1, a);
      assert k.Have(b, i, j);
      PieceValue(k.body, k.input, k.tw, r, ido, l1, i0, cnt, b, i, j);
    } else {
      assert k.Outside(a);
    }
  }

  lemma CellOfPiece(r: int, ido: int, l1: int, i0: int, cnt: int, a: int)
    requires IsPiece(r, ido, l1, i0, cnt) && l1 > 0 && 0 <= a < Size(r, ido, l1)
    ensures var s := Piece(r, ido, l1, i0, cnt);
      if i0 <= PointOf(ido, a) < i0 + cnt then
        IsOutput(s, BlockOf(ido, l1, a), PointOf(ido, a) - i0, OutputOf(ido, l1, a)) &&
        i0 + To(s, BlockOf(ido, l1, a), PointOf(ido, a) - i0, OutputOf(ido, l1, a)) == a
      else forall b, i, j :: IsOutput(s, b, i, j) ==> i0 + To(s, b, i, j) != a
  {
    var s := Piece(r, ido, l1, i0, cnt);
    CellDecodes(ido, l1, r, a);
    if i0 <= PointOf(ido, a) < i0 + cnt {
      PiecePlaces(r, ido, l1, i0, cnt, BlockOf(ido, l1, a), PointOf(ido, a) - i0, OutputOf(ido, l1, a));
    } else {
      forall b, i, j | IsOutput(s, b, i, j) ensures i0 + To(s, b, i, j) != a {
        PiecePlaces(r, ido, l1, i0, cnt, b, i, j);
        CellEncodes(ido, l1, r, i0 + i, b, j);
      }
    }
  }

  function SumOf(counts: seq<int>): int {
    if counts == [] then 0 else counts[0] + SumOf(counts[1..])
  }

  /** However a pass's points are cut at multiples of four, in whatever widths, its pieces
      leave what the whole pass leaves. */
  method RunPieces<C(!new)>(cc: array<C>, ch: array<C>, tw: seq<C>, r: int, ido: int, l1: int, counts: seq<int>, wide: seq<bool>, body: Body<C>)
    requires r in {4, 8} && l1 > 0 && ido > 0 && SumOf(counts) == ido && |wide| == |counts|
    requires forall c :: 0 <= c < |counts| ==> counts[c] > 0 && counts[c] % 4 == 0
    requires cc.Length == ch.Length == Size(r, ido, l1) && |tw| >= (r - 1) * ido && cc != ch
    modifies ch
    ensures ch[..] == PassResult(body, cc[..], tw, r, ido, l1)
  {
    hide PointsDone, PassResult, Size;
    var i0 := 0;
    NoPoints(body, cc[..], tw, r, ido, l1, ch[..]);
    assert counts[0..] == counts;
    for c := 0 to |counts|
      invariant 0 <= i0 && i0 % 4 == 0 && i0 + SumOf(counts[c..]) == ido
      invariant PointsDone(body, cc[..], tw, r, ido, l1, 0, i0, old(ch[..]), ch[..])
    {
      SumStep(counts, c);
      NextPiece(cc, ch, tw, r, ido, l1, i0, counts[c], body, wide[c], old(ch[..]));
      i0 := i0 + counts[c];
    }
    assert counts[|counts|..] == [];
    AllPoints(body, cc[..], tw, r, ido, l1, old(ch[..]), ch[..]);
  }

  method NextPiece<C(!new)>(cc: array<C>, ch: array<C>, tw: seq<C>, r: int, ido: int, l1: int, i0: int, cnt: int, body: Body<C>, wide: bool, ghost start: seq<C>)
    requires IsPiece(r, ido, l1, i0, cnt) && cc.Length == ch.Length == Size(r, ido, l1) && |tw| >= (r - 1) * ido && cc != ch
    requires PointsDone(body, cc[..], tw, r, ido, l1, 0, i0, start, ch[..])
    modifies ch
    ensures PointsDone(body, cc[..], tw, r, ido, l1, 0, i0 + cnt, start, ch[..])
  {
    hide PointsDone, Size;
    RunPiece(cc, ch, tw, r, ido, l1, i0, cnt, body, wide);
    PiecesJoin(body, cc[..], tw, r, ido, l1, i0, i0 + cnt, start, old(ch[..]), ch[..]);
  }

  lemma NoPoints<C(!new)>(body: Body<C>, cc: seq<C>, tw: seq<C>, r: int, ido: int, l1: int, ch: seq<C>)
    requires r in {4, 8} && l1 > 0 && ido > 0 && |cc| == |ch| == Size(r, ido, l1) && |tw| >= (r - 1) * ido
    ensures PointsDone(body, cc, tw, r, ido, l1, 0, 0, ch, ch)
  {
    forall a | 0 <= a < |ch| ensures 0 <= PointOf(ido, a) {
    }
  }

  lemma SumStep(counts: seq<int>, c: int)
    requires 0 <= c < |counts| && forall d :: 0 <= d < |counts| ==> counts[d] > 0
    ensures SumOf(counts[c..]) == counts[c] + SumOf(counts[c + 1..]) && SumOf(counts[c + 1..]) >= 0
  {
    assert counts[c..][1..] == counts[c + 1..];
    SumPositive(counts[c + 1..]);
  }

  lemma {:induction false} SumPositive(counts: seq<int>)
    requires forall d :: 0 <= d < |counts| ==> counts[d] > 0
    ensures SumOf(counts) >= 0
  {
    if counts != [] {
      SumPositive(counts[1..]);
    }
  }

  lemma PiecesJoin<C(!new)>(body: Body<C>, cc: seq<C>, tw: seq<C>, r: int, ido: int, l1: int, i0: int, i1: int, a: seq<C>, b: seq<C>, c: seq<C>)
    requires PointsDone(body, cc, tw, r, ido, l1, 0, i0, a, b) && PointsDone(body, cc, tw, r, ido, l1, i0, i1, b, c) && 0 <= i0 <= i1
    ensures PointsDone(body, cc, tw, r, ido, l1, 0, i1, a, c)
  {
    hide PointOf, ResultCell;
  }

  lemma AllPoints<C(!new)>(body: Body<C>, cc: seq<C>, tw: seq<C>, r: int, ido: int, l1: int, a: seq<C>, b: seq<C>)
    requires l1 > 0 && PointsDone(body, cc, tw, r, ido, l1, 0, ido, a, b)
    ensures b == PassResult(body, cc, tw, r, ido, l1)
  {
    forall c | 0 <= c < |b| ensures b[c] == ResultCell(body, cc, tw, r, ido, l1, c) {
      CellDecodes(ido, l1, r, c);
    }
  }
}
