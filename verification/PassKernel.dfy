/** The Stockham pass kernels of radix 2 to 20: the AVX2 loop, which walks a four-point
    group as two pairs, and the AVX-512 loop, which takes it whole. */
module PassKernel {
  import opened Modular
  import opened PassWalk

  /** The radices with a pass kernel. */
  const RADICES := {2, 3, 4, 5, 8, 9, 10, 12, 15, 16, 20}

  /** The streams one base register reaches: five in the prime-factor kernels of 5·q. */
  function Span(r: int): int {
    if r in {10, 15, 20} then 5 else 4
  }

  /** The base registers of each side: AX, SI, R8, R9 in and BX, DI, R11, R15 out. */
  function Bases(r: int): int {
    if r in {2, 3, 4} then 1
    else if r in {5, 8, 10} then 2
    else if r in {9, 12, 15} then 3
    else 4
  }

  /** The kernel's registers, its three arrays, and the arithmetic of its body. */
  class Pass<C> {
    const cc: array<C>
    const ch: array<C>
    const tw: array<C>
    const r: int
    const ido: int
    const l1: int
    const body: Body<C>
    /** What cc and tw hold: a pass only reads them. */
    ghost const input: seq<C>
    ghost const twiddles: seq<C>

    var inBase: seq<int>    // input block + i, and Span(r) streams on for each further base
    var outBase: seq<int>   // output + i, likewise
    var CX: int             // one input stream
    var DX: int             // one output stream
    var blocks: int         // blocks left
    var groups: int         // four-point groups left in the block
    var R10: int            // twiddle group cursor

    constructor (cc: array<C>, ch: array<C>, tw: array<C>, r: int, ido: int, l1: int, body: Body<C>)
      requires r in RADICES && ido > 0 && l1 >= 0
      requires cc.Length == Size(r, ido, l1) && ch.Length == Size(r, ido, l1)
      requires tw.Length >= TwiddleCells(r) * ((r - 1) * ido)
      requires cc != ch && tw != ch
      ensures Valid() && this.cc == cc && this.ch == ch && this.tw == tw
      ensures this.r == r && this.ido == ido && this.l1 == l1 && this.body == body
      ensures input == cc[..] && twiddles == tw[..]
    {
      this.cc, this.ch, this.tw := cc, ch, tw;
      this.r, this.ido, this.l1 := r, ido, l1;
      this.body := body;
      input, twiddles := cc[..], tw[..];
    }

    ghost predicate Valid()
      reads cc, tw
    {
      && r in RADICES && ido > 0 && l1 >= 0
      && cc.Length == Size(r, ido, l1) && ch.Length == Size(r, ido, l1)
      && tw.Length >= TwiddleCells(r) * ((r - 1) * ido)
      && cc != ch && tw != ch && cc[..] == input && tw[..] == twiddles
    }

    /** The base registers stand at point i of block k. */
    ghost predicate At(i: int, k: int)
      reads `inBase, `outBase, `CX, `DX
    {
      && CX == 16 * ido && DX == 16 * (l1 * ido)
      && |inBase| == Bases(r) && |outBase| == Bases(r)
      && inBase[0] == 16 * (i + ido * (r * k)) && outBase[0] == 16 * (i + ido * k)
      && (forall t :: 1 <= t < Bases(r) ==> inBase[t] == inBase[0] + t * Span(r) * CX)
      && (forall t :: 1 <= t < Bases(r) ==> outBase[t] == outBase[0] + t * Span(r) * DX)
    }

    /** The addresses of input and output stream j: a base and up to four strides. */
    function In(j: int): int
      requires 0 <= j / Span(r) < |inBase|
      reads this
    {
      inBase[j / Span(r)] + (j % Span(r)) * CX
    }

    function Out(j: int): int
      requires 0 <= j / Span(r) < |outBase|
      reads this
    {
      outBase[j / Span(r)] + (j % Span(r)) * DX
    }

    lemma StreamAddresses(i: int, k: int, j: int)
      requires r in RADICES && At(i, k) && 0 <= j < r
      ensures 0 <= j / Span(r) < Bases(r)
      ensures In(j) == 16 * InputCell(r, ido, i, k, j)
      ensures Out(j) == 16 * Cell(ido, l1, i, k, j)
    {
      var t := j / Span(r);
      assert inBase[t] == inBase[0] + t * Span(r) * CX;
      assert outBase[t] == outBase[0] + t * Span(r) * DX;
      StreamStride(t, Span(r), j, ido);
      StreamStride(t, Span(r), j, l1 * ido);
      InputAddress(r, ido, i, k, j);
      OutputAddress(ido, l1, i, k, j);
    }

    // -------------------------------------------------------- what the body stores

    /** What cell a must hold after the pass. */
    ghost function Want(a: int): C
      requires r > 0 && ido > 0 && |input| >= Size(r, ido, l1) && |twiddles| >= TwiddleCells(r) * ((r - 1) * ido)
      requires 0 <= a < Size(r, ido, l1) && l1 > 0
    {
      ResultCell(body, input, twiddles, r, ido, l1, a)
    }

    /** Cell a belongs to one of the points i, …, i + lanes - 1 of block k. */
    ghost predicate Hit(a: int, i: int, lanes: int, k: int)
      requires ido > 0 && l1 > 0
    {
      BlockOf(ido, l1, a) == k && i <= PointOf(ido, a) < i + lanes
    }

    /** R10 stands at the twiddles of the group that starts at point i. */
    ghost predicate TwiddlesAt(i: int)
      reads `R10
    {
      R10 == 16 * (TwiddleCells(r) * ((r - 1) * i))
    }

    /** The registers stand at point i of block k, in the second pair of its group of g points
        when half is 1, with room for `lanes` points. */
    ghost predicate CanStep(lanes: int, g: int, half: int, i: int, k: int)
      reads `inBase, `outBase, `CX, `DX, `R10, cc, tw
    {
      && Valid() && At(i, k) && 0 <= k < l1 && 0 <= i && 1 <= lanes && i + lanes <= ido
      && g == GroupSize(ido, i) && i == GroupStart(ido, i) + 2 * half && 2 * half + lanes <= g
      && TwiddlesAt(GroupStart(ido, i))
    }

    /** Lane p of every input. */
    method Load(p: int, ghost i: int, ghost k: int) returns (xs: seq<C>)
      requires Valid() && At(i, k) && 0 <= k < l1 && 0 <= i && 0 <= p && i + p < ido
      ensures xs == PassInput(input, r, ido, l1, i + p, k)
    {
      xs := [];
      for j := 0 to r
        invariant |xs| == j && xs == PassInput(input, r, ido, l1, i + p, k)[..j]
      {
        StreamAddresses(i, k, j);
        InputInRange(r, ido, l1, i + p, k, j);
        xs := xs + [cc[(In(j) + 16 * p) / 16]];
      }
    }

    /** The inputs of every lane. */
    method LoadAll(lanes: int, ghost i: int, ghost k: int) returns (xs: seq<seq<C>>)
      requires Valid() && At(i, k) && 0 <= k < l1 && 0 <= i && 1 <= lanes && i + lanes <= ido
      ensures |xs| == lanes && forall p :: 0 <= p < lanes ==> xs[p] == PassInput(input, r, ido, l1, i + p, k)
    {
      xs := [];
      for p := 0 to lanes
        invariant |xs| == p
        invariant forall q :: 0 <= q < p ==> xs[q] == PassInput(input, r, ido, l1, i + q, k)
      {
        var x := Load(p, i, k);
        xs := xs + [x];
      }
    }

    /** Lane p of twiddle j of the group R10 stands at. */
    method LoadTwiddle(j: int, p: int, lanes: int, g: int, half: int, ghost i: int, ghost k: int) returns (w: C)
      requires CanStep(lanes, g, half, i, k) && 1 <= j < r && 0 <= p < lanes
      ensures w == Twiddle(body, twiddles, r, ido, i + p, j)
    {
      hide At, CanStep, GroupStart, GroupSize, TwiddleIndex;
      TwiddleSpot(j, p, lanes, g, half, i, k);
      var at := R10 + (j - 1) * 16 * g * TwiddleCells(r) + 32 * half + 16 * p;
      if r == 16 {
        w := body.join(tw[at / 16], tw[(at + 16 * g) / 16]);
      } else {
        w := tw[at / 16];
      }
    }

    /** The address of a lane's twiddle. */
    lemma TwiddleSpot(j: int, p: int, lanes: int, g: int, half: int, i: int, k: int)
      requires CanStep(lanes, g, half, i, k) && 1 <= j < r && 0 <= p < lanes
      ensures Valid() && 0 <= i + p < ido && g == GroupSize(ido, i + p)
      ensures var t := TwiddleIndex(ido, r, i + p, j);
        && (R10 + (j - 1) * 16 * g * TwiddleCells(r) + 32 * half + 16 * p) / 16 == t
        && (R10 + (j - 1) * 16 * g * TwiddleCells(r) + 32 * half + 16 * p + 16 * g) / 16 == t + g
        && 0 <= t < tw.Length && (r == 16 ==> 0 <= t + g < tw.Length)
    {
      hide At, Size, GroupStart, GroupSize, TwiddleIndex;
      SpotInGroup(ido, r, i, j, p, half);
      SpotInside(i + p, j);
      SameGroup(ido, i, p);
    }

    lemma SpotInside(i: int, j: int)
      requires Valid() && 0 <= i < ido && 1 <= j < r
      ensures var t := TwiddleIndex(ido, r, i, j);
        0 <= t < tw.Length && (r == 16 ==> 0 <= t + GroupSize(ido, i) < tw.Length)
    {
      TwiddleInTable(ido, r, i, j);
      hide Size, TwiddleIndex;
    }

    /** v is output j of the body on point i of block k. */
    ghost predicate IsBody(v: C, i: int, k: int, j: int) {
      && 0 <= i < ido && 0 <= k < l1 && 0 < r && |input| >= Size(r, ido, l1)
      && v == body.bfly(PassInput(input, r, ido, l1, i, k), j)
    }

    /** Output j of one lane: multiplied by its twiddle, then, for the lane that is point 0 of
        its block, put back unmultiplied. */
    method Value(v: C, j: int, p: int, lanes: int, g: int, half: int, first: bool, ghost i: int, ghost k: int) returns (y: C)
      requires CanStep(lanes, g, half, i, k) && 0 <= j < r && 0 <= p < lanes && (first <==> i == 0)
      requires IsBody(v, i + p, k, j)
      ensures y == PassOutput(body, input, twiddles, r, ido, l1, i + p, k, j)
    {
      y := v;
      if j > 0 {
        var w := LoadTwiddle(j, p, lanes, g, half, i, k);
        var t := body.mul(y, w);
        if !(first && p == 0) {
          y := t;
        }
      }
    }

    ghost predicate IsOutput(a: int, i: int, k: int, j: int)
      requires ido > 0 && l1 > 0
    {
      PointOf(ido, a) == i && BlockOf(ido, l1, a) == k && OutputOf(ido, l1, a) == j
    }

    /** Store a value to lane p of output stream j. */
    method Store(j: int, p: int, y: C, ghost i: int, ghost k: int)
      requires Valid() && At(i, k) && 0 <= k < l1 && 0 <= i && 0 <= p && i + p < ido && 0 <= j < r
      modifies ch
      ensures forall a :: 0 <= a < Size(r, ido, l1) ==> ch[a] == if IsOutput(a, i + p, k, j) then y else old(ch[a])
    {
      StreamAddresses(i, k, j);
      CellEncodes(ido, l1, r, i + p, k, j);
      ghost var c := Cell(ido, l1, i + p, k, j);
      assert (Out(j) + 16 * p) / 16 == c;
      ch[(Out(j) + 16 * p) / 16] := y;
      ghost var point := i + p;
      forall a | 0 <= a < Size(r, ido, l1) ensures IsOutput(a, point, k, j) ==> a == c {
        CellDecodes(ido, l1, r, a);
      }
    }

    lemma WantIs(a: int, i: int, k: int, j: int)
      requires r > 0 && ido > 0 && l1 > 0 && |input| >= Size(r, ido, l1) && |twiddles| >= TwiddleCells(r) * ((r - 1) * ido)
      requires 0 <= a < Size(r, ido, l1) && 0 <= i < ido && 0 <= k < l1 && 0 <= j < r && IsOutput(a, i, k, j)
      ensures Want(a) == PassOutput(body, input, twiddles, r, ido, l1, i, k, j)
    {
    }

    /** Output j of one lane, stored in its cell. */
    method StoreOutput(v: C, j: int, p: int, lanes: int, g: int, half: int, first: bool, ghost i: int, ghost k: int)
      requires CanStep(lanes, g, half, i, k) && 0 <= j < r && 0 <= p < lanes && (first <==> i == 0)
      requires IsBody(v, i + p, k, j)
      modifies ch
      ensures CanStep(lanes, g, half, i, k)
      ensures forall a :: 0 <= a < Size(r, ido, l1) ==> ch[a] == if IsOutput(a, i + p, k, j) then Want(a) else old(ch[a])
    {
      hide Want, PassOutput, PassInput, Size, IsBody;
      var y := Value(v, j, p, lanes, g, half, first, i, k);
      Store(j, p, y, i, k);
      ghost var point := i + p;
      forall a | 0 <= a < Size(r, ido, l1) && IsOutput(a, point, k, j) ensures Want(a) == y {
        WantIs(a, point, k, j);
      }
    }

    /** Every lane's outputs are those of the body. */
    ghost predicate Computed(ys: seq<seq<C>>, lanes: int, i: int, k: int) {
      |ys| == lanes && forall p :: 0 <= p < lanes ==> |ys[p]| == r && forall j :: 0 <= j < r ==> IsBody(ys[p][j], i + p, k, j)
    }

    /** The outputs of one butterfly on `lanes` points, stored stream by stream. */
    method StoreAll(ys: seq<seq<C>>, lanes: int, g: int, half: int, first: bool, ghost i: int, ghost k: int)
      requires CanStep(lanes, g, half, i, k) && (first <==> i == 0) && Computed(ys, lanes, i, k)
      modifies ch
      ensures CanStep(lanes, g, half, i, k)
      ensures forall a :: 0 <= a < Size(r, ido, l1) ==> ch[a] == if Hit(a, i, lanes, k) then Want(a) else old(ch[a])
    {
      OutputsInRange(r, ido, l1);
      hide PointOf, BlockOf, OutputOf, PassOutput, Want, CanStep, Size, IsBody;
      for j := 0 to r
        invariant CanStep(lanes, g, half, i, k)
        invariant forall a :: 0 <= a < Size(r, ido, l1) ==>
          ch[a] == if Hit(a, i, lanes, k) && OutputOf(ido, l1, a) < j then Want(a) else old(ch[a])
      {
        for p := 0 to lanes
          invariant CanStep(lanes, g, half, i, k)
          invariant forall a :: 0 <= a < Size(r, ido, l1) ==>
            ch[a] == if Hit(a, i, lanes, k) && OutputOf(ido, l1, a) < j then Want(a)
                     else if Hit(a, i, p, k) && OutputOf(ido, l1, a) == j then Want(a) else old(ch[a])
        {
          StoreOutput(ys[p][j], j, p, lanes, g, half, first, i, k);
        }
      }
    }

    /** One butterfly on `lanes` points. */
    method Step(lanes: int, g: int, half: int, first: bool, ghost i: int, ghost k: int)
      requires CanStep(lanes, g, half, i, k) && (first <==> i == 0)
      modifies ch
      ensures CanStep(lanes, g, half, i, k)
      ensures forall a :: 0 <= a < Size(r, ido, l1) ==> ch[a] == if Hit(a, i, lanes, k) then Want(a) else old(ch[a])
    {
      var xs := LoadAll(lanes, i, k);
      hide PassInput, Want, PassOutput, Size;
      var ys := seq(lanes, p requires 0 <= p < lanes => seq(r, j => body.bfly(xs[p], j)));
      StoreAll(ys, lanes, g, half, first, i, k);
    }

    // -------------------------------------------------------- the walk

    /** Every cell of the blocks before k, and of the points before i of block k, is done. */
    ghost predicate Done(i: int, k: int)
      requires Valid()
      reads cc, tw, ch
    {
      l1 > 0 ==> forall a :: 0 <= a < Size(r, ido, l1) && (BlockOf(ido, l1, a) < k || Hit(a, 0, i, k)) ==> ch[a] == Want(a)
    }

    /** The registers stand at point i of block k, and everything before it is done. */
    ghost predicate Ready(i: int, k: int)
      reads `inBase, `outBase, `CX, `DX, `R10, cc, tw, ch
    {
      Valid() && 0 <= k < l1 && 0 <= i <= ido && At(i, k) && TwiddlesAt(i) && Done(i, k)
    }

    /** The step over n points of every base register. */
    method Advance(n: int, ghost i: int, ghost k: int)
      requires At(i, k) && r in RADICES
      modifies this`inBase, this`outBase
      ensures At(i + n, k)
    {
      inBase := seq(|inBase|, t requires 0 <= t < |inBase| reads this => inBase[t] + 16 * n);
      outBase := seq(|outBase|, t requires 0 <= t < |outBase| reads this => outBase[t] + 16 * n);
    }

    /** One butterfly on `lanes` points and the step past them. */
    method StepPast(lanes: int, g: int, half: int, first: bool, ghost i: int, ghost k: int)
      requires CanStep(lanes, g, half, i, k) && (first <==> i == 0) && Done(i, k)
      modifies this`inBase, this`outBase, ch
      ensures Valid() && At(i + lanes, k) && Done(i + lanes, k)
    {
      Step(lanes, g, half, first, i, k);
      assert Done(i + lanes, k) by {
        hide PointOf, BlockOf, OutputOf, Want;
        OutputsInRange(r, ido, l1);
      }
      Advance(lanes, i, k);
    }

    /** One group of four points, walked as two pairs. */
    method TwoPairs(first: bool, ghost i: int, ghost k: int)
      requires Ready(i, k) && i % 4 == 0 && i + 4 <= ido && (first <==> i == 0)
      modifies this`inBase, this`outBase, this`R10, ch
      ensures Ready(i + 4, k)
    {
      hide Done, At, GroupSize, GroupStart, TwiddlesAt;
      GroupOfFour(ido, i);
      StepPast(2, 4, 0, first, i, k);
      StepPast(2, 4, 1, false, i + 2, k);
      NextTwiddles(4, i);
    }

    lemma GroupOfFour(ido: int, i: int)
      requires 0 <= i && i % 4 == 0 && i + 4 <= ido
      ensures GroupSize(ido, i) == GroupSize(ido, i + 2) == 4 && GroupStart(ido, i) == GroupStart(ido, i + 2) == i
    {
    }

    /** R10 past a group of g points. */
    method NextTwiddles(g: int, ghost i: int)
      requires TwiddlesAt(i)
      modifies this`R10
      ensures TwiddlesAt(i + g)
    {
      MulAdd(r - 1, i, g);
      R10 := R10 + TwiddleCells(r) * ((r - 1) * 16 * g);
    }

    /** One group of g points in one register. */
    method WholeGroup(g: int, first: bool, ghost i: int, ghost k: int)
      requires Ready(i, k) && i + g <= ido && (first <==> i == 0)
      requires g == GroupSize(ido, i) && i == GroupStart(ido, i)
      modifies this`inBase, this`outBase, this`R10, ch
      ensures Ready(i + g, k)
    {
      hide Done;
      StepPast(g, g, 0, first, i, k);
      NextTwiddles(g, i);
    }

    /** Block k is walked to its end. */
    ghost predicate Walked(k: int)
      reads `inBase, `outBase, `CX, `DX, cc, tw, ch
    {
      Valid() && 0 <= k < l1 && At(ido, k) && Done(ido, k)
    }

    /** The last point of an odd ido, in half a register, when there is one. */
    method Tail(ghost i: int, ghost k: int)
      requires Ready(i, k) && CX == 16 * ido && 0 < i == ido - ido % 2
      modifies this`inBase, this`outBase, ch
      ensures Walked(k)
    {
      BitOfOne(ido);
      TailGroups(ido);
      hide Done, GroupSize, GroupStart;
      if (CX / 16) % 2 != 0 {
        StepPast(1, 1, 0, false, i, k);
      }
    }

    /** The pair of an ido with bit 1 set, when there is one, and the tail. */
    method PairAndTail(ghost i: int, ghost k: int)
      requires Ready(i, k) && CX == 16 * ido && 0 < i == ido - ido % 4
      modifies this`inBase, this`outBase, this`R10, ch
      ensures Walked(k)
    {
      BitOfTwo(ido);
      TailGroups(ido);
      hide Ready, Walked, GroupSize, GroupStart;
      if (CX / 32) % 2 != 0 {
        WholeGroup(2, false, i, k);
        Tail(i + 2, k);
      } else {
        Tail(i, k);
      }
    }

    /** The four-point groups, as pairs. */
    method Quads(ghost k: int)
      requires Ready(0, k) && groups == ido / 4 > 0
      modifies this`inBase, this`outBase, this`R10, this`groups, ch
      ensures Ready(ido - ido % 4, k)
    {
      hide Ready;
      ghost var i := 0;
      TwoPairs(true, i, k);
      i, groups := i + 4, groups - 1;
      while groups != 0
        invariant 0 < i && i % 4 == 0 && 0 <= groups && i + 4 * groups == ido - ido % 4 && Ready(i, k)
        decreases groups
      {
        TwoPairs(false, i, k);
        i, groups := i + 4, groups - 1;
      }
    }

    /** The four-point groups, one register each. */
    method Quads512(ghost k: int)
      requires Ready(0, k) && groups == ido / 4 > 0
      modifies this`inBase, this`outBase, this`R10, this`groups, ch
      ensures Ready(ido - ido % 4, k)
    {
      hide Ready;
      ghost var i := 0;
      WholeGroup(4, true, i, k);
      i, groups := i + 4, groups - 1;
      while groups != 0
        invariant 0 < i && i % 4 == 0 && 0 <= groups && i + 4 * groups == ido - ido % 4 && Ready(i, k)
        decreases groups
      {
        WholeGroup(4, false, i, k);
        i, groups := i + 4, groups - 1;
      }
    }

    /** One block of points at 256 bits. */
    method Block(ghost k: int)
      requires Ready(0, k) && ido >= 2 && CX == 16 * ido
      modifies this`inBase, this`outBase, this`R10, this`groups, ch
      ensures Walked(k)
    {
      hide Ready, Walked;
      groups := CX / 64;
      if groups != 0 {
        Quads(k);
        PairAndTail(ido - ido % 4, k);
      } else {
        // ido is 2 or 3: the first pair is the two-point group.
        WholeGroup(2, true, 0, k);
        Tail(2, k);
      }
    }

    /** One block of points at 512 bits. */
    method Block512(ghost k: int)
      requires Ready(0, k) && ido >= 4 && CX == 16 * ido
      modifies this`inBase, this`outBase, this`R10, this`groups, ch
      ensures Walked(k)
    {
      hide Ready, Walked;
      groups := CX / 64;
      Quads512(k);
      PairAndTail(ido - ido % 4, k);
    }

    /** The last bases of a block: the one of the next block's input, r - 1 streams on. */
    method NextBlock(ghost k: int)
      requires Valid() && At(ido, k) && 0 <= k
      modifies this`inBase
      ensures |inBase| == Bases(r) && inBase[0] == 16 * (ido * (r * (k + 1)))
      ensures outBase[0] == 16 * (ido * (k + 1))
    {
      NextAddresses(k);
      var AX := inBase[0];
      match r {
        case 2 => AX := AX + CX;
        case 3 => AX := AX + CX * 2;
        case 4 => AX := AX + CX * 3;
        case 5 => AX := AX + CX * 4;
        case 8 => AX := AX + CX * 4; AX := AX + CX * 3;
        case 9 => AX := AX + CX * 8;
        case 12 => AX := AX + CX * 8; AX := AX + CX * 3;
        case 16 => AX := AX + CX * 8; AX := AX + CX * 4; AX := AX + CX * 3;
        case _ => AX := inBase[Bases(r) - 1] + CX * 4;
      }
      assert AX == inBase[0] + (r - 1) * CX;
      inBase := inBase[0 := AX];
    }

    /** The stream past a block is where the next one starts. */
    lemma NextAddresses(k: int)
      requires Valid() && At(ido, k) && 0 <= k
      ensures inBase[0] + (r - 1) * CX == 16 * (ido * (r * (k + 1))) && outBase[0] == 16 * (ido * (k + 1))
    {
      MulAdd(ido, r * k, r);
      MulAdd(ido, k, 1);
      MulRegroup(r, 16, ido);
    }

    lemma SomeBases()
      ensures Bases(r) >= 1
    {
    }

    /** The bases of a block, each Span(r) streams after the one before. */
    method SetBases(ghost k: int)
      requires r in RADICES && |inBase| == Bases(r) && |outBase| == Bases(r)
      requires CX == 16 * ido && DX == 16 * (l1 * ido)
      requires inBase[0] == 16 * (ido * (r * k)) && outBase[0] == 16 * (ido * k)
      modifies this`inBase, this`outBase
      ensures At(0, k)
    {
      hide Bases, Span;
      assert Bases(r) >= 1 by {
        SomeBases();
      }
      for t := 1 to Bases(r)
        invariant |inBase| == Bases(r) && |outBase| == Bases(r)
        invariant inBase[0] == old(inBase[0]) && outBase[0] == old(outBase[0])
        invariant forall u :: 1 <= u < t ==> inBase[u] == inBase[0] + u * Span(r) * CX
        invariant forall u :: 1 <= u < t ==> outBase[u] == outBase[0] + u * Span(r) * DX
      {
        NextBase(t, Span(r), CX);
        NextBase(t, Span(r), DX);
        assert t > 1 ==> inBase[t - 1] == inBase[0] + (t - 1) * Span(r) * CX && outBase[t - 1] == outBase[0] + (t - 1) * Span(r) * DX;
        inBase := inBase[t := inBase[t - 1] + Span(r) * CX];
        outBase := outBase[t := outBase[t - 1] + Span(r) * DX];
      }
    }

    /** ch holds what the pass defines. */
    ghost predicate Complete()
      requires Valid()
      reads cc, tw, ch
    {
      l1 > 0 ==> ch[..] == PassResult(body, input, twiddles, r, ido, l1)
    }

    /** The input and output of block k start at the first bases. */
    ghost predicate BlockReady(k: int)
      reads `inBase, `outBase, `CX, `DX, cc, tw, ch
    {
      && Valid() && 0 <= k <= l1 && CX == 16 * ido && DX == 16 * (l1 * ido)
      && |inBase| == Bases(r) && |outBase| == Bases(r)
      && inBase[0] == 16 * (ido * (r * k)) && outBase[0] == 16 * (ido * k)
      && Done(0, k)
    }

    method OneBlock(wide: bool, ghost k: int)
      requires BlockReady(k) && k < l1 && ido >= 2 && (wide ==> ido >= 4)
      modifies this`inBase, this`outBase, this`R10, this`groups, ch
      ensures BlockReady(k + 1)
    {
      SetBases(k);
      R10 := 0;
      if wide {
        Block512(k);
      } else {
        Block(k);
      }
      NextBlock(k);
      DoneBlock(k);
    }

    method Setup()
      requires Valid()
      modifies `CX, `DX, `blocks, `inBase, `outBase
      ensures BlockReady(0) && blocks == l1
    {
      hide Size, TwiddleCells, Done, Valid, BlockReady;
      CX, DX, blocks := ido, ido, l1;
      DX := DX * blocks;
      CX := CX * 16;
      DX := DX * 16;
      inBase, outBase := seq(Bases(r), _ => 0), seq(Bases(r), _ => 0);
      ReadyToStart();
    }

    lemma ReadyToStart()
      requires Valid() && CX == ido * 16 && DX == ido * l1 * 16
      requires |inBase| == |outBase| == Bases(r) && forall t :: 0 <= t < Bases(r) ==> inBase[t] == outBase[t] == 0
      ensures BlockReady(0)
    {
      hide Size, TwiddleCells, Done;
      NothingDone();
      NoPoints(ido, r, l1);
    }

    lemma NoPoints(ido: int, r: int, l1: int)
      ensures ido * (r * 0) == 0 && ido * 0 == 0 && ido * l1 == l1 * ido
    {
    }

    /** The whole pass, at 256 bits or, when wide, at 512. */
    method Run(wide: bool)
      requires Valid() && ido >= 2 && (wide ==> ido >= 4)
      modifies this, ch
      ensures Valid() && Complete()
    {
      Setup();
      ghost var k := 0;
      hide BlockReady, Complete;
      while blocks != 0
        invariant BlockReady(k) && 0 <= blocks && k + blocks == l1
        decreases blocks
      {
        OneBlock(wide, k);
        k, blocks := k + 1, blocks - 1;
      }
      DoneAll();
    }

    lemma NothingDone()
      requires Valid()
      ensures Done(0, 0)
    {
      forall a | l1 > 0 && 0 <= a < Size(r, ido, l1) ensures 0 <= BlockOf(ido, l1, a) {
        CellDecodes(ido, l1, r, a);
      }
    }

    lemma DoneBlock(k: int)
      requires Valid() && Done(ido, k)
      ensures Done(0, k + 1)
    {
      forall a | l1 > 0 && 0 <= a < Size(r, ido, l1) ensures 0 <= PointOf(ido, a) < ido {
        CellDecodes(ido, l1, r, a);
      }
    }

    lemma DoneAll()
      requires BlockReady(l1)
      ensures Valid() && Complete()
    {
      forall a | l1 > 0 && 0 <= a < Size(r, ido, l1) ensures BlockOf(ido, l1, a) < l1 {
        CellDecodes(ido, l1, r, a);
      }
    }
  }

  /** The pair and the last point of ido mod 4 are twiddle groups of their own. */
  lemma TailGroups(ido: int)
    requires ido > 0
    ensures ido % 4 >= 2 ==> GroupSize(ido, ido - ido % 4) == 2 && GroupStart(ido, ido - ido % 4) == ido - ido % 4
    ensures ido % 2 == 1 ==> GroupSize(ido, ido - 1) == 1 && GroupStart(ido, ido - 1) == ido - 1
  {
    BitOfTwo(ido);
  }

  lemma OutputsInRange(r: int, ido: int, l1: int)
    requires ido > 0 && l1 > 0
    ensures forall a :: 0 <= a < Size(r, ido, l1) ==> 0 <= OutputOf(ido, l1, a) < r
  {
    forall a | 0 <= a < Size(r, ido, l1) ensures 0 <= OutputOf(ido, l1, a) < r {
      CellDecodes(ido, l1, r, a);
    }
  }

  /** t bases of s streams and j mod s streams are j streams. */
  lemma StreamStride(t: int, s: int, j: int, x: int)
    requires s > 0 && t == j / s
    ensures t * s * (16 * x) + (j % s) * (16 * x) == 16 * (j * x)
  {
    assert j == t * s + j % s;
    assert (t * s + j % s) * x == t * s * x + (j % s) * x;
    assert t * s * (16 * x) == 16 * (t * s * x) && (j % s) * (16 * x) == 16 * ((j % s) * x);
  }

  lemma InputAddress(r: int, ido: int, i: int, k: int, j: int)
    ensures InputCell(r, ido, i, k, j) == i + ido * (r * k) + j * ido
  {
  }

  lemma OutputAddress(ido: int, l1: int, i: int, k: int, j: int)
    ensures Cell(ido, l1, i, k, j) == i + ido * k + j * (l1 * ido)
  {
    assert ido * (k + l1 * j) == ido * k + ido * (l1 * j) && ido * (l1 * j) == j * (l1 * ido);
  }

  lemma TwiddleAddress(cells: int, start: int, j: int, g: int, half: int, p: int)
    ensures 16 * (cells * start) + j * 16 * g * cells + 32 * half + 16 * p ==
            16 * (cells * (start + j * g) + 2 * half + p)
  {
    assert cells * (start + j * g) == cells * start + cells * (j * g);
    assert j * 16 * g * cells == 16 * (cells * (j * g));
  }

  lemma SpotInGroup(ido: int, r: int, i: int, j: int, p: int, half: int)
    requires 0 <= i && 0 <= p && i + p < GroupStart(ido, i) + GroupSize(ido, i) && i == GroupStart(ido, i) + 2 * half
    ensures var at := 16 * (TwiddleCells(r) * ((r - 1) * GroupStart(ido, i))) + (j - 1) * 16 * GroupSize(ido, i) * TwiddleCells(r) + 32 * half + 16 * p;
      && at / 16 == TwiddleIndex(ido, r, i + p, j)
      && (at + 16 * GroupSize(ido, i)) / 16 == TwiddleIndex(ido, r, i + p, j) + GroupSize(ido, i)
  {
    SameGroup(ido, i, p);
    hide GroupStart, GroupSize, TwiddleCells;
    TwiddleByte(TwiddleCells(r), (r - 1) * GroupStart(ido, i), j - 1, GroupSize(ido, i), half, p);
  }

  lemma TwiddleByte(cells: int, start: int, j: int, g: int, half: int, p: int)
    ensures var at, t := 16 * (cells * start) + j * 16 * g * cells + 32 * half + 16 * p, cells * (start + j * g) + 2 * half + p;
      at / 16 == t && (at + 16 * g) / 16 == t + g
  {
    TwiddleAddress(cells, start, j, g, half, p);
    DivModUnique(16, 0, cells * (start + j * g) + 2 * half + p);
    DivModUnique(16, 0, cells * (start + j * g) + 2 * half + p + g);
  }

  lemma NextBase(t: int, span: int, stride: int)
    ensures (t - 1) * span * stride + span * stride == t * span * stride && 0 * span * stride == 0
  {
    assert t * span == (t - 1) * span + span;
    MulAdd(stride, (t - 1) * span, span);
  }
}
