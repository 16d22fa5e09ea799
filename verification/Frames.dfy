/** The trampolines that run two or three passes in one call, with the buffers between the
    passes in their own stack frame.

    Memory is a function from the address of an eight-byte word to its contents, an address or
    count, or one part of a point; a point is two words. */
module Frames {

  /** An eight-byte word: an address or a count, or a part of a point, of whatever arithmetic. */
  datatype Word<F> = Address(a: int) | Part(x: F)

  /** What a register that a word is moved to addresses or counts. */
  function Value<F>(w: Word<F>): int {
    match w
    case Address(a) => a
    case Part(_) => 0
  }

  type Memory<F> = int -> Word<F>

  /** A pass kernel: the words it makes of the words at its input, given its table pointers
      and its two counts. */
  type Kernel<!F> = (seq<Word<F>>, int, int, int, int) -> seq<Word<F>>

  /** The words of `points` points from address a on. */
  function Words<F>(m: Memory<F>, a: int, points: nat): (w: seq<Word<F>>)
    ensures |w| == 2 * points
  {
    seq(2 * points, i => m(a + 8 * i))
  }

  /** A kernel writes as many words as it reads. */
  ghost predicate IsKernel<F(!new)>(p: Kernel<F>) {
    forall w, t, k, i, l :: KeepsLength(p, w, t, k, i, l)
  }

  ghost predicate KeepsLength<F>(p: Kernel<F>, w: seq<Word<F>>, t: int, k: int, i: int, l: int) {
    |p(w, t, k, i, l)| == |w|
  }

  /** Two memories agree on a stretch. */
  ghost predicate Same<F>(m: Memory<F>, n: Memory<F>, a: int, end: int) {
    forall b :: a <= b < end ==> n(b) == m(b)
  }

  lemma WordsSame<F>(m: Memory<F>, n: Memory<F>, a: int, points: nat)
    requires Same(m, n, a, a + 16 * points)
    ensures Words(n, a, points) == Words(m, a, points)
  {
  }

  predicate Apart(a: int, m: int, b: int, n: int) {
    a + m <= b || b + n <= a
  }

  /** x &^ 63. */
  function Down64(x: int): (y: int)
    ensures y % 64 == 0 && x - 63 <= y <= x
  {
    x - x % 64
  }

  /** x &^ 7. */
  function Down8(x: int): (y: int)
    ensures y % 8 == 0 && x - 7 <= y <= x
  {
    x - x % 8
  }

  // ------------------------------------------------------------ where the buffers lie

  function TwoFrame(max: int): int {
    Down8(48 + 63 + 16 * max + 7)
  }

  function ThreeFrame(max: int): int {
    Down8(56 + 63 + 2 * (16 * max) + 7)
  }

  /** The two-pass frame: the outgoing arguments, then the buffer, which is aligned, lies in
      the frame and starts at the first 64-byte boundary above the arguments. */
  lemma TwoPlacement(sp: int, max: nat)
    ensures var b := Down64(sp + 111);
      b % 64 == 0 && sp + 48 <= b < sp + 48 + 64 && b + 16 * max <= sp + TwoFrame(max)
    ensures TwoFrame(max) % 8 == 0
  {
  }

  /** The three-pass frame: the arguments and x, then the two buffers. The second one is
      aligned just when four divides max. */
  lemma ThreePlacement(sp: int, max: nat)
    ensures var b := Down64(sp + 119); var b2 := b + 16 * max;
      && b % 64 == 0 && sp + 56 <= b < sp + 56 + 64
      && b2 + 16 * max <= sp + ThreeFrame(max)
      && (b2 % 64 == 0 <==> max % 4 == 0)
    ensures ThreeFrame(max) % 8 == 0
  {
    hide Down64, Down8;
    Multiple64(max);
    var b := Down64(sp + 119);
    var q := b / 64;
    assert b == 64 * q;
  }

  lemma Multiple64(max: nat)
    ensures (16 * max) % 64 == 0 <==> max % 4 == 0
  {
    assert 16 * max == 64 * (max / 4) + 16 * (max % 4);
  }

  // ------------------------------------------------------------ the machine

  class Machine<F(!new)> {
    var mem: Memory<F>
    var AX: int
    var BX: int
    const SP: int    // the trampoline's frame starts here
    const FP: int    // its own arguments start here
    const low: int   // the lowest address a callee's frame may reach
    const points: nat

    constructor (mem: Memory<F>, sp: int, fp: int, low: int, points: nat)
      ensures this.mem == mem && SP == sp && FP == fp && this.low == low && this.points == points
    {
      this.mem, SP, FP, this.low, this.points := mem, sp, fp, low, points;
    }

    /** MOVQ v, a(…) */
    method Put(a: int, v: int)
      modifies `mem
      ensures forall b :: mem(b) == if b == a then Address(v) else old(mem)(b)
    {
      var m := mem;
      mem := b => if b == a then Address(v) else m(b);
    }

    /** The address or count at a. */
    function At(a: int): int
      reads `mem
    {
      Value(mem(a))
    }

    /** Eight-byte argument i of the trampoline. */
    function Arg(i: int): int
      reads `mem
    {
      ArgIn(mem, i)
    }

    function ArgIn(m: Memory<F>, i: int): int {
      Value(m(FP + 8 * i))
    }

    /** The trampoline's arguments are addresses and counts. */
    ghost predicate Arguments(m: Memory<F>, n: int) {
      forall i :: 0 <= i < n ==> m(FP + 8 * i).Address?
    }

    /** A buffer of the caller's is disjoint from the stack below the end of the arguments. */
    predicate Outside(a: int, args: int) {
      Apart(a, 16 * points, low, FP + 8 * args - low)
    }

    /** The memory between two states differs only in one buffer and in the stack below `top`. */
    static ghost predicate OnlyChanged(m: Memory<F>, n: Memory<F>, buffer: int, bytes: int, low: int, top: int) {
      forall b :: !(buffer <= b < buffer + bytes) && !(low <= b < top) ==> n(b) == m(b)
    }

    /** CALL: a kernel reads the buffer of its first argument and writes that of its second,
        which must not overlap it, and may use the stack below SP and clobber registers. */
    method Call(p: Kernel<F>, final: bool)
      requires IsKernel(p)
      requires Apart(At(SP), 16 * points, At(SP + 8), 16 * points)
      requires At(SP + 8) >= SP || At(SP + 8) + 16 * points <= low
      modifies `mem, `AX, `BX
      ensures var src, dst := old(At(SP)), old(At(SP + 8));
        && OnlyChanged(old(mem), mem, dst, 16 * points, low, SP)
        && Words(mem, dst, points) ==
           if final then p(Words(old(mem), src, points), 0, old(At(SP + 16)), 1, old(At(SP + 24)))
           else p(Words(old(mem), src, points), old(At(SP + 16)), old(At(SP + 24)), old(At(SP + 32)), old(At(SP + 40)))
    {
      var src, dst := At(SP), At(SP + 8);
      var w := Words(mem, src, points);
      var y := if final then p(w, 0, At(SP + 16), 1, At(SP + 24)) else p(w, At(SP + 16), At(SP + 24), At(SP + 32), At(SP + 40));
      assert KeepsLength(p, w, 0, At(SP + 16), 1, At(SP + 24));
      assert KeepsLength(p, w, At(SP + 16), At(SP + 24), At(SP + 32), At(SP + 40));
      var scratch: int -> Word<F> := *;
      mem := Written(mem, scratch, dst, y);
      WrittenWords(old(mem), scratch, dst, y);
      AX, BX := *, *;
    }

    /** Memory<F> after a call: y from dst on, anything in the callee's own frame. */
    function Written(m: Memory<F>, scratch: Memory<F>, dst: int, y: seq<Word<F>>): Memory<F>
      requires |y| == 2 * points
    {
      b => if dst <= b < dst + 16 * points then (if (b - dst) % 8 == 0 then y[(b - dst) / 8] else m(b))
           else if low <= b < SP then scratch(b) else m(b)
    }

    lemma WrittenWords(m: Memory<F>, scratch: Memory<F>, dst: int, y: seq<Word<F>>)
      requires |y| == 2 * points
      ensures Words(Written(m, scratch, dst, y), dst, points) == y
    {
      forall i | 0 <= i < 2 * points ensures Written(m, scratch, dst, y)(dst + 8 * i) == y[i] {
      }
    }

    /** Stores the six arguments of a pass kernel. */
    method PassArgs(a0: int, a1: int, a2: int, a3: int, a4: int, a5: int)
      modifies `mem
      ensures At(SP) == a0 && At(SP + 8) == a1 && At(SP + 16) == a2 && At(SP + 24) == a3 && At(SP + 32) == a4 && At(SP + 40) == a5
      ensures forall b :: !(SP <= b < SP + 48) ==> mem(b) == old(mem)(b)
    {
      Put(SP, a0);
      Put(SP + 8, a1);
      Put(SP + 16, a2);
      Put(SP + 24, a3);
      Put(SP + 32, a4);
      Put(SP + 40, a5);
    }

    /** Stores the four arguments of a final kernel. */
    method LastArgs(a0: int, a1: int, a2: int, a3: int)
      modifies `mem
      ensures At(SP) == a0 && At(SP + 8) == a1 && At(SP + 16) == a2 && At(SP + 24) == a3
      ensures forall b :: !(SP <= b < SP + 32) ==> mem(b) == old(mem)(b)
    {
      Put(SP, a0);
      Put(SP + 8, a1);
      Put(SP + 16, a2);
      Put(SP + 24, a3);
    }

    /** A buffer of the frame above `top`, or one outside the stack. */
    ghost predicate Buffer(a: int, top: int) {
      a >= top || a + 16 * points <= low
    }

    /** One pass: its arguments, and the call. */
    method PassStep(p: Kernel<F>, src: int, dst: int, tw: int, k: int, ido: int, l1: int)
      requires IsKernel(p) && low <= SP
      requires Buffer(src, SP + 48) && Buffer(dst, SP + 48) && Apart(src, 16 * points, dst, 16 * points)
      modifies `mem, `AX, `BX
      ensures Words(mem, dst, points) == p(Words(old(mem), src, points), tw, k, ido, l1)
      ensures OnlyChanged(old(mem), mem, dst, 16 * points, low, SP + 48)
    {
      hide Words, IsKernel;
      PassArgs(src, dst, tw, k, ido, l1);
      WordsSame(old(mem), mem, src, points);
      Call(p, false);
    }

    /** The final pass: its arguments, and the call. */
    method LastStep(p: Kernel<F>, src: int, dst: int, k: int, l1: int)
      requires IsKernel(p) && low <= SP
      requires Buffer(src, SP + 48) && Buffer(dst, SP + 48) && Apart(src, 16 * points, dst, 16 * points)
      modifies `mem, `AX, `BX
      ensures Words(mem, dst, points) == p(Words(old(mem), src, points), 0, k, 1, l1)
      ensures OnlyChanged(old(mem), mem, dst, 16 * points, low, SP + 48)
    {
      hide Words, IsKernel;
      LastArgs(src, dst, k, l1);
      WordsSame(old(mem), mem, src, points);
      Call(p, true);
    }

    /** A step that writes a buffer apart from the arguments leaves them. */
    lemma ArgumentsKept(m: Memory<F>, n: Memory<F>, buffer: int, top: int, args: int)
      requires OnlyChanged(m, n, buffer, 16 * points, low, top) && top <= FP && Apart(buffer, 16 * points, FP, 8 * args)
      ensures forall i :: 0 <= i < args ==> ArgIn(n, i) == ArgIn(m, i)
    {
    }

    /** Three steps, one after the other. */
    lemma StepsChange(m: Memory<F>, n: Memory<F>, o: Memory<F>, p: Memory<F>, b0: int, b1: int, b2: int, x: int, ch: int, top: int)
      requires OnlyChanged(m, n, b0, 16 * points, low, top) && OnlyChanged(n, o, b1, 16 * points, low, top)
      requires OnlyChanged(o, p, b2, 16 * points, low, top)
      requires b2 == ch && low <= b1 && b1 + 16 * points <= top
      requires if x == 0 then low <= b0 && b0 + 16 * points <= top else b0 == x
      ensures ChangedThree(m, p, ch, x, top)
    {
    }

    /** Only ch, x and the stack below `top` differ. */
    ghost predicate ChangedThree(m: Memory<F>, n: Memory<F>, ch: int, x: int, top: int) {
      forall b :: !(ch <= b < ch + 16 * points || (x != 0 && x <= b < x + 16 * points) || low <= b < top) ==> n(b) == m(b)
    }

    lemma Widen(m: Memory<F>, n: Memory<F>, buffer: int, top: int, wider: int)
      requires OnlyChanged(m, n, buffer, 16 * points, low, top) && top <= wider
      ensures OnlyChanged(m, n, buffer, 16 * points, low, wider)
    {
    }

    // -------------------------------------------------------- two passes

    /** What the caller of the two-pass trampoline must provide. */
    ghost predicate TwoReady(max: nat, cc: int, ch: int)
      reads `mem
    {
      && points <= max && low <= SP && FP >= SP + TwoFrame(max) && Arguments(mem, 9)
      && Arg(0) == cc && Arg(1) == ch
      && Outside(cc, 9) && Outside(ch, 9)
    }

    /** name(cc, ch, tw, k0, k1, ido, l1, pass, last): ch may be cc. */
    method TwoPass(max: nat, pass: Kernel<F>, last: Kernel<F>, ghost cc: int, ghost ch: int)
      requires TwoReady(max, cc, ch) && IsKernel(pass) && IsKernel(last)
      modifies `mem, `AX, `BX
      ensures Words(mem, ch, points) ==
        last(pass(Words(old(mem), cc, points), old(Arg(2)), old(Arg(3)), old(Arg(5)), 1), 0, old(Arg(4)), 1, old(Arg(6)))
      ensures ChangedThree(old(mem), mem, ch, 0, SP + TwoFrame(max))
    {
      TwoPlacement(SP, max);
      ghost var m0, B, end := mem, Down64(SP + 111), SP + TwoFrame(max);
      assert Apart(cc, 16 * points, B, 16 * points) && Apart(B, 16 * points, ch, 16 * points) && Apart(B, 16 * points, FP, 72);
      assert Buffer(cc, SP + 48) && Buffer(ch, SP + 48) && Buffer(B, SP + 48) && low <= B && B + 16 * points <= end;
      hide Down64, TwoFrame, Words, IsKernel, OnlyChanged, ChangedThree, ArgIn, Apart, Buffer;
      PassStep(pass, Arg(0), Down64(SP + 111), Arg(2), Arg(3), Arg(5), 1);
      ghost var m1 := mem;
      ArgumentsKept(m0, m1, B, SP + 48, 9);
      LastStep(last, Down64(SP + 111), Arg(1), Arg(4), Arg(6));
      Widen(m0, m1, B, SP + 48, end);
      Widen(m1, mem, ch, SP + 48, end);
      NothingChanges(m1, B, end);
      StepsChange(m0, m1, m1, mem, B, B, ch, 0, ch, end);
    }

    lemma NothingChanges(m: Memory<F>, buffer: int, top: int)
      ensures OnlyChanged(m, m, buffer, 16 * points, low, top)
    {
    }

    // -------------------------------------------------------- three passes

    /** What the caller of the three-pass trampoline must provide: x is nil, or a buffer apart
        from cc (ch, when ch is apart from cc). */
    ghost predicate ThreeReady(max: nat, cc: int, ch: int, x: int)
      reads `mem
    {
      && points <= max && low <= SP && FP >= SP + ThreeFrame(max) && Arguments(mem, 15)
      && Arg(0) == cc && Arg(1) == ch && Arg(2) == x
      && Outside(cc, 15) && Outside(ch, 15)
      && (x == 0 || (Outside(x, 15) && Apart(cc, 16 * points, x, 16 * points)))
    }

    /** Where pass 0 writes: x, or the second buffer of the frame when x is nil. */
    function Middle(max: nat, x: int): int {
      if x == 0 then Down64(SP + 119) + 16 * max else x
    }

    /** Pass 0: (cc, x, tw0, k0, ido0, 1), x kept at 48(SP). */
    method FirstOfThree(max: nat, p0: Kernel<F>, ghost cc: int, ghost ch: int, ghost x: int)
      requires ThreeReady(max, cc, ch, x) && IsKernel(p0)
      modifies `mem, `AX, `BX
      ensures At(SP + 48) == Middle(max, x)
      ensures Words(mem, Middle(max, x), points) == p0(Words(old(mem), cc, points), old(Arg(3)), old(Arg(5)), old(Arg(8)), 1)
      ensures OnlyChanged(old(mem), mem, Middle(max, x), 16 * points, low, SP + 56)
    {
      ThreeLayout(max, cc, ch, x);
      ghost var m0, z := mem, Middle(max, x);
      AX := Arg(2);
      if AX == 0 {
        AX := Down64(SP + 119) + 16 * max;
      }
      assert AX == z;
      hide Words, IsKernel, Down64, ThreeFrame, Middle, Apart, OnlyChanged, Outside;
      Put(SP + 48, AX);
      WordsSame(m0, mem, cc, points);
      ghost var m1 := mem;
      ArgumentsAbove(m0, m1);
      PassStep(p0, Arg(0), AX, Arg(3), Arg(5), Arg(8), 1);
      PutThenStep(m0, m1, mem, z);
    }

    lemma PutThenStep(m: Memory<F>, n: Memory<F>, o: Memory<F>, z: int)
      requires forall b :: b != SP + 48 ==> n(b) == m(b)
      requires OnlyChanged(n, o, z, 16 * points, low, SP + 48) && Buffer(z, SP + 56) && low <= SP
      ensures OnlyChanged(m, o, z, 16 * points, low, SP + 56) && o(SP + 48) == n(SP + 48)
    {
    }

    /** Where the buffers of the three passes lie. */
    lemma ThreeLayout(max: nat, cc: int, ch: int, x: int)
      requires ThreeReady(max, cc, ch, x)
      ensures var z, B, end := Middle(max, x), Down64(SP + 119), SP + ThreeFrame(max);
        && Apart(cc, 16 * points, z, 16 * points) && Apart(z, 16 * points, B, 16 * points)
        && Apart(B, 16 * points, ch, 16 * points)
        && Apart(z, 16 * points, FP, 120) && Apart(B, 16 * points, FP, 120)
        && Buffer(cc, SP + 56) && Buffer(z, SP + 56) && Buffer(B, SP + 56) && Buffer(ch, SP + 56)
        && low <= B && B + 16 * points <= end && SP + 56 <= end <= FP
        && (if x == 0 then low <= z && z + 16 * points <= end else z == x)
    {
      ThreePlacement(SP, max);
      hide Down64, ThreeFrame;
    }

    lemma BufferBelow(a: int, top: int, lower: int)
      requires Buffer(a, top) && lower <= top
      ensures Buffer(a, lower)
    {
    }

    lemma ArgumentsAbove(m: Memory<F>, n: Memory<F>)
      requires forall b :: b >= SP + 56 ==> n(b) == m(b)
      requires SP + 56 <= FP
      ensures forall i :: 0 <= i ==> ArgIn(n, i) == ArgIn(m, i)
    {
    }

    /** Only two buffers and the stack below `top` differ. */
    ghost predicate ChangedTwo(m: Memory<F>, n: Memory<F>, b: int, ch: int, top: int) {
      forall a :: !(b <= a < b + 16 * points) && !(ch <= a < ch + 16 * points) && !(low <= a < top) ==> n(a) == m(a)
    }

    lemma ThenChanged(m: Memory<F>, n: Memory<F>, o: Memory<F>, b: int, ch: int, top: int)
      requires OnlyChanged(m, n, b, 16 * points, low, top) && OnlyChanged(n, o, ch, 16 * points, low, top)
      ensures ChangedTwo(m, o, b, ch, top)
    {
    }

    lemma AllChanged(m: Memory<F>, n: Memory<F>, o: Memory<F>, z: int, b: int, ch: int, x: int, end: int)
      requires OnlyChanged(m, n, z, 16 * points, low, SP + 56) && ChangedTwo(n, o, b, ch, SP + 48)
      requires low <= b && b + 16 * points <= end && SP + 56 <= end
      requires if x == 0 then low <= z && z + 16 * points <= end else z == x
      ensures ChangedThree(m, o, ch, x, end)
    {
    }

    /** The buffers of passes 1 and 2: from z through B to ch. */
    ghost predicate RestReady(z: int, B: int, ch: int) {
      && low <= SP && SP + 48 <= FP
      && Buffer(z, SP + 48) && Buffer(B, SP + 48) && Buffer(ch, SP + 48)
      && Apart(z, 16 * points, B, 16 * points) && Apart(B, 16 * points, ch, 16 * points) && Apart(B, 16 * points, FP, 120)
    }

    /** Passes 1 and 2: (x, B, tw1, k1, ido1, l1b) and (B, ch, k2, l1c). */
    method RestOfThree(p1: Kernel<F>, p2: Kernel<F>, ghost z: int, ghost ch: int)
      requires IsKernel(p1) && IsKernel(p2) && At(SP + 48) == z && Arg(1) == ch && RestReady(z, Down64(SP + 119), ch)
      modifies `mem, `AX, `BX
      ensures Words(mem, ch, points) ==
        p2(p1(Words(old(mem), z, points), old(Arg(4)), old(Arg(6)), old(Arg(9)), old(Arg(10))), 0, old(Arg(7)), 1, old(Arg(11)))
      ensures ChangedTwo(old(mem), mem, Down64(SP + 119), ch, SP + 48)
    {
      hide Down64, Words, IsKernel, OnlyChanged, ChangedTwo, ArgIn, Apart, Buffer;
      ghost var m1, B := mem, Down64(SP + 119);
      PassStep(p1, At(SP + 48), Down64(SP + 119), Arg(4), Arg(6), Arg(9), Arg(10));
      ghost var m2 := mem;
      ArgumentsKept(m1, m2, B, SP + 48, 15);
      LastStep(p2, Down64(SP + 119), Arg(1), Arg(7), Arg(11));
      ThenChanged(m1, m2, mem, B, ch, SP + 48);
    }

    lemma RestIsReady(max: nat, cc: int, ch: int, x: int)
      requires ThreeReady(max, cc, ch, x)
      ensures RestReady(Middle(max, x), Down64(SP + 119), ch)
    {
      ThreeLayout(max, cc, ch, x);
      var z, B := Middle(max, x), Down64(SP + 119);
      hide Down64, ThreeFrame, Middle, Apart;
      BufferBelow(z, SP + 56, SP + 48);
      BufferBelow(B, SP + 56, SP + 48);
      BufferBelow(ch, SP + 56, SP + 48);
    }

    /** name(cc, ch, x, tw0, tw1, k0, k1, k2, ido0, ido1, l1b, l1c, p0, p1, p2). */
    method ThreePass(max: nat, p0: Kernel<F>, p1: Kernel<F>, p2: Kernel<F>, ghost cc: int, ghost ch: int, ghost x: int)
      requires ThreeReady(max, cc, ch, x) && IsKernel(p0) && IsKernel(p1) && IsKernel(p2)
      modifies `mem, `AX, `BX
      ensures Words(mem, ch, points) ==
        p2(p1(p0(Words(old(mem), cc, points), old(Arg(3)), old(Arg(5)), old(Arg(8)), 1),
              old(Arg(4)), old(Arg(6)), old(Arg(9)), old(Arg(10))),
           0, old(Arg(7)), 1, old(Arg(11)))
      ensures ChangedThree(old(mem), mem, ch, x, SP + ThreeFrame(max))
    {
      hide Down64, ThreeFrame, Words, IsKernel, OnlyChanged, ChangedTwo, ChangedThree, Middle, ArgIn, Apart, Buffer, Outside, RestReady;
      ThreeLayout(max, cc, ch, x);
      RestIsReady(max, cc, ch, x);
      ghost var m0, z, B, end := mem, Middle(max, x), Down64(SP + 119), SP + ThreeFrame(max);
      FirstOfThree(max, p0, cc, ch, x);
      ghost var m1 := mem;
      ArgumentsKept(m0, m1, z, SP + 56, 15);
      RestOfThree(p1, p2, z, ch);
      AllChanged(m0, m1, mem, z, B, ch, x, end);
    }
  }
}
