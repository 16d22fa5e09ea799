/** The hexadecimal kernels: sixteen bytes to thirty-two characters, and sixteen characters to
    eight bytes. */
module Hex {
  import opened Modular
  import opened Simd
  import opened Base64Decode

  // ------------------------------------------------------------ the encoding

  function Digit(x: int): Byte
    requires 0 <= x < 16
  {
    if x < 10 then '0' as int + x else 'a' as int + x - 10
  }

  function HexAt(b: Byte, half: int): Byte {
    Digit(if half == 0 then b / 16 else b % 16)
  }

  function HexString(s: seq<Byte>): (h: seq<Byte>)
    ensures |h| == 2 * |s|
  {
    seq(2 * |s|, o requires 0 <= o < 2 * |s| => HexAt(s[o / 2], o % 2))
  }

  const LUT: V128 := [48, 49, 50, 51, 52, 53, 54, 55, 56, 57, 97, 98, 99, 100, 101, 102]
  const SHUFFLE_LOW: seq<int> := [0, 16, 1, 17, 2, 18, 3, 19, 4, 20, 5, 21, 6, 22, 7, 23]
  const SHUFFLE_HIGH: seq<int> := [8, 24, 9, 25, 10, 26, 11, 27, 12, 28, 13, 29, 14, 30, 15, 31]

  function HighChars(v: V128): V128 {
    Swizzle(LUT, And(ShrU(v, 16), Splat(0x0f)))
  }

  function LowChars(v: V128): V128 {
    Swizzle(LUT, And(v, Splat(0x0f)))
  }

  function FirstHalf(v: V128): V128 {
    Shuffle(HighChars(v), LowChars(v), SHUFFLE_LOW)
  }

  function SecondHalf(v: V128): V128 {
    Shuffle(HighChars(v), LowChars(v), SHUFFLE_HIGH)
  }

  lemma LutDigit(x: Byte)
    requires x < 16
    ensures LUT[x] == Digit(x)
  {
    if x < 4 {
    } else if x < 8 {
    } else if x < 12 {
    } else {
    }
  }

  lemma SwizzleLut(idx: V128, l: int, x: Byte)
    requires 0 <= l < 16 && idx[l] == x && x < 16
    ensures Swizzle(LUT, idx)[l] == Digit(x)
  {
    LutDigit(x);
    hide Digit;
  }

  lemma HighNibble(v: V128, l: int)
    requires 0 <= l < 16
    ensures And(ShrU(v, 16), Splat(0x0f))[l] == v[l] / 16
  {
    hide And, ShrU, Splat, And8, Shl, Times8;
    ShiftLanes(v, l);
    MaskedNibble(ShrU(v, 16), l);
  }

  lemma MaskedNibble(v: V128, l: int)
    requires 0 <= l < 16
    ensures And(v, Splat(0x0f))[l] == v[l] % 16
  {
    hide And, Splat, And8;
    SplatLane(0x0f, l);
    ByteLanes(v, Splat(0x0f), l);
    LowBits(v[l]);
  }

  lemma NibbleChars(v: V128, l: int)
    requires 0 <= l < 16
    ensures HighChars(v)[l] == Digit(v[l] / 16) && LowChars(v)[l] == Digit(v[l] % 16)
  {
    HighNibble(v, l);
    MaskedNibble(v, l);
    hide And, ShrU, Splat, Digit, Swizzle;
    SwizzleLut(And(ShrU(v, 16), Splat(0x0f)), l, v[l] / 16);
    SwizzleLut(And(v, Splat(0x0f)), l, v[l] % 16);
  }

  lemma HalvesInterleave(h: V128, w: V128, j: int)
    requires 0 <= j < 8
    ensures Shuffle(h, w, SHUFFLE_LOW)[2 * j] == h[j] && Shuffle(h, w, SHUFFLE_LOW)[2 * j + 1] == w[j]
    ensures Shuffle(h, w, SHUFFLE_HIGH)[2 * j] == h[8 + j] && Shuffle(h, w, SHUFFLE_HIGH)[2 * j + 1] == w[8 + j]
  {
    if j < 4 {
    } else {
    }
  }

  lemma HexOfHalf(v: V128, o: int)
    requires 0 <= o < 16
    ensures FirstHalf(v)[o] == HexAt(v[o / 2], o % 2) && SecondHalf(v)[o] == HexAt(v[8 + o / 2], o % 2)
  {
    var j := o / 2;
    HalvesInterleave(HighChars(v), LowChars(v), j);
    NibbleChars(v, j);
    NibbleChars(v, 8 + j);
    hide HighChars, LowChars, Digit, Shuffle;
    assert o == 2 * j || o == 2 * j + 1;
  }

  lemma HexOfBlock(v: V128)
    ensures HexString(v) == FirstHalf(v) + SecondHalf(v)
  {
    hide FirstHalf, SecondHalf, HexAt;
    forall o | 0 <= o < 32 ensures HexString(v)[o] == (FirstHalf(v) + SecondHalf(v))[o] {
      if o < 16 {
        HexOfHalf(v, o);
      } else {
        HexOfHalf(v, o - 16);
        assert o / 2 == 8 + (o - 16) / 2 && o % 2 == (o - 16) % 2;
      }
    }
  }

  lemma HexConcat(s: seq<Byte>, t: seq<Byte>)
    ensures HexString(s + t) == HexString(s) + HexString(t)
  {
    hide HexAt;
    forall o | 0 <= o < 2 * (|s| + |t|) ensures HexString(s + t)[o] == (HexString(s) + HexString(t))[o] {
      if o >= 2 * |s| {
        assert (o - 2 * |s|) / 2 == o / 2 - |s| && (o - 2 * |s|) % 2 == o % 2;
      }
    }
  }

  lemma HexNext(src: seq<Byte>, i: nat, v: V128)
    requires 16 * i + 16 <= |src| && v == src[16 * i..16 * i + 16]
    ensures HexString(src[..16 * (i + 1)]) == HexString(src[..16 * i]) + FirstHalf(v) + SecondHalf(v)
  {
    hide HexString, FirstHalf, SecondHalf;
    var k := 16 * i;
    TakeMore(src, k, 16);
    HexConcat(src[..k], v);
    HexOfBlock(v);
  }

  /** The first i blocks are encoded. */
  ghost predicate HexSoFar(before: seq<Byte>, m: seq<Byte>, srcPtr: nat, dst: nat, n: nat, i: nat) {
    && i <= n && srcPtr + 16 * n <= |before| && dst + 32 * n <= |before|
    && OnlyWrote(before, m, dst, 32 * n) && Bytes(m, dst, 32 * i) == HexString(Bytes(before, srcPtr, 16 * n)[..16 * i])
  }

  lemma HexStart(before: seq<Byte>, srcPtr: nat, dst: nat, n: nat)
    requires srcPtr + 16 * n <= |before| && dst + 32 * n <= |before|
    ensures HexSoFar(before, before, srcPtr, dst, n, 0)
  {
  }

  lemma HexStep(before: seq<Byte>, m0: seq<Byte>, m1: seq<Byte>, m2: seq<Byte>, srcPtr: nat, dst: nat, n: nat, i: nat, from: nat, to: nat)
    requires i < n && HexSoFar(before, m0, srcPtr, dst, n, i) && Disjoint(srcPtr, 16 * n, dst, 32 * n)
    requires from == srcPtr + 16 * i && to == dst + 32 * i && from + 16 <= |m0|
    requires Written(m0, m1, to, FirstHalf(Slice16(m0, from))) && Written(m1, m2, to + 16, SecondHalf(Slice16(m0, from)))
    ensures HexSoFar(before, m2, srcPtr, dst, n, i + 1)
  {
    hide HexString, FirstHalf, SecondHalf, Written, OnlyWrote, Bytes, Slice16, Disjoint;
    var v, src := Slice16(m0, from), Bytes(before, srcPtr, 16 * n);
    var a, b := FirstHalf(v), SecondHalf(v);
    InputKept(before, m0, srcPtr, 16 * n, dst, 32 * n, 16 * i, from, 16);
    assert v[..16] == v && a[..16] == a && b[..16] == b;
    WroteMore(before, m0, m1, dst, 32 * n, to, a);
    WroteMore(before, m1, m2, dst, 32 * n, to + 16, b);
    OutputGrows(m0, m1, dst, 32 * i, a, 16);
    OutputGrows(m1, m2, dst, 32 * i + 16, b, 16);
    HexNext(src, i, v);
    assert 32 * i + 32 == 32 * (i + 1);
  }

  /** The n blocks at dst spell those at src, and nothing else has changed. */
  ghost predicate Encodes(before: seq<Byte>, after: seq<Byte>, src: nat, dst: nat, n: nat)
    requires src + 16 * n <= |before| == |after| && dst + 32 * n <= |after|
  {
    Bytes(after, dst, 32 * n) == HexString(Bytes(before, src, 16 * n)) && OnlyWrote(before, after, dst, 32 * n)
  }

  lemma HexEnd(before: seq<Byte>, m: seq<Byte>, srcPtr: nat, dst: nat, n: nat)
    requires HexSoFar(before, m, srcPtr, dst, n, n)
    ensures |m| == |before| && Encodes(before, m, srcPtr, dst, n)
  {
    assert Bytes(before, srcPtr, 16 * n)[..16 * n] == Bytes(before, srcPtr, 16 * n);
    hide HexString, Bytes;
  }

  method EncodeOne(mem: array<Byte>, dstPtr: nat, srcPtr: nat, i: nat, ghost n: nat, ghost before: seq<Byte>)
    requires mem.Length <= TWO32 && i < n && 32 * n < TWO32 && srcPtr + 16 * n <= mem.Length && dstPtr + 32 * n <= mem.Length
    requires Disjoint(srcPtr, 16 * n, dstPtr, 32 * n) && HexSoFar(before, mem[..], srcPtr, dstPtr, n, i)
    modifies mem
    ensures HexSoFar(before, mem[..], srcPtr, dstPtr, n, i + 1)
  {
    hide *;
    ghost var m0 := mem[..];
    BlockAddress(srcPtr, 16, i, n, mem.Length);
    BlockAddress(dstPtr, 32, i, n, mem.Length);
    var from, to := Wrap(srcPtr + Wrap(i * 16)), Wrap(dstPtr + Wrap(i * 32));
    LoadIs(mem, from);
    var bytes := Load(mem, from);
    Store(mem, to, FirstHalf(bytes));
    ghost var m1 := mem[..];
    Store(mem, to + 16, SecondHalf(bytes));
    HexStep(before, m0, m1, mem[..], srcPtr, dstPtr, n, i, from, to);
  }

  /** hex_encode(dstPtr, srcPtr, nBlocks). */
  method Encode(mem: array<Byte>, dstPtr: nat, srcPtr: nat, nBlocks: nat)
    requires mem.Length <= TWO32 && nBlocks < TWO32 && 32 * Count(nBlocks) < TWO32
    requires srcPtr + 16 * Count(nBlocks) <= mem.Length && dstPtr + 32 * Count(nBlocks) <= mem.Length
    requires Disjoint(srcPtr, 16 * Count(nBlocks), dstPtr, 32 * Count(nBlocks))
    modifies mem
    ensures Encodes(old(mem[..]), mem[..], srcPtr, dstPtr, Count(nBlocks))
  {
    ghost var before, n := mem[..], Count(nBlocks);
    var i := 0;
    HexStart(before, srcPtr, dstPtr, n);
    CountsUp(0, nBlocks);
    hide HexSoFar, HexString, Bytes, OnlyWrote, Signed, Count, Disjoint, Wrap;
    while Signed(i) < Signed(nBlocks)
      invariant i <= n && (Signed(i) < Signed(nBlocks) <==> i < n)
      invariant HexSoFar(before, mem[..], srcPtr, dstPtr, n, i)
      decreases n - i
    {
      EncodeOne(mem, dstPtr, srcPtr, i, n, before);
      SmallWrap(i + 1);
      i := Wrap(i + 1);
      CountsUp(i, nBlocks);
    }
    HexEnd(before, mem[..], srcPtr, dstPtr, n);
  }

  // ------------------------------------------------------------ the decoding

  predicate IsHex(c: Byte) {
    IsDigit(c) || 'A' as int <= c <= 'F' as int || 'a' as int <= c <= 'f' as int
  }

  /** The value of a digit of either case; another character stands for itself. */
  function Nibble(c: Byte): Byte {
    if IsDigit(c) then c - 48
    else if 'A' as int <= c <= 'F' as int then c - 55
    else if 'a' as int <= c <= 'f' as int then c - 87
    else c
  }

  function ByteOf(high: Byte, low: Byte): Byte {
    Or8(Times8(Nibble(high), 16), Nibble(low))
  }

  function HexDecoded(s: seq<Byte>): (d: seq<Byte>)
    requires |s| % 2 == 0
    ensures |d| == |s| / 2
  {
    seq(|s| / 2, o requires 0 <= o < |s| / 2 => ByteOf(s[2 * o], s[2 * o + 1]))
  }

  function Offset(v: V128): V128 {
    Or(Or(And(InRange(v, 48, 57), Splat(48)), And(InRange(v, 65, 70), Splat(55))), And(InRange(v, 97, 102), Splat(87)))
  }

  function Nibbles(v: V128): V128 {
    Sub(v, Offset(v))
  }

  const EVENS: seq<int> := [0, 2, 4, 6, 8, 10, 12, 14, 0, 0, 0, 0, 0, 0, 0, 0]
  const ODDS: seq<int> := [1, 3, 5, 7, 9, 11, 13, 15, 0, 0, 0, 0, 0, 0, 0, 0]

  function Joined(n: V128): V128 {
    Or(Shl(Shuffle(n, n, EVENS), 16), Shuffle(n, n, ODDS))
  }

  function DecodeBlock(v: V128): V128 {
    Joined(Nibbles(v))
  }

  function OffsetOf(c: Byte): Byte {
    if IsDigit(c) then 48 else if 65 <= c <= 70 then 55 else if 97 <= c <= 102 then 87 else 0
  }

  lemma OffsetLane(v: V128, l: int)
    requires 0 <= l < 16
    ensures Offset(v)[l] == OffsetOf(v[l])
  {
    hide InRange, Splat, And, Or, Mask;
    var c := v[l];
    InRangeLane(v, 48, 57, l);
    InRangeLane(v, 65, 70, l);
    InRangeLane(v, 97, 102, l);
    var a0, a1, a2 := And(InRange(v, 48, 57), Splat(48)), And(InRange(v, 65, 70), Splat(55)), And(InRange(v, 97, 102), Splat(87));
    MaskedOffset(InRange(v, 48, 57), 48, IsDigit(c), l);
    MaskedOffset(InRange(v, 65, 70), 55, 65 <= c <= 70, l);
    MaskedOffset(InRange(v, 97, 102), 87, 97 <= c <= 102, l);
    OrLanes(a0, a1, l, a0[l], a1[l]);
    var o1 := Or(a0, a1);
    OrLanes(o1, a2, l, o1[l], a2[l]);
  }

  lemma NibbleOf(c: Byte)
    ensures Minus8(c, OffsetOf(c)) == Nibble(c)
  {
  }

  lemma NibbleLane(v: V128, l: int)
    requires 0 <= l < 16
    ensures Nibbles(v)[l] == Nibble(v[l])
  {
    OffsetLane(v, l);
    ByteLanes(v, Offset(v), l);
    NibbleOf(v[l]);
    hide Offset, Sub, Minus8, OffsetOf, Nibble;
  }

  lemma PairLanes(n: V128, j: int)
    requires 0 <= j < 8
    ensures Shuffle(n, n, EVENS)[j] == n[2 * j] && Shuffle(n, n, ODDS)[j] == n[2 * j + 1]
  {
    if j < 4 {
    } else {
    }
  }

  lemma JoinedPair(n: V128, j: int, a: Byte, b: Byte)
    requires 0 <= j < 8 && n[2 * j] == a && n[2 * j + 1] == b
    ensures Joined(n)[j] == Or8(Times8(a, 16), b)
  {
    var e, o := Shuffle(n, n, EVENS), Shuffle(n, n, ODDS);
    PairLanes(n, j);
    hide Shuffle;
    ShiftLanes(e, j);
    hide Shl, Times8;
    ByteLanes(Shl(e, 16), o, j);
    hide Or, Or8;
  }

  lemma DecodedPair(v: V128, j: int)
    requires 0 <= j < 8
    ensures DecodeBlock(v)[j] == ByteOf(v[2 * j], v[2 * j + 1])
  {
    NibbleLane(v, 2 * j);
    NibbleLane(v, 2 * j + 1);
    hide Nibbles, Nibble, Or8, Joined, Times8;
    JoinedPair(Nibbles(v), j, Nibble(v[2 * j]), Nibble(v[2 * j + 1]));
  }

  lemma DecodedHalf(v: V128)
    ensures HexDecoded(v) == DecodeBlock(v)[..8]
  {
    hide DecodeBlock, ByteOf;
    forall j | 0 <= j < 8 ensures HexDecoded(v)[j] == DecodeBlock(v)[j] {
      DecodedPair(v, j);
    }
  }

  lemma DecodedConcat(s: seq<Byte>, t: seq<Byte>)
    requires |s| % 2 == 0 && |t| % 2 == 0
    ensures HexDecoded(s + t) == HexDecoded(s) + HexDecoded(t)
  {
    hide ByteOf;
    forall o | 0 <= o < (|s| + |t|) / 2 ensures HexDecoded(s + t)[o] == (HexDecoded(s) + HexDecoded(t))[o] {
      if o >= |s| / 2 {
        assert 2 * (o - |s| / 2) == 2 * o - |s|;
      }
    }
  }

  lemma DecodedNext(src: seq<Byte>, i: nat, v: V128)
    requires 16 * i + 16 <= |src| && v == src[16 * i..16 * i + 16]
    ensures HexDecoded(src[..16 * (i + 1)]) == HexDecoded(src[..16 * i]) + DecodeBlock(v)[..8]
  {
    hide HexDecoded, DecodeBlock;
    var k := 16 * i;
    TakeMore(src, k, 16);
    DecodedConcat(src[..k], v);
    DecodedHalf(v);
  }

  /** The first i blocks are decoded. */
  ghost predicate DecodedSoFar(before: seq<Byte>, m: seq<Byte>, srcPtr: nat, dst: nat, n: nat, i: nat) {
    && i <= n && srcPtr + 16 * n <= |before| && dst + 8 * n <= |before|
    && OnlyWrote(before, m, dst, 8 * n) && Bytes(m, dst, 8 * i) == HexDecoded(Bytes(before, srcPtr, 16 * n)[..16 * i])
  }

  lemma DecodedStart(before: seq<Byte>, srcPtr: nat, dst: nat, n: nat)
    requires srcPtr + 16 * n <= |before| && dst + 8 * n <= |before|
    ensures DecodedSoFar(before, before, srcPtr, dst, n, 0)
  {
  }

  lemma DecodedStep(before: seq<Byte>, m0: seq<Byte>, m1: seq<Byte>, srcPtr: nat, dst: nat, n: nat, i: nat, from: nat, to: nat)
    requires i < n && DecodedSoFar(before, m0, srcPtr, dst, n, i) && Disjoint(srcPtr, 16 * n, dst, 8 * n)
    requires from == srcPtr + 16 * i && to == dst + 8 * i && from + 16 <= |m0|
    requires Written(m0, m1, to, DecodeBlock(Slice16(m0, from))[..8])
    ensures DecodedSoFar(before, m1, srcPtr, dst, n, i + 1)
  {
    hide HexDecoded, DecodeBlock, Written, OnlyWrote, Bytes, Slice16, Disjoint;
    var v, src := Slice16(m0, from), Bytes(before, srcPtr, 16 * n);
    var d := DecodeBlock(v)[..8];
    InputKept(before, m0, srcPtr, 16 * n, dst, 8 * n, 16 * i, from, 16);
    assert v[..16] == v && d[..8] == d;
    WroteMore(before, m0, m1, dst, 8 * n, to, d);
    OutputGrows(m0, m1, dst, 8 * i, d, 8);
    DecodedNext(src, i, v);
    assert 8 * i + 8 == 8 * (i + 1);
  }

  lemma WholePairs(n: nat)
    ensures (16 * n) % 2 == 0
  {
    DivModUnique(2, 0, 8 * n);
  }

  /** The n blocks at dst are the bytes those at src spell, and nothing else has changed. */
  ghost predicate Decodes(before: seq<Byte>, after: seq<Byte>, src: nat, dst: nat, n: nat)
    requires src + 16 * n <= |before| == |after| && dst + 8 * n <= |after|
  {
    WholePairs(n);
    Bytes(after, dst, 8 * n) == HexDecoded(Bytes(before, src, 16 * n)) && OnlyWrote(before, after, dst, 8 * n)
  }

  lemma DecodedEnd(before: seq<Byte>, m: seq<Byte>, srcPtr: nat, dst: nat, n: nat)
    requires DecodedSoFar(before, m, srcPtr, dst, n, n)
    ensures |m| == |before| && Decodes(before, m, srcPtr, dst, n)
  {
    assert Bytes(before, srcPtr, 16 * n)[..16 * n] == Bytes(before, srcPtr, 16 * n);
    hide HexDecoded, Bytes;
  }

  method DecodeOne(mem: array<Byte>, dstPtr: nat, srcPtr: nat, i: nat, ghost n: nat, ghost before: seq<Byte>)
    requires mem.Length <= TWO32 && i < n && 16 * n < TWO32 && srcPtr + 16 * n <= mem.Length && dstPtr + 8 * n <= mem.Length
    requires Disjoint(srcPtr, 16 * n, dstPtr, 8 * n) && DecodedSoFar(before, mem[..], srcPtr, dstPtr, n, i)
    modifies mem
    ensures DecodedSoFar(before, mem[..], srcPtr, dstPtr, n, i + 1)
  {
    hide *;
    ghost var m0 := mem[..];
    BlockAddress(srcPtr, 16, i, n, mem.Length);
    BlockAddress(dstPtr, 8, i, n, mem.Length);
    var from, to := Wrap(srcPtr + Wrap(i * 16)), Wrap(dstPtr + Wrap(i * 8));
    LoadIs(mem, from);
    var chars := Load(mem, from);
    Store8(mem, to, DecodeBlock(chars));
    DecodedStep(before, m0, mem[..], srcPtr, dstPtr, n, i, from, to);
  }

  /** hex_decode(dstPtr, srcPtr, nBlocks). */
  method Decode(mem: array<Byte>, dstPtr: nat, srcPtr: nat, nBlocks: nat)
    requires mem.Length <= TWO32 && nBlocks < TWO32 && 16 * Count(nBlocks) < TWO32
    requires srcPtr + 16 * Count(nBlocks) <= mem.Length && dstPtr + 8 * Count(nBlocks) <= mem.Length
    requires Disjoint(srcPtr, 16 * Count(nBlocks), dstPtr, 8 * Count(nBlocks))
    modifies mem
    ensures Decodes(old(mem[..]), mem[..], srcPtr, dstPtr, Count(nBlocks))
  {
    ghost var before, n := mem[..], Count(nBlocks);
    var i := 0;
    DecodedStart(before, srcPtr, dstPtr, n);
    CountsUp(0, nBlocks);
    hide DecodedSoFar, HexDecoded, Bytes, OnlyWrote, Signed, Count, Disjoint, Wrap;
    while Signed(i) < Signed(nBlocks)
      invariant i <= n && (Signed(i) < Signed(nBlocks) <==> i < n)
      invariant DecodedSoFar(before, mem[..], srcPtr, dstPtr, n, i)
      decreases n - i
    {
      DecodeOne(mem, dstPtr, srcPtr, i, n, before);
      SmallWrap(i + 1);
      i := Wrap(i + 1);
      CountsUp(i, nBlocks);
    }
    DecodedEnd(before, mem[..], srcPtr, dstPtr, n);
  }

  // ------------------------------------------------------------ the round trips

  function ToUpper(c: Byte): Byte {
    if 97 <= c <= 102 then c - 32 else c
  }

  function ToLower(c: Byte): Byte {
    if 65 <= c <= 70 then c + 32 else c
  }

  lemma NibbleOfDigit(x: int)
    requires 0 <= x < 16
    ensures Nibble(Digit(x)) == x && Nibble(ToUpper(Digit(x))) == x && IsHex(Digit(x))
  {
  }

  lemma DigitOfNibble(c: Byte)
    requires IsHex(c)
    ensures Nibble(c) < 16 && Digit(Nibble(c)) == ToLower(c)
  {
  }

  lemma NibblesJoin(high: Byte, low: Byte)
    requires Nibble(high) < 16 && Nibble(low) < 16
    ensures ByteOf(high, low) == 16 * Nibble(high) + Nibble(low)
  {
    Pow8();
    hide Or8, Pow2, Nibble;
    OrBytes(Times8(Nibble(high), 16), Nibble(low), 4);
  }

  /** h writes the bytes of s in hex, each letter in either case. */
  predicate SpellsHex(h: seq<Byte>, s: seq<Byte>) {
    && |h| == 2 * |s|
    && forall o :: 0 <= o < |h| ==> h[o] == HexString(s)[o] || h[o] == ToUpper(HexString(s)[o])
  }

  lemma ByteBack(b: Byte, high: Byte, low: Byte)
    requires high == Digit(b / 16) || high == ToUpper(Digit(b / 16))
    requires low == Digit(b % 16) || low == ToUpper(Digit(b % 16))
    ensures ByteOf(high, low) == b
  {
    NibbleOfDigit(b / 16);
    NibbleOfDigit(b % 16);
    hide Digit, Nibble, ToUpper, ByteOf;
    NibblesJoin(high, low);
  }

  lemma HexPair(s: seq<Byte>, o: int)
    requires 0 <= o < |s|
    ensures HexString(s)[2 * o] == Digit(s[o] / 16) && HexString(s)[2 * o + 1] == Digit(s[o] % 16)
  {
    hide Digit;
    assert (2 * o) / 2 == o && (2 * o + 1) / 2 == o && (2 * o) % 2 == 0 && (2 * o + 1) % 2 == 1;
  }

  /** Decoding undoes encoding, whatever the case of each letter. */
  lemma DecodeEncode(h: seq<Byte>, s: seq<Byte>)
    requires SpellsHex(h, s)
    ensures HexDecoded(h) == s
  {
    hide Digit, ToUpper, HexString, ByteOf;
    forall o | 0 <= o < |s| ensures HexDecoded(h)[o] == s[o] {
      HexPair(s, o);
      ByteBack(s[o], h[2 * o], h[2 * o + 1]);
    }
  }

  lemma PairBack(high: Byte, low: Byte)
    requires IsHex(high) && IsHex(low)
    ensures Digit(ByteOf(high, low) / 16) == ToLower(high) && Digit(ByteOf(high, low) % 16) == ToLower(low)
  {
    hide Digit, Nibble, ToLower, ByteOf, IsHex;
    DigitOfNibble(high);
    DigitOfNibble(low);
    NibblesJoin(high, low);
  }

  /** Encoding what was decoded gives the digits back in lower case. */
  lemma EncodeDecode(h: seq<Byte>)
    requires |h| % 2 == 0 && forall o :: 0 <= o < |h| ==> IsHex(h[o])
    ensures HexString(HexDecoded(h)) == seq(|h|, o requires 0 <= o < |h| => ToLower(h[o]))
  {
    var d := HexDecoded(h);
    forall o | 0 <= o < |h| ensures HexString(d)[o] == ToLower(h[o]) {
      var j := o / 2;
      assert d[j] == ByteOf(h[2 * j], h[2 * j + 1]);
      hide Digit, Nibble, ToLower, ByteOf, IsHex, HexString, HexDecoded;
      HexPair(d, j);
      PairBack(h[2 * j], h[2 * j + 1]);
      assert o == 2 * j || o == 2 * j + 1;
    }
  }
}
