/** The base64 decoder: sixteen characters to twelve bytes, stored sixteen at a time. */
module Base64Decode {
  import opened Modular
  import opened Simd
  import opened Base64

  // ------------------------------------------------------------ the decoding

  predicate IsDigit(c: Byte) {
    '0' as int <= c <= '9' as int
  }

  predicate IsUpper(c: Byte) {
    'A' as int <= c <= 'Z' as int
  }

  predicate IsLower(c: Byte) {
    'a' as int <= c <= 'z' as int
  }

  predicate InAlphabet(c: Byte) {
    IsDigit(c) || IsUpper(c) || IsLower(c) || c == '+' as int || c == '/' as int
  }

  /** The value of a character; one outside the alphabet stands for itself. */
  function Value(c: Byte): Byte {
    if IsDigit(c) then c + 4
    else if IsUpper(c) then c - 65
    else if IsLower(c) then c - 71
    else if c == '+' as int then 62
    else if c == '/' as int then 63
    else c
  }

  /** Byte k of four values: the bits of value k above, those of value k + 1 below. */
  function Octet(i0: Byte, i1: Byte, i2: Byte, i3: Byte, k: int): Byte
    requires 0 <= k < 3
  {
    if k == 0 then Or8(Times8(i0, 4), i1 / 16)
    else if k == 1 then Or8(Times8(i1, 16), i2 / 4)
    else Or8(Times8(i2, 64), i3)
  }

  function DecodedAt(s: seq<Byte>, t: int, k: int): Byte
    requires 0 <= t < |s| / 4 && 0 <= k < 3
  {
    Octet(Value(s[4 * t]), Value(s[4 * t + 1]), Value(s[4 * t + 2]), Value(s[4 * t + 3]), k)
  }

  function Decoded(s: seq<Byte>): (d: seq<Byte>)
    requires |s| % 4 == 0
    ensures |d| == |s| / 4 * 3
  {
    seq(|s| / 4 * 3, o requires 0 <= o < |s| / 4 * 3 => DecodedAt(s, o / 3, o % 3))
  }

  // ------------------------------------------------------------ one block

  function InRange(v: V128, low: Byte, high: Byte): V128 {
    And(GeS(v, Splat(low)), LeS(v, Splat(high)))
  }

  function Offset(v: V128): V128 {
    Or(Or(Or(Or(And(InRange(v, 48, 57), Splat(252)), And(InRange(v, 65, 90), Splat(65))),
             And(InRange(v, 97, 122), Splat(71))), And(Eq(v, Splat(43)), Splat(237))), And(Eq(v, Splat(47)), Splat(240)))
  }

  function Values(v: V128): V128 {
    Sub(v, Offset(v))
  }

  const PAT_LEFT23: seq<int> := [0, 17, 0, 4, 21, 0, 8, 25, 0, 12, 29, 0, 0, 0, 0, 0]
  const PAT_LEFT6: seq<int> := [0, 1, 18, 3, 4, 22, 6, 7, 26, 9, 10, 30, 0, 0, 0, 0]
  const PAT_RIGHT24: seq<int> := [1, 18, 0, 5, 22, 0, 9, 26, 0, 13, 30, 0, 0, 0, 0, 0]
  const PAT_RIGHT0: seq<int> := [0, 1, 19, 3, 4, 23, 6, 7, 27, 9, 10, 31, 0, 0, 0, 0]

  function LeftHalf(shl2: V128, shl4: V128, shl6: V128): V128 {
    Shuffle(Shuffle(shl2, shl4, PAT_LEFT23), shl6, PAT_LEFT6)
  }

  function RightHalf(shr4: V128, shr2: V128, idx: V128): V128 {
    Shuffle(Shuffle(shr4, shr2, PAT_RIGHT24), idx, PAT_RIGHT0)
  }

  function Packed(idx: V128): V128 {
    Or(LeftHalf(Shl(idx, 4), Shl(idx, 16), Shl(idx, 64)), RightHalf(ShrU(idx, 16), ShrU(idx, 4), idx))
  }

  function DecodeBlock(v: V128): V128 {
    Packed(Values(v))
  }

  lemma InRangeLane(v: V128, low: Byte, high: Byte, l: int)
    requires 0 <= l < 16 && low < 128 && high < 128
    ensures InRange(v, low, high)[l] == Mask(low <= v[l] <= high)
  {
    ByteLanes(v, Splat(low), l);
    ByteLanes(v, Splat(high), l);
    ByteLanes(GeS(v, Splat(low)), LeS(v, Splat(high)), l);
    SplatLane(low, l);
    SplatLane(high, l);
    AndMasks(Signed8(v[l]) >= low, Signed8(v[l]) <= high);
    hide And, GeS, LeS, Splat, And8;
  }

  /** A masked offset. */
  lemma MaskedOffset(m: V128, off: Byte, c: bool, l: int)
    requires 0 <= l < 16 && m[l] == Mask(c)
    ensures And(m, Splat(off))[l] == if c then off else 0
  {
    ByteLanes(m, Splat(off), l);
    SplatLane(off, l);
    AndMask(c, off);
    hide And, Splat, And8;
  }

  /** Or of two lanes of which one is zero. */
  lemma OrLanes(a: V128, b: V128, l: int, x: Byte, y: Byte)
    requires 0 <= l < 16 && a[l] == x && b[l] == y && (x == 0 || y == 0)
    ensures Or(a, b)[l] == x + y
  {
    ByteLanes(a, b, l);
    OrWithZero(x, y);
    hide Or, Or8;
  }

  function OffsetOf(c: Byte): Byte {
    if IsDigit(c) then 252 else if IsUpper(c) then 65 else if IsLower(c) then 71
    else if c == 43 then 237 else if c == 47 then 240 else 0
  }

  lemma ValueOf(c: Byte)
    ensures Minus8(c, OffsetOf(c)) == Value(c)
  {
  }

  /** Or of five lanes of which at most one is not zero. */
  lemma OrOfFive(a0: V128, a1: V128, a2: V128, a3: V128, a4: V128, l: int, x0: Byte, x1: Byte, x2: Byte, x3: Byte, x4: Byte)
    requires 0 <= l < 16 && a0[l] == x0 && a1[l] == x1 && a2[l] == x2 && a3[l] == x3 && a4[l] == x4
    requires (x0 == 0 || x1 == 0) && (x0 + x1 == 0 || x2 == 0) && (x0 + x1 + x2 == 0 || x3 == 0) && (x0 + x1 + x2 + x3 == 0 || x4 == 0)
    ensures Or(Or(Or(Or(a0, a1), a2), a3), a4)[l] == x0 + x1 + x2 + x3 + x4
  {
    hide Or;
    OrLanes(a0, a1, l, x0, x1);
    OrLanes(Or(a0, a1), a2, l, x0 + x1, x2);
    OrLanes(Or(Or(a0, a1), a2), a3, l, x0 + x1 + x2, x3);
    OrLanes(Or(Or(Or(a0, a1), a2), a3), a4, l, x0 + x1 + x2 + x3, x4);
  }

  lemma EqLane(v: V128, x: Byte, l: int)
    requires 0 <= l < 16
    ensures Eq(v, Splat(x))[l] == Mask(v[l] == x)
  {
    hide Eq, Splat, Mask;
    ByteLanes(v, Splat(x), l);
    SplatLane(x, l);
  }

  lemma RangeOffset(v: V128, low: Byte, high: Byte, off: Byte, l: int)
    requires 0 <= l < 16 && low < 128 && high < 128
    ensures And(InRange(v, low, high), Splat(off))[l] == if low <= v[l] <= high then off else 0
  {
    hide InRange, Splat, And, Mask;
    InRangeLane(v, low, high, l);
    MaskedOffset(InRange(v, low, high), off, low <= v[l] <= high, l);
  }

  lemma CharOffset(v: V128, x: Byte, off: Byte, l: int)
    requires 0 <= l < 16
    ensures And(Eq(v, Splat(x)), Splat(off))[l] == if v[l] == x then off else 0
  {
    hide Eq, Splat, And, Mask;
    EqLane(v, x, l);
    MaskedOffset(Eq(v, Splat(x)), off, v[l] == x, l);
  }

  lemma OffsetLane(v: V128, l: int)
    requires 0 <= l < 16
    ensures Offset(v)[l] == OffsetOf(v[l])
  {
    hide InRange, Splat, And, Or, Eq;
    var c := v[l];
    RangeOffset(v, 48, 57, 252, l);
    RangeOffset(v, 65, 90, 65, l);
    RangeOffset(v, 97, 122, 71, l);
    CharOffset(v, 43, 237, l);
    CharOffset(v, 47, 240, l);
    OrOfFive(And(InRange(v, 48, 57), Splat(252)), And(InRange(v, 65, 90), Splat(65)), And(InRange(v, 97, 122), Splat(71)),
             And(Eq(v, Splat(43)), Splat(237)), And(Eq(v, Splat(47)), Splat(240)), l,
             if 48 <= c <= 57 then 252 else 0, if 65 <= c <= 90 then 65 else 0, if 97 <= c <= 122 then 71 else 0,
             if c == 43 then 237 else 0, if c == 47 then 240 else 0);
  }

  lemma ValueLane(v: V128, l: int)
    requires 0 <= l < 16
    ensures Values(v)[l] == Value(v[l])
  {
    OffsetLane(v, l);
    ByteLanes(v, Offset(v), l);
    ValueOf(v[l]);
    hide Offset, Sub, Minus8, OffsetOf, Value;
  }

  /** The three bytes of group g in the upper bits. */
  lemma LeftLanes(shl2: V128, shl4: V128, shl6: V128, g: int)
    requires 0 <= g < 4
    ensures var h := LeftHalf(shl2, shl4, shl6);
      h[3 * g] == shl2[4 * g] && h[3 * g + 1] == shl4[4 * g + 1] && h[3 * g + 2] == shl6[4 * g + 2]
  {
    if g == 0 {
    } else if g == 1 {
    } else if g == 2 {
    } else {
    }
  }

  /** And those in the lower bits. */
  lemma RightLanes(shr4: V128, shr2: V128, idx: V128, g: int)
    requires 0 <= g < 4
    ensures var h := RightHalf(shr4, shr2, idx);
      h[3 * g] == shr4[4 * g + 1] && h[3 * g + 1] == shr2[4 * g + 2] && h[3 * g + 2] == idx[4 * g + 3]
  {
    if g == 0 {
    } else if g == 1 {
    } else if g == 2 {
    } else {
    }
  }

  lemma ShiftLanes(a: V128, l: int)
    requires 0 <= l < 16
    ensures Shl(a, 4)[l] == Times8(a[l], 4) && Shl(a, 16)[l] == Times8(a[l], 16) && Shl(a, 64)[l] == Times8(a[l], 64)
    ensures ShrU(a, 4)[l] == a[l] / 4 && ShrU(a, 16)[l] == a[l] / 16
  {
  }

  /** Byte k of group g. */
  lemma PackedLane(idx: V128, g: int, k: int)
    requires 0 <= g < 4 && 0 <= k < 3
    ensures Packed(idx)[3 * g + k] == Octet(idx[4 * g], idx[4 * g + 1], idx[4 * g + 2], idx[4 * g + 3], k)
  {
    hide LeftHalf, RightHalf, Shl, ShrU, Or, Or8, Times8;
    var l, r := LeftHalf(Shl(idx, 4), Shl(idx, 16), Shl(idx, 64)), RightHalf(ShrU(idx, 16), ShrU(idx, 4), idx);
    LeftLanes(Shl(idx, 4), Shl(idx, 16), Shl(idx, 64), g);
    RightLanes(ShrU(idx, 16), ShrU(idx, 4), idx, g);
    ByteLanes(l, r, 3 * g + k);
    ShiftLanes(idx, 4 * g);
    ShiftLanes(idx, 4 * g + 1);
    ShiftLanes(idx, 4 * g + 2);
    if g == 0 {
    } else if g == 1 {
    } else if g == 2 {
    } else {
    }
  }

  lemma DecodedLane(v: V128, g: int, k: int)
    requires 0 <= g < 4 && 0 <= k < 3
    ensures DecodedAt(v, g, k) == DecodeBlock(v)[3 * g + k]
  {
    hide Values, Value, Packed, Octet;
    ValueLane(v, 4 * g);
    ValueLane(v, 4 * g + 1);
    ValueLane(v, 4 * g + 2);
    ValueLane(v, 4 * g + 3);
    PackedLane(Values(v), g, k);
  }

  lemma DecodedBlock(v: V128)
    ensures Decoded(v) == DecodeBlock(v)[..12]
  {
    hide DecodeBlock, DecodedAt;
    forall o | 0 <= o < 12 ensures Decoded(v)[o] == DecodeBlock(v)[o] {
      DecodedLane(v, o / 3, o % 3);
    }
  }

  // ------------------------------------------------------------ the decoder

  lemma DecodedConcat(s: seq<Byte>, t: seq<Byte>)
    requires |s| % 4 == 0 && |t| % 4 == 0
    ensures Decoded(s + t) == Decoded(s) + Decoded(t)
  {
    hide Value, Octet;
    var k := |s| / 4;
    forall o | 0 <= o < (|s| + |t|) / 4 * 3 ensures Decoded(s + t)[o] == (Decoded(s) + Decoded(t))[o] {
      if o >= 3 * k {
        assert (o - 3 * k) / 3 == o / 3 - k && (o - 3 * k) % 3 == o % 3;
        assert DecodedAt(s + t, o / 3, o % 3) == DecodedAt(t, o / 3 - k, o % 3);
      } else {
        assert DecodedAt(s + t, o / 3, o % 3) == DecodedAt(s, o / 3, o % 3);
      }
    }
  }

  lemma DecodedNext(src: seq<Byte>, i: nat, v: V128)
    requires 16 * i + 16 <= |src| && v == src[16 * i..16 * i + 16]
    ensures Decoded(src[..16 * (i + 1)]) == Decoded(src[..16 * i]) + DecodeBlock(v)[..12]
  {
    hide Decoded, DecodeBlock;
    var k := 16 * i;
    TakeMore(src, k, 16);
    DecodedConcat(src[..k], v);
    DecodedBlock(v);
  }

  /** The first i blocks are decoded, and nothing past the four bytes after the output is
      written. */
  ghost predicate DecodedSoFar(before: seq<Byte>, m: seq<Byte>, srcPtr: nat, dst: nat, n: nat, i: nat) {
    && i <= n && srcPtr + 16 * n <= |before| && dst + 12 * n + 4 <= |before|
    && OnlyWrote(before, m, dst, 12 * n + 4) && Bytes(m, dst, 12 * i) == Decoded(Bytes(before, srcPtr, 16 * n)[..16 * i])
  }

  lemma DecodedStart(before: seq<Byte>, srcPtr: nat, dst: nat, n: nat)
    requires srcPtr + 16 * n <= |before| && dst + 12 * n + 4 <= |before|
    ensures DecodedSoFar(before, before, srcPtr, dst, n, 0)
  {
  }

  lemma DecodedStep(before: seq<Byte>, m0: seq<Byte>, m1: seq<Byte>, srcPtr: nat, dst: nat, n: nat, i: nat, from: nat, to: nat)
    requires i < n && DecodedSoFar(before, m0, srcPtr, dst, n, i) && Disjoint(srcPtr, 16 * n, dst, 12 * n + 4)
    requires from == srcPtr + 16 * i && to == dst + 12 * i && from + 16 <= |m0|
    requires Written(m0, m1, to, DecodeBlock(Slice16(m0, from)))
    ensures DecodedSoFar(before, m1, srcPtr, dst, n, i + 1)
  {
    hide Decoded, DecodeBlock, Written, OnlyWrote, Bytes, Slice16, Disjoint;
    var v, d, src := Slice16(m0, from), DecodeBlock(Slice16(m0, from)), Bytes(before, srcPtr, 16 * n);
    InputKept(before, m0, srcPtr, 16 * n, dst, 12 * n + 4, 16 * i, from, 16);
    assert v[..16] == v;
    WroteMore(before, m0, m1, dst, 12 * n + 4, to, d);
    OutputGrows(m0, m1, dst, 12 * i, d, 12);
    DecodedNext(src, i, v);
    assert 12 * i + 12 == 12 * (i + 1);
  }

  lemma WholeQuads(n: nat)
    ensures (16 * n) % 4 == 0
  {
    DivModUnique(4, 0, 4 * n);
  }

  /** The n blocks at dst are the decoding of those at src; of the rest, only the four bytes past them
      may have changed. */
  ghost predicate Decodes(before: seq<Byte>, after: seq<Byte>, src: nat, dst: nat, n: nat)
    requires src + 16 * n <= |before| == |after| && dst + 12 * n <= |after|
  {
    WholeQuads(n);
    Bytes(after, dst, 12 * n) == Decoded(Bytes(before, src, 16 * n)) && OnlyWrote(before, after, dst, 12 * n + 4)
  }

  lemma DecodedEnd(before: seq<Byte>, m: seq<Byte>, srcPtr: nat, dst: nat, n: nat)
    requires DecodedSoFar(before, m, srcPtr, dst, n, n)
    ensures |m| == |before| && Decodes(before, m, srcPtr, dst, n)
  {
    assert Bytes(before, srcPtr, 16 * n)[..16 * n] == Bytes(before, srcPtr, 16 * n);
    hide Decoded, Bytes;
  }

  /** Block i: load, decode, store sixteen bytes of which the next block overwrites four. */
  method DecodeOne(mem: array<Byte>, dstPtr: nat, srcPtr: nat, i: nat, ghost n: nat, ghost before: seq<Byte>)
    requires mem.Length <= TWO32 && i < n && 16 * n < TWO32 && srcPtr + 16 * n <= mem.Length && dstPtr + 12 * n + 4 <= mem.Length
    requires Disjoint(srcPtr, 16 * n, dstPtr, 12 * n + 4) && DecodedSoFar(before, mem[..], srcPtr, dstPtr, n, i)
    modifies mem
    ensures DecodedSoFar(before, mem[..], srcPtr, dstPtr, n, i + 1)
  {
    hide *;
    ghost var m0 := mem[..];
    BlockAddress(srcPtr, 16, i, n, mem.Length);
    BlockAddress(dstPtr, 12, i, n, mem.Length);
    var from, to := Wrap(srcPtr + Wrap(i * 16)), Wrap(dstPtr + Wrap(i * 12));
    LoadIs(mem, from);
    var chars := Load(mem, from);
    Store(mem, to, DecodeBlock(chars));
    DecodedStep(before, m0, mem[..], srcPtr, dstPtr, n, i, from, to);
  }

  /** base64_decode(dstPtr, srcPtr, nBlocks). */
  method Decode(mem: array<Byte>, dstPtr: nat, srcPtr: nat, nBlocks: nat)
    requires mem.Length <= TWO32 && nBlocks < TWO32 && 16 * Count(nBlocks) < TWO32
    requires srcPtr + 16 * Count(nBlocks) <= mem.Length && dstPtr + 12 * Count(nBlocks) + 4 <= mem.Length
    requires Disjoint(srcPtr, 16 * Count(nBlocks), dstPtr, 12 * Count(nBlocks) + 4)
    modifies mem
    ensures Decodes(old(mem[..]), mem[..], srcPtr, dstPtr, Count(nBlocks))
  {
    ghost var before, n := mem[..], Count(nBlocks);
    var i := 0;
    DecodedStart(before, srcPtr, dstPtr, n);
    CountsUp(0, nBlocks);
    hide DecodedSoFar, Decoded, Bytes, OnlyWrote, Signed, Count, Disjoint, Wrap;
    while Signed(i) < Signed(nBlocks)
      invariant i <= n && (Signed(i) < Signed(nBlocks) <==> i < n)
      invariant DecodedSoFar(before, mem[..], srcPtr, dstPtr, n, i)
      decreases n - i
    {
      DecodeOne(mem, dstPtr, srcPtr, i, n, before);
      SmallWrap(i + 1);
      i := Wrap(i + 1);
      CountsUp(i, nBlocks);
    }
    DecodedEnd(before, mem[..], srcPtr, dstPtr, n);
  }

  // ------------------------------------------------------------ the round trips

  lemma ValueOfChar(x: int)
    requires 0 <= x < 64
    ensures Value(Char(x)) == x && InAlphabet(Char(x))
  {
  }

  lemma CharOfValue(c: Byte)
    requires InAlphabet(c)
    ensures Value(c) < 64 && Char(Value(c)) == c
  {
  }

  lemma Joined(x: Byte, shift: nat, y: Byte, k: nat)
    requires k <= 8 && shift == Pow2(k) && y < shift && Times8(x, shift) % shift == 0
    ensures Or8(Times8(x, shift), y) == Times8(x, shift) + y
  {
    hide Pow2, Or8, Times8;
    OrBytes(Times8(x, shift), y, k);
  }

  /** What a shift by two, four and six bits leaves of a byte. */
  lemma ShiftedTwo(x: Byte)
    ensures Times8(x, 4) == 4 * (x % 64)
  {
    DivModUnique(256, 4 * (x % 64), x / 64);
  }

  lemma ShiftedFour(x: Byte)
    ensures Times8(x, 16) == 16 * (x % 16)
  {
    DivModUnique(256, 16 * (x % 16), x / 16);
  }

  lemma ShiftedSix(x: Byte)
    ensures Times8(x, 64) == 64 * (x % 4)
  {
    DivModUnique(256, 64 * (x % 4), x / 4);
  }

  /** On six-bit values the merged bytes are sums. */
  lemma OctetIsSum(i0: Byte, i1: Byte, i2: Byte, i3: Byte)
    requires i0 < 64 && i1 < 64 && i2 < 64 && i3 < 64
    ensures Octet(i0, i1, i2, i3, 0) == 4 * i0 + i1 / 16
    ensures Octet(i0, i1, i2, i3, 1) == 16 * (i1 % 16) + i2 / 4
    ensures Octet(i0, i1, i2, i3, 2) == 64 * (i2 % 4) + i3
  {
    hide Or8, Times8;
    MergedTwo(i0, i1 / 16);
    MergedFour(i1, i2 / 4);
    MergedSix(i2, i3);
  }

  lemma MergedTwo(x: Byte, y: Byte)
    requires x < 64 && y < 4
    ensures Or8(Times8(x, 4), y) == 4 * x + y
  {
    hide Or8, Pow2, Times8;
    Pow8();
    ShiftedTwo(x);
    Joined(x, 4, y, 2);
  }

  lemma MergedFour(x: Byte, y: Byte)
    requires x < 64 && y < 16
    ensures Or8(Times8(x, 16), y) == 16 * (x % 16) + y
  {
    hide Or8, Pow2, Times8;
    Pow8();
    ShiftedFour(x);
    Joined(x, 16, y, 4);
  }

  lemma MergedSix(x: Byte, y: Byte)
    requires x < 64 && y < 64
    ensures Or8(Times8(x, 64), y) == 64 * (x % 4) + y
  {
    hide Or8, Pow2, Times8;
    Pow8();
    ShiftedSix(x);
    Joined(x, 64, y, 6);
  }

  lemma BytesOfSextets(b0: Byte, b1: Byte, b2: Byte)
    ensures var i0: Byte, i1: Byte, i2: Byte, i3: Byte := Sextet(b0, b1, b2, 0), Sextet(b0, b1, b2, 1), Sextet(b0, b1, b2, 2), Sextet(b0, b1, b2, 3);
      Octet(i0, i1, i2, i3, 0) == b0 && Octet(i0, i1, i2, i3, 1) == b1 && Octet(i0, i1, i2, i3, 2) == b2
  {
    OctetIsSum(Sextet(b0, b1, b2, 0), Sextet(b0, b1, b2, 1), Sextet(b0, b1, b2, 2), Sextet(b0, b1, b2, 3));
    hide Octet;
  }

  lemma SextetsOfBytes(i0: Byte, i1: Byte, i2: Byte, i3: Byte)
    requires i0 < 64 && i1 < 64 && i2 < 64 && i3 < 64
    ensures var b0, b1, b2 := Octet(i0, i1, i2, i3, 0), Octet(i0, i1, i2, i3, 1), Octet(i0, i1, i2, i3, 2);
      Sextet(b0, b1, b2, 0) == i0 && Sextet(b0, b1, b2, 1) == i1 && Sextet(b0, b1, b2, 2) == i2 && Sextet(b0, b1, b2, 3) == i3
  {
    OctetIsSum(i0, i1, i2, i3);
    hide Octet;
  }

  /** Three bytes through their four characters. */
  lemma TripletBack(b0: Byte, b1: Byte, b2: Byte, k: int)
    requires 0 <= k < 3
    ensures Octet(Value(Char(Sextet(b0, b1, b2, 0))), Value(Char(Sextet(b0, b1, b2, 1))), Value(Char(Sextet(b0, b1, b2, 2))),
                  Value(Char(Sextet(b0, b1, b2, 3))), k) == if k == 0 then b0 else if k == 1 then b1 else b2
  {
    hide Char, Sextet, Value, Octet;
    ValueOfChar(Sextet(b0, b1, b2, 0));
    ValueOfChar(Sextet(b0, b1, b2, 1));
    ValueOfChar(Sextet(b0, b1, b2, 2));
    ValueOfChar(Sextet(b0, b1, b2, 3));
    BytesOfSextets(b0, b1, b2);
  }

  /** Four characters through their three bytes. */
  lemma QuadBack(c0: Byte, c1: Byte, c2: Byte, c3: Byte, c: int)
    requires 0 <= c < 4 && InAlphabet(c0) && InAlphabet(c1) && InAlphabet(c2) && InAlphabet(c3)
    ensures var b0, b1, b2 := Octet(Value(c0), Value(c1), Value(c2), Value(c3), 0), Octet(Value(c0), Value(c1), Value(c2), Value(c3), 1),
                              Octet(Value(c0), Value(c1), Value(c2), Value(c3), 2);
      Char(Sextet(b0, b1, b2, c)) == if c == 0 then c0 else if c == 1 then c1 else if c == 2 then c2 else c3
  {
    hide Char, Sextet, Value, Octet, InAlphabet;
    CharOfValue(c0);
    CharOfValue(c1);
    CharOfValue(c2);
    CharOfValue(c3);
    SextetsOfBytes(Value(c0), Value(c1), Value(c2), Value(c3));
  }

  lemma EncodedByte(s: seq<Byte>, t: nat, c: int)
    requires |s| % 3 == 0 && t < |s| / 3 && 0 <= c < 4
    ensures Encoded(s)[4 * t + c] == EncodedAt(s, t, c)
  {
    hide EncodedAt;
    assert (4 * t + c) / 4 == t && (4 * t + c) % 4 == c;
  }

  lemma DecodedByte(s: seq<Byte>, t: nat, k: int)
    requires |s| % 4 == 0 && t < |s| / 4 && 0 <= k < 3
    ensures Decoded(s)[3 * t + k] == DecodedAt(s, t, k)
  {
    hide DecodedAt;
    assert (3 * t + k) / 3 == t && (3 * t + k) % 3 == k;
  }

  lemma DecodeTriplet(s: seq<Byte>, t: nat, k: int)
    requires |s| % 3 == 0 && t < |s| / 3 && 0 <= k < 3
    ensures DecodedAt(Encoded(s), t, k) == s[3 * t + k]
  {
    hide Char, Sextet, Value, Octet, Encoded;
    EncodedByte(s, t, 0);
    EncodedByte(s, t, 1);
    EncodedByte(s, t, 2);
    EncodedByte(s, t, 3);
    TripletBack(s[3 * t], s[3 * t + 1], s[3 * t + 2], k);
  }

  /** Decoding undoes encoding. */
  lemma DecodeEncode(s: seq<Byte>)
    requires |s| % 3 == 0
    ensures Decoded(Encoded(s)) == s
  {
    hide DecodedAt;
    forall o | 0 <= o < |s| ensures Decoded(Encoded(s))[o] == s[o] {
      DecodeTriplet(s, o / 3, o % 3);
    }
  }

  lemma EncodeQuad(s: seq<Byte>, t: nat, c: int)
    requires |s| % 4 == 0 && t < |s| / 4 && 0 <= c < 4
    requires InAlphabet(s[4 * t]) && InAlphabet(s[4 * t + 1]) && InAlphabet(s[4 * t + 2]) && InAlphabet(s[4 * t + 3])
    ensures EncodedAt(Decoded(s), t, c) == s[4 * t + c]
  {
    hide Char, Sextet, Value, Octet, Decoded, InAlphabet;
    DecodedByte(s, t, 0);
    DecodedByte(s, t, 1);
    DecodedByte(s, t, 2);
    QuadBack(s[4 * t], s[4 * t + 1], s[4 * t + 2], s[4 * t + 3], c);
  }

  /** And encoding undoes decoding, on strings over the alphabet. */
  lemma EncodeDecode(s: seq<Byte>)
    requires |s| % 4 == 0 && forall i :: 0 <= i < |s| ==> InAlphabet(s[i])
    ensures Encoded(Decoded(s)) == s
  {
    hide EncodedAt, InAlphabet;
    forall o | 0 <= o < |s| ensures Encoded(Decoded(s))[o] == s[o] {
      EncodeQuad(s, o / 4, o % 4);
    }
  }
}
