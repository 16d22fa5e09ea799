/** The base64 kernels: twelve bytes to sixteen characters and back (section 4 of RFC 4648). */
module Base64 {
  import opened Modular
  import opened Simd

  // ------------------------------------------------------------ the encoding

  /** The character of a six-bit value. */
  function Char(x: int): Byte
    requires 0 <= x < 64
  {
    if x < 26 then 'A' as int + x
    else if x < 52 then 'a' as int + x - 26
    else if x < 62 then '0' as int + x - 52
    else if x == 62 then '+' as int
    else '/' as int
  }

  /** The four six-bit values of three bytes, the first bits first. */
  function Sextet(b0: Byte, b1: Byte, b2: Byte, c: int): (x: int)
    requires 0 <= c < 4
    ensures 0 <= x < 64
  {
    if c == 0 then b0 / 4
    else if c == 1 then (b0 % 4) * 16 + b1 / 16
    else if c == 2 then (b1 % 16) * 4 + b2 / 64
    else b2 % 64
  }

  /** The base64 of whole triplets. */
  function Encoded(s: seq<Byte>): (e: seq<Byte>)
    requires |s| % 3 == 0
    ensures |e| == |s| / 3 * 4
  {
    seq(|s| / 3 * 4, o requires 0 <= o < |s| / 3 * 4 => EncodedAt(s, o / 4, o % 4))
  }

  function EncodedAt(s: seq<Byte>, t: int, c: int): Byte
    requires 0 <= t < |s| / 3 && 0 <= c < 4
  {
    Char(Sextet(s[3 * t], s[3 * t + 1], s[3 * t + 2], c))
  }

  // ------------------------------------------------------------ one block encoded

  const SHUF: seq<int> := [1, 0, 2, 1, 4, 3, 5, 4, 7, 6, 8, 7, 10, 9, 11, 10]

  /** Four copies of a u32's bytes. */
  function RepU32(b0: Byte, b1: Byte, b2: Byte, b3: Byte): (v: V128)
    ensures forall g :: 0 <= g < 4 ==> v[4 * g] == b0 && v[4 * g + 1] == b1 && v[4 * g + 2] == b2 && v[4 * g + 3] == b3
  {
    [b0, b1, b2, b3, b0, b1, b2, b3, b0, b1, b2, b3, b0, b1, b2, b3]
  }

  function Triplets(v: V128): V128 {
    Shuffle(v, v, SHUF)
  }

  /** The high halves of the u16 products: the first and third value of every triplet. */
  function HighRound(t: V128): V128 {
    var m, k := Lanes16(And(t, HIGH_MASK)), Lanes16(HIGH_FACTOR);
    Pack16(MulHigh16(m, k))
  }

  /** The low halves: the second and fourth. */
  function LowRound(t: V128): V128 {
    var m, k := Lanes16(And(t, LOW_MASK)), Lanes16(LOW_FACTOR);
    Pack16(Mul16(m, k))
  }

  function Indexes(v: V128): V128 {
    Or(HighRound(Triplets(v)), LowRound(Triplets(v)))
  }

  function Ascii(idx: V128): V128 {
    Add(Add(Add(Add(Add(idx, Splat(65)), And(GtU(idx, Splat(25)), Splat(6))), And(GtU(idx, Splat(51)), Splat(181))),
            And(Eq(idx, Splat(62)), Splat(241))), And(Eq(idx, Splat(63)), Splat(244)))
  }

  function EncodeBlock(v: V128): V128 {
    Ascii(Indexes(v))
  }

  /** One correction of the range-add: off where the comparison holds. */
  lemma AddMasked(acc: V128, cmp: V128, off: Byte, c: bool, l: int)
    requires 0 <= l < 16 && cmp[l] == Mask(c)
    ensures Add(acc, And(cmp, Splat(off)))[l] == Plus8(acc[l], if c then off else 0)
  {
    ByteLanes(acc, And(cmp, Splat(off)), l);
    ByteLanes(cmp, Splat(off), l);
    SplatLane(off, l);
    AndMask(c, off);
    hide Add, And, Splat, And8;
  }

  function AsciiLane(x: Byte): Byte {
    Plus8(Plus8(Plus8(Plus8(Plus8(x, 65), if x > 25 then 6 else 0), if x > 51 then 181 else 0),
          if x == 62 then 241 else 0), if x == 63 then 244 else 0)
  }

  lemma AsciiLaneIsChar(x: Byte)
    requires x < 64
    ensures AsciiLane(x) == Char(x)
  {
    assert Plus8(x, 65) == x + 65 && Plus8(x + 65, 0) == x + 65 && Plus8(x + 65, 6) == x + 71;
    assert x > 51 ==> Plus8(x + 71, 181) == x - 4;
    assert x == 62 ==> Plus8(x - 4, 241) == 43;
    assert x == 63 ==> Plus8(x - 4, 244) == 47;
    assert Plus8(x + 71, 0) == x + 71 && (x > 51 ==> Plus8(x - 4, 0) == x - 4);
    hide Plus8;
  }

  lemma AsciiIsChar(idx: V128, l: int)
    requires 0 <= l < 16 && idx[l] < 64
    ensures Ascii(idx)[l] == Char(idx[l])
  {
    hide Add, And, Splat, GtU, Eq, Plus8, Mask, And8;
    var x := idx[l];
    ByteLanes(idx, Splat(65), l);
    ByteLanes(idx, Splat(25), l);
    ByteLanes(idx, Splat(51), l);
    ByteLanes(idx, Splat(62), l);
    ByteLanes(idx, Splat(63), l);
    SplatLane(65, l);
    SplatLane(25, l);
    SplatLane(51, l);
    SplatLane(62, l);
    SplatLane(63, l);
    var y0 := Add(idx, Splat(65));
    var y1 := Add(y0, And(GtU(idx, Splat(25)), Splat(6)));
    var y2 := Add(y1, And(GtU(idx, Splat(51)), Splat(181)));
    var y3 := Add(y2, And(Eq(idx, Splat(62)), Splat(241)));
    AddMasked(y0, GtU(idx, Splat(25)), 6, x > 25, l);
    AddMasked(y1, GtU(idx, Splat(51)), 181, x > 51, l);
    AddMasked(y2, Eq(idx, Splat(62)), 241, x == 62, l);
    AddMasked(y3, Eq(idx, Splat(63)), 244, x == 63, l);
    AsciiLaneIsChar(x);
  }

  /** A u16 lane of a masked vector. */
  lemma MaskedLane(t: V128, mask: V128, k: int, low: int, high: int)
    requires 0 <= k < 8 && And8(t[2 * k], mask[2 * k]) == low && And8(t[2 * k + 1], mask[2 * k + 1]) == high
    ensures Lanes16(And(t, mask))[k] == low + 256 * high
  {
    ByteLanes(t, mask, 2 * k);
    ByteLanes(t, mask, 2 * k + 1);
    WordLanes(And(t, mask), k);
    hide And, Lanes16, And8;
  }

  const HIGH_MASK: V128 := RepU32(0x00, 0xfc, 0xc0, 0x0f)
  const HIGH_FACTOR: V128 := RepU32(0x40, 0x00, 0x00, 0x04)
  const LOW_MASK: V128 := RepU32(0xf0, 0x03, 0x3f, 0x00)
  const LOW_FACTOR: V128 := RepU32(0x10, 0x00, 0x00, 0x01)

  /** The masked lanes of triplet g in the two rounds. */
  lemma HighMasked(t: V128, g: int, x1: int, x2: int, x3: int)
    requires 0 <= g < 4 && x1 == t[4 * g + 1] && x2 == t[4 * g + 2] && x3 == t[4 * g + 3]
    ensures var m := Lanes16(And(t, HIGH_MASK));
      m[2 * g] == 1024 * (x1 / 4) && m[2 * g + 1] == 64 * (x2 / 64) + 256 * (x3 % 16)
  {
    hide And8, And, Lanes16;
    LowBits(t[4 * g]);
    HighBits(t[4 * g + 1]);
    HighBits(t[4 * g + 2]);
    LowBits(t[4 * g + 3]);
    assert 4 * g == 2 * (2 * g) && 4 * g + 2 == 2 * (2 * g + 1);
    MaskedLane(t, HIGH_MASK, 2 * g, 0, x1 - x1 % 4);
    MaskedLane(t, HIGH_MASK, 2 * g + 1, x2 - x2 % 64, x3 % 16);
  }

  lemma LowMasked(t: V128, g: int, x0: int, x1: int, x2: int)
    requires 0 <= g < 4 && x0 == t[4 * g] && x1 == t[4 * g + 1] && x2 == t[4 * g + 2]
    ensures var m := Lanes16(And(t, LOW_MASK));
      m[2 * g] == 16 * (x0 / 16) + 256 * (x1 % 4) && m[2 * g + 1] == x2 % 64
  {
    hide And8, And, Lanes16;
    HighBits(t[4 * g]);
    LowBits(t[4 * g + 1]);
    LowBits(t[4 * g + 2]);
    LowBits(t[4 * g + 3]);
    assert 4 * g == 2 * (2 * g) && 4 * g + 2 == 2 * (2 * g + 1);
    MaskedLane(t, LOW_MASK, 2 * g, x0 - x0 % 16, x1 % 4);
    MaskedLane(t, LOW_MASK, 2 * g + 1, x2 % 64, 0);
  }

  /** The factors shift the wanted bits up to a byte boundary. */
  lemma Factors(g: int)
    requires 0 <= g < 4
    ensures Lanes16(HIGH_FACTOR)[2 * g] == 0x40 && Lanes16(HIGH_FACTOR)[2 * g + 1] == 0x400
    ensures Lanes16(LOW_FACTOR)[2 * g] == 0x10 && Lanes16(LOW_FACTOR)[2 * g + 1] == 0x100
  {
    assert 4 * g == 2 * (2 * g) && 4 * g + 2 == 2 * (2 * g + 1);
    WordLanes(HIGH_FACTOR, 2 * g);
    WordLanes(HIGH_FACTOR, 2 * g + 1);
    WordLanes(LOW_FACTOR, 2 * g);
    WordLanes(LOW_FACTOR, 2 * g + 1);
    hide Lanes16;
  }

  lemma HighProduct(m: int, k: int, r: int)
    requires 0 <= m < 0x1_0000 && 0 <= k < 0x1_0000 && m * k == 0x1_0000 * r && 0 <= r < 64
    ensures Saturate16(WordTimes(m, k) / 0x1_0000) == r
  {
  }

  /** A u16 lane of the first round whose product is 2^16·r is the bytes r, 0. */
  lemma HighBytes(m: seq<int>, k: seq<int>, j: int, f: int, r: int)
    requires U16s(m) && U16s(k) && 0 <= j < 8 && k[j] == f && m[j] * f == 0x1_0000 * r && 0 <= r < 64
    ensures Pack16(MulHigh16(m, k))[2 * j] == r && Pack16(MulHigh16(m, k))[2 * j + 1] == 0
  {
    ProductLanes(m, k, j);
    HighProduct(m[j], k[j], r);
    PackedBytes(MulHigh16(m, k), j);
    hide MulHigh16, Pack16, WordTimes, Saturate16;
  }

  lemma LowProduct(m: int, k: int, r: int)
    requires 0 <= m < 0x1_0000 && 0 <= k < 0x1_0000 && m * k == 256 * r && 0 <= r < 64
    ensures WordTimes(m, k) % 0x1_0000 == 256 * r
  {
  }

  /** One of the second round whose product is 2^8·r is the bytes 0, r. */
  lemma LowBytes(m: seq<int>, k: seq<int>, j: int, f: int, r: int)
    requires U16s(m) && U16s(k) && 0 <= j < 8 && k[j] == f && m[j] * f == 256 * r && 0 <= r < 64
    ensures Pack16(Mul16(m, k))[2 * j] == 0 && Pack16(Mul16(m, k))[2 * j + 1] == r
  {
    ProductLanes(m, k, j);
    LowProduct(m[j], k[j], r);
    PackedBytes(Mul16(m, k), j);
    hide Mul16, Pack16, WordTimes;
  }

  /** Lane 2g of the first round is the first value, lane 2g + 1 the third. */
  lemma HighRoundLanes(t: V128, g: int, x1: Byte, x2: Byte, x3: Byte)
    requires 0 <= g < 4 && x1 == t[4 * g + 1] && x2 == t[4 * g + 2] && x3 == t[4 * g + 3]
    ensures var h := HighRound(t);
      h[4 * g] == x1 / 4 && h[4 * g + 1] == 0 && h[4 * g + 2] == (x3 % 16) * 4 + x2 / 64 && h[4 * g + 3] == 0
  {
    hide And, Lanes16, MulHigh16, Pack16;
    var m, k := Lanes16(And(t, HIGH_MASK)), Lanes16(HIGH_FACTOR);
    HighMasked(t, g, x1, x2, x3);
    Factors(g);
    assert 4 * g == 2 * (2 * g) && 4 * g + 2 == 2 * (2 * g + 1);
    HighBytes(m, k, 2 * g, 0x40, x1 / 4);
    HighBytes(m, k, 2 * g + 1, 0x400, (x3 % 16) * 4 + x2 / 64);
  }

  lemma LowRoundLanes(t: V128, g: int, x0: Byte, x1: Byte, x2: Byte)
    requires 0 <= g < 4 && x0 == t[4 * g] && x1 == t[4 * g + 1] && x2 == t[4 * g + 2]
    ensures var h := LowRound(t);
      h[4 * g] == 0 && h[4 * g + 1] == (x1 % 4) * 16 + x0 / 16 && h[4 * g + 2] == 0 && h[4 * g + 3] == x2 % 64
  {
    hide And, Lanes16, Mul16, Pack16;
    var m, k := Lanes16(And(t, LOW_MASK)), Lanes16(LOW_FACTOR);
    LowMasked(t, g, x0, x1, x2);
    Factors(g);
    assert 4 * g == 2 * (2 * g) && 4 * g + 2 == 2 * (2 * g + 1);
    LowBytes(m, k, 2 * g, 0x10, (x1 % 4) * 16 + x0 / 16);
    LowBytes(m, k, 2 * g + 1, 0x100, x2 % 64);
  }

  lemma TripletLanes(v: V128, g: int)
    requires 0 <= g < 4
    ensures var t := Triplets(v);
      t[4 * g] == v[3 * g + 1] && t[4 * g + 1] == v[3 * g] && t[4 * g + 2] == v[3 * g + 2] && t[4 * g + 3] == v[3 * g + 1]
  {
  }

  lemma OrWithZero(a: Byte, b: Byte)
    ensures b == 0 ==> Or8(a, b) == a
    ensures a == 0 ==> Or8(a, b) == b
  {
    Pow8();
    OrZero(a, 8);
    OrZero(b, 8);
  }

  lemma OrLane(h: V128, l: V128, j: int, x: Byte)
    requires 0 <= j < 16 && ((h[j] == x && l[j] == 0) || (h[j] == 0 && l[j] == x))
    ensures Or(h, l)[j] == x
  {
    ByteLanes(h, l, j);
    OrWithZero(h[j], l[j]);
    hide Or, Or8;
  }

  lemma RoundLanes(v: V128, g: int, b0: Byte, b1: Byte, b2: Byte)
    requires 0 <= g < 4 && b0 == v[3 * g] && b1 == v[3 * g + 1] && b2 == v[3 * g + 2]
    ensures var h, l := HighRound(Triplets(v)), LowRound(Triplets(v));
      && h[4 * g] == Sextet(b0, b1, b2, 0) && h[4 * g + 2] == Sextet(b0, b1, b2, 2) && h[4 * g + 1] == 0 && h[4 * g + 3] == 0
      && l[4 * g + 1] == Sextet(b0, b1, b2, 1) && l[4 * g + 3] == Sextet(b0, b1, b2, 3) && l[4 * g] == 0 && l[4 * g + 2] == 0
  {
    TripletLanes(v, g);
    hide Triplets, HighRound, LowRound;
    HighRoundLanes(Triplets(v), g, b0, b2, b1);
    LowRoundLanes(Triplets(v), g, b1, b0, b2);
  }

  /** The sixteen lanes hold the sixteen six-bit values of the first twelve bytes. */
  lemma IndexIs(v: V128, g: int, c: int, b0: Byte, b1: Byte, b2: Byte)
    requires 0 <= g < 4 && 0 <= c < 4 && b0 == v[3 * g] && b1 == v[3 * g + 1] && b2 == v[3 * g + 2]
    ensures Indexes(v)[4 * g + c] == Sextet(b0, b1, b2, c)
  {
    hide Triplets, HighRound, LowRound, Or, Sextet;
    RoundLanes(v, g, b0, b1, b2);
    var h, l := HighRound(Triplets(v)), LowRound(Triplets(v));
    if c == 0 {
      OrLane(h, l, 4 * g, Sextet(b0, b1, b2, 0));
    } else if c == 1 {
      OrLane(h, l, 4 * g + 1, Sextet(b0, b1, b2, 1));
    } else if c == 2 {
      OrLane(h, l, 4 * g + 2, Sextet(b0, b1, b2, 2));
    } else {
      OrLane(h, l, 4 * g + 3, Sextet(b0, b1, b2, 3));
    }
  }

  /** One block is the base64 of its first twelve bytes, whatever the other four. */
  lemma BlockIsEncoded(v: V128, g: int, c: int, b0: Byte, b1: Byte, b2: Byte)
    requires 0 <= g < 4 && 0 <= c < 4 && b0 == v[3 * g] && b1 == v[3 * g + 1] && b2 == v[3 * g + 2]
    ensures EncodeBlock(v)[4 * g + c] == Char(Sextet(b0, b1, b2, c))
  {
    IndexIs(v, g, c, b0, b1, b2);
    hide Indexes, Ascii, Char, Sextet;
    AsciiIsChar(Indexes(v), 4 * g + c);
  }

  // ------------------------------------------------------------ the encoder

  lemma EncodedConcat(s: seq<Byte>, t: seq<Byte>)
    requires |s| % 3 == 0 && |t| % 3 == 0
    ensures Encoded(s + t) == Encoded(s) + Encoded(t)
  {
    hide EncodedAt;
    var k := |s| / 3;
    forall o | 0 <= o < (|s| + |t|) / 3 * 4 ensures Encoded(s + t)[o] == (Encoded(s) + Encoded(t))[o] {
      EncodedPart(s, t, o / 4, o % 4);
      assert (o - 4 * k) / 4 == o / 4 - k && (o - 4 * k) % 4 == o % 4;
    }
  }

  /** A character of a concatenation is one of its parts'. */
  lemma EncodedPart(s: seq<Byte>, t: seq<Byte>, u: int, c: int)
    requires |s| % 3 == 0 && 0 <= u && 3 * u + 3 <= |s| + |t| && 0 <= c < 4
    ensures EncodedAt(s + t, u, c) == if u < |s| / 3 then EncodedAt(s, u, c) else EncodedAt(t, u - |s| / 3, c)
  {
    hide Char, Sextet;
  }

  lemma EncodedLane(v: V128, g: int, c: int)
    requires 0 <= g < 4 && 0 <= c < 4
    ensures EncodedAt(v[..12], g, c) == EncodeBlock(v)[4 * g + c]
  {
    BlockIsEncoded(v, g, c, v[3 * g], v[3 * g + 1], v[3 * g + 2]);
    hide EncodeBlock, Char, Sextet;
  }

  lemma EncodedBlock(v: V128)
    ensures Encoded(v[..12]) == EncodeBlock(v)
  {
    hide EncodeBlock, EncodedAt;
    forall o | 0 <= o < 16 ensures Encoded(v[..12])[o] == EncodeBlock(v)[o] {
      EncodedLane(v, o / 4, o % 4);
    }
  }

  /** Twelve more bytes of input, sixteen more characters. */
  lemma EncodedNext(src: seq<Byte>, i: nat, v: V128)
    requires 12 * i + 12 <= |src| && v[..12] == src[12 * i..12 * i + 12]
    ensures Encoded(src[..12 * (i + 1)]) == Encoded(src[..12 * i]) + EncodeBlock(v)
  {
    hide Encoded, EncodeBlock;
    var k := 12 * i;
    TakeMore(src, k, 12);
    EncodedConcat(src[..k], v[..12]);
    EncodedBlock(v);
  }

  /** The first i blocks are encoded. */
  ghost predicate EncodedSoFar(before: seq<Byte>, m: seq<Byte>, srcPtr: nat, dst: nat, n: nat, i: nat) {
    && i <= n && srcPtr + 12 * n <= |before| && dst + 16 * n <= |before|
    && OnlyWrote(before, m, dst, 16 * n) && Bytes(m, dst, 16 * i) == Encoded(Bytes(before, srcPtr, 12 * n)[..12 * i])
  }

  lemma EncodedStart(before: seq<Byte>, srcPtr: nat, dst: nat, n: nat)
    requires srcPtr + 12 * n <= |before| && dst + 16 * n <= |before|
    ensures EncodedSoFar(before, before, srcPtr, dst, n, 0)
  {
  }

  lemma EncodedStep(before: seq<Byte>, m0: seq<Byte>, m1: seq<Byte>, srcPtr: nat, dst: nat, n: nat, i: nat, from: nat, to: nat)
    requires i < n && EncodedSoFar(before, m0, srcPtr, dst, n, i) && Disjoint(srcPtr, 12 * n, dst, 16 * n)
    requires from == srcPtr + 12 * i && to == dst + 16 * i && from + 16 <= |m0|
    requires Written(m0, m1, to, EncodeBlock(Slice16(m0, from)))
    ensures EncodedSoFar(before, m1, srcPtr, dst, n, i + 1)
  {
    hide Encoded, EncodeBlock, Written, OnlyWrote, Bytes, Slice16, Disjoint;
    var v, e, src := Slice16(m0, from), EncodeBlock(Slice16(m0, from)), Bytes(before, srcPtr, 12 * n);
    InputKept(before, m0, srcPtr, 12 * n, dst, 16 * n, 12 * i, from, 12);
    WroteMore(before, m0, m1, dst, 16 * n, to, e);
    OutputGrows(m0, m1, dst, 16 * i, e, 16);
    EncodedNext(src, i, v);
    assert e[..16] == e;
    assert 16 * i + 16 == 16 * (i + 1);
  }

  lemma WholeTriplets(n: nat)
    ensures (12 * n) % 3 == 0
  {
    DivModUnique(3, 0, 4 * n);
  }

  /** The n blocks at dst are the encoding of those at src, and nothing else has changed. */
  ghost predicate Encodes(before: seq<Byte>, after: seq<Byte>, src: nat, dst: nat, n: nat)
    requires src + 12 * n <= |before| == |after| && dst + 16 * n <= |after|
  {
    WholeTriplets(n);
    Bytes(after, dst, 16 * n) == Encoded(Bytes(before, src, 12 * n)) && OnlyWrote(before, after, dst, 16 * n)
  }

  lemma EncodedEnd(before: seq<Byte>, m: seq<Byte>, srcPtr: nat, dst: nat, n: nat)
    requires EncodedSoFar(before, m, srcPtr, dst, n, n)
    ensures |m| == |before| && Encodes(before, m, srcPtr, dst, n)
  {
    assert Bytes(before, srcPtr, 12 * n)[..12 * n] == Bytes(before, srcPtr, 12 * n);
    hide Encoded, Bytes;
  }

  /** Block i: load, encode, store. */
  method EncodeOne(mem: array<Byte>, dstPtr: nat, srcPtr: nat, i: nat, ghost n: nat, ghost before: seq<Byte>)
    requires mem.Length <= TWO32 && i < n && 16 * n < TWO32 && srcPtr + 12 * n + 4 <= mem.Length && dstPtr + 16 * n <= mem.Length
    requires Disjoint(srcPtr, 12 * n, dstPtr, 16 * n) && EncodedSoFar(before, mem[..], srcPtr, dstPtr, n, i)
    modifies mem
    ensures EncodedSoFar(before, mem[..], srcPtr, dstPtr, n, i + 1)
  {
    hide *;
    ghost var m0 := mem[..];
    BlockAddress(srcPtr, 12, i, n, mem.Length);
    BlockAddress(dstPtr, 16, i, n, mem.Length);
    var from, to := Wrap(srcPtr + Wrap(i * 12)), Wrap(dstPtr + Wrap(i * 16));
    LoadIs(mem, from);
    var bytes := Load(mem, from);
    Store(mem, to, EncodeBlock(bytes));
    EncodedStep(before, m0, mem[..], srcPtr, dstPtr, n, i, from, to);
  }

  /** base64_encode(dstPtr, srcPtr, nBlocks): four bytes past the input are read, and may be
      anything, even part of the output. */
  method Encode(mem: array<Byte>, dstPtr: nat, srcPtr: nat, nBlocks: nat)
    requires mem.Length <= TWO32 && nBlocks < TWO32 && 16 * Count(nBlocks) < TWO32
    requires srcPtr + 12 * Count(nBlocks) + 4 <= mem.Length && dstPtr + 16 * Count(nBlocks) <= mem.Length
    requires Disjoint(srcPtr, 12 * Count(nBlocks), dstPtr, 16 * Count(nBlocks))
    modifies mem
    ensures Encodes(old(mem[..]), mem[..], srcPtr, dstPtr, Count(nBlocks))
  {
    ghost var before, n := mem[..], Count(nBlocks);
    var i := 0;
    EncodedStart(before, srcPtr, dstPtr, n);
    CountsUp(0, nBlocks);
    hide EncodedSoFar, Encoded, Bytes, OnlyWrote, Signed, Count, Disjoint, Wrap;
    while Signed(i) < Signed(nBlocks)
      invariant i <= n && (Signed(i) < Signed(nBlocks) <==> i < n)
      invariant EncodedSoFar(before, mem[..], srcPtr, dstPtr, n, i)
      decreases n - i
    {
      EncodeOne(mem, dstPtr, srcPtr, i, n, before);
      SmallWrap(i + 1);
      i := Wrap(i + 1);
      CountsUp(i, nBlocks);
    }
    EncodedEnd(before, mem[..], srcPtr, dstPtr, n);
  }
}
