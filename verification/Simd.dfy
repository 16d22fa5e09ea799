/** The WebAssembly operations of the kernels: 32-bit integers as their unsigned values, and
    128-bit vectors as sixteen bytes, lane 0 first (sections 4.3.2 and 4.3.3 of the
    WebAssembly Core Specification 2.0). */
module Simd {
  import opened Modular

  type Byte = b: int | 0 <= b < 256

  type V128 = v: seq<Byte> | |v| == 16 witness [0, 0, 0, 0, 0, 0, 0, 0, 0, 0, 0, 0, 0, 0, 0, 0]

  // ------------------------------------------------------------ 32-bit integers

  const TWO32 := 0x1_0000_0000

  function Wrap(x: int): (w: int)
    ensures 0 <= w < TWO32
  {
    x % TWO32
  }

  /** The signed reading of an i32. */
  function Signed(x: int): int {
    if x >= 0x8000_0000 then x - TWO32 else x
  }

  function Popcnt(x: nat): nat {
    if x == 0 then 0 else x % 2 + Popcnt(x / 2)
  }

  function Ctz(x: nat): nat
    requires x > 0
  {
    if x % 2 == 1 then 0 else 1 + Ctz(x / 2)
  }

  // ------------------------------------------------------------ bits

  function Pow2(k: nat): (p: nat)
    ensures p >= 1
  {
    if k == 0 then 1 else 2 * Pow2(k - 1)
  }

  /** Bitwise and of n-bit numbers. */
  function AndN(a: nat, b: nat, n: nat): (c: nat)
    ensures c < Pow2(n)
  {
    if n == 0 then 0 else (if a % 2 == 1 && b % 2 == 1 then 1 else 0) + 2 * AndN(a / 2, b / 2, n - 1)
  }

  function OrN(a: nat, b: nat, n: nat): (c: nat)
    ensures c < Pow2(n)
  {
    if n == 0 then 0 else (if a % 2 == 1 || b % 2 == 1 then 1 else 0) + 2 * OrN(a / 2, b / 2, n - 1)
  }

  lemma Pow8()
    ensures Pow2(0) == 1 && Pow2(1) == 2 && Pow2(2) == 4 && Pow2(3) == 8 && Pow2(4) == 16
    ensures Pow2(5) == 32 && Pow2(6) == 64 && Pow2(7) == 128 && Pow2(8) == 256
  {
    assert Pow2(2) == 2 * Pow2(1) && Pow2(4) == 2 * Pow2(3) && Pow2(6) == 2 * Pow2(5) && Pow2(8) == 2 * Pow2(7);
  }

  function And8(a: Byte, b: Byte): Byte {
    Pow8();
    AndN(a, b, 8)
  }

  function Or8(a: Byte, b: Byte): Byte {
    Pow8();
    OrN(a, b, 8)
  }

  lemma AndStep(a: nat, b: nat, n: nat)
    requires n > 0
    ensures AndN(a, b, n) == (if a % 2 == 1 && b % 2 == 1 then 1 else 0) + 2 * AndN(a / 2, b / 2, n - 1)
  {
  }

  function Rem(a: nat, p: nat): nat
    requires p > 0
  {
    a % p
  }

  lemma RemHalves(a: nat, p: nat)
    requires p > 0
    ensures Rem(a, 2 * p) == a % 2 + 2 * Rem(a / 2, p)
    ensures Rem(a, 1) == 0 && (a < p ==> Rem(a, p) == a)
  {
    var q, r := (a / 2) / p, (a / 2) % p;
    assert a == (a % 2 + 2 * r) + (2 * p) * q;
    DivModUnique(2 * p, a % 2 + 2 * r, q);
    if a < p {
      DivModUnique(p, a, 0);
    }
  }

  /** The low k bits. */
  lemma {:induction false} AndLow(a: nat, k: nat, n: nat)
    requires k <= n
    ensures AndN(a, Pow2(k) - 1, n) == Rem(a, Pow2(k))
  {
    RemHalves(a, 1);
    if k == 0 {
      AndZero(a, n);
    } else {
      AndLow(a / 2, k - 1, n - 1);
      assert Pow2(k) == 2 * Pow2(k - 1);
      hide Pow2, AndN, Rem;
      AndLowStep(a, Pow2(k - 1), n);
    }
  }

  lemma AndLowStep(a: nat, p: nat, n: nat)
    requires n > 0 && p > 0 && AndN(a / 2, p - 1, n - 1) == Rem(a / 2, p)
    ensures AndN(a, 2 * p - 1, n) == Rem(a, 2 * p)
  {
    AndStep(a, 2 * p - 1, n);
    hide AndN, Rem;
    RemHalves(a, p);
    assert (2 * p - 1) / 2 == p - 1 && (2 * p - 1) % 2 == 1;
  }

  lemma AndAll(a: nat, n: nat)
    requires a < Pow2(n)
    ensures AndN(a, Pow2(n) - 1, n) == a && AndN(Pow2(n) - 1, a, n) == a
  {
    hide AndN, Pow2, Rem;
    AndSwap(a, Pow2(n) - 1, n);
    AndLow(a, n, n);
    RemHalves(a, Pow2(n));
  }

  /** All but the low k bits. */
  lemma PowersStep(k: nat)
    ensures Pow2(k) == if k == 0 then 1 else 2 * Pow2(k - 1)
  {
  }

  lemma {:induction false} AndHigh(a: nat, k: nat, n: nat)
    requires k <= n && a < Pow2(n)
    ensures Pow2(k) <= Pow2(n) && AndN(a, Pow2(n) - Pow2(k), n) == a - Rem(a, Pow2(k))
  {
    hide Pow2, AndN, Rem;
    RemHalves(a, 1);
    PowersStep(k);
    PowersStep(n);
    if k == 0 {
      AndAll(a, n);
    } else {
      assert a / 2 < Pow2(n - 1);
      AndHigh(a / 2, k - 1, n - 1);
      AndHighStep(a, Pow2(k - 1), Pow2(n - 1), n);
    }
  }

  lemma AndHighStep(a: nat, p: nat, m: nat, n: nat)
    requires n > 0 && 0 < p <= m && AndN(a / 2, m - p, n - 1) == a / 2 - Rem(a / 2, p)
    ensures AndN(a, 2 * m - 2 * p, n) == a - Rem(a, 2 * p)
  {
    AndStep(a, 2 * m - 2 * p, n);
    hide AndN, Rem;
    RemHalves(a, p);
    assert (2 * m - 2 * p) / 2 == m - p && (2 * m - 2 * p) % 2 == 0;
  }

  lemma {:induction false} AndZero(a: nat, n: nat)
    ensures AndN(a, 0, n) == 0 && AndN(0, a, n) == 0
  {
    if n != 0 {
      AndZero(a / 2, n - 1);
    }
  }

  lemma {:induction false} AndSwap(a: nat, b: nat, n: nat)
    ensures AndN(a, b, n) == AndN(b, a, n)
  {
    if n != 0 {
      AndSwap(a / 2, b / 2, n - 1);
    }
  }

  lemma {:induction false} OrZero(a: nat, n: nat)
    requires a < Pow2(n)
    ensures OrN(a, 0, n) == a && OrN(0, a, n) == a
  {
    if n != 0 {
      OrZero(a / 2, n - 1);
    }
  }

  /** The bits of a multiple of 2^k and of a number below it do not meet. */
  lemma {:induction false} OrJoins(a: nat, b: nat, k: nat, n: nat)
    requires k <= n && a < Pow2(n) && Rem(a, Pow2(k)) == 0 && b < Pow2(k)
    ensures OrN(a, b, n) == a + b
  {
    if k == 0 {
      OrZero(a, n);
    } else {
      RemHalves(a, Pow2(k - 1));
      hide Rem;
      OrJoins(a / 2, b / 2, k - 1, n - 1);
    }
  }

  // ------------------------------------------------------------ byte masks

  /** A lane of a comparison: all ones or all zeros. */
  function Mask(c: bool): Byte {
    if c then 255 else 0
  }

  lemma AndMask(c: bool, x: Byte)
    ensures And8(Mask(c), x) == if c then x else 0
    ensures And8(x, Mask(c)) == if c then x else 0
  {
    Pow8();
    hide AndN, Pow2;
    AndAll(x, 8);
    AndZero(x, 8);
  }

  lemma AndMasks(c: bool, d: bool)
    ensures And8(Mask(c), Mask(d)) == Mask(c && d)
  {
    AndMask(c, Mask(d));
  }

  lemma OrMasks(c: bool, d: bool)
    ensures Or8(Mask(c), Mask(d)) == Mask(c || d)
  {
    Pow8();
    OrZero(Mask(c), 8);
    OrZero(Mask(d), 8);
    assert OrN(255, 255, 8) == 255;
  }

  lemma LowBits(x: Byte)
    ensures And8(x, 0x03) == x % 4 && And8(x, 0x0f) == x % 16 && And8(x, 0x3f) == x % 64 && And8(x, 0) == 0
  {
    Pow8();
    AndLow(x, 2, 8);
    AndLow(x, 4, 8);
    AndLow(x, 6, 8);
    AndZero(x, 8);
  }

  lemma HighBits(x: Byte)
    ensures And8(x, 0xfc) == x - x % 4 && And8(x, 0xf0) == x - x % 16 && And8(x, 0xc0) == x - x % 64
  {
    Pow8();
    AndHigh(x, 2, 8);
    AndHigh(x, 4, 8);
    AndHigh(x, 6, 8);
  }

  lemma OrBytes(a: Byte, b: Byte, k: nat)
    requires k <= 8 && a % Pow2(k) == 0 && b < Pow2(k)
    ensures Or8(a, b) == a + b
  {
    Pow8();
    OrJoins(a, b, k, 8);
  }

  // ------------------------------------------------------------ vectors of bytes

  function Splat(x: int): (v: V128) {
    seq(16, _ => x % 256)
  }

  function Eq(a: V128, b: V128): (v: V128) {
    seq(16, l requires 0 <= l < 16 => Mask(a[l] == b[l]))
  }

  function GtU(a: V128, b: V128): (v: V128) {
    seq(16, l requires 0 <= l < 16 => Mask(a[l] > b[l]))
  }

  /** The signed reading of a byte. */
  function Signed8(b: Byte): int {
    if b >= 128 then b - 256 else b
  }

  function GeS(a: V128, b: V128): (v: V128) {
    seq(16, l requires 0 <= l < 16 => Mask(Signed8(a[l]) >= Signed8(b[l])))
  }

  function LeS(a: V128, b: V128): (v: V128) {
    seq(16, l requires 0 <= l < 16 => Mask(Signed8(a[l]) <= Signed8(b[l])))
  }

  function And(a: V128, b: V128): (v: V128) {
    seq(16, l requires 0 <= l < 16 => And8(a[l], b[l]))
  }

  function Or(a: V128, b: V128): (v: V128) {
    seq(16, l requires 0 <= l < 16 => Or8(a[l], b[l]))
  }

  function Plus8(x: int, y: int): Byte {
    (x + y) % 256
  }

  function Minus8(x: int, y: int): Byte {
    (x - y) % 256
  }

  function Times8(x: int, y: int): Byte {
    (x * y) % 256
  }

  function Add(a: V128, b: V128): (v: V128) {
    seq(16, l requires 0 <= l < 16 => Plus8(a[l], b[l]))
  }

  function Sub(a: V128, b: V128): (v: V128) {
    seq(16, l requires 0 <= l < 16 => Minus8(a[l], b[l]))
  }

  /** Shifts of every lane left and right by k places, p = 2^k. */
  function Shl(a: V128, p: nat): (v: V128) {
    seq(16, l requires 0 <= l < 16 => Times8(a[l], p))
  }

  function ShrU(a: V128, p: nat): (v: V128)
    requires p in {4, 16}
  {
    seq(16, l requires 0 <= l < 16 => a[l] / p)
  }

  /** Lane l is table entry idx[l], or 0 when there is none. */
  function Swizzle(table: V128, idx: V128): (v: V128) {
    seq(16, l requires 0 <= l < 16 => if idx[l] < 16 then table[idx[l]] else 0)
  }

  /** Lane l is lane pat[l] of the thirty-two lanes of a and b. */
  function Shuffle(a: V128, b: V128, pat: seq<int>): (v: V128)
    requires |pat| == 16 && forall l :: 0 <= l < 16 ==> 0 <= pat[l] < 32
  {
    seq(16, l requires 0 <= l < 16 => if pat[l] < 16 then a[pat[l]] else b[pat[l] - 16])
  }

  /** Bit l - from of the result is the top bit of lane l. */
  function MaskFrom(v: V128, from: nat): nat
    requires from <= 16
    decreases 16 - from
  {
    if from == 16 then 0 else (if v[from] >= 128 then 1 else 0) + 2 * MaskFrom(v, from + 1)
  }

  function Bitmask(v: V128): nat {
    MaskFrom(v, 0)
  }

  predicate AllTrue(v: V128) {
    forall l :: 0 <= l < 16 ==> v[l] != 0
  }

  lemma CtzStep(m: nat)
    ensures Ctz(1 + 2 * m) == 0 && (m > 0 ==> Ctz(2 * m) == 1 + Ctz(m))
  {
    assert (2 * m) / 2 == m && (1 + 2 * m) % 2 == 1 && (2 * m) % 2 == 0;
  }

  /** The first lane of a comparison that is set is the count of trailing zeros. */
  lemma MaskStep(v: V128, from: nat)
    requires from <= 16
    ensures MaskFrom(v, from) == if from == 16 then 0 else (if v[from] >= 128 then 1 else 0) + 2 * MaskFrom(v, from + 1)
  {
  }

  lemma {:induction false} FirstLane(v: V128, from: nat)
    requires from <= 16
    ensures MaskFrom(v, from) == 0 ==> forall l :: from <= l < 16 ==> v[l] < 128
    ensures MaskFrom(v, from) > 0 ==>
      var c := from + Ctz(MaskFrom(v, from));
      c < 16 && v[c] >= 128 && forall l :: from <= l < c ==> v[l] < 128
    decreases 16 - from
  {
    hide MaskFrom, Ctz;
    MaskStep(v, from);
    if from < 16 {
      FirstLane(v, from + 1);
      CtzStep(MaskFrom(v, from + 1));
    }
  }

  // ------------------------------------------------------------ wider lanes

  predicate U16s(s: seq<int>) {
    |s| == 8 && forall k :: 0 <= k < 8 ==> 0 <= s[k] < 0x1_0000
  }

  predicate U32s(s: seq<int>) {
    |s| == 4 && forall k :: 0 <= k < 4 ==> 0 <= s[k] < TWO32
  }

  function Word(low: int, high: int): int {
    low + 256 * high
  }

  function Pair(x: int, y: int): int {
    x + y
  }

  /** A vector read as eight u16 lanes, and back. */
  function Lanes16(v: V128): (s: seq<int>)
    ensures U16s(s)
  {
    seq(8, k requires 0 <= k < 8 => Word(v[2 * k], v[2 * k + 1]))
  }

  function Pack16(s: seq<int>): (v: V128)
    requires U16s(s)
  {
    seq(16, l requires 0 <= l < 16 => if l % 2 == 0 then s[l / 2] % 256 else s[l / 2] / 256)
  }

  // Vectors of wider lanes are given by their lanes; Pack16 and Lanes16 join them to bytes.

  function ExtaddPairwise8(v: V128): (s: seq<int>)
    ensures U16s(s)
  {
    seq(8, k requires 0 <= k < 8 => Pair(v[2 * k], v[2 * k + 1]))
  }

  function ExtaddPairwise16(a: seq<int>): (s: seq<int>)
    requires U16s(a)
    ensures U32s(s)
  {
    seq(4, k requires 0 <= k < 4 => a[2 * k] + a[2 * k + 1])
  }

  lemma ByteProduct(x: int, y: int, m: int)
    requires 0 <= x < m && 0 <= y < m
    ensures 0 <= x * y <= (m - 1) * (m - 1)
  {
    MulMono(x, y, m - 1);
    MulMono(m - 1, x, m - 1);
  }

  function ByteTimes(x: int, y: int): (p: int)
    requires 0 <= x < 256 && 0 <= y < 256
    ensures 0 <= p < 0x1_0000
  {
    ByteProduct(x, y, 256);
    x * y
  }

  function WordTimes(x: int, y: int): (p: int)
    requires 0 <= x < 0x1_0000 && 0 <= y < 0x1_0000
    ensures 0 <= p < TWO32
  {
    ByteProduct(x, y, 0x1_0000);
    x * y
  }

  function ExtmulLow8(a: V128, b: V128): (s: seq<int>)
    ensures U16s(s)
  {
    seq(8, k requires 0 <= k < 8 => ByteTimes(a[k], b[k]))
  }

  function ExtmulHigh8(a: V128, b: V128): (s: seq<int>)
    ensures U16s(s)
  {
    seq(8, k requires 0 <= k < 8 => ByteTimes(a[k + 8], b[k + 8]))
  }

  function ExtmulLow16(a: seq<int>, b: seq<int>): (s: seq<int>)
    requires U16s(a) && U16s(b)
    ensures U32s(s)
  {
    seq(4, k requires 0 <= k < 4 => WordTimes(a[k], b[k]))
  }

  function ExtmulHigh16(a: seq<int>, b: seq<int>): (s: seq<int>)
    requires U16s(a) && U16s(b)
    ensures U32s(s)
  {
    seq(4, k requires 0 <= k < 4 => WordTimes(a[k + 4], b[k + 4]))
  }

  /** Every u32 lane shifted right by sixteen. */
  function ShrU32By16(a: seq<int>): (s: seq<int>)
    requires U32s(a)
    ensures U32s(s)
  {
    seq(4, k requires 0 <= k < 4 => a[k] / 0x1_0000)
  }

  function Saturate16(x: int): int {
    var y := Signed(x);
    if y < 0 then 0 else if y > 0xffff then 0xffff else y
  }

  /** Signed i32 lanes saturated to u16, those of a then those of b. */
  function Narrow32(a: seq<int>, b: seq<int>): (s: seq<int>)
    requires U32s(a) && U32s(b)
    ensures U16s(s)
  {
    seq(8, k requires 0 <= k < 8 => if k < 4 then Saturate16(a[k]) else Saturate16(b[k - 4]))
  }

  function Mul16(a: seq<int>, b: seq<int>): (s: seq<int>)
    requires U16s(a) && U16s(b)
    ensures U16s(s)
  {
    seq(8, k requires 0 <= k < 8 => WordTimes(a[k], b[k]) % 0x1_0000)
  }

  function Add32(a: seq<int>, b: seq<int>): (s: seq<int>)
    requires U32s(a) && U32s(b)
    ensures U32s(s)
  {
    seq(4, k requires 0 <= k < 4 => Wrap(a[k] + b[k]))
  }

  // ------------------------------------------------------------ one lane

  lemma ByteLanes(a: V128, b: V128, l: int)
    requires 0 <= l < 16
    ensures Add(a, b)[l] == Plus8(a[l], b[l]) && Sub(a, b)[l] == Minus8(a[l], b[l])
    ensures And(a, b)[l] == And8(a[l], b[l]) && Or(a, b)[l] == Or8(a[l], b[l])
    ensures Eq(a, b)[l] == Mask(a[l] == b[l]) && GtU(a, b)[l] == Mask(a[l] > b[l])
    ensures GeS(a, b)[l] == Mask(Signed8(a[l]) >= Signed8(b[l])) && LeS(a, b)[l] == Mask(Signed8(a[l]) <= Signed8(b[l]))
  {
  }

  lemma SplatLane(x: Byte, l: int)
    requires 0 <= l < 16
    ensures Splat(x)[l] == x
  {
  }

  lemma WordLanes(v: V128, k: int)
    requires 0 <= k < 8
    ensures Lanes16(v)[k] == Word(v[2 * k], v[2 * k + 1])
  {
  }

  lemma PackedBytes(s: seq<int>, k: int)
    requires U16s(s) && 0 <= k < 8
    ensures Pack16(s)[2 * k] == s[k] % 256 && Pack16(s)[2 * k + 1] == s[k] / 256
  {
    assert (2 * k) / 2 == k && (2 * k + 1) / 2 == k;
  }

  /** The emulated high multiply: the upper halves of the u16 products. */
  function MulHigh16(a: seq<int>, b: seq<int>): (s: seq<int>)
    requires U16s(a) && U16s(b)
    ensures U16s(s)
  {
    Narrow32(ShrU32By16(ExtmulLow16(a, b)), ShrU32By16(ExtmulHigh16(a, b)))
  }

  lemma ProductLanes(a: seq<int>, b: seq<int>, k: int)
    requires U16s(a) && U16s(b) && 0 <= k < 8
    ensures MulHigh16(a, b)[k] == Saturate16(WordTimes(a[k], b[k]) / 0x1_0000)
    ensures Mul16(a, b)[k] == WordTimes(a[k], b[k]) % 0x1_0000
  {
    hide WordTimes, Saturate16;
  }

  /** A product shifted right by sixteen never saturates. */
  lemma ShiftedFits(p: int)
    requires 0 <= p < TWO32
    ensures Saturate16(p / 0x1_0000) == p / 0x1_0000
  {
  }

  /** Lane for lane, the high and the low half of the product. */
  lemma ProductHalves(a: seq<int>, b: seq<int>, k: int)
    requires U16s(a) && U16s(b) && 0 <= k < 8
    ensures MulHigh16(a, b)[k] == a[k] * b[k] / 0x1_0000 && Mul16(a, b)[k] == a[k] * b[k] % 0x1_0000
  {
    ProductLanes(a, b, k);
    ShiftedFits(WordTimes(a[k], b[k]));
    hide MulHigh16, Mul16, Saturate16;
    assert WordTimes(a[k], b[k]) == a[k] * b[k];
  }

  // ------------------------------------------------------------ memory and counted loops

  /** Sixteen bytes of memory. */
  function Slice16(m: seq<Byte>, a: int): (v: V128)
    requires 0 <= a && a + 16 <= |m|
  {
    m[a..a + 16]
  }

  /** v128.load. */
  function Load(mem: array<Byte>, a: int): (v: V128)
    requires 0 <= a && a + 16 <= mem.Length
    reads mem
  {
    Slice16(mem[..], a)
  }

  lemma LoadIs(mem: array<Byte>, a: int)
    requires 0 <= a && a + 16 <= mem.Length
    ensures Load(mem, a) == Slice16(mem[..], a)
  {
  }

  /** How often a loop counted by a signed i32 runs. */
  function Count(n: int): nat {
    if Signed(n) > 0 then Signed(n) else 0
  }

  /** Signed is the two's complement reading, and Count what a signed loop to n goes round. */
  lemma SignedIs(x: int)
    requires 0 <= x < TWO32
    ensures -0x8000_0000 <= Signed(x) < 0x8000_0000 && Signed(x) % 0x1_0000_0000 == x
    ensures Signed(x) >= 0 ==> Count(x) == x
    ensures Signed(x) < 0 ==> Count(x) == 0
  {
  }

  /** The signed comparison of a loop counter is that of its value. */
  lemma CountsUp(i: nat, n: nat)
    requires i <= Count(n) && n < TWO32
    ensures Signed(i) < Signed(n) <==> i < Count(n)
    ensures Count(n) < 0x8000_0000
  {
  }

  /** Counters and addresses that stay below 2^32 are not wrapped. */
  lemma SmallWrap(x: int)
    requires 0 <= x < TWO32
    ensures Wrap(x) == x
  {
  }

  /** Block i of a scan lies in memory, and its address and offset do not wrap. */
  lemma BlockAddress(srcPtr: nat, stride: nat, i: nat, n: nat, size: nat)
    requires i < n && srcPtr + stride * n <= size <= TWO32 && stride * n < TWO32 && stride > 0
    ensures 0 <= stride * i && stride * i + stride <= stride * n
    ensures Wrap(i * stride) == stride * i && Wrap(srcPtr + Wrap(i * stride)) == srcPtr + stride * i
    ensures n < TWO32 && Wrap(i + 1) == i + 1
  {
    MulSub(stride, n, i);
    MulLower(stride, n - i);
    MulLower(n, stride);
    SmallWrap(stride * i);
    SmallWrap(srcPtr + stride * i);
    SmallWrap(i + 1);
    assert i * stride == stride * i;
  }

  /** m1 is m0 with the bytes of v written at `at`. */
  ghost predicate Written(m0: seq<Byte>, m1: seq<Byte>, at: nat, v: seq<Byte>) {
    && |m1| == |m0| && at + |v| <= |m0|
    && forall u :: 0 <= u < |m1| ==> m1[u] == if at <= u < at + |v| then v[u - at] else m0[u]
  }

  /** m is `before` but for the bytes [dst, dst + n). */
  ghost predicate OnlyWrote(before: seq<Byte>, m: seq<Byte>, dst: nat, n: nat) {
    |m| == |before| && forall u :: 0 <= u < |m| && !(dst <= u < dst + n) ==> m[u] == before[u]
  }

  lemma WroteMore(before: seq<Byte>, m0: seq<Byte>, m1: seq<Byte>, dst: nat, n: nat, at: nat, v: seq<Byte>)
    requires OnlyWrote(before, m0, dst, n) && Written(m0, m1, at, v) && dst <= at && at + |v| <= dst + n
    ensures OnlyWrote(before, m1, dst, n)
  {
  }

  /** The bytes [from, from + n) of memory. */
  function Bytes(mem: seq<Byte>, from: nat, n: nat): (s: seq<Byte>)
    requires from + n <= |mem|
    ensures |s| == n
  {
    mem[from..from + n]
  }

  /** A store right after the first k bytes of the output, c of its bytes to be kept. */
  lemma OutputGrows(m0: seq<Byte>, m1: seq<Byte>, dst: nat, k: nat, v: seq<Byte>, c: nat)
    requires Written(m0, m1, dst + k, v) && c <= |v|
    ensures Bytes(m1, dst, k + c) == Bytes(m0, dst, k) + v[..c]
  {
    var b := Bytes(m0, dst, k) + v[..c];
    forall o | 0 <= o < k + c ensures Bytes(m1, dst, k + c)[o] == b[o] {
      assert m1[dst + o] == if o < k then m0[dst + o] else v[o - k];
    }
  }

  /** Two stretches of memory do not overlap. */
  predicate Disjoint(a: nat, m: nat, b: nat, n: nat) {
    a + m <= b || b + n <= a
  }

  /** What is loaded at offset `at` of an input the kernel does not write: c of its bytes. */
  lemma InputKept(before: seq<Byte>, m: seq<Byte>, src: nat, size: nat, dst: nat, span: nat, at: nat, from: nat, c: nat)
    requires OnlyWrote(before, m, dst, span) && Disjoint(src, size, dst, span) && src + size <= |before| && at + c <= size
    requires from == src + at && from + 16 <= |m| && c <= 16
    ensures Slice16(m, from)[..c] == Bytes(before, src, size)[at..at + c]
  {
    var u, w := Slice16(m, from)[..c], Bytes(before, src, size)[at..at + c];
    forall x | 0 <= x < c ensures u[x] == w[x] {
      assert u[x] == m[from + x] && w[x] == before[src + (at + x)] && m[from + x] == before[from + x];
    }
  }

  lemma TakeMore(s: seq<Byte>, k: nat, c: nat)
    requires k + c <= |s|
    ensures s[..k + c] == s[..k] + s[k..k + c]
  {
  }

  /** v128.store: sixteen bytes to memory. */
  method Store(mem: array<Byte>, a: nat, v: V128)
    requires a + 16 <= mem.Length
    modifies mem
    ensures Written(old(mem[..]), mem[..], a, v)
  {
    forall l | 0 <= l < 16 {
      mem[a + l] := v[l];
    }
  }

  /** v128.store64_lane 0: the low eight bytes to memory. */
  method Store8(mem: array<Byte>, a: nat, v: V128)
    requires a + 8 <= mem.Length
    modifies mem
    ensures Written(old(mem[..]), mem[..], a, v[..8])
  {
    forall l | 0 <= l < 8 {
      mem[a + l] := v[l];
    }
  }
}
