/** The Adler-32 kernel: sixteen bytes of the two running sums at a time, the reduction left
    to the caller (sections 2.2 and 9 of RFC 1950). */
module Adler32 {
  import opened Modular
  import opened Simd

  const BASE := 65521
  /** The most blocks a caller gives one call: 5552 bytes. */
  const MAX_BLOCKS := 347

  /** The two sums. */
  datatype Sums = Sums(a: int, b: int)

  /** The sums after every byte of s, never reduced. */
  function Raw(s: seq<Byte>, z: Sums): Sums {
    if s == [] then z
    else
      var p := Raw(s[..|s| - 1], z);
      Sums(p.a + s[|s| - 1], p.b + p.a + s[|s| - 1])
  }

  /** The sums of RFC 1950, reduced after every byte. */
  function Reduced(s: seq<Byte>, z: Sums): Sums {
    if s == [] then z
    else
      var p := Reduced(s[..|s| - 1], z);
      var a := (p.a + s[|s| - 1]) % BASE;
      Sums(a, (p.b + a) % BASE)
  }

  function Checksum(s: seq<Byte>): int {
    var z := Reduced(s, Sums(1, 0));
    z.b * 65536 + z.a
  }

  // ------------------------------------------------------------ one block

  const COEF: V128 := [16, 15, 14, 13, 12, 11, 10, 9, 8, 7, 6, 5, 4, 3, 2, 1]

  /** The four lanes added up, as i32. */
  function Horizontal(p: seq<int>): int
    requires U32s(p)
  {
    Wrap(Wrap(Wrap(p[0] + p[1]) + p[2]) + p[3])
  }

  function DeltaA(v: V128): int {
    Horizontal(ExtaddPairwise16(ExtaddPairwise8(v)))
  }

  function Weighted(v: V128): int {
    Horizontal(Add32(ExtaddPairwise16(ExtmulLow8(v, COEF)), ExtaddPairwise16(ExtmulHigh8(v, COEF))))
  }

  function Sum16(v: seq<int>): int
    requires |v| == 16
  {
    v[0] + v[1] + v[2] + v[3] + v[4] + v[5] + v[6] + v[7] + v[8] + v[9] + v[10] + v[11] + v[12] + v[13] + v[14] + v[15]
  }

  function Weighted16(v: seq<int>): int
    requires |v| == 16
  {
    16 * v[0] + 15 * v[1] + 14 * v[2] + 13 * v[3] + 12 * v[4] + 11 * v[5] + 10 * v[6] + 9 * v[7]
    + 8 * v[8] + 7 * v[9] + 6 * v[10] + 5 * v[11] + 4 * v[12] + 3 * v[13] + 2 * v[14] + v[15]
  }

  lemma DeltaIsSum(v: V128)
    ensures DeltaA(v) == Sum16(v) && 0 <= Sum16(v) <= 4080
  {
    var p := ExtaddPairwise16(ExtaddPairwise8(v));
    var w: seq<int> := v;
    assert p[0] == w[0] + w[1] + w[2] + w[3] && p[1] == w[4] + w[5] + w[6] + w[7];
    assert p[2] == w[8] + w[9] + w[10] + w[11] && p[3] == w[12] + w[13] + w[14] + w[15];
    hide Horizontal;
    HorizontalSum(p);
  }

  lemma LowProducts(v: V128, w: seq<int>)
    requires w == v
    ensures var lo := ExtmulLow8(v, COEF);
      && lo[0] == 16 * w[0] && lo[1] == 15 * w[1] && lo[2] == 14 * w[2] && lo[3] == 13 * w[3]
      && lo[4] == 12 * w[4] && lo[5] == 11 * w[5] && lo[6] == 10 * w[6] && lo[7] == 9 * w[7]
  {
  }

  lemma HighProducts(v: V128, w: seq<int>)
    requires w == v
    ensures var hi := ExtmulHigh8(v, COEF);
      && hi[0] == 8 * w[8] && hi[1] == 7 * w[9] && hi[2] == 6 * w[10] && hi[3] == 5 * w[11]
      && hi[4] == 4 * w[12] && hi[5] == 3 * w[13] && hi[6] == 2 * w[14] && hi[7] == w[15]
  {
  }

  lemma HorizontalSum(p: seq<int>)
    requires U32s(p) && p[0] + p[1] + p[2] + p[3] < TWO32
    ensures Horizontal(p) == p[0] + p[1] + p[2] + p[3]
  {
    hide Wrap;
    SmallWrap(p[0] + p[1]);
    SmallWrap(p[0] + p[1] + p[2]);
    SmallWrap(p[0] + p[1] + p[2] + p[3]);
  }

  lemma PairedLanes(lo: seq<int>, hi: seq<int>)
    requires U16s(lo) && U16s(hi)
    ensures var p := Add32(ExtaddPairwise16(lo), ExtaddPairwise16(hi));
      && p[0] == lo[0] + lo[1] + hi[0] + hi[1] && p[1] == lo[2] + lo[3] + hi[2] + hi[3]
      && p[2] == lo[4] + lo[5] + hi[4] + hi[5] && p[3] == lo[6] + lo[7] + hi[6] + hi[7]
  {
  }

  lemma WeightedIsSum(v: V128)
    ensures Weighted(v) == Weighted16(v) && 0 <= Weighted16(v) <= 34680
  {
    LowProducts(v, v);
    HighProducts(v, v);
    var lo, hi := ExtmulLow8(v, COEF), ExtmulHigh8(v, COEF);
    PairedLanes(lo, hi);
    hide ExtmulLow8, ExtmulHigh8, ExtaddPairwise16, Add32, Horizontal;
    HorizontalSum(Add32(ExtaddPairwise16(lo), ExtaddPairwise16(hi)));
  }

  /** The block's update of the sums. */
  function BlockStep(v: V128, z: Sums): Sums {
    Sums(Wrap(z.a + DeltaA(v)), Wrap(Wrap(z.b + Wrap(z.a * 16)) + Weighted(v)))
  }

  lemma RawStep(s: seq<Byte>, z: Sums, n: nat)
    requires n < |s|
    ensures Raw(s[..n + 1], z) == (var p := Raw(s[..n], z); Sums(p.a + s[n], p.b + p.a + s[n]))
  {
    assert s[..n + 1][..n] == s[..n];
  }

  lemma Raw4(s: seq<Byte>, z: Sums, n: nat)
    requires n + 4 <= |s|
    ensures var p, x0: int, x1: int, x2: int, x3: int := Raw(s[..n], z), s[n], s[n + 1], s[n + 2], s[n + 3];
      Raw(s[..n + 4], z) == Sums(p.a + x0 + x1 + x2 + x3, p.b + 4 * p.a + 4 * x0 + 3 * x1 + 2 * x2 + x3)
  {
    RawStep(s, z, n);
    RawStep(s, z, n + 1);
    RawStep(s, z, n + 2);
    RawStep(s, z, n + 3);
    hide Raw;
  }

  /** Sixteen steps at once. */
  lemma Telescoped(s: seq<Byte>, z: Sums, n: nat)
    requires n + 16 <= |s|
    ensures var p, v := Raw(s[..n], z), s[n..n + 16];
      Raw(s[..n + 16], z) == Sums(p.a + Sum16(v), p.b + 16 * p.a + Weighted16(v))
  {
    Raw4(s, z, n);
    Raw4(s, z, n + 4);
    Raw4(s, z, n + 8);
    Raw4(s, z, n + 12);
    hide Raw;
  }

  // ------------------------------------------------------------ the kernel

  function MaxA(i: int): int {
    65520 + 4080 * i
  }

  function MaxB(i: int): int {
    65520 + 1083000 * i + 32640 * (i * (i - 1))
  }

  /** With 347 blocks the second sum still fits: 4294690200 < 2^32. */
  lemma SumsFit(i: nat)
    requires i <= MAX_BLOCKS
    ensures MaxA(i) < TWO32 && MaxB(i) < TWO32
  {
    if i > 0 {
      MulMono(i, i - 1, MAX_BLOCKS - 1);
      MulMono(MAX_BLOCKS - 1, i, MAX_BLOCKS);
    } else {
      assert i * (i - 1) == 0;
    }
  }

  lemma NextBound(i: nat)
    ensures MaxB(i + 1) == MaxB(i) + 16 * MaxA(i) + 34680
  {
    assert (i + 1) * i == i * (i - 1) + 2 * i;
  }

  lemma StepFits(a: int, b: int, d: int, w: int, i: nat)
    requires i < MAX_BLOCKS && 0 <= a <= MaxA(i) && 0 <= b <= MaxB(i) && 0 <= d <= 4080 && 0 <= w <= 34680
    ensures 0 <= a + d <= MaxA(i + 1) && 0 <= b + 16 * a + w <= MaxB(i + 1)
    ensures Wrap(a + d) == a + d && Wrap(Wrap(b + Wrap(a * 16)) + w) == b + 16 * a + w
  {
    SumsFit(i + 1);
    NextBound(i);
    hide MaxB, Wrap;
    SmallWrap(a + d);
    SmallWrap(a * 16);
    SmallWrap(b + a * 16);
    SmallWrap(b + a * 16 + w);
  }

  ghost predicate InBounds(z: Sums, i: int) {
    0 <= z.a <= MaxA(i) && 0 <= z.b <= MaxB(i)
  }

  /** The block's update of sums in bounds: none of its i32 sums wraps. */
  lemma StepOnSums(v: V128, p: Sums, i: nat)
    requires i < MAX_BLOCKS && InBounds(p, i)
    ensures BlockStep(v, p) == Sums(p.a + Sum16(v), p.b + 16 * p.a + Weighted16(v)) && InBounds(BlockStep(v, p), i + 1)
  {
    DeltaIsSum(v);
    WeightedIsSum(v);
    hide DeltaA, Weighted, Sum16, Weighted16, MaxA, MaxB, Wrap;
    StepFits(p.a, p.b, DeltaA(v), Weighted(v), i);
  }

  /** The n blocks of sixteen bytes at `from`. */
  function Input(bytes: seq<Byte>, from: nat, n: nat): seq<Byte>
    requires from + 16 * n <= |bytes|
  {
    bytes[from..from + 16 * n]
  }

  /** The sums after the first i blocks. */
  ghost predicate After(bytes: seq<Byte>, from: nat, z: Sums, i: nat, sums: Sums) {
    from + 16 * i <= |bytes| && sums == Raw(Input(bytes, from, i), z) && InBounds(sums, i)
  }

  lemma Start(bytes: seq<Byte>, from: nat, z: Sums)
    requires 0 <= z.a < BASE && 0 <= z.b < BASE && from <= |bytes|
    ensures After(bytes, from, z, 0, z)
  {
    assert 0 * (0 - 1) == 0;
  }

  /** One more block. */
  lemma NextBlock(bytes: seq<Byte>, from: nat, z: Sums, i: nat, sums: Sums)
    requires from + 16 * i + 16 <= |bytes| && i < MAX_BLOCKS && After(bytes, from, z, i, sums)
    ensures After(bytes, from, z, i + 1, BlockStep(Slice16(bytes, from + 16 * i), sums))
  {
    hide BlockStep, Raw, InBounds, Sum16, Weighted16, Input;
    var s, v := Input(bytes, from, i + 1), Slice16(bytes, from + 16 * i);
    InputGrows(bytes, from, i);
    Telescoped(s, z, 16 * i);
    StepOnSums(v, sums, i);
  }

  lemma InputGrows(bytes: seq<Byte>, from: nat, i: nat)
    requires from + 16 * i + 16 <= |bytes|
    ensures var s := Input(bytes, from, i + 1);
      |s| == 16 * i + 16 && s[..16 * i] == Input(bytes, from, i) && s[16 * i..16 * i + 16] == Slice16(bytes, from + 16 * i) && s[..16 * i + 16] == s
  {
  }

  lemma BlockUpdate(mem: array<Byte>, srcPtr: nat, n: nat, z: Sums, i: nat, sums: Sums)
    requires mem.Length <= TWO32 && srcPtr + 16 * n <= mem.Length && i < n <= MAX_BLOCKS
    requires After(mem[..], srcPtr, z, i, sums)
    ensures var a := Wrap(srcPtr + Wrap(i * 16));
      0 <= a && a + 16 <= mem.Length && After(mem[..], srcPtr, z, i + 1, BlockStep(Load(mem, a), sums))
    ensures Wrap(i + 1) == i + 1
  {
    hide BlockStep, Load, Slice16, Wrap, After;
    BlockAddress(srcPtr, 16, i, n, mem.Length);
    LoadIs(mem, srcPtr + 16 * i);
    NextBlock(mem[..], srcPtr, z, i, sums);
  }

  lemma SumsEnd(bytes: seq<Byte>, from: nat, z: Sums, n: nat, sums: Sums)
    requires n <= MAX_BLOCKS && After(bytes, from, z, n, sums)
    ensures 0 <= sums.a < TWO32 && 0 <= sums.b < TWO32
    ensures from + 16 * n <= |bytes| && sums == Raw(Input(bytes, from, n), z)
  {
    SumsFit(n);
    hide MaxB, Raw;
  }

  /** The block loop: the unreduced sums of the 16·nBlocks bytes at srcPtr. */
  method Blocks(mem: array<Byte>, srcPtr: nat, nBlocks: nat, aInit: nat, bInit: nat) returns (a: nat, b: nat)
    requires mem.Length <= TWO32 && nBlocks <= MAX_BLOCKS && srcPtr + 16 * nBlocks <= mem.Length
    requires aInit < BASE && bInit < BASE
    ensures Sums(a, b) == Raw(Input(mem[..], srcPtr, nBlocks), Sums(aInit, bInit))
    ensures a < TWO32 && b < TWO32
  {
    hide BlockStep, Load, Slice16, Raw, Wrap, After, Input;
    ghost var z := Sums(aInit, bInit);
    var sums := Sums(aInit, bInit);
    var i := 0;
    Start(mem[..], srcPtr, z);
    while Signed(i) < Signed(nBlocks)
      invariant 0 <= i <= nBlocks && After(mem[..], srcPtr, z, i, sums)
      decreases nBlocks - i
    {
      BlockUpdate(mem, srcPtr, nBlocks, z, i, sums);
      sums := BlockStep(Load(mem, Wrap(srcPtr + Wrap(i * 16))), sums);
      i := Wrap(i + 1);
    }
    SumsEnd(mem[..], srcPtr, z, nBlocks, sums);
    a, b := sums.a, sums.b;
  }

  function U32At(m: seq<int>, p: nat): int
    requires p + 4 <= |m|
  {
    m[p] + 256 * m[p + 1] + 65536 * m[p + 2] + 16777216 * m[p + 3]
  }

  lemma FourBytes(x: int)
    ensures x % 256 + 256 * (x / 256 % 256) + 65536 * (x / 65536 % 256) + 16777216 * (x / 16777216) == x
  {
    assert x / 256 / 256 == x / 65536 && x / 65536 / 256 == x / 16777216;
  }

  /** i32.store, little-endian. */
  method Store32(mem: array<Byte>, p: nat, x: nat)
    requires p + 4 <= mem.Length && x < TWO32
    modifies mem
    ensures U32At(mem[..], p) == x
    ensures forall u :: 0 <= u < mem.Length && !(p <= u < p + 4) ==> mem[u] == old(mem[u])
  {
    FourBytes(x);
    mem[p] := x % 256;
    mem[p + 1] := x / 256 % 256;
    mem[p + 2] := x / 65536 % 256;
    mem[p + 3] := x / 16777216;
  }

  /** adler32(srcPtr, nBlocks, aInit, bInit, aOut, bOut). */
  method Run(mem: array<Byte>, srcPtr: nat, nBlocks: nat, aInit: nat, bInit: nat, aOut: nat, bOut: nat)
    requires mem.Length <= TWO32 && nBlocks <= MAX_BLOCKS && srcPtr + 16 * nBlocks <= mem.Length
    requires aInit < BASE && bInit < BASE
    requires aOut + 4 <= mem.Length && bOut + 4 <= mem.Length && (aOut + 4 <= bOut || bOut + 4 <= aOut)
    modifies mem
    ensures Sums(U32At(mem[..], aOut), U32At(mem[..], bOut)) ==
            Raw(Input(old(mem[..]), srcPtr, nBlocks), Sums(aInit, bInit))
    ensures forall u :: 0 <= u < mem.Length && !(aOut <= u < aOut + 4) && !(bOut <= u < bOut + 4) ==> mem[u] == old(mem[u])
  {
    var a, b := Blocks(mem, srcPtr, nBlocks, aInit, bInit);
    Store32(mem, aOut, a);
    Store32(mem, bOut, b);
  }

  // ------------------------------------------------------------ the caller's reduction

  function Mod(z: Sums): Sums {
    Sums(z.a % BASE, z.b % BASE)
  }

  lemma ModSum(x: int, y: int)
    ensures (x % BASE + y) % BASE == (x + y) % BASE && (x % BASE + y % BASE) % BASE == (x + y) % BASE
  {
    ModShift(BASE, x % BASE + y, x + y, -(x / BASE));
    ModShift(BASE, x % BASE + y % BASE, x + y, -(x / BASE) - y / BASE);
  }

  lemma ReduceStep(p: Sums, x: int)
    ensures Mod(Sums(p.a + x, p.b + p.a + x)) == (var a := (Mod(p).a + x) % BASE; Sums(a, (Mod(p).b + a) % BASE))
  {
    ModSum(p.a, x);
    ModSum(p.b, p.a + x);
  }

  /** Reducing once at the end is reducing after every byte. */
  lemma {:induction false} ReduceOnce(s: seq<Byte>, z: Sums)
    requires 0 <= z.a < BASE && 0 <= z.b < BASE
    ensures Mod(Raw(s, z)) == Reduced(s, z)
  {
    if s == [] {
    } else {
      ReduceOnce(s[..|s| - 1], z);
      ReduceStep(Raw(s[..|s| - 1], z), s[|s| - 1]);
      hide Mod;
    }
  }

  lemma {:induction false} ReducedConcat(s: seq<Byte>, t: seq<Byte>, z: Sums)
    ensures Reduced(s + t, z) == Reduced(t, Reduced(s, z))
  {
    if t == [] {
      assert s + t == s;
    } else {
      ReducedConcat(s, t[..|t| - 1], z);
      assert (s + t)[..|s + t| - 1] == s + t[..|t| - 1];
    }
  }

  function Concat(segments: seq<seq<Byte>>): seq<Byte> {
    if segments == [] then [] else segments[0] + Concat(segments[1..])
  }

  /** What a caller gets from calls on one segment after the other, the sums reduced between. */
  function Segmented(segments: seq<seq<Byte>>, z: Sums): Sums {
    if segments == [] then z else Segmented(segments[1..], Mod(Raw(segments[0], z)))
  }

  /** However the input is cut, the segmented sums are its checksum's. */
  lemma {:induction false} SegmentsAreChecksum(segments: seq<seq<Byte>>, z: Sums)
    requires 0 <= z.a < BASE && 0 <= z.b < BASE
    ensures Segmented(segments, z) == Reduced(Concat(segments), z)
    decreases |segments|
  {
    if segments == [] {
    } else {
      ReduceOnce(segments[0], z);
      SegmentsAreChecksum(segments[1..], Reduced(segments[0], z));
      ReducedConcat(segments[0], Concat(segments[1..]), z);
    }
  }

  /** Started from 1 and 0, they are the Adler-32 checksum of the whole input. */
  lemma SegmentsCheck(segments: seq<seq<Byte>>)
    ensures var z := Segmented(segments, Sums(1, 0)); z.b * 65536 + z.a == Checksum(Concat(segments))
  {
    SegmentsAreChecksum(segments, Sums(1, 0));
  }
}
