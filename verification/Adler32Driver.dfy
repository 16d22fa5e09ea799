/** The caller of the adler32 kernel: at most 347 blocks to a call, the sums reduced between the
    calls, and the bytes past the last block one at a time. */
module Adler32Driver {
  import opened Simd
  import opened Adler32

  /** The sums of the first n bytes. */
  ghost predicate SumsOf(bytes: seq<Byte>, srcPtr: nat, n: nat, z: Sums) {
    srcPtr + n <= |bytes| && z == Reduced(Bytes(bytes, srcPtr, n), Sums(1, 0)) && 0 <= z.a < BASE && 0 <= z.b < BASE
  }

  /** The input lies in memory, apart from the two words of the results. */
  ghost predicate Laid(size: nat, srcPtr: nat, n: nat, aOut: nat, bOut: nat) {
    && size <= TWO32 && srcPtr + n <= size && aOut + 4 <= size && bOut + 4 <= size
    && Disjoint(aOut, 4, bOut, 4) && Disjoint(srcPtr, n, aOut, 4) && Disjoint(srcPtr, n, bOut, 4)
  }

  /** Two memories that differ in the results' words only have the same input. */
  ghost predicate ResultsChanged(before: seq<Byte>, after: seq<Byte>, aOut: nat, bOut: nat) {
    |before| == |after| &&
    forall u :: 0 <= u < |after| && !(aOut <= u < aOut + 4) && !(bOut <= u < bOut + 4) ==> after[u] == before[u]
  }

  lemma InputKept(before: seq<Byte>, after: seq<Byte>, srcPtr: nat, n: nat, aOut: nat, bOut: nat, from: nat, c: nat)
    requires Laid(|before|, srcPtr, n, aOut, bOut) && ResultsChanged(before, after, aOut, bOut) && from + c <= n
    ensures Bytes(after, srcPtr + from, c) == Bytes(before, srcPtr + from, c)
  {
  }

  /** c bytes more. */
  lemma MoreBytes(bytes: seq<Byte>, srcPtr: nat, n: nat, c: nat, z: Sums, y: Sums)
    requires SumsOf(bytes, srcPtr, n, z) && srcPtr + n + c <= |bytes|
    requires y == Reduced(Bytes(bytes, srcPtr + n, c), z) && 0 <= y.a < BASE && 0 <= y.b < BASE
    ensures SumsOf(bytes, srcPtr, n + c, y)
  {
    assert Bytes(bytes, srcPtr, n + c) == Bytes(bytes, srcPtr, n) + Bytes(bytes, srcPtr + n, c);
    hide Reduced;
    ReducedConcat(Bytes(bytes, srcPtr, n), Bytes(bytes, srcPtr + n, c), Sums(1, 0));
  }

  /** One call's unreduced sums, reduced. */
  lemma OneCall(bytes: seq<Byte>, from: nat, k: nat, z: Sums)
    requires from + 16 * k <= |bytes| && 0 <= z.a < BASE && 0 <= z.b < BASE
    ensures var p := Raw(Input(bytes, from, k), z);
      Sums(p.a % BASE, p.b % BASE) == Reduced(Bytes(bytes, from, 16 * k), z)
  {
    hide Raw, Reduced;
    ReduceOnce(Input(bytes, from, k), z);
    assert Input(bytes, from, k) == Bytes(bytes, from, 16 * k);
  }

  lemma OneByte(bytes: seq<Byte>, from: nat, z: Sums)
    requires from < |bytes|
    ensures var a := (z.a + bytes[from]) % BASE;
      Reduced(Bytes(bytes, from, 1), z) == Sums(a, (z.b + a) % BASE)
  {
    var s := Bytes(bytes, from, 1);
    assert s[..0] == [] && s[0] == bytes[from];
  }

  /** i32.load, little-endian. */
  method Load32(mem: array<Byte>, p: nat) returns (x: int)
    requires p + 4 <= mem.Length
    ensures x == U32At(mem[..], p)
  {
    var b0: int, b1: int, b2: int, b3: int := mem[p], mem[p + 1], mem[p + 2], mem[p + 3];
    x := b0 + 256 * b1 + 65536 * b2 + 16777216 * b3;
  }

  /** One call on k blocks from `done` on, and the reduction after it. */
  method Segment(mem: array<Byte>, srcPtr: nat, n: nat, done: nat, k: nat, aOut: nat, bOut: nat, z: Sums) returns (y: Sums)
    requires Laid(mem.Length, srcPtr, n, aOut, bOut) && k <= MAX_BLOCKS && done + 16 * k <= n && SumsOf(mem[..], srcPtr, done, z)
    modifies mem
    ensures ResultsChanged(old(mem[..]), mem[..], aOut, bOut) && SumsOf(old(mem[..]), srcPtr, done + 16 * k, y)
  {
    hide Raw, Reduced;
    ghost var before := mem[..];
    Run(mem, srcPtr + done, k, z.a, z.b, aOut, bOut);
    var a := Load32(mem, aOut);
    var b := Load32(mem, bOut);
    y := Sums(a % BASE, b % BASE);
    OneCall(before, srcPtr + done, k, z);
    MoreBytes(before, srcPtr, done, 16 * k, z, y);
  }

  /** The same sums, in a memory with other results. */
  lemma SumsKept(before: seq<Byte>, after: seq<Byte>, srcPtr: nat, n: nat, done: nat, aOut: nat, bOut: nat, z: Sums)
    requires Laid(|before|, srcPtr, n, aOut, bOut) && ResultsChanged(before, after, aOut, bOut) && done <= n
    ensures SumsOf(before, srcPtr, done, z) <==> SumsOf(after, srcPtr, done, z)
  {
    hide Reduced;
    InputKept(before, after, srcPtr, n, aOut, bOut, 0, done);
  }

  lemma ChangedAgain(m0: seq<Byte>, m1: seq<Byte>, m2: seq<Byte>, aOut: nat, bOut: nat)
    requires ResultsChanged(m0, m1, aOut, bOut) && ResultsChanged(m1, m2, aOut, bOut)
    ensures ResultsChanged(m0, m2, aOut, bOut)
  {
  }

  /** The blocks of one call. */
  function BlocksNext(left: nat): (k: nat)
    requires left >= 16
    ensures 1 <= k <= MAX_BLOCKS && 16 * k <= left && (left - 16 * k) % 16 == left % 16
  {
    if left / 16 < MAX_BLOCKS then left / 16 else MAX_BLOCKS
  }

  lemma NothingYet(bytes: seq<Byte>, srcPtr: nat, aOut: nat, bOut: nat)
    requires srcPtr <= |bytes|
    ensures SumsOf(bytes, srcPtr, 0, Sums(1, 0)) && ResultsChanged(bytes, bytes, aOut, bOut)
  {
  }

  /** Every whole block, 5552 bytes to a call. */
  method Segments(mem: array<Byte>, srcPtr: nat, n: nat, aOut: nat, bOut: nat) returns (z: Sums)
    requires Laid(mem.Length, srcPtr, n, aOut, bOut)
    modifies mem
    ensures ResultsChanged(old(mem[..]), mem[..], aOut, bOut) && SumsOf(mem[..], srcPtr, n - n % 16, z)
  {
    NothingYet(mem[..], srcPtr, aOut, bOut);
    hide ResultsChanged, SumsOf, Laid, BlocksNext;
    z := Sums(1, 0);
    var done := 0;
    while n - done >= 16
      invariant done <= n && (n - done) % 16 == n % 16
      invariant ResultsChanged(old(mem[..]), mem[..], aOut, bOut) && SumsOf(mem[..], srcPtr, done, z)
      decreases n - done
    {
      var k := BlocksNext(n - done);
      ghost var before := mem[..];
      z := Segment(mem, srcPtr, n, done, k, aOut, bOut, z);
      ChangedAgain(old(mem[..]), before, mem[..], aOut, bOut);
      SumsKept(before, mem[..], srcPtr, n, done + 16 * k, aOut, bOut, z);
      done := done + 16 * k;
    }
  }

  /** The Adler-32 checksum of n bytes, for every n: whole blocks by the kernel, the rest here. */
  method Check(mem: array<Byte>, srcPtr: nat, n: nat, aOut: nat, bOut: nat) returns (c: int)
    requires Laid(mem.Length, srcPtr, n, aOut, bOut)
    modifies mem
    ensures ResultsChanged(old(mem[..]), mem[..], aOut, bOut) && c == Checksum(Bytes(old(mem[..]), srcPtr, n))
  {
    var z := Segments(mem, srcPtr, n, aOut, bOut);
    ghost var bytes := mem[..];
    for i := n - n % 16 to n
      invariant mem[..] == bytes && SumsOf(bytes, srcPtr, i, z)
    {
      hide SumsOf, ResultsChanged;
      var a := (z.a + mem[srcPtr + i]) % BASE;
      var y := Sums(a, (z.b + a) % BASE);
      OneByte(bytes, srcPtr + i, z);
      MoreBytes(bytes, srcPtr, i, 1, z, y);
      z := y;
    }
    InputKept(old(mem[..]), bytes, srcPtr, n, aOut, bOut, 0, n);
    c := z.b * 65536 + z.a;
  }
}
