/** The scanning kernels: matchlen16, memchr and indexany4. */
module Scans {
  import opened Simd

  /** The bytes at offset u of two buffers are the same. */
  ghost predicate Agree(bytes: seq<Byte>, a: nat, b: nat, u: nat) {
    a + u < |bytes| && b + u < |bytes| && bytes[a + u] == bytes[b + u]
  }

  lemma BlocksAgree(bytes: seq<Byte>, a: nat, b: nat, i: nat)
    requires a + i + 16 <= |bytes| && b + i + 16 <= |bytes|
    requires Chunk(Slice16(bytes, a + i), Slice16(bytes, b + i)) && AgreeBefore(bytes, a, b, i)
    ensures AgreeBefore(bytes, a, b, i + 16)
  {
    var eq := Eq(Slice16(bytes, a + i), Slice16(bytes, b + i));
    forall u | i <= u < i + 16 ensures Agree(bytes, a, b, u) {
      assert eq[u - i] != 0;
    }
  }

  function Chunk(a: V128, b: V128): bool {
    AllTrue(Eq(a, b))
  }

  /** Bytes 0, …, u - 1 of the two buffers agree. */
  ghost predicate AgreeBefore(bytes: seq<Byte>, a: nat, b: nat, n: nat) {
    forall u :: 0 <= u < n ==> Agree(bytes, a, b, u)
  }

  lemma AgreeStart(bytes: seq<Byte>, a: nat, b: nat)
    ensures AgreeBefore(bytes, a, b, 0)
  {
  }

  /** r is the length of the longest common prefix of the n bytes at a and at b. */
  ghost predicate IsPrefix(bytes: seq<Byte>, a: nat, b: nat, n: nat, r: nat) {
    r <= n && AgreeBefore(bytes, a, b, r) && (r < n ==> !Agree(bytes, a, b, r))
  }

  /** The last offset whose next chunk does not end past 2^31. */
  const EDGE := 0x7FFF_FFF0

  predicate ChunkInside(bytes: seq<Byte>, a: nat, b: nat, i: nat) {
    Wrap(a + i) + 16 <= |bytes| && Wrap(b + i) + 16 <= |bytes|
  }

  predicate ChunkAt(bytes: seq<Byte>, a: nat, b: nat, i: nat)
    requires ChunkInside(bytes, a, b, i)
  {
    Chunk(Slice16(bytes, Wrap(a + i)), Slice16(bytes, Wrap(b + i)))
  }

  /** The chunk loop stops before its counter turns negative: the limit is below the edge, or
      the buffers differ before it, or the chunk at the edge can be loaded and differs. */
  ghost predicate StopsInTime(bytes: seq<Byte>, a: nat, b: nat, limit: nat) {
    Count(limit) < EDGE || !AgreeBefore(bytes, a, b, EDGE) || (ChunkInside(bytes, a, b, EDGE) && !ChunkAt(bytes, a, b, EDGE))
  }

  /** The buffers of a call lie in a memory of 32-bit addresses. */
  predicate Buffers(bytes: seq<Byte>, a: nat, b: nat, limit: nat) {
    |bytes| <= TWO32 && limit < TWO32 && a + Count(limit) <= |bytes| && b + Count(limit) <= |bytes|
  }

  // ------------------------------------------------------------ the instructions, one at a time

  datatype Outcome = Running | Trapped | Returned(matched: nat)

  /** The byte loop from a matched count on, for at most `fuel` tests of its guard. */
  function TailLoop(bytes: seq<Byte>, a: nat, b: nat, limit: nat, matched: nat, fuel: nat): Outcome
    decreases fuel
  {
    if fuel == 0 then Running
    else if Signed(matched) >= Signed(limit) then Returned(matched)
    else if Wrap(a + matched) >= |bytes| || Wrap(b + matched) >= |bytes| then Trapped
    else if bytes[Wrap(a + matched)] != bytes[Wrap(b + matched)] then Returned(matched)
    else TailLoop(bytes, a, b, limit, Wrap(matched + 1), fuel - 1)
  }

  /** The chunk loop from i, which the matched count equals, and the byte loop after it. */
  function ChunkLoop(bytes: seq<Byte>, a: nat, b: nat, limit: nat, i: nat, fuel: nat): Outcome
    decreases fuel
  {
    if fuel == 0 then Running
    else if Signed(Wrap(i + 16)) > Signed(limit) then TailLoop(bytes, a, b, limit, i, fuel - 1)
    else if !ChunkInside(bytes, a, b, i) then Trapped
    else if !ChunkAt(bytes, a, b, i) then TailLoop(bytes, a, b, limit, i, fuel - 1)
    else ChunkLoop(bytes, a, b, limit, Wrap(i + 16), fuel - 1)
  }

  /** The run of a call returns r. */
  ghost predicate RunReturns(bytes: seq<Byte>, a: nat, b: nat, limit: nat, r: nat) {
    exists fuel: nat :: ChunkLoop(bytes, a, b, limit, 0, fuel) == Returned(r)
  }

  /** Below the edge, addresses do not wrap and the guard compares what it says. */
  lemma ChunkBelow(bytes: seq<Byte>, a: nat, b: nat, limit: nat, i: nat)
    requires Buffers(bytes, a, b, limit) && i % 16 == 0 && i <= Count(limit) && i < EDGE
    ensures Wrap(i + 16) == i + 16 && (Signed(i + 16) <= Signed(limit) <==> i + 16 <= Count(limit))
    ensures i + 16 <= Count(limit) ==> Wrap(a + i) == a + i && Wrap(b + i) == b + i && ChunkInside(bytes, a, b, i)
  {
  }

  /** At the edge the guard holds whatever the limit. */
  lemma GuardAtEdge(limit: nat, i: nat)
    requires limit < TWO32 && Count(limit) >= EDGE && EDGE <= i < TWO32 && i % 16 == 0
    ensures Signed(Wrap(i + 16)) <= Signed(limit)
    ensures i > EDGE ==> Signed(i) < 0 < Signed(limit)
  {
  }

  lemma TailStep(bytes: seq<Byte>, a: nat, b: nat, limit: nat, m: nat)
    requires Buffers(bytes, a, b, limit) && m < Count(limit)
    ensures Wrap(a + m) == a + m && Wrap(b + m) == b + m && Wrap(m + 1) == m + 1
  {
  }

  /** The byte loop, from a common prefix. */
  lemma {:induction false} TailRuns(bytes: seq<Byte>, a: nat, b: nat, limit: nat, m: nat) returns (r: nat, fuel: nat)
    requires Buffers(bytes, a, b, limit) && m <= Count(limit) && AgreeBefore(bytes, a, b, m)
    ensures TailLoop(bytes, a, b, limit, m, fuel) == Returned(r) && IsPrefix(bytes, a, b, Count(limit), r)
    decreases Count(limit) - m
  {
    hide Count, Signed, Wrap, AgreeBefore, Agree;
    CountsUp(m, limit);
    if m == Count(limit) {
      r, fuel := m, 1;
    } else {
      TailStep(bytes, a, b, limit, m);
      ByteAgrees(bytes, a, b, m);
      if bytes[a + m] != bytes[b + m] {
        r, fuel := m, 1;
      } else {
        r, fuel := TailRuns(bytes, a, b, limit, m + 1);
        fuel := fuel + 1;
      }
    }
  }

  /** The chunk loop, from a common prefix of whole chunks. */
  lemma {:induction false} ChunksRun(bytes: seq<Byte>, a: nat, b: nat, limit: nat, i: nat) returns (r: nat, fuel: nat)
    requires Buffers(bytes, a, b, limit) && StopsInTime(bytes, a, b, limit)
    requires i % 16 == 0 && i <= Count(limit) && AgreeBefore(bytes, a, b, i)
    ensures ChunkLoop(bytes, a, b, limit, i, fuel) == Returned(r) && IsPrefix(bytes, a, b, Count(limit), r)
    decreases Count(limit) - i
  {
    hide Count, Signed, Wrap, AgreeBefore, Agree, Chunk, ChunkInside, TailLoop, IsPrefix, Buffers;
    LimitBelow(bytes, a, b, limit);
    if i < EDGE {
      ChunkBelow(bytes, a, b, limit, i);
    } else {
      GuardAtEdge(limit, i);
    }
    if i < EDGE && i + 16 <= Count(limit) && ChunkAt(bytes, a, b, i) {
      ChunkAgrees(bytes, a, b, i);
      r, fuel := ChunksRun(bytes, a, b, limit, i + 16);
    } else {
      r, fuel := TailRuns(bytes, a, b, limit, i);
    }
    fuel := fuel + 1;
  }

  lemma LimitBelow(bytes: seq<Byte>, a: nat, b: nat, limit: nat)
    requires Buffers(bytes, a, b, limit)
    ensures limit < TWO32 && Count(limit) < EDGE + 16
  {
  }

  lemma ChunkAgrees(bytes: seq<Byte>, a: nat, b: nat, i: nat)
    requires ChunkInside(bytes, a, b, i) && Wrap(a + i) == a + i && Wrap(b + i) == b + i
    requires ChunkAt(bytes, a, b, i) && AgreeBefore(bytes, a, b, i)
    ensures AgreeBefore(bytes, a, b, i + 16)
  {
    hide Chunk, Wrap, AgreeBefore, Slice16;
    BlocksAgree(bytes, a, b, i);
  }

  /** Chunks of a common prefix are equal. */
  lemma AgreeingChunk(bytes: seq<Byte>, a: nat, b: nat, i: nat)
    requires ChunkInside(bytes, a, b, i) && Wrap(a + i) == a + i && Wrap(b + i) == b + i && AgreeBefore(bytes, a, b, i + 16)
    ensures ChunkAt(bytes, a, b, i)
  {
    hide Wrap;
    var eq := Eq(Slice16(bytes, a + i), Slice16(bytes, b + i));
    forall l | 0 <= l < 16 ensures eq[l] != 0 {
      assert Agree(bytes, a, b, i + l);
    }
  }

  /** Past the edge the byte loop starts in a differing chunk and returns a negative count. */
  lemma {:induction false} TailNegative(bytes: seq<Byte>, a: nat, b: nat, limit: nat, i: nat, t: nat, l: nat, fuel: nat)
    requires |bytes| <= TWO32 && limit < TWO32 && Signed(limit) >= 0 && 0x8000_0000 <= i && i + 16 <= TWO32 && t <= l < 16
    requires ChunkInside(bytes, a, b, i) && bytes[Wrap(a + i) + l] != bytes[Wrap(b + i) + l]
    ensures var out := TailLoop(bytes, a, b, limit, i + t, fuel);
      out.Returned? ==> out.matched >= 0x8000_0000
    decreases fuel
  {
    if fuel > 0 {
      WrapInside(bytes, a, i, t);
      WrapInside(bytes, b, i, t);
      if bytes[Wrap(a + i) + t] == bytes[Wrap(b + i) + t] {
        SmallWrap(i + t + 1);
        TailNegative(bytes, a, b, limit, i, t + 1, l, fuel - 1);
      }
    }
  }

  lemma WrapInside(bytes: seq<Byte>, a: nat, i: nat, t: nat)
    requires |bytes| <= TWO32 && Wrap(a + i) + 16 <= |bytes| && t < 16
    ensures Wrap(a + (i + t)) == Wrap(a + i) + t
  {
    var q := (a + i) / TWO32;
    assert a + (i + t) == q * TWO32 + (Wrap(a + i) + t);
  }

  /** A chunk that is not all equal has a differing byte. */
  lemma DiffersAt(bytes: seq<Byte>, a: nat, b: nat, i: nat) returns (l: nat)
    requires ChunkInside(bytes, a, b, i) && !ChunkAt(bytes, a, b, i)
    ensures l < 16 && bytes[Wrap(a + i) + l] != bytes[Wrap(b + i) + l]
  {
    hide Wrap;
    var x, y := Slice16(bytes, Wrap(a + i)), Slice16(bytes, Wrap(b + i));
    l :| 0 <= l < 16 && Eq(x, y)[l] == 0;
    assert x[l] == bytes[Wrap(a + i) + l] && y[l] == bytes[Wrap(b + i) + l];
  }

  /** A run that reaches the edge with nothing to stop it never returns a count below 2^31. */
  lemma {:induction false} NeverRight(bytes: seq<Byte>, a: nat, b: nat, limit: nat, i: nat, fuel: nat)
    requires Buffers(bytes, a, b, limit) && !StopsInTime(bytes, a, b, limit) && i % 16 == 0 && i < TWO32
    ensures var out := ChunkLoop(bytes, a, b, limit, i, fuel);
      out.Returned? ==> out.matched >= 0x8000_0000
    decreases fuel
  {
    hide Count, Signed, Wrap, AgreeBefore, Agree, Chunk, TailLoop, ChunkInside, ChunkAt;
    if fuel > 0 {
      if i < EDGE {
        ChunkBelow(bytes, a, b, limit, i);
        PrefixShorter(bytes, a, b, i + 16, EDGE);
        AgreeingChunk(bytes, a, b, i);
        NeverRight(bytes, a, b, limit, i + 16, fuel - 1);
      } else {
        GuardAtEdge(limit, i);
        WrapNext(i);
        if ChunkInside(bytes, a, b, i) {
          if ChunkAt(bytes, a, b, i) {
            NeverRight(bytes, a, b, limit, Wrap(i + 16), fuel - 1);
          } else {
            var l := DiffersAt(bytes, a, b, i);
            TailNegative(bytes, a, b, limit, i, 0, l, fuel - 1);
          }
        }
      }
    }
  }

  lemma WrapNext(i: nat)
    requires i % 16 == 0 && i < TWO32
    ensures Wrap(i + 16) % 16 == 0 && i + 16 <= TWO32
  {
  }

  lemma PrefixShorter(bytes: seq<Byte>, a: nat, b: nat, m: nat, n: nat)
    requires m <= n && AgreeBefore(bytes, a, b, n)
    ensures AgreeBefore(bytes, a, b, m)
  {
  }

  lemma NotLonger(bytes: seq<Byte>, a: nat, b: nat, r: nat, r': nat)
    requires AgreeBefore(bytes, a, b, r') && !Agree(bytes, a, b, r)
    ensures r' <= r
  {
  }

  lemma PrefixUnique(bytes: seq<Byte>, a: nat, b: nat, n: nat, r: nat, r': nat)
    requires IsPrefix(bytes, a, b, n, r) && IsPrefix(bytes, a, b, n, r')
    ensures r == r'
  {
    hide AgreeBefore, Agree;
    if r < n {
      NotLonger(bytes, a, b, r, r');
    }
    if r' < n {
      NotLonger(bytes, a, b, r', r);
    }
  }

  /** The call returns the longest common prefix exactly when its chunk loop stops in time;
      otherwise it traps, never ends or returns a negative count. */
  lemma MatchesExactly(bytes: seq<Byte>, a: nat, b: nat, limit: nat)
    requires Buffers(bytes, a, b, limit)
    ensures (exists r: nat :: RunReturns(bytes, a, b, limit, r) && IsPrefix(bytes, a, b, Count(limit), r)) <==> StopsInTime(bytes, a, b, limit)
    ensures !StopsInTime(bytes, a, b, limit) ==> forall r: nat :: RunReturns(bytes, a, b, limit, r) ==> Signed(r) < 0 || r >= TWO32
  {
    hide ChunkLoop, StopsInTime, Agree;
    if StopsInTime(bytes, a, b, limit) {
      AgreeStart(bytes, a, b);
      var r, fuel := ChunksRun(bytes, a, b, limit, 0);
      assert RunReturns(bytes, a, b, limit, r);
    } else {
      forall fuel: nat ensures var out := ChunkLoop(bytes, a, b, limit, 0, fuel); out.Returned? ==> out.matched >= 0x8000_0000 {
        NeverRight(bytes, a, b, limit, 0, fuel);
      }
    }
  }

  /** 2^31 zero bytes compared with themselves, the limit at the edge: all of them agree, and
      the call does not say so. */
  lemma MissesAtEdge()
    ensures var bytes: seq<Byte> := seq(0x8000_0000, _ => 0);
      IsPrefix(bytes, 0, 0, EDGE, EDGE) && !RunReturns(bytes, 0, 0, EDGE, EDGE)
  {
    hide ChunkLoop, RunReturns;
    var bytes: seq<Byte> := seq(0x8000_0000, _ => 0);
    assert AgreeBefore(bytes, 0, 0, EDGE + 16);
    AgreeingChunk(bytes, 0, 0, EDGE);
    assert !StopsInTime(bytes, 0, 0, EDGE);
    MatchesExactly(bytes, 0, 0, EDGE);
  }

  /** The longest common prefix of the bytes at ptrA and at ptrB, up to limit. */
  method MatchLen16(mem: array<Byte>, ptrA: nat, ptrB: nat, limit: nat) returns (matched: nat)
    requires Buffers(mem[..], ptrA, ptrB, limit) && StopsInTime(mem[..], ptrA, ptrB, limit)
    ensures matched <= Count(limit) && ptrA + matched <= mem.Length && ptrB + matched <= mem.Length
    ensures mem[ptrA..ptrA + matched] == mem[ptrB..ptrB + matched]
    ensures matched < Count(limit) ==> ptrA + matched < mem.Length && ptrB + matched < mem.Length && mem[ptrA + matched] != mem[ptrB + matched]
    ensures RunReturns(mem[..], ptrA, ptrB, limit, matched)
  {
    hide Wrap, Signed, Count, Agree, AgreeBefore, Chunk, Load, Slice16, StopsInTime, ChunkInside, ChunkAt, ChunkLoop, RunReturns, IsPrefix, Buffers;
    ghost var bytes, n := mem[..], Count(limit);
    matched := 0;
    var i := 0;
    AgreeStart(bytes, ptrA, ptrB);
    AtChunk(bytes, ptrA, ptrB, limit, 0);
    while Signed(Wrap(i + 16)) <= Signed(limit)
      invariant matched == i <= n && i % 16 == 0 && AgreeBefore(bytes, ptrA, ptrB, i)
      invariant Signed(Wrap(i + 16)) <= Signed(limit) ==> CanLoad(bytes, ptrA, ptrB, i, n)
      decreases n - i
    {
      LoadIs(mem, Wrap(ptrA + i));
      LoadIs(mem, Wrap(ptrB + i));
      if !Chunk(Load(mem, Wrap(ptrA + i)), Load(mem, Wrap(ptrB + i))) {
        break;
      }
      ChunkPassed(bytes, ptrA, ptrB, i, n);
      matched := Wrap(matched + 16);
      i := Wrap(i + 16);
      AtChunk(bytes, ptrA, ptrB, limit, i);
    }
    matched := ByteTail(mem, ptrA, ptrB, limit, matched);
    TheRun(bytes, ptrA, ptrB, limit, matched);
    PrefixBytes(bytes, ptrA, ptrB, limit, matched);
    assert bytes[ptrA..ptrA + matched] == mem[ptrA..ptrA + matched] && bytes[ptrB..ptrB + matched] == mem[ptrB..ptrB + matched];
  }

  /** The longest common prefix, byte for byte. */
  lemma PrefixBytes(bytes: seq<Byte>, a: nat, b: nat, limit: nat, r: nat)
    requires Buffers(bytes, a, b, limit) && IsPrefix(bytes, a, b, Count(limit), r)
    ensures r <= Count(limit) && a + r <= |bytes| && b + r <= |bytes| && bytes[a..a + r] == bytes[b..b + r]
    ensures r < Count(limit) ==> a + r < |bytes| && b + r < |bytes| && bytes[a + r] != bytes[b + r]
  {
    var s, t := bytes[a..a + r], bytes[b..b + r];
    forall u | 0 <= u < r ensures s[u] == t[u] {
      assert Agree(bytes, a, b, u);
    }
  }

  /** The chunk at i can be loaded; if it is equal, it ends inside the limit. */
  ghost predicate CanLoad(bytes: seq<Byte>, a: nat, b: nat, i: nat, n: nat) {
    && Wrap(a + i) + 16 <= |bytes| && Wrap(b + i) + 16 <= |bytes|
    && (Chunk(Slice16(bytes, Wrap(a + i)), Slice16(bytes, Wrap(b + i))) ==>
          i + 16 <= n < TWO32 && Wrap(a + i) == a + i && Wrap(b + i) == b + i)
  }

  lemma AtChunk(bytes: seq<Byte>, a: nat, b: nat, limit: nat, i: nat)
    requires Buffers(bytes, a, b, limit) && StopsInTime(bytes, a, b, limit)
    requires i % 16 == 0 && i <= Count(limit) && AgreeBefore(bytes, a, b, i)
    ensures Signed(Wrap(i + 16)) <= Signed(limit) ==> CanLoad(bytes, a, b, i, Count(limit))
  {
    hide Count, Signed, Wrap, AgreeBefore, Agree, Chunk, Buffers, Slice16;
    LimitBelow(bytes, a, b, limit);
    if i < EDGE {
      ChunkBelow(bytes, a, b, limit, i);
    }
  }

  lemma ChunkPassed(bytes: seq<Byte>, a: nat, b: nat, i: nat, n: nat)
    requires CanLoad(bytes, a, b, i, n) && Chunk(Slice16(bytes, Wrap(a + i)), Slice16(bytes, Wrap(b + i))) && AgreeBefore(bytes, a, b, i)
    ensures Wrap(i + 16) == i + 16 <= n && AgreeBefore(bytes, a, b, i + 16)
  {
    hide Wrap, Chunk, Slice16, AgreeBefore;
    SmallWrap(i + 16);
    BlocksAgree(bytes, a, b, i);
  }

  /** The method's result is the run's. */
  lemma TheRun(bytes: seq<Byte>, a: nat, b: nat, limit: nat, r: nat)
    requires Buffers(bytes, a, b, limit) && StopsInTime(bytes, a, b, limit) && IsPrefix(bytes, a, b, Count(limit), r)
    ensures RunReturns(bytes, a, b, limit, r)
  {
    hide ChunkLoop, StopsInTime, Agree, IsPrefix;
    AgreeStart(bytes, a, b);
    var r', fuel := ChunksRun(bytes, a, b, limit, 0);
    PrefixUnique(bytes, a, b, Count(limit), r, r');
  }

  /** The byte loop: from a common prefix of `from` bytes to the first mismatch. */
  method ByteTail(mem: array<Byte>, ptrA: nat, ptrB: nat, limit: nat, from: nat) returns (matched: nat)
    requires Buffers(mem[..], ptrA, ptrB, limit) && from <= Count(limit) && AgreeBefore(mem[..], ptrA, ptrB, from)
    ensures IsPrefix(mem[..], ptrA, ptrB, Count(limit), matched)
  {
    ghost var bytes, n := mem[..], Count(limit);
    matched := from;
    hide Wrap, Signed, Count, Agree, AgreeBefore;
    CountsUp(matched, limit);
    while Signed(matched) < Signed(limit)
      invariant matched <= n && (Signed(matched) < Signed(limit) <==> matched < n)
      invariant AgreeBefore(bytes, ptrA, ptrB, matched)
      decreases n - matched
    {
      TailStep(bytes, ptrA, ptrB, limit, matched);
      ByteAgrees(bytes, ptrA, ptrB, matched);
      if mem[Wrap(ptrA + matched)] != mem[Wrap(ptrB + matched)] {
        break;
      }
      matched := Wrap(matched + 1);
      CountsUp(matched, limit);
    }
  }

  lemma ByteAgrees(bytes: seq<Byte>, a: nat, b: nat, u: nat)
    requires a + u < |bytes| && b + u < |bytes|
    ensures Agree(bytes, a, b, u) <==> bytes[a + u] == bytes[b + u]
    ensures AgreeBefore(bytes, a, b, u) && Agree(bytes, a, b, u) ==> AgreeBefore(bytes, a, b, u + 1)
  {
  }

  /** i32 -1. */
  const NOT_FOUND := 0xFFFF_FFFF

  /** What a scan returns: the least offset below n that satisfies hit, or -1. */
  ghost predicate IsFirst(hit: int -> bool, n: nat, r: int) {
    if r == NOT_FOUND then forall u :: 0 <= u < n ==> !hit(u)
    else 0 <= r < n && hit(r) && forall u :: 0 <= u < r ==> !hit(u)
  }

  /** The bytes searched for: the low bytes of one or four i32s. */
  datatype Keys = One(n: nat) | Four(n1: nat, n2: nat, n3: nat, n4: nat)

  predicate IsKey(b: Byte, needles: Keys) {
    match needles
    case One(n) => b == n % 256
    case Four(n1, n2, n3, n4) => b == n1 % 256 || b == n2 % 256 || b == n3 % 256 || b == n4 % 256
  }

  ghost function IsByte(bytes: seq<Byte>, from: nat, needles: Keys): int -> bool {
    u => 0 <= from + u < |bytes| && IsKey(bytes[from + u], needles)
  }

  /** No byte before offset n is a needle. */
  ghost predicate NoneBefore(bytes: seq<Byte>, from: nat, needles: Keys, n: int) {
    forall u :: 0 <= u < n ==> !IsByte(bytes, from, needles)(u)
  }

  /** What the mask of block i says about it. */
  ghost predicate Scanned(bytes: seq<Byte>, from: nat, needles: Keys, i: nat, mask: nat) {
    && (mask == 0 ==> NoneBefore(bytes, from, needles, 16 * (i + 1)))
    && (mask > 0 ==>
          var r := 16 * i + Ctz(mask);
          r < 16 * i + 16 && IsByte(bytes, from, needles)(r) && NoneBefore(bytes, from, needles, r))
  }

  lemma LaneIsByte(bytes: seq<Byte>, from: nat, needles: Keys, i: nat, l: nat)
    requires from + 16 * i + 16 <= |bytes| && l < 16
    ensures IsByte(bytes, from, needles)(16 * i + l) <==> Mask(IsKey(bytes[from + 16 * i + l], needles)) >= 128
  {
    assert from + 16 * i + l == from + (16 * i + l);
  }

  /** The lanes below c of block i have no needle, so nothing has before byte 16·i + c. */
  lemma NoneInLanes(bytes: seq<Byte>, from: nat, needles: Keys, i: nat, eq: V128, c: nat)
    requires from + 16 * i + 16 <= |bytes| && NoneBefore(bytes, from, needles, 16 * i) && c <= 16
    requires forall l :: 0 <= l < 16 ==> eq[l] == Mask(IsKey(bytes[from + 16 * i + l], needles))
    requires forall l :: 0 <= l < c ==> eq[l] < 128
    ensures NoneBefore(bytes, from, needles, 16 * i + c)
  {
    hide IsByte, IsKey, Mask;
    forall u | 0 <= u < 16 * i + c ensures !IsByte(bytes, from, needles)(u) {
      if u >= 16 * i {
        LaneIsByte(bytes, from, needles, i, u - 16 * i);
        assert eq[u - 16 * i] < 128;
      }
    }
  }

  /** A comparison that has a lane set just where a byte is a needle. */
  lemma BlockScanned(bytes: seq<Byte>, from: nat, needles: Keys, i: nat, eq: V128)
    requires from + 16 * i + 16 <= |bytes| && NoneBefore(bytes, from, needles, 16 * i)
    requires forall l :: 0 <= l < 16 ==> eq[l] == Mask(IsKey(bytes[from + 16 * i + l], needles))
    ensures Scanned(bytes, from, needles, i, Bitmask(eq))
  {
    hide MaskFrom, Ctz, IsByte, IsKey, Mask, NoneBefore;
    FirstLane(eq, 0);
    var mask := Bitmask(eq);
    if mask == 0 {
      NoneInLanes(bytes, from, needles, i, eq, 16);
    } else {
      NoneInLanes(bytes, from, needles, i, eq, Ctz(mask));
      LaneIsByte(bytes, from, needles, i, Ctz(mask));
    }
  }

  function FoundIndex(i: nat, mask: nat): nat
    requires mask > 0
  {
    Wrap(Wrap(i * 16) + Ctz(mask))
  }

  /** The result when a block has a match. */
  lemma FoundAt(bytes: seq<Byte>, from: nat, needles: Keys, n: nat, i: nat, mask: nat)
    requires from + 16 * n <= |bytes| && 16 * n < TWO32 && i < n && mask > 0 && Scanned(bytes, from, needles, i, mask)
    ensures IsFirst(IsByte(bytes, from, needles), 16 * n, FoundIndex(i, mask))
  {
    hide Ctz, IsByte;
    SmallWrap(i * 16);
    SmallWrap(16 * i + Ctz(mask));
  }

  lemma NotFound(bytes: seq<Byte>, from: nat, needles: Keys, n: nat)
    requires NoneBefore(bytes, from, needles, 16 * n)
    ensures IsFirst(IsByte(bytes, from, needles), 16 * n, NOT_FOUND)
  {
  }

  /** The i32 a scan returns: -1 when no byte below n is a needle, else the least such offset,
      which as an i32 is negative when it is 2^31 or more. */
  ghost predicate Answer(bytes: seq<Byte>, from: nat, needles: Keys, n: nat, r: nat) {
    && r < TWO32 && from + n <= |bytes|
    && (Signed(r) == -1 <==> forall p :: from <= p < from + n ==> !IsKey(bytes[p], needles))
    && (Signed(r) != -1 ==> r < n && IsKey(bytes[from + r], needles) && forall p :: from <= p < from + r ==> !IsKey(bytes[p], needles))
    && (Signed(r) >= 0 ==> Signed(r) == r) && (Signed(r) < -1 ==> Signed(r) == r - TWO32 && r >= 0x8000_0000)
  }

  lemma FirstIsAnswer(bytes: seq<Byte>, from: nat, needles: Keys, n: nat, r: nat)
    requires from + n <= |bytes| && n % 16 == 0 && n < TWO32 && IsFirst(IsByte(bytes, from, needles), n, r)
    ensures Answer(bytes, from, needles, n, r)
  {
    hide IsKey;
    var hit := IsByte(bytes, from, needles);
    forall p | from <= p < from + n ensures hit(p - from) <==> IsKey(bytes[p], needles) {
    }
    forall u | 0 <= u < n ensures hit(u) ==> IsKey(bytes[from + u], needles) {
    }
  }

  /** n bytes, the one at 2^31 the only needle. */
  function FarBytes(n: nat): (bytes: seq<Byte>)
    ensures |bytes| == n
  {
    seq(n, u => if u == 0x8000_0000 then 1 else 0)
  }

  /** It is found, but the answer is negative. */
  lemma FarMatch(n: nat)
    requires 0x8000_0000 < n < TWO32
    ensures Answer(FarBytes(n), 0, One(1), n, 0x8000_0000) && Signed(0x8000_0000) == -0x8000_0000
  {
    assert IsKey(FarBytes(n)[0x8000_0000], One(1));
  }

  /** What is found is told from -1 by being no less than 0 for every content of n bytes, if and
      only if n is at most 2^31. */
  lemma SignExactly(n: nat)
    requires n < TWO32
    ensures (forall bytes: seq<Byte>, needles: Keys, r: nat ::
               |bytes| == n && Answer(bytes, 0, needles, n, r) && Signed(r) != -1 ==> Signed(r) >= 0) <==> n <= 0x8000_0000
  {
    hide IsKey;
    if n > 0x8000_0000 {
      FarMatch(n);
      assert |FarBytes(n)| == n;
    }
  }

  lemma NoneYet(bytes: seq<Byte>, from: nat, needles: Keys)
    ensures NoneBefore(bytes, from, needles, 0)
  {
  }

  function ChrMask(v: V128, key: V128): nat {
    Bitmask(Eq(v, key))
  }

  lemma ChrScanned(bytes: seq<Byte>, from: nat, needle: nat, i: nat)
    requires from + 16 * i + 16 <= |bytes| && NoneBefore(bytes, from, One(needle), 16 * i)
    ensures Scanned(bytes, from, One(needle), i, ChrMask(Slice16(bytes, from + 16 * i), Splat(needle)))
  {
    BlockScanned(bytes, from, One(needle), i, Eq(Slice16(bytes, from + 16 * i), Splat(needle)));
  }

  method MemChr(mem: array<Byte>, srcPtr: nat, nBlocks: nat, needle: nat) returns (r: nat)
    requires mem.Length <= TWO32 && nBlocks < TWO32 && 16 * Count(nBlocks) < TWO32
    requires srcPtr + 16 * Count(nBlocks) <= mem.Length
    ensures Signed(r) == -1 <==> forall p :: srcPtr <= p < srcPtr + 16 * Count(nBlocks) ==> mem[p] != needle % 256
    ensures Signed(r) != -1 ==> r < 16 * Count(nBlocks) && mem[srcPtr + r] == needle % 256 && forall p :: srcPtr <= p < srcPtr + r ==> mem[p] != needle % 256
    ensures 16 * Count(nBlocks) <= 0x8000_0000 && Signed(r) != -1 ==> Signed(r) == r
  {
    r := ChrLoop(mem, srcPtr, nBlocks, needle);
    FirstIsAnswer(mem[..], srcPtr, One(needle), 16 * Count(nBlocks), r);
    hide IsFirst, IsByte;
    assert forall p :: 0 <= p < mem.Length ==> mem[..][p] == mem[p];
  }

  /** The loop over blocks. */
  method ChrLoop(mem: array<Byte>, srcPtr: nat, nBlocks: nat, needle: nat) returns (r: nat)
    requires mem.Length <= TWO32 && nBlocks < TWO32 && 16 * Count(nBlocks) < TWO32
    requires srcPtr + 16 * Count(nBlocks) <= mem.Length
    ensures IsFirst(IsByte(mem[..], srcPtr, One(needle)), 16 * Count(nBlocks), r)
  {
    ghost var bytes, needles, n := mem[..], One(needle), Count(nBlocks);
    var key := Splat(needle);
    var i := 0;
    NoneYet(bytes, srcPtr, needles);
    CountsUp(0, nBlocks);
    hide Wrap, FoundIndex, IsByte, ChrMask, Splat, NoneBefore, IsFirst, Signed, Count, Load, Slice16, Scanned;
    while Signed(i) < Signed(nBlocks)
      invariant i <= n && NoneBefore(bytes, srcPtr, needles, 16 * i) && (Signed(i) < Signed(nBlocks) <==> i < n)
      decreases n - i
    {
      BlockAddress(srcPtr, 16, i, n, mem.Length);
      LoadIs(mem, srcPtr + 16 * i);
      var mask := ChrMask(Load(mem, Wrap(srcPtr + Wrap(i * 16))), key);
      ChrScanned(bytes, srcPtr, needle, i);
      if mask != 0 {
        FoundAt(bytes, srcPtr, needles, n, i, mask);
        r := FoundIndex(i, mask);
        return;
      }
      NextBlock(bytes, srcPtr, needles, i);
      i := Wrap(i + 1);
      CountsUp(i, nBlocks);
    }
    NotFound(bytes, srcPtr, needles, n);
    r := NOT_FOUND;
  }

  lemma NextBlock(bytes: seq<Byte>, from: nat, needles: Keys, i: nat)
    requires Scanned(bytes, from, needles, i, 0)
    ensures NoneBefore(bytes, from, needles, 16 * (i + 1))
  {
  }

  lemma AnyScanned(bytes: seq<Byte>, from: nat, n1: nat, n2: nat, n3: nat, n4: nat, i: nat)
    requires from + 16 * i + 16 <= |bytes| && NoneBefore(bytes, from, Four(n1, n2, n3, n4), 16 * i)
    ensures Scanned(bytes, from, Four(n1, n2, n3, n4), i,
                    AnyMask(Slice16(bytes, from + 16 * i), Splat(n1), Splat(n2), Splat(n3), Splat(n4)))
  {
    var v := Slice16(bytes, from + 16 * i);
    AnyOfLanes(v, Splat(n1), Splat(n2), Splat(n3), Splat(n4));
    hide AnyOf, Scanned, NoneBefore;
    BlockScanned(bytes, from, Four(n1, n2, n3, n4), i, AnyOf(v, Splat(n1), Splat(n2), Splat(n3), Splat(n4)));
  }

  method IndexAny4(mem: array<Byte>, srcPtr: nat, nBlocks: nat, n1: nat, n2: nat, n3: nat, n4: nat) returns (r: nat)
    requires mem.Length <= TWO32 && nBlocks < TWO32 && 16 * Count(nBlocks) < TWO32
    requires srcPtr + 16 * Count(nBlocks) <= mem.Length
    ensures Signed(r) == -1 <==> forall p :: srcPtr <= p < srcPtr + 16 * Count(nBlocks) ==> mem[p] !in {n1 % 256, n2 % 256, n3 % 256, n4 % 256}
    ensures Signed(r) != -1 ==>
      && r < 16 * Count(nBlocks) && mem[srcPtr + r] in {n1 % 256, n2 % 256, n3 % 256, n4 % 256}
      && forall p :: srcPtr <= p < srcPtr + r ==> mem[p] !in {n1 % 256, n2 % 256, n3 % 256, n4 % 256}
    ensures 16 * Count(nBlocks) <= 0x8000_0000 && Signed(r) != -1 ==> Signed(r) == r
  {
    r := AnyLoop(mem, srcPtr, nBlocks, n1, n2, n3, n4);
    FirstIsAnswer(mem[..], srcPtr, Four(n1, n2, n3, n4), 16 * Count(nBlocks), r);
    hide IsFirst, IsByte;
    assert forall p :: 0 <= p < mem.Length ==> mem[..][p] == mem[p];
  }

  /** The loop over blocks. */
  method AnyLoop(mem: array<Byte>, srcPtr: nat, nBlocks: nat, n1: nat, n2: nat, n3: nat, n4: nat) returns (r: nat)
    requires mem.Length <= TWO32 && nBlocks < TWO32 && 16 * Count(nBlocks) < TWO32
    requires srcPtr + 16 * Count(nBlocks) <= mem.Length
    ensures IsFirst(IsByte(mem[..], srcPtr, Four(n1, n2, n3, n4)), 16 * Count(nBlocks), r)
  {
    ghost var bytes, needles, n := mem[..], Four(n1, n2, n3, n4), Count(nBlocks);
    var k1, k2, k3, k4 := Splat(n1), Splat(n2), Splat(n3), Splat(n4);
    var i := 0;
    NoneYet(bytes, srcPtr, needles);
    CountsUp(0, nBlocks);
    hide Wrap, FoundIndex, IsByte, AnyMask, Splat, NoneBefore, IsFirst, Signed, Count, Load, Slice16, Scanned;
    while Signed(i) < Signed(nBlocks)
      invariant i <= n && NoneBefore(bytes, srcPtr, needles, 16 * i) && (Signed(i) < Signed(nBlocks) <==> i < n)
      decreases n - i
    {
      BlockAddress(srcPtr, 16, i, n, mem.Length);
      LoadIs(mem, srcPtr + 16 * i);
      var mask := AnyMask(Load(mem, Wrap(srcPtr + Wrap(i * 16))), k1, k2, k3, k4);
      AnyScanned(bytes, srcPtr, n1, n2, n3, n4, i);
      if mask != 0 {
        FoundAt(bytes, srcPtr, needles, n, i, mask);
        r := FoundIndex(i, mask);
        return;
      }
      NextBlock(bytes, srcPtr, needles, i);
      i := Wrap(i + 1);
      CountsUp(i, nBlocks);
    }
    NotFound(bytes, srcPtr, needles, n);
    r := NOT_FOUND;
  }

  function AnyMask(bytes: V128, k1: V128, k2: V128, k3: V128, k4: V128): nat {
    Bitmask(AnyOf(bytes, k1, k2, k3, k4))
  }

  function AnyOf(bytes: V128, k1: V128, k2: V128, k3: V128, k4: V128): V128 {
    Or(Or(Or(Eq(bytes, k1), Eq(bytes, k2)), Eq(bytes, k3)), Eq(bytes, k4))
  }

  lemma AnyOfLanes(bytes: V128, k1: V128, k2: V128, k3: V128, k4: V128)
    ensures forall l :: 0 <= l < 16 ==>
      AnyOf(bytes, k1, k2, k3, k4)[l] == Mask(bytes[l] == k1[l] || bytes[l] == k2[l] || bytes[l] == k3[l] || bytes[l] == k4[l])
  {
    hide Or8;
    forall l | 0 <= l < 16
      ensures AnyOf(bytes, k1, k2, k3, k4)[l] == Mask(bytes[l] == k1[l] || bytes[l] == k2[l] || bytes[l] == k3[l] || bytes[l] == k4[l])
    {
      var a, b, c, d := bytes[l] == k1[l], bytes[l] == k2[l], bytes[l] == k3[l], bytes[l] == k4[l];
      OrMasks(a, b);
      OrMasks(a || b, c);
      OrMasks(a || b || c, d);
    }
  }
}
