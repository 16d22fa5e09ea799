/** The rune counter: every rune of a UTF-8 text has one byte that is not a continuation
    (section 3 of RFC 3629), however the runes fall over the blocks. */
module Utf8Len {
  import opened Simd

  /** 10xxxxxx. */
  predicate IsContinuation(b: Byte) {
    128 <= b < 192
  }

  function Leaders(s: seq<Byte>): (n: nat)
    ensures n <= |s|
  {
    if s == [] then 0 else Leaders(s[..|s| - 1]) + if IsContinuation(s[|s| - 1]) then 0 else 1
  }

  // ------------------------------------------------------------ UTF-8

  /** A scalar value: no surrogate. */
  predicate IsRune(c: int) {
    0 <= c < 0xD800 || 0xE000 <= c <= 0x10FFFF
  }

  /** The bytes of one rune. */
  function EncodeRune(c: int): (s: seq<Byte>)
    requires IsRune(c)
    ensures s != [] && !IsContinuation(s[0]) && forall i :: 0 < i < |s| ==> IsContinuation(s[i])
  {
    if c < 0x80 then [c]
    else if c < 0x800 then [0xC0 + c / 0x40, 0x80 + c % 0x40]
    else if c < 0x1_0000 then [0xE0 + c / 0x1000, 0x80 + c / 0x40 % 0x40, 0x80 + c % 0x40]
    else [0xF0 + c / 0x4_0000, 0x80 + c / 0x1000 % 0x40, 0x80 + c / 0x40 % 0x40, 0x80 + c % 0x40]
  }

  function EncodeText(runes: seq<int>): seq<Byte>
    requires forall i :: 0 <= i < |runes| ==> IsRune(runes[i])
  {
    if runes == [] then [] else EncodeText(runes[..|runes| - 1]) + EncodeRune(runes[|runes| - 1])
  }

  lemma {:induction false} LeadersConcat(s: seq<Byte>, t: seq<Byte>)
    ensures Leaders(s + t) == Leaders(s) + Leaders(t)
  {
    if t == [] {
      assert s + t == s;
    } else {
      LeadersConcat(s, t[..|t| - 1]);
      assert (s + t)[..|s + t| - 1] == s + t[..|t| - 1];
    }
  }

  lemma {:induction false} OneLeader(s: seq<Byte>)
    requires s != [] && !IsContinuation(s[0]) && forall i :: 0 < i < |s| ==> IsContinuation(s[i])
    ensures Leaders(s) == 1
    decreases |s|
  {
    if |s| == 1 {
      assert s[..0] == [];
    } else {
      OneLeader(s[..|s| - 1]);
    }
  }

  /** The leaders of a text are its runes. */
  lemma {:induction false} LeadersAreRunes(runes: seq<int>)
    requires forall i :: 0 <= i < |runes| ==> IsRune(runes[i])
    ensures Leaders(EncodeText(runes)) == |runes|
  {
    if runes == [] {
    } else {
      LeadersAreRunes(runes[..|runes| - 1]);
      OneLeader(EncodeRune(runes[|runes| - 1]));
      LeadersConcat(EncodeText(runes[..|runes| - 1]), EncodeRune(runes[|runes| - 1]));
    }
  }

  // ------------------------------------------------------------ one block

  function Continuations(v: V128): nat {
    Popcnt(Bitmask(Eq(And(v, Splat(0xc0)), Splat(0x80))))
  }

  function SetFrom(v: V128, from: nat): (n: nat)
    requires from <= 16
    ensures n <= 16 - from
    decreases 16 - from
  {
    if from == 16 then 0 else (if v[from] >= 128 then 1 else 0) + SetFrom(v, from + 1)
  }

  lemma PopcntStep(m: nat)
    ensures Popcnt(2 * m) == Popcnt(m) && Popcnt(1 + 2 * m) == 1 + Popcnt(m)
  {
    assert (2 * m) / 2 == m && (1 + 2 * m) / 2 == m && (2 * m) % 2 == 0 && (1 + 2 * m) % 2 == 1;
  }

  lemma OneMore(v: V128, from: nat)
    requires from < 16
    ensures var b := if v[from] >= 128 then 1 else 0;
      MaskFrom(v, from) == b + 2 * MaskFrom(v, from + 1) && SetFrom(v, from) == b + SetFrom(v, from + 1)
  {
  }

  lemma NoneLeft(v: V128)
    ensures Popcnt(MaskFrom(v, 16)) == 0 == SetFrom(v, 16)
  {
  }

  lemma {:induction false} PopcntCounts(v: V128, from: nat)
    requires from <= 16
    ensures Popcnt(MaskFrom(v, from)) == SetFrom(v, from)
    decreases 16 - from
  {
    hide Popcnt, MaskFrom, SetFrom;
    if from == 16 {
      NoneLeft(v);
    } else {
      OneMore(v, from);
      PopcntCounts(v, from + 1);
      PopcntStep(MaskFrom(v, from + 1));
    }
  }

  /** The top two bits are 10. */
  lemma Tag(x: Byte)
    ensures And8(x, 0xc0) == 0x80 <==> IsContinuation(x)
  {
    HighBits(x);
    hide And8;
  }

  lemma TagLane(v: V128, l: int)
    requires 0 <= l < 16
    ensures Eq(And(v, Splat(0xc0)), Splat(0x80))[l] == Mask(IsContinuation(v[l]))
  {
    Tag(v[l]);
    hide And, Eq, Splat, And8, IsContinuation, Mask;
    SplatLane(0xc0, l);
    SplatLane(0x80, l);
    ByteLanes(v, Splat(0xc0), l);
    ByteLanes(And(v, Splat(0xc0)), Splat(0x80), l);
  }

  lemma {:induction false} SetAreContinuations(v: V128, eq: V128, from: nat)
    requires from <= 16 && forall l :: 0 <= l < 16 ==> eq[l] == Mask(IsContinuation(v[l]))
    ensures SetFrom(eq, from) == 16 - from - Leaders(v[from..])
    decreases 16 - from
  {
    if from == 16 {
      assert v[16..] == [];
    } else {
      SetAreContinuations(v, eq, from + 1);
      assert v[from..] == v[from..from + 1] + v[from + 1..];
      LeadersConcat(v[from..from + 1], v[from + 1..]);
      assert v[from..from + 1][..0] == [];
    }
  }

  lemma BlockCount(v: V128)
    ensures Continuations(v) == 16 - Leaders(v)
  {
    var eq := Eq(And(v, Splat(0xc0)), Splat(0x80));
    forall l | 0 <= l < 16 ensures eq[l] == Mask(IsContinuation(v[l])) {
      TagLane(v, l);
    }
    hide Eq, And, Splat, Leaders, SetFrom, MaskFrom, Popcnt;
    PopcntCounts(eq, 0);
    SetAreContinuations(v, eq, 0);
    assert v[0..] == v;
  }

  // ------------------------------------------------------------ the kernel

  ghost predicate Counted(bytes: seq<Byte>, from: nat, i: nat, count: int) {
    from + 16 * i <= |bytes| && count == Leaders(Bytes(bytes, from, 16 * i))
  }

  lemma NextBytes(bytes: seq<Byte>, from: nat, i: nat)
    requires from + 16 * i + 16 <= |bytes|
    ensures Bytes(bytes, from, 16 * (i + 1)) == Bytes(bytes, from, 16 * i) + Slice16(bytes, from + 16 * i)
  {
  }

  lemma CountNext(bytes: seq<Byte>, from: nat, i: nat, count: int, v: V128)
    requires from + 16 * i + 16 <= |bytes| && 16 * i + 16 < TWO32 && Counted(bytes, from, i, count)
    requires v == Slice16(bytes, from + 16 * i)
    ensures Counted(bytes, from, i + 1, Wrap(Wrap(count + 16) - Continuations(v)))
  {
    hide Leaders, Bytes, Continuations, Wrap;
    NextBytes(bytes, from, i);
    BlockCount(v);
    LeadersConcat(Bytes(bytes, from, 16 * i), v);
    SmallWrap(count + 16);
    SmallWrap(count + 16 - Continuations(v));
  }

  lemma CountStart(bytes: seq<Byte>, from: nat)
    requires from <= |bytes|
    ensures Counted(bytes, from, 0, 0)
  {
  }

  /** utf8len(srcPtr, nBlocks). */
  method Run(mem: array<Byte>, srcPtr: nat, nBlocks: nat) returns (count: nat)
    requires mem.Length <= TWO32 && nBlocks < TWO32 && 16 * Count(nBlocks) < TWO32
    requires srcPtr + 16 * Count(nBlocks) <= mem.Length
    ensures count == Leaders(Bytes(mem[..], srcPtr, 16 * Count(nBlocks)))
  {
    hide Signed, Count, Counted, Wrap, Slice16, Load, Continuations, Bytes, Leaders;
    ghost var n := Count(nBlocks);
    count := 0;
    var i := 0;
    CountStart(mem[..], srcPtr);
    CountsUp(0, nBlocks);
    while Signed(i) < Signed(nBlocks)
      invariant i <= n && (Signed(i) < Signed(nBlocks) <==> i < n)
      invariant Counted(mem[..], srcPtr, i, count)
      decreases n - i
    {
      BlockAddress(srcPtr, 16, i, n, mem.Length);
      LoadIs(mem, srcPtr + 16 * i);
      var v := Load(mem, Wrap(srcPtr + Wrap(i * 16)));
      CountNext(mem[..], srcPtr, i, count, v);
      var cont := Continuations(v);
      count := Wrap(Wrap(count + 16) - cont);
      i := Wrap(i + 1);
      CountsUp(i, nBlocks);
    }
    CountEnd(mem[..], srcPtr, n, count);
  }

  lemma CountEnd(bytes: seq<Byte>, from: nat, n: nat, count: int)
    requires Counted(bytes, from, n, count)
    ensures from + 16 * n <= |bytes| && count == Leaders(Bytes(bytes, from, 16 * n))
  {
  }
}
