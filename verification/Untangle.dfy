/** The real-transform untangle and retangle kernels: bin k and its mirror m - k are read,
    combined and written together, two or four bins to a register. */
module Untangle {
  import opened Modular

  /** The bins 1, …, k of m points and their mirrors do not meet, and have twiddles from t on. */
  predicate BinsFit(m: int, k: int, t: int, tw: int) {
    0 <= k && 2 * k < m && 0 <= t && t + k < tw
  }

  /** m cells from d on. */
  predicate SliceIn(d: int, m: int, cells: int) {
    0 <= d && d + m <= cells
  }

  /** What bin k makes of the input. */
  function BinOut<C>(bin: (C, C, C) -> (C, C), input: seq<C>, z: int, tw: seq<C>, t: int, m: int, k: int): (C, C)
    requires 0 < k && BinsFit(m, k, t, |tw|) && SliceIn(z, m, |input|)
  {
    bin(input[z + k], input[z + m - k], tw[t + k])
  }

  /** Cell a of the output once the bins up to f and the mirrors of those up to g are out. */
  function CellAfter<C>(bin: (C, C, C) -> (C, C), before: seq<C>, d: int, input: seq<C>, z: int, tw: seq<C>, t: int, m: int,
                        f: int, g: int, a: int): C
    requires BinsFit(m, f, t, |tw|) && BinsFit(m, g, t, |tw|) && SliceIn(z, m, |input|) && 0 <= a < |before|
  {
    if 0 < a - d <= f then BinOut(bin, input, z, tw, t, m, a - d).0
    else if 0 < d + m - a <= g then BinOut(bin, input, z, tw, t, m, d + m - a).1
    else before[a]
  }

  /** The whole output, `bins` bins and their mirrors replaced. */
  function Replaced<C>(bin: (C, C, C) -> (C, C), before: seq<C>, d: int, input: seq<C>, z: int, tw: seq<C>, t: int, m: int, bins: int): (r: seq<C>)
    requires BinsFit(m, bins, t, |tw|) && SliceIn(z, m, |input|)
    ensures |r| == |before|
  {
    seq(|before|, a requires 0 <= a < |before| => CellAfter(bin, before, d, input, z, tw, t, m, bins, bins, a))
  }

  /** back undoes bin for the twiddle of bin k, whatever the points. */
  ghost predicate Undoes<C(!new)>(bin: (C, C, C) -> (C, C), back: (C, C, C) -> (C, C), w: C) {
    forall a, b :: UndoesAt(bin, back, w, a, b)
  }

  ghost predicate UndoesAt<C>(bin: (C, C, C) -> (C, C), back: (C, C, C) -> (C, C), w: C, a: C, b: C) {
    var out := bin(a, b, w);
    back(out.0, out.1, w) == (a, b)
  }

  /** Bin k and its mirror hold the points of the input. */
  ghost predicate Restored<C>(out: seq<C>, e: int, input: seq<C>, z: int, m: int, k: int) {
    && 0 <= e + k < |out| && 0 <= e + m - k < |out| && 0 <= z + k < |input| && 0 <= z + m - k < |input|
    && out[e + k] == input[z + k] && out[e + m - k] == input[z + m - k]
  }

  /** A cell of no bin below k and of no mirror. */
  predicate Apart(a: int, e: int, m: int, bins: int) {
    !(0 < a - e <= bins) && !(0 < e + m - a <= bins)
  }

  /** Running back over what bin left restores every bin and every mirror, and leaves the rest
      of its own output alone; whatever the slices of the two calls are. */
  lemma RoundTrip<C(!new)>(bin: (C, C, C) -> (C, C), back: (C, C, C) -> (C, C), input: seq<C>, z: int, mid: seq<C>, d: int,
                           last: seq<C>, e: int, tw: seq<C>, t: int, m: int, bins: int)
    requires BinsFit(m, bins, t, |tw|) && SliceIn(z, m, |input|) && SliceIn(d, m, |mid|) && SliceIn(e, m, |last|)
    requires forall a :: t < a <= t + bins ==> Undoes(bin, back, tw[a])
    ensures var out := Replaced(back, last, e, Replaced(bin, mid, d, input, z, tw, t, m, bins), d, tw, t, m, bins);
      && (forall k :: 0 < k <= bins ==> Restored(out, e, input, z, m, k))
      && (forall a :: 0 <= a < |last| && Apart(a, e, m, bins) ==> out[a] == last[a])
  {
    forall k | 0 < k <= bins
      ensures Restored(Replaced(back, last, e, Replaced(bin, mid, d, input, z, tw, t, m, bins), d, tw, t, m, bins), e, input, z, m, k)
    {
      RoundTripBin(bin, back, input, z, mid, d, last, e, tw, t, m, bins, k);
    }
  }

  lemma RoundTripBin<C(!new)>(bin: (C, C, C) -> (C, C), back: (C, C, C) -> (C, C), input: seq<C>, z: int, mid: seq<C>, d: int,
                              last: seq<C>, e: int, tw: seq<C>, t: int, m: int, bins: int, k: int)
    requires BinsFit(m, bins, t, |tw|) && SliceIn(z, m, |input|) && SliceIn(d, m, |mid|) && SliceIn(e, m, |last|)
    requires 0 < k <= bins && Undoes(bin, back, tw[t + k])
    ensures Restored(Replaced(back, last, e, Replaced(bin, mid, d, input, z, tw, t, m, bins), d, tw, t, m, bins), e, input, z, m, k)
  {
    var half := Replaced(bin, mid, d, input, z, tw, t, m, bins);
    var y := BinOut(bin, input, z, tw, t, m, k);
    assert UndoesAt(bin, back, tw[t + k], input[z + k], input[z + m - k]);
    assert half[d + k] == y.0 && half[d + m - k] == y.1;
    assert BinOut(back, half, d, tw, t, m, k) == (input[z + k], input[z + m - k]);
  }

  /** In place, the whole array is restored. */
  lemma RoundTripInPlace<C(!new)>(bin: (C, C, C) -> (C, C), back: (C, C, C) -> (C, C), x: seq<C>, d: int, tw: seq<C>, t: int, m: int, bins: int)
    requires BinsFit(m, bins, t, |tw|) && SliceIn(d, m, |x|) && forall a :: t < a <= t + bins ==> Undoes(bin, back, tw[a])
    ensures var y := Replaced(bin, x, d, x, d, tw, t, m, bins);
      Replaced(back, y, d, y, d, tw, t, m, bins) == x
  {
    var y := Replaced(bin, x, d, x, d, tw, t, m, bins);
    var out := Replaced(back, y, d, y, d, tw, t, m, bins);
    RoundTrip(bin, back, x, d, x, d, y, d, tw, t, m, bins);
    forall a | 0 <= a < |x| && Apart(a, d, m, bins) ensures y[a] == x[a] {
    }
    hide Replaced, Undoes, BinsFit;
    forall a | 0 <= a < |x| ensures out[a] == x[a] {
      if 0 < a - d <= bins {
        assert Restored(out, d, x, d, m, a - d);
      } else if 0 < d + m - a <= bins {
        assert Restored(out, d, x, d, m, d + m - a);
      } else {
        assert Apart(a, d, m, bins);
      }
    }
  }

  /** The bin `done` steps on. */
  function Bin(from: int, lanes: int, done: int): int {
    from + lanes * done
  }

  /** The kernel's cursors, in cells of one complex value, over its input and output, which
      are apart or the same. */
  class Cursors<C> {
    const dst: array<C>
    const z: array<C>
    const tw: seq<C>
    /** Output k and output m - k from inputs k and m - k and twiddle k. */
    const bin: (C, C, C) -> (C, C)
    /** The slices the caller passed, and m. */
    const D: int
    const Z: int
    const T: int
    const M: int
    ghost const before: seq<C>
    ghost const input: seq<C>

    var AX: int     // forward input
    var BX: int     // mirrored input
    var CX: int     // twiddles
    var R9: int     // forward output
    var R10: int    // mirrored output
    var R8: int     // steps left

    constructor (dst: array<C>, z: array<C>, tw: seq<C>, bin: (C, C, C) -> (C, C), d: int, zs: int, t: int, m: int)
      requires 0 <= d && d + m <= dst.Length && 0 <= zs && zs + m <= z.Length && 0 <= t
      requires dst != z || d == zs
      requires 0 < m && t < |tw|
      ensures Valid() && this.dst == dst && this.z == z && this.tw == tw && this.bin == bin
      ensures D == d && Z == zs && T == t && M == m && before == dst[..] && input == z[..]
      ensures Done(0, 0)
    {
      this.dst, this.z, this.tw, this.bin := dst, z, tw, bin;
      D, Z, T, M := d, zs, t, m;
      before, input := dst[..], z[..];
    }

    ghost predicate Valid() {
      && 0 <= D && D + M <= dst.Length && 0 <= Z && Z + M <= z.Length && 0 <= T
      && |before| == dst.Length && |input| == z.Length
      && (dst == z ==> D == Z && before == input)
    }

    predicate InReach(k: int) {
      BinsFit(M, k, T, |tw|)
    }

    ghost function Out(k: int): (C, C)
      requires Valid() && 0 < k && InReach(k)
    {
      BinOut(bin, input, Z, tw, T, M, k)
    }

    ghost function Expect(a: int, f: int, g: int): C
      requires Valid() && InReach(f) && InReach(g) && 0 <= a < dst.Length
    {
      CellAfter(bin, before, D, input, Z, tw, T, M, f, g, a)
    }

    ghost predicate Done(f: int, g: int)
      reads dst, z
    {
      && Valid() && InReach(f) && InReach(g)
      && (forall a :: 0 <= a < dst.Length ==> dst[a] == Expect(a, f, g))
      && (dst != z ==> z[..] == input)
    }

    /** The cursors stand at bin k + 1, at `lanes` bins to a register. */
    ghost predicate At(k: int, lanes: int)
      reads `AX, `BX, `CX, `R9, `R10
    {
      && AX == Z + 1 + k && BX == Z + M - k - lanes && CX == T + 1 + k
      && R9 == D + 1 + k && R10 == D + M - k - lanes
    }

    /** The results of n steps of `lanes` bins: every load before any store. */
    method Combine(n: int, lanes: int, ghost k: int) returns (res: seq<(C, C)>)
      requires Done(k, k) && At(k, lanes) && 1 <= n && 1 <= lanes && InReach(k + n * lanes)
      ensures |res| == n * lanes && forall p :: 0 <= p < n * lanes ==> res[p] == Out(k + 1 + p)
    {
      res := [];
      var total := n * lanes;
      for p := 0 to total
        invariant |res| == p && forall q :: 0 <= q < p ==> res[q] == Out(k + 1 + q)
      {
        // Lane p mod lanes of step p / lanes; the mirrored load is reversed.
        ghost var bn := k + 1 + p;
        MirrorLane(lanes, p);
        assert z[Z + bn] == input[Z + bn] && z[Z + M - bn] == input[Z + M - bn] by {
          Unread(k, bn);
        }
        res := res + [bin(z[AX + p], z[BX - lanes * (p / lanes) + (lanes - 1 - p % lanes)], tw[CX + p])];
      }
    }

    /** A bin not yet reached still holds the input. */
    lemma Unread(k: int, b: int)
      requires Done(k, k) && k < b && InReach(b)
      ensures z[Z + b] == input[Z + b] && z[Z + M - b] == input[Z + M - b]
    {
      if dst == z {
        assert dst[D + b] == Expect(D + b, k, k) && dst[D + M - b] == Expect(D + M - b, k, k);
      } else {
        assert z[..][Z + b] == input[Z + b] && z[..][Z + M - b] == input[Z + M - b];
      }
    }

    lemma MirrorLane(lanes: int, p: int)
      requires lanes > 0 && p >= 0
      ensures BX - lanes * (p / lanes) + (lanes - 1 - p % lanes) == BX + lanes - 1 - p
    {
      assert p == lanes * (p / lanes) + p % lanes;
    }

    method StoreForward(res: seq<(C, C)>, lanes: int, ghost k: int)
      requires Done(k, k) && At(k, lanes) && InReach(k + |res|) && 1 <= lanes
      requires forall p :: 0 <= p < |res| ==> res[p] == Out(k + 1 + p)
      modifies dst
      ensures Done(k + |res|, k)
    {
      hide Expect, Out;
      for p := 0 to |res|
        invariant Done(k + p, k)
      {
        StoreBin(R9 + p, res[p].0, k + p, k);
      }
    }

    /** Bin f + 1 into its cell. */
    method StoreBin(a: int, y: C, ghost f: int, ghost g: int)
      requires Done(f, g) && g <= f && InReach(f + 1) && a == D + f + 1 && y == Out(f + 1).0
      modifies dst
      ensures Done(f + 1, g)
    {
      dst[a] := y;
    }

    /** Mirror g + 1 into its cell. */
    method StoreMirror(a: int, y: C, ghost f: int, ghost g: int)
      requires Done(f, g) && g < f && a == D + M - (g + 1) && y == Out(g + 1).1
      modifies dst
      ensures Done(f, g + 1)
    {
      dst[a] := y;
    }

    method StoreMirrors(res: seq<(C, C)>, lanes: int, ghost k: int)
      requires Done(k + |res|, k) && At(k, lanes) && InReach(k + |res|) && 1 <= lanes
      requires forall p :: 0 <= p < |res| ==> res[p] == Out(k + 1 + p)
      modifies dst
      ensures Done(k + |res|, k + |res|)
    {
      hide Expect, Out;
      for p := 0 to |res|
        invariant Done(k + |res|, k + p)
      {
        MirrorOutput(lanes, p);
        StoreMirror(R10 - lanes * (p / lanes) + (lanes - 1 - p % lanes), res[p].1, k + |res|, k + p);
      }
    }

    lemma MirrorOutput(lanes: int, p: int)
      requires lanes > 0 && p >= 0
      ensures R10 - lanes * (p / lanes) + (lanes - 1 - p % lanes) == R10 + lanes - 1 - p
    {
      assert p == lanes * (p / lanes) + p % lanes;
    }

    /** n steps, interleaved, and the cursors past them. */
    method Steps(n: int, lanes: int, ghost k: int)
      requires Done(k, k) && At(k, lanes) && 1 <= n && 1 <= lanes && InReach(k + n * lanes)
      modifies dst, `AX, `BX, `CX, `R9, `R10
      ensures Done(k + n * lanes, k + n * lanes) && At(k + n * lanes, lanes)
    {
      hide Expect, Out;
      var res := Combine(n, lanes, k);
      StoreForward(res, lanes, k);
      StoreMirrors(res, lanes, k);
      var far := n * lanes;
      AX, BX, R9, R10, CX := AX + far, BX - far, R9 + far, R10 - far, CX + far;
    }

    /** The kernel at `lanes` bins to a register, called on slices `from` bins in, with
        m - 2·from: three steps at a time while there are three, then one at a time. */
    method Walk(d: int, zs: int, t: int, m: int, count: int, lanes: int, ghost from: int)
      requires d == D + from && zs == Z + from && t == T + from && m == M - 2 * from
      requires Done(from, from) && count >= 0 && 1 <= lanes && InReach(Bin(from, lanes, count))
      modifies dst, this
      ensures Done(Bin(from, lanes, count), Bin(from, lanes, count))
    {
      assert 0 <= from;
      hide Done, At, InReach, BinsFit, Bin;
      SetCursors(d, zs, t, m, lanes, from);
      R8 := count;
      NoStep(from, lanes);
      ghost var done := Triples(count, lanes, from);
      Singles(count, lanes, from, done);
    }

    /** Three steps at a time. */
    method Triples(ghost count: int, lanes: int, ghost from: int) returns (ghost done: int)
      requires 0 <= from && 1 <= lanes && 0 <= R8 == count && InReach(Bin(from, lanes, count))
      requires Done(Bin(from, lanes, 0), Bin(from, lanes, 0)) && At(Bin(from, lanes, 0), lanes)
      modifies dst, this
      ensures 0 <= done && 0 <= R8 < 3 && done + R8 == count
      ensures Done(Bin(from, lanes, done), Bin(from, lanes, done)) && At(Bin(from, lanes, done), lanes)
    {
      hide Done, At, InReach, BinsFit, Bin;
      done := 0;
      while R8 >= 3
        invariant 0 <= R8 && 0 <= done && done + R8 == count
        invariant Done(Bin(from, lanes, done), Bin(from, lanes, done)) && At(Bin(from, lanes, done), lanes)
        decreases R8
      {
        Reach(from, lanes, count, done, 3);
        Steps(3, lanes, Bin(from, lanes, done));
        done, R8 := done + 3, R8 - 3;
      }
    }

    /** What is left, one step at a time. */
    method Singles(ghost count: int, lanes: int, ghost from: int, ghost start: int)
      requires 0 <= from && 1 <= lanes && 0 <= start && 0 <= R8 && start + R8 == count && InReach(Bin(from, lanes, count))
      requires Done(Bin(from, lanes, start), Bin(from, lanes, start)) && At(Bin(from, lanes, start), lanes)
      modifies dst, this
      ensures Done(Bin(from, lanes, count), Bin(from, lanes, count))
    {
      hide Done, At, InReach, BinsFit, Bin;
      ghost var done := start;
      while R8 != 0
        invariant 0 <= R8 && 0 <= done && done + R8 == count
        invariant Done(Bin(from, lanes, done), Bin(from, lanes, done)) && At(Bin(from, lanes, done), lanes)
        decreases R8
      {
        Reach(from, lanes, count, done, 1);
        Steps(1, lanes, Bin(from, lanes, done));
        done, R8 := done + 1, R8 - 1;
      }
    }

    /** The first bins of the slices, and the first `lanes` mirrors. */
    method SetCursors(d: int, zs: int, t: int, m: int, lanes: int, ghost from: int)
      requires d == D + from && zs == Z + from && t == T + from && m == M - 2 * from
      modifies `AX, `BX, `CX, `R9, `R10
      ensures At(from, lanes)
    {
      AX, BX := zs + 1, zs + m - lanes;
      R9, R10 := d + 1, d + m - lanes;
      CX := t + 1;
    }

    lemma NoStep(from: int, lanes: int)
      ensures Bin(from, lanes, 0) == from
    {
    }

    lemma Reach(from: int, lanes: int, count: int, done: int, n: int)
      requires InReach(Bin(from, lanes, count)) && 0 <= done && 0 <= n && done + n <= count && 1 <= lanes && 0 <= from
      ensures InReach(Bin(from, lanes, done) + n * lanes) && Bin(from, lanes, done) + n * lanes == Bin(from, lanes, done + n)
    {
      MulAdd(lanes, done, n);
      MulMono(lanes, 0, done);
      MulMono(lanes, done + n, count);
    }

    /** Bin k of the output and its mirror are what bin makes of bin k of the input and its mirror. */
    ghost predicate BinAt(k: int)
      requires Valid()
      reads dst
    {
      && 0 < k < M && T + k < |tw|
      && (dst[D + k], dst[D + M - k]) == bin(input[Z + k], input[Z + M - k], tw[T + k])
    }

    lemma BinPlaces(bins: int)
      requires Valid() && InReach(bins) && dst[..] == Replaced(bin, before, D, input, Z, tw, T, M, bins)
      ensures forall k :: 0 < k <= bins ==> BinAt(k)
    {
      forall k | 0 < k <= bins ensures BinAt(k) {
        assert dst[D + k] == dst[..][D + k] && dst[D + M - k] == dst[..][D + M - k];
      }
    }

    /** The 256-bit kernel: pairs of bins. */
    method Untangle(pairs: int)
      requires Done(0, 0) && pairs >= 0 && InReach(2 * pairs)
      modifies dst, this
      ensures dst[..] == Replaced(bin, before, D, input, Z, tw, T, M, 2 * pairs) && (dst != z ==> z[..] == input)
      ensures forall k :: 0 < k <= 2 * pairs ==> BinAt(k)
    {
      Walk(D, Z, T, M, pairs, 2, 0);
      assert dst[..] == Replaced(bin, before, D, input, Z, tw, T, M, 2 * pairs);
      BinPlaces(2 * pairs);
    }

    /** The 512-bit kernel: quads of bins, then the pairs left by the 256-bit kernel, on slices
        4·quads bins in, with m - 8·quads. */
    method Untangle512(quads: int, pairs: int)
      requires Done(0, 0) && quads >= 0 && pairs >= 2 * quads && InReach(2 * pairs)
      modifies dst, this
      ensures dst[..] == Replaced(bin, before, D, input, Z, tw, T, M, 2 * pairs) && (dst != z ==> z[..] == input)
      ensures forall k :: 0 < k <= 2 * pairs ==> BinAt(k)
    {
      if quads != 0 {
        Walk(D, Z, T, M, quads, 4, 0);
      }
      var rest := pairs - quads - quads;
      if rest != 0 {
        Walk(D + 4 * quads, Z + 4 * quads, T + 4 * quads, M - 8 * quads, rest, 2, 4 * quads);
      }
      assert dst[..] == Replaced(bin, before, D, input, Z, tw, T, M, 2 * pairs);
      BinPlaces(2 * pairs);
    }
  }
}
