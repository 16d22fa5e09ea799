/** The untangle and retangle kernels on whole arrays: what they are given and leave are the bins of
    the transforms of the paired points and of the reals. */
module RealKernels {
  import opened Rings
  import opened Dft
  import opened Complexes
  import opened Untangle
  import opened RealTransform

  /** The arrays of a call: bins 1 to `bins` of m points and their mirrors, from d and zs on. */
  predicate Slices(dst: int, d: int, z: int, zs: int, tw: int, t: int, m: int, bins: int) {
    && 0 <= d && d + m <= dst && 0 <= zs && zs + m <= z && 0 <= t && 0 <= bins && 2 * bins < m && t + bins < tw
  }

  /** The cell of bin k or of its mirror, bin m - k. */
  predicate Written(d: int, m: int, bins: int, a: int) {
    d < a <= d + bins || d + m - bins <= a < d + m
  }

  /** Bin k stands k cells in, and bin m - k, m - k cells in, each `scale` times the transform's. */
  ghost predicate BinsAt(s: seq<Complex>, d: int, m: nat, root: Complex, n: nat, x: int -> Complex, scale: real, k: nat) {
    && 0 < k < m && 0 <= d && d + m <= |s|
    && s[d + k] == Scale(scale, Transform(FIELD, root, n, x, k)) && s[d + m - k] == Scale(scale, Transform(FIELD, root, n, x, m - k))
  }

  /** W is a root of unity of order 2m, and its powers are the twiddles from t on. */
  ghost predicate HoldsPowers(tw: seq<Complex>, t: int, W: Complex, m: nat, bins: int) {
    && Unit(W) && Pow(FIELD, W, m) == Neg(ONE) && 0 <= t && t + bins < |tw|
    && forall k: nat :: 0 < k <= bins ==> tw[t + k] == Pow(FIELD, W, k)
  }

  lemma ScaledByOne(s: seq<Complex>, d: int, m: nat, root: Complex, n: nat, x: int -> Complex, k: nat)
    requires 0 < k < m && 0 <= d && d + m <= |s|
    ensures BinsAt(s, d, m, root, n, x, 1.0, k) <==>
            s[d + k] == Transform(FIELD, root, n, x, k) && s[d + m - k] == Transform(FIELD, root, n, x, m - k)
  {
    hide Transform;
    ScaleUnit(Transform(FIELD, root, n, x, k));
    ScaleUnit(Transform(FIELD, root, n, x, m - k));
  }

  lemma ScaleUnit(z: Complex)
    ensures Scale(1.0, z) == z
  {
  }

  /** Bin k of what untangle leaves. */
  lemma UntangledBin(before: seq<Complex>, d: int, input: seq<Complex>, z: int, tw: seq<Complex>, t: int, m: nat, bins: int,
                     W: Complex, x: int -> real, k: nat)
    requires Slices(|before|, d, |input|, z, |tw|, t, m, bins) && HoldsPowers(tw, t, W, m, bins) && 0 < k <= bins
    requires BinsAt(input, z, m, Pow(FIELD, W, 2), m, Paired(x), 1.0, k)
    ensures BinsAt(Replaced(Untangled(0.5), before, d, input, z, tw, t, m, bins), d, m, W, 2 * m, AsComplex(x), 1.0, k)
  {
    hide Transform, Untangled, Pow, Paired, AsComplex, Unit, Scale;
    ScaledByOne(input, z, m, Pow(FIELD, W, 2), m, Paired(x), k);
    UntangledIsTransform(W, m, x, k);
    ScaleUnit(Transform(FIELD, W, 2 * m, AsComplex(x), k));
    ScaleUnit(Transform(FIELD, W, 2 * m, AsComplex(x), m - k));
  }

  /** Retangle undoes it, times 2h. */
  lemma RetangledIsTransform(h: real, W: Complex, m: nat, x: int -> real, k: nat)
    requires Unit(W) && Pow(FIELD, W, m) == Neg(ONE) && k <= m
    ensures var w, z, r := Pow(FIELD, W, 2), Paired(x), AsComplex(x);
      Retangled(h)(Transform(FIELD, W, 2 * m, r, k), Transform(FIELD, W, 2 * m, r, m - k), Pow(FIELD, W, k)) ==
      (Scale(2.0 * h, Transform(FIELD, w, m, z, k)), Scale(2.0 * h, Transform(FIELD, w, m, z, m - k)))
  {
    hide Transform, Untangled, Retangled, Pow, Paired, AsComplex, Unit, Scale;
    UntangledIsTransform(W, m, x, k);
    UnitPow(W, k);
    var w, z := Pow(FIELD, W, 2), Paired(x);
    RetangleUndoesUntangle(h, Transform(FIELD, w, m, z, k), Transform(FIELD, w, m, z, m - k), Pow(FIELD, W, k));
  }

  lemma RetangledBin(h: real, before: seq<Complex>, d: int, input: seq<Complex>, z: int, tw: seq<Complex>, t: int, m: nat, bins: int,
                     W: Complex, x: int -> real, k: nat)
    requires Slices(|before|, d, |input|, z, |tw|, t, m, bins) && HoldsPowers(tw, t, W, m, bins) && 0 < k <= bins
    requires BinsAt(input, z, m, W, 2 * m, AsComplex(x), 1.0, k)
    ensures BinsAt(Replaced(Retangled(h), before, d, input, z, tw, t, m, bins), d, m, Pow(FIELD, W, 2), m, Paired(x), 2.0 * h, k)
  {
    hide Transform, Retangled, Pow, Paired, AsComplex, Unit, Scale;
    ScaledByOne(input, z, m, W, 2 * m, AsComplex(x), k);
    RetangledIsTransform(h, W, m, x, k);
  }

  lemma OthersKept(bin: (Complex, Complex, Complex) -> (Complex, Complex), before: seq<Complex>, d: int, input: seq<Complex>, z: int,
                   tw: seq<Complex>, t: int, m: nat, bins: int, a: int)
    requires Slices(|before|, d, |input|, z, |tw|, t, m, bins) && 0 <= a < |before| && !Written(d, m, bins, a)
    ensures Replaced(bin, before, d, input, z, tw, t, m, bins)[a] == before[a]
  {
  }

  /** The number of the bin in a cell. */
  function BinOf(d: int, m: int, bins: int, a: int): int {
    if a <= d + bins then a - d else d + m - a
  }

  /** Every cell after an untangle. */
  lemma UntangledCell(before: seq<Complex>, d: int, input: seq<Complex>, z: int, tw: seq<Complex>, t: int, m: nat, bins: int,
                      W: Complex, x: int -> real, a: int)
    requires Slices(|before|, d, |input|, z, |tw|, t, m, bins) && HoldsPowers(tw, t, W, m, bins) && 0 <= a < |before|
    requires forall c :: Written(z, m, bins, c) ==> input[c] == Transform(FIELD, Pow(FIELD, W, 2), m, Paired(x), c - z)
    ensures Replaced(Untangled(0.5), before, d, input, z, tw, t, m, bins)[a] ==
            if Written(d, m, bins, a) then Transform(FIELD, W, 2 * m, AsComplex(x), a - d) else before[a]
  {
    hide Transform, Untangled, HoldsPowers, Pow, Paired, AsComplex, Replaced, BinsAt;
    if Written(d, m, bins, a) {
      var k := BinOf(d, m, bins, a);
      ScaledByOne(input, z, m, Pow(FIELD, W, 2), m, Paired(x), k);
      UntangledBin(before, d, input, z, tw, t, m, bins, W, x, k);
      ScaledByOne(Replaced(Untangled(0.5), before, d, input, z, tw, t, m, bins), d, m, W, 2 * m, AsComplex(x), k);
    } else {
      OthersKept(Untangled(0.5), before, d, input, z, tw, t, m, bins, a);
    }
  }

  /** And after a retangle. */
  lemma RetangledCell(h: real, before: seq<Complex>, d: int, input: seq<Complex>, z: int, tw: seq<Complex>, t: int, m: nat, bins: int,
                      W: Complex, x: int -> real, a: int)
    requires Slices(|before|, d, |input|, z, |tw|, t, m, bins) && HoldsPowers(tw, t, W, m, bins) && 0 <= a < |before|
    requires forall c :: Written(z, m, bins, c) ==> input[c] == Transform(FIELD, W, 2 * m, AsComplex(x), c - z)
    ensures Replaced(Retangled(h), before, d, input, z, tw, t, m, bins)[a] ==
            if Written(d, m, bins, a) then Scale(2.0 * h, Transform(FIELD, Pow(FIELD, W, 2), m, Paired(x), a - d)) else before[a]
  {
    hide Transform, Retangled, HoldsPowers, Pow, Paired, AsComplex, Replaced, Scale;
    if Written(d, m, bins, a) {
      var k := BinOf(d, m, bins, a);
      ScaledByOne(input, z, m, W, 2 * m, AsComplex(x), k);
      RetangledBin(h, before, d, input, z, tw, t, m, bins, W, x, k);
    } else {
      OthersKept(Retangled(h), before, d, input, z, tw, t, m, bins, a);
    }
  }

  /** The untangle kernel at 256 bits or, when quads is not 0, at 512: with the bins of the transform
      of the m paired points in its input, in place or not, it leaves those of the 2m reals. */
  method UntangleReals(dst: array<Complex>, d: int, z: array<Complex>, zs: int, tw: seq<Complex>, t: int, m: nat, quads: int, pairs: int,
                       ghost W: Complex, ghost x: int -> real)
    requires Slices(dst.Length, d, z.Length, zs, |tw|, t, m, 2 * pairs) && 0 <= 2 * quads <= pairs && (dst != z || d == zs)
    requires HoldsPowers(tw, t, W, m, 2 * pairs)
    requires forall a :: zs < a <= zs + 2 * pairs || zs + m - 2 * pairs <= a < zs + m ==>
      z[a] == Transform(FIELD, Pow(FIELD, W, 2), m, Paired(x), a - zs)
    modifies dst
    ensures forall a :: d < a <= d + 2 * pairs || d + m - 2 * pairs <= a < d + m ==> dst[a] == Transform(FIELD, W, 2 * m, AsComplex(x), a - d)
    ensures forall a :: 0 <= a < dst.Length && !(d < a <= d + 2 * pairs || d + m - 2 * pairs <= a < d + m) ==> dst[a] == old(dst[a])
  {
    hide Transform, Untangled, HoldsPowers, Pow, Paired, AsComplex, Replaced;
    ghost var before, input := dst[..], z[..];
    var c := new Cursors(dst, z, tw, Untangled(0.5), d, zs, t, m);
    if quads == 0 {
      c.Untangle(pairs);
    } else {
      c.Untangle512(quads, pairs);
    }
    assert dst[..] == Replaced(Untangled(0.5), before, d, input, zs, tw, t, m, 2 * pairs);
    forall a | 0 <= a < dst.Length
      ensures dst[a] == if Written(d, m, 2 * pairs, a) then Transform(FIELD, W, 2 * m, AsComplex(x), a - d) else before[a]
    {
      UntangledCell(before, d, input, zs, tw, t, m, 2 * pairs, W, x, a);
      assert dst[a] == dst[..][a];
    }
  }

  /** The retangle kernel: from the bins of the 2m reals, 2h times those of the m paired points. */
  method RetangleReals(dst: array<Complex>, d: int, z: array<Complex>, zs: int, tw: seq<Complex>, t: int, m: nat, quads: int, pairs: int,
                       h: real, ghost W: Complex, ghost x: int -> real)
    requires Slices(dst.Length, d, z.Length, zs, |tw|, t, m, 2 * pairs) && 0 <= 2 * quads <= pairs && (dst != z || d == zs)
    requires HoldsPowers(tw, t, W, m, 2 * pairs)
    requires forall a :: zs < a <= zs + 2 * pairs || zs + m - 2 * pairs <= a < zs + m ==> z[a] == Transform(FIELD, W, 2 * m, AsComplex(x), a - zs)
    modifies dst
    ensures forall a :: d < a <= d + 2 * pairs || d + m - 2 * pairs <= a < d + m ==>
      dst[a] == Scale(2.0 * h, Transform(FIELD, Pow(FIELD, W, 2), m, Paired(x), a - d))
    ensures forall a :: 0 <= a < dst.Length && !(d < a <= d + 2 * pairs || d + m - 2 * pairs <= a < d + m) ==> dst[a] == old(dst[a])
  {
    hide Transform, Retangled, HoldsPowers, Pow, Paired, AsComplex, Replaced, Scale;
    ghost var before, input := dst[..], z[..];
    var c := new Cursors(dst, z, tw, Retangled(h), d, zs, t, m);
    if quads == 0 {
      c.Untangle(pairs);
    } else {
      c.Untangle512(quads, pairs);
    }
    assert dst[..] == Replaced(Retangled(h), before, d, input, zs, tw, t, m, 2 * pairs);
    forall a | 0 <= a < dst.Length
      ensures dst[a] == if Written(d, m, 2 * pairs, a) then Scale(2.0 * h, Transform(FIELD, Pow(FIELD, W, 2), m, Paired(x), a - d)) else before[a]
    {
      RetangledCell(h, before, d, input, zs, tw, t, m, 2 * pairs, W, x, a);
      assert dst[a] == dst[..][a];
    }
  }
}
