/** The discrete Fourier transform over a commutative ring, and its split by a product of
    lengths, which every Stockham pass and the radix-9, -16 and -32 butterflies are. */
module Dft {
  import opened Rings

  ghost function DftTerm<C(!new)>(R: Ring<C>, w: C, x: int -> C, k: int): int -> C {
    t => R.mul(x(t), Pow(R, w, t * k))
  }

  /** Bin k of the n-point transform of x with root w: the sum of x(t)·w^(t·k). */
  ghost function Transform<C(!new)>(R: Ring<C>, w: C, n: int, x: int -> C, k: int): C {
    Sum(R, n, DftTerm(R, w, x, k))
  }

  lemma TransformExt<C(!new)>(R: Ring<C>, w: C, n: nat, x: int -> C, y: int -> C, k: int)
    requires forall t :: 0 <= t < n ==> x(t) == y(t)
    ensures Transform(R, w, n, x, k) == Transform(R, w, n, y, k)
  {
    SumExt(R, n, DftTerm(R, w, x, k), DftTerm(R, w, y, k));
  }

  lemma TransformOfOne<C(!new)>(R: Ring<C>, w: C, x: int -> C, k: nat)
    requires IsRing(R)
    ensures Transform(R, w, 1, x, k) == x(0)
  {
    assert AddComm(R, R.zero, x(0)) && AddZero(R, x(0)) && MulOne(R, x(0));
    assert Sum(R, 0, DftTerm(R, w, x, k)) == R.zero;
  }

  // ------------------------------------------------------------ length r·m

  /** The r inputs of butterfly i: m apart from i. */
  ghost function Strided<C(!new)>(x: int -> C, m: int, i: int): int -> C {
    u => x(i + m * u)
  }

  /** Output j of the r-point butterflies, each multiplied by its twiddle w^(i·j). */
  ghost function Twiddled<C(!new)>(R: Ring<C>, w: C, r: int, m: int, x: int -> C, j: int): int -> C {
    i => R.mul(Transform(R, Pow(R, w, m), r, Strided(x, m, i), j), Pow(R, w, i * j))
  }

  /** w^(a + b + c + n·d) taken apart, when w^n = 1. */
  lemma PowSplit<C(!new)>(R: Ring<C>, w: C, n: nat, a: nat, b: nat, c: nat, d: nat)
    requires IsRing(R) && Pow(R, w, n) == R.one
    ensures Pow(R, w, ((a + b) + c) + n * d) == R.mul(Pow(R, w, a), R.mul(Pow(R, w, b), Pow(R, w, c)))
  {
    PowModulo(R, w, n, (a + b) + c, d);
    PowAdd(R, w, a + b, c);
    PowAdd(R, w, a, b);
    assert MulAssoc(R, Pow(R, w, a), Pow(R, w, b), Pow(R, w, c));
  }

  lemma SplitExponent(i: nat, m: nat, u: nat, r: nat, j: nat, q: nat)
    ensures (i + m * u) * (j + r * q) == ((m * (u * j) + i * j) + r * (i * q)) + r * m * (u * q)
    ensures i * j >= 0 && i * q >= 0 && u * j >= 0 && u * q >= 0
    ensures m * (u * j) >= 0 && r * (i * q) >= 0 && r * m >= 0
  {
    assert (i + m * u) * (j + r * q) == i * j + i * (r * q) + m * u * j + m * u * (r * q);
    assert i * (r * q) == r * (i * q) && m * u * j == m * (u * j);
    assert m * u * (r * q) == r * m * (u * q);
  }

  /** x·w^((i + m·u)·(j + r·q)) with the exponent cut into its three live parts. */
  lemma SplitTerm<C(!new)>(R: Ring<C>, w: C, x: C, i: nat, m: nat, u: nat, r: nat, j: nat, q: nat)
    requires IsRing(R) && Pow(R, w, r * m) == R.one
    ensures R.mul(x, Pow(R, w, (i + m * u) * (j + r * q))) ==
            R.mul(R.mul(Pow(R, w, i * j), Pow(R, Pow(R, w, r), i * q)),
                  R.mul(x, Pow(R, Pow(R, w, m), u * j)))
  {
    hide Pow;
    SplitExponent(i, m, u, r, j, q);
    PowSplit(R, w, r * m, m * (u * j), i * j, r * (i * q), u * q);
    PowMul(R, w, m, u * j);
    PowMul(R, w, r, i * q);
    var a, b, c := Pow(R, w, m * (u * j)), Pow(R, w, i * j), Pow(R, w, r * (i * q));
    assert MulAssoc(R, x, a, R.mul(b, c)) && MulComm(R, R.mul(x, a), R.mul(b, c));
  }

  /** Decimation in frequency. One r-point butterfly per i < m over the inputs m apart,
      each output j multiplied by w^(i·j), leaves r transforms of length m: bin j + r·q of
      the whole is bin q of transform j. */
  lemma CooleyTukey<C(!new)>(R: Ring<C>, w: C, r: nat, m: nat, x: int -> C, j: nat, q: nat)
    requires IsRing(R) && Pow(R, w, r * m) == R.one
    ensures Transform(R, w, m * r, x, j + r * q) ==
            Transform(R, Pow(R, w, r), m, Twiddled(R, w, r, m, x, j), q)
  {
    var f := DftTerm(R, w, x, j + r * q);
    var blocks := Blocked(m, f);
    SumBlocks(R, m, r, f);
    SumSwap(R, r, m, blocks);
    var lhs := RowSums(R, r, Transposed(blocks));
    var rhs := DftTerm(R, Pow(R, w, r), Twiddled(R, w, r, m, x, j), q);
    forall i | 0 <= i < m ensures lhs(i) == rhs(i) {
      CooleyTukeyColumn(R, w, r, m, x, j, q, i);
    }
    SumExt(R, m, lhs, rhs);
  }

  lemma CooleyTukeyColumn<C(!new)>(R: Ring<C>, w: C, r: nat, m: nat, x: int -> C, j: nat, q: nat, i: nat)
    requires IsRing(R) && Pow(R, w, r * m) == R.one && i < m
    ensures RowSums(R, r, Transposed(Blocked(m, DftTerm(R, w, x, j + r * q))))(i) ==
            DftTerm(R, Pow(R, w, r), Twiddled(R, w, r, m, x, j), q)(i)
  {
    var column := Row(Transposed(Blocked(m, DftTerm(R, w, x, j + r * q))), i);
    var butterfly := DftTerm(R, Pow(R, w, m), Strided(x, m, i), j);
    var y := Transform(R, Pow(R, w, m), r, Strided(x, m, i), j);
    var a, b := Pow(R, w, i * j), Pow(R, Pow(R, w, r), i * q);
    forall u | 0 <= u < r ensures column(u) == R.mul(R.mul(a, b), butterfly(u)) {
      SplitTerm(R, w, x(i + m * u), i, m, u, r, j, q);
    }
    SumScale(R, r, R.mul(a, b), butterfly, column);
    assert Twiddled(R, w, r, m, x, j)(i) == R.mul(y, a);
    assert MulComm(R, R.mul(a, b), y) && MulAssoc(R, y, a, b);
  }
}
