/** Stockham's transform: a chain of passes, one per factor of n, is the n-point discrete
    Fourier transform with its bins in natural order. */
module Stockham {
  import opened Rings
  import opened Dft
  import opened Modular

  /** Block k of an array of blocks of m points. */
  ghost function Block<C(!new)>(c: int -> C, m: int, k: int): int -> C {
    t => c(t + m * k)
  }

  /** The r inputs of point i of block k: cc[i + ido·(u + r·k)]. */
  ghost function PassInputs<C(!new)>(c: int -> C, r: int, ido: int, i: int, k: int): int -> C {
    u => c(i + ido * (u + r * k))
  }

  /** Cell ch[i + ido·(k + l1·j)] of a pass's output d: output j of the r-point butterfly of
      point i of block k, times the twiddle w^(i·j); w has order dividing r·ido. */
  ghost predicate PassCell<C(!new)>(R: Ring<C>, w: C, r: int, ido: int, l1: int, c: int -> C, d: int -> C, i: int, k: int, j: int) {
    d(i + ido * (k + l1 * j)) ==
    R.mul(Transform(R, Pow(R, w, ido), r, PassInputs(c, r, ido, i, k), j), Pow(R, w, i * j))
  }

  /** d is what one radix-r pass makes of c. */
  ghost predicate IsPass<C(!new)>(R: Ring<C>, w: C, r: int, ido: int, l1: int, c: int -> C, d: int -> C) {
    forall i, k, j :: 0 <= i < ido && 0 <= k < l1 && 0 <= j < r ==> PassCell(R, w, r, ido, l1, c, d, i, k, j)
  }

  function Product(fs: seq<nat>): nat {
    if fs == [] then 1 else fs[0] * Product(fs[1..])
  }

  /** states runs through one pass per radix in fs, the first with l1 blocks: the twiddles of
      a pass over l1 blocks are powers of w^l1, and ido is the product of the radices left. */
  ghost predicate Chain<C(!new)>(R: Ring<C>, w: C, l1: nat, fs: seq<nat>, states: seq<int -> C>)
    decreases |fs|
  {
    && |states| == |fs| + 1
    && (fs != [] ==>
          && IsPass(R, Pow(R, w, l1), fs[0], Product(fs[1..]), l1, states[0], states[1])
          && Chain(R, w, l1 * fs[0], fs[1..], states[1..]))
  }

  // ------------------------------------------------------------ what every pass keeps

  /** Bin k + l1·q of the transform of x is bin q of the m-point transform of block k. */
  ghost predicate BinHeld<C(!new)>(R: Ring<C>, w: C, n: int, x: int -> C, l1: int, m: int, c: int -> C, k: int, q: int) {
    Transform(R, w, n, x, k + l1 * q) == Transform(R, Pow(R, w, l1), m, Block(c, m, k), q)
  }

  ghost predicate BinsHeld<C(!new)>(R: Ring<C>, w: C, n: int, x: int -> C, l1: int, m: int, c: int -> C) {
    forall k, q :: 0 <= k < l1 && 0 <= q < m ==> BinHeld(R, w, n, x, l1, m, c, k, q)
  }

  lemma BinsHeldAtStart<C(!new)>(R: Ring<C>, w: C, n: nat, x: int -> C)
    requires IsRing(R)
    ensures BinsHeld(R, w, n, x, 1, n, x)
  {
    forall k, q | 0 <= k < 1 && 0 <= q < n ensures BinHeld(R, w, n, x, 1, n, x, k, q) {
      assert Pow(R, w, 1) == R.mul(w, Pow(R, w, 0)) && MulOne(R, w);
      TransformExt(R, w, n, x, Block(x, n, 0), q);
    }
  }

  lemma InputOfBlock(i: int, ido: int, u: int, r: int, k: int)
    ensures i + ido * u + r * ido * k == i + ido * (u + r * k)
  {
    assert ido * (u + r * k) == ido * u + ido * (r * k) && ido * (r * k) == r * ido * k;
  }

  lemma PassCellIsTwiddled<C(!new)>(R: Ring<C>, w: C, r: nat, ido: nat, l1: nat, c: int -> C, d: int -> C, i: nat, k: nat, j: nat)
    requires PassCell(R, w, r, ido, l1, c, d, i, k, j)
    ensures Twiddled(R, w, r, ido, Block(c, r * ido, k), j)(i) == Block(d, ido, k + l1 * j)(i)
  {
    var x, y := Strided(Block(c, r * ido, k), ido, i), PassInputs(c, r, ido, i, k);
    forall u | 0 <= u < r ensures x(u) == y(u) {
      InputOfBlock(i, ido, u, r, k);
    }
    TransformExt(R, Pow(R, w, ido), r, x, y, j);
  }

  /** One pass, seen from block k: its r outputs are the blocks the transform of block k
      splits into. */
  lemma PassSplitsBlock<C(!new)>(R: Ring<C>, w: C, r: nat, ido: nat, l1: nat, c: int -> C, d: int -> C, k: nat, j: nat, q: nat)
    requires IsRing(R) && IsPass(R, w, r, ido, l1, c, d) && Pow(R, w, r * ido) == R.one
    requires k < l1 && j < r
    ensures Transform(R, w, ido * r, Block(c, r * ido, k), j + r * q) ==
            Transform(R, Pow(R, w, r), ido, Block(d, ido, k + l1 * j), q)
  {
    var b, y := Block(c, r * ido, k), Block(d, ido, k + l1 * j);
    CooleyTukey(R, w, r, ido, b, j, q);
    forall i | 0 <= i < ido ensures Twiddled(R, w, r, ido, b, j)(i) == y(i) {
      assert PassCell(R, w, r, ido, l1, c, d, i, k, j);
      PassCellIsTwiddled(R, w, r, ido, l1, c, d, i, k, j);
    }
    TransformExt(R, Pow(R, w, r), ido, Twiddled(R, w, r, ido, b, j), y, q);
  }

  lemma BinIndex(l1: nat, r: nat, k: int, j: int, q: int)
    ensures k + l1 * (j + r * q) == (k + l1 * j) + l1 * r * q
  {
    assert l1 * (j + r * q) == l1 * j + l1 * (r * q) && l1 * (r * q) == l1 * r * q;
  }

  lemma PassKeepsBin<C(!new)>(R: Ring<C>, w: C, n: nat, x: int -> C, r: nat, ido: nat, l1: nat, c: int -> C, d: int -> C, k: nat, j: nat, q: nat)
    requires IsRing(R) && Pow(R, Pow(R, w, l1), r * ido) == R.one
    requires BinHeld(R, w, n, x, l1, r * ido, c, k, j + r * q)
    requires IsPass(R, Pow(R, w, l1), r, ido, l1, c, d) && k < l1 && j < r
    ensures BinHeld(R, w, n, x, l1 * r, ido, d, k + l1 * j, q)
  {
    var v := Pow(R, w, l1);
    PassSplitsBlock(R, v, r, ido, l1, c, d, k, j, q);
    PowMul(R, w, l1, r);
    BinIndex(l1, r, k, j, q);
    assert ido * r == r * ido;
  }

  lemma PassKeepsBins<C(!new)>(R: Ring<C>, w: C, n: nat, x: int -> C, r: nat, ido: nat, l1: nat, c: int -> C, d: int -> C)
    requires IsRing(R) && Pow(R, Pow(R, w, l1), r * ido) == R.one
    requires BinsHeld(R, w, n, x, l1, r * ido, c)
    requires IsPass(R, Pow(R, w, l1), r, ido, l1, c, d)
    ensures BinsHeld(R, w, n, x, l1 * r, ido, d)
  {
    forall K, q | 0 <= K < l1 * r && 0 <= q < ido ensures BinHeld(R, w, n, x, l1 * r, ido, d, K, q) {
      assert l1 > 0;
      CellOf(l1, r, K);
      CellBounds(r, ido, K / l1, q);
      assert BinHeld(R, w, n, x, l1, r * ido, c, K % l1, K / l1 + r * q);
      PassKeepsBin(R, w, n, x, r, ido, l1, c, d, K % l1, K / l1, q);
    }
  }

  lemma {:induction false} ChainKeepsBins<C(!new)>(R: Ring<C>, w: C, n: nat, x: int -> C, l1: nat, fs: seq<nat>, states: seq<int -> C>)
    requires IsRing(R) && Pow(R, w, n) == R.one && l1 * Product(fs) == n
    requires Chain(R, w, l1, fs, states) && BinsHeld(R, w, n, x, l1, Product(fs), states[0])
    ensures BinsHeld(R, w, n, x, n, 1, states[|fs|])
    decreases |fs|
  {
    hide IsPass, BinsHeld, Pow, IsRing;
    if fs == [] {
      assert l1 == n;
    } else {
      var r, ido := fs[0], Product(fs[1..]);
      assert Product(fs) == r * ido;
      PowMul(R, w, l1, r * ido);
      PassKeepsBins(R, w, n, x, r, ido, l1, states[0], states[1]);
      assert l1 * r * ido == l1 * (r * ido);
      ChainKeepsBins(R, w, n, x, l1 * r, fs[1..], states[1..]);
    }
  }

  /** For every factorisation of n and every w with w^n = 1, the passes turn x into its
      n-point transform, bin k in cell k. */
  lemma StockhamIsDft<C(!new)>(R: Ring<C>, w: C, n: nat, fs: seq<nat>, states: seq<int -> C>, k: nat)
    requires IsRing(R) && Pow(R, w, n) == R.one && Product(fs) == n
    requires Chain(R, w, 1, fs, states) && k < n
    ensures states[|fs|](k) == Transform(R, w, n, states[0], k)
  {
    BinsHeldAtStart(R, w, n, states[0]);
    ChainKeepsBins(R, w, n, states[0], 1, fs, states);
    var c := states[|fs|];
    assert BinHeld(R, w, n, states[0], n, 1, c, k, 0);
    TransformOfOne(R, Pow(R, w, n), Block(c, 1, k), 0);
  }
}
