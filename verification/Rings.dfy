/** Commutative rings given as a record of operations, and finite sums in them.

    Every law is a named predicate of its operands, so that a proof mentions exactly
    the instances it needs (`assert AddComm(R, a, b)`) and the solver never applies
    associativity or commutativity on its own. */
module Rings {

  datatype Ring<!C(!new)> = Ring(zero: C, one: C, add: (C, C) -> C, mul: (C, C) -> C, neg: C -> C)

  ghost predicate AddAssoc<C(!new)>(R: Ring<C>, a: C, b: C, c: C) {
    R.add(R.add(a, b), c) == R.add(a, R.add(b, c))
  }

  ghost predicate AddComm<C(!new)>(R: Ring<C>, a: C, b: C) {
    R.add(a, b) == R.add(b, a)
  }

  ghost predicate AddZero<C(!new)>(R: Ring<C>, a: C) {
    R.add(a, R.zero) == a
  }

  ghost predicate AddNeg<C(!new)>(R: Ring<C>, a: C) {
    R.add(a, R.neg(a)) == R.zero
  }

  ghost predicate MulAssoc<C(!new)>(R: Ring<C>, a: C, b: C, c: C) {
    R.mul(R.mul(a, b), c) == R.mul(a, R.mul(b, c))
  }

  ghost predicate MulComm<C(!new)>(R: Ring<C>, a: C, b: C) {
    R.mul(a, b) == R.mul(b, a)
  }

  ghost predicate MulOne<C(!new)>(R: Ring<C>, a: C) {
    R.mul(a, R.one) == a
  }

  ghost predicate Distrib<C(!new)>(R: Ring<C>, a: C, b: C, c: C) {
    R.mul(a, R.add(b, c)) == R.add(R.mul(a, b), R.mul(a, c))
  }

  /** R is a commutative ring. */
  ghost predicate IsRing<C(!new)>(R: Ring<C>) {
    && (forall a, b, c :: AddAssoc(R, a, b, c))
    && (forall a, b :: AddComm(R, a, b))
    && (forall a :: AddZero(R, a))
    && (forall a :: AddNeg(R, a))
    && (forall a, b, c :: MulAssoc(R, a, b, c))
    && (forall a, b :: MulComm(R, a, b))
    && (forall a :: MulOne(R, a))
    && (forall a, b, c :: Distrib(R, a, b, c))
  }

  lemma MulZero<C(!new)>(R: Ring<C>, a: C)
    requires IsRing(R)
    ensures R.mul(a, R.zero) == R.zero
  {
    var p := R.mul(a, R.zero);
    assert AddZero(R, R.zero);
    assert Distrib(R, a, R.zero, R.zero);
    assert R.add(p, p) == p;
    assert AddAssoc(R, p, p, R.neg(p));
    assert AddNeg(R, p) && AddZero(R, p);
  }

  /** (a + b) + (c + d) == (a + c) + (b + d) */
  lemma AddSwapMiddle<C(!new)>(R: Ring<C>, a: C, b: C, c: C, d: C)
    requires IsRing(R)
    ensures R.add(R.add(a, b), R.add(c, d)) == R.add(R.add(a, c), R.add(b, d))
  {
    assert AddAssoc(R, a, b, R.add(c, d)) && AddAssoc(R, b, c, d) && AddComm(R, b, c);
    assert AddAssoc(R, c, b, d) && AddAssoc(R, a, c, R.add(b, d));
  }

  // ------------------------------------------------------------ powers

  /** a^e; 1 for e <= 0. */
  ghost function Pow<C(!new)>(R: Ring<C>, a: C, e: int): C
    decreases if e < 0 then 0 else e
  {
    if e <= 0 then R.one else R.mul(a, Pow(R, a, e - 1))
  }

  lemma {:induction false} PowAdd<C(!new)>(R: Ring<C>, a: C, d: nat, e: nat)
    requires IsRing(R)
    ensures Pow(R, a, d + e) == R.mul(Pow(R, a, d), Pow(R, a, e))
    decreases d
  {
    if d == 0 {
      assert MulComm(R, R.one, Pow(R, a, e)) && MulOne(R, Pow(R, a, e));
    } else {
      PowAdd(R, a, d - 1, e);
      assert MulAssoc(R, a, Pow(R, a, d - 1), Pow(R, a, e));
    }
  }

  lemma {:induction false} PowMul<C(!new)>(R: Ring<C>, a: C, d: nat, e: nat)
    requires IsRing(R)
    ensures Pow(R, Pow(R, a, d), e) == Pow(R, a, d * e)
    decreases e
  {
    if e == 0 {
    } else {
      PowMul(R, a, d, e - 1);
      assert d * e == d + d * (e - 1);
      PowAdd(R, a, d, d * (e - 1));
    }
  }

  lemma {:induction false} PowOne<C(!new)>(R: Ring<C>, e: nat)
    requires IsRing(R)
    ensures Pow(R, R.one, e) == R.one
  {
    if e == 0 {
    } else {
      PowOne(R, e - 1);
      assert MulOne(R, R.one);
    }
  }

  /** A root of unity of order dividing n: exponents count modulo n. */
  lemma PowModulo<C(!new)>(R: Ring<C>, w: C, n: nat, d: nat, e: nat)
    requires IsRing(R) && Pow(R, w, n) == R.one
    ensures Pow(R, w, d + n * e) == Pow(R, w, d)
  {
    PowAdd(R, w, d, n * e);
    PowMul(R, w, n, e);
    PowOne(R, e);
    assert MulOne(R, Pow(R, w, d));
  }

  lemma PowReduce<C(!new)>(R: Ring<C>, w: C, n: nat, d: nat)
    requires IsRing(R) && n > 0 && Pow(R, w, n) == R.one
    ensures Pow(R, w, d) == Pow(R, w, d % n)
  {
    var c, y := d / n, d % n;
    assert d == y + n * c;
    PowModulo(R, w, n, y, c);
  }

  // ------------------------------------------------------------ finite sums

  /** f(0) + f(1) + … + f(n-1) */
  ghost function Sum<C(!new)>(R: Ring<C>, n: int, f: int -> C): C
    decreases if n < 0 then 0 else n
  {
    if n <= 0 then R.zero else R.add(Sum(R, n - 1, f), f(n - 1))
  }

  lemma {:induction false} SumExt<C(!new)>(R: Ring<C>, n: nat, f: int -> C, g: int -> C)
    requires forall i :: 0 <= i < n ==> f(i) == g(i)
    ensures Sum(R, n, f) == Sum(R, n, g)
  {
    if n != 0 {
      SumExt(R, n - 1, f, g);
    }
  }

  lemma {:induction false} SumAdd<C(!new)>(R: Ring<C>, n: nat, f: int -> C, g: int -> C, h: int -> C)
    requires IsRing(R)
    requires forall i :: 0 <= i < n ==> h(i) == R.add(f(i), g(i))
    ensures Sum(R, n, h) == R.add(Sum(R, n, f), Sum(R, n, g))
  {
    if n == 0 {
      assert AddZero(R, R.zero);
    } else {
      SumAdd(R, n - 1, f, g, h);
      AddSwapMiddle(R, Sum(R, n - 1, f), Sum(R, n - 1, g), f(n - 1), g(n - 1));
    }
  }

  lemma {:induction false} SumScale<C(!new)>(R: Ring<C>, n: nat, c: C, f: int -> C, h: int -> C)
    requires IsRing(R)
    requires forall i :: 0 <= i < n ==> h(i) == R.mul(c, f(i))
    ensures Sum(R, n, h) == R.mul(c, Sum(R, n, f))
  {
    if n == 0 {
      MulZero(R, c);
    } else {
      SumScale(R, n - 1, c, f, h);
      assert Distrib(R, c, Sum(R, n - 1, f), f(n - 1));
    }
  }

  lemma {:induction false} SumZero<C(!new)>(R: Ring<C>, n: nat, f: int -> C)
    requires IsRing(R)
    requires forall i :: 0 <= i < n ==> f(i) == R.zero
    ensures Sum(R, n, f) == R.zero
  {
    if n != 0 {
      SumZero(R, n - 1, f);
      assert AddZero(R, R.zero);
    }
  }

  lemma {:induction false} SumConcat<C(!new)>(R: Ring<C>, a: nat, b: nat, f: int -> C, g: int -> C)
    requires IsRing(R)
    requires forall i :: 0 <= i < b ==> g(i) == f(a + i)
    ensures Sum(R, a + b, f) == R.add(Sum(R, a, f), Sum(R, b, g))
    decreases b
  {
    if b == 0 {
      assert AddZero(R, Sum(R, a, f));
    } else {
      SumConcat(R, a, b - 1, f, g);
      assert AddAssoc(R, Sum(R, a, f), Sum(R, b - 1, g), g(b - 1));
    }
  }

  ghost function Row<C(!new)>(f: (int, int) -> C, i: int): int -> C {
    j => f(i, j)
  }

  /** The rows of a two-index family, summed over the second index. */
  ghost function RowSums<C(!new)>(R: Ring<C>, n: int, f: (int, int) -> C): int -> C {
    i => Sum(R, n, Row(f, i))
  }

  ghost function Transposed<C(!new)>(f: (int, int) -> C): (int, int) -> C {
    (j, i) => f(i, j)
  }

  lemma {:induction false} SumSwap<C(!new)>(R: Ring<C>, m: nat, n: nat, f: (int, int) -> C)
    requires IsRing(R)
    ensures Sum(R, m, RowSums(R, n, f)) == Sum(R, n, RowSums(R, m, Transposed(f)))
    decreases m
  {
    if m == 0 {
      SumZero(R, n, RowSums(R, m, Transposed(f)));
    } else {
      SumSwap(R, m - 1, n, f);
      SumAdd(R, n, RowSums(R, m - 1, Transposed(f)), Row(f, m - 1), RowSums(R, m, Transposed(f)));
    }
  }

  /** Blocks of m: index i + m·u stands for position i of block u. */
  ghost function Blocked<C(!new)>(m: int, f: int -> C): (int, int) -> C {
    (u, i) => f(i + m * u)
  }

  lemma {:induction false} SumBlocks<C(!new)>(R: Ring<C>, m: nat, r: nat, f: int -> C)
    requires IsRing(R)
    ensures Sum(R, m * r, f) == Sum(R, r, RowSums(R, m, Blocked(m, f)))
    decreases r
  {
    if r != 0 {
      SumBlocks(R, m, r - 1, f);
      assert m * r == m * (r - 1) + m;
      SumConcat(R, m * (r - 1), m, f, Row(Blocked(m, f), r - 1));
    }
  }

  // ------------------------------------------------------------ reordering a sum

  ghost function Compose<C(!new)>(f: int -> C, g: int -> int): int -> C {
    i => f(g(i))
  }

  /** g and h are inverse permutations of [0, n). */
  ghost predicate Inverses(n: int, g: int -> int, h: int -> int) {
    && (forall i :: 0 <= i < n ==> 0 <= g(i) < n && h(g(i)) == i)
    && (forall t :: 0 <= t < n ==> 0 <= h(t) < n && g(h(t)) == t)
  }

  lemma {:induction false} SumSpike<C(!new)>(R: Ring<C>, n: nat, c: int, v: C, f: int -> C)
    requires IsRing(R)
    requires forall i :: 0 <= i < n ==> f(i) == if i == c then v else R.zero
    ensures Sum(R, n, f) == if 0 <= c < n then v else R.zero
  {
    if n != 0 {
      SumSpike(R, n - 1, c, v, f);
      assert AddZero(R, Sum(R, n - 1, f)) && AddComm(R, R.zero, v) && AddZero(R, v);
    }
  }

  /** f(t) where t is the image of i, zero elsewhere. */
  ghost function Graph<C(!new)>(R: Ring<C>, f: int -> C, g: int -> int): (int, int) -> C {
    (i, t) => if t == g(i) then f(t) else R.zero
  }

  /** A permutation of [0, n) only reorders a sum. */
  lemma SumReindex<C(!new)>(R: Ring<C>, n: nat, f: int -> C, g: int -> int, h: int -> int)
    requires IsRing(R) && Inverses(n, g, h)
    ensures Sum(R, n, Compose(f, g)) == Sum(R, n, f)
  {
    var G := Graph(R, f, g);
    forall i | 0 <= i < n ensures RowSums(R, n, G)(i) == Compose(f, g)(i) {
      SumSpike(R, n, g(i), f(g(i)), Row(G, i));
    }
    SumExt(R, n, RowSums(R, n, G), Compose(f, g));
    SumSwap(R, n, n, G);
    forall t | 0 <= t < n ensures RowSums(R, n, Transposed(G))(t) == f(t) {
      SumSpike(R, n, h(t), f(t), Row(Transposed(G), t));
    }
    SumExt(R, n, RowSums(R, n, Transposed(G)), f);
  }
}
