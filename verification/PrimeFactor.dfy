/** The prime-factor algorithm: a transform of length p·q, p and q coprime, is a stage of
    p-point butterflies and a stage of q-point ones with no twiddle between them. The
    radix-10, -15 and -20 kernels (p = 5) and the radix-12 kernel (p = 3) are such. */
module PrimeFactor {
  import opened Rings
  import opened Dft
  import opened Modular

  /** a is 1 modulo p and 0 modulo q; b the other way round. */
  ghost predicate Idempotents(p: int, q: int, a: int, b: int) {
    && p > 0 && q > 0 && a >= 0 && b >= 0
    && (a - 1) % p == 0 && a % q == 0
    && b % p == 0 && (b - 1) % q == 0
  }

  /** Input n1 of the p-point butterfly n2. */
  function PfaIn(p: int, q: int, n1: int, n2: int): int
    requires p > 0 && q > 0
  {
    assert p * q > 0;
    (q * n1 + p * n2) % (p * q)
  }

  /** The bin that output k2 of the q-point butterfly k1 is. */
  function PfaOut(p: int, q: int, a: int, b: int, k1: int, k2: int): int
    requires p > 0 && q > 0
  {
    assert p * q > 0;
    (a * k1 + b * k2) % (p * q)
  }

  /** The quotients of a, a - 1, b, b - 1 by what divides them. */
  lemma IdempotentQuotients(p: int, q: int, a: int, b: int)
    requires Idempotents(p, q, a, b)
    ensures a == q * (a / q) && a - 1 == p * ((a - 1) / p)
    ensures b == p * (b / p) && b - 1 == q * ((b - 1) / q)
    ensures p * q > 0
  {
  }

  /** n·k = q·n1·k1 + p·n2·k2 modulo p·q: the two stages need no twiddle between them. */
  lemma PfaExponent(p: int, q: int, a: int, b: int, n1: int, n2: int, k1: int, k2: int)
    requires Idempotents(p, q, a, b)
    ensures p * q > 0
    ensures (PfaIn(p, q, n1, n2) * PfaOut(p, q, a, b, k1, k2)) % (p * q)
         == (q * (n1 * k1) + p * (n2 * k2)) % (p * q)
  {
    IdempotentQuotients(p, q, a, b);
    var N := p * q;
    var x, y := q * n1 + p * n2, a * k1 + b * k2;
    var a1, a2, b1, b2 := a / q, (a - 1) / p, b / p, (b - 1) / q;
    ModShift(N, x * y, (x % N) * (y % N), (x / N) * y + (x % N) * (y / N)) by {
      ProductOfRemainders(N, x, y);
    }
    var c := a2 * (n1 * k1) + b1 * (n1 * k2) + a1 * (n2 * k1) + b2 * (n2 * k2);
    assert x * y == q * (n1 * k1) + p * (n2 * k2) + N * c by {
      PfaProduct(p, q, a, b, a1, a2, b1, b2, n1, n2, k1, k2);
    }
    ModShift(N, x * y, q * (n1 * k1) + p * (n2 * k2), c);
  }

  lemma ProductOfRemainders(N: int, x: int, y: int)
    requires N > 0
    ensures x * y == (x % N) * (y % N) + N * ((x / N) * y + (x % N) * (y / N))
  {
    var u, v, c, d := x % N, y % N, x / N, y / N;
    assert x == u + N * c && y == v + N * d;
    assert x * y == u * y + N * c * y;
    assert u * y == u * v + u * (N * d);
    assert u * (N * d) == N * (u * d) && N * c * y == N * (c * y);
    assert N * (c * y) + N * (u * d) == N * (c * y + u * d);
  }

  /** The products of the multipliers p, q with a, b. */
  lemma PfaCoefficients(p: int, q: int, a: int, b: int, a1: int, a2: int, b1: int, b2: int)
    requires a == q * a1 && a - 1 == p * a2 && b == p * b1 && b - 1 == q * b2
    ensures q * a == q + p * q * a2 && q * b == p * q * b1
    ensures p * a == p * q * a1 && p * b == p + p * q * b2
  {
    assert q * (p * a2) == p * q * a2 && q * (p * b1) == p * q * b1;
    assert p * (q * a1) == p * q * a1 && p * (q * b2) == p * q * b2;
  }

  lemma Regroup(q: int, n: int, a: int, k: int)
    ensures (q * n) * (a * k) == (q * a) * (n * k)
  {
  }

  lemma Expand(a: int, b: int, c: int, d: int)
    ensures (a + b) * (c + d) == a * c + a * d + b * c + b * d
  {
  }

  lemma PfaProduct(p: int, q: int, a: int, b: int, a1: int, a2: int, b1: int, b2: int,
                   n1: int, n2: int, k1: int, k2: int)
    requires a == q * a1 && a - 1 == p * a2 && b == p * b1 && b - 1 == q * b2
    ensures (q * n1 + p * n2) * (a * k1 + b * k2)
         == q * (n1 * k1) + p * (n2 * k2)
            + p * q * (a2 * (n1 * k1) + b1 * (n1 * k2) + a1 * (n2 * k1) + b2 * (n2 * k2))
  {
    PfaCoefficients(p, q, a, b, a1, a2, b1, b2);
    Expand(q * n1, p * n2, a * k1, b * k2);
    Regroup(q, n1, a, k1);
    Regroup(q, n1, b, k2);
    Regroup(p, n2, a, k1);
    Regroup(p, n2, b, k2);
    Collect(p * q, q, p, a2, b1, a1, b2, n1 * k1, n1 * k2, n2 * k1, n2 * k2);
  }

  lemma Collect(N: int, q: int, p: int, a: int, b: int, c: int, d: int, s: int, t: int, u: int, v: int)
    ensures (q + N * a) * s + N * b * t + N * c * u + (p + N * d) * v
         == q * s + p * v + N * (a * s + b * t + c * u + d * v)
  {
    assert N * (a * s + b * t + c * u + d * v)
        == N * (a * s) + N * (b * t) + N * (c * u) + N * (d * v);
  }

  /** The input index of position i = n1 + p·n2 of the stage-1 order, and back. */
  ghost function PfaPlace(p: int, q: int): int -> int {
    i => if p > 0 && q > 0 then PfaIn(p, q, i % p, i / p) else 0
  }

  ghost function PfaPlaceInverse(p: int, q: int, a: int, b: int): int -> int {
    t => if p > 0 && q > 0 then (t * (a / q)) % p + p * ((t * (b / p)) % q) else 0
  }

  /** The quotient of a + b - 1 by p·q. */
  lemma IdempotentsAddToOne(p: int, q: int, a: int, b: int) returns (z: int)
    requires Idempotents(p, q, a, b)
    ensures a + b - 1 == p * q * z
  {
    IdempotentQuotients(p, q, a, b);
    var a1, a2, b1, b2 := a / q, (a - 1) / p, b / p, (b - 1) / q;
    var u, v := a2 + b1, a1 + b2;
    var s := a + b - 1;
    assert s == p * u && s == q * v;
    Regroup(p, u, q, a1);
    Regroup(q, v, p, b1);
    Regroup(p, u, q, v);
    z := u * a1 + v * b1 - u * v;
    SquareOut(p * q, s, a, b, u * a1, v * b1, u * v);
  }

  lemma SquareOut(N: int, s: int, a: int, b: int, x: int, y: int, w: int)
    requires s == a + b - 1 && s * a == N * x && s * b == N * y && s * s == N * w
    ensures s == N * (x + y - w)
  {
    assert s * s == s * a + s * b - s;
    assert N * (x + y - w) == N * x + N * y - N * w;
  }

  /** The input map takes every (n1, n2) to a different input, and reaches each. */
  lemma PfaInputsPermute(p: int, q: int, a: int, b: int)
    requires Idempotents(p, q, a, b)
    ensures Inverses(p * q, PfaPlace(p, q), PfaPlaceInverse(p, q, a, b))
  {
    var N, g, h := p * q, PfaPlace(p, q), PfaPlaceInverse(p, q, a, b);
    IdempotentQuotients(p, q, a, b);
    forall i | 0 <= i < N ensures 0 <= g(i) < N && h(g(i)) == i {
      CellOf(p, q, i);
      PfaPlaceBack(p, q, a, b, i % p, i / p);
    }
    forall t | 0 <= t < N ensures 0 <= h(t) < N && g(h(t)) == t {
      PfaPlaceForth(p, q, a, b, t);
    }
  }

  lemma PfaPlaceBack(p: int, q: int, a: int, b: int, n1: int, n2: int)
    requires Idempotents(p, q, a, b) && 0 <= n1 < p && 0 <= n2 < q
    ensures (PfaIn(p, q, n1, n2) * (a / q)) % p == n1
    ensures (PfaIn(p, q, n1, n2) * (b / p)) % q == n2
  {
    IdempotentQuotients(p, q, a, b);
    hide Idempotents, PfaIn;
    var c := InQuotient(p, q, n1, n2);
    BackRemainder(p, q, a / q, (a - 1) / p, n1, n2, c, PfaIn(p, q, n1, n2));
    BackRemainder(q, p, b / p, (b - 1) / q, n2, n1, c, PfaIn(p, q, n1, n2));
  }

  lemma InQuotient(p: int, q: int, n1: int, n2: int) returns (c: int)
    requires p > 0 && q > 0
    ensures PfaIn(p, q, n1, n2) == q * n1 + p * n2 - p * q * c && PfaIn(p, q, n1, n2) == p * n2 + q * n1 - q * p * c
  {
    assert p * q > 0;
    c := (q * n1 + p * n2) / (p * q);
    SwapProduct(p, q, c);
  }

  lemma SwapProduct(p: int, q: int, c: int)
    ensures p * q * c == q * p * c
  {
  }

  lemma BackRemainder(p: int, q: int, a1: int, a2: int, n1: int, n2: int, c: int, t: int)
    requires q * a1 == p * a2 + 1 && 0 <= n1 < p && t == q * n1 + p * n2 - p * q * c
    ensures (t * a1) % p == n1
  {
    Back(p, q, a1, a2, n1, n2, c);
    DivModUnique(p, n1, a2 * n1 + n2 * a1 - q * c * a1);
  }

  lemma Back(p: int, q: int, a1: int, a2: int, n1: int, n2: int, c: int)
    requires q * a1 == p * a2 + 1
    ensures (q * n1 + p * n2 - p * q * c) * a1 == n1 + p * (a2 * n1 + n2 * a1 - q * c * a1)
  {
    assert (q * n1 + p * n2 - p * q * c) * a1 == (q * a1) * n1 + p * (n2 * a1) - p * (q * c * a1);
    assert (p * a2 + 1) * n1 == p * (a2 * n1) + n1;
  }

  lemma PfaPlaceForth(p: int, q: int, a: int, b: int, t: int)
    requires Idempotents(p, q, a, b) && 0 <= t < p * q
    ensures 0 <= PfaPlaceInverse(p, q, a, b)(t) < p * q
    ensures PfaPlace(p, q)(PfaPlaceInverse(p, q, a, b)(t)) == t
  {
    var a1, b1 := a / q, b / p;
    var n1, n2 := (t * a1) % p, (t * b1) % q;
    CellBounds(p, q, n1, n2);
    DivModUnique(p, n1, n2);
    PfaInForth(p, q, a, b, t);
  }

  lemma PfaInForth(p: int, q: int, a: int, b: int, t: int)
    requires Idempotents(p, q, a, b) && 0 <= t < p * q
    ensures PfaIn(p, q, (t * (a / q)) % p, (t * (b / p)) % q) == t
  {
    IdempotentQuotients(p, q, a, b);
    var z := IdempotentsAddToOne(p, q, a, b);
    hide Idempotents;
    var x, y := t * (a / q), t * (b / p);
    hide PfaIn;
    Forth(p, q, a / q, b / p, t, z, x / p, y / q, x % p, y % q);
    PfaInIs(p, q, x % p, y % q, t, t * z - x / p - y / q);
  }

  lemma PfaInIs(p: int, q: int, n1: int, n2: int, t: int, d: int)
    requires p > 0 && q > 0 && 0 <= t < p * q && q * n1 + p * n2 == t + p * q * d
    ensures PfaIn(p, q, n1, n2) == t
  {
    DivModUnique(p * q, t, d);
  }

  lemma Forth(p: int, q: int, a1: int, b1: int, t: int, z: int, e: int, f: int, n1: int, n2: int)
    requires q * a1 + p * b1 - 1 == p * q * z
    requires n1 == t * a1 - p * e && n2 == t * b1 - q * f
    ensures q * n1 + p * n2 == t + p * q * (t * z - e - f)
  {
    MulSub(q, t * a1, p * e);
    MulSub(p, t * b1, q * f);
    MulRegroup(q, t, a1);
    MulRegroup(p, t, b1);
    MulRegroup(q, p, e);
    MulRegroup(p, q, f);
    MulAdd(t, q * a1, p * b1);
    MulAdd(t, p * q * z, 1);
    MulRegroup(t, p * q, z);
    MulSub(p * q, t * z, e);
    MulSub(p * q, t * z - e, f);
  }

  /** The output map takes every (k1, k2) to the bin that is k1 modulo p and k2 modulo q,
      so that it, too, is a bijection. */
  lemma PfaOutputsPermute(p: int, q: int, a: int, b: int, k1: int, k2: int, k: int)
    requires Idempotents(p, q, a, b) && 0 <= k1 < p && 0 <= k2 < q && 0 <= k < p * q
    ensures 0 <= PfaOut(p, q, a, b, k1, k2) < p * q
    ensures PfaOut(p, q, a, b, k1, k2) == k <==> k % p == k1 && k % q == k2
  {
    PfaOutRemainders(p, q, a, b, k1, k2);
    if k % p == k1 && k % q == k2 {
      SameRemainders(p, q, a, b, PfaOut(p, q, a, b, k1, k2), k);
    }
  }

  lemma PfaOutRemainders(p: int, q: int, a: int, b: int, k1: int, k2: int)
    requires Idempotents(p, q, a, b) && 0 <= k1 < p && 0 <= k2 < q
    ensures PfaOut(p, q, a, b, k1, k2) % p == k1 && PfaOut(p, q, a, b, k1, k2) % q == k2
    ensures p * q > 0 && 0 <= PfaOut(p, q, a, b, k1, k2) < p * q
  {
    IdempotentQuotients(p, q, a, b);
    var c, o := (a * k1 + b * k2) / (p * q), PfaOut(p, q, a, b, k1, k2);
    assert o == a * k1 + b * k2 - p * q * c;
    Remainder(p, q, a, b, (a - 1) / p, b / p, k1, k2, c, o);
    Remainder(q, p, b, a, (b - 1) / q, a / q, k2, k1, c, o) by {
      assert q * p == p * q;
    }
  }

  lemma Remainder(p: int, q: int, a: int, b: int, a2: int, b1: int, k1: int, k2: int, c: int, o: int)
    requires a == 1 + p * a2 && b == p * b1 && 0 <= k1 < p && o == a * k1 + b * k2 - p * q * c
    ensures o % p == k1
  {
    assert (1 + p * a2) * k1 == k1 + p * (a2 * k1) && (p * b1) * k2 == p * (b1 * k2);
    assert p * q * c == p * (q * c);
    var d := a2 * k1 + b1 * k2 - q * c;
    assert p * d == p * (a2 * k1) + p * (b1 * k2) - p * (q * c);
    DivModUnique(p, k1, d);
  }

  /** Two numbers below p·q with the same remainders modulo p and q are equal. */
  lemma SameRemainders(p: int, q: int, a: int, b: int, x: int, y: int)
    requires Idempotents(p, q, a, b) && p * q > 0 && 0 <= x < p * q && 0 <= y < p * q
    requires x % p == y % p && x % q == y % q
    ensures x == y
  {
    IdempotentQuotients(p, q, a, b);
    var z := IdempotentsAddToOne(p, q, a, b);
    hide Idempotents;
    var u, v := x / p - y / p, x / q - y / q;
    SameRemainder(p, x, y);
    SameRemainder(q, x, y);
    assert q * (a / q) + p * (b / p) - 1 == p * q * z;
    NoneBetween(p, q, a / q, b / p, z, x - y, u, v, p * q);
  }

  lemma NoneBetween(p: int, q: int, a1: int, b1: int, z: int, d: int, u: int, v: int, n: int)
    requires q * a1 + p * b1 - 1 == p * q * z && d == p * u && d == q * v && n == p * q && -n < d < n
    ensures d == 0
  {
    BothDivide(p, q, a1, b1, z, d, u, v);
    MulLower(n, u * a1 + v * b1 - d * z);
  }

  lemma SameRemainder(p: int, x: int, y: int)
    requires p > 0 && x % p == y % p
    ensures x - y == p * (x / p - y / p)
  {
    MulSub(p, x / p, y / p);
  }

  lemma BothDivide(p: int, q: int, a1: int, b1: int, z: int, d: int, u: int, v: int)
    requires q * a1 + p * b1 - 1 == p * q * z && d == p * u && d == q * v
    ensures d == p * q * (u * a1 + v * b1 - d * z)
  {
    Regroup(p, u, q, a1);
    Regroup(q, v, p, b1);
    var N, x, y := p * q, u * a1, v * b1;
    assert d * (q * a1 + p * b1 - 1) == d * (q * a1) + d * (p * b1) - d;
    assert d * (N * z) == N * (d * z);
    assert N * (x + y - d * z) == N * x + N * y - N * (d * z);
  }

  /** The p inputs of stage-1 butterfly n2. */
  ghost function PfaGather<C(!new)>(p: int, q: int, x: int -> C, n2: int): int -> C {
    n1 => x(if p > 0 && q > 0 then PfaIn(p, q, n1, n2) else 0)
  }

  /** Output k1 of the q stage-1 butterflies. */
  ghost function PfaStage1<C(!new)>(R: Ring<C>, w: C, p: int, q: int, x: int -> C, k1: int): int -> C {
    n2 => Transform(R, Pow(R, w, q), p, PfaGather(p, q, x, n2), k1)
  }

  /** The prime-factor algorithm: q p-point butterflies over the permuted inputs, then p
      q-point butterflies over their outputs with no twiddle between, are the whole
      transform, its bins permuted. */
  lemma StagesAreDft<C(!new)>(R: Ring<C>, w: C, p: nat, q: nat, a: int, b: int, x: int -> C, k1: nat, k2: nat)
    requires IsRing(R) && Idempotents(p, q, a, b) && Pow(R, w, p * q) == R.one
    ensures Transform(R, w, p * q, x, PfaOut(p, q, a, b, k1, k2)) ==
            Transform(R, Pow(R, w, p), q, PfaStage1(R, w, p, q, x, k1), k2)
  {
    var K := PfaOut(p, q, a, b, k1, k2);
    PfaInputsPermute(p, q, a, b);
    SumReindex(R, p * q, DftTerm(R, w, x, K), PfaPlace(p, q), PfaPlaceInverse(p, q, a, b));
    forall n1, n2 | 0 <= n1 < p && 0 <= n2 < q
      ensures PfaFactors(R, w, p, q, PfaIn(p, q, n1, n2), K, n1 * k1, n2 * k2)
    {
      PfaTwiddle(R, w, p, q, a, b, n1, n2, k1, k2);
    }
    TwoStages(R, w, p, q, x, K, k1, k2);
  }

  /** w^(t·K) is (w^q)^d·(w^p)^e. */
  ghost predicate PfaFactors<C(!new)>(R: Ring<C>, w: C, p: int, q: int, t: int, K: int, d: int, e: int) {
    Pow(R, w, t * K) == R.mul(Pow(R, Pow(R, w, q), d), Pow(R, Pow(R, w, p), e))
  }

  lemma TwoStages<C(!new)>(R: Ring<C>, w: C, p: nat, q: nat, x: int -> C, K: int, k1: nat, k2: nat)
    requires IsRing(R) && p > 0 && q > 0
    requires forall n1, n2 :: 0 <= n1 < p && 0 <= n2 < q ==>
      PfaFactors(R, w, p, q, PfaIn(p, q, n1, n2), K, n1 * k1, n2 * k2)
    ensures Sum(R, p * q, Compose(DftTerm(R, w, x, K), PfaPlace(p, q))) ==
            Transform(R, Pow(R, w, p), q, PfaStage1(R, w, p, q, x, k1), k2)
  {
    hide PfaFactors, PfaIn, PfaStage1, PfaPlace, IsRing, DftTerm, Compose, Blocked, RowSums, Pow;
    var rows := RowSums(R, p, Blocked(p, Compose(DftTerm(R, w, x, K), PfaPlace(p, q))));
    var stage2 := DftTerm(R, Pow(R, w, p), PfaStage1(R, w, p, q, x, k1), k2);
    SumBlocks(R, p, q, Compose(DftTerm(R, w, x, K), PfaPlace(p, q)));
    forall n2 | 0 <= n2 < q ensures rows(n2) == stage2(n2) {
      TwoStagesRow(R, w, p, q, x, K, k1, k2, n2);
    }
    SumExt(R, q, rows, stage2);
  }

  lemma PlaceAt<C(!new)>(R: Ring<C>, w: C, p: nat, q: nat, x: int -> C, K: int, n1: int, n2: int)
    requires p > 0 && q > 0 && 0 <= n1 < p && 0 <= n2 < q
    ensures Row(Blocked(p, Compose(DftTerm(R, w, x, K), PfaPlace(p, q))), n2)(n1) ==
            R.mul(x(PfaIn(p, q, n1, n2)), Pow(R, w, PfaIn(p, q, n1, n2) * K))
  {
    DivModUnique(p, n1, n2);
    assert PfaPlace(p, q)(n1 + p * n2) == PfaIn(p, q, n1, n2);
  }

  lemma TwoStagesRow<C(!new)>(R: Ring<C>, w: C, p: nat, q: nat, x: int -> C, K: int, k1: nat, k2: nat, n2: nat)
    requires IsRing(R) && p > 0 && n2 < q
    requires forall n1, n2 :: 0 <= n1 < p && 0 <= n2 < q ==>
      PfaFactors(R, w, p, q, PfaIn(p, q, n1, n2), K, n1 * k1, n2 * k2)
    ensures RowSums(R, p, Blocked(p, Compose(DftTerm(R, w, x, K), PfaPlace(p, q))))(n2) ==
            DftTerm(R, Pow(R, w, p), PfaStage1(R, w, p, q, x, k1), k2)(n2)
  {
    hide PfaIn, PfaPlace, Compose, Blocked, Pow, Row;
    var row := Row(Blocked(p, Compose(DftTerm(R, w, x, K), PfaPlace(p, q))), n2);
    var y := Transform(R, Pow(R, w, q), p, PfaGather(p, q, x, n2), k1);
    var butterfly := DftTerm(R, Pow(R, w, q), PfaGather(p, q, x, n2), k1);
    var c := Pow(R, Pow(R, w, p), n2 * k2);
    forall n1 | 0 <= n1 < p ensures row(n1) == R.mul(c, butterfly(n1)) {
      PlaceAt(R, w, p, q, x, K, n1, n2);
      var v, s := x(PfaIn(p, q, n1, n2)), Pow(R, Pow(R, w, q), n1 * k1);
      assert PfaFactors(R, w, p, q, PfaIn(p, q, n1, n2), K, n1 * k1, n2 * k2);
      assert butterfly(n1) == R.mul(v, s);
      assert MulAssoc(R, v, s, c) && MulComm(R, R.mul(v, s), c);
    }
    SumScale(R, p, c, butterfly, row);
    assert PfaStage1(R, w, p, q, x, k1)(n2) == y;
    assert MulComm(R, c, y);
  }

  lemma PfaTwiddle<C(!new)>(R: Ring<C>, w: C, p: nat, q: nat, a: int, b: int, n1: nat, n2: nat, k1: nat, k2: nat)
    requires IsRing(R) && Idempotents(p, q, a, b) && Pow(R, w, p * q) == R.one
    ensures PfaFactors(R, w, p, q, PfaIn(p, q, n1, n2), PfaOut(p, q, a, b, k1, k2), n1 * k1, n2 * k2)
  {
    assert n1 * k1 >= 0 && n2 * k2 >= 0;
    var d, e := PfaIn(p, q, n1, n2) * PfaOut(p, q, a, b, k1, k2), q * (n1 * k1) + p * (n2 * k2);
    assert d >= 0 && e >= 0;
    PfaExponent(p, q, a, b, n1, n2, k1, k2);
    PowReduce(R, w, p * q, d);
    PowReduce(R, w, p * q, e);
    PowAdd(R, w, q * (n1 * k1), p * (n2 * k2));
    PowMul(R, w, q, n1 * k1);
    PowMul(R, w, p, n2 * k2);
  }

  // ------------------------------------------------------------ finding the multipliers

  predicate Divides(d: int, n: int) {
    d > 0 && n % d == 0
  }

  ghost predicate Coprime(p: int, q: int) {
    forall d :: Divides(d, p) && Divides(d, q) ==> d == 1
  }

  lemma DividesSum(d: int, m: int, n: int)
    requires Divides(d, m) && Divides(d, n)
    ensures Divides(d, m + n)
  {
    ModShift(d, m + n, n, m / d);
  }

  /** 1 = p·s + q·t, by subtracting the smaller from the larger. */
  lemma {:induction false} Bezout(p: int, q: int) returns (s: int, t: int)
    requires p > 0 && q > 0 && Coprime(p, q)
    ensures p * s + q * t == 1
    decreases p + q
  {
    if p == q {
      assert Divides(p, p) && Divides(p, q);
      s, t := 1, 0;
    } else if p > q {
      forall d | Divides(d, p - q) && Divides(d, q) ensures d == 1 {
        DividesSum(d, p - q, q);
      }
      s, t := Bezout(p - q, q);
      assert (p - q) * s == p * s - q * s;
      t := t - s;
    } else {
      forall d | Divides(d, p) && Divides(d, q - p) ensures d == 1 {
        DividesSum(d, q - p, p);
      }
      s, t := Bezout(p, q - p);
      assert (q - p) * t == q * t - p * t;
      s := s - t;
    }
  }

  /** A number below p·q that is 1 modulo p and 0 modulo q. */
  lemma MultiplierExists(p: int, q: int) returns (a: int)
    requires p > 0 && q > 0 && Coprime(p, q)
    ensures p * q > 0 && 0 <= a < p * q && (a - 1) % p == 0 && a % q == 0
  {
    var s, t := Bezout(p, q);
    var c := (q * t) / (p * q);
    a := (q * t) % (p * q);
    assert a == q * t - p * q * c;
    assert a == 0 + q * (t - p * c) by { assert p * q * c == q * (p * c); }
    assert a - 1 == 0 + p * (-s - q * c) by { assert p * q * c == p * (q * c); }
    DivModUnique(q, 0, t - p * c);
    DivModUnique(p, 0, -s - q * c);
  }

  lemma MultipliersExist(p: int, q: int) returns (a: int, b: int)
    requires p > 0 && q > 0 && Coprime(p, q)
    ensures Idempotents(p, q, a, b) && a < p * q && b < p * q
  {
    a := MultiplierExists(p, q);
    assert Coprime(q, p);
    b := MultiplierExists(q, p);
    assert q * p == p * q;
  }
}
