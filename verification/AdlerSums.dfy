/** What Adler-32 is, without its recurrence: the modulus is the largest prime below 2^16, and the
    checksum is the two weighted sums of the bytes modulo it. */
module AdlerSums {
  import opened Modular
  import opened Simd
  import opened Adler32

  ghost predicate IsPrime(n: int) {
    n > 1 && forall d :: 1 < d < n ==> n % d != 0
  }

  ghost predicate LargestPrimeBelow(q: int, limit: int) {
    q < limit && IsPrime(q) && forall n :: q < n < limit ==> !IsPrime(n)
  }

  /** No 6k + 1 and no 6k + 5 divides n, for `count` numbers k from `from` on. */
  predicate NoneDivides(n: nat, from: nat, count: nat)
    decreases count
  {
    count == 0 || (n % (6 * from + 1) != 0 && n % (6 * from + 5) != 0 && NoneDivides(n, from + 1, count - 1))
  }

  lemma {:induction false} NotOne(n: nat, from: nat, count: nat, k: nat)
    requires NoneDivides(n, from, count) && from <= k < from + count
    ensures n % (6 * k + 1) != 0 && n % (6 * k + 5) != 0
    decreases count
  {
    if k > from {
      NotOne(n, from + 1, count - 1, k);
    }
  }

  /** A divisor's divisors divide. */
  lemma DivisorOfDivisor(n: nat, d: nat, p: nat)
    requires d > 0 && p > 0 && n % d == 0 && d % p == 0
    ensures n % p == 0
  {
    var q, t := n / d, d / p;
    assert n == d * q && d == p * t;
    MulRegroup(p, t, q);
    DivModUnique(p, 0, t * q);
  }

  lemma SmallFactor(n: int, d: int)
    requires 1 < d < n && n % d == 0
    ensures var e := n / d; 1 < e < n && n % e == 0 && n == d * e
  {
    var e := n / d;
    assert n == d * e;
    if e <= 0 {
      MulMono(d, e, 0);
    }
    if e >= n {
      MulMono(e, 2, d);
    }
    DivModUnique(e, 0, d);
  }

  /** n passes every trial below 256. */
  predicate Tried(n: nat) {
    && n % 2 != 0 && n % 3 != 0 && n % 5 != 0
    && NoneDivides(n, 1, 8) && NoneDivides(n, 9, 8) && NoneDivides(n, 17, 8) && NoneDivides(n, 25, 8) && NoneDivides(n, 33, 10)
  }

  lemma Candidate(n: nat, k: nat)
    requires 1 <= k <= 42 && Tried(n)
    ensures n % (6 * k + 1) != 0 && n % (6 * k + 5) != 0
  {
    hide NoneDivides;
    if k < 9 {
      NotOne(n, 1, 8, k);
    } else if k < 17 {
      NotOne(n, 9, 8, k);
    } else if k < 25 {
      NotOne(n, 17, 8, k);
    } else if k < 33 {
      NotOne(n, 25, 8, k);
    } else {
      NotOne(n, 33, 10, k);
    }
  }

  lemma NotSmall(n: nat)
    requires Tried(n)
    ensures n % 2 != 0 && n % 3 != 0 && n % 5 != 0
  {
    hide NoneDivides;
  }

  /** Every number is a multiple of 2 or 3, or 6k + 1, or 6k + 5. */
  lemma SixForms(d: nat)
    requires 5 < d < 256 && d % 2 != 0 && d % 3 != 0
    ensures (d == 6 * (d / 6) + 1 || d == 6 * (d / 6) + 5) && 1 <= d / 6 <= 42
  {
    assert d == 6 * (d / 6) + d % 6;
  }

  lemma Trial(n: nat, d: nat)
    requires 1 < d < 256 && Tried(n)
    ensures n % d != 0
  {
    hide Tried;
    NotSmall(n);
    if d % 2 == 0 {
      NotMultiple(n, d, 2);
    } else if d % 3 == 0 {
      NotMultiple(n, d, 3);
    } else if d > 5 {
      SixForms(d);
      Candidate(n, d / 6);
    }
  }

  lemma NotMultiple(n: nat, d: nat, p: nat)
    requires d > 0 && p > 0 && d % p == 0 && n % p != 0
    ensures n % d != 0
  {
    if n % d == 0 {
      DivisorOfDivisor(n, d, p);
    }
  }

  /** A number below 2^16 with no divisor below 256 is prime. */
  lemma PrimeByTrial(n: int)
    requires 256 < n < 65536 && Tried(n)
    ensures IsPrime(n)
  {
    hide Tried;
    forall d | 1 < d < n ensures n % d != 0 {
      if d < 256 {
        Trial(n, d);
      } else if n % d == 0 {
        SmallFactor(n, d);
        if n / d < 256 {
          Trial(n, n / d);
        } else {
          MulMono(d, 256, n / d);
        }
      }
    }
  }

  lemma BaseIsTried()
    ensures Tried(65521)
  {
    FirstTrials();
    NextTrials();
    SecondTrials();
    ThirdTrials();
    LastTrials();
    hide NoneDivides;
  }

  lemma FirstTrials()
    ensures NoneDivides(65521, 1, 8)
  {
  }

  lemma NextTrials()
    ensures NoneDivides(65521, 9, 8)
  {
  }

  lemma SecondTrials()
    ensures NoneDivides(65521, 17, 8)
  {
  }

  lemma ThirdTrials()
    ensures NoneDivides(65521, 25, 8)
  {
  }

  lemma LastTrials()
    ensures NoneDivides(65521, 33, 10)
  {
  }

  lemma Composites()
    ensures forall n :: 65521 < n < 65536 ==> !IsPrime(n)
  {
    assert 65523 % 3 == 0 && 65525 % 5 == 0 && 65527 % 7 == 0 && 65529 % 3 == 0 && 65531 % 19 == 0 && 65533 % 13 == 0 && 65535 % 3 == 0;
    forall n | 65521 < n < 65536 ensures !IsPrime(n) {
      assert n % 2 == 0 || n in {65523, 65525, 65527, 65529, 65531, 65533, 65535};
    }
  }

  /** 65521 is that prime. */
  lemma BaseIsLargestPrime()
    ensures LargestPrimeBelow(BASE, 65536)
  {
    BaseIsTried();
    PrimeByTrial(65521);
    Composites();
    assert BASE == 65521;
  }

  lemma OnlyOne(q: int)
    requires LargestPrimeBelow(q, 65536)
    ensures q == BASE
  {
    BaseIsLargestPrime();
    hide IsPrime;
  }

  /** The sum of the bytes, and the sum with the first byte counted |s| times, the last once. */
  function Total(s: seq<Byte>): int {
    if s == [] then 0 else s[0] + Total(s[1..])
  }

  function Weights(s: seq<Byte>): int {
    if s == [] then 0 else |s| * s[0] + Weights(s[1..])
  }

  lemma {:induction false} LastByte(s: seq<Byte>, x: Byte)
    ensures Total(s + [x]) == Total(s) + x && Weights(s + [x]) == Weights(s) + Total(s) + x
  {
    if s == [] {
      assert (s + [x])[1..] == [];
    } else {
      LastByte(s[1..], x);
      assert (s + [x])[1..] == s[1..] + [x];
      assert |s + [x]| * s[0] == |s| * s[0] + s[0];
    }
  }

  /** The unreduced recurrence, in sums. */
  lemma {:induction false} RawIsSums(s: seq<Byte>, z: Sums)
    ensures Raw(s, z) == Sums(z.a + Total(s), z.b + |s| * z.a + Weights(s))
  {
    if s == [] {
    } else {
      var t, x := s[..|s| - 1], s[|s| - 1];
      RawIsSums(t, z);
      LastByte(t, x);
      assert s == t + [x] && |s| * z.a == |t| * z.a + z.a;
    }
  }

  /** One reduction modulo the largest prime below 2^16 does for one at every byte. */
  lemma ReduceOncePrime(s: seq<Byte>, z: Sums, q: int)
    requires LargestPrimeBelow(q, 65536) && 0 <= z.a < q && 0 <= z.b < q
    ensures Reduced(s, z) == Sums((z.a + Total(s)) % q, (z.b + |s| * z.a + Weights(s)) % q)
  {
    hide LargestPrimeBelow, Reduced, Raw, Total, Weights;
    OnlyOne(q);
    ReduceOnce(s, z);
    RawIsSums(s, z);
  }

  /** The checksum, the second sum in the high half. */
  lemma ChecksumIsSums(s: seq<Byte>, q: int)
    requires LargestPrimeBelow(q, 65536)
    ensures Checksum(s) == (|s| + Weights(s)) % q * 65536 + (1 + Total(s)) % q
    ensures 0 <= Checksum(s) < TWO32
  {
    hide Reduced, Raw, Total, Weights;
    assert 1 < q < 65536;
    hide LargestPrimeBelow;
    ReduceOncePrime(s, Sums(1, 0), q);
  }

  /** A word of memory: its least significant byte first. */
  lemma LittleEndian(m: seq<Byte>, p: nat)
    requires p + 4 <= |m|
    ensures var x := U32At(m, p);
      0 <= x < TWO32 && m[p] == x % 256 && m[p + 1] == x / 256 % 256 && m[p + 2] == x / 65536 % 256 && m[p + 3] == x / 16777216
  {
    var x := U32At(m, p);
    var b1: int, b2: int, b3: int := m[p + 1], m[p + 2], m[p + 3];
    var z := b2 + 256 * b3;
    var y := b1 + 256 * z;
    assert x == m[p] + 256 * y;
    assert x / 256 == y && x / 65536 == z && x / 16777216 == b3;
  }
}
