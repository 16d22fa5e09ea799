/** Facts about division with a symbolic divisor. */
module Modular {

  lemma MulSub(a: int, b: int, c: int)
    ensures a * (b - c) == a * b - a * c
  {
  }

  lemma MulAdd(a: int, b: int, c: int)
    ensures a * (b + c) == a * b + a * c
  {
  }

  /** Both ways of reading a·b·c, and b drawn to the front. */
  lemma MulRegroup(a: int, b: int, c: int)
    ensures a * (b * c) == a * b * c
    ensures a * (b * c) == b * (a * c)
  {
  }

  lemma MulMono(a: int, b: int, c: int)
    requires a >= 0 && b <= c
    ensures a * b <= a * c && b * a <= c * a
  {
    assert a * (c - b) >= 0;
    MulSub(a, c, b);
  }

  lemma MulLower(n: int, d: int)
    requires n >= 0
    ensures d >= 1 ==> n * d >= n
    ensures d <= -1 ==> n * d <= -n
  {
    if d >= 1 {
      assert n * d == n + n * (d - 1) && n * (d - 1) >= 0;
    } else if d <= -1 {
      assert n * d == -n - n * (-1 - d) && n * (-1 - d) >= 0;
    }
  }

  /** Numbers that differ by a multiple of n leave the same remainder. */
  lemma ModShift(n: int, x: int, y: int, c: int)
    requires n > 0 && x == y + n * c
    ensures x % n == y % n
  {
    var d := x / n - y / n - c;
    assert n * d == n * (x / n) - n * (y / n) - n * c;
    assert n * d == y % n - x % n;
    MulLower(n, d);
  }

  /** The quotient and remainder of a number already written as y + n·c. */
  lemma DivModUnique(n: int, y: int, c: int)
    requires n > 0 && 0 <= y < n
    ensures (y + n * c) / n == c && (y + n * c) % n == y
  {
    var x := y + n * c;
    var d := x / n - c;
    assert n * d == n * (x / n) - n * c;
    assert n * d == y - x % n;
    MulLower(n, d);
  }

  /** i + m·k enumerates [0, m·n) as i runs over [0, m) and k over [0, n). */
  lemma CellBounds(m: int, n: int, i: int, k: int)
    requires 0 <= i < m && 0 <= k < n
    ensures 0 <= i + m * k < m * n
  {
    assert m * k >= 0;
    assert m * n == m * k + m * (n - k);
    MulLower(m, n - k);
  }

  lemma CellOf(m: int, n: int, t: int)
    requires m > 0 && 0 <= t < m * n
    ensures 0 <= t % m < m && 0 <= t / m < n && t == t % m + m * (t / m)
  {
    if t / m >= n {
      MulLower(m, t / m - n + 1);
      assert false;
    }
  }

  /** Bit 5 of 16·n is bit 1 of n. */
  lemma BitOfTwo(n: int)
    requires n >= 0
    ensures (16 * n / 32) % 2 != 0 <==> n % 4 >= 2
    ensures n % 2 == if n % 4 >= 2 then n % 4 - 2 else n % 4
  {
    assert n == 4 * (n / 4) + n % 4;
    assert 16 * n / 32 == 2 * (n / 4) + n % 4 / 2;
    assert n % 2 == n % 4 % 2;
  }

  /** Bit 4 of 16·n is bit 0 of n. */
  lemma BitOfOne(n: int)
    requires n >= 0
    ensures (16 * n / 16) % 2 != 0 <==> n % 2 == 1
  {
    assert 16 * n / 16 == n;
  }
}
