/** The powers of a root of unity from the cosines of one quarter turn. */
module Circle {
  import opened Rings
  import opened Complexes
  import opened Butterflies

  /** cos and sin of (e + 1)·π/2n by the addition formulas, sin(e·π/2n) being the cosine of
      the complementary step n - e. */
  ghost predicate AngleAdds(C: seq<real>, n: int, e: int)
    requires |C| == n + 1 && 0 <= e < n
  {
    && C[e + 1] == C[1] * C[e] - C[n - 1] * C[n - e]
    && C[n - e - 1] == C[n - 1] * C[e] + C[1] * C[n - e]
  }

  /** C[e] is cos(e·π/2n), e = 0, …, n. */
  ghost predicate Cosines(C: seq<real>, n: int) {
    n > 0 && |C| == n + 1 && C[0] == 1.0 && C[n] == 0.0 && forall e :: 0 <= e < n ==> AngleAdds(C, n, e)
  }

  /** The root of 4n: e^(±iπ/2n). */
  function CircleRoot(inverse: bool, C: seq<real>, n: int): Complex
    requires n > 0 && |C| == n + 1
  {
    Root(inverse, C[1], C[n - 1])
  }

  /** W^e = cos θ + i·sin θ, θ = e·π/2n: cos θ is cs·C[p] and sin θ is ss·C[q]. */
  function Trig(n: int, e: int): (t: (int, int, int, int))
    requires 0 <= e <= 3 * n
    ensures 0 <= t.0 <= n && 0 <= t.2 <= n && t.1 in {-1, 1} && t.3 in {-1, 1}
  {
    if e < n then (e, 1, n - e, 1)
    else if e < 2 * n then (2 * n - e, -1, e - n, 1)
    else (e - 2 * n, -1, 3 * n - e, -1)
  }

  function Signed(s: int, c: real): real {
    if s < 0 then -c else c
  }

  function TrigRoot(inverse: bool, C: seq<real>, n: int, e: int): Complex
    requires |C| == n + 1 && 0 <= e <= 3 * n
  {
    var t := Trig(n, e);
    Root(inverse, Signed(t.1, C[t.0]), Signed(t.3, C[t.2]))
  }

  lemma RootProduct(inverse: bool, a: real, b: real, c: real, d: real)
    ensures Mul(Root(inverse, a, b), Root(inverse, c, d)) == Root(inverse, a * c - b * d, b * c + a * d)
  {
    if inverse {
    } else {
      assert -b * -d == b * d && -b * c == -(b * c) && a * -d == -(a * d);
    }
  }

  /** x and y are the cosine and sine of the sum of the angles of (a, b) and (c, s). */
  predicate AngleSum(a: real, b: real, c: real, s: real, x: real, y: real) {
    x == a * c - b * s && y == b * c + a * s
  }

  lemma PowProduct(inverse: bool, w: Complex, d: nat, e: nat, a: real, b: real, c: real, s: real, x: real, y: real)
    requires Pow(FIELD, w, d) == Root(inverse, a, b) && Pow(FIELD, w, e) == Root(inverse, c, s) && AngleSum(a, b, c, s, x, y)
    ensures Pow(FIELD, w, d + e) == Root(inverse, x, y)
  {
    hide Pow, Root, Mul, IsRing;
    ComplexIsRing();
    PowAdd(FIELD, w, d, e);
    RootProduct(inverse, a, b, c, s);
  }

  lemma NextAngle(inverse: bool, C: seq<real>, n: int, e: int)
    requires Cosines(C, n) && 0 <= e < n
    ensures Mul(CircleRoot(inverse, C, n), Root(inverse, C[e], C[n - e])) == Root(inverse, C[e + 1], C[n - e - 1])
  {
    assert AngleAdds(C, n, e);
    RootProduct(inverse, C[1], C[n - 1], C[e], C[n - e]);
    hide Mul, Root, Cosines;
  }

  lemma {:induction false} QuarterCircle(inverse: bool, C: seq<real>, n: int, e: nat)
    requires Cosines(C, n) && e <= n
    ensures Pow(FIELD, CircleRoot(inverse, C, n), e) == Root(inverse, C[e], C[n - e])
  {
    var w := CircleRoot(inverse, C, n);
    if e == 0 {
    } else {
      QuarterCircle(inverse, C, n, e - 1);
      NextAngle(inverse, C, n, e - 1);
      hide Mul, Root, Cosines, CircleRoot;
      assert Pow(FIELD, w, e) == Mul(w, Pow(FIELD, w, e - 1));
    }
  }

  lemma QuarterMore(inverse: bool, w: Complex, n: nat, e: nat)
    requires Pow(FIELD, w, n) == Root(inverse, 0.0, 1.0)
    ensures Pow(FIELD, w, n + e) == Rot(inverse, Pow(FIELD, w, e))
  {
    ComplexIsRing();
    PowAdd(FIELD, w, n, e);
    MulByUnits(inverse, Pow(FIELD, w, e));
    assert MulComm(FIELD, Root(inverse, 0.0, 1.0), Pow(FIELD, w, e));
    hide Pow, Mul, Rot, Root;
  }

  lemma RotRoot(inverse: bool, c: real, s: real)
    ensures Rot(inverse, Root(inverse, c, s)) == Root(inverse, -s, c)
  {
  }

  lemma SecondQuarter(inverse: bool, C: seq<real>, n: int, e: nat)
    requires Cosines(C, n) && e <= n
    ensures Pow(FIELD, CircleRoot(inverse, C, n), n + e) == Root(inverse, -C[n - e], C[e])
  {
    assert C[0] == 1.0 && C[n] == 0.0;
    hide Root, Rot, Pow, CircleRoot, Cosines, FIELD;
    QuarterCircle(inverse, C, n, n);
    QuarterCircle(inverse, C, n, e);
    QuarterMore(inverse, CircleRoot(inverse, C, n), n, e);
    RotRoot(inverse, C[e], C[n - e]);
  }

  lemma ThirdQuarter(inverse: bool, C: seq<real>, n: int, e: nat)
    requires Cosines(C, n) && e <= n
    ensures Pow(FIELD, CircleRoot(inverse, C, n), 2 * n + e) == Root(inverse, -C[e], -C[n - e])
  {
    assert C[0] == 1.0 && C[n] == 0.0;
    hide Root, Rot, Pow, CircleRoot, Cosines, FIELD;
    QuarterCircle(inverse, C, n, n);
    SecondQuarter(inverse, C, n, e);
    QuarterMore(inverse, CircleRoot(inverse, C, n), n, n + e);
    RotRoot(inverse, -C[n - e], C[e]);
  }

  /** The first three quarters of the circle. */
  lemma CirclePowers(inverse: bool, C: seq<real>, n: int, e: nat)
    requires Cosines(C, n) && e <= 3 * n
    ensures Pow(FIELD, CircleRoot(inverse, C, n), e) == TrigRoot(inverse, C, n, e)
  {
    hide Root, Pow, CircleRoot, FIELD;
    if e < n {
      QuarterCircle(inverse, C, n, e);
    } else if e < 2 * n {
      SecondQuarter(inverse, C, n, e - n);
    } else {
      ThirdQuarter(inverse, C, n, e - 2 * n);
    }
  }

  /** The whole circle. */
  lemma CircleCloses(inverse: bool, C: seq<real>, n: int)
    requires Cosines(C, n)
    ensures Pow(FIELD, CircleRoot(inverse, C, n), 4 * n) == FIELD.one
  {
    var w := CircleRoot(inverse, C, n);
    QuarterCircle(inverse, C, n, n);
    ThirdQuarter(inverse, C, n, n);
    QuarterMore(inverse, w, n, 3 * n);
    RotRoot(inverse, 0.0, -1.0);
  }
}
