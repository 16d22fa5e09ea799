/** Complex numbers over the reals, the kernels' exact arithmetic, and the ring they form. */
module Complexes {
  import opened Rings
  import opened Scalar

  datatype Complex = Complex(re: real, im: real)

  const ZERO := Complex(0.0, 0.0)
  const ONE := Complex(1.0, 0.0)

  function Add(a: Complex, b: Complex): Complex {
    Complex(a.re + b.re, a.im + b.im)
  }

  function Sub(a: Complex, b: Complex): Complex {
    Complex(a.re - b.re, a.im - b.im)
  }

  function Neg(a: Complex): Complex {
    Complex(-a.re, -a.im)
  }

  /** (yr·wr - yi·wi, yi·wr + yr·wi), the products of the twiddle multiply. */
  function Mul(y: Complex, w: Complex): Complex {
    Complex(y.re * w.re - y.im * w.im, y.im * w.re + y.re * w.im)
  }

  function Conj(a: Complex): Complex {
    Complex(a.re, -a.im)
  }

  function Scale(c: real, a: Complex): Complex {
    Complex(c * a.re, c * a.im)
  }

  /** s·i·z, s = -1 forward. */
  function Rot(inverse: bool, z: Complex): Complex {
    if inverse then Complex(-z.im, z.re) else Complex(z.im, -z.re)
  }

  /** The constants the kernels read. */
  datatype Consts = Consts(half: real, sin120: real, c51: real, c52: real, s51: real, s52: real, h: real)

  /** A kernel's operations in exact arithmetic. */
  function Exact(k: Consts, inverse: bool): Ops<Complex> {
    Ops((a, b) => Add(a, b), (a, b) => Sub(a, b), z => Rot(inverse, z),
        z => Scale(k.half, z), z => Scale(k.sin120, z),
        z => Scale(k.c51, z), z => Scale(k.c52, z), z => Scale(k.s51, z), z => Scale(k.s52, z),
        (a, s) => Add(a, Scale(k.h, s)), (a, s) => Sub(a, Scale(k.h, s)))
  }

  const FIELD: Ring<Complex> := Ring(ZERO, ONE, (a, b) => Add(a, b), (a, b) => Mul(a, b), a => Neg(a))

  lemma MulIsAssociative(a: Complex, b: Complex, c: Complex)
    ensures Mul(Mul(a, b), c) == Mul(a, Mul(b, c))
  {
    assert (a.re * b.re - a.im * b.im) * c.re == a.re * (b.re * c.re) - a.im * (b.im * c.re);
    assert (a.im * b.re + a.re * b.im) * c.im == a.im * (b.re * c.im) + a.re * (b.im * c.im);
    assert (a.im * b.re + a.re * b.im) * c.re == a.im * (b.re * c.re) + a.re * (b.im * c.re);
    assert (a.re * b.re - a.im * b.im) * c.im == a.re * (b.re * c.im) - a.im * (b.im * c.im);
    assert a.re * (b.re * c.re - b.im * c.im) == a.re * (b.re * c.re) - a.re * (b.im * c.im);
    assert a.im * (b.im * c.re + b.re * c.im) == a.im * (b.im * c.re) + a.im * (b.re * c.im);
    assert a.im * (b.re * c.re - b.im * c.im) == a.im * (b.re * c.re) - a.im * (b.im * c.im);
    assert a.re * (b.im * c.re + b.re * c.im) == a.re * (b.im * c.re) + a.re * (b.re * c.im);
  }

  lemma MulDistributes(a: Complex, b: Complex, c: Complex)
    ensures Mul(a, Add(b, c)) == Add(Mul(a, b), Mul(a, c))
  {
    assert a.re * (b.re + c.re) == a.re * b.re + a.re * c.re;
    assert a.im * (b.im + c.im) == a.im * b.im + a.im * c.im;
    assert a.im * (b.re + c.re) == a.im * b.re + a.im * c.re;
    assert a.re * (b.im + c.im) == a.re * b.im + a.re * c.im;
  }

  lemma ComplexIsRing()
    ensures IsRing(FIELD)
  {
    forall a, b, c ensures AddAssoc(FIELD, a, b, c) {}
    forall a, b ensures AddComm(FIELD, a, b) {}
    forall a ensures AddZero(FIELD, a) {}
    forall a ensures AddNeg(FIELD, a) {}
    forall a, b, c ensures MulAssoc(FIELD, a, b, c) {
      MulIsAssociative(a, b, c);
    }
    forall a, b ensures MulComm(FIELD, a, b) {}
    forall a ensures MulOne(FIELD, a) {}
    forall a, b, c ensures Distrib(FIELD, a, b, c) {
      MulDistributes(a, b, c);
    }
  }
}
