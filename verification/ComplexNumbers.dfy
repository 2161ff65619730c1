// Complex numbers over exact reals: the model of Complex64.
module ComplexNumbers {

  datatype Complex = Complex(re: real, im: real)

  const ZERO := Complex(0.0, 0.0)
  const ONE := Complex(1.0, 0.0)
  const IMAG := Complex(0.0, 1.0)

  function Add(a: Complex, b: Complex): Complex {
    Complex(a.re + b.re, a.im + b.im)
  }

  function Sub(a: Complex, b: Complex): Complex {
    Complex(a.re - b.re, a.im - b.im)
  }

  function Mul(a: Complex, b: Complex): Complex {
    Complex(a.re * b.re - a.im * b.im, a.re * b.im + a.im * b.re)
  }

  function Conj(a: Complex): Complex {
    Complex(a.re, -a.im)
  }

  function Real(x: real): Complex {
    Complex(x, 0.0)
  }

  function Neg(a: Complex): Complex {
    Complex(-a.re, -a.im)
  }

  // |a|^2
  function NormSqr(a: Complex): real {
    a.re * a.re + a.im * a.im
  }

  // 1/b, the conjugate over the squared norm
  function Inv(b: Complex): Complex
    requires b != ZERO
  {
    NonZeroNorm(b);
    Complex(b.re / NormSqr(b), -b.im / NormSqr(b))
  }

  function Div(a: Complex, b: Complex): Complex
    requires b != ZERO
  {
    Mul(a, Inv(b))
  }

  lemma ConjOf(re: real, im: real)
    ensures Conj(Complex(re, im)) == Complex(re, 0.0 - im)
  {}

  lemma ConjZero()
    ensures Conj(ZERO) == ZERO
  {
    hide Conj;
    ConjOf(0.0, 0.0);
  }

  lemma NonZeroNorm(a: Complex)
    ensures NormSqr(a) >= 0.0
    ensures NormSqr(a) == 0.0 <==> a == ZERO
  {
    Square(a.re);
    Square(a.im);
  }

  lemma Square(x: real)
    ensures x * x >= 0.0
    ensures x * x == 0.0 <==> x == 0.0
  {
    if x != 0.0 {
      assert (x * x) / x == x;
    }
  }

  lemma AddLaws(a: Complex, b: Complex, c: Complex)
    ensures Add(a, b) == Add(b, a)
    ensures Add(Add(a, b), c) == Add(a, Add(b, c))
    ensures Add(ZERO, a) == a && Add(a, ZERO) == a
    ensures Sub(a, b) == Add(a, Neg(b))
    ensures Add(a, Neg(a)) == ZERO
  {}

  lemma MulUnit(a: Complex)
    ensures Mul(ONE, a) == a && Mul(a, ONE) == a
    ensures Mul(ZERO, a) == ZERO && Mul(a, ZERO) == ZERO
    ensures Mul(Real(-1.0), a) == Neg(a)
  {}

  lemma MulComm(a: Complex, b: Complex)
    ensures Mul(a, b) == Mul(b, a)
  {}

  lemma MulAssoc(a: Complex, b: Complex, c: Complex)
    ensures Mul(Mul(a, b), c) == Mul(a, Mul(b, c))
  {}

  lemma Distrib(a: Complex, b: Complex, c: Complex)
    ensures Mul(a, Add(b, c)) == Add(Mul(a, b), Mul(a, c))
    ensures Mul(Add(b, c), a) == Add(Mul(b, a), Mul(c, a))
  {}

  lemma ConjLaws(a: Complex, b: Complex)
    ensures Conj(Conj(a)) == a
    ensures Conj(Add(a, b)) == Add(Conj(a), Conj(b))
    ensures Conj(Mul(a, b)) == Mul(Conj(a), Conj(b))
    ensures Mul(Conj(a), a) == Real(NormSqr(a))
  {}

  lemma {:induction false} InvLaw(b: Complex)
    requires b != ZERO
    ensures Mul(b, Inv(b)) == ONE
  {
    NonZeroNorm(b);
    var n, c := NormSqr(b), Inv(b);
    assert n * c.re == b.re && n * c.im == -b.im;
    assert n * (b.re * c.re - b.im * c.im) == b.re * (n * c.re) - b.im * (n * c.im);
    assert n * (b.re * c.im + b.im * c.re) == b.re * (n * c.im) + b.im * (n * c.re);
    CancelFactor(n, b.re * c.re - b.im * c.im, 1.0);
    CancelFactor(n, b.re * c.im + b.im * c.re, 0.0);
  }

  lemma CancelFactor(n: real, x: real, y: real)
    requires n != 0.0 && n * x == n * y
    ensures x == y
  {}

  // Division undoes multiplication, on both sides.
  lemma {:induction false} DivMul(a: Complex, b: Complex)
    requires b != ZERO
    ensures Mul(b, Div(a, b)) == a
    ensures Div(Mul(b, a), b) == a
  {
    hide Mul, Inv, NormSqr;
    InvLaw(b);
    MulUnit(a);
    MulAssoc(b, a, Inv(b));
    MulComm(b, a);
    MulAssoc(a, b, Inv(b));
  }

  // ---------- squared norms of sums and products ----------

  lemma NormOfSum(chi: Complex, tau: Complex, h: real)
    ensures NormSqr(Add(chi, Mul(Real(h), tau))) ==
      NormSqr(chi) + 2.0 * (h * Mul(Conj(chi), tau).re) + (h * h) * NormSqr(tau)
  {
    hide Mul, NormSqr, Add, Conj;
    NormOfPlus(chi, Mul(Real(h), tau));
    NormProduct(Real(h), tau);
    NormOfReal(h);
    MulAssoc(Conj(chi), Real(h), tau);
    MulComm(Conj(chi), Real(h));
    MulAssoc(Real(h), Conj(chi), tau);
    RealTimes(h, Mul(Conj(chi), tau));
  }

  lemma NormOfPlus(a: Complex, b: Complex)
    ensures NormSqr(Add(a, b)) == NormSqr(a) + 2.0 * Mul(Conj(a), b).re + NormSqr(b)
  {
    hide Mul;
    ConjTimes(a, b);
    Binomial(a.re, b.re);
    Binomial(a.im, b.im);
  }

  lemma Binomial(x: real, y: real)
    ensures (x + y) * (x + y) == x * x + 2.0 * (x * y) + y * y
  {}

  lemma NormOfReal(h: real)
    ensures NormSqr(Real(h)) == h * h
  {}

  lemma SumTimes(h: real, p: real, q: real)
    ensures h * (p + q) == h * p + h * q
  {}

  lemma RealTimes(h: real, z: Complex)
    ensures Mul(Real(h), z) == Complex(h * z.re, h * z.im)
  {}

  lemma ConjTimes(a: Complex, b: Complex)
    ensures Mul(Conj(a), b).re == a.re * b.re + a.im * b.im
  {}

  lemma NormProduct(c: Complex, b: Complex)
    ensures NormSqr(Mul(c, b)) == NormSqr(c) * NormSqr(b)
  {
    hide Mul, NormSqr;
    ConjLaws(c, b);
    ConjLaws(b, b);
    ConjLaws(Mul(c, b), b);
    MulComm(Conj(c), Conj(b));
    MulAssoc(Conj(b), Conj(c), Mul(c, b));
    MulAssoc(Conj(c), c, b);
    RealTimes(NormSqr(c), b);
    MulComm(Real(NormSqr(c)), b);
    MulAssoc(Conj(b), b, Real(NormSqr(c)));
    RealTimes(NormSqr(b), Real(NormSqr(c)));
  }

  // ---------- signs of real products ----------

  lemma ScaledNonNegative(d: real, x: real)
    requires d > 0.0
    ensures d * x >= 0.0 <==> x >= 0.0
    ensures d * x == 0.0 <==> x == 0.0
  {
    if x < 0.0 { assert d * x < 0.0; }
    if x > 0.0 { assert d * x > 0.0; }
  }

  lemma ProductNonNegative(a: real, b: real)
    requires a >= 0.0 && b >= 0.0
    ensures a * b >= 0.0
  {}
}
