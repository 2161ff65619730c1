// What the positivity checks mean for a Hermitian 2x2 matrix: hal/src/sme/measurement.rs.
module Positivity {
  import opened ComplexNumbers
  import opened Matrices
  import opened MatrixExponential
  import opened Measurement

  // v^+ m v for the vector v = (a, b)
  function Form(m: Mat, a: Complex, b: Complex): real {
    Add(Mul(Conj(a), Add(Mul(At(m, 0, 0), a), Mul(At(m, 0, 1), b))),
        Mul(Conj(b), Add(Mul(At(m, 1, 0), a), Mul(At(m, 1, 1), b)))).re
  }

  function LengthSqr(a: Complex, b: Complex): real {
    NormSqr(a) + NormSqr(b)
  }

  // Every vector sees at least low times its squared length.
  ghost predicate AtLeast(m: Mat, low: real) {
    forall a, b :: Form(m, a, b) >= low * LengthSqr(a, b)
  }

  // The form in real terms, for diagonal p, q and upper entry c
  lemma {:induction false} FormOf(m: Mat, a: Complex, b: Complex)
    requires m.r == m.c == 2 && Hermitian(m)
    ensures Form(m, a, b) == At(m, 0, 0).re * NormSqr(a) + At(m, 1, 1).re * NormSqr(b) + Cross(At(m, 0, 1), a, b)
  {
    hide Dagger, At, Mul, Add, Conj, NormSqr, Cross;
    HermitianEntries(m);
    DiagonalTerm(At(m, 0, 0), a);
    DiagonalTerm(At(m, 1, 1), b);
    CrossTerm(At(m, 0, 1), a, b);
    Distrib(Conj(a), Mul(At(m, 0, 0), a), Mul(At(m, 0, 1), b));
    Distrib(Conj(b), Mul(At(m, 1, 0), a), Mul(At(m, 1, 1), b));
    AddParts(Mul(Conj(a), Mul(At(m, 0, 0), a)), Mul(Conj(a), Mul(At(m, 0, 1), b)));
    AddParts(Mul(Conj(b), Mul(At(m, 1, 0), a)), Mul(Conj(b), Mul(At(m, 1, 1), b)));
    AddParts(Mul(Conj(a), Add(Mul(At(m, 0, 0), a), Mul(At(m, 0, 1), b))),
             Mul(Conj(b), Add(Mul(At(m, 1, 0), a), Mul(At(m, 1, 1), b))));
  }

  // 2 Re(conj(a) c b)
  function Cross(c: Complex, a: Complex, b: Complex): real {
    2.0 * (c.re * (a.re * b.re + a.im * b.im) + c.im * (a.im * b.re - a.re * b.im))
  }

  lemma AddParts(a: Complex, b: Complex)
    ensures Add(a, b).re == a.re + b.re
  {}

  lemma HermitianEntries(m: Mat)
    requires m.r == m.c == 2 && Hermitian(m)
    ensures At(m, 0, 0).im == 0.0 && At(m, 1, 1).im == 0.0 && At(m, 1, 0) == Conj(At(m, 0, 1))
  {
    hide Dagger, At;
    DaggerAt(m, 0, 0);
    DaggerAt(m, 1, 0);
    DaggerAt(m, 1, 1);
  }

  lemma DiagonalTerm(p: Complex, a: Complex)
    requires p.im == 0.0
    ensures Mul(Conj(a), Mul(p, a)).re == p.re * NormSqr(a)
  {
    var x, y := a.re, a.im;
    assert Mul(p, a) == Complex(p.re * x, p.re * y);
    assert x * (p.re * x) == p.re * (x * x) && y * (p.re * y) == p.re * (y * y);
  }

  lemma CrossTerm(c: Complex, a: Complex, b: Complex)
    ensures Mul(Conj(a), Mul(c, b)).re + Mul(Conj(b), Mul(Conj(c), a)).re == Cross(c, a, b)
  {
    HalfCross(c, a, b);
    HalfCross(Conj(c), b, a);
  }

  lemma HalfCross(c: Complex, a: Complex, b: Complex)
    ensures Mul(Conj(a), Mul(c, b)).re == c.re * (a.re * b.re + a.im * b.im) + c.im * (a.im * b.re - a.re * b.im)
  {
    var z := Mul(c, b);
    assert z == Complex(c.re * b.re - c.im * b.im, c.re * b.im + c.im * b.re);
    assert a.re * (c.re * b.re) == c.re * (a.re * b.re) && a.re * (c.im * b.im) == c.im * (a.re * b.im);
    assert a.im * (c.re * b.im) == c.re * (a.im * b.im) && a.im * (c.im * b.re) == c.im * (a.im * b.re);
  }

  // ---------- the lower eigenvalue is the least value of the form ----------

  // The form with its lower eigenvalue subtracted from the diagonal
  function Excess(p: real, q: real, c: Complex, a: Complex, b: Complex): real {
    p * NormSqr(a) + q * NormSqr(b) + Cross(c, a, b)
  }

  // Completing the square
  lemma {:induction false} Completed(p: real, q: real, c: Complex, a: Complex, b: Complex)
    requires p * q == NormSqr(c)
    ensures p * Excess(p, q, c, a, b) == NormSqr(Add(Mul(Real(p), a), Mul(c, b)))
  {
    hide Mul, Cross, NormSqr;
    var z, x, y, w := Mul(c, b), p * NormSqr(a), q * NormSqr(b), Cross(c, a, b);
    AddLaws(Mul(Real(p), a), z, z);
    NormOfSum(z, a, p);
    ConjTimes(z, a);
    CrossProduct(c, a, b);
    NormProduct(c, b);
    SumTimes(p, x + y, w);
    SumTimes(p, x, y);
    assert p * y == NormSqr(c) * NormSqr(b) && p * x == (p * p) * NormSqr(a);
  }

  lemma CrossProduct(c: Complex, a: Complex, b: Complex)
    ensures Cross(c, a, b) == 2.0 * (a.re * Mul(c, b).re + a.im * Mul(c, b).im)
  {
    var x, y := c.re * b.re - c.im * b.im, c.re * b.im + c.im * b.re;
    assert a.re * x == c.re * (a.re * b.re) - c.im * (a.re * b.im);
    assert a.im * y == c.re * (a.im * b.im) + c.im * (a.im * b.re);
  }

  // The distances of the diagonal entries from the lower eigenvalue
  lemma Distances(sqrt: real -> real, m: Mat)
    requires IsSqrt(sqrt) && m.r == m.c == 2
    ensures var low := EigenvalueBounds(sqrt, m).0;
            var p, q := At(m, 0, 0).re - low, At(m, 1, 1).re - low;
            p >= 0.0 && q >= 0.0 && p * q == NormSqr(At(m, 0, 1))
  {
    hide At, NormSqr;
    BlochDiscriminant(m);
    var d, s := 0.5 * (At(m, 0, 0).re - At(m, 1, 1).re), sqrt(Discriminant(m));
    NonZeroNorm(At(m, 0, 1));
    RootDominates(s, d, NormSqr(At(m, 0, 1)));
  }

  lemma RootDominates(s: real, d: real, n: real)
    requires s >= 0.0 && n >= 0.0 && s * s == d * d + n
    ensures s + d >= 0.0 && s - d >= 0.0 && (s + d) * (s - d) == n
  {
    assert (s + d) * (s - d) == s * s - d * d;
    if s - d > 0.0 { ScaledNonNegative(s - d, s + d); }
    if s + d > 0.0 { ScaledNonNegative(s + d, s - d); }
  }

  lemma ExcessNonNegative(p: real, q: real, c: Complex, a: Complex, b: Complex)
    requires p >= 0.0 && q >= 0.0 && p * q == NormSqr(c)
    ensures Excess(p, q, c, a, b) >= 0.0
  {
    hide Cross, NormSqr, Mul, Add;
    if p == 0.0 {
      assert p * q == 0.0;
      NonZeroNorm(b);
      NoCross(c, a, b);
      ProductNonNegative(q, NormSqr(b));
    } else {
      hide Excess;
      Completed(p, q, c, a, b);
      NonZeroNorm(Add(Mul(Real(p), a), Mul(c, b)));
      ScaledNonNegative(p, Excess(p, q, c, a, b));
    }
  }

  lemma FormExcess(m: Mat, low: real, a: Complex, b: Complex)
    requires m.r == m.c == 2 && Hermitian(m)
    ensures Form(m, a, b) ==
      Excess(At(m, 0, 0).re - low, At(m, 1, 1).re - low, At(m, 0, 1), a, b) + low * LengthSqr(a, b)
  {
    hide Form, Cross, NormSqr, At, Hermitian;
    FormOf(m, a, b);
    Shifted(At(m, 0, 0).re, At(m, 1, 1).re, low, NormSqr(a), NormSqr(b));
  }

  // No vector sees less than the lower eigenvalue, and some vector sees exactly that.
  lemma LowestValue(sqrt: real -> real, m: Mat, a: Complex, b: Complex)
    requires IsSqrt(sqrt) && m.r == m.c == 2 && Hermitian(m)
    ensures Form(m, a, b) >= EigenvalueBounds(sqrt, m).0 * LengthSqr(a, b)
  {
    hide EigenvalueBounds, Form, Excess, LengthSqr, NormSqr, At, Hermitian;
    var low := EigenvalueBounds(sqrt, m).0;
    Distances(sqrt, m);
    FormExcess(m, low, a, b);
    ExcessNonNegative(At(m, 0, 0).re - low, At(m, 1, 1).re - low, At(m, 0, 1), a, b);
  }

  lemma Shifted(x: real, y: real, low: real, s: real, t: real)
    ensures x * s + y * t == (x - low) * s + (y - low) * t + low * (s + t)
  {}

  lemma NoCross(c: Complex, a: Complex, b: Complex)
    requires NormSqr(c) == 0.0
    ensures Cross(c, a, b) == 0.0
  {
    hide NormSqr;
    NonZeroNorm(c);
    assert c.re == 0.0 && c.im == 0.0;
  }

  lemma LowestAttained(sqrt: real -> real, m: Mat) returns (a: Complex, b: Complex)
    requires IsSqrt(sqrt) && m.r == m.c == 2 && Hermitian(m)
    ensures LengthSqr(a, b) > 0.0 && Form(m, a, b) == EigenvalueBounds(sqrt, m).0 * LengthSqr(a, b)
  {
    hide EigenvalueBounds, Form, Excess, LengthSqr, NormSqr, At, Hermitian;
    var low, c := EigenvalueBounds(sqrt, m).0, At(m, 0, 1);
    var p, q := At(m, 0, 0).re - low, At(m, 1, 1).re - low;
    Distances(sqrt, m);
    a, b := NullVector(p, q, c);
    FormExcess(m, low, a, b);
  }

  lemma NullVector(p: real, q: real, c: Complex) returns (a: Complex, b: Complex)
    requires p >= 0.0 && q >= 0.0 && p * q == NormSqr(c)
    ensures LengthSqr(a, b) > 0.0 && Excess(p, q, c, a, b) == 0.0
  {
    hide Cross, NormSqr, Mul, Add;
    if p == 0.0 {
      assert p * q == 0.0;
      a, b := ONE, ZERO;
      UnitNorms();
      NoCross(c, a, b);
    } else {
      hide Excess;
      a, b := Neg(c), Real(p);
      NonZeroNorm(a);
      NonZeroNorm(b);
      Completed(p, q, c, a, b);
      Cancels(p, c);
      ScaledNonNegative(p, Excess(p, q, c, a, b));
    }
  }

  lemma UnitNorms()
    ensures NormSqr(ONE) == 1.0 && NormSqr(ZERO) == 0.0
  {}

  lemma Cancels(p: real, c: Complex)
    ensures NormSqr(Add(Mul(Real(p), Neg(c)), Mul(c, Real(p)))) == 0.0
  {
    hide Mul;
    MulComm(c, Real(p));
    RealTimes(p, c);
    RealTimes(p, Neg(c));
  }

  // ---------- what the checks of the program mean ----------

  lemma {:induction false} LowerBoundExactly(sqrt: real -> real, m: Mat, low: real)
    requires IsSqrt(sqrt) && m.r == m.c == 2 && Hermitian(m)
    ensures AtLeast(m, low) <==> low <= EigenvalueBounds(sqrt, m).0
  {
    hide EigenvalueBounds, Form, LengthSqr, Hermitian;
    var least := EigenvalueBounds(sqrt, m).0;
    if low <= least {
      forall a, b ensures Form(m, a, b) >= low * LengthSqr(a, b) {
        LowestValue(sqrt, m, a, b);
        LengthNonNegative(a, b);
        ProductNonNegative(least - low, LengthSqr(a, b));
      }
    }
    if AtLeast(m, low) {
      var a, b := LowestAttained(sqrt, m);
      assert Form(m, a, b) >= low * LengthSqr(a, b);
      ScaledNonNegative(LengthSqr(a, b), least - low);
    }
  }

  lemma LengthNonNegative(a: Complex, b: Complex)
    ensures LengthSqr(a, b) >= 0.0
  {
    hide NormSqr;
    NonZeroNorm(a);
    NonZeroNorm(b);
  }

  // The violation test asks whether some vector sees less than -atol of its squared length.
  lemma ViolationExactly(sqrt: real -> real, m: Mat, atol: real)
    requires IsSqrt(sqrt) && m.r == m.c == 2 && Hermitian(m)
    ensures HasPositivityViolation(sqrt, m, atol) <==> !AtLeast(m, -atol)
  {
    hide EigenvalueBounds, AtLeast, Dagger, Symmetrize;
    SymmetrizeHermitian(m);
    LowerBoundExactly(sqrt, m, -atol);
  }

  // A Hermitian matrix with unit trace is positive semidefinite exactly in the Bloch ball,
  lemma BallIsPositive(sqrt: real -> real, m: Mat)
    requires IsSqrt(sqrt) && m.r == m.c == 2 && IsState(m)
    ensures AtLeast(m, 0.0) <==> BlochNormSqr(m) <= 1.0
  {
    hide EigenvalueBounds, AtLeast, Hermitian, Trace, BlochNormSqr;
    LowerBoundExactly(sqrt, m, 0.0);
    StateEigenvalues(sqrt, m);
    var s := sqrt(BlochNormSqr(m));
    if s > 1.0 { assert s * s > 1.0; }
    if s <= 1.0 {
      ProductNonNegative(1.0 - s, 1.0 + s);
      assert (1.0 - s) * (1.0 + s) == 1.0 - s * s;
    }
  }

  // so every projected state is positive semidefinite.
  lemma ProjectedIsPositive(sqrt: real -> real, rho: Mat, atol: real)
    requires IsSqrt(sqrt) && IsState(rho) && rho.r == 2 && atol >= 0.0
    ensures var r := ProjectPositiveCone(sqrt, rho); r.Ok? && IsState(r.value) && AtLeast(r.value, 0.0)
  {
    hide AtLeast, IsState, ProjectPositiveCone, BlochNormSqr, HasPositivityViolation;
    StateTrace(rho);
    ProjectionRepairs(sqrt, rho, atol);
    BallIsPositive(sqrt, ProjectPositiveCone(sqrt, rho).value);
  }
}
