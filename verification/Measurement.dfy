// Measurement-side helpers of the stochastic master equation: hal/src/sme/measurement.rs.
module Measurement {
  import opened Reals
  import opened Wrappers
  import opened ComplexNumbers
  import opened Matrices
  import opened MatrixExponential
  import opened Lindblad

  // sqrt is a parameter known only through its square.
  ghost predicate IsSqrt(sqrt: real -> real) {
    forall x :: x >= 0.0 ==> sqrt(x) >= 0.0 && sqrt(x) * sqrt(x) == x
  }

  lemma SqrtUnique(sqrt: real -> real, x: real, y: real)
    requires IsSqrt(sqrt) && x >= 0.0 && y >= 0.0 && y * y == x
    ensures sqrt(x) == y
  {
    var s := sqrt(x);
    assert (s - y) * (s + y) == 0.0;
    if s != y { ProductZero(s - y, s + y); }
  }

  lemma ProductZero(a: real, b: real)
    requires a * b == 0.0 && a != 0.0
    ensures b == 0.0
  {}

  // sqrt(x) <= 1 exactly when x <= 1
  lemma SqrtBelowOne(sqrt: real -> real, x: real)
    requires IsSqrt(sqrt) && x >= 0.0
    ensures sqrt(x) <= 1.0 <==> x <= 1.0
  {
    var s := sqrt(x);
    if s > 1.0 { assert s * s > 1.0; }
    if s <= 1.0 { assert s * s <= s * 1.0; }
  }

  function Norm(sqrt: real -> real, z: Complex): real {
    sqrt(NormSqr(z))
  }

  // fold(0.0, max)
  function MaxOver(n: nat, f: int -> real): real {
    if n == 0 then 0.0 else
      var m := MaxOver(n - 1, f);
      if f(n - 1) > m then f(n - 1) else m
  }

  lemma {:induction false} MaxOverZero(n: nat, f: int -> real)
    requires forall k :: 0 <= k < n ==> f(k) == 0.0
    ensures MaxOver(n, f) == 0.0
  {
    if n > 0 { MaxOverZero(n - 1, f); }
  }

  function RowMax(sqrt: real -> real, m: Mat, i: int): real {
    MaxOver(m.c, j => Norm(sqrt, At(m, i, j)))
  }

  function NonHermitianResidue(sqrt: real -> real, m: Mat): real {
    var diff := Minus(m, Dagger(m));
    MaxOver(diff.r, i => RowMax(sqrt, diff, i))
  }

  function TraceDeviation(sqrt: real -> real, m: Mat): real {
    Norm(sqrt, Sub(Trace(m), ONE))
  }

  lemma {:induction false} HermitianResidueZero(sqrt: real -> real, m: Mat)
    requires IsSqrt(sqrt) && Hermitian(m)
    ensures NonHermitianResidue(sqrt, m) == 0.0
  {
    hide NormSqr, Dagger;
    var diff := Minus(m, Dagger(m));
    NormZero(sqrt);
    forall i | 0 <= i < diff.r ensures RowMax(sqrt, diff, i) == 0.0 {
      forall j | 0 <= j < diff.c ensures Norm(sqrt, At(diff, i, j)) == 0.0 {
        assert At(diff, i, j) == ZERO;
      }
      MaxOverZero(diff.c, j => Norm(sqrt, At(diff, i, j)));
    }
    MaxOverZero(diff.r, i => RowMax(sqrt, diff, i));
  }

  lemma NormZero(sqrt: real -> real)
    requires IsSqrt(sqrt)
    ensures Norm(sqrt, ZERO) == 0.0
  {
    SqrtUnique(sqrt, 0.0, 0.0);
  }

  // ---------- density matrices ----------

  lemma SumTwo(f: int -> Complex)
    ensures Sum(2, f) == Add(f(0), f(1))
  {
    assert Sum(1, f) == Add(Sum(0, f), f(0));
    AddLaws(f(0), ZERO, ZERO);
  }

  // Hermitian with unit trace; positivity is a matter of the checks below.
  ghost predicate IsState(m: Mat) {
    Hermitian(m) && Trace(m) == ONE
  }

  function Symmetrize(m: Mat): (s: Mat)
    ensures s.r == m.r && s.c == m.c
  {
    Scale(HALF, Plus(m, Dagger(m)))
  }

  const TRACE_FLOOR := 1.0 / 1_000_000_000_000_000.0

  predicate NearZero(t: Complex) {
    NormSqr(t) < TRACE_FLOOR * TRACE_FLOOR
  }

  lemma NearZeroFacts()
    ensures NearZero(ZERO) && !NearZero(ONE)
  {}

  function Renormalize(m: Mat): (r: Result<Mat>)
    ensures r.Ok? ==> r.value.r == m.r && r.value.c == m.c
  {
    var t := Trace(m);
    if NearZero(t) then Err("Cannot renormalize density matrix with near-zero trace")
    else
      NearZeroFacts();
      Ok(Build(m.r, m.c, (i, j) => if t == ZERO then ZERO else Div(At(m, i, j), t)))
  }

  lemma SymmetrizeHermitian(m: Mat)
    requires m.r == m.c
    ensures Hermitian(Symmetrize(m))
    ensures Hermitian(m) ==> Symmetrize(m) == m
    ensures Trace(Symmetrize(m)) == Real(Trace(m).re)
  {
    hide Plus, Scale, Dagger, Trace, Mul, Add, Conj, Real;
    DaggerPlus(m, Dagger(m));
    DaggerDagger(m);
    PlusLaws(m, Dagger(m), m);
    DaggerScale(HALF, Plus(m, Dagger(m)));
    HalfIsReal();
    TraceLinear(ONE, m, Dagger(m));
    TraceLinear(HALF, Plus(m, Dagger(m)), m);
    HalfOfConj(Trace(m));
    ScalePlus(HALF, m, m);
    ScaleLaws(HALF, HALF, m);
    ScaleLaws(ONE, ONE, m);
    HalvesAdd();
  }

  lemma HalvesAdd()
    ensures Add(HALF, HALF) == ONE
  {}

  lemma HalfOfConj(z: Complex)
    ensures Mul(HALF, Add(z, Conj(z))) == Real(z.re)
  {}

  // Dividing a Hermitian matrix by its trace, when that is not negligible, gives a state.
  lemma {:induction false} RenormalizeState(m: Mat)
    requires Hermitian(m) && Renormalize(m).Ok?
    ensures IsState(Renormalize(m).value)
  {
    hide Trace, Dagger, Div, NearZero, Scale, Inv, Mul, Conj, Real;
    var t, n := Trace(m), Renormalize(m).value;
    NearZeroFacts();
    var inv := Inv(t);
    forall i, j | 0 <= i < m.r && 0 <= j < m.c
      ensures At(n, i, j) == At(Scale(inv, m), i, j)
    {
      DivIsScale(At(m, i, j), t);
      ScaleAt(inv, m, i, j);
    }
    Ext(n, Scale(inv, m));
    TraceLinear(ONE, m, m);
    InvReal(t);
    HermitianScale(inv.re, m);
    TraceLinear(inv, m, m);
    InvLaw(t);
    MulComm(t, inv);
  }

  lemma {:induction false} RenormalizeUnit(m: Mat)
    requires Trace(m) == ONE
    ensures Renormalize(m) == Ok(m)
  {
    hide Trace, Div, NearZero;
    NearZeroFacts();
    var n := Renormalize(m).value;
    forall i, j | 0 <= i < m.r && 0 <= j < m.c ensures At(n, i, j) == At(m, i, j) {
      DivByOne(At(m, i, j));
    }
    Ext(n, m);
  }

  lemma DivIsScale(a: Complex, t: Complex)
    requires t != ZERO
    ensures Div(a, t) == Mul(Inv(t), a)
  {
    MulComm(a, Inv(t));
  }

  lemma ScaleAt(z: Complex, m: Mat, i: int, j: int)
    requires 0 <= i < m.r && 0 <= j < m.c
    ensures At(Scale(z, m), i, j) == Mul(z, At(m, i, j))
  {}

  lemma InvReal(t: Complex)
    requires t != ZERO && t == Conj(t)
    ensures Inv(t) == Real(Inv(t).re)
  {
    NonZeroNorm(t);
    assert Inv(t).im * NormSqr(t) == -t.im;
    ProductZero(NormSqr(t), Inv(t).im);
  }

  lemma DivByOne(a: Complex)
    ensures Div(a, ONE) == a
  {
    hide Mul;
    assert NormSqr(ONE) == 1.0;
    assert Inv(ONE) == ONE;
    MulUnit(a);
  }

  // ---------- homodyne innovation ----------

  function MeasurementExpectation(c: Mat, rho: Mat): real {
    Trace(Dot(Plus(c, Dagger(c)), rho)).re
  }

  function Innovation(c: Mat, rho: Mat): (m: Mat)
    ensures m.r == c.r && m.c == rho.c
  {
    Minus(Plus(Dot(c, rho), Dot(rho, Dagger(c))), Scale(Real(MeasurementExpectation(c, rho)), rho))
  }

  const INNOVATION_ATOL := 1.0 / 10_000_000_000.0

  function MeasurementSuperoperator(sqrt: real -> real, c: Mat, rho: Mat): (r: Result<Mat>)
    ensures r.Ok? ==> r.value == Innovation(c, rho)
  {
    var m := Innovation(c, rho);
    if NonHermitianResidue(sqrt, m) > INNOVATION_ATOL then Err("measurement_innovation is not Hermitian")
    else if Norm(sqrt, Trace(m)) > INNOVATION_ATOL then Err("measurement_innovation must be trace-zero")
    else Ok(m)
  }

  // On a state the innovation is Hermitian and traceless for every measurement operator.
  lemma {:induction false} InnovationIncrement(c: Mat, rho: Mat)
    requires c.r == c.c == rho.r && IsState(rho)
    ensures Increment(Innovation(c, rho), true)
  {
    hide Dot, Plus, Minus, Scale, Dagger, Trace, Mul, Add, Sub, Conj, MeasurementExpectation;
    var cDag := Dagger(c);
    var a, b := Dot(c, rho), Dot(rho, cDag);
    var e := MeasurementExpectation(c, rho);
    DaggerDot(c, rho);
    DaggerDot(rho, cDag);
    DaggerDagger(c);
    assert Dagger(a) == b && Dagger(b) == a;
    DaggerPlus(a, b);
    PlusLaws(a, b, a);
    HermitianScale(e, rho);
    DaggerPlus(Plus(a, b), Scale(Real(e), rho));
    ExpectationIsTrace(c, rho);
    TraceLinear(Real(e), rho, rho);
    MulUnit(Real(e));
    TraceMinus(Plus(a, b), Scale(Real(e), rho));
    AddLaws(Real(e), Real(e), ZERO);
  }

  lemma ExpectationIsTrace(c: Mat, rho: Mat)
    requires c.r == c.c == rho.r && Hermitian(rho)
    ensures Trace(Plus(Dot(c, rho), Dot(rho, Dagger(c)))) == Real(MeasurementExpectation(c, rho))
  {
    hide Dot, Plus, Dagger, Trace;
    var a := Dot(c, rho);
    DaggerDot(c, rho);
    PlusDot(c, Dagger(c), rho);
    TraceCyclic(Dagger(c), rho);
    TraceLinear(ONE, a, Dot(Dagger(c), rho));
    TraceLinear(ONE, a, Dot(rho, Dagger(c)));
    TraceLinear(ONE, a, a);
  }

  lemma {:induction false} SuperoperatorAccepts(sqrt: real -> real, c: Mat, rho: Mat)
    requires IsSqrt(sqrt) && c.r == c.c == rho.r && IsState(rho)
    ensures MeasurementSuperoperator(sqrt, c, rho) == Ok(Innovation(c, rho))
  {
    hide Innovation, NonHermitianResidue, Norm;
    InnovationIncrement(c, rho);
    HermitianResidueZero(sqrt, Innovation(c, rho));
    NormZero(sqrt);
  }

  // ---------- positivity in the Bloch ball ----------

  function Discriminant(m: Mat): real {
    var halfDiff := 0.5 * (At(m, 0, 0).re - At(m, 1, 1).re);
    halfDiff * halfDiff + NormSqr(At(m, 0, 1))
  }

  // Eigenvalues of a Hermitian 2x2 matrix.
  function EigenvalueBounds(sqrt: real -> real, m: Mat): (real, real)
    requires m.r == m.c == 2
  {
    var halfSum, disc := 0.5 * (At(m, 0, 0).re + At(m, 1, 1).re), sqrt(Discriminant(m));
    (halfSum - disc, halfSum + disc)
  }

  function MinDiagonal(m: Mat, k: nat): real
    requires 0 < k
  {
    if k == 1 then At(m, 0, 0).re else
      var l := MinDiagonal(m, k - 1);
      if At(m, k - 1, k - 1).re < l then At(m, k - 1, k - 1).re else l
  }

  predicate HasPositivityViolation(sqrt: real -> real, rho: Mat, atol: real) {
    var sym := Symmetrize(rho);
    if sym.r == sym.c == 2 then EigenvalueBounds(sqrt, sym).0 < -atol
    else sym.r > 0 && MinDiagonal(sym, sym.r) < -atol
  }

  function TraceNormDeviation(sqrt: real -> real, rho: Mat): real {
    var sym := Symmetrize(rho);
    var t := Trace(sym).re / 2.0;
    var (lo, hi) := if sym.r == sym.c == 2 then EigenvalueBounds(sqrt, sym) else (t, t);
    Abs(Abs(lo) + Abs(hi) - 1.0)
  }

  // Squared length of the Bloch vector (2 Re b, -2 Im b, a - d).
  function BlochNormSqr(m: Mat): real {
    var x, y, z := 2.0 * At(m, 0, 1).re, -2.0 * At(m, 0, 1).im, At(m, 0, 0).re - At(m, 1, 1).re;
    x * x + y * y + z * z
  }

  function FromBloch(x: real, y: real, z: real): (m: Mat)
    ensures m.r == m.c == 2
  {
    Build(2, 2, (i, j) =>
      if i == 0 && j == 0 then Complex(0.5 * (1.0 + z), 0.0)
      else if i == 1 && j == 1 then Complex(0.5 * (1.0 - z), 0.0)
      else if i == 0 then Complex(0.5 * x, -0.5 * y)
      else Complex(0.5 * x, 0.5 * y))
  }

  function ProjectPositiveCone(sqrt: real -> real, rho: Mat): (r: Result<Mat>)
  {
    match Renormalize(Symmetrize(rho))
    case Err(e) => Err(e)
    case Ok(m) =>
      if !(m.r == m.c == 2) then Err("positivity projection currently supports only 2x2 density matrices") else
      var x, y, z := 2.0 * At(m, 0, 1).re, -2.0 * At(m, 0, 1).im, At(m, 0, 0).re - At(m, 1, 1).re;
      var norm := sqrt(BlochNormSqr(m));
      if norm <= 1.0 then Ok(m) else Ok(FromBloch(x / norm, y / norm, z / norm))
  }

  // The projection divides the Bloch vector by its length when that exceeds one, and leaves it alone otherwise.
  lemma {:induction false} ProjectionKeepsDirection(sqrt: real -> real, rho: Mat)
    requires IsSqrt(sqrt) && IsState(rho) && rho.r == 2
    ensures ProjectPositiveCone(sqrt, rho).Ok?
    ensures var m, n := ProjectPositiveCone(sqrt, rho).value, MaxReal(1.0, sqrt(BlochNormSqr(rho)));
            BlochVector(m) == (BlochVector(rho).0 / n, BlochVector(rho).1 / n, BlochVector(rho).2 / n)
  {
    hide At, Trace, Dagger, Symmetrize, Renormalize, FromBloch;
    StateTrace(rho);
    SymmetrizeFixesState(rho);
    var (x, y, z) := BlochVector(rho);
    var n := sqrt(BlochNormSqr(rho));
    if n > 1.0 { FromBlochVector(x / n, y / n, z / n); }
  }

  // (2 Re b, -2 Im b, a - d)
  function BlochVector(m: Mat): (real, real, real) {
    (2.0 * At(m, 0, 1).re, -2.0 * At(m, 0, 1).im, At(m, 0, 0).re - At(m, 1, 1).re)
  }

  lemma FromBlochVector(x: real, y: real, z: real)
    ensures BlochVector(FromBloch(x, y, z)) == (x, y, z)
  {
    hide At;
  }

  lemma StateTrace(m: Mat)
    ensures IsState(m) ==> Trace(m) == ONE && m.r == m.c
  {
    hide Trace, Dagger;
  }

  lemma StateEntries(m: Mat)
    requires m.r == 2
    ensures Trace(m) == ONE ==> At(m, 0, 0).re + At(m, 1, 1).re == 1.0
  {
    hide Sum;
    SumTwo(i => At(m, i, i));
  }

  // The eigenvalue bounds of a unit-trace 2x2 matrix are (1 -+ r)/2 for Bloch length r.
  lemma {:induction false} StateEigenvalues(sqrt: real -> real, m: Mat)
    requires IsSqrt(sqrt) && m.r == m.c == 2
    ensures BlochNormSqr(m) >= 0.0
    ensures Trace(m) == ONE ==>
      EigenvalueBounds(sqrt, m) == (0.5 - 0.5 * sqrt(BlochNormSqr(m)), 0.5 + 0.5 * sqrt(BlochNormSqr(m)))
  {
    hide Trace, Dagger, At, NormSqr, Discriminant, BlochNormSqr;
    BlochDiscriminant(m);
    if Trace(m) == ONE {
      StateEntries(m);
      var s := sqrt(BlochNormSqr(m));
      assert s >= 0.0 && s * s == BlochNormSqr(m);
      assert (0.5 * s) * (0.5 * s) == 0.25 * (s * s);
      SqrtUnique(sqrt, Discriminant(m), 0.5 * s);
    }
  }

  lemma BlochDiscriminant(m: Mat)
    ensures BlochNormSqr(m) == 4.0 * Discriminant(m) && Discriminant(m) >= 0.0
  {
    hide At;
    BlochArithmetic(At(m, 0, 0).re - At(m, 1, 1).re, At(m, 0, 1).re, At(m, 0, 1).im);
  }

  lemma BlochArithmetic(z: real, p: real, q: real)
    ensures (2.0 * p) * (2.0 * p) + (-2.0 * q) * (-2.0 * q) + z * z == 4.0 * ((0.5 * z) * (0.5 * z) + (p * p + q * q))
    ensures p * p + q * q + z * z >= 0.0 && (0.5 * z) * (0.5 * z) + (p * p + q * q) >= 0.0
  {
    Square(p);
    Square(q);
    Square(z);
  }

  // For a 2x2 state the step's stability metric is exactly twice its negative eigenvalue.
  lemma {:induction false} StabilityIsNegativity(sqrt: real -> real, m: Mat)
    requires IsSqrt(sqrt) && m.r == m.c == 2
    ensures var lo := EigenvalueBounds(sqrt, m).0;
            IsState(m) ==> TraceNormDeviation(sqrt, m) == if lo < 0.0 then -2.0 * lo else 0.0
  {
    hide Trace, Dagger, Symmetrize, EigenvalueBounds, BlochNormSqr;
    if IsState(m) {
      SymmetrizeFixesState(m);
      StateEigenvalues(sqrt, m);
      assert sqrt(BlochNormSqr(m)) >= 0.0;
    }
  }

  lemma SymmetrizeFixesState(m: Mat)
    requires IsState(m)
    ensures Symmetrize(m) == m && Renormalize(m) == Ok(m)
  {
    hide Trace, Symmetrize, Renormalize;
    SymmetrizeHermitian(m);
    RenormalizeUnit(m);
  }

  lemma {:induction false} BlochState(x: real, y: real, z: real)
    ensures IsState(FromBloch(x, y, z)) && BlochNormSqr(FromBloch(x, y, z)) == x * x + y * y + z * z
  {
    hide Trace, At, Sum, Dagger;
    var m := FromBloch(x, y, z);
    BlochEntries(x, y, z);
    Ext(Dagger(m), m);
    BlochTrace(x, y, z);
  }

  lemma BlochEntries(x: real, y: real, z: real)
    ensures var m := FromBloch(x, y, z);
            && At(m, 0, 0) == Complex(0.5 * (1.0 + z), 0.0) && At(m, 1, 1) == Complex(0.5 * (1.0 - z), 0.0)
            && At(m, 0, 1) == Complex(0.5 * x, -0.5 * y) && At(m, 1, 0) == Complex(0.5 * x, 0.5 * y)
            && forall i, j :: 0 <= i < 2 && 0 <= j < 2 ==> At(Dagger(m), i, j) == At(m, i, j)
  {
    hide Dagger;
    var m := FromBloch(x, y, z);
    forall i, j | 0 <= i < 2 && 0 <= j < 2 ensures At(Dagger(m), i, j) == At(m, i, j) {
      DaggerAt(m, i, j);
    }
  }

  lemma DaggerAt(m: Mat, i: int, j: int)
    requires 0 <= i < m.c && 0 <= j < m.r
    ensures At(Dagger(m), i, j) == Conj(At(m, j, i))
  {}

  lemma BlochTrace(x: real, y: real, z: real)
    ensures Trace(FromBloch(x, y, z)) == ONE
  {
    hide At, Sum;
    var m := FromBloch(x, y, z);
    BlochEntries(x, y, z);
    SumTwo(i => At(m, i, i));
  }

  lemma UnitVector(x: real, y: real, z: real, n: real)
    requires n > 0.0 && n * n == x * x + y * y + z * z
    ensures (x / n) * (x / n) + (y / n) * (y / n) + (z / n) * (z / n) == 1.0
  {
    var a, b, c, q := x / n, y / n, z / n, n * n;
    assert a * n == x && b * n == y && c * n == z;
    assert (a * n) * (a * n) == (a * a) * q;
    assert (b * n) * (b * n) == (b * b) * q;
    assert (c * n) * (c * n) == (c * c) * q;
    assert q * (a * a + b * b + c * c) == (a * a) * q + (b * b) * q + (c * c) * q;
    Square(n);
    CancelFactor(q, a * a + b * b + c * c, 1.0);
  }

  // Whatever 2x2 matrix goes in, the projection returns a state in the Bloch ball with no violation;
  // it leaves a state that already lies in the ball alone.
  lemma {:induction false} ProjectionRepairs(sqrt: real -> real, rho: Mat, atol: real)
    requires IsSqrt(sqrt) && rho.r == rho.c && atol >= 0.0
    ensures var r := ProjectPositiveCone(sqrt, rho);
            && (r.Ok? ==> rho.r == 2 && r.value.r == r.value.c == 2)
            && (r.Ok? ==>
              IsState(r.value) && BlochNormSqr(r.value) <= 1.0 && !HasPositivityViolation(sqrt, r.value, atol))
            && (rho.r == 2 && IsState(rho) ==> r.Ok?)
            && (rho.r == 2 && IsState(rho) && BlochNormSqr(rho) <= 1.0 ==> r == Ok(rho))
  {
    hide Trace, Hermitian, Symmetrize, Renormalize, EigenvalueBounds, FromBloch, At, IsState;
    var n := Renormalize(Symmetrize(rho));
    SymmetrizeHermitian(rho);
    if IsState(rho) { SymmetrizeFixesState(rho); }
    if n.Ok? && rho.r == 2 {
      var m := n.value;
      RenormalizeState(Symmetrize(rho));
      StateTrace(m);
      StateEigenvalues(sqrt, m);
      SqrtBelowOne(sqrt, BlochNormSqr(m));
      var x, y, z := 2.0 * At(m, 0, 1).re, -2.0 * At(m, 0, 1).im, At(m, 0, 0).re - At(m, 1, 1).re;
      var norm := sqrt(BlochNormSqr(m));
      var p := ProjectPositiveCone(sqrt, rho).value;
      if norm > 1.0 {
        UnitVector(x, y, z, norm);
        BlochState(x / norm, y / norm, z / norm);
      }
      SymmetrizeFixesState(p);
      StateTrace(p);
      StateEigenvalues(sqrt, p);
      SqrtBelowOne(sqrt, BlochNormSqr(p));
    }
  }
}
