// Scaling and squaring with a Pade quotient: hal/src/grape/expm.rs.
module MatrixExponential {
  import opened ComplexNumbers
  import opened Matrices
  import opened LinearSolve

  // ---------- powers by repeated squaring ----------

  function Pow2(s: nat): (p: nat)
    ensures p >= 1
  {
    if s == 0 then 1 else 2 * Pow2(s - 1)
  }

  function MatPow(m: Mat, e: nat): (p: Mat)
    requires m.r == m.c
    ensures p.r == p.c == m.r
  {
    if e == 0 then Id(m.r) else Dot(MatPow(m, e - 1), m)
  }

  lemma {:induction false} MatPowAdd(m: Mat, a: nat, b: nat)
    requires m.r == m.c
    ensures MatPow(m, a + b) == Dot(MatPow(m, a), MatPow(m, b))
  {
    hide Dot, Id;
    if b == 0 {
      IdLaws(MatPow(m, a));
    } else {
      MatPowAdd(m, a, b - 1);
      DotAssoc(MatPow(m, a), MatPow(m, b - 1), m);
    }
  }

  method SquareRepeatedly(m0: Mat, s: nat) returns (m: Mat)
    requires m0.r == m0.c
    ensures m == MatPow(m0, Pow2(s))
  {
    hide Dot, Id;
    m := m0;
    IdLaws(m);
    assert MatPow(m0, 1) == Dot(MatPow(m0, 0), m0);
    for i := 0 to s
      invariant m == MatPow(m0, Pow2(i))
    {
      MatPowAdd(m0, Pow2(i), Pow2(i));
      var m2 := Dot(m, m);
      m := m2;
    }
  }

  // ---------- the Pade quotient ----------

  type PadeCoeffs = c: seq<real> | |c| == 14 witness seq(14, i => 0.0)

  const PADE_COEFFS: PadeCoeffs := [
    1.0,
    0.5,
    0.12,
    0.018333333333333334,
    0.0019927536231884058,
    0.0001630434782608696,
    0.00001035196687401600,
    0.000000517598343700801,
    0.000000020431513566525,
    0.0000000006306022705717593,
    0.0000000000148377004840414,
    0.0000000000002529153491597966,
    0.0000000000000028101705462199624,
    0.00000000000000001544049750670309
  ]

  function Combo(x: real, a: Mat, y: real, b: Mat, z: real, c: Mat): (m: Mat)
    ensures m.r == a.r && m.c == a.c
  {
    Plus(Plus(Scale(Real(x), a), Scale(Real(y), b)), Scale(Real(z), c))
  }

  // Powers a^2, a^4 = a2*a2 and a^6 = a2*a4 as the code forms them.
  function A2(a: Mat): Mat { Dot(a, a) }
  function A4(a: Mat): Mat { Dot(A2(a), A2(a)) }
  function A6(a: Mat): Mat { Dot(A2(a), A4(a)) }

  // hi * a^6 + (lower three terms) + constant term
  function EvenPart(a: Mat, h6: real, h4: real, h2: real, l6: real, l4: real, l2: real, l0: real): (m: Mat)
    requires a.r == a.c
    ensures m.r == m.c == a.r
  {
    var w := Combo(h6, A6(a), h4, A4(a), h2, A2(a));
    Plus(Plus(Plus(Plus(Dot(w, A6(a)), Scale(Real(l6), A6(a))), Scale(Real(l4), A4(a))), Scale(Real(l2), A2(a))),
         Scale(Real(l0), Id(a.r)))
  }

  function PadeU(a: Mat, c: PadeCoeffs): (m: Mat)
    requires a.r == a.c
    ensures m.r == m.c == a.r
  {
    Dot(a, EvenPart(a, c[13], c[11], c[9], c[7], c[5], c[3], c[1]))
  }

  function PadeV(a: Mat, c: PadeCoeffs): (m: Mat)
    requires a.r == a.c
    ensures m.r == m.c == a.r
  {
    EvenPart(a, c[12], c[10], c[8], c[6], c[4], c[2], c[0])
  }

  function Pade13(a: Mat, c: PadeCoeffs): (m: Mat)
    requires a.r == a.c
    ensures m.r == a.r
  {
    Solve(Minus(PadeV(a, c), PadeU(a, c)), Plus(PadeV(a, c), PadeU(a, c)))
  }

  // matrix_exp; s is the scaling exponent, scalarExp the exponential of the 1x1 branch.
  function MatrixExp(a: Mat, c: PadeCoeffs, s: nat, scalarExp: Complex -> Complex): (m: Mat)
    requires a.r == a.c
    ensures m.r == m.c == a.r
  {
    if a.r == 0 then Zeros(0, 0)
    else if a.r == 1 then Build(1, 1, (i, j) => scalarExp(At(a, 0, 0)))
    else
      var scaled := Scale(Real(1.0 / Pow2(s) as real), a);
      Pade13Square(scaled, c);
      MatPow(Pade13(scaled, c), Pow2(s))
  }

  lemma Pade13Square(a: Mat, c: PadeCoeffs)
    requires a.r == a.c
    ensures Pade13(a, c).c == a.r
  {
    hide PadeU, PadeV, Solve, Solvable;
    var d, n := Minus(PadeV(a, c), PadeU(a, c)), Plus(PadeV(a, c), PadeU(a, c));
    SolvableSame(d, n);
    if !Solvable(d) { SolveFallback(d, n); }
  }

  // ---------- unitarity ----------

  ghost predicate Unitary(x: Mat) {
    x.r == x.c && Dot(Dagger(x), x) == Id(x.r) && Dot(x, Dagger(x)) == Id(x.r)
  }

  ghost predicate Hermitian(a: Mat) {
    a.r == a.c && Dagger(a) == a
  }

  ghost predicate AntiHermitian(a: Mat) {
    a.r == a.c && Dagger(a) == Scale(Real(-1.0), a)
  }

  ghost predicate Commute(a: Mat, b: Mat) {
    a.r == a.c == b.r == b.c && Dot(a, b) == Dot(b, a)
  }

  lemma CommuteDot(y: Mat, a: Mat, b: Mat)
    requires Commute(y, a) && Commute(y, b)
    ensures Commute(y, Dot(a, b))
  {
    hide Dot;
    DotAssoc(y, a, b);
    DotAssoc(a, y, b);
    DotAssoc(a, b, y);
  }

  lemma CommutePlus(y: Mat, a: Mat, b: Mat)
    requires Commute(y, a) && Commute(y, b)
    ensures Commute(y, Plus(a, b))
  {
    hide Dot, Plus;
    DotPlus(y, a, b);
    PlusDot(a, b, y);
  }

  lemma CommuteScale(y: Mat, x: real, a: Mat)
    requires Commute(y, a)
    ensures Commute(y, Scale(Real(x), a))
  {
    hide Dot, Scale;
    DotScale(Real(x), y, a);
    DotScale(Real(x), a, y);
  }

  lemma CommuteId(y: Mat)
    requires y.r == y.c
    ensures Commute(y, Id(y.r))
  {
    hide Dot, Id;
    IdLaws(y);
  }

  // Whatever commutes with a commutes with every even part formed from a.
  lemma {:induction false} CommuteEven(y: Mat, a: Mat, h6: real, h4: real, h2: real, l6: real, l4: real, l2: real,
                                       l0: real)
    requires Commute(y, a)
    ensures Commute(y, EvenPart(a, h6, h4, h2, l6, l4, l2, l0))
  {
    hide Dot, Plus, Scale, Id, Commute, A2, A4, A6, Combo;
    CommutePowers(y, a);
    var a2, a4, a6 := A2(a), A4(a), A6(a);
    CommuteCombo(y, h6, a6, h4, a4, h2, a2);
    CommuteDot(y, Combo(h6, a6, h4, a4, h2, a2), a6);
    CommuteScale(y, l6, a6);
    CommuteScale(y, l4, a4);
    CommuteScale(y, l2, a2);
    CommuteShape(y, a);
    CommuteId(y);
    CommuteScale(y, l0, Id(a.r));
    var t0 := Dot(Combo(h6, a6, h4, a4, h2, a2), a6);
    var t1 := Plus(t0, Scale(Real(l6), a6));
    CommutePlus(y, t0, Scale(Real(l6), a6));
    var t2 := Plus(t1, Scale(Real(l4), a4));
    CommutePlus(y, t1, Scale(Real(l4), a4));
    var t3 := Plus(t2, Scale(Real(l2), a2));
    CommutePlus(y, t2, Scale(Real(l2), a2));
    CommutePlus(y, t3, Scale(Real(l0), Id(a.r)));
  }

  lemma CommuteShape(y: Mat, a: Mat)
    requires Commute(y, a)
    ensures y.r == y.c == a.r == a.c
  {}

  lemma CommutePowers(y: Mat, a: Mat)
    requires Commute(y, a)
    ensures Commute(y, A2(a)) && Commute(y, A4(a)) && Commute(y, A6(a))
  {
    hide Dot, Commute;
    CommuteDot(y, a, a);
    CommuteDot(y, A2(a), A2(a));
    CommuteDot(y, A2(a), A4(a));
  }

  lemma CommuteCombo(y: Mat, x: real, a: Mat, z: real, b: Mat, w: real, c: Mat)
    requires Commute(y, a) && Commute(y, b) && Commute(y, c)
    ensures Commute(y, Combo(x, a, z, b, w, c))
  {
    hide Dot, Plus, Scale, Commute;
    CommuteScale(y, x, a);
    CommuteScale(y, z, b);
    CommuteScale(y, w, c);
    CommutePlus(y, Scale(Real(x), a), Scale(Real(z), b));
    CommutePlus(y, Plus(Scale(Real(x), a), Scale(Real(z), b)), Scale(Real(w), c));
  }

  lemma HermitianDot(a: Mat, b: Mat)
    requires Hermitian(a) && Hermitian(b) && Commute(a, b)
    ensures Hermitian(Dot(a, b))
  {
    hide Dot, Dagger;
    DaggerDot(a, b);
  }

  lemma HermitianPlus(a: Mat, b: Mat)
    requires Hermitian(a) && Hermitian(b) && a.r == b.r
    ensures Hermitian(Plus(a, b))
  {
    hide Plus, Dagger;
    DaggerPlus(a, b);
  }

  lemma HermitianScale(x: real, a: Mat)
    requires Hermitian(a)
    ensures Hermitian(Scale(Real(x), a))
  {
    hide Scale, Dagger;
    DaggerScale(Real(x), a);
    assert Conj(Real(x)) == Real(x);
  }

  lemma HermitianCombo(x: real, a: Mat, z: real, b: Mat, w: real, c: Mat)
    requires Hermitian(a) && Hermitian(b) && Hermitian(c) && a.r == b.r == c.r
    ensures Hermitian(Combo(x, a, z, b, w, c))
  {
    hide Plus, Scale, Dagger;
    HermitianScale(x, a);
    HermitianScale(z, b);
    HermitianScale(w, c);
    HermitianPlus(Scale(Real(x), a), Scale(Real(z), b));
    HermitianPlus(Plus(Scale(Real(x), a), Scale(Real(z), b)), Scale(Real(w), c));
  }

  lemma MinusOneSquared()
    ensures Mul(Real(-1.0), Real(-1.0)) == ONE
  {}

  // The square of an anti-Hermitian matrix is Hermitian, and so are a^4 and a^6.
  lemma HermitianSquare(a: Mat)
    requires AntiHermitian(a)
    ensures Hermitian(A2(a))
  {
    hide Dot, Scale, Dagger, Mul, Real;
    var m := Real(-1.0);
    DaggerDot(a, a);
    DotScale(m, a, Scale(m, a));
    DotScale(m, a, a);
    ScaleLaws(m, m, Dot(a, a));
    MinusOneSquared();
  }

  lemma HermitianPowers(a: Mat)
    requires AntiHermitian(a)
    ensures Hermitian(A2(a)) && Hermitian(A4(a)) && Hermitian(A6(a))
  {
    hide Dot, Commute, Hermitian, A2;
    HermitianSquare(a);
    HermitianSelf(A2(a));
    HermitianDot(A2(a), A2(a));
    CommuteDot(A2(a), A2(a), A2(a));
    HermitianDot(A2(a), A4(a));
  }

  lemma HermitianSelf(a: Mat)
    requires Hermitian(a)
    ensures Commute(a, a)
  {}

  lemma {:induction false} HermitianEven(a: Mat, h6: real, h4: real, h2: real, l6: real, l4: real, l2: real, l0: real)
    requires AntiHermitian(a)
    ensures Hermitian(EvenPart(a, h6, h4, h2, l6, l4, l2, l0))
  {
    hide Dot, Plus, Scale, Id, Dagger, A2, A4, A6, Combo, Commute;
    HermitianPowers(a);
    var a2, a4, a6 := A2(a), A4(a), A6(a);
    HermitianShapes(a);
    var w := Combo(h6, a6, h4, a4, h2, a2);
    HermitianCombo(h6, a6, h4, a4, h2, a2);
    CommuteSelf(a);
    CommutePowers(a, a);
    CommuteSym(a, a6);
    CommutePowers(a6, a);
    CommuteCombo(a6, h6, a6, h4, a4, h2, a2);
    CommuteSym(a6, w);
    HermitianDot(w, a6);
    DaggerId(a.r);
    HermitianScale(l6, a6);
    HermitianScale(l4, a4);
    HermitianScale(l2, a2);
    HermitianScale(l0, Id(a.r));
    var t0 := Dot(w, a6);
    var t1 := Plus(t0, Scale(Real(l6), a6));
    HermitianPlus(t0, Scale(Real(l6), a6));
    var t2 := Plus(t1, Scale(Real(l4), a4));
    HermitianPlus(t1, Scale(Real(l4), a4));
    var t3 := Plus(t2, Scale(Real(l2), a2));
    HermitianPlus(t2, Scale(Real(l2), a2));
    HermitianPlus(t3, Scale(Real(l0), Id(a.r)));
  }

  lemma HermitianShapes(a: Mat)
    requires a.r == a.c
    ensures A2(a).r == A4(a).r == A6(a).r == a.r
  {}

  lemma CommuteSelf(a: Mat)
    requires a.r == a.c
    ensures Commute(a, a)
  {}

  lemma CommuteSym(a: Mat, b: Mat)
    requires Commute(a, b)
    ensures Commute(b, a)
  {}

  lemma {:induction false} PadeUAntiHermitian(a: Mat, c: PadeCoeffs)
    requires AntiHermitian(a)
    ensures AntiHermitian(PadeU(a, c))
  {
    hide Dot, Scale, Dagger, EvenPart, Real;
    var w := EvenPart(a, c[13], c[11], c[9], c[7], c[5], c[3], c[1]);
    CommuteSelf(a);
    CommuteEven(a, a, c[13], c[11], c[9], c[7], c[5], c[3], c[1]);
    HermitianEven(a, c[13], c[11], c[9], c[7], c[5], c[3], c[1]);
    DaggerDot(a, w);
    DotScale(Real(-1.0), w, a);
  }

  lemma PadeCommute(a: Mat, c: PadeCoeffs)
    requires a.r == a.c
    ensures Commute(PadeV(a, c), PadeU(a, c))
  {
    hide Dot, EvenPart, Commute;
    CommuteSelf(a);
    CommuteEven(a, a, c[12], c[10], c[8], c[6], c[4], c[2], c[0]);
    CommuteSym(a, PadeV(a, c));
    CommuteEven(PadeV(a, c), a, c[13], c[11], c[9], c[7], c[5], c[3], c[1]);
    CommuteDot(PadeV(a, c), a, EvenPart(a, c[13], c[11], c[9], c[7], c[5], c[3], c[1]));
  }

  lemma AdjointOfDifference(v: Mat, u: Mat)
    requires Hermitian(v) && AntiHermitian(u) && v.r == u.r
    ensures Dagger(Minus(v, u)) == Plus(v, u)
  {
    hide Scale, Minus, Plus, Dagger, Mul, Real;
    var m := Real(-1.0);
    DaggerPlus(v, u);
    PlusLaws(v, Scale(m, u), u);
    ScaleLaws(m, m, u);
    MinusOneSquared();
  }

  lemma CommuteDifference(v: Mat, u: Mat)
    requires Commute(v, u)
    ensures Commute(Minus(v, u), Plus(v, u))
  {
    hide Scale, Minus, Plus, Commute;
    CommuteShape(v, u);
    CommuteSelf(u);
    CommuteSelf(v);
    CommuteSym(v, u);
    CommutePlus(v, v, u);
    CommutePlus(u, v, u);
    var n := Plus(v, u);
    CommuteSym(v, n);
    CommuteSym(u, n);
    CommuteScale(n, -1.0, u);
    CommutePlus(n, v, Scale(Real(-1.0), u));
    PlusLaws(v, u, u);
    CommuteSym(n, Minus(v, u));
  }

  // For anti-Hermitian a the numerator is the adjoint of the denominator and they commute.
  lemma PadeAdjoint(a: Mat, c: PadeCoeffs)
    requires AntiHermitian(a)
    ensures var u, v := PadeU(a, c), PadeV(a, c);
            Dagger(Minus(v, u)) == Plus(v, u) && Commute(Minus(v, u), Plus(v, u))
  {
    hide PadeU, EvenPart, Hermitian, Commute, Minus, Plus, Dagger, Scale;
    PadeUAntiHermitian(a, c);
    HermitianEven(a, c[12], c[10], c[8], c[6], c[4], c[2], c[0]);
    PadeCommute(a, c);
    AdjointOfDifference(PadeV(a, c), PadeU(a, c));
    CommuteDifference(PadeV(a, c), PadeU(a, c));
  }

  lemma {:induction false} CayleyUnitary(num: Mat, den: Mat)
    requires Commute(den, num) && Dagger(den) == num && Solvable(den)
    ensures Unitary(Solve(den, num))
  {
    hide Dot, Dagger, Solve, Solvable, Id;
    var x := Solve(den, num);
    var n := den.r;
    SolvableSame(den, num);
    SolveUnique(den, num, x);
    var e := SolvableInverse(den);
    DaggerDagger(den);
    // x commutes with den
    DotAssoc(den, x, den);
    SolvableSame(den, Dot(den, num));
    SolveUnique(den, Dot(den, num), Dot(x, den));
    SolveUnique(den, Dot(den, num), num);
    assert Dot(x, den) == num;
    // the adjoint of both products
    DaggerDot(den, x);
    DaggerDot(x, den);
    var y := Dagger(x);
    assert Dot(y, num) == den && Dot(num, y) == den;
    // y x den = den, so y x = 1
    DotAssoc(y, x, den);
    DotAssoc(Dot(y, x), den, e);
    IdLaws(Dot(y, x));
    // den x y = den, so x y = 1
    DotAssoc(den, x, y);
    DotAssoc(e, den, Dot(x, y));
    IdLaws(Dot(x, y));
  }

  lemma IdUnitary(n: nat)
    ensures Unitary(Id(n))
  {
    hide Dot, Dagger, Id;
    DaggerId(n);
    IdLaws(Id(n));
  }

  lemma UnitaryDot(a: Mat, b: Mat)
    requires Unitary(a) && Unitary(b) && a.r == b.r
    ensures Unitary(Dot(a, b))
  {
    hide Dot, Dagger, Id;
    var p, q := Dagger(a), Dagger(b);
    DaggerDot(a, b);
    DotAssoc(q, p, Dot(a, b));
    DotAssoc(p, a, b);
    IdLaws(b);
    DotAssoc(a, b, Dot(q, p));
    DotAssoc(b, q, p);
    IdLaws(p);
  }

  lemma {:induction false} UnitaryPow(m: Mat, e: nat)
    requires Unitary(m)
    ensures Unitary(MatPow(m, e))
  {
    hide Unitary, Dot, Id;
    UnitaryShape(m);
    if e == 0 {
      IdUnitary(m.r);
    } else {
      UnitaryPow(m, e - 1);
      UnitaryDot(MatPow(m, e - 1), m);
    }
  }

  lemma UnitaryShape(m: Mat)
    requires Unitary(m)
    ensures m.r == m.c
  {}

  lemma {:induction false} PadeUnitary(a: Mat, c: PadeCoeffs)
    requires AntiHermitian(a)
    ensures Unitary(Pade13(a, c))
  {
    hide PadeU, PadeV, Plus, Minus, Dagger, Solve, Solvable, Unitary, Commute, Id;
    var d, n := Minus(PadeV(a, c), PadeU(a, c)), Plus(PadeV(a, c), PadeU(a, c));
    PadeAdjoint(a, c);
    CommuteShape(d, n);
    if Solvable(d) {
      CayleyUnitary(n, d);
    } else {
      SolveFallback(d, n);
      IdUnitary(a.r);
    }
  }

  // exp of an anti-Hermitian matrix is exactly unitary: any coefficients, any scaling, fallback included.
  lemma {:induction false} MatrixExpUnitary(a: Mat, c: PadeCoeffs, s: nat, scalarExp: Complex -> Complex)
    requires AntiHermitian(a) && a.r != 1
    ensures Unitary(MatrixExp(a, c, s, scalarExp))
  {
    hide Pade13, Scale, Dagger, Unitary, Dot, Id, MatPow;
    if a.r == 0 {
      assert Unitary(Zeros(0, 0)) by {
        IdUnitary(0);
        Ext(Id(0), Zeros(0, 0));
      }
    } else {
      var x := Real(1.0 / Pow2(s) as real);
      var t := Scale(x, a);
      DaggerScale(x, a);
      assert Conj(x) == x;
      ScaleLaws(x, Real(-1.0), a);
      ScaleLaws(Real(-1.0), x, a);
      MulComm(x, Real(-1.0));
      PadeUnitary(t, c);
      UnitaryPow(Pade13(t, c), Pow2(s));
    }
  }

  // The 1x1 branch is unitary exactly when the scalar exponential has modulus one.
  lemma {:induction false} ScalarExpUnitary(a: Mat, c: PadeCoeffs, s: nat, scalarExp: Complex -> Complex)
    requires a.r == a.c == 1
    ensures Unitary(MatrixExp(a, c, s, scalarExp)) <==> NormSqr(scalarExp(At(a, 0, 0))) == 1.0
  {
    var x := MatrixExp(a, c, s, scalarExp);
    var z := scalarExp(At(a, 0, 0));
    ConjLaws(z, z);
    assert At(Dot(Dagger(x), x), 0, 0) == Real(NormSqr(z));
    assert At(Dot(x, Dagger(x)), 0, 0) == Real(NormSqr(z));
    assert At(Id(1), 0, 0) == ONE;
    if NormSqr(z) == 1.0 {
      Ext(Dot(Dagger(x), x), Id(1));
      Ext(Dot(x, Dagger(x)), Id(1));
    }
  }
}
