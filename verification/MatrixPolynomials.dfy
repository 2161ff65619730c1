// What scaling and squaring and the Pade quotient compute: hal/src/grape/expm.rs.
module MatrixPolynomials {
  import opened ComplexNumbers
  import opened Matrices
  import opened LinearSolve
  import opened MatrixExponential

  // ---------- scaling and squaring ----------

  lemma {:induction false} MatPowTimes(m: Mat, a: nat, b: nat)
    requires m.r == m.c
    ensures MatPow(MatPow(m, a), b) == MatPow(m, a * b)
  {
    hide Dot, Id;
    if b > 0 {
      MatPowTimes(m, a, b - 1);
      assert a * b == a * (b - 1) + a;
      MatPowAdd(m, a * (b - 1), a);
    }
  }

  lemma {:induction false} Pow2Add(s: nat, k: nat)
    ensures Pow2(s + k) == Pow2(s) * Pow2(k)
  {
    if k > 0 { Pow2Add(s, k - 1); }
  }

  lemma MatPowOne(m: Mat)
    requires m.r == m.c
    ensures MatPow(m, 1) == m
  {
    hide Dot, Id;
    IdLaws(m);
    assert MatPow(m, 1) == Dot(MatPow(m, 0), m);
  }

  function Scaled(a: Mat, s: nat): (m: Mat)
    ensures m.r == a.r && m.c == a.c
  {
    Scale(Real(1.0 / Pow2(s) as real), a)
  }

  lemma MatrixExpIs(a: Mat, c: PadeCoeffs, s: nat, scalarExp: Complex -> Complex)
    requires a.r == a.c >= 2
    ensures Pade13(Scaled(a, s), c).r == Pade13(Scaled(a, s), c).c == a.r
    ensures MatrixExp(a, c, s, scalarExp) == MatPow(Pade13(Scaled(a, s), c), Pow2(s))
  {
    hide Pade13, Scale, MatPow, Pow2;
    Pade13Square(Scaled(a, s), c);
  }

  lemma ScaleFactor(x: real, y: real, z: real)
    requires x * y == z
    ensures Mul(Real(x), Real(y)) == Real(z)
  {
    hide Mul;
    RealTimes(x, Real(y));
    ZeroTimes(x);
  }

  lemma ZeroTimes(x: real)
    ensures x * 0.0 == 0.0
  {}

  lemma Factor(s: nat, k: nat)
    ensures (1.0 / Pow2(s + k) as real) * Pow2(k) as real == 1.0 / Pow2(s) as real
  {
    hide Pow2;
    Pow2Add(s, k);
    QuotientTimes(Pow2(s), Pow2(k));
  }

  lemma SameScaled(a: Mat, s: nat, k: nat)
    ensures Scaled(Scale(Real(Pow2(k) as real), a), s + k) == Scaled(a, s)
  {
    hide Scale, Mul, Pow2;
    var x, y := 1.0 / Pow2(s + k) as real, Pow2(k) as real;
    Factor(s, k);
    ScaleFactor(x, y, 1.0 / Pow2(s) as real);
    ScaleLaws(Real(x), Real(y), a);
  }

  lemma Unscaled(a: Mat)
    ensures Scaled(a, 0) == a
  {
    hide Scale;
    ScaleLaws(ONE, ONE, a);
    assert Pow2(0) == 1;
  }

  // Without scaling the result is the approximant itself; k more squarings undo k more halvings.
  lemma SquaringUndoesScaling(a: Mat, c: PadeCoeffs, s: nat, k: nat, scalarExp: Complex -> Complex)
    requires a.r == a.c >= 2
    ensures MatrixExp(a, c, 0, scalarExp) == Pade13(a, c)
    ensures MatrixExp(Scale(Real(Pow2(k) as real), a), c, s + k, scalarExp) ==
            MatPow(MatrixExp(a, c, s, scalarExp), Pow2(k))
  {
    hide Pade13, Scale, MatPow, MatrixExp, Scaled, Pow2;
    MatrixExpIs(a, c, 0, scalarExp);
    MatrixExpIs(a, c, s, scalarExp);
    MatrixExpIs(Scale(Real(Pow2(k) as real), a), c, s + k, scalarExp);
    SameScaled(a, s, k);
    Unscaled(a);
    Pow2Add(s, k);
    assert Pow2(0) == 1 by { Pow2Zero(); }
    MatPowOne(Pade13(a, c));
    MatPowTimes(Pade13(Scaled(a, s), c), Pow2(s), Pow2(k));
  }

  lemma Pow2Zero()
    ensures Pow2(0) == 1
  {}

  lemma QuotientTimes(p: nat, q: nat)
    requires p >= 1 && q >= 1
    ensures (1.0 / (p * q) as real) * q as real == 1.0 / p as real
  {
    var x, y := p as real, q as real;
    assert (p * q) as real == x * y;
    assert (1.0 / (x * y)) * y * x == 1.0;
    assert (1.0 / x) * x == 1.0;
  }

  // ---------- polynomials in a matrix ----------

  function Term(a: Mat, x: real, k: nat): (m: Mat)
    requires a.r == a.c
    ensures m.r == m.c == a.r
  {
    Scale(Real(x), MatPow(a, k))
  }

  // The sum of c[k] a^k for k < n
  function Poly(a: Mat, c: seq<real>, n: nat): (m: Mat)
    requires a.r == a.c && n <= |c|
    ensures m.r == m.c == a.r
  {
    if n == 0 then Zeros(a.r, a.r) else Plus(Poly(a, c, n - 1), Term(a, c[n - 1], n - 1))
  }

  function Alternating(c: PadeCoeffs): PadeCoeffs {
    seq(14, k requires 0 <= k < 14 => if k % 2 == 0 then c[k] else -c[k])
  }

  function TermAt(a: Mat, c: seq<real>, i: int, j: int): int -> Complex
    requires a.r == a.c
  {
    (k: int) => if 0 <= k < |c| then At(Term(a, c[k], k), i, j) else ZERO
  }

  lemma {:induction false} PolyAt(a: Mat, c: seq<real>, n: nat, i: int, j: int)
    requires a.r == a.c && n <= |c| && 0 <= i < a.r && 0 <= j < a.r
    ensures At(Poly(a, c, n), i, j) == Sum(n, TermAt(a, c, i, j))
  {
    hide Term, Add;
    if n > 0 { PolyAt(a, c, n - 1, i, j); }
  }

  lemma SumStep(n: nat, f: int -> Complex)
    ensures Sum(n + 1, f) == Add(Sum(n, f), f(n))
  {}

  lemma SumFourteen(f: int -> Complex)
    ensures Sum(14, f).re == f(0).re + f(1).re + f(2).re + f(3).re + f(4).re + f(5).re + f(6).re + f(7).re + f(8).re
                             + f(9).re + f(10).re + f(11).re + f(12).re + f(13).re
    ensures Sum(14, f).im == f(0).im + f(1).im + f(2).im + f(3).im + f(4).im + f(5).im + f(6).im + f(7).im + f(8).im
                             + f(9).im + f(10).im + f(11).im + f(12).im + f(13).im
  {
    hide Sum;
    assert Sum(0, f) == ZERO by { SumZero(0, f); }
    SumStep(0, f); SumStep(1, f); SumStep(2, f); SumStep(3, f); SumStep(4, f); SumStep(5, f); SumStep(6, f);
    SumStep(7, f); SumStep(8, f); SumStep(9, f); SumStep(10, f); SumStep(11, f); SumStep(12, f); SumStep(13, f);
  }

  // The even part is the sum of its seven even terms.
  function EvenSum(a: Mat, x: seq<real>): (m: Mat)
    requires a.r == a.c && |x| == 7
    ensures m.r == m.c == a.r
  {
    Plus(Plus(Plus(Plus(Plus(Plus(Term(a, x[6], 12), Term(a, x[5], 10)), Term(a, x[4], 8)), Term(a, x[3], 6)),
         Term(a, x[2], 4)), Term(a, x[1], 2)), Term(a, x[0], 0))
  }

  lemma EvenPowers(a: Mat)
    requires a.r == a.c
    ensures A2(a) == MatPow(a, 2) && A4(a) == MatPow(a, 4) && A6(a) == MatPow(a, 6)
    ensures Dot(A2(a), A6(a)) == MatPow(a, 8) && Dot(A4(a), A6(a)) == MatPow(a, 10)
    ensures Dot(A6(a), A6(a)) == MatPow(a, 12)
  {
    hide Dot, Id, MatPow;
    MatPowOne(a);
    MatPowAdd(a, 1, 1);
    MatPowAdd(a, 2, 2);
    MatPowAdd(a, 2, 4);
    MatPowAdd(a, 2, 6);
    MatPowAdd(a, 4, 6);
    MatPowAdd(a, 6, 6);
  }

  lemma {:induction false} EvenPartIsSum(a: Mat, x: seq<real>)
    requires a.r == a.c && |x| == 7
    ensures EvenPart(a, x[6], x[5], x[4], x[3], x[2], x[1], x[0]) == EvenSum(a, x)
  {
    hide Dot, Id, MatPow, Plus, Scale, A2, A4, A6, Real;
    EvenPowers(a);
    var a2, a4, a6 := A2(a), A4(a), A6(a);
    assert a2.r == a2.c == a4.r == a4.c == a6.r == a6.c == a.r;
    assert MatPow(a, 0) == Id(a.r) by { ZerothPower(a); }
    var t6, t4, t2 := Scale(Real(x[6]), a6), Scale(Real(x[5]), a4), Scale(Real(x[4]), a2);
    PlusDot(Plus(t6, t4), t2, a6);
    PlusDot(t6, t4, a6);
    DotScale(Real(x[6]), a6, a6);
    DotScale(Real(x[5]), a4, a6);
    DotScale(Real(x[4]), a2, a6);
  }

  lemma ZerothPower(a: Mat)
    requires a.r == a.c
    ensures MatPow(a, 0) == Id(a.r)
  {}

  function OddSum(a: Mat, x: seq<real>): (m: Mat)
    requires a.r == a.c && |x| == 7
    ensures m.r == m.c == a.r
  {
    Plus(Plus(Plus(Plus(Plus(Plus(Term(a, x[6], 13), Term(a, x[5], 11)), Term(a, x[4], 9)), Term(a, x[3], 7)),
         Term(a, x[2], 5)), Term(a, x[1], 3)), Term(a, x[0], 1))
  }

  lemma TimesTerm(a: Mat, x: real, k: nat)
    requires a.r == a.c
    ensures Dot(a, Term(a, x, k)) == Term(a, x, k + 1)
  {
    hide Dot, Id, MatPow, Scale, Real;
    DotScale(Real(x), a, MatPow(a, k));
    MatPowOne(a);
    MatPowAdd(a, 1, k);
  }

  lemma {:induction false} TimesEven(a: Mat, x: seq<real>)
    requires a.r == a.c && |x| == 7
    ensures Dot(a, EvenSum(a, x)) == OddSum(a, x)
  {
    hide Dot, Plus, Term;
    var t0, t2, t4, t6 := Term(a, x[0], 0), Term(a, x[1], 2), Term(a, x[2], 4), Term(a, x[3], 6);
    var t8, t10, t12 := Term(a, x[4], 8), Term(a, x[5], 10), Term(a, x[6], 12);
    TimesTerm(a, x[0], 0);
    TimesTerm(a, x[1], 2);
    TimesTerm(a, x[2], 4);
    TimesTerm(a, x[3], 6);
    TimesTerm(a, x[4], 8);
    TimesTerm(a, x[5], 10);
    TimesTerm(a, x[6], 12);
    var s1 := Plus(t12, t10);
    DotPlus(a, t12, t10);
    var s2 := Plus(s1, t8);
    DotPlus(a, s1, t8);
    var s3 := Plus(s2, t6);
    DotPlus(a, s2, t6);
    var s4 := Plus(s3, t4);
    DotPlus(a, s3, t4);
    var s5 := Plus(s4, t2);
    DotPlus(a, s4, t2);
    DotPlus(a, s5, t0);
  }

  lemma PlusAt(a: Mat, b: Mat, i: int, j: int)
    requires 0 <= i < a.r == b.r && 0 <= j < a.c == b.c
    ensures At(Plus(a, b), i, j).re == At(a, i, j).re + At(b, i, j).re
    ensures At(Plus(a, b), i, j).im == At(a, i, j).im + At(b, i, j).im
    ensures At(Minus(a, b), i, j).re == At(a, i, j).re - At(b, i, j).re
    ensures At(Minus(a, b), i, j).im == At(a, i, j).im - At(b, i, j).im
  {
    hide At;
  }

  // One entry of a sum of seven matrices
  lemma SevenAt(s: seq<Mat>, d: nat, i: int, j: int)
    requires |s| == 7 && 0 <= i < d && 0 <= j < d && forall k :: 0 <= k < 7 ==> s[k].r == s[k].c == d
    ensures var m := Plus(Plus(Plus(Plus(Plus(Plus(s[6], s[5]), s[4]), s[3]), s[2]), s[1]), s[0]);
            && At(m, i, j).re == At(s[6], i, j).re + At(s[5], i, j).re + At(s[4], i, j).re + At(s[3], i, j).re
                                 + At(s[2], i, j).re + At(s[1], i, j).re + At(s[0], i, j).re
            && At(m, i, j).im == At(s[6], i, j).im + At(s[5], i, j).im + At(s[4], i, j).im + At(s[3], i, j).im
                                 + At(s[2], i, j).im + At(s[1], i, j).im + At(s[0], i, j).im
  {
    hide Plus, At;
    var m1 := Plus(s[6], s[5]);
    PlusAt(s[6], s[5], i, j);
    var m2 := Plus(m1, s[4]);
    PlusAt(m1, s[4], i, j);
    var m3 := Plus(m2, s[3]);
    PlusAt(m2, s[3], i, j);
    var m4 := Plus(m3, s[2]);
    PlusAt(m3, s[2], i, j);
    var m5 := Plus(m4, s[1]);
    PlusAt(m4, s[1], i, j);
    PlusAt(m5, s[0], i, j);
  }

  lemma NegativeTerm(a: Mat, x: real, k: nat, i: int, j: int)
    requires a.r == a.c && 0 <= i < a.r && 0 <= j < a.r
    ensures At(Term(a, -x, k), i, j).re == -At(Term(a, x, k), i, j).re
    ensures At(Term(a, -x, k), i, j).im == -At(Term(a, x, k), i, j).im
  {
    hide MatPow, At;
    var z := At(MatPow(a, k), i, j);
    assert At(Term(a, -x, k), i, j) == Mul(Real(-x), z) && At(Term(a, x, k), i, j) == Mul(Real(x), z);
    RealTimes(x, z);
    RealTimes(-x, z);
  }

  // The terms of the polynomial with alternating signs
  lemma AlternatingTerms(a: Mat, c: PadeCoeffs, i: int, j: int)
    requires a.r == a.c && 0 <= i < a.r && 0 <= j < a.r
    ensures var f, g := TermAt(a, c, i, j), TermAt(a, Alternating(c), i, j);
      forall k :: 0 <= k < 14 ==>
        if k % 2 == 0 then g(k) == f(k) else g(k).re == -f(k).re && g(k).im == -f(k).im
  {
    hide Term, At;
    forall k | 0 <= k < 14 && k % 2 == 1
      ensures TermAt(a, Alternating(c), i, j)(k).re == -TermAt(a, c, i, j)(k).re
      ensures TermAt(a, Alternating(c), i, j)(k).im == -TermAt(a, c, i, j)(k).im
    {
      NegativeTerm(a, c[k], k, i, j);
    }
  }

  lemma EvenAt(a: Mat, c: PadeCoeffs, i: int, j: int)
    requires a.r == a.c && 0 <= i < a.r && 0 <= j < a.r
    ensures var f, v := TermAt(a, c, i, j), At(PadeV(a, c), i, j);
      && v.re == f(12).re + f(10).re + f(8).re + f(6).re + f(4).re + f(2).re + f(0).re
      && v.im == f(12).im + f(10).im + f(8).im + f(6).im + f(4).im + f(2).im + f(0).im
  {
    hide EvenPart, Plus, At, Term;
    var x := [c[0], c[2], c[4], c[6], c[8], c[10], c[12]];
    EvenPartIsSum(a, x);
    var s := [Term(a, c[0], 0), Term(a, c[2], 2), Term(a, c[4], 4), Term(a, c[6], 6), Term(a, c[8], 8),
              Term(a, c[10], 10), Term(a, c[12], 12)];
    SevenAt(s, a.r, i, j);
  }

  lemma OddAt(a: Mat, c: PadeCoeffs, i: int, j: int)
    requires a.r == a.c && 0 <= i < a.r && 0 <= j < a.r
    ensures var f, u := TermAt(a, c, i, j), At(PadeU(a, c), i, j);
      && u.re == f(13).re + f(11).re + f(9).re + f(7).re + f(5).re + f(3).re + f(1).re
      && u.im == f(13).im + f(11).im + f(9).im + f(7).im + f(5).im + f(3).im + f(1).im
  {
    hide EvenPart, EvenSum, Dot, Plus, At, Term;
    var x := [c[1], c[3], c[5], c[7], c[9], c[11], c[13]];
    EvenPartIsSum(a, x);
    TimesEven(a, x);
    var s := [Term(a, c[1], 1), Term(a, c[3], 3), Term(a, c[5], 5), Term(a, c[7], 7), Term(a, c[9], 9),
              Term(a, c[11], 11), Term(a, c[13], 13)];
    SevenAt(s, a.r, i, j);
  }

  // Numerator and denominator are the polynomials with the coefficients in order, plain and alternating.
  lemma {:induction false} PadeSums(a: Mat, c: PadeCoeffs)
    requires a.r == a.c
    ensures Plus(PadeV(a, c), PadeU(a, c)) == Poly(a, c, 14)
    ensures Minus(PadeV(a, c), PadeU(a, c)) == Poly(a, Alternating(c), 14)
  {
    hide PadeV, PadeU, Poly, TermAt, At, Plus, Minus, Alternating;
    var v, u := PadeV(a, c), PadeU(a, c);
    forall i, j | 0 <= i < a.r && 0 <= j < a.r
      ensures At(Plus(v, u), i, j) == At(Poly(a, c, 14), i, j)
      ensures At(Minus(v, u), i, j) == At(Poly(a, Alternating(c), 14), i, j)
    {
      EntrySums(a, c, i, j);
    }
    Ext(Plus(v, u), Poly(a, c, 14));
    Ext(Minus(v, u), Poly(a, Alternating(c), 14));
  }

  lemma EntrySums(a: Mat, c: PadeCoeffs, i: int, j: int)
    requires a.r == a.c && 0 <= i < a.r && 0 <= j < a.r
    ensures At(Plus(PadeV(a, c), PadeU(a, c)), i, j) == At(Poly(a, c, 14), i, j)
    ensures At(Minus(PadeV(a, c), PadeU(a, c)), i, j) == At(Poly(a, Alternating(c), 14), i, j)
  {
    hide PadeV, PadeU, Poly, TermAt, At, Plus, Minus, Alternating, Sum;
    PolyAt(a, c, 14, i, j);
    PolyAt(a, Alternating(c), 14, i, j);
    SumFourteen(TermAt(a, c, i, j));
    SumFourteen(TermAt(a, Alternating(c), i, j));
    AlternatingTerms(a, c, i, j);
    EvenAt(a, c, i, j);
    OddAt(a, c, i, j);
    PlusAt(PadeV(a, c), PadeU(a, c), i, j);
  }

  // The approximant is the quotient of the two polynomials whenever its denominator is accepted.
  lemma PadeQuotient(a: Mat, c: PadeCoeffs)
    requires a.r == a.c && Solvable(Poly(a, Alternating(c), 14))
    ensures Dot(Poly(a, Alternating(c), 14), Pade13(a, c)) == Poly(a, c, 14)
  {
    hide PadeV, PadeU, Poly, Alternating, Plus, Minus, Solve, Solvable, Dot;
    PadeSums(a, c);
    Pade13Square(a, c);
    SolvableSame(Poly(a, Alternating(c), 14), Poly(a, c, 14));
    SolveUnique(Poly(a, Alternating(c), 14), Poly(a, c, 14), Pade13(a, c));
  }

  // Otherwise it is the identity.
  lemma PadeFallback(a: Mat, c: PadeCoeffs)
    requires a.r == a.c && !Solvable(Poly(a, Alternating(c), 14))
    ensures Pade13(a, c) == Id(a.r)
  {
    hide PadeV, PadeU, Poly, Alternating, Plus, Minus, Solve, Solvable, Id;
    PadeSums(a, c);
    SolveFallback(Poly(a, Alternating(c), 14), Poly(a, c, 14));
  }

  // The coefficients of the diagonal (13, 13) approximant of the exponential
  function Exact(k: nat): real
    requires k <= 13
  {
    if k == 0 then 1.0 else NextExact(Exact(k - 1), k)
  }

  function NextExact(x: real, k: nat): real
    requires 1 <= k <= 13
  {
    x * ((14 - k) as real / (27 - k) as real) / k as real
  }

  // x agrees with y to one part in 1 / rel.
  predicate Near(x: real, y: real, rel: real) {
    -rel * y <= x - y <= rel * y
  }

  lemma ExactStep(k: nat, x: real)
    requires k < 13 && Exact(k) == x
    ensures Exact(k + 1) == NextExact(x, k + 1)
  {
    hide NextExact;
  }

  lemma ExactLow()
    ensures Exact(0) == 1.0 && Exact(1) == 1.0 / 2.0 && Exact(2) == 3.0 / 25.0
    ensures Exact(3) == 11.0 / 600.0
    ensures Exact(4) == 11.0 / 5_520.0
    ensures Exact(5) == 3.0 / 18_400.0
    ensures Exact(6) == 1.0 / 96_600.0
    ensures Exact(7) == 1.0 / 1_932_000.0
  {
    hide Exact;
    assert Exact(0) == 1.0 by { ExactZero(); }
    ExactStep(0, 1.0);
    ExactStep(1, 1.0 / 2.0);
    ExactStep(2, 3.0 / 25.0);
    ExactStep(3, 11.0 / 600.0);
    ExactStep(4, 11.0 / 5_520.0);
    ExactStep(5, 3.0 / 18_400.0);
    ExactStep(6, 1.0 / 96_600.0);
  }

  lemma ExactZero()
    ensures Exact(0) == 1.0
  {}

  lemma ExactHigh()
    ensures Exact(8) == 1.0 / 48_944_000.0
    ensures Exact(9) == 1.0 / 1_585_785_600.0
    ensures Exact(10) == 1.0 / 67_395_888_000.0
    ensures Exact(11) == 1.0 / 3_953_892_096_000.0
    ensures Exact(12) == 1.0 / 355_850_288_640_000.0
    ensures Exact(13) == 1.0 / 64_764_752_532_480_000.0
  {
    hide Exact;
    ExactLow();
    ExactStep(7, 1.0 / 1_932_000.0);
    ExactStep(8, 1.0 / 48_944_000.0);
    ExactStep(9, 1.0 / 1_585_785_600.0);
    ExactStep(10, 1.0 / 67_395_888_000.0);
    ExactStep(11, 1.0 / 3_953_892_096_000.0);
    ExactStep(12, 1.0 / 355_850_288_640_000.0);
  }

  // The program's coefficients are those, to double precision, except for the sixth and seventh: these differ in the
  // eleventh digit.
  lemma CoefficientsNearly(k: nat)
    requires k < 14
    ensures Near(PADE_COEFFS[k], Exact(k), 1.0 / 1_000_000_000_000_000.0) <==> k != 6 && k != 7
    ensures Near(PADE_COEFFS[k], Exact(k), 3.0 / 100_000_000_000.0)
  {
    hide Exact;
    if k < 8 { ExactLow(); } else { ExactHigh(); }
  }

  // ---------- the program's own steps ----------

  // Scale, form the approximant by elimination, square.
  method ComputeMatrixExp(a: Mat, c: PadeCoeffs, s: nat, scalarExp: Complex -> Complex) returns (m: Mat)
    requires a.r == a.c
    ensures m == MatrixExp(a, c, s, scalarExp)
  {
    hide PadeU, PadeV, Solve, Plus, Minus, Scale, MatPow, Pow2;
    if a.r == 0 { return Zeros(0, 0); }
    if a.r == 1 { return Build(1, 1, (i, j) => scalarExp(At(a, 0, 0))); }
    var scaled := Scaled(a, s);
    Pade13Square(scaled, c);
    var u, v := PadeU(scaled, c), PadeV(scaled, c);
    var x := SolveLinear(Minus(v, u), Plus(v, u));
    var p := FromArray(x);
    HoldsUnique(x, p, Pade13(scaled, c));
    m := SquareRepeatedly(p, s);
  }

  method FromArray(x: array2<Complex>) returns (m: Mat)
    ensures Holds(x, m)
  {
    var rows: seq<seq<Complex>> := [];
    for i := 0 to x.Length0
      invariant |rows| == i && forall k :: 0 <= k < i ==> |rows[k]| == x.Length1
      invariant forall k, j :: 0 <= k < i && 0 <= j < x.Length1 ==> rows[k][j] == x[k, j]
    {
      var row: seq<Complex> := [];
      for j := 0 to x.Length1
        invariant |row| == j && forall t :: 0 <= t < j ==> row[t] == x[i, t]
      {
        row := row + [x[i, j]];
      }
      rows := rows + [row];
    }
    m := RawMat(x.Length0, x.Length1, rows);
  }

  lemma HoldsUnique(x: array2<Complex>, m: Mat, n: Mat)
    requires Holds(x, m) && Holds(x, n)
    ensures m == n
  {
    hide At;
    Ext(m, n);
  }
}
