// A slice whose last accepted step lies below the smallest step of its schedule: hal/src/sme/trajectory.rs.
module CarriedStep {
  import opened Reals
  import opened Wrappers
  import opened ComplexNumbers
  import opened Matrices
  import opened MatrixExponential
  import opened Lindblad
  import opened Measurement
  import opened Sme

  // ---------- one qubit, entry by entry ----------

  function Entries(a: Complex, b: Complex, c: Complex, d: Complex): (m: Mat)
    ensures m.r == m.c == 2
    ensures At(m, 0, 0) == a && At(m, 0, 1) == b && At(m, 1, 0) == c && At(m, 1, 1) == d
  {
    Build(2, 2, (i, j) => if i == 0 then (if j == 0 then a else b) else if j == 0 then c else d)
  }

  lemma EntriesGive(m: Mat, a: Complex, b: Complex, c: Complex, d: Complex)
    requires m.r == m.c == 2 && At(m, 0, 0) == a && At(m, 0, 1) == b && At(m, 1, 0) == c && At(m, 1, 1) == d
    ensures m == Entries(a, b, c, d)
  {
    hide At, Entries;
    var n := Entries(a, b, c, d);
    forall i, j | 0 <= i < 2 && 0 <= j < 2 ensures At(m, i, j) == At(n, i, j) {}
    Ext(m, n);
  }

  lemma DotEntry(a: Mat, b: Mat, i: int, j: int)
    requires a.r == a.c == b.r == b.c == 2 && 0 <= i < 2 && 0 <= j < 2
    ensures At(Dot(a, b), i, j) == Add(Mul(At(a, i, 0), At(b, 0, j)), Mul(At(a, i, 1), At(b, 1, j)))
  {
    hide Sum, Mul, Add;
    SumTwo(k => Mul(At(a, i, k), At(b, k, j)));
  }

  lemma DotEntries(m: Mat, a: Complex, b: Complex, c: Complex, d: Complex, n: Mat, e: Complex, f: Complex, g: Complex,
                   h: Complex)
    requires m == Entries(a, b, c, d) && n == Entries(e, f, g, h)
    ensures Dot(m, n) == Entries(Add(Mul(a, e), Mul(b, g)), Add(Mul(a, f), Mul(b, h)),
                              Add(Mul(c, e), Mul(d, g)), Add(Mul(c, f), Mul(d, h)))
  {
    hide At, Entries, Dot, Mul, Add;
    DotEntry(m, n, 0, 0);
    DotEntry(m, n, 0, 1);
    DotEntry(m, n, 1, 0);
    DotEntry(m, n, 1, 1);
    EntriesGive(Dot(m, n), Add(Mul(a, e), Mul(b, g)), Add(Mul(a, f), Mul(b, h)),
                Add(Mul(c, e), Mul(d, g)), Add(Mul(c, f), Mul(d, h)));
  }

  lemma PlusEntries(m: Mat, a: Complex, b: Complex, c: Complex, d: Complex, n: Mat, e: Complex, f: Complex, g: Complex,
                    h: Complex)
    requires m == Entries(a, b, c, d) && n == Entries(e, f, g, h)
    ensures Plus(m, n) == Entries(Add(a, e), Add(b, f), Add(c, g), Add(d, h))
    ensures Minus(m, n) == Entries(Sub(a, e), Sub(b, f), Sub(c, g), Sub(d, h))
  {
    hide At, Entries, Add, Sub;
    EntriesGive(Plus(m, n), Add(a, e), Add(b, f), Add(c, g), Add(d, h));
    EntriesGive(Minus(m, n), Sub(a, e), Sub(b, f), Sub(c, g), Sub(d, h));
  }

  lemma ScaleEntries(z: Complex, m: Mat, a: Complex, b: Complex, c: Complex, d: Complex)
    requires m == Entries(a, b, c, d)
    ensures Scale(z, m) == Entries(Mul(z, a), Mul(z, b), Mul(z, c), Mul(z, d))
  {
    hide At, Entries, Mul;
    EntriesGive(Scale(z, m), Mul(z, a), Mul(z, b), Mul(z, c), Mul(z, d));
  }

  lemma DaggerEntries(m: Mat, a: Complex, b: Complex, c: Complex, d: Complex)
    requires m == Entries(a, b, c, d)
    ensures Dagger(m) == Entries(Conj(a), Conj(c), Conj(b), Conj(d))
  {
    hide At, Entries, Conj, Dagger;
    DaggerAt(m, 0, 0);
    DaggerAt(m, 0, 1);
    DaggerAt(m, 1, 0);
    DaggerAt(m, 1, 1);
    EntriesGive(Dagger(m), Conj(a), Conj(c), Conj(b), Conj(d));
  }

  lemma TraceEntries(m: Mat, a: Complex, b: Complex, c: Complex, d: Complex)
    requires m == Entries(a, b, c, d)
    ensures Trace(m) == Add(a, d)
  {
    hide At, Entries, Sum, Add;
    SumTwo(i => At(m, i, i));
  }

  // ---------- the setting of the run ----------

  // The measured operator: the transverse axis with strength 100
  function Flip(): (m: Mat)
    ensures m.r == m.c == 2
  {
    Entries(ZERO, STRENGTH, STRENGTH, ZERO)
  }

  const STRENGTH := Complex(100.0, 0.0)

  // The ground state of one qubit
  function Ground(): (m: Mat)
    ensures m.r == m.c == 2
  {
    Entries(ONE, ZERO, ZERO, ZERO)
  }

  function NoDrive(): (m: Mat)
    ensures m.r == m.c == 2
  {
    Entries(ZERO, ZERO, ZERO, ZERO)
  }

  // No dissipation; the transverse axis is measured with full efficiency and without projection.
  function Measured(sqrt: real -> real): Setting {
    Setting(sqrt, [], Flip(), 1.0, false, 0.1, 0.1)
  }

  function Kicked(w: real): (m: Mat)
    ensures m.r == m.c == 2
  {
    Entries(ONE, Real(w), Real(w), ZERO)
  }

  const TWICE := Complex(200.0, 0.0)

  lemma Twice()
    ensures Add(STRENGTH, STRENGTH) == TWICE
  {}

  lemma Differences()
    ensures Sub(ZERO, ZERO) == ZERO && Sub(STRENGTH, ZERO) == STRENGTH
  {}

  lemma RealConstants()
    ensures Real(0.0) == ZERO && Real(1.0) == ONE
  {}

  lemma Units()
    ensures Mul(ONE, ONE) == ONE && Mul(ONE, ZERO) == ZERO && Mul(ZERO, ONE) == ZERO && Mul(ZERO, ZERO) == ZERO
    ensures Mul(STRENGTH, ONE) == STRENGTH && Mul(ONE, STRENGTH) == STRENGTH
    ensures Mul(STRENGTH, ZERO) == ZERO && Mul(ZERO, STRENGTH) == ZERO
    ensures Mul(TWICE, ONE) == TWICE && Mul(TWICE, ZERO) == ZERO && Real(0.0) == ZERO && Real(1.0) == ONE
    ensures Add(ZERO, ZERO) == ZERO && Add(ONE, ZERO) == ONE && Add(ZERO, ONE) == ONE && Add(TWICE, ZERO) == TWICE
    ensures Add(STRENGTH, ZERO) == STRENGTH && Add(ZERO, STRENGTH) == STRENGTH && Add(STRENGTH, STRENGTH) == TWICE
    ensures Sub(ZERO, ZERO) == ZERO && Sub(STRENGTH, ZERO) == STRENGTH
  {
    hide Mul, Add, Sub, Real;
    MulUnit(ZERO);
    MulUnit(ONE);
    MulUnit(STRENGTH);
    MulUnit(TWICE);
    AddLaws(ZERO, ZERO, ZERO);
    AddLaws(ONE, ZERO, ZERO);
    AddLaws(STRENGTH, ZERO, ZERO);
    AddLaws(TWICE, ZERO, ZERO);
    Twice();
    Differences();
    RealConstants();
  }

  lemma ConjUnits()
    ensures Conj(ZERO) == ZERO && Conj(ONE) == ONE && Conj(STRENGTH) == STRENGTH
  {
    hide Conj;
    ConjOf(0.0, 0.0);
    ConjOf(1.0, 0.0);
    ConjOf(100.0, 0.0);
  }

  lemma RealUnits(w: real)
    ensures Mul(Real(w), ZERO) == ZERO && Add(ZERO, Real(w)) == Real(w)
  {
    hide Mul, Add;
    MulUnit(Real(w));
    AddLaws(Real(w), ZERO, ZERO);
  }

  lemma Strengthened(w: real)
    ensures Mul(Real(w), STRENGTH) == Real(100.0 * w)
  {}

  lemma InnovationIsFlip()
    ensures Innovation(Flip(), Ground()) == Flip()
  {
    hide Plus, Minus, Scale, Dot, Dagger, Trace, Entries, At, Add, Sub, Mul, Conj, Neg, Real;
    Units();
    ConjUnits();
    var g := STRENGTH;
    DaggerEntries(Flip(), ZERO, g, g, ZERO);
    DotEntries(Flip(), ZERO, g, g, ZERO, Ground(), ONE, ZERO, ZERO, ZERO);
    DotEntries(Ground(), ONE, ZERO, ZERO, ZERO, Flip(), ZERO, g, g, ZERO);
    assert Dot(Flip(), Ground()) == Entries(ZERO, ZERO, g, ZERO);
    assert Dot(Ground(), Flip()) == Entries(ZERO, g, ZERO, ZERO);
    PlusEntries(Dot(Flip(), Ground()), ZERO, ZERO, g, ZERO, Dot(Ground(), Flip()), ZERO, g, ZERO, ZERO);
    NoExpectation();
    ScaleEntries(Real(0.0), Ground(), ONE, ZERO, ZERO, ZERO);
    PlusEntries(Flip(), ZERO, g, g, ZERO, NoDrive(), ZERO, ZERO, ZERO, ZERO);
  }

  lemma NoExpectation()
    ensures MeasurementExpectation(Flip(), Ground()) == 0.0
  {
    hide Plus, Minus, Scale, Dot, Dagger, Trace, Entries, At, Add, Sub, Mul, Conj, Neg, Real;
    Units();
    ConjUnits();
    var g := STRENGTH;
    DaggerEntries(Flip(), ZERO, g, g, ZERO);
    PlusEntries(Flip(), ZERO, g, g, ZERO, Flip(), ZERO, g, g, ZERO);
    assert Plus(Flip(), Flip()) == Entries(ZERO, TWICE, TWICE, ZERO);
    DotEntries(Plus(Flip(), Flip()), ZERO, TWICE, TWICE, ZERO, Ground(), ONE, ZERO, ZERO, ZERO);
    var m := Dot(Plus(Flip(), Flip()), Ground());
    assert m == Entries(ZERO, ZERO, TWICE, ZERO);
    TraceEntries(m, ZERO, ZERO, TWICE, ZERO);
  }

  lemma NoDrift()
    ensures LindbladRhs(NoDrive(), [], Ground()) == NoDrive()
  {
    hide Plus, Minus, Scale, Dot, Entries, At, Add, Sub, Mul, Neg;
    Units();
    MulUnit(Neg(IMAG));
    var z := NoDrive();
    DotEntries(z, ZERO, ZERO, ZERO, ZERO, Ground(), ONE, ZERO, ZERO, ZERO);
    DotEntries(Ground(), ONE, ZERO, ZERO, ZERO, z, ZERO, ZERO, ZERO, ZERO);
    assert Dot(z, Ground()) == z && Dot(Ground(), z) == z;
    PlusEntries(z, ZERO, ZERO, ZERO, ZERO, z, ZERO, ZERO, ZERO, ZERO);
    ScaleEntries(Neg(IMAG), z, ZERO, ZERO, ZERO, ZERO);
    EntriesGive(Zeros(2, 2), ZERO, ZERO, ZERO, ZERO);
  }

  // The raw state after an increment w: the off-diagonal entries are 100 w.
  lemma RawIsKicked(sqrt: real -> real, dt: real, w: real)
    requires IsSqrt(sqrt)
    ensures Measured(sqrt).Fits(2) && RawState(Measured(sqrt), Ground(), NoDrive(), dt, w) == Kicked(100.0 * w)
  {
    hide Plus, Minus, Scale, Dot, Entries, At, LindbladRhs, Innovation, Add, Sub, Mul, Real;
    Units();
    RealUnits(dt);
    RealUnits(w);
    RealUnits(100.0 * w);
    Strengthened(w);
    SqrtUnique(sqrt, 1.0, 1.0);
    NoDrift();
    InnovationIsFlip();
    var g, u := STRENGTH, Real(100.0 * w);
    ScaleEntries(Real(dt), NoDrive(), ZERO, ZERO, ZERO, ZERO);
    PlusEntries(Ground(), ONE, ZERO, ZERO, ZERO, NoDrive(), ZERO, ZERO, ZERO, ZERO);
    ScaleEntries(Real(1.0), Flip(), ZERO, g, g, ZERO);
    ScaleEntries(Real(w), Flip(), ZERO, g, g, ZERO);
    PlusEntries(Ground(), ONE, ZERO, ZERO, ZERO, Scale(Real(w), Flip()), ZERO, u, u, ZERO);
  }

  lemma GroundIsState()
    ensures Hermitian(Ground()) && Trace(Ground()) == ONE && Hermitian(NoDrive())
  {
    hide Dagger, Trace, Entries, At, Conj, Add, Mul, Sub, Real;
    Units();
    ConjUnits();
    DaggerEntries(Ground(), ONE, ZERO, ZERO, ZERO);
    TraceEntries(Ground(), ONE, ZERO, ZERO, ZERO);
    DaggerEntries(NoDrive(), ZERO, ZERO, ZERO, ZERO);
  }

  // The Bloch vector of the kicked state is (2w, 0, 1); its length r decides the step.
  lemma KickedBloch(w: real)
    ensures BlochNormSqr(Kicked(w)) == 4.0 * (w * w) + 1.0
  {
    hide Entries, At;
    assert At(Kicked(w), 0, 1) == Real(w);
  }

  lemma KickedLevels(sqrt: real -> real, w: real, r: real, atol: real)
    requires IsSqrt(sqrt) && r >= 0.0 && r * r == 4.0 * (w * w) + 1.0
    ensures IsState(Kicked(w)) ==> TraceNormDeviation(sqrt, Kicked(w)) == if r > 1.0 then r - 1.0 else 0.0
    ensures IsState(Kicked(w)) ==> (HasPositivityViolation(sqrt, Kicked(w), atol) <==> 0.5 - 0.5 * r < -atol)
  {
    hide Trace, Dagger, Symmetrize, EigenvalueBounds, BlochNormSqr, TraceNormDeviation, Entries, At, Kicked;
    if IsState(Kicked(w)) {
      KickedShape(w);
      KickedBloch(w);
      SqrtUnique(sqrt, BlochNormSqr(Kicked(w)), r);
      SymmetrizeFixesState(Kicked(w));
      StateEigenvalues(sqrt, Kicked(w));
      StabilityIsNegativity(sqrt, Kicked(w));
    }
  }

  lemma KickedShape(w: real)
    ensures Kicked(w).r == Kicked(w).c == 2
  {}

  // What one step from the ground state returns for a Wiener increment w, a hundredth of u
  lemma KickedStep(sqrt: real -> real, dt: real, w: real, u: real, r: real)
    requires IsSqrt(sqrt) && dt > 0.0 && u == 100.0 * w && r >= 0.0
    requires r * r == 4.0 * (u * u) + 1.0
    ensures var s := Measured(sqrt);
            s.Fits(2) && EulerMaruyamaStep(s, Ground(), NoDrive(), dt, w).Ok? &&
            var step := EulerMaruyamaStep(s, Ground(), NoDrive(), dt, w).value;
            && step.densityMatrix == Kicked(u) && step.stability == (if r > 1.0 then r - 1.0 else 0.0)
            && (step.violation <==> 0.5 - 0.5 * r < -0.1)
  {
    hide RawState, Hermitian, Trace, TraceNormDeviation, HasPositivityViolation, MeasurementSuperoperator,
      TraceDeviation, NonHermitianResidue, MeasurementExpectation, Kicked, Ground, NoDrive, Flip, Symmetrize,
      Renormalize, Compatible;
    var s := Measured(sqrt);
    GroundIsState();
    RawIsKicked(sqrt, dt, w);
    RawStateIsState(s, Ground(), NoDrive(), dt, w);
    KickedLevels(sqrt, u, r, 0.1);
    StepKeepsState(s, Ground(), NoDrive(), dt, w);
    SymmetrizeFixesState(Kicked(u));
  }

  lemma KickedZero()
    ensures Kicked(0.0) == Ground()
  {
    hide Entries, Real;
    RealConstants();
  }

  lemma GroundAccepted(sqrt: real -> real)
    requires IsSqrt(sqrt)
    ensures AcceptsTrajectoryState(sqrt, Ground())
  {
    hide Hermitian, Trace, HasPositivityViolation, TraceDeviation, NonHermitianResidue, Ground, Kicked;
    KickedZero();
    GroundIsState();
    StateClean(sqrt, Ground());
    KickedLevels(sqrt, 0.0, 1.0, TRAJECTORY_ATOL);
  }

  // ---------- the schedule ----------

  const KICK := 0.00375

  // The increments of the draws that are rejected are KICK; the others vanish.
  predicate Rejected(k: nat) {
    k in {0, 1, 3, 6, 9, 11, 14, 15}
  }

  const FLOOR := 1.0 / MIN_DT_FACTOR as real

  function Inputs(sqrt: real -> real): SliceInputs {
    SliceInputs(Measured(sqrt), NoDrive(), (k: nat, dt: real) => if Rejected(k) then KICK else 0.0, 1.0, FLOOR, true)
  }

  datatype Clock = Clock(remaining: real, currentDt: real)

  function Dt(c: Clock): real {
    MinReal(c.currentDt, c.remaining)
  }

  // The time left and the step size after k draws
  function After(k: nat): Clock {
    if k == 0 then Clock(1.0, 1.0)
    else
      var c := After(k - 1);
      if Rejected(k - 1) then c.(currentDt := MaxReal(0.5 * Dt(c), FLOOR))
      else Clock(MaxReal(c.remaining - Dt(c), 0.0), Carried(Dt(c), 1.0, true))
  }

  // Draw k meets what the loop asks of it: time is left, and a rejected step is above the floor. It is also an ordinary
  // draw: its increment is at most an eighth of the square root of the step.
  predicate Fair(k: nat) {
    && After(k).remaining > TIME_EPSILON && After(k).currentDt > 0.0
    && (Rejected(k) ==> Dt(After(k)) > FLOOR && 64.0 * (KICK * KICK) <= Dt(After(k)))
  }

  ghost predicate Follows(x: SliceState, k: nat) {
    x.rho == Ground() && x.remaining == After(k).remaining && x.currentDt == After(k).currentDt && x.draws == k
  }

  lemma MoveFollows(sqrt: real -> real, x: SliceState, k: nat)
    requires IsSqrt(sqrt) && Follows(x, k) && Fair(k)
    ensures Movable(Inputs(sqrt), x)
    ensures SliceMove(Inputs(sqrt), x).Ok? && Follows(SliceMove(Inputs(sqrt), x).value, k + 1)
  {
    hide EulerMaruyamaStep, AcceptsTrajectoryState, Kicked, Ground, NoDrive, Flip, Rejected, After;
    var w, u := if Rejected(k) then KICK else 0.0, if Rejected(k) then 0.375 else 0.0;
    KickedStep(sqrt, Dt(After(k)), w, u, if Rejected(k) then 1.25 else 1.0);
    KickedZero();
    GroundAccepted(sqrt);
    NextClock(k);
  }

  lemma NextClock(k: nat)
    ensures var c := After(k);
            After(k + 1) == if Rejected(k) then c.(currentDt := MaxReal(0.5 * Dt(c), FLOOR))
                            else Clock(MaxReal(c.remaining - Dt(c), 0.0), Carried(Dt(c), 1.0, true))
  {}

  lemma {:induction false} RunFollows(sqrt: real -> real, n: nat)
    requires IsSqrt(sqrt) && forall k :: 0 <= k < n ==> Fair(k)
    ensures var r := SliceRun(Inputs(sqrt), SliceStart(Ground(), 1.0, 1.0, 0), n); r.Ok? && Follows(r.value, n)
  {
    hide SliceMove, Movable, Fair, Ground, Rejected;
    if n > 0 {
      RunFollows(sqrt, n - 1);
      var x := SliceRun(Inputs(sqrt), SliceStart(Ground(), 1.0, 1.0, 0), n - 1).value;
      MoveFollows(sqrt, x, n - 1);
    }
  }

  lemma ClockStart()
    ensures After(0) == Clock(1.0, 1.0)
  {}

  // One tick from given values
  lemma Next(k: nat, rejected: bool, remaining: real, currentDt: real)
    requires After(k) == Clock(remaining, currentDt) && (rejected <==> Rejected(k))
    requires remaining > TIME_EPSILON && currentDt > 0.0 && (rejected ==> MinReal(currentDt, remaining) >= 0.0009)
    ensures Fair(k)
    ensures var dt := MinReal(currentDt, remaining);
            After(k + 1) == if rejected then Clock(remaining, MaxReal(0.5 * dt, FLOOR))
                            else Clock(MaxReal(remaining - dt, 0.0), MinReal(1.2 * dt, 1.0))
  {
    hide After, Rejected;
    NextClock(k);
  }

  lemma Schedule5()
    ensures After(5) == Clock(3.0 / 5.0, 9.0 / 50.0)
    ensures forall k :: 0 <= k < 5 ==> Fair(k)
  {
    hide After, Fair;
    ClockStart();
    Next(0, true, 1.0, 1.0);
    Next(1, true, 1.0, 1.0 / 2.0);
    Next(2, false, 1.0, 1.0 / 4.0);
    Next(3, true, 3.0 / 4.0, 3.0 / 10.0);
    Next(4, false, 3.0 / 4.0, 3.0 / 20.0);
  }

  lemma Schedule10()
    ensures After(10) == Clock(114.0 / 625.0, 243.0 / 3125.0)
    ensures forall k :: 0 <= k < 10 ==> Fair(k)
  {
    hide After, Fair;
    Schedule5();
    Next(5, false, 3.0 / 5.0, 9.0 / 50.0);
    Next(6, true, 21.0 / 50.0, 27.0 / 125.0);
    Next(7, false, 21.0 / 50.0, 27.0 / 250.0);
    Next(8, false, 39.0 / 125.0, 81.0 / 625.0);
    Next(9, true, 114.0 / 625.0, 486.0 / 3125.0);
  }

  lemma Schedule15()
    ensures After(15) == Clock(156.0 / 78125.0, 78.0 / 78125.0)
    ensures forall k :: 0 <= k < 15 ==> Fair(k)
  {
    hide After, Fair;
    Schedule10();
    Next(10, false, 114.0 / 625.0, 243.0 / 3125.0);
    Next(11, true, 327.0 / 3125.0, 1458.0 / 15625.0);
    Next(12, false, 327.0 / 3125.0, 729.0 / 15625.0);
    Next(13, false, 906.0 / 15625.0, 4374.0 / 78125.0);
    Next(14, true, 156.0 / 78125.0, 26244.0 / 390625.0);
  }

  lemma Schedule20()
    ensures After(20) == Clock(0.0, 2106.0 / 9765625.0)
    ensures forall k :: 0 <= k < 20 ==> Fair(k)
  {
    hide After, Fair;
    Schedule15();
    Next(15, true, 156.0 / 78125.0, 78.0 / 78125.0);
    Next(16, false, 156.0 / 78125.0, 39.0 / 78125.0);
    Next(17, false, 117.0 / 78125.0, 234.0 / 390625.0);
    Next(18, false, 351.0 / 390625.0, 1404.0 / 1953125.0);
    Next(19, false, 351.0 / 1953125.0, 8424.0 / 9765625.0);
  }

  // Twenty draws use up the slice; the step size carried to the next slice lies below the floor.
  lemma EndsBelowFloor(sqrt: real -> real, moves: nat, last: SliceState)
    requires IsSqrt(sqrt)
    ensures forall k :: 0 <= k < 20 ==> Fair(k)
    ensures var r := SliceRun(Inputs(sqrt), SliceStart(Ground(), 1.0, 1.0, 0), 20);
            r.Ok? && r.value.remaining == 0.0 && 0.0 < r.value.currentDt < Inputs(sqrt).dtMin
    ensures last.remaining <= TIME_EPSILON ==>
      SliceRun(Inputs(sqrt), SliceStart(Ground(), 1.0, 1.0, 0), moves) == Ok(last) ==>
      moves == 20 && last.currentDt < Inputs(sqrt).dtMin
  {
    hide SliceRun, After, Fair, Ground;
    Schedule20();
    RunFollows(sqrt, 20);
    var start := SliceStart(Ground(), 1.0, 1.0, 0);
    if SliceRun(Inputs(sqrt), start, moves) == Ok(last) && last.remaining <= TIME_EPSILON {
      SliceRunEndsOnce(Inputs(sqrt), start, moves, last, 20, SliceRun(Inputs(sqrt), start, 20).value);
    }
  }
}
