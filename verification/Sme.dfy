// The Ito step and the adaptive slice loop: hal/src/sme/integrate.rs, hal/src/sme/trajectory.rs.
module Sme {
  import opened Reals
  import opened Wrappers
  import opened ComplexNumbers
  import opened Matrices
  import opened MatrixExponential
  import opened Lindblad
  import opened Measurement

  datatype StepResult = StepResult(densityMatrix: Mat, signal: real, traceDeviation: real, stability: real,
                                   residue: real, violation: bool)

  // Everything fixed during one solve; sqrt is abstract, operator is c in H[c]rho.
  datatype Setting = Setting(sqrt: real -> real, ops: seq<CollapseOperator>, operator: Mat, eta: real,
                             projection: bool, adaptiveTolerance: real, positivityTolerance: real)
  {
    ghost predicate Fits(d: nat) {
      IsSqrt(sqrt) && d > 0 && Compatible(ops, d) && operator.r == operator.c == d &&
      0.0 <= eta <= 1.0 && adaptiveTolerance > 0.0 && positivityTolerance >= 0.0
    }
  }

  // rho + dt * drift + dW * sqrt(eta) * innovation
  function RawState(s: Setting, rho: Mat, h: Mat, dt: real, dW: real): (m: Mat)
    requires rho.r == rho.c == h.r == h.c && s.Fits(rho.r)
    ensures m.r == m.c == rho.r
  {
    Plus(Plus(rho, Scale(Real(dt), LindbladRhs(h, s.ops, rho))),
         Scale(Real(dW), Scale(Real(s.sqrt(s.eta)), Innovation(s.operator, rho))))
  }

  function Normalized(m: Mat): Result<Mat> {
    Renormalize(Symmetrize(m))
  }

  function EulerMaruyamaStep(s: Setting, rho: Mat, h: Mat, dt: real, dW: real): Result<StepResult>
    requires rho.r == rho.c == h.r == h.c && s.Fits(rho.r) && dt > 0.0
  {
    if s.eta == 0.0 then
      match Normalized(Rk4Step(rho, h, s.ops, dt))
      case Err(e) => Err(e)
      case Ok(m) => Ok(StepResult(m, 0.0, 0.0, 0.0, 0.0, false))
    else if MeasurementSuperoperator(s.sqrt, s.operator, rho).Err? then
      Err(MeasurementSuperoperator(s.sqrt, s.operator, rho).reason)
    else
      var raw := RawState(s, rho, h, dt, dW);
      match Normalized(raw)
      case Err(e) => Err(e)
      case Ok(m) =>
        var violation := HasPositivityViolation(s.sqrt, m, s.positivityTolerance);
        var projected := if s.projection && violation then ProjectPositiveCone(s.sqrt, m) else Ok(m);
        if projected.Err? then Err(projected.reason) else
        var signal := s.sqrt(s.eta) * MeasurementExpectation(s.operator, rho) + dW / dt;
        Ok(StepResult(projected.value, signal, TraceDeviation(s.sqrt, raw), TraceNormDeviation(s.sqrt, raw),
                      NonHermitianResidue(s.sqrt, raw), violation))
  }

  // Any increment keeps the raw state Hermitian with unit trace.
  lemma {:induction false} RawStateIsState(s: Setting, rho: Mat, h: Mat, dt: real, dW: real)
    requires rho.r == rho.c == h.r == h.c && s.Fits(rho.r) && IsState(rho) && Hermitian(h)
    ensures IsState(RawState(s, rho, h, dt, dW))
  {
    hide Plus, Scale, Trace, Dagger, LindbladRhs, Innovation, Increment, Real, Compatible;
    var drift, innovation := LindbladRhs(h, s.ops, rho), Innovation(s.operator, rho);
    RhsIncrement(h, s.ops, rho, true);
    IncrementScale(dt, drift, true);
    AddIncrement(rho, Scale(Real(dt), drift), true);
    InnovationIncrement(s.operator, rho);
    IncrementScale(s.sqrt(s.eta), innovation, true);
    IncrementScale(dW, Scale(Real(s.sqrt(s.eta)), innovation), true);
    AddIncrement(Plus(rho, Scale(Real(dt), drift)), Scale(Real(dW), Scale(Real(s.sqrt(s.eta)), innovation)), true);
  }

  // The state the step would return without projection.
  function Unprojected(s: Setting, rho: Mat, h: Mat, dt: real, dW: real): (m: Mat)
    requires rho.r == rho.c == h.r == h.c && s.Fits(rho.r)
    ensures m.r == m.c == rho.r
  {
    if s.eta == 0.0 then Rk4Step(rho, h, s.ops, dt) else RawState(s, rho, h, dt, dW)
  }

  ghost predicate NeedsProjection(s: Setting, m: Mat) {
    s.eta != 0.0 && s.projection && HasPositivityViolation(s.sqrt, m, s.positivityTolerance)
  }

  // From a state the step fails only when a positivity violation needs projecting outside dimension 2. Its
  // repairs of Hermiticity and trace are no-ops, and the projected result has no violation left.
  lemma {:induction false} StepKeepsState(s: Setting, rho: Mat, h: Mat, dt: real, dW: real)
    requires rho.r == rho.c == h.r == h.c && s.Fits(rho.r) && dt > 0.0 && IsState(rho) && Hermitian(h)
    ensures var r, raw := EulerMaruyamaStep(s, rho, h, dt, dW), Unprojected(s, rho, h, dt, dW);
            && (r.Ok? <==> (NeedsProjection(s, raw) ==> rho.r == 2))
            && (r.Ok? ==> IsState(r.value.densityMatrix) && r.value.densityMatrix.r == rho.r)
            && (r.Ok? ==> r.value.traceDeviation == 0.0 && r.value.residue == 0.0)
            && (r.Ok? && !NeedsProjection(s, raw) ==> r.value.densityMatrix == raw)
            && (r.Ok? && NeedsProjection(s, raw) ==>
                  !HasPositivityViolation(s.sqrt, r.value.densityMatrix, s.positivityTolerance))
  {
    hide Trace, Dagger, Rk4Step, RawState, HasPositivityViolation, ProjectPositiveCone, TraceNormDeviation,
      MeasurementExpectation, Renormalize, Symmetrize, MeasurementSuperoperator, NonHermitianResidue, Norm, Compatible;
    if s.eta == 0.0 {
      Rk4Preserves(rho, h, s.ops, dt, true);
      var m := Rk4Step(rho, h, s.ops, dt);
      SymmetrizeFixesState(m);
    } else {
      var raw := RawState(s, rho, h, dt, dW);
      RawStateIsState(s, rho, h, dt, dW);
      SymmetrizeFixesState(raw);
      SuperoperatorAccepts(s.sqrt, s.operator, rho);
      HermitianResidueZero(s.sqrt, raw);
      UnitTraceDeviation(s.sqrt, raw);
      ProjectionRepairs(s.sqrt, raw, s.positivityTolerance);
    }
  }

  lemma UnitTraceDeviation(sqrt: real -> real, m: Mat)
    requires IsSqrt(sqrt) && Trace(m) == ONE
    ensures TraceDeviation(sqrt, m) == 0.0
  {
    hide Trace, Norm;
    assert Sub(ONE, ONE) == ZERO;
    NormZero(sqrt);
  }

  // ---------- the adaptive loop ----------

  const MIN_DT_FACTOR := 4096
  const TIME_EPSILON := 1.0 / 1_000_000_000_000_000_000.0
  const TRAJECTORY_ATOL := 1.0 / 1_000_000.0

  function SumReal(xs: seq<real>): real {
    if xs == [] then 0.0 else SumReal(xs[..|xs| - 1]) + xs[|xs| - 1]
  }

  lemma {:induction false} SumRealAppend(xs: seq<real>, ys: seq<real>)
    ensures SumReal(xs + ys) == SumReal(xs) + SumReal(ys)
  {
    if ys == [] {
      assert xs + ys == xs;
    } else {
      assert (xs + ys)[..|xs + ys| - 1] == xs + ys[..|ys| - 1];
      SumRealAppend(xs, ys[..|ys| - 1]);
    }
  }

  // validate_trajectory_density_matrix
  predicate AcceptsTrajectoryState(sqrt: real -> real, m: Mat) {
    NonHermitianResidue(sqrt, m) <= TRAJECTORY_ATOL && TraceDeviation(sqrt, m) <= TRAJECTORY_ATOL &&
    !HasPositivityViolation(sqrt, m, TRAJECTORY_ATOL)
  }

  // How many whole floors fit into the time left: the termination measure of the accepted steps.
  function StepsLeft(remaining: real, floor: real): int
    requires floor > 0.0
  {
    (remaining / floor).Floor
  }

  lemma StepsLeftDrops(before: real, after: real, floor: real)
    requires floor > 0.0 && 0.0 <= after <= before - floor
    ensures 0 <= StepsLeft(after, floor) < StepsLeft(before, floor)
  {
    var b, a := before / floor, after / floor;
    assert b * floor == before && a * floor == after;
    assert floor * a == after && floor * (b - 1.0 - a) == before - floor - after;
    ScaledNonNegative(floor, a);
    ScaledNonNegative(floor, b - 1.0 - a);
    assert a.Floor as real <= a && b < b.Floor as real + 1.0;
  }

  function Pow2Real(k: nat): (p: real)
    ensures p >= 1.0
  {
    if k == 0 then 1.0 else 2.0 * Pow2Real(k - 1)
  }

  // k rejections in a row leave the step size at most nominal / 2^k, or at the floor dtMin.
  ghost predicate Halved(currentDt: real, nominal: real, dtMin: real, k: nat) {
    currentDt * Pow2Real(k) <= nominal || currentDt <= dtMin
  }

  lemma {:induction false} Pow2Twelve(k: nat)
    requires k >= 12
    ensures Pow2Real(k) >= 4096.0
  {
    if k == 12 {
      assert Pow2Real(3) == 8.0;
      assert Pow2Real(6) == 64.0;
      assert Pow2Real(9) == 512.0;
    } else {
      Pow2Twelve(k - 1);
    }
  }

  lemma RejectionCount(currentDt: real, nominal: real, dtMin: real, k: nat)
    requires Halved(currentDt, nominal, dtMin, k) && nominal == 4096.0 * dtMin && currentDt > 0.0
    ensures k >= 12 ==> currentDt <= dtMin
  {
    if k >= 12 {
      Pow2Twelve(k);
      var p := Pow2Real(k);
      ProductNonNegative(currentDt, p - 4096.0);
      assert currentDt * p >= currentDt * 4096.0;
    }
  }

  lemma HalvedAgain(currentDt: real, step: real, nominal: real, dtMin: real, k: nat)
    requires Halved(currentDt, nominal, dtMin, k) && dtMin < step <= currentDt
    ensures Halved(MaxReal(0.5 * step, dtMin), nominal, dtMin, k + 1)
  {
    var p := Pow2Real(k);
    assert step * p <= currentDt * p;
    assert (0.5 * step) * (2.0 * p) == step * p;
  }

  // What one slice works with
  datatype SliceInputs = SliceInputs(setting: Setting, h: Mat, noise: (nat, real) -> real, nominal: real, dtMin: real,
                                     checkStates: bool)

  // The variables of the loop; calm says whether the last accepted step let the step size grow.
  datatype SliceState = SliceState(rho: Mat, remaining: real, currentDt: real, dts: seq<real>, trajectory: seq<Mat>,
                                   signals: seq<real>, maxTrace: real, maxResidue: real, violations: nat, draws: nat,
                                   calm: bool)

  function SliceStart(rho: Mat, nominal: real, currentDt: real, draws: nat): SliceState {
    SliceState(rho, nominal, currentDt, [], [], [], 0.0, 0.0, 0, draws, false)
  }

  // The step size after an accepted step of size x
  function Carried(x: real, nominal: real, calm: bool): real {
    if calm then MinReal(1.2 * x, nominal) else x
  }

  ghost predicate Movable(p: SliceInputs, x: SliceState) {
    x.rho.r == x.rho.c == p.h.r == p.h.c && p.setting.Fits(x.rho.r) && x.remaining > TIME_EPSILON && x.currentDt > 0.0
  }

  // One pass of the loop: a retry with half the step, an accepted step, or a failure
  ghost function SliceMove(p: SliceInputs, x: SliceState): Result<SliceState>
    requires Movable(p, x)
  {
    var dt := MinReal(x.currentDt, x.remaining);
    match EulerMaruyamaStep(p.setting, x.rho, p.h, dt, p.noise(x.draws, dt))
    case Err(e) => Err(e)
    case Ok(step) =>
      if (step.stability > p.setting.adaptiveTolerance || step.violation) && dt > p.dtMin then
        Ok(x.(currentDt := MaxReal(0.5 * dt, p.dtMin), draws := x.draws + 1))
      else if p.checkStates && !AcceptsTrajectoryState(p.setting.sqrt, step.densityMatrix) then
        Err("trajectory_density_matrix")
      else
        Ok(Accepted(p, x, step))
  }

  // After an accepted step
  function Accepted(p: SliceInputs, x: SliceState, step: StepResult): SliceState {
    var dt, calm := MinReal(x.currentDt, x.remaining), step.stability < p.setting.adaptiveTolerance / 10.0;
    SliceState(step.densityMatrix, MaxReal(x.remaining - dt, 0.0), Carried(dt, p.nominal, calm), x.dts + [dt],
               x.trajectory + [step.densityMatrix], x.signals + [step.signal],
               MaxReal(x.maxTrace, step.traceDeviation), MaxReal(x.maxResidue, step.residue),
               x.violations + if step.violation then 1 else 0, x.draws + 1, calm)
  }

  ghost function SliceRun(p: SliceInputs, x: SliceState, n: nat): Result<SliceState> {
    if n == 0 then Ok(x)
    else
      var before := SliceRun(p, x, n - 1);
      if before.Err? then before
      else if Movable(p, before.value) then SliceMove(p, before.value)
      else Err("finished")
  }

  lemma SliceRunStep(p: SliceInputs, x: SliceState, n: nat, y: SliceState)
    requires SliceRun(p, x, n) == Ok(y) && Movable(p, y)
    ensures SliceRun(p, x, n + 1) == SliceMove(p, y)
  {
    hide SliceMove, Movable;
  }

  lemma SliceRunZero(p: SliceInputs, x: SliceState)
    ensures SliceRun(p, x, 0) == Ok(x)
  {}

  // A run of the loop ends after one number of passes only.
  lemma SliceRunEndsOnce(p: SliceInputs, x: SliceState, m: nat, a: SliceState, n: nat, b: SliceState)
    requires SliceRun(p, x, m) == Ok(a) && a.remaining <= TIME_EPSILON
    requires SliceRun(p, x, n) == Ok(b) && b.remaining <= TIME_EPSILON
    ensures m == n && a == b
  {
    hide SliceMove;
    if m < n { NothingAfterEnd(p, x, m, n); }
    if n < m { NothingAfterEnd(p, x, n, m); }
  }

  lemma {:induction false} NothingAfterEnd(p: SliceInputs, x: SliceState, m: nat, n: nat)
    requires m < n && SliceRun(p, x, m).Ok? && SliceRun(p, x, m).value.remaining <= TIME_EPSILON
    ensures SliceRun(p, x, n).Err?
  {
    hide SliceMove;
    if n > m + 1 { NothingAfterEnd(p, x, m, n - 1); }
  }

  // A carried step lies below the floor exactly when the last accepted step did, by the growth factor if it was calm.
  lemma CarriedBelowFloor(x: real, nominal: real, dtMin: real, calm: bool)
    requires nominal == MIN_DT_FACTOR as real * dtMin && dtMin > 0.0 && x > 0.0
    ensures Carried(x, nominal, calm) < dtMin <==> x < if calm then dtMin / 1.2 else dtMin
    ensures Carried(x, nominal, calm) < dtMin ==> x < dtMin
  {}

  datatype SliceResult = SliceResult(rho: Mat, currentDt: real, dts: seq<real>, trajectory: seq<Mat>,
                                     signals: seq<real>, maxTrace: real, maxResidue: real, violations: nat,
                                     draws: nat)

  function ResultOf(x: SliceState): SliceResult {
    SliceResult(x.rho, x.currentDt, x.dts, x.trajectory, x.signals, x.maxTrace, x.maxResidue, x.violations, x.draws)
  }

  // The time that the accepted steps leave uncovered, and what every accepted step keeps.
  ghost predicate SliceOk(r: SliceResult, d: nat, nominal: real, floor: real) {
    && IsState(r.rho) && r.rho.r == d
    && 0.0 <= nominal - SumReal(r.dts) <= TIME_EPSILON
    && floor <= r.currentDt <= nominal
    && |r.trajectory| == |r.signals| == |r.dts| && r.violations <= |r.dts|
    && (forall k :: 0 <= k < |r.dts| ==> r.dts[k] > 0.0)
    && forall k :: 0 <= k < |r.trajectory| ==> IsState(r.trajectory[k])
  }

  // With projection on and a tolerance no wider than the trajectory check, an accepted 2x2 state passes that check.
  ghost predicate ProjectsEnough(s: Setting) {
    s.eta != 0.0 && s.projection && s.positivityTolerance <= TRAJECTORY_ATOL
  }

  lemma StatePasses(s: Setting, rho: Mat, h: Mat, dt: real, dW: real)
    requires rho.r == rho.c == h.r == h.c == 2 && s.Fits(2) && dt > 0.0 && IsState(rho) && Hermitian(h)
    requires ProjectsEnough(s)
    ensures var r := EulerMaruyamaStep(s, rho, h, dt, dW);
      r.Ok? && AcceptsTrajectoryState(s.sqrt, r.value.densityMatrix)
  {
    hide EulerMaruyamaStep, Unprojected, EigenvalueBounds, Symmetrize, NonHermitianResidue, TraceDeviation, Hermitian,
      Trace;
    StepKeepsState(s, rho, h, dt, dW);
    var m := EulerMaruyamaStep(s, rho, h, dt, dW).value.densityMatrix;
    StateClean(s.sqrt, m);
  }

  lemma StateClean(sqrt: real -> real, m: Mat)
    requires IsSqrt(sqrt) && IsState(m)
    ensures NonHermitianResidue(sqrt, m) == 0.0 && TraceDeviation(sqrt, m) == 0.0
  {
    hide Hermitian, Trace, NonHermitianResidue, TraceDeviation;
    HermitianResidueZero(sqrt, m);
    UnitTraceDeviation(sqrt, m);
  }

  // Every accepted step is at least m, except for a cut that uses up the slice, and so is the step carried on.
  ghost predicate LongSteps(dts: seq<real>, remaining: real, currentDt: real, m: real) {
    && (remaining > 0.0 ==> currentDt >= m)
    && forall k :: 0 <= k < |dts| && (k < |dts| - 1 || remaining > 0.0) ==> dts[k] >= m
  }

  lemma LongStart(remaining: real, currentDt: real, m: real)
    requires currentDt >= m
    ensures LongSteps([], remaining, currentDt, m)
  {}

  lemma LongRetry(dts: seq<real>, remaining: real, currentDt: real, m: real, next: real)
    requires LongSteps(dts, remaining, currentDt, m) && next >= m
    ensures LongSteps(dts, remaining, next, m)
  {}

  lemma LongMore(dts: seq<real>, remaining: real, currentDt: real, m: real, nominal: real, calm: bool)
    requires LongSteps(dts, remaining, currentDt, m) && remaining > 0.0 && currentDt > 0.0 && nominal >= m
    ensures var dt := MinReal(currentDt, remaining);
            LongSteps(dts + [dt], MaxReal(remaining - dt, 0.0), Carried(dt, nominal, calm), m)
  {
    var dt := MinReal(currentDt, remaining);
    forall k | 0 <= k < |dts + [dt]| && (k < |dts| || remaining - dt > 0.0) ensures (dts + [dt])[k] >= m {
      if k < |dts| { assert (dts + [dt])[k] == dts[k]; }
    }
  }

  lemma {:induction false} SumAtLeast(xs: seq<real>, m: real)
    requires forall k :: 0 <= k < |xs| ==> xs[k] >= m
    ensures SumReal(xs) >= |xs| as real * m
  {
    if xs != [] {
      var n := |xs| - 1;
      SumAtLeast(xs[..n], m);
      NextMultiple(n, m);
    }
  }

  // The time left for the last of the accepted steps
  function Cut(dts: seq<real>, nominal: real): real
    requires dts != []
  {
    nominal - SumReal(dts[..|dts| - 1])
  }

  // A slice entered with a step of at least dtMin accepts at most nominal / dtMin steps. Only the last of them can be
  // cut short, by the end of the slice; it carries a step below dtMin exactly when the time left for it was below
  // dtMin, or below dtMin / 1.2 if it was calm.
  lemma SliceSteps(x: SliceState, nominal: real, dtMin: real)
    requires dtMin > 0.0 && nominal == MIN_DT_FACTOR as real * dtMin
    requires x.dts != [] && x.dts[|x.dts| - 1] > 0.0 && x.remaining == nominal - SumReal(x.dts) >= 0.0
    requires LongSteps(x.dts, x.remaining, x.currentDt, dtMin)
    requires x.currentDt == Carried(x.dts[|x.dts| - 1], nominal, x.calm)
    ensures |x.dts| <= MIN_DT_FACTOR
    ensures forall k :: 0 <= k < |x.dts| - 1 ==> x.dts[k] >= dtMin
    ensures x.currentDt < dtMin <==> Cut(x.dts, nominal) < if x.calm then dtMin / 1.2 else dtMin
    ensures x.currentDt < dtMin ==> x.remaining == 0.0 && x.dts[|x.dts| - 1] == Cut(x.dts, nominal)
  {
    hide Carried;
    var n := |x.dts| - 1;
    var dt := x.dts[n];
    assert Cut(x.dts, nominal) == dt + x.remaining;
    SumAtLeast(x.dts[..n], dtMin);
    assert |x.dts[..n]| as real == n as real;
    assert n as real * dtMin <= SumReal(x.dts[..n]) < nominal;
    FewSteps(n, dtMin, nominal);
    CarriedBelowFloor(dt, nominal, dtMin, x.calm);
    if x.remaining > 0.0 { assert dt >= dtMin; }
  }

  lemma FewSteps(n: nat, m: real, nominal: real)
    requires m > 0.0 && nominal == MIN_DT_FACTOR as real * m && n as real * m < nominal
    ensures n < MIN_DT_FACTOR
  {}

  // noise(k, dt) is the k-th Wiener increment; rejections lists how many retries preceded each accepted step.
  // checkStates is set by the trajectory solver, which validates every accepted state; the feedback loop does not.
  method IntegrateNominalSlice(s: Setting, rho: Mat, h: Mat, noise: (nat, real) -> real, draws0: nat,
                               nominal: real, currentDt0: real, dtMin: real, checkStates: bool, ghost floor: real)
    returns (r: Result<SliceResult>, ghost rejections: seq<nat>, ghost moves: nat, ghost last: SliceState)
    requires rho.r == rho.c == h.r == h.c && s.Fits(rho.r) && IsState(rho) && Hermitian(h)
    requires nominal == MIN_DT_FACTOR as real * dtMin
    requires 0.0 < floor <= dtMin && floor <= TIME_EPSILON && floor <= currentDt0 <= nominal
    ensures r.Ok? ==> SliceOk(r.value, rho.r, nominal, floor)
    ensures r.Ok? ==> |rejections| == |r.value.dts| && forall k :: 0 <= k < |rejections| ==> rejections[k] <= 12
    ensures r.Ok? ==> r.value.draws >= draws0 + |r.value.dts|
    ensures r.Ok? ==> r.value.maxTrace == 0.0 && r.value.maxResidue == 0.0
    ensures r.Ok? && checkStates ==>
      forall k :: 0 <= k < |r.value.trajectory| ==> AcceptsTrajectoryState(s.sqrt, r.value.trajectory[k])
    ensures rho.r == 2 && (!checkStates || ProjectsEnough(s)) ==> r.Ok?
    ensures r.Ok? ==> r.value == ResultOf(last) && last.remaining <= TIME_EPSILON
    ensures r.Ok? && last.dts != [] ==> last.currentDt == Carried(last.dts[|last.dts| - 1], nominal, last.calm)
    ensures r.Ok? ==> last.remaining == nominal - SumReal(last.dts)
    ensures r.Ok? ==> LongSteps(last.dts, last.remaining, last.currentDt, MinReal(dtMin, currentDt0))
    ensures r.Ok? && currentDt0 >= dtMin ==> |r.value.dts| <= MIN_DT_FACTOR
    ensures r.Ok? && currentDt0 >= dtMin && r.value.dts != [] ==>
      (r.value.currentDt < dtMin <==> Cut(r.value.dts, nominal) < if last.calm then dtMin / 1.2 else dtMin)
    ensures SliceRun(SliceInputs(s, h, noise, nominal, dtMin, checkStates),
                     SliceStart(rho, nominal, currentDt0, draws0), moves) ==
            if r.Ok? then Ok(last) else Err(r.reason)
  {
    hide EulerMaruyamaStep, IsState, Hermitian, AcceptsTrajectoryState, Unprojected, NeedsProjection, StepsLeft,
      HasPositivityViolation, Pow2Real, Halved, SumReal, Compatible, SliceRun, ProjectsEnough, Kept,
      LongSteps;
    var d := rho.r;
    var remaining, currentDt, current := nominal, currentDt0, rho;
    var dts: seq<real>, trajectory: seq<Mat>, signals: seq<real> := [], [], [];
    var violations, draws, maxTrace, maxResidue := 0, draws0, 0.0, 0.0;
    ghost var p, start := SliceInputs(s, h, noise, nominal, dtMin, checkStates),
      SliceStart(rho, nominal, currentDt0, draws0);
    ghost var rejected: nat := 0;
    rejections, moves, last := [], 0, start;
    HalvedStart(currentDt, nominal, dtMin);
    SliceRunZero(p, start);
    ghost var m := MinReal(dtMin, currentDt0);
    KeptStart(p, start, m);
    while remaining > TIME_EPSILON
      invariant current.r == current.c == d && IsState(current)
      invariant floor <= currentDt <= nominal
      invariant rejected <= 12 && Halved(currentDt, nominal, dtMin, rejected)
      invariant draws >= draws0 + |dts|
      invariant Kept(p, last, m, rejections) && remaining >= 0.0
      invariant last == SliceState(current, remaining, currentDt, dts, trajectory, signals, maxTrace, maxResidue,
                                   violations, draws, last.calm)
      invariant SliceRun(p, start, moves) == Ok(last)
      decreases StepsLeft(remaining, floor), 12 - rejected
    {
      var dtStep := MinReal(currentDt, remaining);
      var step := EulerMaruyamaStep(s, current, h, dtStep, noise(draws, dtStep));
      StepKeepsState(s, current, h, dtStep, noise(draws, dtStep));
      if d == 2 && ProjectsEnough(s) { StatePasses(s, current, h, dtStep, noise(draws, dtStep)); }
      SliceRunStep(p, start, moves, last);
      moves := moves + 1;
      draws := draws + 1;
      if step.Err? { return Err(step.reason), [], moves, last; }
      var shouldRetry := step.value.stability > s.adaptiveTolerance || step.value.violation;
      if shouldRetry && dtStep > dtMin {
        RejectionCount(currentDt, nominal, dtMin, rejected);
        HalvedAgain(currentDt, dtStep, nominal, dtMin, rejected);
        KeptRetry(p, last, m, rejections, MaxReal(0.5 * dtStep, dtMin), draws);
        currentDt := MaxReal(0.5 * dtStep, dtMin);
        rejected := rejected + 1;
        last := last.(currentDt := currentDt, draws := draws);
        continue;
      }
      if checkStates && !AcceptsTrajectoryState(s.sqrt, step.value.densityMatrix) {
        return Err("trajectory_density_matrix"), [], moves, last;
      }
      StateSquare(step.value.densityMatrix);
      current := step.value.densityMatrix;
      StepsLeftDrops(remaining, MaxReal(remaining - dtStep, 0.0), floor);
      remaining := MaxReal(remaining - dtStep, 0.0);
      KeptAccept(p, last, m, rejections, step.value, rejected);
      dts := dts + [dtStep];
      rejections := rejections + [rejected];
      trajectory := trajectory + [current];
      signals := signals + [step.value.signal];
      maxTrace := MaxReal(maxTrace, step.value.traceDeviation);
      maxResidue := MaxReal(maxResidue, step.value.residue);
      violations := violations + if step.value.violation then 1 else 0;
      currentDt := if step.value.stability < s.adaptiveTolerance / 10.0 then MinReal(1.2 * dtStep, nominal) else dtStep;
      rejected := 0;
      HalvedStart(currentDt, nominal, dtMin);
      last := Accepted(p, last, step.value);
    }
    r := Ok(SliceResult(current, currentDt, dts, trajectory, signals, maxTrace, maxResidue, violations, draws));
    KeptFacts(p, last, m, rejections);
    if currentDt0 >= dtMin && dts != [] { SliceSteps(last, nominal, dtMin); }
  }

  // What the accepted steps of a slice keep
  ghost predicate Trail(sqrt: real -> real, checkStates: bool, dts: seq<real>, trajectory: seq<Mat>, signals: seq<real>,
                        rejections: seq<nat>) {
    && |trajectory| == |signals| == |dts| == |rejections|
    && (forall k :: 0 <= k < |dts| ==> dts[k] > 0.0 && rejections[k] <= 12)
    && (forall k :: 0 <= k < |trajectory| ==> IsState(trajectory[k]))
    && (checkStates ==> forall k :: 0 <= k < |trajectory| ==> AcceptsTrajectoryState(sqrt, trajectory[k]))
  }

  lemma TrailStart(sqrt: real -> real, checkStates: bool)
    ensures Trail(sqrt, checkStates, [], [], [], [])
  {}

  lemma TrailMore(sqrt: real -> real, checkStates: bool, dts: seq<real>, trajectory: seq<Mat>, signals: seq<real>,
                  rejections: seq<nat>, dt: real, m: Mat, signal: real, rejected: nat)
    requires Trail(sqrt, checkStates, dts, trajectory, signals, rejections)
    requires dt > 0.0 && rejected <= 12
    ensures IsState(m) && (checkStates ==> AcceptsTrajectoryState(sqrt, m)) ==>
              Trail(sqrt, checkStates, dts + [dt], trajectory + [m], signals + [signal], rejections + [rejected])
  {
    hide IsState, AcceptsTrajectoryState;
  }

  lemma TrailFacts(sqrt: real -> real, checkStates: bool, dts: seq<real>, trajectory: seq<Mat>, signals: seq<real>,
                   rejections: seq<nat>)
    requires Trail(sqrt, checkStates, dts, trajectory, signals, rejections)
    ensures |trajectory| == |signals| == |dts| == |rejections|
    ensures forall k :: 0 <= k < |dts| ==> dts[k] > 0.0 && rejections[k] <= 12
    ensures forall k :: 0 <= k < |trajectory| ==> IsState(trajectory[k])
    ensures checkStates ==> forall k :: 0 <= k < |trajectory| ==> AcceptsTrajectoryState(sqrt, trajectory[k])
  {
    hide IsState, AcceptsTrajectoryState;
  }

  // What the loop of a slice keeps; m is a lower bound on every step that is not a cut.
  ghost predicate Kept(p: SliceInputs, x: SliceState, m: real, rejections: seq<nat>) {
    && 0.0 <= x.remaining == p.nominal - SumReal(x.dts)
    && x.violations <= |x.dts| && x.maxTrace == 0.0 && x.maxResidue == 0.0
    && LongSteps(x.dts, x.remaining, x.currentDt, m)
    && (x.remaining <= TIME_EPSILON && x.dts != [] ==>
          x.currentDt == Carried(x.dts[|x.dts| - 1], p.nominal, x.calm))
    && Trail(p.setting.sqrt, p.checkStates, x.dts, x.trajectory, x.signals, rejections)
  }

  ghost predicate Storable(p: SliceInputs, m: Mat) {
    IsState(m) && (p.checkStates ==> AcceptsTrajectoryState(p.setting.sqrt, m))
  }

  lemma KeptStart(p: SliceInputs, x: SliceState, m: real)
    requires x == SliceStart(x.rho, p.nominal, x.currentDt, x.draws) && x.currentDt >= m && p.nominal >= 0.0
    ensures Kept(p, x, m, [])
  {
    SumNone();
    TrailStart(p.setting.sqrt, p.checkStates);
    LongStart(x.remaining, x.currentDt, m);
  }

  lemma KeptRetry(p: SliceInputs, x: SliceState, m: real, rejections: seq<nat>, next: real, draws: nat)
    requires Kept(p, x, m, rejections) && next >= m && x.remaining > TIME_EPSILON
    ensures Kept(p, x.(currentDt := next, draws := draws), m, rejections)
  {
    hide Trail;
    LongRetry(x.dts, x.remaining, x.currentDt, m, next);
  }

  lemma KeptAccept(p: SliceInputs, x: SliceState, m: real, rejections: seq<nat>, step: StepResult, rejected: nat)
    requires Kept(p, x, m, rejections) && x.remaining > TIME_EPSILON && x.currentDt > 0.0 && p.nominal >= m
    requires rejected <= 12 && step.traceDeviation == 0.0 && step.residue == 0.0
    ensures Storable(p, step.densityMatrix) ==> Kept(p, Accepted(p, x, step), m, rejections + [rejected])
  {
    hide Trail, IsState, AcceptsTrajectoryState, SumReal, Carried, LongSteps;
    var dt := MinReal(x.currentDt, x.remaining);
    LongMore(x.dts, x.remaining, x.currentDt, m, p.nominal, Accepted(p, x, step).calm);
    SumRealAppend(x.dts, [dt]);
    SumOne(dt);
    TrailMore(p.setting.sqrt, p.checkStates, x.dts, x.trajectory, x.signals, rejections, dt, step.densityMatrix,
              step.signal, rejected);
  }

  lemma KeptFacts(p: SliceInputs, x: SliceState, m: real, rejections: seq<nat>)
    requires Kept(p, x, m, rejections)
    ensures 0.0 <= x.remaining == p.nominal - SumReal(x.dts)
    ensures x.violations <= |x.dts| && x.maxTrace == 0.0 && x.maxResidue == 0.0
    ensures LongSteps(x.dts, x.remaining, x.currentDt, m)
    ensures x.remaining <= TIME_EPSILON && x.dts != [] ==>
      x.currentDt == Carried(x.dts[|x.dts| - 1], p.nominal, x.calm)
    ensures |x.trajectory| == |x.signals| == |x.dts| == |rejections|
    ensures forall k :: 0 <= k < |x.dts| ==> x.dts[k] > 0.0 && rejections[k] <= 12
    ensures forall k :: 0 <= k < |x.trajectory| ==> IsState(x.trajectory[k])
    ensures p.checkStates ==>
      forall k :: 0 <= k < |x.trajectory| ==> AcceptsTrajectoryState(p.setting.sqrt, x.trajectory[k])
  {
    hide Trail, IsState, AcceptsTrajectoryState;
    TrailFacts(p.setting.sqrt, p.checkStates, x.dts, x.trajectory, x.signals, rejections);
  }

  lemma HalvedStart(currentDt: real, nominal: real, dtMin: real)
    requires currentDt <= nominal
    ensures Halved(currentDt, nominal, dtMin, 0)
  {
    assert Pow2Real(0) == 1.0;
  }

  lemma SumNone()
    ensures SumReal([]) == 0.0
  {}

  lemma SumOne(x: real)
    ensures SumReal([x]) == x
  {
    assert [x][..0] == [];
  }

  lemma StateSquare(m: Mat)
    requires IsState(m)
    ensures m.r == m.c
  {}

  // ---------- one conditional trajectory ----------

  datatype SmeConfig = SmeConfig(numTimeSteps: nat, durationNs: real, eta: real, ops: seq<CollapseOperator>,
                                 projection: bool, adaptiveTolerance: real, positivityTolerance: real,
                                 ensembleSize: nat, storeTrajectory: bool, storeRecord: bool)
  {
    predicate Valid() {
      numTimeSteps > 0 && durationNs > 0.0 && 0.0 <= eta <= 1.0 && adaptiveTolerance > 0.0 &&
      positivityTolerance >= 0.0 && ensembleSize > 0 && forall k :: 0 <= k < |ops| ==> ops[k].rate >= 0.0
    }

    function DtSeconds(): real
      requires numTimeSteps > 0
    {
      (durationNs / 1_000_000_000.0) / numTimeSteps as real
    }
  }

  function EffectiveOperator(sqrt: real -> real, ops: seq<CollapseOperator>, op: Option<Mat>): Result<Mat> {
    match op
    case Some(m) => Ok(m)
    case None =>
      if ops == [] then Err("measurement_operator is required when collapse_ops is empty")
      else Ok(Scale(Real(sqrt(ops[0].rate)), ops[0].matrix))
  }

  const ENSEMBLE_ATOL := 1.0 / 10_000_000_000.0

  function ValidatedInitialState(sqrt: real -> real, rho: Mat): Result<Mat> {
    match Normalized(rho)
    case Err(e) => Err(e)
    case Ok(m) =>
      if NonHermitianResidue(sqrt, m) > ENSEMBLE_ATOL || TraceDeviation(sqrt, m) > ENSEMBLE_ATOL ||
         HasPositivityViolation(sqrt, m, ENSEMBLE_ATOL) then Err("ensemble_density_matrix")
      else Ok(m)
  }

  datatype SmeOutcome = SmeOutcome(finalDensityMatrix: Mat, dts: seq<real>, trajectory: seq<Mat>, record: seq<real>,
                                   purities: seq<real>, fidelities: seq<real>, maxTrace: real, maxResidue: real,
                                   violations: nat, reducedToLindblad: bool)

  // The step sizes of a run cover every nominal slice up to TIME_EPSILON.
  ghost predicate Covers(dts: seq<real>, slices: nat, nominal: real) {
    slices as real * (nominal - TIME_EPSILON) <= SumReal(dts) <= slices as real * nominal &&
    forall k :: 0 <= k < |dts| ==> dts[k] > 0.0
  }

  lemma CoversMore(dts: seq<real>, more: seq<real>, slices: nat, nominal: real)
    requires Covers(dts, slices, nominal) && 0.0 <= nominal - SumReal(more) <= TIME_EPSILON
    requires forall k :: 0 <= k < |more| ==> more[k] > 0.0
    ensures Covers(dts + more, slices + 1, nominal)
  {
    hide SumReal;
    SumRealAppend(dts, more);
    NextMultiple(slices, nominal);
    NextMultiple(slices, nominal - TIME_EPSILON);
    var low, high := slices as real * (nominal - TIME_EPSILON), slices as real * nominal;
    var nextLow, nextHigh := (slices + 1) as real * (nominal - TIME_EPSILON), (slices + 1) as real * nominal;
    assert nextLow == low + (nominal - TIME_EPSILON) && nextHigh == high + nominal;
    assert nextLow <= SumReal(dts) + SumReal(more) <= nextHigh;
    forall k | 0 <= k < |dts + more| ensures (dts + more)[k] > 0.0 {
      if k >= |dts| { assert (dts + more)[k] == more[k - |dts|]; }
    }
  }

  lemma NextMultiple(k: nat, x: real)
    ensures (k + 1) as real * x == k as real * x + x
  {}

  // ---------- the slices of a run ----------

  function AllDts(slices: seq<SliceState>): seq<real> {
    if slices == [] then [] else AllDts(slices[..|slices| - 1]) + slices[|slices| - 1].dts
  }

  function AllStates(slices: seq<SliceState>): seq<Mat> {
    if slices == [] then [] else AllStates(slices[..|slices| - 1]) + slices[|slices| - 1].trajectory
  }

  function AllSignals(slices: seq<SliceState>): seq<real> {
    if slices == [] then [] else AllSignals(slices[..|slices| - 1]) + slices[|slices| - 1].signals
  }

  function AllViolations(slices: seq<SliceState>): nat {
    if slices == [] then 0 else AllViolations(slices[..|slices| - 1]) + slices[|slices| - 1].violations
  }

  // What the slices of one run share
  datatype RunInputs = RunInputs(setting: Setting, noise: (nat, real) -> real, nominal: real, checkStates: bool,
                                 target: Option<Mat>, storeTrajectory: bool, storeRecord: bool)
  {
    function Slice(h: Mat): SliceInputs {
      SliceInputs(setting, h, noise, nominal, nominal / MIN_DT_FACTOR as real, checkStates)
    }

    function Floor(): real {
      MinReal(nominal / MIN_DT_FACTOR as real, TIME_EPSILON)
    }
  }

  // Slice k starts where slice k - 1 ended: same density matrix, step size and position in the noise.
  function StartOf(rho: Mat, nominal: real, slices: seq<SliceState>, k: nat): SliceState
    requires k <= |slices|
  {
    if k == 0 then SliceStart(rho, nominal, nominal, 0)
    else SliceStart(slices[k - 1].rho, nominal, slices[k - 1].currentDt, slices[k - 1].draws)
  }

  ghost predicate SliceRuns(p: RunInputs, hs: seq<Mat>, rho: Mat, slices: seq<SliceState>, moves: seq<nat>, k: nat)
    requires k < |slices| == |moves| == |hs|
  {
    SliceRun(p.Slice(hs[k]), StartOf(rho, p.nominal, slices, k), moves[k]) == Ok(slices[k]) &&
    slices[k].remaining <= TIME_EPSILON
  }

  // One slice per Hamiltonian, forming one uninterrupted run of the loop from rho
  ghost predicate Chain(p: RunInputs, hs: seq<Mat>, rho: Mat, slices: seq<SliceState>, moves: seq<nat>) {
    |slices| == |moves| == |hs| && forall k :: 0 <= k < |slices| ==> SliceRuns(p, hs, rho, slices, moves, k)
  }

  lemma ChainMore(p: RunInputs, hs: seq<Mat>, rho: Mat, slices: seq<SliceState>, moves: seq<nat>, h: Mat,
                  last: SliceState, n: nat)
    requires Chain(p, hs, rho, slices, moves) && last.remaining <= TIME_EPSILON
    requires SliceRun(p.Slice(h), StartOf(rho, p.nominal, slices, |slices|), n) == Ok(last)
    ensures Chain(p, hs + [h], rho, slices + [last], moves + [n])
  {
    hide SliceRun;
    assert (slices + [last])[..|slices|] == slices;
    forall k | 0 <= k <= |slices| ensures SliceRuns(p, hs + [h], rho, slices + [last], moves + [n], k) {
      assert k < |slices| ==> SliceRuns(p, hs, rho, slices, moves, k);
    }
  }

  // What a run without a Lindblad reduction reports about its slices
  predicate Reports(p: RunInputs, o: SmeOutcome, rho: Mat, slices: seq<SliceState>) {
    && o.dts == AllDts(slices) && o.violations == AllViolations(slices) && !o.reducedToLindblad
    && o.record == (if p.storeRecord then AllSignals(slices) else [])
    && o.trajectory == (if p.storeTrajectory then [rho] + AllStates(slices) else [])
    && o.purities == Purities([rho] + AllStates(slices))
    && o.fidelities == Fidelities(p.target, [rho] + AllStates(slices))
    && o.maxTrace == 0.0 && o.maxResidue == 0.0
  }

  lemma HistoriesMore(target: Option<Mat>, rho: Mat, ms: seq<Mat>, more: seq<Mat>)
    ensures Purities([rho] + (ms + more)) == Purities([rho] + ms) + Purities(more)
    ensures Fidelities(target, [rho] + (ms + more)) == Fidelities(target, [rho] + ms) + Fidelities(target, more)
  {
    hide Purity, Overlap;
    assert [rho] + (ms + more) == ([rho] + ms) + more;
  }

  lemma ReportsMore(p: RunInputs, o: SmeOutcome, rho: Mat, slices: seq<SliceState>, x: SliceState)
    requires Reports(p, o, rho, slices) && x.maxTrace == 0.0 && x.maxResidue == 0.0
    ensures Reports(p, SmeOutcome(x.rho, o.dts + x.dts,
                                  if p.storeTrajectory then o.trajectory + x.trajectory else o.trajectory,
                                  if p.storeRecord then o.record + x.signals else o.record,
                                  o.purities + Purities(x.trajectory),
                                  o.fidelities + Fidelities(p.target, x.trajectory),
                                  MaxReal(o.maxTrace, x.maxTrace), MaxReal(o.maxResidue, x.maxResidue),
                                  o.violations + x.violations, false), rho, slices + [x])
  {
    hide Purities, Fidelities, AllDts, AllStates, AllSignals, AllViolations;
    AllMore(slices, x);
    Reassociate(rho, AllStates(slices), x.trajectory);
    HistoriesMore(p.target, rho, AllStates(slices), x.trajectory);
  }

  lemma AllMore(slices: seq<SliceState>, x: SliceState)
    ensures AllDts(slices + [x]) == AllDts(slices) + x.dts
    ensures AllStates(slices + [x]) == AllStates(slices) + x.trajectory
    ensures AllSignals(slices + [x]) == AllSignals(slices) + x.signals
    ensures AllViolations(slices + [x]) == AllViolations(slices) + x.violations
  {
    assert (slices + [x])[..|slices|] == slices;
  }

  lemma Reassociate(rho: Mat, ms: seq<Mat>, more: seq<Mat>)
    ensures [rho] + (ms + more) == ([rho] + ms) + more
  {}

  // Between two slices
  datatype RunState = RunState(outcome: SmeOutcome, currentDt: real, draws: nat)

  function RunStart(p: RunInputs, rho: Mat): RunState {
    RunState(SmeOutcome(rho, [], if p.storeTrajectory then [rho] else [], [], Purities([rho]),
                        Fidelities(p.target, [rho]), 0.0, 0.0, 0, false), p.nominal, 0)
  }

  ghost predicate Progress(p: RunInputs, hs: seq<Mat>, rho: Mat, slices: seq<SliceState>, moves: seq<nat>,
                           x: RunState) {
    var o := x.outcome;
    && Chain(p, hs, rho, slices, moves)
    && StartOf(rho, p.nominal, slices, |slices|) == SliceStart(o.finalDensityMatrix, p.nominal, x.currentDt, x.draws)
    && Reports(p, o, rho, slices)
    && Covers(o.dts, |hs|, p.nominal)
    && p.Floor() <= x.currentDt <= p.nominal
    && IsState(o.finalDensityMatrix) && o.finalDensityMatrix.r == rho.r
  }

  lemma ProgressStarts(p: RunInputs, rho: Mat)
    requires p.nominal > 0.0 && IsState(rho)
    ensures Progress(p, [], rho, [], [], RunStart(p, rho))
  {
    hide IsState;
  }

  lemma ProgressEnds(p: RunInputs, hs: seq<Mat>, rho: Mat, slices: seq<SliceState>, moves: seq<nat>, x: RunState)
    requires Progress(p, hs, rho, slices, moves, x)
    ensures Chain(p, hs, rho, slices, moves)
    ensures Reports(p, x.outcome, rho, slices)
    ensures Covers(x.outcome.dts, |hs|, p.nominal)
    ensures x.outcome.finalDensityMatrix == StartOf(rho, p.nominal, slices, |slices|).rho
    ensures var m := x.outcome.finalDensityMatrix; IsState(m) && m.r == m.c == rho.r
  {
    hide Chain, Hermitian, Trace;
    StateSquare(x.outcome.finalDensityMatrix);
  }

  // One slice and its bookkeeping
  method AdvanceSlice(p: RunInputs, h: Mat, x: RunState, ghost hs: seq<Mat>, ghost rho0: Mat,
                      ghost slices: seq<SliceState>, ghost moves: seq<nat>)
    returns (r: Result<RunState>, ghost last: SliceState, ghost n: nat)
    requires rho0.r == h.r == h.c && p.setting.Fits(rho0.r) && Hermitian(h) && p.nominal > 0.0
    requires Progress(p, hs, rho0, slices, moves, x)
    ensures r.Ok? ==> Progress(p, hs + [h], rho0, slices + [last], moves + [n], r.value)
    ensures rho0.r == 2 && (!p.checkStates || ProjectsEnough(p.setting)) ==> r.Ok?
  {
    hide IsState, Hermitian, SliceRun, Chain, AllDts, AllStates, AllSignals, AllViolations, AcceptsTrajectoryState,
      Covers, Compatible, ProjectsEnough, Purities, Fidelities, LongSteps, Reports;
    var o := x.outcome;
    StateSquare(o.finalDensityMatrix);
    var slice, _, m, y := IntegrateNominalSlice(p.setting, o.finalDensityMatrix, h, p.noise, x.draws, p.nominal,
                                                x.currentDt, p.nominal / MIN_DT_FACTOR as real, p.checkStates,
                                                p.Floor());
    last, n := y, m;
    if slice.Err? { return Err(slice.reason), last, n; }
    var s := slice.value;
    CoversMore(o.dts, s.dts, |hs|, p.nominal);
    ChainMore(p, hs, rho0, slices, moves, h, last, n);
    ReportsMore(p, o, rho0, slices, last);
    var trajectory := if p.storeTrajectory then o.trajectory + s.trajectory else o.trajectory;
    var record := if p.storeRecord then o.record + s.signals else o.record;
    r := Ok(RunState(SmeOutcome(s.rho, o.dts + s.dts, trajectory, record, o.purities + Purities(s.trajectory),
                                o.fidelities + Fidelities(p.target, s.trajectory), MaxReal(o.maxTrace, s.maxTrace),
                                MaxReal(o.maxResidue, s.maxResidue), o.violations + s.violations, false),
                     s.currentDt, s.draws));
  }

  // The setting the configuration stands for, once the measurement operator is known
  function SettingOf(sqrt: real -> real, c: Mat, config: SmeConfig): Setting {
    Setting(sqrt, config.ops, c, config.eta, config.projection, config.adaptiveTolerance, config.positivityTolerance)
  }

  predicate AllSquare(ops: seq<CollapseOperator>) {
    forall k :: 0 <= k < |ops| ==> ops[k].matrix.r == ops[k].matrix.c
  }

  // Every condition that is checked before the first slice; only the Lindblad run rejects non-square operators.
  ghost predicate Starts(sqrt: real -> real, rho: Mat, hs: seq<Mat>, op: Option<Mat>, config: SmeConfig) {
    && config.Valid() && |hs| == config.numTimeSteps
    && (config.eta == 0.0 ==> AllSquare(config.ops))
    && (config.eta != 0.0 ==> EffectiveOperator(sqrt, config.ops, op).Ok? && ValidatedInitialState(sqrt, rho).Ok?)
  }

  // What a run without measurement reports: the Lindblad states, equal steps and a silent record
  ghost predicate Reduced(o: SmeOutcome, rho: Mat, hs: seq<Mat>, target: Option<Mat>, config: SmeConfig)
    requires rho.r == rho.c && Compatible(config.ops, rho.r) && |hs| == config.numTimeSteps > 0
    requires forall t :: 0 <= t < |hs| ==> hs[t].r == hs[t].c == rho.r
  {
    && o.finalDensityMatrix == Evolve(rho, hs, config.ops, config.DtSeconds(), |hs|)
    && o.dts == seq(|hs|, _ => config.DtSeconds())
    && o.record == (if config.storeRecord then seq(|hs|, _ => 0.0) else [])
    && |o.trajectory| == (if config.storeTrajectory then |hs| + 1 else 0)
    && (forall k :: 0 <= k < |o.trajectory| ==> o.trajectory[k] == Evolve(rho, hs, config.ops, config.DtSeconds(), k))
    && o.purities == Purities(o.trajectory) && o.fidelities == Fidelities(target, o.trajectory)
    && o.maxTrace == 0.0 && o.maxResidue == 0.0 && o.violations == 0 && o.reducedToLindblad
  }

  method SolveZeroEfficiency(initialRho: Mat, hs: seq<Mat>, target: Option<Mat>, config: SmeConfig)
    returns (r: Result<SmeOutcome>)
    requires initialRho.r == initialRho.c && Compatible(config.ops, initialRho.r)
    requires config.Valid() && |hs| == config.numTimeSteps
    requires forall t :: 0 <= t < |hs| ==> hs[t].r == hs[t].c == initialRho.r
    ensures r.Ok? <==> AllSquare(config.ops)
    ensures r.Ok? ==> r.value.reducedToLindblad && Reduced(r.value, initialRho, hs, target, config)
  {
    hide Evolve, Trace, Compatible, Purities, Fidelities;
    var lindblad := LindbladConfig(config.numTimeSteps, config.durationNs, config.ops, config.storeTrajectory);
    var l := SolveLindblad(initialRho, hs, lindblad);
    if l.Err? { return Err(l.reason); }
    var dts := seq(|hs|, _ => config.DtSeconds());
    var record := if config.storeRecord then seq(|hs|, _ => 0.0) else [];
    r := Ok(SmeOutcome(l.value.finalDensityMatrix, dts, l.value.trajectory, record, Purities(l.value.trajectory),
                       Fidelities(target, l.value.trajectory), 0.0, 0.0, 0, true));
  }

  function InputsOf(s: Setting, target: Option<Mat>, config: SmeConfig, noise: (nat, real) -> real): RunInputs
    requires config.numTimeSteps > 0
  {
    RunInputs(s, noise, config.DtSeconds(), true, target, config.storeTrajectory, config.storeRecord)
  }

  // The slice loop: one adaptive slice per Hamiltonian
  method RunSlices(p: RunInputs, rho: Mat, hs: seq<Mat>)
    returns (r: Result<SmeOutcome>, ghost slices: seq<SliceState>, ghost moves: seq<nat>)
    requires rho.r == rho.c && p.setting.Fits(rho.r) && p.nominal > 0.0
    requires forall t :: 0 <= t < |hs| ==> hs[t].r == hs[t].c == rho.r && Hermitian(hs[t])
    requires IsState(rho)
    ensures r.Ok? ==> Chain(p, hs, rho, slices, moves)
    ensures r.Ok? ==> Reports(p, r.value, rho, slices)
    ensures r.Ok? ==> Covers(r.value.dts, |hs|, p.nominal)
    ensures rho.r == 2 && (!p.checkStates || ProjectsEnough(p.setting)) ==> r.Ok?
    ensures r.Ok? ==> IsState(r.value.finalDensityMatrix)
  {
    hide IsState, Hermitian, Chain, Reports, Covers, Compatible, ProjectsEnough, Progress;
    slices, moves := [], [];
    var x := RunStart(p, rho);
    ProgressStarts(p, rho);
    for k := 0 to |hs|
      invariant Progress(p, hs[..k], rho, slices, moves, x)
    {
      var next, last, n := AdvanceSlice(p, hs[k], x, hs[..k], rho, slices, moves);
      if next.Err? { return Err(next.reason), slices, moves; }
      assert hs[..k + 1] == hs[..k] + [hs[k]];
      x, slices, moves := next.value, slices + [last], moves + [n];
    }
    assert hs[..|hs|] == hs;
    ProgressEnds(p, hs, rho, slices, moves, x);
    r := Ok(x.outcome);
  }

  // Without measurement the run is the Lindblad run; otherwise it is the chain of adaptive slices, it ends in a
  // Hermitian unit-trace matrix and its steps cover the grid. With sufficient projection it fails only on its inputs.
  method SolveSmeTrajectory(sqrt: real -> real, initialRho: Mat, hs: seq<Mat>, op: Option<Mat>, target: Option<Mat>,
                            config: SmeConfig, noise: (nat, real) -> real)
    returns (r: Result<SmeOutcome>, ghost slices: seq<SliceState>, ghost moves: seq<nat>)
    requires IsSqrt(sqrt) && initialRho.r == initialRho.c > 0 && Compatible(config.ops, initialRho.r)
    requires forall t :: 0 <= t < |hs| ==> hs[t].r == hs[t].c == initialRho.r && Hermitian(hs[t])
    requires op.Some? ==> op.value.r == op.value.c == initialRho.r
    requires op.None? && config.ops != [] ==> config.ops[0].matrix.r == initialRho.r
    ensures r.Ok? ==> Starts(sqrt, initialRho, hs, op, config)
    ensures r.Ok? ==> r.value.reducedToLindblad == (config.eta == 0.0)
    ensures r.Ok? && config.eta == 0.0 ==> Reduced(r.value, initialRho, hs, target, config)
    ensures r.Ok? && config.eta != 0.0 ==> Covers(r.value.dts, |hs|, config.DtSeconds())
    ensures r.Ok? && config.eta != 0.0 ==>
      var p := InputsOf(SettingOf(sqrt, EffectiveOperator(sqrt, config.ops, op).value, config), target, config, noise);
      Reports(p, r.value, ValidatedInitialState(sqrt, initialRho).value, slices) &&
      Chain(p, hs, ValidatedInitialState(sqrt, initialRho).value, slices, moves)
    ensures Starts(sqrt, initialRho, hs, op, config) && NeverFails(initialRho.r, config) ==> r.Ok?
    ensures r.Ok? && config.eta != 0.0 ==> IsState(r.value.finalDensityMatrix)
  {
    hide IsState, Hermitian, Reduced, EffectiveOperator, ValidatedInitialState, Chain, Reports, Covers, Compatible;
    slices, moves := [], [];
    if !config.Valid() { return Err("invalid configuration"), slices, moves; }
    if |hs| != config.numTimeSteps { return Err("wrong number of Hamiltonians"), slices, moves; }
    if config.eta == 0.0 {
      r := SolveZeroEfficiency(initialRho, hs, target, config);
      return r, slices, moves;
    }
    var c := EffectiveOperator(sqrt, config.ops, op);
    if c.Err? { return Err(c.reason), slices, moves; }
    EffectiveOperatorSquare(sqrt, config.ops, op, initialRho.r);
    var start := ValidatedInitialState(sqrt, initialRho);
    if start.Err? { return Err(start.reason), slices, moves; }
    InitialStateIsState(sqrt, initialRho);
    var p := InputsOf(SettingOf(sqrt, c.value, config), target, config, noise);
    r, slices, moves := RunSlices(p, start.value, hs);
    if r.Ok? { ReportsKind(p, r.value, start.value, slices); }
  }

  // Configurations under which a started run always finishes
  predicate NeverFails(d: nat, config: SmeConfig) {
    config.eta == 0.0 || (d == 2 && config.projection && config.positivityTolerance <= TRAJECTORY_ATOL)
  }

  lemma ReportsKind(p: RunInputs, o: SmeOutcome, rho: Mat, slices: seq<SliceState>)
    ensures Reports(p, o, rho, slices) ==> !o.reducedToLindblad
  {}

  lemma EffectiveOperatorSquare(sqrt: real -> real, ops: seq<CollapseOperator>, op: Option<Mat>, d: nat)
    requires Compatible(ops, d) && EffectiveOperator(sqrt, ops, op).Ok?
    requires op.Some? ==> op.value.r == op.value.c == d
    requires op.None? && ops != [] ==> ops[0].matrix.r == d
    ensures var c := EffectiveOperator(sqrt, ops, op).value; c.r == c.c == d
  {}

  lemma InitialStateIsState(sqrt: real -> real, rho: Mat)
    requires rho.r == rho.c
    ensures ValidatedInitialState(sqrt, rho).Ok? ==> IsState(ValidatedInitialState(sqrt, rho).value)
    ensures ValidatedInitialState(sqrt, rho).Ok? ==>
      ValidatedInitialState(sqrt, rho).value.r == ValidatedInitialState(sqrt, rho).value.c == rho.r
  {
    hide IsState, Symmetrize, Renormalize, HasPositivityViolation, NonHermitianResidue, TraceDeviation;
    SymmetrizeHermitian(rho);
    if Normalized(rho).Ok? { RenormalizeState(Symmetrize(rho)); }
  }
}
