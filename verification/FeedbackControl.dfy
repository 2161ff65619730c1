// A whole feedback-controlled trajectory: core/src/qubitos/feedback/controller.py,
// core/src/qubitos/feedback/lyapunov.py.
module FeedbackControl {
  import opened Wrappers
  import opened ComplexNumbers
  import opened Matrices
  import opened MatrixExponential
  import opened Lindblad
  import opened Measurement
  import opened Sme
  import opened Feedback
  import T = Temporal
  import PulseSequences

  // ---------- the drive stays Hermitian ----------

  lemma PauliEntries(axis: ControlAxis, i: int, j: int)
    requires 0 <= i < 2 && 0 <= j < 2
    ensures At(AxisPauli(axis), i, j) == Conj(At(AxisPauli(axis), j, i))
  {
    hide Conj;
    ConjOf(0.0, 0.0);
    ConjOf(1.0, 0.0);
    ConjOf(-1.0, 0.0);
    ConjOf(0.0, 1.0);
    ConjOf(0.0, -1.0);
    ConjZero();
    assert Conj(ONE) == ONE;
    assert Conj(Real(-1.0)) == Real(-1.0);
    assert Conj(IMAG) == Complex(0.0, -1.0);
  }

  lemma PauliHermitian(axis: ControlAxis)
    ensures Hermitian(AxisPauli(axis))
  {
    hide AxisPauli, Dagger, Conj, At;
    var m := AxisPauli(axis);
    forall i, j | 0 <= i < 2 && 0 <= j < 2 ensures At(Dagger(m), i, j) == At(m, i, j) {
      DaggerAt(m, i, j);
      PauliEntries(axis, i, j);
    }
    Ext(Dagger(m), m);
  }

  lemma HalfHermitian(m: Mat)
    requires Hermitian(m)
    ensures Hermitian(Scale(HALF, m))
  {
    assert HALF == Real(0.5);
    HermitianScale(0.5, m);
  }

  lemma {:induction false} ControlledHermitian(h: Mat, axes: seq<ControlAxis>, delta: seq<real>)
    requires h.r == h.c == 2 && |delta| == |axes| && Hermitian(h)
    ensures Hermitian(Controlled(h, axes, delta))
  {
    hide Hermitian, Plus, Scale, AxisPauli, Real;
    if axes != [] {
      var n := |axes| - 1;
      ControlledHermitian(h, axes[..n], delta[..n]);
      PauliHermitian(axes[n]);
      HalfHermitian(AxisPauli(axes[n]));
      HermitianScale(delta[n], Scale(HALF, AxisPauli(axes[n])));
      HermitianPlus(Controlled(h, axes[..n], delta[..n]), Scale(Real(delta[n]), Scale(HALF, AxisPauli(axes[n]))));
    }
  }

  method BuildEffective(h: Mat, axes: seq<ControlAxis>, applied: seq<real>) returns (eff: Mat)
    requires h.r == h.c == 2 && |applied| == |axes|
    ensures eff == Controlled(h, axes, applied)
  {
    hide Plus, Scale, AxisPauli, Real;
    eff := h;
    for k := 0 to |axes|
      invariant eff == Controlled(h, axes[..k], applied[..k])
    {
      assert axes[..k + 1][..k] == axes[..k] && applied[..k + 1][..k] == applied[..k];
      eff := Plus(eff, Scale(Real(applied[k]), Scale(HALF, AxisPauli(axes[k]))));
    }
    assert axes[..|axes|] == axes && applied[..|axes|] == applied;
  }

  // ---------- the latency charged to the decoherence budget ----------

  function TimesAfter(times: T.QubitTimes, q: nat, ns: real, k: nat): T.QubitTimes {
    if k == 0 then times else T.AddTime(TimesAfter(times, q, ns, k - 1), q, ns)
  }

  lemma {:induction false} TimesAfterTotal(times: T.QubitTimes, q: nat, ns: real, k: nat)
    ensures T.TimeOf(TimesAfter(times, q, ns, k), q) == T.TimeOf(times, q) + k as real * ns
  {
    if k > 0 {
      TimesAfterTotal(times, q, ns, k - 1);
      NextMultiple(k - 1, ns);
    }
  }

  method AccumulateFeedbackDelay(budget: PulseSequences.DecoherenceBudget, q: nat, delayNs: real) returns (ok: bool)
    requires budget.limits.block > 0.0
    modifies budget
    ensures ok <==> delayNs <= 0.0 || T.CanAdd(budget.limits, old(budget.qubitTimeNs), q, delayNs)
    ensures budget.qubitTimeNs ==
            if ok && delayNs > 0.0 then T.AddTime(old(budget.qubitTimeNs), q, delayNs) else old(budget.qubitTimeNs)
    ensures ok && delayNs > 0.0 ==> T.T2Fraction(budget.limits, budget.qubitTimeNs, q) < budget.limits.block
  {
    if delayNs <= 0.0 { return true; }
    T.CanAddExact(budget.limits, budget.qubitTimeNs, q, delayNs);
    if !T.CanAdd(budget.limits, budget.qubitTimeNs, q, delayNs) { return false; }
    budget.AddQubitTime(q, delayNs);
    return true;
  }

  // ---------- one run ----------

  function LyapunovValue(target: Mat, rho: Mat): real {
    1.0 - Overlap(target, rho)
  }

  const LYAPUNOV_ATOL := 1.0 / 100_000_000.0

  predicate LyapunovInRange(v: real) {
    -LYAPUNOV_ATOL <= v <= 1.0 + LYAPUNOV_ATOL
  }

  // Fixed inputs of one run
  datatype Plan = Plan(setting: Setting, baselines: seq<Mat>, target: Mat, config: FeedbackConfig, delayNs: real,
                       nominal: real, noise: (nat, real) -> real, fidelityTarget: Option<Mat>,
                       storeTrajectory: bool, storeRecord: bool)
  {
    // The feedback loop does not validate the states it accepts.
    function Inputs(): RunInputs {
      RunInputs(setting, noise, nominal, false, fidelityTarget, storeTrajectory, storeRecord)
    }

    ghost predicate Valid() {
      && setting.Fits(2) && target.r == target.c == 2 && config.Valid() && nominal > 0.0
      && forall k :: 0 <= k < |baselines| ==> baselines[k].r == baselines[k].c == 2 && Hermitian(baselines[k])
    }
  }

  // What one slice does with its starting state: the sampled correction, and the recorded value of V
  datatype Rule = Rule(law: Mat -> seq<real>, value: Mat -> real, width: nat, depth: nat)

  function LawOf(target: Mat, config: FeedbackConfig): Mat -> seq<real>
    requires config.Valid()
  {
    (m: Mat) => Corrections(Projections(m, target), config)
  }

  function ValueOf(target: Mat): Mat -> real {
    (m: Mat) => LyapunovValue(target, m)
  }

  function RuleOf(p: Plan, depth: nat): Rule
    requires p.config.Valid()
  {
    Rule(LawOf(p.target, p.config), ValueOf(p.target), |p.config.axes|, depth)
  }

  function ZeroVector(n: nat): seq<real> {
    seq(n, _ => 0.0)
  }

  function SumSquares(xs: seq<real>): real {
    if xs == [] then 0.0 else SumSquares(xs[..|xs| - 1]) + xs[|xs| - 1] * xs[|xs| - 1]
  }

  function Energy(samples: seq<seq<real>>, dt: real): real {
    if samples == [] then 0.0
    else Energy(samples[..|samples| - 1], dt) + SumSquares(samples[|samples| - 1]) * dt
  }

  datatype FeedbackOutcome = FeedbackOutcome(sme: SmeOutcome, corrections: seq<seq<real>>, lyapunov: seq<real>,
                                             energy: real, consumedNs: real)

  // Slice k starts in a state; what is applied is the correction sampled depth slices before.
  ghost predicate SliceHolds(r: Rule, samples: seq<seq<real>>, k: nat, start: Mat, correction: seq<real>, v: real)
    requires k < |samples|
  {
    && IsState(start) && start.r == 2
    && v == r.value(start) && LyapunovInRange(v)
    && samples[k] == r.law(start) && |samples[k]| == r.width
    && correction == Delayed(samples, r.depth, k, ZeroVector(r.width))
  }

  ghost predicate SlicesOk(r: Rule, starts: seq<Mat>, samples: seq<seq<real>>, corrections: seq<seq<real>>,
                           lyapunov: seq<real>) {
    |starts| == |samples| == |corrections| == |lyapunov| &&
    forall k :: 0 <= k < |samples| ==> SliceHolds(r, samples, k, starts[k], corrections[k], lyapunov[k])
  }

  lemma SliceStable(r: Rule, samples: seq<seq<real>>, sample: seq<real>, k: nat, start: Mat, correction: seq<real>,
                    v: real)
    requires k < |samples| && SliceHolds(r, samples, k, start, correction, v)
    ensures SliceHolds(r, samples + [sample], k, start, correction, v)
  {
    hide LyapunovInRange, IsState;
  }

  lemma SlicesMore(r: Rule, starts: seq<Mat>, samples: seq<seq<real>>, corrections: seq<seq<real>>, lyapunov: seq<real>,
                   start: Mat, sample: seq<real>, applied: seq<real>, v: real)
    requires SlicesOk(r, starts, samples, corrections, lyapunov)
    requires SliceHolds(r, samples + [sample], |samples|, start, applied, v)
    ensures SlicesOk(r, starts + [start], samples + [sample], corrections + [applied], lyapunov + [v])
    ensures |applied| == r.width
  {
    hide SliceHolds;
    forall k | 0 <= k < |samples| + 1
      ensures SliceHolds(r, samples + [sample], k, (starts + [start])[k], (corrections + [applied])[k],
                         (lyapunov + [v])[k])
    {
      if k < |samples| { SliceStable(r, samples, sample, k, starts[k], corrections[k], lyapunov[k]); }
    }
    AppliedWidth(r, starts + [start], samples + [sample], corrections + [applied], lyapunov + [v], |samples|);
  }

  lemma AppliedWidth(r: Rule, starts: seq<Mat>, samples: seq<seq<real>>, corrections: seq<seq<real>>,
                     lyapunov: seq<real>, k: nat)
    requires SlicesOk(r, starts, samples, corrections, lyapunov) && k < |samples|
    ensures |corrections[k]| == r.width
  {
    hide LyapunovInRange, IsState;
    assert SliceHolds(r, samples, k, starts[k], corrections[k], lyapunov[k]);
    if k >= r.depth {
      var e := k - r.depth;
      assert SliceHolds(r, samples, e, starts[e], corrections[e], lyapunov[e]);
    }
  }

  lemma LawAt(target: Mat, config: FeedbackConfig, m: Mat)
    requires config.Valid()
    ensures (hide Projections, Corrections; LawOf(target, config)(m) == Corrections(Projections(m, target), config))
  {
    hide Projection, RawCorrection, Correction;
  }

  // With no latency and non-negative gains the drive applied in a slice never raises the rate of V at its start.
  lemma UndelayedDescends(p: Plan, h: Mat, samples: seq<seq<real>>, k: nat, start: Mat, correction: seq<real>, v: real)
    requires p.config.Valid() && p.config.full.None?
    requires forall i :: 0 <= i < |p.config.gains| ==> p.config.gains[i] >= 0.0
    requires p.target.r == p.target.c == h.r == h.c == start.c == 2 && Compatible(p.setting.ops, 2)
    requires (hide IsState, LawOf, ValueOf, LyapunovInRange, Delayed;
      k < |samples| && SliceHolds(RuleOf(p, 0), samples, k, start, correction, v))
    ensures start.r == 2 && |correction| == |p.config.axes|
    ensures (hide LyapunovRate, Controlled, IsState, LawOf, ValueOf, LyapunovInRange;
             LyapunovRate(p.target, Controlled(h, p.config.axes, correction), p.setting.ops, start)
             <= LyapunovRate(p.target, h, p.setting.ops, start))
  {
    hide LyapunovRate, Projections, Corrections, Controlled, LyapunovInRange, IsState, ValueOf, Compatible, LawOf;
    LawAt(p.target, p.config, start);
    FeedbackDescends(p.target, h, p.setting.ops, start, p.config);
  }

  method Sample(p: Plan, rho: Mat) returns (correction: seq<real>)
    requires p.Valid() && rho.r == rho.c == 2
    ensures correction == LawOf(p.target, p.config)(rho) && |correction| == |p.config.axes|
  {
    hide Corrections, Projections;
    var c := FeedbackCorrection(rho, p.target, p.config);
    correction := c.value;
  }

  method ChargeDelay(budget: PulseSequences.DecoherenceBudget?, q: nat, delayNs: real) returns (ok: bool)
    requires budget != null ==> budget.limits.block > 0.0
    modifies budget
    ensures ok <==> !old(Refused(budget, q, delayNs))
    ensures budget != null && ok ==>
      budget.qubitTimeNs == TimesAfter(old(budget.qubitTimeNs), q, delayNs, if delayNs > 0.0 then 1 else 0)
    ensures budget != null && !ok ==> budget.qubitTimeNs == old(budget.qubitTimeNs)
    ensures budget != null && ok && delayNs > 0.0 ==>
      T.T2Fraction(budget.limits, budget.qubitTimeNs, q) < budget.limits.block
  {
    ok := true;
    if budget != null && delayNs > 0.0 {
      ok := AccumulateFeedbackDelay(budget, q, delayNs);
      assert TimesAfter(old(budget.qubitTimeNs), q, delayNs, 0) == old(budget.qubitTimeNs);
    }
  }

  // The Hamiltonian of a slice: the baseline plus the applied correction
  ghost predicate Drives(effective: Mat, h: Mat, axes: seq<ControlAxis>, applied: seq<real>) {
    h.r == h.c == 2 && |applied| == |axes| && effective == Controlled(h, axes, applied) && Hermitian(effective)
  }

  lemma DrivesShape(effective: Mat, h: Mat, axes: seq<ControlAxis>, applied: seq<real>)
    requires Drives(effective, h, axes, applied)
    ensures effective.r == effective.c == 2 && Hermitian(effective)
  {
    hide Controlled, Hermitian;
  }

  // Sampling, latency and drive of one slice; not ok when V is out of range
  method DriveSlice(p: Plan, h: Mat, rho: Mat, buffer: FeedbackDelayBuffer<seq<real>>, ghost starts: seq<Mat>,
                    ghost corrections: seq<seq<real>>, ghost lyapunov: seq<real>)
    returns (ok: bool, v: real, sample: seq<real>, applied: seq<real>, effective: Mat)
    requires p.Valid() && h.r == h.c == 2 && Hermitian(h)
    requires IsState(rho) && rho.r == rho.c == 2
    requires buffer.Valid()
    requires SlicesOk(RuleOf(p, buffer.depth), starts, buffer.samples, corrections, lyapunov)
    modifies buffer
    ensures ok <==> LyapunovInRange(LyapunovValue(p.target, rho))
    ensures ok ==> buffer.Valid() && buffer.samples == old(buffer.samples) + [sample]
    ensures ok ==>
      SlicesOk(RuleOf(p, buffer.depth), starts + [rho], buffer.samples, corrections + [applied], lyapunov + [v])
    ensures ok ==> Drives(effective, h, p.config.axes, applied)
  {
    hide IsState, Controlled, LyapunovInRange, Hermitian, SliceHolds, SlicesOk, Delayed, LyapunovValue, LawOf, ValueOf,
      Compatible;
    v := LyapunovValue(p.target, rho);
    ok, sample, applied, effective := LyapunovInRange(v), [], [], h;
    if !ok { return; }
    sample := Sample(p, rho);
    ghost var rule, before := RuleOf(p, buffer.depth), buffer.samples;
    SlicesLength(rule, starts, before, corrections, lyapunov);
    applied := buffer.Tick(sample, ZeroVector(|p.config.axes|));
    ValueAt(p.target, rho);
    SliceBegins(rule, before, rho, sample, applied, v);
    SlicesMore(rule, starts, before, corrections, lyapunov, rho, sample, applied, v);
    ControlledHermitian(h, p.config.axes, applied);
    effective := BuildEffective(h, p.config.axes, applied);
  }

  lemma SlicesLength(r: Rule, starts: seq<Mat>, samples: seq<seq<real>>, corrections: seq<seq<real>>,
                     lyapunov: seq<real>)
    requires (hide SliceHolds; SlicesOk(r, starts, samples, corrections, lyapunov))
    ensures |starts| == |samples| == |corrections| == |lyapunov|
  {
    hide SliceHolds;
  }

  // The finished slices of a run: starting state, sampled and applied correction, value of V, drive, and inner loop
  datatype FeedbackLog = FeedbackLog(starts: seq<Mat>, samples: seq<seq<real>>, corrections: seq<seq<real>>,
                                     lyapunov: seq<real>, drives: seq<Mat>, slices: seq<SliceState>, moves: seq<nat>)
  {
    function With(start: Mat, sample: seq<real>, applied: seq<real>, v: real, drive: Mat, slice: SliceState,
                  n: nat): FeedbackLog {
      FeedbackLog(starts + [start], samples + [sample], corrections + [applied], lyapunov + [v], drives + [drive],
                  slices + [slice], moves + [n])
    }
  }

  // Where the next slice starts
  function Current(p: Plan, rho: Mat, g: FeedbackLog): Mat {
    StartOf(rho, p.nominal, g.slices, |g.slices|).rho
  }

  // Every slice starts where the one before ended and is driven by its baseline plus the applied correction.
  ghost predicate Linked(p: Plan, rho: Mat, g: FeedbackLog) {
    && |g.drives| == |g.slices| == |g.starts| == |g.corrections| <= |p.baselines|
    && forall k :: 0 <= k < |g.drives| ==>
         && g.starts[k] == StartOf(rho, p.nominal, g.slices, k).rho
         && Drives(g.drives[k], p.baselines[k], p.config.axes, g.corrections[k])
  }

  ghost predicate Closed(p: Plan, depth: nat, rho: Mat, g: FeedbackLog) {
    && p.config.Valid() && SlicesOk(RuleOf(p, depth), g.starts, g.samples, g.corrections, g.lyapunov)
    && Linked(p, rho, g)
    && Chain(p.Inputs(), g.drives, rho, g.slices, g.moves)
  }

  // Between two slices of the loop
  ghost predicate Ready(p: Plan, depth: nat, rho: Mat, g: FeedbackLog, x: RunState) {
    && Closed(p, depth, rho, g) && Progress(p.Inputs(), g.drives, rho, g.slices, g.moves, x) && rho.r == 2
  }

  lemma LinkedMore(p: Plan, rho: Mat, g: FeedbackLog, sample: seq<real>, applied: seq<real>, v: real, drive: Mat,
                   slice: SliceState, n: nat)
    requires Linked(p, rho, g) && |g.drives| < |p.baselines|
    requires Drives(drive, p.baselines[|g.drives|], p.config.axes, applied)
    ensures Linked(p, rho, g.With(Current(p, rho, g), sample, applied, v, drive, slice, n))
  {
    hide Drives;
  }

  // The charge is refused once it would reach the block fraction.
  predicate Refused(budget: PulseSequences.DecoherenceBudget?, q: nat, delayNs: real)
    reads budget
  {
    budget != null && delayNs > 0.0 && !T.CanAdd(budget.limits, budget.qubitTimeNs, q, delayNs)
  }

  // n charges were made, every one of them fitted, and the last left the qubit below the block fraction.
  predicate Charged(limits: T.BudgetLimits, before: T.QubitTimes, after: T.QubitTimes, q: nat, ns: real, n: nat) {
    && after == TimesAfter(before, q, ns, n)
    && (forall k :: 0 <= k < n ==> T.CanAdd(limits, TimesAfter(before, q, ns, k), q, ns))
    && (n > 0 ==> T.T2Fraction(limits, after, q) < limits.block)
  }

  lemma ChargedNone(limits: T.BudgetLimits, times: T.QubitTimes, q: nat, ns: real)
    ensures Charged(limits, times, times, q, ns, 0)
  {}

  // What a finished run returns
  ghost predicate Returns(o: FeedbackOutcome, p: Plan, rho: Mat, g: FeedbackLog, charged: bool) {
    && |g.slices| == |p.baselines|
    && o.corrections == g.corrections && o.lyapunov == g.lyapunov
    && o.energy == Energy(g.samples, p.nominal)
    && o.consumedNs == (if charged then |p.baselines| as real * p.delayNs else 0.0)
    && Reports(p.Inputs(), o.sme, rho, g.slices)
    && Covers(o.sme.dts, |p.baselines|, p.nominal)
    && IsState(o.sme.finalDensityMatrix)
  }

  // Why a run stops early
  predicate Stops(p: Plan, rho: Mat, g: FeedbackLog, budget: PulseSequences.DecoherenceBudget?, q: nat)
    reads budget
  {
    |g.slices| < |p.baselines| &&
    (!LyapunovInRange(LyapunovValue(p.target, Current(p, rho, g))) || Refused(budget, q, p.delayNs))
  }

  // The log after one more slice, in the parts the loop itself keeps
  predicate Extends(g: FeedbackLog, next: FeedbackLog, sample: seq<real>, applied: seq<real>, v: real) {
    && next.samples == g.samples + [sample] && |next.slices| == |g.slices| + 1
    && next.corrections == g.corrections + [applied] && next.lyapunov == g.lyapunov + [v]
  }

  predicate ChargedOnce(limits: T.BudgetLimits, before: T.QubitTimes, after: T.QubitTimes, q: nat, ns: real,
                        made: bool) {
    && after == TimesAfter(before, q, ns, if made then 1 else 0)
    && (made ==> T.CanAdd(limits, before, q, ns) && T.T2Fraction(limits, after, q) < limits.block)
  }

  lemma ChargedMore(limits: T.BudgetLimits, before: T.QubitTimes, now: T.QubitTimes, after: T.QubitTimes, q: nat,
                    ns: real, k: nat)
    requires Charged(limits, before, now, q, ns, k)
    ensures ChargedOnce(limits, now, after, q, ns, true) ==> Charged(limits, before, after, q, ns, k + 1)
    ensures ChargedOnce(limits, now, after, q, ns, false) ==> after == now
  {
    hide T.CanAdd, T.T2Fraction;
    TimesAfterMore(before, q, ns, k);
  }

  lemma ReadyFacts(p: Plan, depth: nat, rho: Mat, g: FeedbackLog, x: RunState)
    requires Ready(p, depth, rho, g, x)
    ensures Closed(p, depth, rho, g) && |g.drives| == |g.slices|
    ensures x.outcome.finalDensityMatrix == Current(p, rho, g)
    ensures var m := x.outcome.finalDensityMatrix; IsState(m) && m.r == m.c == 2
    ensures Reports(p.Inputs(), x.outcome, rho, g.slices) && Covers(x.outcome.dts, |g.slices|, p.nominal)
  {
    hide SlicesOk, Chain, Progress, Drives, IsState, Reports, Covers, RuleOf, StartOf, Projections, Corrections;
    ProgressEnds(p.Inputs(), g.drives, rho, g.slices, g.moves, x);
  }

  lemma ReadyStarts(p: Plan, depth: nat, rho: Mat)
    requires p.config.Valid() && p.nominal > 0.0 && IsState(rho) && rho.r == 2
    ensures Ready(p, depth, rho, FeedbackLog([], [], [], [], [], [], []), RunStart(p.Inputs(), rho))
  {
    hide IsState, Progress, RuleOf;
    ProgressStarts(p.Inputs(), rho);
    assert Chain(p.Inputs(), [], rho, [], []);
  }

  // One slice: sample, delay, charge the latency, integrate under the drive
  method FeedbackSlice(p: Plan, h: Mat, x: RunState, buffer: FeedbackDelayBuffer<seq<real>>,
                       budget: PulseSequences.DecoherenceBudget?, q: nat, ghost rho: Mat, ghost g: FeedbackLog)
    returns (r: Result<RunState>, v: real, sample: seq<real>, applied: seq<real>, ghost next: FeedbackLog)
    requires p.Valid() && |g.slices| < |p.baselines| && h == p.baselines[|g.slices|]
    requires budget != null ==> budget.limits.block > 0.0
    requires buffer.Valid() && buffer.samples == g.samples && Ready(p, buffer.depth, rho, g, x)
    modifies buffer, budget
    ensures r.Ok? ==> buffer.Valid() && buffer.samples == next.samples && Ready(p, buffer.depth, rho, next, r.value)
    ensures r.Ok? ==> Extends(g, next, sample, applied, v)
    ensures budget != null ==>
      ChargedOnce(budget.limits, old(budget.qubitTimeNs), budget.qubitTimeNs, q, p.delayNs, r.Ok? && p.delayNs > 0.0)
    ensures r.Err? ==> !LyapunovInRange(LyapunovValue(p.target, Current(p, rho, g))) || Refused(budget, q, p.delayNs)
  {
    hide IsState, Controlled, LyapunovInRange, LyapunovValue, Hermitian, SlicesOk, T.T2Fraction, T.CanAdd, Compatible,
      Drives, Progress, Linked, Chain, RuleOf, Reports, StartOf, Covers;
    next := g;
    ReadyFacts(p, buffer.depth, rho, g, x);
    var now := x.outcome.finalDensityMatrix;
    var ok, effective;
    ok, v, sample, applied, effective := DriveSlice(p, h, now, buffer, g.starts, g.corrections, g.lyapunov);
    if !ok { return Err("lyapunov_value"), v, sample, applied, next; }
    DrivesShape(effective, h, p.config.axes, applied);
    ok := ChargeDelay(budget, q, p.delayNs);
    if !ok { return Err("FeedbackBudgetExceeded"), v, sample, applied, next; }
    ghost var last, n;
    r, last, n := AdvanceSlice(p.Inputs(), effective, x, g.drives, rho, g.slices, g.moves);
    LinkedMore(p, rho, g, sample, applied, v, effective, last, n);
    next := g.With(now, sample, applied, v, effective, last, n);
    ProgressEnds(p.Inputs(), next.drives, rho, next.slices, next.moves, r.value);
  }

  // The loop is closed: what drives slice k is the correction sampled depth slices before at that slice's start.
  // A run from a valid state stops early only on a value of V out of range or on a refused charge; when it
  // finishes every charge fitted and the result reports the chain of slices.
  method SolveWithFeedback(p: Plan, initialRho: Mat, budget: PulseSequences.DecoherenceBudget?, q: nat,
                           round: real -> int)
    returns (r: Result<FeedbackOutcome>, ghost start: Result<Mat>, ghost g: FeedbackLog)
    requires p.Valid() && initialRho.r == initialRho.c == 2
    requires budget != null ==> budget.limits.block > 0.0
    modifies budget
    ensures budget != null ==>
      Charged(budget.limits, old(budget.qubitTimeNs), budget.qubitTimeNs, q, p.delayNs,
              if p.delayNs > 0.0 then |g.slices| else 0)
    ensures start.Err? ==> g.slices == []
    ensures r.Ok? ==> start.Ok?
    ensures r.Err? && start.Ok? ==> Stops(p, start.value, g, budget, q)
    ensures start.Ok? ==> Closed(p, DepthOf(p.delayNs, p.nominal * 1000000000.0, round), start.value, g)
    ensures r.Ok? ==> Returns(r.value, p, start.value, g, budget != null && p.delayNs > 0.0)
    ensures start == ValidatedInitialState(p.setting.sqrt, initialRho)
  {
    hide IsState, Controlled, LyapunovInRange, LyapunovValue, Hermitian, Energy, Covers, ValidatedInitialState,
      TimesAfter, SumSquares, Compatible, Ready, Closed, Reports, DepthOf, StartOf, Refused, Charged, ChargedOnce;
    g := FeedbackLog([], [], [], [], [], [], []);
    var buffer := new FeedbackDelayBuffer<seq<real>>(p.delayNs, p.nominal * 1000000000.0, round);
    var initial := ValidatedInitialState(p.setting.sqrt, initialRho);
    start := initial;
    ghost var before := if budget == null then map[] else budget.qubitTimeNs;
    if budget != null { ChargedNone(budget.limits, before, q, p.delayNs); }
    if initial.Err? { return Err(initial.reason), start, g; }
    InitialStateIsState(p.setting.sqrt, initialRho);
    ghost var rho := initial.value;
    var x := RunStart(p.Inputs(), initial.value);
    ReadyStarts(p, buffer.depth, rho);
    EnergyNone(p.nominal);
    var corrections: seq<seq<real>>, lyapunov: seq<real>, energy, consumed := [], [], 0.0, 0.0;
    ghost var charged := budget != null && p.delayNs > 0.0;
    for k := 0 to |p.baselines|
      invariant |g.slices| == k && Ready(p, buffer.depth, rho, g, x)
      invariant corrections == g.corrections && lyapunov == g.lyapunov
      invariant buffer.Valid() && fresh(buffer) && buffer.samples == g.samples
      invariant energy == Energy(g.samples, p.nominal)
      invariant budget != null ==>
        Charged(budget.limits, before, budget.qubitTimeNs, q, p.delayNs, if charged then k else 0)
      invariant consumed == if charged then k as real * p.delayNs else 0.0
    {
      ghost var now := if budget == null then map[] else budget.qubitTimeNs;
      var next, v, sample, applied, more := FeedbackSlice(p, p.baselines[k], x, buffer, budget, q, rho, g);
      if budget != null {
        ChargedMore(budget.limits, before, now, budget.qubitTimeNs, q, p.delayNs, if charged then k else 0);
      }
      if next.Err? {
        ReadyFacts(p, buffer.depth, rho, g, x);
        return Err(next.reason), start, g;
      }
      EnergyMore(g.samples, sample, p.nominal);
      energy := energy + SumSquares(sample) * p.nominal;
      NextMultiple(k, p.delayNs);
      if budget != null && p.delayNs > 0.0 { consumed := consumed + p.delayNs; }
      g := more;
      x, lyapunov, corrections := next.value, lyapunov + [v], corrections + [applied];
    }
    ReadyFacts(p, buffer.depth, rho, g, x);
    r := Ok(FeedbackOutcome(x.outcome, corrections, lyapunov, energy, consumed));
  }

  lemma EnergyNone(dt: real)
    ensures Energy([], dt) == 0.0
  {}

  lemma EnergyMore(samples: seq<seq<real>>, sample: seq<real>, dt: real)
    ensures Energy(samples + [sample], dt) == Energy(samples, dt) + SumSquares(sample) * dt
  {
    hide SumSquares;
    assert (samples + [sample])[..|samples|] == samples;
  }

  lemma TimesAfterMore(times: T.QubitTimes, q: nat, ns: real, k: nat)
    ensures TimesAfter(TimesAfter(times, q, ns, k), q, ns, 1) == TimesAfter(times, q, ns, k + 1)
    ensures forall t: T.QubitTimes :: TimesAfter(t, q, ns, 0) == t
  {
    assert TimesAfter(TimesAfter(times, q, ns, k), q, ns, 0) == TimesAfter(times, q, ns, k);
  }

  lemma SliceBegins(r: Rule, samples: seq<seq<real>>, start: Mat, sample: seq<real>, applied: seq<real>, v: real)
    requires (hide IsState; IsState(start)) && start.r == 2 && v == r.value(start) &&
      (hide LyapunovInRange; LyapunovInRange(v))
    requires sample == r.law(start) && |sample| == r.width
    requires applied == Delayed(samples + [sample], r.depth, |samples|, ZeroVector(r.width))
    ensures (hide IsState, LyapunovInRange; SliceHolds(r, samples + [sample], |samples|, start, applied, v))
  {
    hide LyapunovInRange, IsState, Delayed;
  }

  lemma ValueAt(target: Mat, m: Mat)
    ensures ValueOf(target)(m) == LyapunovValue(target, m)
  {
    hide LyapunovValue;
  }

  // ---------- the reported feedback energy ----------

  lemma {:induction false} EnergyAppend(xs: seq<seq<real>>, ys: seq<seq<real>>, dt: real)
    ensures Energy(xs + ys, dt) == Energy(xs, dt) + Energy(ys, dt)
  {
    hide SumSquares;
    if ys == [] {
      assert xs + ys == xs;
    } else {
      assert (xs + ys)[..|xs + ys| - 1] == xs + ys[..|ys| - 1];
      EnergyAppend(xs, ys[..|ys| - 1], dt);
    }
  }

  lemma {:induction false} SumSquaresZero(xs: seq<real>)
    ensures SumSquares(xs) >= 0.0
    ensures SumSquares(xs) == 0.0 <==> xs == ZeroVector(|xs|)
  {
    if xs != [] {
      var n := |xs| - 1;
      var rest, x := xs[..n], xs[n];
      SumSquaresZero(rest);
      Square(x);
      assert ZeroVector(|xs|)[..n] == ZeroVector(n);
      assert xs == rest + [x];
      assert xs == ZeroVector(|xs|) <==> rest == ZeroVector(n) && x == 0.0;
    }
  }

  // No energy means only zero vectors.
  lemma {:induction false} EnergyZero(xs: seq<seq<real>>, dt: real)
    requires dt > 0.0
    ensures Energy(xs, dt) >= 0.0
    ensures Energy(xs, dt) == 0.0 <==> forall k :: 0 <= k < |xs| ==> xs[k] == ZeroVector(|xs[k]|)
  {
    hide SumSquares, ZeroVector;
    if xs != [] {
      var n := |xs| - 1;
      EnergyZero(xs[..n], dt);
      SumSquaresZero(xs[n]);
      ProductNonNegative(SumSquares(xs[n]), dt);
      assert SumSquares(xs[n]) * dt == 0.0 <==> SumSquares(xs[n]) == 0.0;
      assert forall k :: 0 <= k < n ==> xs[..n][k] == xs[k];
    }
  }

  // The samples of the last slices, still in the delay buffer when the run ends
  function Waiting(samples: seq<seq<real>>, depth: nat): seq<seq<real>> {
    if |samples| < depth then samples else samples[|samples| - depth..]
  }

  // What is applied: zeros while the buffer fills, then the samples that left it
  lemma AppliedSamples(r: Rule, starts: seq<Mat>, samples: seq<seq<real>>, corrections: seq<seq<real>>,
                       lyapunov: seq<real>)
    requires SlicesOk(r, starts, samples, corrections, lyapunov)
    ensures var w := |Waiting(samples, r.depth)|;
            corrections == seq(w, _ => ZeroVector(r.width)) + samples[..|samples| - w]
  {
    hide IsState, LyapunovInRange, ZeroVector;
    var w := |Waiting(samples, r.depth)|;
    var applied := seq(w, _ => ZeroVector(r.width)) + samples[..|samples| - w];
    forall k | 0 <= k < |samples| ensures corrections[k] == applied[k] {
      assert SliceHolds(r, samples, k, starts[k], corrections[k], lyapunov[k]);
    }
  }

  // The energy counts every sampled correction, applied or not: it exceeds the energy of the applied corrections
  // by the energy of the samples still waiting, and the two agree exactly when those are all zero.
  lemma EnergyOfSamples(r: Rule, starts: seq<Mat>, samples: seq<seq<real>>, corrections: seq<seq<real>>,
                        lyapunov: seq<real>, dt: real)
    requires SlicesOk(r, starts, samples, corrections, lyapunov)
    ensures Energy(samples, dt) == Energy(corrections, dt) + Energy(Waiting(samples, r.depth), dt)
    ensures dt > 0.0 ==>
      (Energy(samples, dt) == Energy(corrections, dt) <==>
       forall k :: 0 <= k < |Waiting(samples, r.depth)| ==> Waiting(samples, r.depth)[k] == ZeroVector(r.width))
  {
    hide SliceHolds, Energy, ZeroVector, Waiting, SlicesOk;
    var waiting := Waiting(samples, r.depth);
    AppliedSamples(r, starts, samples, corrections, lyapunov);
    WaitingLast(samples, r.depth);
    EnergySplit(samples, corrections, |waiting|, r.width, dt);
    if dt > 0.0 {
      EnergyZero(waiting, dt);
      forall k | 0 <= k < |waiting| ensures |waiting[k]| == r.width {
        SampleWidth(r, starts, samples, corrections, lyapunov, |samples| - |waiting| + k);
      }
    }
  }

  lemma WaitingLast(samples: seq<seq<real>>, depth: nat)
    ensures var w := Waiting(samples, depth); |w| <= |samples| && w == samples[|samples| - |w|..]
  {}

  lemma EnergySplit(samples: seq<seq<real>>, corrections: seq<seq<real>>, w: nat, width: nat, dt: real)
    requires w <= |samples| && corrections == seq(w, _ => ZeroVector(width)) + samples[..|samples| - w]
    ensures Energy(samples, dt) == Energy(corrections, dt) + Energy(samples[|samples| - w..], dt)
  {
    hide Energy, ZeroVector;
    var n := |samples| - w;
    assert samples == samples[..n] + samples[n..];
    EnergyAppend(samples[..n], samples[n..], dt);
    EnergyAppend(seq(w, _ => ZeroVector(width)), samples[..n], dt);
    ZerosEnergy(w, width, dt);
  }

  lemma SampleWidth(r: Rule, starts: seq<Mat>, samples: seq<seq<real>>, corrections: seq<seq<real>>,
                    lyapunov: seq<real>, k: nat)
    requires SlicesOk(r, starts, samples, corrections, lyapunov) && k < |samples|
    ensures |samples[k]| == r.width
  {
    hide IsState, LyapunovInRange, Delayed, ZeroVector;
    assert SliceHolds(r, samples, k, starts[k], corrections[k], lyapunov[k]);
  }

  lemma {:induction false} ZerosEnergy(n: nat, width: nat, dt: real)
    ensures Energy(seq(n, _ => ZeroVector(width)), dt) == 0.0
  {
    hide SumSquares, ZeroVector;
    if n > 0 {
      var zeros: seq<seq<real>> := seq(n, _ => ZeroVector(width));
      assert zeros[..n - 1] == seq(n - 1, _ => ZeroVector(width));
      ZerosEnergy(n - 1, width, dt);
      ZeroVectorWidth(width);
      SumSquaresZero(zeros[n - 1]);
    }
  }

  lemma ZeroVectorWidth(n: nat)
    ensures |ZeroVector(n)| == n
  {}
}
