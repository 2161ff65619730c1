// Gate fidelity, gradients and the optimiser loop: hal/src/grape/optimize.rs.
module GrapeOptimizer {
  import opened ComplexNumbers
  import opened Matrices
  import opened MatrixExponential
  import opened Grape

  // Transcendental functions, pi and the choice of scaling exponent are parameters.
  datatype Numerics = Numerics(pi: real, sin: real -> real, cos: real -> real,
                               scaling: Mat -> nat, scalarExp: Complex -> Complex)

  datatype GrapeConfig = GrapeConfig(numTimeSteps: nat, durationNs: real, targetFidelity: real,
                                     maxIterations: nat, learningRate: real)
  {
    predicate Valid() {
      numTimeSteps > 0 && durationNs > 0.0 && 0.0 <= targetFidelity <= 1.0 && maxIterations > 0 && learningRate > 0.0
    }

    function DtSeconds(): real
      requires Valid()
    {
      (durationNs / 1_000_000_000.0) / numTimeSteps as real
    }
  }

  // The fixed inputs of one optimisation.
  datatype Problem = Problem(num: Numerics, config: GrapeConfig, target: Mat, drift: Mat, controls: seq<Mat>)
  {
    ghost predicate Valid() {
      config.Valid() && target.r == target.c > 0 && drift.r == drift.c == target.r && |controls| >= 2 &&
      controls[0].r == controls[0].c == controls[1].r == controls[1].c == target.r
    }

    function Dim(): nat { target.r }
  }

  // ---------- fidelity ----------

  function Clamp(x: real, lo: real, hi: real): real {
    if x < lo then lo else if x > hi then hi else x
  }

  function RawFidelity(achieved: Mat, target: Mat): real
    requires achieved.r > 0
  {
    var d := achieved.r as real;
    (NormSqr(Inner(target, achieved)) + d) / (d * d + d)
  }

  function GateFidelity(achieved: Mat, target: Mat): real
    requires achieved.r > 0
  {
    Clamp(RawFidelity(achieved, target), 0.0, 1.0)
  }

  // For unitaries the fidelity lies in [1/(d+1), 1] before clamping and is 1 only up to a phase.
  lemma {:induction false} FidelityRange(achieved: Mat, target: Mat)
    requires Unitary(achieved) && Unitary(target) && achieved.r == target.r > 0
    ensures 1.0 / (achieved.r as real + 1.0) <= RawFidelity(achieved, target) <= 1.0
    ensures GateFidelity(achieved, target) == RawFidelity(achieved, target)
    ensures GateFidelity(achieved, target) == 1.0 <==>
      exists z: Complex :: NormSqr(z) == 1.0 && achieved == Scale(z, target)
  {
    hide Inner, Unitary, NormSqr, Scale;
    var d, f := achieved.r as real, NormSqr(Inner(target, achieved));
    OverlapBound(target, achieved);
    NonZeroNorm(Inner(target, achieved));
    FidelityFraction(d, f);
    assert RawFidelity(achieved, target) == (f + d) / (d * d + d);
  }

  lemma FidelityFraction(d: real, f: real)
    requires d > 0.0 && 0.0 <= f <= d * d
    ensures 1.0 / (d + 1.0) <= (f + d) / (d * d + d) <= 1.0
    ensures (f + d) / (d * d + d) == 1.0 <==> f == d * d
  {
    var g, q, l := d * d + d, (f + d) / (d * d + d), 1.0 / (d + 1.0);
    assert g == d * (d + 1.0) && l * (d + 1.0) == 1.0;
    assert l * g == (l * (d + 1.0)) * d;
    assert q * g == f + d;
    assert g * (q - l) == f && g * (1.0 - q) == d * d - f;
    ScaledNonNegative(g, q - l);
    ScaledNonNegative(g, 1.0 - q);
  }

  // ---------- propagators ----------

  function Hamiltonian(p: Problem, x: real, y: real): (h: Mat)
    requires p.Valid()
    ensures h.r == h.c == p.Dim()
  {
    Plus(Plus(p.drift, Scale(Real(x), p.controls[0])), Scale(Real(y), p.controls[1]))
  }

  function PhaseScale(p: Problem): Complex
    requires p.Valid()
  {
    Complex(0.0, -2.0 * p.num.pi * p.config.DtSeconds() * 1_000_000.0)
  }

  function Propagator(p: Problem, x: real, y: real): (u: Mat)
    requires p.Valid()
    ensures u.r == u.c == p.Dim()
  {
    var e := Scale(PhaseScale(p), Hamiltonian(p, x, y));
    MatrixExp(e, PADE_COEFFS, p.num.scaling(e), p.num.scalarExp)
  }

  function Propagators(p: Problem, i: seq<real>, q: seq<real>): (us: seq<Mat>)
    requires p.Valid() && |i| <= |q|
    ensures |us| == |i| && AllSquare(us, p.Dim())
  {
    seq(|i|, t requires 0 <= t < |i| => Propagator(p, i[t], q[t]))
  }

  method ComputePropagators(p: Problem, i: seq<real>, q: seq<real>) returns (us: seq<Mat>)
    requires p.Valid() && |i| <= |q|
    ensures us == Propagators(p, i, q)
  {
    hide Propagator;
    us := [];
    for t := 0 to |i|
      invariant us == Propagators(p, i, q)[..t]
    {
      us := us + [Propagator(p, i[t], q[t])];
    }
  }

  function Total(p: Problem, i: seq<real>, q: seq<real>): (u: Mat)
    requires p.Valid() && |i| <= |q|
    ensures u.r == u.c == p.Dim()
  {
    Product(Propagators(p, i, q), p.Dim(), 0, |i|)
  }

  // Hermitian drift and controls give a unitary total for every pulse, so its fidelity needs no clamp.
  lemma {:induction false} TotalFidelityRange(p: Problem, i: seq<real>, q: seq<real>)
    requires p.Valid() && |i| <= |q| && p.Dim() >= 2 && Unitary(p.target)
    requires Hermitian(p.drift) && Hermitian(p.controls[0]) && Hermitian(p.controls[1])
    ensures Unitary(Total(p, i, q))
    ensures 1.0 / (p.Dim() as real + 1.0) <= GateFidelity(Total(p, i, q), p.target) <= 1.0
    ensures GateFidelity(Total(p, i, q), p.target) == RawFidelity(Total(p, i, q), p.target)
  {
    hide Unitary, Hermitian, Propagator, RawFidelity, Inner, Scale, Plus, Dot;
    var us := Propagators(p, i, q);
    forall t | 0 <= t < |i| ensures Unitary(us[t]) {
      PropagatorUnitary(p, i[t], q[t]);
    }
    ProductUnitary(us, p.Dim(), 0, |i|);
    FidelityRange(Total(p, i, q), p.target);
  }

  lemma {:induction false} PropagatorUnitary(p: Problem, x: real, y: real)
    requires p.Valid() && p.Dim() >= 2
    requires Hermitian(p.drift) && Hermitian(p.controls[0]) && Hermitian(p.controls[1])
    ensures Unitary(Propagator(p, x, y))
  {
    hide Unitary, MatrixExp, Scale, Plus, Dagger, Mul, PhaseScale;
    var h, z := Hamiltonian(p, x, y), PhaseScale(p);
    HermitianScale(x, p.controls[0]);
    HermitianScale(y, p.controls[1]);
    HermitianPlus(p.drift, Scale(Real(x), p.controls[0]));
    HermitianPlus(Plus(p.drift, Scale(Real(x), p.controls[0])), Scale(Real(y), p.controls[1]));
    DaggerScale(z, h);
    ImaginaryConj(p);
    ScaleLaws(Real(-1.0), z, h);
    var e := Scale(z, h);
    MatrixExpUnitary(e, PADE_COEFFS, p.num.scaling(e), p.num.scalarExp);
  }

  lemma ImaginaryConj(p: Problem)
    requires p.Valid()
    ensures Conj(PhaseScale(p)) == Mul(Real(-1.0), PhaseScale(p))
  {}

  // ---------- gradients ----------

  // Tr(W^dagger B dU F) for control operator c at step t.
  function PropagatorDerivative(p: Problem, c: Mat, u: Mat): (m: Mat)
    requires p.Valid()
    ensures m.r == c.r && m.c == u.c
  {
    Dot(Scale(PhaseScale(p), c), u)
  }

  function Sandwich(p: Problem, c: Mat, u: Mat, before: Mat, after: Mat): Complex
    requires p.Valid()
  {
    Inner(p.target, Dot(after, Dot(PropagatorDerivative(p, c, u), before)))
  }

  function NormFactor(d: nat): real
    requires d > 0
  {
    2.0 / (d * (d + 1)) as real
  }

  function GradientEntry(p: Problem, c: Mat, us: seq<Mat>, t: nat): real
    requires p.Valid() && AllSquare(us, p.Dim()) && t < |us|
  {
    var d, n := p.Dim(), |us|;
    var chi := Inner(p.target, Product(us, d, 0, n));
    NormFactor(d) * Mul(Conj(chi), Sandwich(p, c, us[t], Product(us, d, 0, t), Product(us, d, t + 1, n))).re
  }

  // Along U_t + h dU the raw fidelity is a quadratic in h whose linear coefficient is the gradient entry.
  lemma {:induction false} GradientIsDerivative(p: Problem, c: Mat, us: seq<Mat>, t: nat, h: real)
    requires p.Valid() && AllSquare(us, p.Dim()) && t < |us| && c.r == c.c == p.Dim()
    ensures var d, n := p.Dim(), |us|;
            var vs := us[t := Plus(us[t], Scale(Real(h), PropagatorDerivative(p, c, us[t])))];
            var tau := Sandwich(p, c, us[t], Product(us, d, 0, t), Product(us, d, t + 1, n));
            AllSquare(vs, d) &&
            RawFidelity(Product(vs, d, 0, n), p.target) ==
              RawFidelity(Product(us, d, 0, n), p.target) + h * GradientEntry(p, c, us, t)
                + h * h * NormSqr(tau) * (NormFactor(d) / 2.0)
  {
    hide Plus, Scale, Dot, Inner, NormSqr, Mul, Conj, PropagatorDerivative;
    var d, n := p.Dim(), |us|;
    var du := PropagatorDerivative(p, c, us[t]);
    var delta := Scale(Real(h), du);
    var f, b := Product(us, d, 0, t), Product(us, d, t + 1, n);
    var total, x := Product(us, d, 0, n), Dot(b, Dot(du, f));
    ProductPerturb(us, d, t, delta);
    DotScale(Real(h), du, f);
    DotScale(Real(h), b, Dot(du, f));
    ScaleLaws(ONE, ONE, total);
    InnerLinear(p.target, ONE, total, Real(h), x);
    var chi, tau := Inner(p.target, total), Inner(p.target, x);
    MulUnit(chi);
    QuadraticOverlap(chi, tau, h, d as real, NormFactor(d));
  }

  lemma QuadraticOverlap(chi: Complex, tau: Complex, h: real, d: real, k: real)
    requires d > 0.0 && k == 2.0 / (d * (d + 1.0))
    ensures (NormSqr(Add(chi, Mul(Real(h), tau))) + d) / (d * d + d) ==
            (NormSqr(chi) + d) / (d * d + d) + h * (k * Mul(Conj(chi), tau).re) + h * h * NormSqr(tau) * (k / 2.0)
  {
    var g := d * (d + 1.0);
    var a, b, e := NormSqr(chi), Mul(Conj(chi), tau).re, NormSqr(tau);
    hide NormSqr, Mul, Conj, Add;
    NormOfSum(chi, tau, h);
    FractionSplit(a, 2.0 * (h * b), (h * h) * e, d, g, k);
    assert h * (k * b) == k * (h * b);
  }

  lemma FractionSplit(a: real, y: real, z: real, d: real, g: real, k: real)
    requires g == d * (d + 1.0) && d > 0.0 && k == 2.0 / g
    ensures (a + y + z + d) / (d * d + d) == (a + d) / (d * d + d) + k * (y / 2.0) + z * (k / 2.0)
  {
    assert d * d + d == g;
    SplitFraction(a + d, y, z, g);
    assert y / g == k * (y / 2.0);
    assert z / g == z * (k / 2.0);
  }

  lemma SplitFraction(x: real, y: real, z: real, g: real)
    requires g != 0.0
    ensures (x + y + z) / g == x / g + y / g + z / g
  {}

  function Gradient(p: Problem, c: Mat, us: seq<Mat>): (g: seq<real>)
    requires p.Valid() && AllSquare(us, p.Dim())
    ensures |g| == |us|
  {
    seq(|us|, t requires 0 <= t < |us| => GradientEntry(p, c, us, t))
  }

  method ComputeGradients(p: Problem, i: seq<real>, q: seq<real>, forward: seq<Mat>, backward: seq<Mat>)
    returns (gradI: seq<real>, gradQ: seq<real>)
    requires p.Valid() && 0 < |i| <= |q| && |forward| == |backward| == |i| + 1
    requires forall k :: 0 <= k <= |i| ==> forward[k] == Product(Propagators(p, i, q), p.Dim(), 0, k)
    requires forall k :: 0 <= k <= |i| ==> backward[k] == Product(Propagators(p, i, q), p.Dim(), k, |i|)
    ensures gradI == Gradient(p, p.controls[0], Propagators(p, i, q))
    ensures gradQ == Gradient(p, p.controls[1], Propagators(p, i, q))
  {
    hide Propagators, Inner, Sandwich, Product, Mul, Conj;
    var chi := Inner(p.target, forward[|i|]);
    var normFactor := NormFactor(p.Dim());
    var props := ComputePropagators(p, i, q);
    gradI, gradQ := [], [];
    for t := 0 to |i|
      invariant |gradI| == |gradQ| == t
      invariant forall k :: 0 <= k < t ==> gradI[k] == GradientEntry(p, p.controls[0], props, k)
      invariant forall k :: 0 <= k < t ==> gradQ[k] == GradientEntry(p, p.controls[1], props, k)
    {
      var traceI := Sandwich(p, p.controls[0], props[t], forward[t], backward[t + 1]);
      gradI := gradI + [normFactor * Mul(Conj(chi), traceI).re];
      var traceQ := Sandwich(p, p.controls[1], props[t], forward[t], backward[t + 1]);
      gradQ := gradQ + [normFactor * Mul(Conj(chi), traceQ).re];
    }
    assert gradI == Gradient(p, p.controls[0], props);
    assert gradQ == Gradient(p, p.controls[1], props);
  }

  function RealPow(x: real, e: nat): real {
    if e == 0 then 1.0 else x * RealPow(x, e - 1)
  }

  function AdaptiveLearningRate(base: real, iteration: nat, history: seq<real>, d: nat): real {
    var scale := 100.0 * ((d * d + d) as real / 6.0);
    var decay := RealPow(0.999, iteration);
    var progress :=
      if |history| > 5 then
        var recent := history[|history| - 5..];
        if forall i :: 0 <= i < 4 ==> recent[i] < recent[i + 1] then 1.5
        else if recent[4] < recent[3] then 0.5
        else 1.0
      else 1.0;
    base * scale * decay * progress
  }

  // ---------- the optimiser loop ----------

  // The envelopes before an iteration and the fidelities recorded so far.
  datatype Progress = Progress(i: seq<real>, q: seq<real>, history: seq<real>)

  const GOLDEN := 1.618033988749895

  function InitialPulses(p: Problem): (s: Progress)
    requires p.Valid()
    ensures |s.i| == |s.q| == p.config.numTimeSteps
  {
    var n := p.config.numTimeSteps;
    Progress(seq(n, k => 25.0 * p.num.sin(k as real * GOLDEN)),
             seq(n, k => 25.0 * p.num.cos(k as real * GOLDEN * 1.3)), [])
  }

  function AddScaled(x: seq<real>, lr: real, g: seq<real>): (y: seq<real>)
    requires |g| == |x|
    ensures |y| == |x|
  {
    seq(|x|, t requires 0 <= t < |x| => x[t] + lr * g[t])
  }

  function Ascend(p: Problem, s: Progress, iter: nat): (s': Progress)
    requires p.Valid() && |s.i| == |s.q| == p.config.numTimeSteps
    ensures |s'.i| == |s'.q| == |s.i| && |s'.history| == |s.history| + 1
  {
    var us := Propagators(p, s.i, s.q);
    var history := s.history + [GateFidelity(Total(p, s.i, s.q), p.target)];
    var lr := AdaptiveLearningRate(p.config.learningRate, iter, history, p.Dim());
    Progress(AddScaled(s.i, lr, Gradient(p, p.controls[0], us)), AddScaled(s.q, lr, Gradient(p, p.controls[1], us)),
             history)
  }

  function Run(p: Problem, k: nat): (s: Progress)
    requires p.Valid()
    ensures |s.i| == |s.q| == p.config.numTimeSteps && |s.history| == k
  {
    if k == 0 then InitialPulses(p) else Ascend(p, Run(p, k - 1), k - 1)
  }

  datatype GrapeResult = GrapeResult(iEnvelope: seq<real>, qEnvelope: seq<real>, fidelity: real, iterations: nat,
                                     converged: bool, history: seq<real>, finalUnitary: Mat)

  ghost predicate IsMaximum(x: real, s: seq<real>) {
    x in s && forall k :: 0 <= k < |s| ==> s[k] <= x
  }

  lemma {:induction false} FidelityPositive(achieved: Mat, target: Mat)
    requires achieved.r > 0
    ensures 0.0 < GateFidelity(achieved, target) <= 1.0
  {
    hide Inner, NormSqr;
    var d, f := achieved.r as real, NormSqr(Inner(target, achieved));
    NonZeroNorm(Inner(target, achieved));
    assert RawFidelity(achieved, target) * (d * d + d) == f + d;
    ScaledNonNegative(d * d + d, RawFidelity(achieved, target));
  }

  method UpdatePulses(x: array<real>, lr: real, g: seq<real>)
    requires |g| == x.Length
    modifies x
    ensures x[..] == AddScaled(old(x[..]), lr, g)
  {
    for t := 0 to x.Length
      invariant forall k :: 0 <= k < x.Length ==> x[k] == if k < t then old(x[k]) + lr * g[k] else old(x[k])
    {
      x[t] := x[t] + lr * g[t];
    }
    assert forall k :: 0 <= k < x.Length ==> x[..][k] == AddScaled(old(x[..]), lr, g)[k];
  }

  lemma MaximumExtends(best: real, history: seq<real>, fid: real)
    requires if history == [] then best < fid else IsMaximum(best, history)
    ensures IsMaximum(if fid > best then fid else best, history + [fid])
  {
    var h := history + [fid];
    assert h[|history|] == fid;
    assert forall k :: 0 <= k < |history| ==> h[k] == history[k];
  }

  method ComputeChains(p: Problem, i: seq<real>, q: seq<real>) returns (forward: seq<Mat>, backward: seq<Mat>)
    requires p.Valid() && 0 < |i| <= |q|
    ensures |forward| == |backward| == |i| + 1 && forward[|i|] == Total(p, i, q)
    ensures forall k :: 0 <= k <= |i| ==> forward[k] == Product(Propagators(p, i, q), p.Dim(), 0, k)
    ensures forall k :: 0 <= k <= |i| ==> backward[k] == Product(Propagators(p, i, q), p.Dim(), k, |i|)
  {
    hide Propagators, Product;
    var props := ComputePropagators(p, i, q);
    forward := ForwardChain(props, p.Dim());
    backward := BackwardChain(props, p.Dim());
  }

  method ComputeTotal(p: Problem, i: seq<real>, q: seq<real>) returns (total: Mat)
    requires p.Valid() && 0 < |i| <= |q|
    ensures total == Total(p, i, q)
  {
    hide Propagators, Product;
    var props := ComputePropagators(p, i, q);
    total := ChainPropagators(props, p.Dim());
  }

  lemma MaximumBelow(best: real, history: seq<real>, target: real)
    requires if history == [] then true else IsMaximum(best, history)
    requires forall k :: 0 <= k < |history| ==> history[k] < target
    ensures history != [] ==> best < target
  {}

  // The result reports the best iterate: its fidelity is the maximum of the history, is reached by the
  // returned unitary, and that unitary is the chained propagator of the returned envelopes.
  method Optimize(p: Problem) returns (r: GrapeResult)
    requires p.Valid()
    ensures 1 <= r.iterations <= p.config.maxIterations
    ensures r.history == Run(p, r.iterations).history
    ensures |r.iEnvelope| == |r.qEnvelope| == p.config.numTimeSteps
    ensures r.finalUnitary == Total(p, r.iEnvelope, r.qEnvelope)
    ensures r.fidelity == GateFidelity(r.finalUnitary, p.target)
    ensures IsMaximum(r.fidelity, r.history)
    ensures r.converged <==> r.fidelity >= p.config.targetFidelity
    ensures r.converged ==> forall k :: 0 <= k < r.iterations - 1 ==> r.history[k] < p.config.targetFidelity
    ensures !r.converged ==> r.iterations == p.config.maxIterations
  {
    hide Total, Propagators, Product, GateFidelity, Gradient, AdaptiveLearningRate, AddScaled, InitialPulses, IsMaximum,
      Run;
    RunStart(p);
    var n := p.config.numTimeSteps;
    var iPulse := new real[n](k => 25.0 * p.num.sin(k as real * GOLDEN));
    var qPulse := new real[n](k => 25.0 * p.num.cos(k as real * GOLDEN * 1.3));
    InitialArrays(p, iPulse, qPulse);
    var history: seq<real> := [];
    var bestFidelity := 0.0;
    var bestI, bestQ := iPulse[..], qPulse[..];
    for iter := 0 to p.config.maxIterations
      invariant Run(p, iter) == Progress(iPulse[..], qPulse[..], history)
      invariant |bestI| == |bestQ| == n
      invariant if iter == 0 then bestFidelity == 0.0
                else IsMaximum(bestFidelity, history) && bestFidelity == GateFidelity(Total(p, bestI, bestQ), p.target)
      invariant forall k :: 0 <= k < iter ==> history[k] < p.config.targetFidelity
    {
      RunNext(p, iter);
      var forward, backward := ComputeChains(p, iPulse[..], qPulse[..]);
      var total := forward[n];
      var fid := GateFidelity(total, p.target);
      FidelityPositive(total, p.target);
      MaximumExtends(bestFidelity, history, fid);
      ghost var earlier, earlierBest := history, bestFidelity;
      history := history + [fid];
      if fid > bestFidelity {
        bestFidelity := fid;
        bestI, bestQ := iPulse[..], qPulse[..];
      }
      if fid >= p.config.targetFidelity {
        MaximumBelow(earlierBest, earlier, p.config.targetFidelity);
        assert Run(p, iter + 1).history == history;
        return GrapeResult(bestI, bestQ, bestFidelity, iter + 1, true, history, total);
      }
      var gradI, gradQ := ComputeGradients(p, iPulse[..], qPulse[..], forward, backward);
      var lr := AdaptiveLearningRate(p.config.learningRate, iter, history, p.Dim());
      UpdatePulses(iPulse, lr, gradI);
      UpdatePulses(qPulse, lr, gradQ);
    }
    var total := ComputeTotal(p, bestI, bestQ);
    MaximumBelow(bestFidelity, history, p.config.targetFidelity);
    r := GrapeResult(bestI, bestQ, bestFidelity, p.config.maxIterations, false, history, total);
  }

  lemma RunStart(p: Problem)
    requires p.Valid()
    ensures Run(p, 0) == InitialPulses(p)
  {}

  lemma RunNext(p: Problem, k: nat)
    requires p.Valid()
    ensures Run(p, k + 1) == Ascend(p, Run(p, k), k)
  {
    hide Ascend, InitialPulses;
  }

  lemma InitialArrays(p: Problem, iPulse: array<real>, qPulse: array<real>)
    requires p.Valid() && iPulse.Length == qPulse.Length == p.config.numTimeSteps
    requires forall k :: 0 <= k < iPulse.Length ==> iPulse[k] == 25.0 * p.num.sin(k as real * GOLDEN)
    requires forall k :: 0 <= k < qPulse.Length ==> qPulse[k] == 25.0 * p.num.cos(k as real * GOLDEN * 1.3)
    ensures InitialPulses(p) == Progress(iPulse[..], qPulse[..], [])
  {}
}
