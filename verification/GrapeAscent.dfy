// The optimiser moves uphill: hal/src/grape/optimize.rs.
module GrapeAscent {
  import opened ComplexNumbers
  import opened Matrices
  import opened GrapeOptimizer

  // ---------- the learning rate ----------

  lemma {:induction false} PowerPositive(x: real, e: nat)
    requires 0.0 < x <= 1.0
    ensures 0.0 < RealPow(x, e) <= 1.0
  {
    if e > 0 {
      PowerPositive(x, e - 1);
      var y := RealPow(x, e - 1);
      assert x * y > 0.0;
      ProductNonNegative(1.0 - x, y);
      assert (1.0 - x) * y == y - x * y;
    }
  }

  // The rate without its progress factor
  function BaseRate(base: real, iteration: nat, d: nat): real {
    base * (100.0 * ((d * d + d) as real / 6.0)) * RealPow(0.999, iteration)
  }

  // The rate is positive; progress scales it by one half, one or three halves.
  lemma {:induction false} RatePositive(base: real, iteration: nat, history: seq<real>, d: nat)
    requires base > 0.0 && d > 0
    ensures 0.0 < BaseRate(base, iteration, d)
    ensures var lr, b := AdaptiveLearningRate(base, iteration, history, d), BaseRate(base, iteration, d);
            0.0 < lr && (lr == 0.5 * b || lr == b || lr == 1.5 * b)
  {
    hide RealPow;
    PowerPositive(0.999, iteration);
    assert d * d + d > 0 by { assert d * d > 0; }
    var scale, decay := 100.0 * ((d * d + d) as real / 6.0), RealPow(0.999, iteration);
    assert scale > 0.0;
    assert base * scale > 0.0;
    assert base * scale * decay > 0.0;
  }

  // Without progress to judge the rate is the base rate, which starts at the configured rate times 100 (d^2 + d) / 6
  // and decays by a thousandth per iteration.
  lemma RateDecays(base: real, iteration: nat, history: seq<real>, d: nat)
    ensures BaseRate(base, 0, d) == base * (100.0 * ((d * d + d) as real / 6.0))
    ensures BaseRate(base, iteration + 1, d) == 0.999 * BaseRate(base, iteration, d)
    ensures |history| <= 5 ==> AdaptiveLearningRate(base, iteration, history, d) == BaseRate(base, iteration, d)
  {
    hide RealPow;
    assert RealPow(0.999, 0) == 1.0 && RealPow(0.999, iteration + 1) == 0.999 * RealPow(0.999, iteration) by {
      PowerStep(0.999, iteration);
    }
    var x, y := base * (100.0 * ((d * d + d) as real / 6.0)), RealPow(0.999, iteration);
    assert x * (0.999 * y) == 0.999 * (x * y);
  }

  lemma PowerStep(x: real, e: nat)
    ensures RealPow(x, 0) == 1.0 && RealPow(x, e + 1) == x * RealPow(x, e)
  {}

  predicate Rising(s: seq<real>) {
    |s| >= 5 && s[|s| - 5] < s[|s| - 4] < s[|s| - 3] < s[|s| - 2] < s[|s| - 1]
  }

  // Four rises in a row speed it up by half; a fall in the last step halves it.
  lemma RateFollowsProgress(base: real, iteration: nat, history: seq<real>, d: nat)
    requires |history| > 5
    ensures var n, lr, b := |history|, AdaptiveLearningRate(base, iteration, history, d), BaseRate(base, iteration, d);
            && (Rising(history) ==> lr == 1.5 * b)
            && (history[n - 1] < history[n - 2] ==> lr == 0.5 * b)
            && (history[n - 1] >= history[n - 2] && !Rising(history) ==> lr == b)
  {
    hide RealPow;
    var recent := history[|history| - 5..];
    var n := |history|;
    assert recent[0] == history[n - 5] && recent[1] == history[n - 4] && recent[2] == history[n - 3];
    assert recent[3] == history[n - 2] && recent[4] == history[n - 1];
    assert (forall i :: 0 <= i < 4 ==> recent[i] < recent[i + 1]) <==>
      recent[0] < recent[1] && recent[1] < recent[2] && recent[2] < recent[3] && recent[3] < recent[4];
  }

  // ---------- one update ----------

  // The change of a linear form with coefficients g, over the first n entries
  function Change(before: seq<real>, after: seq<real>, g: seq<real>, n: nat): real
    requires |before| == |after| == |g| && n <= |g|
  {
    if n == 0 then 0.0 else Change(before, after, g, n - 1) + (after[n - 1] - before[n - 1]) * g[n - 1]
  }

  function SquareLength(g: seq<real>, n: nat): real
    requires n <= |g|
  {
    if n == 0 then 0.0 else SquareLength(g, n - 1) + g[n - 1] * g[n - 1]
  }

  lemma {:induction false} SquareLengthZero(g: seq<real>, n: nat)
    requires n <= |g|
    ensures SquareLength(g, n) >= 0.0
    ensures SquareLength(g, n) == 0.0 <==> forall t :: 0 <= t < n ==> g[t] == 0.0
  {
    if n > 0 {
      SquareLengthZero(g, n - 1);
      Square(g[n - 1]);
    }
  }

  lemma {:induction false} ScaledChange(x: seq<real>, lr: real, g: seq<real>, n: nat)
    requires |g| == |x| && n <= |g|
    ensures Change(x, AddScaled(x, lr, g), g, n) == lr * SquareLength(g, n)
  {
    if n > 0 {
      ScaledChange(x, lr, g, n - 1);
      StepProduct(lr, g[n - 1], AddScaled(x, lr, g)[n - 1] - x[n - 1]);
      SumTimes(lr, SquareLength(g, n - 1), g[n - 1] * g[n - 1]);
    }
  }

  lemma StepProduct(lr: real, z: real, step: real)
    requires step == lr * z
    ensures step * z == lr * (z * z)
  {}

  // The first-order change of the fidelity between two pairs of envelopes, with the gradient at the first
  function FirstOrder(p: Problem, s: Progress, s': Progress): real
    requires p.Valid() && |s.i| == |s.q| == |s'.i| == |s'.q|
  {
    var us := Propagators(p, s.i, s.q);
    Change(s.i, s'.i, Gradient(p, p.controls[0], us), |s.i|) + Change(s.q, s'.q, Gradient(p, p.controls[1], us), |s.q|)
  }

  // To first order an iteration never lowers the fidelity; it leaves it alone exactly when both gradients vanish.
  lemma {:induction false} AscendClimbs(p: Problem, s: Progress, iter: nat)
    requires p.Valid() && |s.i| == |s.q| == p.config.numTimeSteps
    ensures var us := Propagators(p, s.i, s.q);
            var gi, gq := Gradient(p, p.controls[0], us), Gradient(p, p.controls[1], us);
            var history := s.history + [GateFidelity(Total(p, s.i, s.q), p.target)];
            var lr := AdaptiveLearningRate(p.config.learningRate, iter, history, p.Dim());
            && lr > 0.0
            && FirstOrder(p, s, Ascend(p, s, iter)) == lr * (SquareLength(gi, |gi|) + SquareLength(gq, |gq|))
            && FirstOrder(p, s, Ascend(p, s, iter)) >= 0.0
            && (FirstOrder(p, s, Ascend(p, s, iter)) == 0.0 <==>
                  (forall t :: 0 <= t < |gi| ==> gi[t] == 0.0) && forall t :: 0 <= t < |gq| ==> gq[t] == 0.0)
  {
    hide Propagators, Gradient, GateFidelity, Total, AdaptiveLearningRate, Change, SquareLength, AddScaled;
    var us := Propagators(p, s.i, s.q);
    var gi, gq := Gradient(p, p.controls[0], us), Gradient(p, p.controls[1], us);
    var history := s.history + [GateFidelity(Total(p, s.i, s.q), p.target)];
    var lr := AdaptiveLearningRate(p.config.learningRate, iter, history, p.Dim());
    RatePositive(p.config.learningRate, iter, history, p.Dim());
    ScaledChange(s.i, lr, gi, |gi|);
    ScaledChange(s.q, lr, gq, |gq|);
    SumTimes(lr, SquareLength(gi, |gi|), SquareLength(gq, |gq|));
    SquareLengthZero(gi, |gi|);
    SquareLengthZero(gq, |gq|);
    ScaledNonNegative(lr, SquareLength(gi, |gi|) + SquareLength(gq, |gq|));
  }

  // ---------- what the pulses drive ----------

  // Each envelope moves the Hamiltonian along its own control, from the drift.
  lemma PulsesDrive(p: Problem, x: real, y: real, e: real)
    requires p.Valid()
    ensures Hamiltonian(p, 0.0, 0.0) == p.drift
    ensures Hamiltonian(p, x + e, y) == Plus(Hamiltonian(p, x, y), Scale(Real(e), p.controls[0]))
    ensures Hamiltonian(p, x, y + e) == Plus(Hamiltonian(p, x, y), Scale(Real(e), p.controls[1]))
  {
    hide Plus, Scale, Add, Zeros;
    var h0, a, b := p.drift, p.controls[0], p.controls[1];
    ScaleLaws(ZERO, ZERO, a);
    ScaleLaws(ZERO, ZERO, b);
    PlusLaws(h0, a, a);
    ScaleLaws(Real(x), Real(e), a);
    ScaleLaws(Real(y), Real(e), b);
    assert Add(Real(x), Real(e)) == Real(x + e) && Add(Real(y), Real(e)) == Real(y + e) by { RealSums(x, y, e); }
    var xa, ea, yb, eb := Scale(Real(x), a), Scale(Real(e), a), Scale(Real(y), b), Scale(Real(e), b);
    PlusLaws(h0, xa, ea);
    PlusLaws(Plus(h0, xa), ea, yb);
    PlusLaws(ea, yb, yb);
    PlusLaws(Plus(h0, xa), yb, ea);
    PlusLaws(Plus(h0, xa), yb, eb);
  }

  lemma RealSums(x: real, y: real, e: real)
    ensures Add(Real(x), Real(e)) == Real(x + e) && Add(Real(y), Real(e)) == Real(y + e)
  {}
}
