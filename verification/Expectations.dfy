// How the generator, the measurement and the Ito step move the expectation Re Tr[A rho] of an observable A:
// hal/src/lindblad/dissipator.rs, hal/src/sme/measurement.rs, hal/src/sme/integrate.rs.
module Expectations {
  import opened ComplexNumbers
  import opened Matrices
  import opened MatrixExponential
  import opened Lindblad
  import opened Measurement
  import opened Sme

  // ---------- linear arithmetic of expectations ----------

  lemma OverlapScale(t: Mat, x: real, a: Mat)
    requires t.r == t.c == a.r == a.c
    ensures Overlap(t, Scale(Real(x), a)) == x * Overlap(t, a)
  {
    hide Dot, Scale, Trace, Mul;
    DotScale(Real(x), t, a);
    TraceLinear(Real(x), Dot(t, a), Dot(t, a));
    RealTimes(x, Trace(Dot(t, a)));
  }

  lemma OverlapPlus(t: Mat, a: Mat, b: Mat)
    requires t.r == t.c == a.r == a.c == b.r == b.c
    ensures Overlap(t, Plus(a, b)) == Overlap(t, a) + Overlap(t, b)
    ensures Overlap(t, Minus(a, b)) == Overlap(t, a) - Overlap(t, b)
  {
    hide Overlap, Plus, Minus, Scale;
    OverlapLinear(t, a, -1.0, b);
    PlusLaws(a, b, b);
  }

  // Overlap is symmetric in its two matrices and linear in the first as well.
  lemma OverlapSym(t: Mat, a: Mat)
    requires t.r == t.c == a.r == a.c
    ensures Overlap(t, a) == Overlap(a, t)
  {
    hide Dot, Trace;
    TraceCyclic(t, a);
  }

  lemma OverlapPlusLeft(t: Mat, u: Mat, a: Mat)
    requires t.r == t.c == u.r == u.c == a.r == a.c
    ensures Overlap(Plus(t, u), a) == Overlap(t, a) + Overlap(u, a)
  {
    hide Overlap, Plus;
    OverlapSym(Plus(t, u), a);
    OverlapSym(t, a);
    OverlapSym(u, a);
    OverlapPlus(a, t, u);
  }

  // A factor next to the state moves over to the observable.
  lemma OverlapMove(t: Mat, l: Mat, a: Mat)
    requires t.r == t.c == l.r == l.c == a.r == a.c
    ensures Overlap(t, Dot(l, a)) == Overlap(Dot(t, l), a)
    ensures Overlap(t, Dot(a, l)) == Overlap(Dot(l, t), a)
  {
    hide Dot, Trace;
    DotAssoc(t, l, a);
    DotAssoc(t, a, l);
    TraceCyclic(Dot(t, a), l);
    DotAssoc(l, t, a);
  }

  lemma OverlapZero(t: Mat)
    requires t.r == t.c
    ensures Overlap(t, Zeros(t.r, t.r)) == 0.0
  {
    hide Overlap, Scale, Zeros;
    ScaleLaws(ZERO, ZERO, t);
    OverlapScale(t, 0.0, t);
  }

  // ---------- the generator ----------

  // Tr[A D[L](rho)] = rate Tr[(L^+ A L - A L^+ L / 2 - L^+ L A / 2) rho]
  lemma {:induction false} DissipatorExpectation(op: CollapseOperator, rho: Mat, obs: Mat)
    requires op.matrix.r == op.matrix.c == rho.r == rho.c == obs.r == obs.c
    ensures var l, lDag := op.matrix, Dagger(op.matrix);
            var g := Dot(lDag, l);
            Overlap(obs, Dissipator(op, rho)) ==
            op.rate * (Overlap(Dot(lDag, Dot(obs, l)), rho) - 0.5 * Overlap(Dot(obs, g), rho)
                       - 0.5 * Overlap(Dot(g, obs), rho))
  {
    hide Dot, Minus, Scale, Zeros, Overlap, Dagger, Real;
    var l, lDag := op.matrix, Dagger(op.matrix);
    var g := Dot(lDag, l);
    if op.rate == 0.0 {
      OverlapZero(obs);
    } else {
      var x, y, w := Dot(Dot(l, rho), lDag), Scale(HALF, Dot(g, rho)), Scale(HALF, Dot(rho, g));
      OverlapMove(obs, lDag, Dot(l, rho));
      OverlapMove(Dot(lDag, obs), l, rho);
      DotAssoc(lDag, obs, l);
      OverlapScale(obs, 0.5, Dot(g, rho));
      OverlapScale(obs, 0.5, Dot(rho, g));
      OverlapMove(obs, g, rho);
      OverlapPlus(obs, x, y);
      OverlapPlus(obs, Minus(x, y), w);
      OverlapScale(obs, op.rate, Minus(Minus(x, y), w));
    }
  }

  // Tr[A (-i)[H, rho]] = 2 Im Tr[A H rho] for Hermitian A, H and rho
  lemma {:induction false} CommutatorExpectation(h: Mat, rho: Mat, obs: Mat)
    requires h.r == rho.r == obs.r && Hermitian(h) && Hermitian(rho) && Hermitian(obs)
    ensures Overlap(obs, Commutator(h, rho)) == 2.0 * Trace(Dot(obs, Dot(h, rho))).im
  {
    hide Dot, Minus, Plus, Scale, Dagger, Trace, Mul, Conj;
    var a, b, w := Dot(h, rho), Dot(rho, h), Neg(IMAG);
    var m := Minus(a, b);
    DotScale(w, obs, m);
    TraceLinear(w, Dot(obs, m), Dot(obs, m));
    PlusLaws(a, b, b);
    DotPlus(obs, a, Scale(Real(-1.0), b));
    DotScale(Real(-1.0), obs, b);
    PlusLaws(Dot(obs, a), Dot(obs, b), Dot(obs, b));
    TraceMinus(Dot(obs, a), Dot(obs, b));
    // the second trace is the conjugate of the first
    DaggerDot(rho, h);
    DaggerDot(obs, b);
    TraceLinear(ONE, Dot(obs, b), Dot(obs, b));
    TraceCyclic(a, obs);
    ConjugateDifference(Trace(Dot(obs, a)), Trace(Dot(obs, b)));
  }

  lemma ConjugateDifference(x: Complex, y: Complex)
    requires x == Conj(y)
    ensures Mul(Neg(IMAG), Sub(x, y)).re == 2.0 * x.im
  {}

  // ---------- the measurement ----------

  // Tr[A H[c](rho)] = Tr[(A c + c^+ A) rho] - Tr[(c + c^+) rho] Tr[A rho]: how A and the measured quantity covary
  lemma {:induction false} InnovationExpectation(c: Mat, rho: Mat, obs: Mat)
    requires c.r == c.c == rho.r == rho.c == obs.r == obs.c
    ensures Overlap(obs, Innovation(c, rho)) ==
            Overlap(Dot(obs, c), rho) + Overlap(Dot(Dagger(c), obs), rho)
            - MeasurementExpectation(c, rho) * Overlap(obs, rho)
    ensures MeasurementExpectation(c, rho) == Overlap(c, rho) + Overlap(Dagger(c), rho)
  {
    hide Dot, Plus, Minus, Scale, Dagger, Overlap, Trace, MeasurementExpectation;
    var x, y, e := Dot(c, rho), Dot(rho, Dagger(c)), MeasurementExpectation(c, rho);
    OverlapMove(obs, c, rho);
    OverlapMove(obs, Dagger(c), rho);
    OverlapPlus(obs, x, y);
    OverlapScale(obs, e, rho);
    OverlapPlus(obs, Plus(x, y), Scale(Real(e), rho));
    OverlapPlusLeft(c, Dagger(c), rho);
    ExpectationIsOverlap(c, rho);
  }

  lemma ExpectationIsOverlap(c: Mat, rho: Mat)
    ensures MeasurementExpectation(c, rho) == Overlap(Plus(c, Dagger(c)), rho)
  {
    hide Plus, Dagger, Trace, Dot;
  }

  // ---------- the Ito step ----------

  // The drift moves an expectation by dt, the noise by dW sqrt(eta).
  lemma {:induction false} RawExpectation(s: Setting, rho: Mat, h: Mat, dt: real, dW: real, obs: Mat)
    requires rho.r == rho.c == h.r == h.c == obs.r == obs.c && s.Fits(rho.r)
    ensures Overlap(obs, RawState(s, rho, h, dt, dW)) ==
            Overlap(obs, rho) + dt * Overlap(obs, LindbladRhs(h, s.ops, rho))
            + dW * (s.sqrt(s.eta) * Overlap(obs, Innovation(s.operator, rho)))
  {
    hide Plus, Scale, Overlap, LindbladRhs, Innovation, Compatible;
    var drift, innovation := LindbladRhs(h, s.ops, rho), Innovation(s.operator, rho);
    var noise := Scale(Real(s.sqrt(s.eta)), innovation);
    OverlapScale(obs, dt, drift);
    OverlapPlus(obs, rho, Scale(Real(dt), drift));
    OverlapScale(obs, s.sqrt(s.eta), innovation);
    OverlapScale(obs, dW, noise);
    OverlapPlus(obs, Plus(rho, Scale(Real(dt), drift)), Scale(Real(dW), noise));
  }

  // Averaged over opposite increments the raw state moves along the Lindblad flow, for every observable; the two
  // differ by the innovation.
  lemma MeanIsLindblad(s: Setting, rho: Mat, h: Mat, dt: real, dW: real, obs: Mat)
    requires rho.r == rho.c == h.r == h.c == obs.r == obs.c && s.Fits(rho.r)
    ensures var plus, minus := Overlap(obs, RawState(s, rho, h, dt, dW)), Overlap(obs, RawState(s, rho, h, dt, -dW));
            && 0.5 * (plus + minus) == Overlap(obs, rho) + dt * Overlap(obs, LindbladRhs(h, s.ops, rho))
            && plus - minus == 2.0 * dW * (s.sqrt(s.eta) * Overlap(obs, Innovation(s.operator, rho)))
  {
    hide Overlap, LindbladRhs, Innovation, Compatible, RawState;
    RawExpectation(s, rho, h, dt, dW, obs);
    RawExpectation(s, rho, h, dt, -dW, obs);
    Opposite(dW, s.sqrt(s.eta) * Overlap(obs, Innovation(s.operator, rho)));
  }

  lemma Opposite(w: real, x: real)
    ensures -w * x == -(w * x) && 2.0 * w * x == 2.0 * (w * x)
  {}

  // The measured record carries the expectation: signal dt - dW = dt sqrt(eta) <c + c^+>.
  lemma SignalIsExpectation(s: Setting, rho: Mat, h: Mat, dt: real, dW: real)
    requires rho.r == rho.c == h.r == h.c && s.Fits(rho.r) && dt > 0.0
    ensures var r := EulerMaruyamaStep(s, rho, h, dt, dW);
            r.Ok? ==> if s.eta == 0.0 then r.value.signal == 0.0
                      else r.value.signal * dt - dW == dt * (s.sqrt(s.eta) * MeasurementExpectation(s.operator, rho))
  {
    hide RawState, Rk4Step, MeasurementExpectation, MeasurementSuperoperator, Renormalize, Symmetrize, Compatible,
      HasPositivityViolation, ProjectPositiveCone, TraceDeviation, TraceNormDeviation, NonHermitianResidue;
    var x := s.sqrt(s.eta) * MeasurementExpectation(s.operator, rho);
    assert (x + dW / dt) * dt == x * dt + dW;
  }
}
