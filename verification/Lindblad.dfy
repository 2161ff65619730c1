// The Lindblad generator and its RK4 integrator: hal/src/lindblad/dissipator.rs, hal/src/lindblad/integrate.rs.
module Lindblad {
  import opened Wrappers
  import opened ComplexNumbers
  import opened Matrices
  import opened MatrixExponential

  datatype CollapseOperator = CollapseOperator(matrix: Mat, rate: real)

  const HALF := Real(0.5)

  // D[L](rho) = rate (L rho L^+ - 1/2 L^+ L rho - 1/2 rho L^+ L)
  function Dissipator(op: CollapseOperator, rho: Mat): (m: Mat)
    requires op.matrix.r == op.matrix.c == rho.r == rho.c
    ensures m.r == m.c == rho.r
  {
    if op.rate == 0.0 then Zeros(rho.r, rho.c) else
      var l, lDag := op.matrix, Dagger(op.matrix);
      var lDagL := Dot(lDag, l);
      Scale(Real(op.rate),
            Minus(Minus(Dot(Dot(l, rho), lDag), Scale(HALF, Dot(lDagL, rho))), Scale(HALF, Dot(rho, lDagL))))
  }

  // An operator acts when its row count is d; a square one of another size is skipped.
  ghost predicate Compatible(ops: seq<CollapseOperator>, d: nat) {
    forall k :: 0 <= k < |ops| && ops[k].matrix.r == d ==> ops[k].matrix.c == d
  }

  function TotalDissipator(ops: seq<CollapseOperator>, rho: Mat, k: nat): (m: Mat)
    requires rho.r == rho.c && k <= |ops| && Compatible(ops, rho.r)
    ensures m.r == m.c == rho.r
  {
    if k == 0 then Zeros(rho.r, rho.r)
    else if ops[k - 1].matrix.r != rho.r then TotalDissipator(ops, rho, k - 1)
    else Plus(TotalDissipator(ops, rho, k - 1), Dissipator(ops[k - 1], rho))
  }

  method ComputeTotalDissipator(ops: seq<CollapseOperator>, rho: Mat) returns (total: Mat)
    requires rho.r == rho.c && Compatible(ops, rho.r)
    ensures total == TotalDissipator(ops, rho, |ops|)
  {
    hide Plus, Dissipator, Zeros;
    total := Zeros(rho.r, rho.r);
    for k := 0 to |ops|
      invariant total == TotalDissipator(ops, rho, k)
    {
      if ops[k].matrix.r != rho.r { continue; }
      total := Plus(total, Dissipator(ops[k], rho));
    }
  }

  // -i [h, rho]
  function Commutator(h: Mat, rho: Mat): (m: Mat)
    requires h.r == h.c == rho.r == rho.c
    ensures m.r == m.c == rho.r
  {
    Scale(Neg(IMAG), Minus(Dot(h, rho), Dot(rho, h)))
  }

  function LindbladRhs(h: Mat, ops: seq<CollapseOperator>, rho: Mat): (m: Mat)
    requires h.r == h.c == rho.r == rho.c && Compatible(ops, rho.r)
    ensures m.r == m.c == rho.r
  {
    Plus(Commutator(h, rho), TotalDissipator(ops, rho, |ops|))
  }

  function Rk4Step(rho: Mat, h: Mat, ops: seq<CollapseOperator>, dt: real): (m: Mat)
    requires h.r == h.c == rho.r == rho.c && Compatible(ops, rho.r)
    ensures m.r == m.c == rho.r
  {
    var k1 := LindbladRhs(h, ops, rho);
    var k2 := LindbladRhs(h, ops, Plus(rho, Scale(Real(0.5 * dt), k1)));
    var k3 := LindbladRhs(h, ops, Plus(rho, Scale(Real(0.5 * dt), k2)));
    var k4 := LindbladRhs(h, ops, Plus(rho, Scale(Real(dt), k3)));
    Plus(rho, Scale(Real(1.0 / 6.0 * dt), Plus(Plus(Plus(k1, Scale(Real(2.0), k2)), Scale(Real(2.0), k3)), k4)))
  }

  // ---------- a closed family of increments ----------

  ghost predicate Traceless(m: Mat) {
    m.r == m.c && Trace(m) == ZERO
  }

  // m may be added to a state: no trace, and Hermitian when herm is set.
  ghost predicate Increment(m: Mat, herm: bool) {
    Traceless(m) && (herm ==> Hermitian(m))
  }

  lemma IncrementPlus(a: Mat, b: Mat, herm: bool)
    requires Increment(a, herm) && Increment(b, herm) && a.r == b.r
    ensures Increment(Plus(a, b), herm)
  {
    hide Plus, Trace, Hermitian, Add;
    TraceLinear(ONE, a, b);
    AddLaws(ZERO, ZERO, ZERO);
    if herm { HermitianPlus(a, b); }
  }

  lemma IncrementScale(x: real, a: Mat, herm: bool)
    requires Increment(a, herm)
    ensures Increment(Scale(Real(x), a), herm)
  {
    hide Scale, Trace, Hermitian, Mul, Add, Real;
    TraceLinear(Real(x), a, a);
    MulUnit(Real(x));
    if herm { HermitianScale(x, a); }
  }

  lemma IncrementZeros(d: nat, herm: bool)
    ensures Increment(Zeros(d, d), herm)
  {
    hide Conj;
    ConjZero();
    SumZero(d, i => At(Zeros(d, d), i, i));
    Ext(Dagger(Zeros(d, d)), Zeros(d, d));
  }

  // Trace and, when herm is set, Hermiticity of rho survive adding an increment.
  lemma AddIncrement(rho: Mat, m: Mat, herm: bool)
    requires rho.r == rho.c == m.r && Increment(m, herm) && (herm ==> Hermitian(rho))
    ensures Trace(Plus(rho, m)) == Trace(rho) && (herm ==> Hermitian(Plus(rho, m)))
  {
    hide Plus, Trace, Hermitian, Add;
    TraceLinear(ONE, rho, m);
    AddLaws(Trace(rho), ZERO, ZERO);
    if herm { HermitianPlus(rho, m); }
  }

  // ---------- the generator produces increments ----------

  lemma CommutatorIncrement(h: Mat, rho: Mat, herm: bool)
    requires h.r == h.c == rho.r == rho.c && (herm ==> Hermitian(h) && Hermitian(rho))
    ensures Increment(Commutator(h, rho), herm)
  {
    hide Dot, Plus, Minus, Scale, Trace, Dagger, Mul, Add, Conj;
    var a, b := Dot(h, rho), Dot(rho, h);
    var m, z := Minus(a, b), Neg(IMAG);
    TraceMinus(a, b);
    TraceCyclic(h, rho);
    TraceLinear(z, m, m);
    MulUnit(z);
    AddLaws(Trace(a), ZERO, ZERO);
    if herm {
      DaggerDot(h, rho);
      DaggerDot(rho, h);
      DaggerPlus(a, b);
      DaggerScale(z, m);
      MinusSwap(a, b);
      ScaleLaws(Conj(z), Real(-1.0), m);
      assert Mul(Conj(z), Real(-1.0)) == z by { ImagUnit(); }
    }
  }

  lemma ImagUnit()
    ensures Mul(Conj(Neg(IMAG)), Real(-1.0)) == Neg(IMAG)
  {
    hide Mul;
    var z := Conj(Neg(IMAG));
    MulComm(z, Real(-1.0));
    MulUnit(z);
    ConjOf(0.0, -1.0);
  }

  lemma MinusSwap(a: Mat, b: Mat)
    requires a.r == b.r && a.c == b.c
    ensures Minus(b, a) == Scale(Real(-1.0), Minus(a, b))
  {
    Ext(Minus(b, a), Scale(Real(-1.0), Minus(a, b)));
  }

  lemma TraceMinus(a: Mat, b: Mat)
    requires a.r == a.c == b.r == b.c
    ensures Trace(Minus(a, b)) == Sub(Trace(a), Trace(b))
  {
    hide Plus, Minus, Scale, Trace;
    PlusLaws(a, b, b);
    TraceLinear(Real(-1.0), b, b);
    TraceLinear(ONE, a, Scale(Real(-1.0), b));
  }

  lemma {:induction false} DissipatorIncrement(op: CollapseOperator, rho: Mat, herm: bool)
    requires op.matrix.r == op.matrix.c == rho.r == rho.c && (herm ==> Hermitian(rho))
    ensures Increment(Dissipator(op, rho), herm)
  {
    hide Dot, Plus, Minus, Scale, Trace, Dagger, Zeros, Increment, Hermitian, Mul;
    if op.rate == 0.0 {
      IncrementZeros(rho.r, herm);
    } else {
      var l, lDag := op.matrix, Dagger(op.matrix);
      var g := Dot(lDag, l);
      var a, b, c := Dot(Dot(l, rho), lDag), Dot(g, rho), Dot(rho, g);
      TraceCyclic(Dot(l, rho), lDag);
      DotAssoc(lDag, l, rho);
      TraceCyclic(g, rho);
      assert Trace(a) == Trace(b) == Trace(c);
      if herm { JumpAdjoint(l, rho); }
      JumpIncrement(a, b, c, herm);
      IncrementScale(op.rate, Minus(Minus(a, Scale(HALF, b)), Scale(HALF, c)), herm);
    }
  }

  // For Hermitian rho: L rho L^+ is Hermitian and L^+ L rho, rho L^+ L are adjoints of each other.
  lemma JumpAdjoint(l: Mat, rho: Mat)
    requires l.r == l.c == rho.r == rho.c && Hermitian(rho)
    ensures var g := Dot(Dagger(l), l);
            Hermitian(Dot(Dot(l, rho), Dagger(l))) && Dagger(Dot(g, rho)) == Dot(rho, g) &&
              Dagger(Dot(rho, g)) == Dot(g, rho)
  {
    hide Dot, Dagger;
    var lDag := Dagger(l);
    var g := Dot(lDag, l);
    DaggerDagger(l);
    DaggerDot(lDag, l);
    DaggerDot(l, rho);
    DaggerDot(Dot(l, rho), lDag);
    DotAssoc(l, rho, lDag);
    DaggerDot(g, rho);
    DaggerDot(rho, g);
  }

  lemma JumpIncrement(a: Mat, b: Mat, c: Mat, herm: bool)
    requires a.r == a.c == b.r == b.c == c.r == c.c && Trace(a) == Trace(b) == Trace(c)
    requires herm ==> Hermitian(a) && Dagger(b) == c && Dagger(c) == b
    ensures Increment(Minus(Minus(a, Scale(HALF, b)), Scale(HALF, c)), herm)
  {
    hide Plus, Minus, Scale, Trace, Dagger, Mul, Sub, Add, Conj;
    var sb, sc := Scale(HALF, b), Scale(HALF, c);
    TraceLinear(HALF, b, b);
    TraceLinear(HALF, c, c);
    TraceMinus(a, sb);
    TraceMinus(Minus(a, sb), sc);
    HalvesCancel(Trace(a));
    if herm {
      DaggerScale(HALF, b);
      DaggerScale(HALF, c);
      HalfIsReal();
      DaggerPlus(a, sb);
      DaggerPlus(Minus(a, sb), sc);
      MinusMinus(a, sb, sc);
    }
  }

  lemma HalvesCancel(t: Complex)
    ensures Sub(Sub(t, Mul(HALF, t)), Mul(HALF, t)) == ZERO
  {}

  lemma HalfIsReal()
    ensures Conj(HALF) == HALF
  {}

  lemma MinusMinus(a: Mat, b: Mat, c: Mat)
    requires a.r == b.r == c.r && a.c == b.c == c.c
    ensures Minus(Minus(a, b), c) == Minus(Minus(a, c), b)
  {
    Ext(Minus(Minus(a, b), c), Minus(Minus(a, c), b));
  }

  lemma {:induction false} TotalIncrement(ops: seq<CollapseOperator>, rho: Mat, k: nat, herm: bool)
    requires rho.r == rho.c && k <= |ops| && Compatible(ops, rho.r) && (herm ==> Hermitian(rho))
    ensures Increment(TotalDissipator(ops, rho, k), herm)
  {
    hide Plus, Zeros, Increment, Hermitian, Dissipator;
    if k == 0 {
      IncrementZeros(rho.r, herm);
    } else {
      TotalIncrement(ops, rho, k - 1, herm);
      if ops[k - 1].matrix.r == rho.r {
        DissipatorIncrement(ops[k - 1], rho, herm);
        IncrementPlus(TotalDissipator(ops, rho, k - 1), Dissipator(ops[k - 1], rho), herm);
      }
    }
  }

  // The generator annihilates the trace for every H and rho, and maps Hermitian to Hermitian.
  lemma {:induction false} RhsIncrement(h: Mat, ops: seq<CollapseOperator>, rho: Mat, herm: bool)
    requires h.r == h.c == rho.r == rho.c && Compatible(ops, rho.r) && (herm ==> Hermitian(h) && Hermitian(rho))
    ensures Increment(LindbladRhs(h, ops, rho), herm)
  {
    hide Plus, Scale, Minus, Dot, Increment, Hermitian, TotalDissipator;
    CommutatorIncrement(h, rho, herm);
    TotalIncrement(ops, rho, |ops|, herm);
    IncrementPlus(Scale(Neg(IMAG), Minus(Dot(h, rho), Dot(rho, h))), TotalDissipator(ops, rho, |ops|), herm);
  }

  // One RK4 step keeps the trace exactly, and Hermiticity, through all four stages.
  lemma {:induction false} Rk4Preserves(rho: Mat, h: Mat, ops: seq<CollapseOperator>, dt: real, herm: bool)
    requires h.r == h.c == rho.r == rho.c && Compatible(ops, rho.r) && (herm ==> Hermitian(h) && Hermitian(rho))
    ensures Trace(Rk4Step(rho, h, ops, dt)) == Trace(rho)
    ensures herm ==> Hermitian(Rk4Step(rho, h, ops, dt))
  {
    hide Plus, Scale, Increment, Hermitian, LindbladRhs, Trace, Real;
    var k1 := LindbladRhs(h, ops, rho);
    RhsIncrement(h, ops, rho, herm);
    var k2 := Stage(rho, h, ops, 0.5 * dt, k1, herm);
    var k3 := Stage(rho, h, ops, 0.5 * dt, k2, herm);
    var k4 := Stage(rho, h, ops, dt, k3, herm);
    IncrementScale(2.0, k2, herm);
    IncrementScale(2.0, k3, herm);
    var s1 := Plus(k1, Scale(Real(2.0), k2));
    IncrementPlus(k1, Scale(Real(2.0), k2), herm);
    var s2 := Plus(s1, Scale(Real(2.0), k3));
    IncrementPlus(s1, Scale(Real(2.0), k3), herm);
    IncrementPlus(s2, k4, herm);
    IncrementScale(1.0 / 6.0 * dt, Plus(s2, k4), herm);
    AddIncrement(rho, Scale(Real(1.0 / 6.0 * dt), Plus(s2, k4)), herm);
  }

  lemma Stage(rho: Mat, h: Mat, ops: seq<CollapseOperator>, x: real, k: Mat, herm: bool) returns (next: Mat)
    requires h.r == h.c == rho.r == rho.c == k.r && Compatible(ops, rho.r) && (herm ==> Hermitian(h) && Hermitian(rho))
    requires Increment(k, herm)
    ensures k.c == rho.r && next == LindbladRhs(h, ops, Plus(rho, Scale(Real(x), k))) && Increment(next, herm)
  {
    hide Plus, Scale, Hermitian, LindbladRhs, Trace, Real, Dagger;
    IncrementScale(x, k, herm);
    AddIncrement(rho, Scale(Real(x), k), herm);
    next := LindbladRhs(h, ops, Plus(rho, Scale(Real(x), k)));
    RhsIncrement(h, ops, Plus(rho, Scale(Real(x), k)), herm);
  }

  // ---------- the solver ----------

  datatype LindbladConfig = LindbladConfig(numTimeSteps: nat, durationNs: real, ops: seq<CollapseOperator>,
                                           storeTrajectory: bool)
  {
    predicate Valid() {
      numTimeSteps > 0 && durationNs > 0.0 &&
      forall k :: 0 <= k < |ops| ==> ops[k].rate >= 0.0 && ops[k].matrix.r == ops[k].matrix.c
    }

    function DtSeconds(): real
      requires numTimeSteps > 0
    {
      (durationNs / 1_000_000_000.0) / numTimeSteps as real
    }
  }

  // Tr[rho^2]
  function Purity(m: Mat): real {
    Trace(Dot(m, m)).re
  }

  // Tr[t m], the fidelity of m with a pure target t
  function Overlap(t: Mat, m: Mat): real {
    Trace(Dot(t, m)).re
  }

  function Purities(ms: seq<Mat>): seq<real> {
    seq(|ms|, k requires 0 <= k < |ms| => Purity(ms[k]))
  }

  // The fidelity history; without a target there is none.
  function Fidelities(target: Option<Mat>, ms: seq<Mat>): seq<real> {
    match target
    case None => []
    case Some(t) => seq(|ms|, k requires 0 <= k < |ms| => Overlap(t, ms[k]))
  }

  datatype LindbladResult = LindbladResult(finalDensityMatrix: Mat, finalTrace: real, finalPurity: real,
                                           trajectory: seq<Mat>, steps: nat)

  // The state after the first k Hamiltonians.
  function Evolve(rho: Mat, hs: seq<Mat>, ops: seq<CollapseOperator>, dt: real, k: nat): (m: Mat)
    requires rho.r == rho.c && Compatible(ops, rho.r) && k <= |hs|
    requires forall t :: 0 <= t < |hs| ==> hs[t].r == hs[t].c == rho.r
    ensures m.r == m.c == rho.r
  {
    if k == 0 then rho else Rk4Step(Evolve(rho, hs, ops, dt, k - 1), hs[k - 1], ops, dt)
  }

  lemma {:induction false} EvolvePreserves(rho: Mat, hs: seq<Mat>, ops: seq<CollapseOperator>, dt: real, k: nat,
                                           herm: bool)
    requires rho.r == rho.c && Compatible(ops, rho.r) && k <= |hs|
    requires forall t :: 0 <= t < |hs| ==> hs[t].r == hs[t].c == rho.r
    requires herm ==> Hermitian(rho) && forall t :: 0 <= t < |hs| ==> Hermitian(hs[t])
    ensures Trace(Evolve(rho, hs, ops, dt, k)) == Trace(rho)
    ensures herm ==> Hermitian(Evolve(rho, hs, ops, dt, k))
  {
    hide Rk4Step, Trace, Hermitian;
    if k > 0 {
      EvolvePreserves(rho, hs, ops, dt, k - 1, herm);
      Rk4Preserves(Evolve(rho, hs, ops, dt, k - 1), hs[k - 1], ops, dt, herm);
    }
  }

  ghost predicate Accepted(rho: Mat, hs: seq<Mat>, config: LindbladConfig) {
    config.Valid() && rho.r == rho.c && |hs| == config.numTimeSteps
  }

  // Final state, exact trace, purity and stored states; the trajectory is empty when it is not stored.
  ghost predicate Solution(s: LindbladResult, rho: Mat, hs: seq<Mat>, config: LindbladConfig)
    requires Accepted(rho, hs, config) && forall t :: 0 <= t < |hs| ==> hs[t].r == hs[t].c == rho.r
  {
    var dt, n, final := config.DtSeconds(), config.numTimeSteps, s.finalDensityMatrix;
    && s.steps == n
    && final == Evolve(rho, hs, config.ops, dt, n)
    && s.finalTrace == Trace(rho).re
    && s.finalPurity == Purity(final)
    && |s.trajectory| == (if config.storeTrajectory then n + 1 else 0)
    && forall k :: 0 <= k < |s.trajectory| ==> s.trajectory[k] == Evolve(rho, hs, config.ops, dt, k)
  }

  method SolveLindblad(initialRho: Mat, hs: seq<Mat>, config: LindbladConfig) returns (r: Result<LindbladResult>)
    requires forall t :: 0 <= t < |hs| ==> hs[t].r == hs[t].c == initialRho.r
    ensures r.Ok? <==> Accepted(initialRho, hs, config)
    ensures r.Ok? ==> Solution(r.value, initialRho, hs, config)
  {
    hide Rk4Step, Trace, Dot;
    if !config.Valid() { return Err("invalid configuration"); }
    if initialRho.r != initialRho.c { return Err("initial density matrix must be square"); }
    if |hs| != config.numTimeSteps { return Err("wrong number of Hamiltonians"); }
    var dt, n := config.DtSeconds(), config.numTimeSteps;
    var rho := initialRho;
    var trajectory := if config.storeTrajectory then [rho] else [];
    for k := 0 to n
      invariant rho == Evolve(initialRho, hs, config.ops, dt, k)
      invariant if config.storeTrajectory then |trajectory| == k + 1 else trajectory == []
      invariant forall t :: 0 <= t < |trajectory| ==> trajectory[t] == Evolve(initialRho, hs, config.ops, dt, t)
    {
      rho := Rk4Step(rho, hs[k], config.ops, dt);
      if config.storeTrajectory { trajectory := trajectory + [rho]; }
    }
    EvolvePreserves(initialRho, hs, config.ops, dt, n, false);
    r := Ok(LindbladResult(rho, Trace(rho).re, Purity(rho), trajectory, n));
  }

  // ---------- linearity ----------

  lemma OverlapLinear(t: Mat, a: Mat, x: real, b: Mat)
    requires t.r == t.c == a.r == a.c == b.r == b.c
    ensures Overlap(t, Plus(a, Scale(Real(x), b))) == Overlap(t, a) + x * Overlap(t, b)
    ensures Overlap(t, Plus(a, b)) == Overlap(t, a) + Overlap(t, b)
  {
    hide Dot, Plus, Scale, Trace;
    var z := Real(x);
    DotPlus(t, a, Scale(z, b));
    DotPlus(t, a, b);
    DotScale(z, t, b);
    TraceLinear(ONE, Dot(t, a), Scale(z, Dot(t, b)));
    TraceLinear(ONE, Dot(t, a), Dot(t, b));
    TraceLinear(z, Dot(t, b), Dot(t, b));
  }

  lemma MinusOfSums(a: Mat, b: Mat, z: Complex, c: Mat, d: Mat)
    requires a.r == b.r == c.r == d.r && a.c == b.c == c.c == d.c
    ensures Minus(Plus(a, Scale(z, c)), Plus(b, Scale(z, d))) == Plus(Minus(a, b), Scale(z, Minus(c, d)))
  {
    hide Mul;
    var l, r := Minus(Plus(a, Scale(z, c)), Plus(b, Scale(z, d))), Plus(Minus(a, b), Scale(z, Minus(c, d)));
    forall i, j | 0 <= i < a.r && 0 <= j < a.c ensures At(l, i, j) == At(r, i, j) {
      MulSub(z, At(c, i, j), At(d, i, j));
    }
    Ext(l, r);
  }

  lemma MulSub(z: Complex, a: Complex, b: Complex)
    ensures Mul(z, Sub(a, b)) == Sub(Mul(z, a), Mul(z, b))
  {}
}
