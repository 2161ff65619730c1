// The Lyapunov feedback law and its latency buffer: hal/src/feedback/lyapunov.rs,
// core/src/qubitos/feedback/controller.py.
module Feedback {
  import opened Wrappers
  import opened ComplexNumbers
  import opened Matrices
  import opened Lindblad

  datatype ControlAxis = X | Y | Z {
    function Index(): nat {
      match this case X => 0 case Y => 1 case Z => 2
    }
  }

  function AxisPauli(axis: ControlAxis): (m: Mat)
    ensures m.r == m.c == 2
  {
    match axis
    case X => Build(2, 2, (i, j) => if i != j then ONE else ZERO)
    case Y => Build(2, 2, (i, j) => if i == j then ZERO else if i == 0 then Complex(0.0, -1.0) else IMAG)
    case Z => Build(2, 2, (i, j) => if i != j then ZERO else if i == 0 then ONE else Real(-1.0))
  }

  type GainMatrix = k: seq<real> | |k| == 9 witness seq(9, _ => 0.0)

  datatype FeedbackConfig = FeedbackConfig(axes: seq<ControlAxis>, gains: seq<real>, cap: real,
                                           full: Option<GainMatrix>)
  {
    predicate Valid() {
      axes != [] && (full.None? ==> |gains| == 1 || |gains| == |axes|)
    }

    // A single gain is broadcast to every axis.
    function GainVector(): (g: seq<real>)
      requires Valid() && full.None?
      ensures |g| == |axes|
    {
      if |gains| == 1 then seq(|axes|, _ => gains[0]) else gains
    }
  }

  // Tr[rho_target [i sigma / 2, rho]] for one axis
  function Projection(rho: Mat, target: Mat, axis: ControlAxis): real {
    var gen := Scale(Mul(IMAG, HALF), AxisPauli(axis));
    Overlap(target, Minus(Dot(gen, rho), Dot(rho, gen)))
  }

  function ClampReal(x: real, cap: real): real {
    if x < -cap then -cap else if x > cap then cap else x
  }

  // Row i of the gain matrix against the three projections, accumulated from zero.
  function RowProduct(g: GainMatrix, i: nat, x: real, y: real, z: real): real
    requires i < 3
  {
    ((0.0 + g[3 * i] * x) + g[3 * i + 1] * y) + g[3 * i + 2] * z
  }

  // The projections on the canonical axes (x, y, z).
  function Projections(rho: Mat, target: Mat): (p: seq<real>)
    ensures |p| == 3
    ensures (hide Projection;
      p[0] == Projection(rho, target, X) && p[1] == Projection(rho, target, Y) && p[2] == Projection(rho, target, Z))
  {
    hide Projection;
    [Projection(rho, target, X), Projection(rho, target, Y), Projection(rho, target, Z)]
  }

  function DiagonalEntry(gain: real, projection: real): real {
    -gain * projection
  }

  // The correction before saturation, from the three projections.
  function RawCorrection(p: seq<real>, config: FeedbackConfig, k: nat): real
    requires |p| == 3 && config.Valid() && k < |config.axes|
  {
    var i := config.axes[k].Index();
    match config.full
    case None => DiagonalEntry(config.GainVector()[k], p[i])
    case Some(g) => -RowProduct(g, i, p[0], p[1], p[2])
  }

  function Correction(p: seq<real>, config: FeedbackConfig, k: nat): real
    requires |p| == 3 && config.Valid() && k < |config.axes|
  {
    var v := RawCorrection(p, config, k);
    if config.cap > 0.0 then ClampReal(v, config.cap) else v
  }

  function Corrections(p: seq<real>, config: FeedbackConfig): (delta: seq<real>)
    requires |p| == 3 && config.Valid()
    ensures |delta| == |config.axes|
  {
    hide Correction;
    seq(|config.axes|, k requires 0 <= k < |config.axes| => Correction(p, config, k))
  }

  // With a cap the correction is the raw value, moved to the nearer end of [-cap, cap] when it lies outside.
  lemma CorrectionSaturates(p: seq<real>, config: FeedbackConfig, k: nat)
    requires |p| == 3 && config.Valid() && k < |config.axes|
    ensures var raw, v := RawCorrection(p, config, k), Correction(p, config, k);
            && (config.cap <= 0.0 ==> v == raw)
            && (config.cap > 0.0 ==> -config.cap <= v <= config.cap)
            && (config.cap > 0.0 && -config.cap <= raw <= config.cap ==> v == raw)
            && (config.cap > 0.0 && raw > config.cap ==> v == config.cap)
            && (config.cap > 0.0 && raw < -config.cap ==> v == -config.cap)
  {
    hide RawCorrection;
  }

  method CanonicalBasisProjections(rho: Mat, target: Mat) returns (p: array<real>)
    ensures fresh(p) && p[..] == Projections(rho, target)
  {
    hide Projection;
    p := new real[3];
    var axes := [X, Y, Z];
    for k := 0 to 3
      invariant forall t :: 0 <= t < k ==> p[t] == Projection(rho, target, axes[t])
    {
      p[axes[k].Index()] := Projection(rho, target, axes[k]);
    }
    assert axes[0] == X && axes[1] == Y && axes[2] == Z;
  }

  method MatrixTimesProjections(full: GainMatrix, p: seq<real>) returns (fullCorr: array<real>)
    requires |p| == 3
    ensures fresh(fullCorr) && fullCorr.Length == 3
    ensures forall i :: 0 <= i < 3 ==> fullCorr[i] == -RowProduct(full, i, p[0], p[1], p[2])
  {
    fullCorr := new real[3];
    for i := 0 to 3
      invariant forall t :: 0 <= t < i ==> fullCorr[t] == -RowProduct(full, t, p[0], p[1], p[2])
    {
      var acc := 0.0;
      acc := acc + full[3 * i] * p[0];
      acc := acc + full[3 * i + 1] * p[1];
      acc := acc + full[3 * i + 2] * p[2];
      fullCorr[i] := -acc;
    }
  }

  method UnsaturatedCorrection(p: seq<real>, config: FeedbackConfig) returns (correction: array<real>)
    requires |p| == 3 && config.Valid()
    ensures fresh(correction) && correction.Length == |config.axes|
    ensures forall k :: 0 <= k < |config.axes| ==> correction[k] == RawCorrection(p, config, k)
  {
    hide RowProduct, DiagonalEntry;
    var n := |config.axes|;
    correction := new real[n];
    if config.full.Some? {
      var fullCorr := MatrixTimesProjections(config.full.value, p);
      var rows := fullCorr[..];
      for k := 0 to n
        invariant forall t :: 0 <= t < k ==> correction[t] == RawCorrection(p, config, t)
      {
        correction[k] := rows[config.axes[k].Index()];
      }
    } else {
      var gains := config.GainVector();
      for k := 0 to n
        invariant forall t :: 0 <= t < k ==> correction[t] == RawCorrection(p, config, t)
      {
        correction[k] := DiagonalEntry(gains[k], p[config.axes[k].Index()]);
      }
    }
  }

  method Saturate(correction: array<real>, cap: real)
    modifies correction
    ensures forall k :: 0 <= k < correction.Length ==> correction[k] == ClampReal(old(correction[k]), cap)
  {
    for k := 0 to correction.Length
      invariant forall t :: 0 <= t < correction.Length ==>
        correction[t] == if t < k then ClampReal(old(correction[t]), cap) else old(correction[t])
    {
      correction[k] := ClampReal(correction[k], cap);
    }
  }

  // None is the error return: a matrix that is not 2x2 or an inconsistent configuration.
  method FeedbackCorrection(rho: Mat, target: Mat, config: FeedbackConfig) returns (r: Option<seq<real>>)
    ensures r.Some? <==> rho.r == rho.c == 2 && target.r == target.c == 2 && config.Valid()
    ensures r.Some? ==> r.value == Corrections(Projections(rho, target), config)
  {
    hide Projection, Projections, RawCorrection, ClampReal, Corrections;
    if !(rho.r == rho.c == 2 && target.r == target.c == 2 && config.Valid()) { return None; }
    var projections := CanonicalBasisProjections(rho, target);
    var p := projections[..];
    var correction := UnsaturatedCorrection(p, config);
    if config.cap > 0.0 { Saturate(correction, config.cap); }
    var v := correction[..];
    CorrectionsExt(p, config, v);
    r := Some(v);
  }

  lemma CorrectionsExt(p: seq<real>, config: FeedbackConfig, v: seq<real>)
    requires |p| == 3 && config.Valid() && |v| == |config.axes|
    requires forall k :: 0 <= k < |v| ==>
      v[k] == if config.cap > 0.0 then ClampReal(RawCorrection(p, config, k), config.cap)
        else RawCorrection(p, config, k)
    ensures v == Corrections(p, config)
  {
    hide RawCorrection, ClampReal;
  }

  // ---------- the law descends ----------

  // H + sum_k delta_k sigma_k / 2, as the controller adds it
  function Controlled(h: Mat, axes: seq<ControlAxis>, delta: seq<real>): (m: Mat)
    requires h.r == h.c == 2 && |delta| == |axes|
    ensures m.r == m.c == 2
  {
    if axes == [] then h else
      var n := |axes| - 1;
      Plus(Controlled(h, axes[..n], delta[..n]), Scale(Real(delta[n]), Scale(HALF, AxisPauli(axes[n]))))
  }

  // The rate of V = 1 - Re Tr[target rho] along the Lindblad flow.
  function LyapunovRate(target: Mat, h: Mat, ops: seq<CollapseOperator>, rho: Mat): real
    requires h.r == h.c == rho.r == rho.c && Compatible(ops, rho.r)
  {
    -Overlap(target, LindbladRhs(h, ops, rho))
  }

  lemma CommutatorLinear(h: Mat, x: real, g: Mat, rho: Mat)
    requires h.r == h.c == g.r == g.c == rho.r == rho.c
    ensures Commutator(Plus(h, Scale(Real(x), g)), rho) == Plus(Commutator(h, rho), Scale(Real(x), Commutator(g, rho)))
  {
    hide Dot, Plus, Scale, Minus, Mul, Real;
    var z, w := Real(x), Neg(IMAG);
    PlusDot(h, Scale(z, g), rho);
    DotPlus(rho, h, Scale(z, g));
    DotScale(z, g, rho);
    DotScale(z, rho, g);
    var a, b, c, d := Dot(h, rho), Dot(rho, h), Dot(g, rho), Dot(rho, g);
    MinusOfSums(a, b, z, c, d);
    ScalePlus(w, Minus(a, b), Scale(z, Minus(c, d)));
    ScaleLaws(w, z, Minus(c, d));
    ScaleLaws(z, w, Minus(c, d));
    MulComm(w, z);
  }

  // The commutator with sigma / 2 is minus the generator's commutator, so its overlap is minus the projection.
  lemma ProjectionIsCommutator(rho: Mat, target: Mat, axis: ControlAxis)
    requires rho.r == rho.c == target.r == target.c == 2
    ensures Overlap(target, Commutator(Scale(HALF, AxisPauli(axis)), rho)) == -Projection(rho, target, axis)
  {
    hide Dot, Plus, Scale, Minus, Trace, AxisPauli, Mul;
    var s, z := AxisPauli(axis), Mul(IMAG, HALF);
    DotScale(HALF, s, rho);
    DotScale(HALF, rho, s);
    DotScale(z, s, rho);
    DotScale(z, rho, s);
    var a, b := Dot(s, rho), Dot(rho, s);
    ScaleMinus(HALF, a, b);
    ScaleMinus(z, a, b);
    var m := Minus(a, b);
    ScaleLaws(Neg(IMAG), HALF, m);
    NegHalfImag();
    ScaleLaws(Real(-1.0), z, m);
    DotScale(Real(-1.0), target, Scale(z, m));
    TraceLinear(Real(-1.0), Dot(target, Scale(z, m)), Dot(target, Scale(z, m)));
    MulUnit(Trace(Dot(target, Scale(z, m))));
  }

  lemma NegHalfImag()
    ensures Mul(Neg(IMAG), HALF) == Mul(Real(-1.0), Mul(IMAG, HALF))
  {
    hide Mul;
    MulUnit(IMAG);
    MulUnit(Mul(IMAG, HALF));
    MulAssoc(Real(-1.0), IMAG, HALF);
  }

  lemma ScaleMinus(z: Complex, a: Mat, b: Mat)
    requires a.r == b.r && a.c == b.c
    ensures Minus(Scale(z, a), Scale(z, b)) == Scale(z, Minus(a, b))
  {
    hide Mul;
    forall i, j | 0 <= i < a.r && 0 <= j < a.c
      ensures At(Minus(Scale(z, a), Scale(z, b)), i, j) == At(Scale(z, Minus(a, b)), i, j)
    {
      MulSub(z, At(a, i, j), At(b, i, j));
    }
    Ext(Minus(Scale(z, a), Scale(z, b)), Scale(z, Minus(a, b)));
  }

  function WeightedSum(rho: Mat, target: Mat, axes: seq<ControlAxis>, delta: seq<real>): real
    requires |delta| == |axes|
  {
    if axes == [] then 0.0 else
      var n := |axes| - 1;
      WeightedSum(rho, target, axes[..n], delta[..n]) + delta[n] * Projection(rho, target, axes[n])
  }

  // Adding the corrections changes the rate of V by exactly sum_k delta_k p_k, whatever H, the collapse
  // operators and the state are.
  lemma {:induction false} RateShift(target: Mat, h: Mat, ops: seq<CollapseOperator>, rho: Mat,
                                     axes: seq<ControlAxis>, delta: seq<real>)
    requires h.r == h.c == rho.r == rho.c == target.r == target.c == 2 && Compatible(ops, 2) && |delta| == |axes|
    ensures LyapunovRate(target, Controlled(h, axes, delta), ops, rho) ==
            LyapunovRate(target, h, ops, rho) + WeightedSum(rho, target, axes, delta)
  {
    hide Plus, Scale, Overlap, Commutator, AxisPauli, Projection, Real, TotalDissipator, Minus, Dot;
    if axes != [] {
      var n := |axes| - 1;
      var before, g := Controlled(h, axes[..n], delta[..n]), Scale(HALF, AxisPauli(axes[n]));
      RateShift(target, h, ops, rho, axes[..n], delta[..n]);
      CommutatorLinear(before, delta[n], g, rho);
      ProjectionIsCommutator(rho, target, axes[n]);
      var total := TotalDissipator(ops, rho, |ops|);
      RhsSplit(before, ops, rho);
      RhsSplit(Controlled(h, axes, delta), ops, rho);
      OverlapLinear(target, Commutator(Controlled(h, axes, delta), rho), 0.0, total);
      OverlapLinear(target, Commutator(before, rho), 0.0, total);
      OverlapLinear(target, Commutator(before, rho), delta[n], Commutator(g, rho));
      assert delta[n] * -Projection(rho, target, axes[n]) == -(delta[n] * Projection(rho, target, axes[n]));
    }
  }

  lemma RhsSplit(h: Mat, ops: seq<CollapseOperator>, rho: Mat)
    requires h.r == h.c == rho.r == rho.c && Compatible(ops, rho.r)
    ensures LindbladRhs(h, ops, rho) == Plus(Commutator(h, rho), TotalDissipator(ops, rho, |ops|))
  {}

  // Non-negative diagonal gains, broadcast or per axis; saturation keeps the sign of each correction.
  lemma CorrectionOpposes(p: seq<real>, config: FeedbackConfig, k: nat)
    requires |p| == 3 && config.Valid() && k < |config.axes| && config.full.None?
    requires forall i :: 0 <= i < |config.gains| ==> config.gains[i] >= 0.0
    ensures var v, x := Correction(p, config, k), p[config.axes[k].Index()];
            v * x <= 0.0 && (v * x == 0.0 <==> v == 0.0)
  {
    SaturatedProduct(config.GainVector()[k], p[config.axes[k].Index()], config.cap);
  }

  lemma SaturatedProduct(g: real, p: real, cap: real)
    requires g >= 0.0
    ensures var raw := -g * p;
            var v := if cap > 0.0 then ClampReal(raw, cap) else raw;
            v * p <= 0.0 && (v * p == 0.0 <==> v == 0.0)
  {
    var raw := -g * p;
    Square(p);
    ProductNonNegative(g, p * p);
    assert raw * p == -(g * (p * p));
    if g == 0.0 || p == 0.0 {
      assert raw == 0.0;
    } else if p > 0.0 {
      assert g * p > 0.0;
      assert (g * p) * p > 0.0 && cap > 0.0 ==> cap * p > 0.0;
    } else {
      assert g * -p > 0.0;
      assert (g * -p) * -p > 0.0 && cap > 0.0 ==> cap * -p > 0.0;
    }
  }

  // The feedback never raises the rate of V, and lowers it strictly unless every correction is zero.
  lemma {:induction false} FeedbackDescends(target: Mat, h: Mat, ops: seq<CollapseOperator>, rho: Mat,
                                            config: FeedbackConfig)
    requires h.r == h.c == rho.r == rho.c == target.r == target.c == 2 && Compatible(ops, 2)
    requires config.Valid() && config.full.None? && forall i :: 0 <= i < |config.gains| ==> config.gains[i] >= 0.0
    ensures (hide Projections, LyapunovRate;
            var delta := Corrections(Projections(rho, target), config);
            var rate, free := LyapunovRate(target, Controlled(h, config.axes, delta), ops, rho),
              LyapunovRate(target, h, ops, rho);
            rate <= free && (rate == free <==> forall k :: 0 <= k < |delta| ==> delta[k] == 0.0))
  {
    hide Projection, Correction, LyapunovRate, Controlled;
    var p := Projections(rho, target);
    var delta := Corrections(p, config);
    RateShift(target, h, ops, rho, config.axes, delta);
    forall k | 0 <= k < |delta|
      ensures delta[k] * Projection(rho, target, config.axes[k]) <= 0.0
      ensures delta[k] * Projection(rho, target, config.axes[k]) == 0.0 <==> delta[k] == 0.0
    {
      CorrectionOpposes(p, config, k);
    }
    WeightedSumSign(rho, target, config.axes, delta);
  }

  lemma {:induction false} WeightedSumSign(rho: Mat, target: Mat, axes: seq<ControlAxis>, delta: seq<real>)
    requires |delta| == |axes|
    requires forall k :: 0 <= k < |axes| ==> delta[k] * Projection(rho, target, axes[k]) <= 0.0
    requires forall k :: 0 <= k < |axes| ==> (delta[k] * Projection(rho, target, axes[k]) == 0.0 <==> delta[k] == 0.0)
    ensures WeightedSum(rho, target, axes, delta) <= 0.0
    ensures WeightedSum(rho, target, axes, delta) == 0.0 <==> forall k :: 0 <= k < |axes| ==> delta[k] == 0.0
  {
    hide Projection;
    if axes != [] {
      var n := |axes| - 1;
      WeightedSumSign(rho, target, axes[..n], delta[..n]);
      if forall k :: 0 <= k < n ==> delta[..n][k] == 0.0 {
        assert forall k :: 0 <= k < n ==> delta[k] == delta[..n][k];
      } else {
        var k :| 0 <= k < n && delta[..n][k] != 0.0;
        assert delta[k] != 0.0;
      }
    }
  }

  function DiagonalGain(gx: real, gy: real, gz: real): GainMatrix {
    [gx, 0.0, 0.0, 0.0, gy, 0.0, 0.0, 0.0, gz]
  }

  // A diagonal 3x3 gain matrix gives the corrections of the per-axis path.
  lemma DiagonalMatrixPath(p: seq<real>, config: FeedbackConfig, gx: real, gy: real, gz: real)
    requires |p| == 3 && config.Valid() && config.full.Some? && config.full.value == DiagonalGain(gx, gy, gz)
    ensures var gains := seq(|config.axes|, i requires 0 <= i < |config.axes| => [gx, gy, gz][config.axes[i].Index()]);
            Corrections(p, config) == Corrections(p, config.(full := None, gains := gains))
  {
    var gains := seq(|config.axes|, i requires 0 <= i < |config.axes| => [gx, gy, gz][config.axes[i].Index()]);
    var diagonal := config.(full := None, gains := gains);
    forall k | 0 <= k < |config.axes|
      ensures Correction(p, config, k) == Correction(p, diagonal, k)
    {
      assert diagonal.GainVector()[k] == gains[k];
      RowOfDiagonal(gx, gy, gz, config.axes[k], p);
    }
  }

  lemma RowOfDiagonal(gx: real, gy: real, gz: real, axis: ControlAxis, p: seq<real>)
    requires |p| == 3
    ensures RowProduct(DiagonalGain(gx, gy, gz), axis.Index(), p[0], p[1], p[2]) ==
      [gx, gy, gz][axis.Index()] * p[axis.Index()]
  {}

  // ---------- the latency buffer ----------

  // delay_ns / dt_ns rounded to an integer; round is a parameter because Python rounds half to even.
  function DepthOf(delayNs: real, dtNs: real, round: real -> int): (n: nat)
    ensures delayNs <= 0.0 ==> n == 0
  {
    if delayNs <= 0.0 || dtNs <= 0.0 || round(delayNs / dtNs) < 0 then 0 else round(delayNs / dtNs)
  }

  // Python's round: to the nearest integer, and to the even one of two
  ghost predicate RoundsHalfEven(round: real -> int) {
    forall x: real :: -0.5 <= round(x) as real - x <= 0.5 &&
      (round(x) as real - x == 0.5 || x - round(x) as real == 0.5 ==> round(x) % 2 == 0)
  }

  // The age depth * dt of an applied correction is within half a step of the delay. It reaches the delay exactly when
  // the quotient is not rounded down, and the depth is the integer part of the quotient exactly when it is not
  // rounded up.
  lemma DelayReached(delayNs: real, dtNs: real, round: real -> int)
    requires RoundsHalfEven(round) && delayNs > 0.0 && dtNs > 0.0
    ensures var depth, whole := DepthOf(delayNs, dtNs, round), (delayNs / dtNs).Floor;
            var part := delayNs / dtNs - whole as real;
            && -0.5 * dtNs <= depth as real * dtNs - delayNs <= 0.5 * dtNs
            && (depth as real * dtNs >= delayNs <==> part == 0.0 || part > 0.5 || (part == 0.5 && whole % 2 == 1))
            && (depth == whole <==> part < 0.5 || (part == 0.5 && whole % 2 == 0))
  {
    var q := delayNs / dtNs;
    var whole, n := q.Floor, round(q);
    assert q * dtNs == delayNs;
    ScaledNonNegative(dtNs, q);
    assert whole as real <= q < whole as real + 1.0;
    assert whole as real - 0.5 <= n as real <= whole as real + 1.5;
    assert n == whole || n == whole + 1;
    var depth := DepthOf(delayNs, dtNs, round);
    assert depth == n;
    assert (n as real - q) * dtNs == n as real * dtNs - delayNs;
    ScaledNonNegative(dtNs, n as real - q);
    ScaledNonNegative(dtNs, 0.5 - (n as real - q));
    ScaledNonNegative(dtNs, n as real - q + 0.5);
  }

  // A delay of 1.4 steps gives an age of one step, less than the delay; one of 1.6 steps gives a depth above its
  // integer part.
  lemma RoundedDelays(round: real -> int)
    requires RoundsHalfEven(round)
    ensures DepthOf(7.0, 5.0, round) == 1 && DepthOf(8.0, 5.0, round) == 2
  {
    assert 7.0 / 5.0 == 1.4 && 8.0 / 5.0 == 1.6;
    assert -0.5 <= round(1.4) as real - 1.4 <= 0.5 && -0.5 <= round(1.6) as real - 1.6 <= 0.5;
  }

  // What the k-th tick returns for the samples seen so far.
  function Delayed<T>(samples: seq<T>, depth: nat, k: nat, zero: T): T
    requires k < |samples|
  {
    if k < depth then zero else samples[k - depth]
  }

  class FeedbackDelayBuffer<T> {
    const depth: nat
    var queue: seq<T>
    ghost var samples: seq<T>

    ghost predicate Valid()
      reads this
    {
      depth > 0 ==> queue == samples[if |samples| < depth then 0 else |samples| - depth..]
    }

    constructor (delayNs: real, dtNs: real, round: real -> int)
      ensures Valid() && samples == [] && depth == DepthOf(delayNs, dtNs, round)
    {
      depth := DepthOf(delayNs, dtNs, round);
      queue, samples := [], [];
    }

    // Every tick of a run returns the sample of depth ticks ago, or zero before the buffer has filled.
    method Tick(sample: T, zero: T) returns (applied: T)
      requires Valid()
      modifies this
      ensures Valid() && samples == old(samples) + [sample]
      ensures applied == Delayed(samples, depth, |old(samples)|, zero)
    {
      samples := samples + [sample];
      if depth == 0 { return sample; }
      queue := queue + [sample];
      if |queue| > depth {
        applied := queue[0];
        queue := queue[1..];
      } else {
        applied := zero;
      }
    }
  }
}
