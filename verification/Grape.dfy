// Propagator chains, gate fidelity, gradients and the optimiser loop: hal/src/grape/optimize.rs.
module Grape {
  import opened ComplexNumbers
  import opened Matrices
  import opened MatrixExponential

  // ---------- propagator chains ----------

  ghost predicate AllSquare(us: seq<Mat>, d: nat) {
    forall k :: 0 <= k < |us| ==> us[k].r == us[k].c == d
  }

  // U_{hi-1} ... U_{lo}
  function Product(us: seq<Mat>, d: nat, lo: nat, hi: nat): (p: Mat)
    requires lo <= hi <= |us| && AllSquare(us, d)
    ensures p.r == p.c == d
    decreases hi - lo
  {
    if lo == hi then Id(d) else Dot(us[hi - 1], Product(us, d, lo, hi - 1))
  }

  lemma {:induction false} ProductSplit(us: seq<Mat>, d: nat, lo: nat, mid: nat, hi: nat)
    requires lo <= mid <= hi <= |us| && AllSquare(us, d)
    ensures Product(us, d, lo, hi) == Dot(Product(us, d, mid, hi), Product(us, d, lo, mid))
    decreases hi - mid
  {
    hide Dot, Id;
    if mid == hi {
      IdLaws(Product(us, d, lo, mid));
    } else {
      ProductSplit(us, d, lo, mid, hi - 1);
      DotAssoc(us[hi - 1], Product(us, d, mid, hi - 1), Product(us, d, lo, mid));
    }
  }

  lemma {:induction false} ProductSame(us: seq<Mat>, vs: seq<Mat>, d: nat, lo: nat, hi: nat)
    requires lo <= hi <= |us| == |vs| && AllSquare(us, d) && AllSquare(vs, d)
    requires forall k :: lo <= k < hi ==> us[k] == vs[k]
    ensures Product(us, d, lo, hi) == Product(vs, d, lo, hi)
    decreases hi - lo
  {
    if lo < hi { ProductSame(us, vs, d, lo, hi - 1); }
  }

  method ChainPropagators(us: seq<Mat>, ghost d: nat) returns (result: Mat)
    requires |us| > 0 && AllSquare(us, d)
    ensures result == Product(us, d, 0, |us|)
  {
    result := Id(us[0].r);
    for k := 0 to |us|
      invariant result == Product(us, d, 0, k)
    {
      result := Dot(us[k], result);
    }
  }

  method ForwardChain(us: seq<Mat>, ghost d: nat) returns (chain: seq<Mat>)
    requires |us| > 0 && AllSquare(us, d)
    ensures |chain| == |us| + 1
    ensures forall k :: 0 <= k <= |us| ==> chain[k] == Product(us, d, 0, k)
  {
    chain := [Id(us[0].r)];
    for k := 0 to |us|
      invariant |chain| == k + 1
      invariant forall t :: 0 <= t <= k ==> chain[t] == Product(us, d, 0, t)
    {
      var prev := chain[|chain| - 1];
      chain := chain + [Dot(us[k], prev)];
    }
  }

  method BackwardChain(us: seq<Mat>, ghost d: nat) returns (chain: seq<Mat>)
    requires |us| > 0 && AllSquare(us, d)
    ensures |chain| == |us| + 1
    ensures forall k :: 0 <= k <= |us| ==> chain[k] == Product(us, d, k, |us|)
  {
    hide Dot;
    var n := |us|;
    chain := seq(n + 1, k => Id(us[0].r));
    var k := n;
    while k > 0
      invariant 0 <= k <= n && |chain| == n + 1
      invariant forall t :: k <= t <= n ==> chain[t] == Product(us, d, t, n)
    {
      k := k - 1;
      chain := chain[k := Dot(chain[k + 1], us[k])];
      ProductSplit(us, d, k, k + 1, n);
      ProductOne(us, d, k);
    }
  }

  lemma ProductOne(us: seq<Mat>, d: nat, k: nat)
    requires k < |us| && AllSquare(us, d)
    ensures Product(us, d, k, k + 1) == us[k]
  {
    hide Dot, Id;
    assert Product(us, d, k, k + 1) == Dot(us[k], Product(us, d, k, k));
    IdLaws(us[k]);
  }

  // Replacing U_t by U_t + D adds exactly backward[t+1] D forward[t] to the total.
  lemma {:induction false} ProductPerturb(us: seq<Mat>, d: nat, t: nat, delta: Mat)
    requires t < |us| && AllSquare(us, d) && delta.r == delta.c == d
    ensures var vs := us[t := Plus(us[t], delta)];
            AllSquare(vs, d) &&
            Product(vs, d, 0, |us|) ==
            Plus(Product(us, d, 0, |us|), Dot(Product(us, d, t + 1, |us|), Dot(delta, Product(us, d, 0, t))))
  {
    hide Dot, Plus, Id;
    var vs, n := us[t := Plus(us[t], delta)], |us|;
    var f, b := Product(us, d, 0, t), Product(us, d, t + 1, n);
    ProductSplit(us, d, 0, t + 1, n);
    ProductSplit(vs, d, 0, t + 1, n);
    ProductSame(us, vs, d, 0, t);
    ProductSame(us, vs, d, t + 1, n);
    assert Product(us, d, 0, t + 1) == Dot(us[t], f);
    assert Product(vs, d, 0, t + 1) == Dot(Plus(us[t], delta), f);
    PlusDot(us[t], delta, f);
    DotPlus(b, Dot(us[t], f), Dot(delta, f));
  }

  lemma {:induction false} ProductUnitary(us: seq<Mat>, d: nat, lo: nat, hi: nat)
    requires lo <= hi <= |us| && AllSquare(us, d)
    requires forall k :: lo <= k < hi ==> Unitary(us[k])
    ensures Unitary(Product(us, d, lo, hi))
    decreases hi - lo
  {
    hide Dot, Id, Unitary;
    if lo == hi {
      IdUnitary(d);
    } else {
      ProductUnitary(us, d, lo, hi - 1);
      UnitaryDot(us[hi - 1], Product(us, d, lo, hi - 1));
    }
  }

  // ---------- the overlap Tr(W^dagger U) ----------

  function Inner(a: Mat, b: Mat): Complex {
    Trace(Dot(Dagger(a), b))
  }

  lemma InnerLinear(a: Mat, x: Complex, b: Mat, y: Complex, c: Mat)
    requires a.r == b.r == c.r && a.c == b.c == c.c
    ensures Inner(a, Plus(Scale(x, b), Scale(y, c))) == Add(Mul(x, Inner(a, b)), Mul(y, Inner(a, c)))
  {
    hide Dot, Plus, Scale, Dagger, Trace, Mul, Add;
    var h := Dagger(a);
    DotPlus(h, Scale(x, b), Scale(y, c));
    DotScale(x, h, b);
    DotScale(y, h, c);
    TraceLinear(x, Dot(h, b), Dot(h, b));
    TraceLinear(y, Dot(h, c), Dot(h, c));
    TraceLinear(ONE, Scale(x, Dot(h, b)), Scale(y, Dot(h, c)));
  }

  lemma InnerConj(a: Mat, b: Mat)
    requires a.r == b.r && a.c == b.c
    ensures Inner(b, a) == Conj(Inner(a, b))
  {
    hide Dot, Dagger, Trace, Conj;
    DaggerDot(Dagger(a), b);
    DaggerDagger(a);
    var p := Dot(Dagger(a), b);
    TraceLinear(ONE, p, p);
  }

  // Tr(M^dagger M) is real and non-negative, and zero only for M = 0.
  ghost predicate NonNegativeReal(z: Complex) {
    z.re >= 0.0 && z.im == 0.0
  }

  lemma {:induction false} SumNonNegative(n: nat, f: int -> Complex)
    requires forall k :: 0 <= k < n ==> NonNegativeReal(f(k))
    ensures NonNegativeReal(Sum(n, f))
  {
    if n > 0 { SumNonNegative(n - 1, f); }
  }

  lemma {:induction false} SumZeroTerm(n: nat, f: int -> Complex, k: int)
    requires forall i :: 0 <= i < n ==> NonNegativeReal(f(i))
    requires Sum(n, f) == ZERO && 0 <= k < n
    ensures f(k) == ZERO
  {
    hide Add, NonNegativeReal;
    SumNonNegative(n - 1, f);
    NonNegativeAdd(Sum(n - 1, f), f(n - 1));
    if k < n - 1 { SumZeroTerm(n - 1, f, k); }
  }

  lemma NonNegativeAdd(a: Complex, b: Complex)
    ensures NonNegativeReal(a) && NonNegativeReal(b) && Add(a, b) == ZERO ==> a == ZERO && b == ZERO
  {}

  lemma {:induction false} GramNonNegative(m: Mat)
    ensures NonNegativeReal(Inner(m, m))
    ensures Inner(m, m) == ZERO ==> m == Zeros(m.r, m.c)
  {
    hide Mul, Sum, Conj, NormSqr, Dot, Dagger, NonNegativeReal;
    var g := Dot(Dagger(m), m);
    var f := i => At(g, i, i);
    forall i | 0 <= i < m.c ensures NonNegativeReal(f(i)) {
      GramDiagonal(m, i);
    }
    SumNonNegative(m.c, f);
    assert Inner(m, m) == Sum(m.c, f);
    if Inner(m, m) == ZERO {
      forall k, i | 0 <= k < m.r && 0 <= i < m.c
        ensures At(m, k, i) == At(Zeros(m.r, m.c), k, i)
      {
        SumZeroTerm(m.c, f, i);
        GramDiagonal(m, i);
      }
      Ext(m, Zeros(m.r, m.c));
    }
  }

  lemma {:induction false} GramDiagonal(m: Mat, i: int)
    requires 0 <= i < m.c
    ensures var z := At(Dot(Dagger(m), m), i, i);
            NonNegativeReal(z) && (z == ZERO ==> forall k :: 0 <= k < m.r ==> At(m, k, i) == ZERO)
  {
    hide Mul, Sum, Conj, NormSqr;
    var f := k => Mul(At(Dagger(m), i, k), At(m, k, i));
    forall k | 0 <= k < m.r
      ensures NonNegativeReal(f(k)) && (f(k) == ZERO <==> At(m, k, i) == ZERO)
    {
      ConjLaws(At(m, k, i), At(m, k, i));
      NonZeroNorm(At(m, k, i));
    }
    SumNonNegative(m.r, f);
    SumExt(m.r, f, k => Mul(At(Dagger(m), i, k), At(m, k, i)));
    if Sum(m.r, f) == ZERO {
      forall k | 0 <= k < m.r ensures At(m, k, i) == ZERO {
        SumZeroTerm(m.r, f, k);
      }
    }
  }

  lemma {:induction false} TraceId(n: nat, k: nat)
    requires k <= n
    ensures Sum(k, i => At(Id(n), i, i)) == Real(k as real)
  {
    if k > 0 { TraceId(n, k - 1); }
  }

  lemma UnitaryInner(u: Mat)
    requires Unitary(u)
    ensures Inner(u, u) == Real(u.r as real)
  {
    hide Dot, Dagger;
    TraceId(u.r, u.r);
  }

  // The Gram value of d U - chi W, with chi = Tr(W^dagger U), is d (d^2 - |chi|^2).
  lemma {:induction false} GramOfDifference(w: Mat, u: Mat)
    requires Unitary(w) && Unitary(u) && w.r == u.r
    ensures var d, chi := u.r as real, Inner(w, u);
            var m := Plus(Scale(Real(d), u), Scale(Neg(chi), w));
            Inner(m, m) == Real(d * (d * d - NormSqr(chi)))
  {
    hide Unitary, Inner, Plus, Scale;
    UnitaryShape(w);
    UnitaryShape(u);
    var d, chi := u.r as real, Inner(w, u);
    var x, y := Real(d), Neg(chi);
    var m := Plus(Scale(x, u), Scale(y, w));
    UnitaryInner(u);
    UnitaryInner(w);
    InnerConj(w, u);
    InnerLinear(m, x, u, y, w);
    InnerConj(u, m);
    InnerConj(w, m);
    InnerLinear(u, x, u, y, w);
    InnerLinear(w, x, u, y, w);
    GramArithmetic(d, chi, Inner(u, m), Inner(w, m), Inner(m, m));
  }

  lemma GramArithmetic(d: real, chi: Complex, um: Complex, wm: Complex, mm: Complex)
    requires um == Add(Mul(Real(d), Real(d)), Mul(Neg(chi), Conj(chi)))
    requires wm == Add(Mul(Real(d), chi), Mul(Neg(chi), Real(d)))
    requires mm == Add(Mul(Real(d), Conj(um)), Mul(Neg(chi), Conj(wm)))
    ensures mm == Real(d * (d * d - NormSqr(chi)))
  {
    assert wm == ZERO;
    assert um == Real(d * d - NormSqr(chi));
  }

  // |Tr(W^dagger U)| <= d, with equality exactly when U is a phase times W.
  lemma {:induction false} OverlapBound(w: Mat, u: Mat)
    requires Unitary(w) && Unitary(u) && w.r == u.r > 0
    ensures NormSqr(Inner(w, u)) <= u.r as real * u.r as real
    ensures NormSqr(Inner(w, u)) == u.r as real * u.r as real <==>
      exists z: Complex :: NormSqr(z) == 1.0 && u == Scale(z, w)
  {
    hide Unitary, Inner, Plus, Scale, Dot, Dagger, Id;
    UnitaryShape(w);
    UnitaryShape(u);
    var d, chi := u.r as real, Inner(w, u);
    var m := Plus(Scale(Real(d), u), Scale(Neg(chi), w));
    GramOfDifference(w, u);
    GramNonNegative(m);
    ScaledNonNegative(d, d * d - NormSqr(chi));
    if NormSqr(chi) == d * d {
      PhaseFromZero(w, u, chi, d);
    }
    if exists z: Complex :: NormSqr(z) == 1.0 && u == Scale(z, w) {
      var z: Complex :| NormSqr(z) == 1.0 && u == Scale(z, w);
      PhaseOverlap(w, u, z);
    }
  }

  lemma PhaseFromZero(w: Mat, u: Mat, chi: Complex, d: real)
    requires w.r == w.c == u.r == u.c && d > 0.0 && NormSqr(chi) == d * d
    requires Plus(Scale(Real(d), u), Scale(Neg(chi), w)) == Zeros(u.r, u.c)
    ensures exists z: Complex :: NormSqr(z) == 1.0 && u == Scale(z, w)
  {
    hide Plus, Scale, Zeros;
    var e := Real(1.0 / d);
    var z := Mul(e, chi);
    var du, cw := Scale(Real(d), u), Scale(chi, w);
    ScaleLaws(Real(-1.0), chi, w);
    MulUnit(chi);
    PlusLaws(du, cw, cw);
    PlusLaws(Scale(Neg(chi), w), cw, cw);
    PlusLaws(cw, Zeros(u.r, u.c), cw);
    PlusLaws(du, Scale(Neg(chi), w), cw);
    ScaleLaws(Neg(chi), chi, w);
    assert Add(Neg(chi), chi) == ZERO;
    assert du == cw;
    ScaleLaws(e, Real(d), u);
    ScaleLaws(e, chi, w);
    assert Mul(e, Real(d)) == ONE;
    assert NormSqr(z) == 1.0 by {
      assert z.re * d == chi.re && z.im * d == chi.im;
      assert (z.re * z.re + z.im * z.im) * (d * d) == d * d;
    }
  }

  lemma PhaseOverlap(w: Mat, u: Mat, z: Complex)
    requires Unitary(w) && NormSqr(z) == 1.0 && u == Scale(z, w)
    ensures NormSqr(Inner(w, u)) == w.r as real * w.r as real
  {
    hide Dot, Dagger, Scale, Trace;
    UnitaryInner(w);
    DotScale(z, Dagger(w), w);
    TraceLinear(z, Dot(Dagger(w), w), Dot(Dagger(w), w));
    var d := w.r as real;
    assert NormSqr(Mul(z, Real(d))) == NormSqr(z) * (d * d);
  }
}
