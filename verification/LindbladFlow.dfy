// The generator is linear and its RK4 step is the Taylor polynomial of order four: hal/src/lindblad/integrate.rs.
module LindbladFlow {
  import opened ComplexNumbers
  import opened Matrices
  import opened Lindblad

  // ---------- linearity in the state ----------

  lemma PlusOfSums(a: Mat, b: Mat, z: Complex, c: Mat, d: Mat)
    requires a.r == b.r == c.r == d.r && a.c == b.c == c.c == d.c
    ensures Plus(Plus(a, Scale(z, c)), Plus(b, Scale(z, d))) == Plus(Plus(a, b), Scale(z, Plus(c, d)))
  {
    hide Mul;
    var l, r := Plus(Plus(a, Scale(z, c)), Plus(b, Scale(z, d))), Plus(Plus(a, b), Scale(z, Plus(c, d)));
    forall i, j | 0 <= i < a.r && 0 <= j < a.c ensures At(l, i, j) == At(r, i, j) {
      Distrib(z, At(c, i, j), At(d, i, j));
    }
    Ext(l, r);
  }

  lemma ScaleOfSum(w: Complex, a: Mat, z: Complex, b: Mat)
    requires a.r == b.r && a.c == b.c
    ensures Scale(w, Plus(a, Scale(z, b))) == Plus(Scale(w, a), Scale(z, Scale(w, b)))
  {
    hide Plus, Scale, Mul;
    ScalePlus(w, a, Scale(z, b));
    ScaleLaws(w, z, b);
    ScaleLaws(z, w, b);
    MulComm(w, z);
  }

  lemma DotOfSum(l: Mat, a: Mat, z: Complex, b: Mat)
    requires l.r == l.c == a.r == a.c == b.r == b.c
    ensures Dot(l, Plus(a, Scale(z, b))) == Plus(Dot(l, a), Scale(z, Dot(l, b)))
    ensures Dot(Plus(a, Scale(z, b)), l) == Plus(Dot(a, l), Scale(z, Dot(b, l)))
  {
    hide Dot, Plus, Scale;
    DotPlus(l, a, Scale(z, b));
    PlusDot(a, Scale(z, b), l);
    DotScale(z, l, b);
    DotScale(z, b, l);
  }

  lemma CommutatorOfSum(h: Mat, a: Mat, z: Complex, b: Mat)
    requires h.r == h.c == a.r == a.c == b.r == b.c
    ensures Commutator(h, Plus(a, Scale(z, b))) == Plus(Commutator(h, a), Scale(z, Commutator(h, b)))
  {
    hide Dot, Plus, Scale, Minus, Mul;
    DotOfSum(h, a, z, b);
    MinusOfSums(Dot(h, a), Dot(a, h), z, Dot(h, b), Dot(b, h));
    ScaleOfSum(Neg(IMAG), Minus(Dot(h, a), Dot(a, h)), z, Minus(Dot(h, b), Dot(b, h)));
  }

  lemma {:induction false} DissipatorOfSum(op: CollapseOperator, a: Mat, z: Complex, b: Mat)
    requires op.matrix.r == op.matrix.c == a.r == a.c == b.r == b.c
    ensures Dissipator(op, Plus(a, Scale(z, b))) == Plus(Dissipator(op, a), Scale(z, Dissipator(op, b)))
  {
    hide Dot, Plus, Scale, Minus, Mul, Zeros;
    if op.rate == 0.0 {
      ZeroOfSum(a.r, z);
    } else {
      var l, lDag := op.matrix, Dagger(op.matrix);
      var g := Dot(lDag, l);
      DotOfSum(l, a, z, b);
      DotOfSum(lDag, Dot(l, a), z, Dot(l, b));
      DotOfSum(g, a, z, b);
      ScaleOfSum(HALF, Dot(g, a), z, Dot(g, b));
      ScaleOfSum(HALF, Dot(a, g), z, Dot(b, g));
      var x, x' := Dot(Dot(l, a), lDag), Dot(Dot(l, b), lDag);
      var y, y' := Scale(HALF, Dot(g, a)), Scale(HALF, Dot(g, b));
      var w, w' := Scale(HALF, Dot(a, g)), Scale(HALF, Dot(b, g));
      MinusOfSums(x, y, z, x', y');
      MinusOfSums(Minus(x, y), w, z, Minus(x', y'), w');
      ScaleOfSum(Real(op.rate), Minus(Minus(x, y), w), z, Minus(Minus(x', y'), w'));
    }
  }

  lemma ZeroOfSum(d: nat, z: Complex)
    ensures Plus(Zeros(d, d), Scale(z, Zeros(d, d))) == Zeros(d, d)
  {
    hide Mul;
    MulUnit(z);
    Ext(Plus(Zeros(d, d), Scale(z, Zeros(d, d))), Zeros(d, d));
  }

  lemma {:induction false} TotalOfSum(ops: seq<CollapseOperator>, a: Mat, z: Complex, b: Mat, k: nat)
    requires a.r == a.c == b.r == b.c && k <= |ops| && Compatible(ops, a.r)
    ensures TotalDissipator(ops, Plus(a, Scale(z, b)), k) ==
            Plus(TotalDissipator(ops, a, k), Scale(z, TotalDissipator(ops, b, k)))
  {
    hide Plus, Scale, Dissipator, Zeros;
    if k == 0 {
      ZeroOfSum(a.r, z);
    } else {
      TotalOfSum(ops, a, z, b, k - 1);
      if ops[k - 1].matrix.r == a.r {
        DissipatorOfSum(ops[k - 1], a, z, b);
        PlusOfSums(TotalDissipator(ops, a, k - 1), Dissipator(ops[k - 1], a), z,
                   TotalDissipator(ops, b, k - 1), Dissipator(ops[k - 1], b));
      }
    }
  }

  // The right-hand side is linear in the state.
  lemma {:induction false} RhsLinear(h: Mat, ops: seq<CollapseOperator>, a: Mat, x: real, b: Mat)
    requires h.r == h.c == a.r == a.c == b.r == b.c && Compatible(ops, a.r)
    ensures LindbladRhs(h, ops, Plus(a, Scale(Real(x), b))) ==
            Plus(LindbladRhs(h, ops, a), Scale(Real(x), LindbladRhs(h, ops, b)))
  {
    hide Plus, Scale, Commutator, TotalDissipator, Compatible;
    var z, n := Real(x), |ops|;
    CommutatorOfSum(h, a, z, b);
    TotalOfSum(ops, a, z, b, n);
    PlusOfSums(Commutator(h, a), TotalDissipator(ops, a, n), z, Commutator(h, b), TotalDissipator(ops, b, n));
  }

  // ---------- the step ----------

  // The generator applied j times
  function Iterate(h: Mat, ops: seq<CollapseOperator>, rho: Mat, j: nat): (m: Mat)
    requires h.r == h.c == rho.r == rho.c && Compatible(ops, rho.r)
    ensures m.r == m.c == rho.r
  {
    if j == 0 then rho else LindbladRhs(h, ops, Iterate(h, ops, rho, j - 1))
  }

  // dt^j / j!
  function Weight(dt: real, j: nat): real {
    if j == 0 then 1.0 else Weight(dt, j - 1) * dt / j as real
  }

  // The Taylor polynomial of order n of the flow
  function Taylor(h: Mat, ops: seq<CollapseOperator>, rho: Mat, dt: real, n: nat): (m: Mat)
    requires h.r == h.c == rho.r == rho.c && Compatible(ops, rho.r)
    ensures m.r == m.c == rho.r
  {
    if n == 0 then rho
    else Plus(Taylor(h, ops, rho, dt, n - 1), Scale(Real(Weight(dt, n)), Iterate(h, ops, rho, n)))
  }

  lemma {:induction false} Rk4IsTaylor(rho: Mat, h: Mat, ops: seq<CollapseOperator>, dt: real)
    requires h.r == h.c == rho.r == rho.c && Compatible(ops, rho.r)
    ensures Rk4Step(rho, h, ops, dt) == Taylor(h, ops, rho, dt, 4)
  {
    hide Plus, Scale, LindbladRhs, Real, Compatible, Comb, Taylor, Iterate;
    var x1 := Iterate(h, ops, rho, 1);
    var x2, x3, x4 := Iterate(h, ops, rho, 2), Iterate(h, ops, rho, 3), Iterate(h, ops, rho, 4);
    Iterates(h, ops, rho);
    var p := 0.5 * dt;
    // k2 = x1 + p x2
    RhsLinear(h, ops, rho, p, x1);
    var k2 := Plus(x1, Scale(Real(p), x2));
    // k3 = x1 + p (x2 + p x3)
    RhsLinear(h, ops, rho, p, k2);
    RhsLinear(h, ops, x1, p, x2);
    var y := Plus(x2, Scale(Real(p), x3));
    var k3 := Plus(x1, Scale(Real(p), y));
    // k4 = x1 + dt (x2 + p (x3 + p x4))
    RhsLinear(h, ops, rho, dt, k3);
    RhsLinear(h, ops, x1, p, y);
    RhsLinear(h, ops, x2, p, x3);
    var ms := [rho, x1, x2, x3, x4];
    StagesSum(rho.r, ms, dt);
    TaylorIsComb(h, ops, rho, dt, ms);
  }

  lemma Iterates(h: Mat, ops: seq<CollapseOperator>, rho: Mat)
    requires h.r == h.c == rho.r == rho.c && Compatible(ops, rho.r)
    ensures Iterate(h, ops, rho, 0) == rho && Iterate(h, ops, rho, 1) == LindbladRhs(h, ops, rho)
    ensures Iterate(h, ops, rho, 2) == LindbladRhs(h, ops, Iterate(h, ops, rho, 1))
    ensures Iterate(h, ops, rho, 3) == LindbladRhs(h, ops, Iterate(h, ops, rho, 2))
    ensures Iterate(h, ops, rho, 4) == LindbladRhs(h, ops, Iterate(h, ops, rho, 3))
  {
    hide LindbladRhs, Compatible;
    assert Iterate(h, ops, rho, 0) == rho;
  }

  lemma Weights(dt: real)
    ensures Weight(dt, 1) == dt && Weight(dt, 2) == dt * dt / 2.0
    ensures Weight(dt, 3) == dt * dt * dt / 6.0 && Weight(dt, 4) == dt * dt * dt * dt / 24.0
  {
    assert Weight(dt, 0) == 1.0;
    assert Weight(dt, 1) == dt;
    assert Weight(dt, 2) == dt * dt / 2.0;
    assert Weight(dt, 3) == dt * dt / 2.0 * dt / 3.0;
    assert dt * dt / 2.0 * dt == dt * dt * dt / 2.0;
    assert Weight(dt, 4) == Weight(dt, 3) * dt / 4.0;
    assert dt * dt * dt / 6.0 * dt == dt * dt * dt * dt / 6.0;
  }

  // ---------- linear combinations of the iterates ----------

  // The sum of c[k] ms[k] for k < n
  function Comb(d: nat, ms: seq<Mat>, c: seq<real>, n: nat): (m: Mat)
    requires n <= |c| && n <= |ms| && forall k :: 0 <= k < |ms| ==> ms[k].r == ms[k].c == d
    ensures m.r == m.c == d
  {
    if n == 0 then Zeros(d, d) else Plus(Comb(d, ms, c, n - 1), Scale(Real(c[n - 1]), ms[n - 1]))
  }

  function Fma(x: real, z: real, y: real): real {
    x + z * y
  }

  function Axpy(c: seq<real>, z: real, e: seq<real>): (r: seq<real>)
    requires |c| == |e|
    ensures |r| == |c| && forall k :: 0 <= k < |c| ==> r[k] == Fma(c[k], z, e[k])
  {
    seq(|c|, k requires 0 <= k < |c| => Fma(c[k], z, e[k]))
  }

  lemma {:induction false} CombAxpy(d: nat, ms: seq<Mat>, c: seq<real>, z: real, e: seq<real>, n: nat)
    requires |c| == |e| && n <= |c| && n <= |ms| && forall k :: 0 <= k < |ms| ==> ms[k].r == ms[k].c == d
    ensures Plus(Comb(d, ms, c, n), Scale(Real(z), Comb(d, ms, e, n))) == Comb(d, ms, Axpy(c, z, e), n)
  {
    hide Plus, Scale, Zeros, Real, Axpy, Fma;
    if n == 0 {
      ZeroOfSum(d, Real(z));
    } else {
      CombAxpy(d, ms, c, z, e, n - 1);
      var m := ms[n - 1];
      var a, b := Comb(d, ms, c, n - 1), Comb(d, ms, e, n - 1);
      CollectTerm(a, c[n - 1], z, b, e[n - 1], m);
    }
  }

  lemma CollectTerm(a: Mat, x: real, z: real, b: Mat, y: real, m: Mat)
    requires a.r == b.r == m.r && a.c == b.c == m.c
    ensures Plus(Plus(a, Scale(Real(x), m)), Scale(Real(z), Plus(b, Scale(Real(y), m)))) ==
            Plus(Plus(a, Scale(Real(z), b)), Scale(Real(Fma(x, z, y)), m))
  {
    hide Plus, Scale, Mul, Add, Fma;
    var w := Scale(Real(y), m);
    ScalePlus(Real(z), b, w);
    ScaleLaws(Real(z), Real(y), m);
    RealProduct(z, y);
    ScaleLaws(Real(x), Real(z * y), m);
    RealSum(x, z * y);
    FmaIs(x, z, y);
    var p, q := Scale(Real(z), b), Scale(Real(z * y), m);
    var r := Scale(Real(x), m);
    PlusLaws(Plus(a, r), p, q);
    PlusLaws(a, r, p);
    PlusLaws(p, r, a);
    PlusLaws(a, p, r);
    PlusLaws(Plus(a, p), r, q);
  }

  lemma RealSum(x: real, y: real)
    ensures Add(Real(x), Real(y)) == Real(x + y)
  {}

  lemma RealProduct(x: real, y: real)
    ensures Mul(Real(x), Real(y)) == Real(x * y)
  {}

  function Unit(j: nat): (e: seq<real>)
    requires j < 5
    ensures |e| == 5 && forall k :: 0 <= k < 5 ==> e[k] == if k == j then 1.0 else 0.0
  {
    seq(5, k => if k == j then 1.0 else 0.0)
  }

  lemma {:induction false} CombUnit(d: nat, ms: seq<Mat>, j: nat, n: nat)
    requires j < 5 && |ms| == 5 && n <= 5 && forall k :: 0 <= k < |ms| ==> ms[k].r == ms[k].c == d
    ensures Comb(d, ms, Unit(j), n) == if j < n then ms[j] else Zeros(d, d)
  {
    hide Plus, Scale, Zeros;
    if n > 0 {
      CombUnit(d, ms, j, n - 1);
      var m := ms[n - 1];
      ScaleLaws(ZERO, ZERO, m);
      var before := Comb(d, ms, Unit(j), n - 1);
      PlusLaws(before, Zeros(d, d), Zeros(d, d));
      PlusLaws(m, Zeros(d, d), Zeros(d, d));
    }
  }

  // The stages in terms of the iterates, and the step they combine to
  lemma {:induction false} StagesSum(d: nat, ms: seq<Mat>, dt: real)
    requires |ms| == 5 && forall k :: 0 <= k < |ms| ==> ms[k].r == ms[k].c == d
    ensures var p := 0.5 * dt;
            var k2 := Plus(ms[1], Scale(Real(p), ms[2]));
            var k3 := Plus(ms[1], Scale(Real(p), Plus(ms[2], Scale(Real(p), ms[3]))));
            var k4 := Plus(ms[1], Scale(Real(dt), Plus(ms[2], Scale(Real(p), Plus(ms[3], Scale(Real(p), ms[4]))))));
            Plus(ms[0], Scale(Real(1.0 / 6.0 * dt),
                              Plus(Plus(Plus(ms[1], Scale(Real(2.0), k2)), Scale(Real(2.0), k3)), k4)))
            == Comb(d, ms, StepWeights(dt), 5)
  {
    hide Plus, Scale, Zeros, Real, Axpy, Unit, Comb, Fma;
    var p := 0.5 * dt;
    forall j | 0 <= j < 5 ensures Comb(d, ms, Unit(j), 5) == ms[j] { CombUnit(d, ms, j, 5); }
    var e0, e1, e2, e3, e4 := Unit(0), Unit(1), Unit(2), Unit(3), Unit(4);
    CombAxpy(d, ms, e1, p, e2, 5);
    var k2 := Axpy(e1, p, e2);
    CombAxpy(d, ms, e2, p, e3, 5);
    var u := Axpy(e2, p, e3);
    CombAxpy(d, ms, e1, p, u, 5);
    var k3 := Axpy(e1, p, u);
    CombAxpy(d, ms, e3, p, e4, 5);
    var v := Axpy(e3, p, e4);
    CombAxpy(d, ms, e2, p, v, 5);
    var w := Axpy(e2, p, v);
    CombAxpy(d, ms, e1, dt, w, 5);
    var k4 := Axpy(e1, dt, w);
    CombAxpy(d, ms, e1, 2.0, k2, 5);
    var s1 := Axpy(e1, 2.0, k2);
    CombAxpy(d, ms, s1, 2.0, k3, 5);
    var s2 := Axpy(s1, 2.0, k3);
    CombAxpy(d, ms, s2, 1.0, k4, 5);
    var s3 := Axpy(s2, 1.0, k4);
    ScaleByOne(Comb(d, ms, k4, 5));
    CombAxpy(d, ms, e0, 1.0 / 6.0 * dt, s3, 5);
    StageWeights(dt, p);
    FinalWeights(dt, p);
  }

  lemma ScaleByOne(m: Mat)
    ensures Scale(Real(1.0), m) == m
  {
    hide Scale;
    ScaleLaws(ONE, ONE, m);
  }

  function StepWeights(dt: real): (c: seq<real>)
    ensures |c| == 5
  {
    [1.0, dt, dt * dt / 2.0, dt * dt * dt / 6.0, dt * dt * dt * dt / 24.0]
  }

  lemma StageWeights(dt: real, p: real)
    ensures var e0, e1, e2, e3, e4 := Unit(0), Unit(1), Unit(2), Unit(3), Unit(4);
            var k2, k3 := Axpy(e1, p, e2), Axpy(e1, p, Axpy(e2, p, e3));
            var k4 := Axpy(e1, dt, Axpy(e2, p, Axpy(e3, p, e4)));
            Axpy(Axpy(Axpy(e1, 2.0, k2), 2.0, k3), 1.0, k4) ==
            [0.0, 6.0, 4.0 * p + dt, 2.0 * (p * p) + dt * p, dt * (p * p)]
  {
    hide Axpy, Unit, Fma;
    var e0, e1, e2, e3, e4 := Unit(0), Unit(1), Unit(2), Unit(3), Unit(4);
    var k2, u := Axpy(e1, p, e2), Axpy(e2, p, e3);
    var v := Axpy(e3, p, e4);
    var k3, w := Axpy(e1, p, u), Axpy(e2, p, v);
    var k4 := Axpy(e1, dt, w);
    Fmas(p);
    AxpyFive(e1, p, e2, 0.0, 1.0, 0.0, 0.0, 0.0, 0.0, 0.0, 1.0, 0.0, 0.0);
    AxpyFive(e2, p, e3, 0.0, 0.0, 1.0, 0.0, 0.0, 0.0, 0.0, 0.0, 1.0, 0.0);
    AxpyFive(e3, p, e4, 0.0, 0.0, 0.0, 1.0, 0.0, 0.0, 0.0, 0.0, 0.0, 1.0);
    AxpyFive(e1, p, u, 0.0, 1.0, 0.0, 0.0, 0.0, 0.0, 0.0, 1.0, p, 0.0);
    AxpyFive(e2, p, v, 0.0, 0.0, 1.0, 0.0, 0.0, 0.0, 0.0, 0.0, 1.0, p);
    FmaIs(0.0, p, p);
    Fmas(dt);
    FmaIs(0.0, dt, p);
    FmaIs(0.0, dt, p * p);
    AxpyFive(e1, dt, w, 0.0, 1.0, 0.0, 0.0, 0.0, 0.0, 0.0, 1.0, p, p * p);
    assert k4 == [Fma(0.0, dt, 0.0), Fma(1.0, dt, 0.0), Fma(0.0, dt, 1.0), Fma(0.0, dt, p), Fma(0.0, dt, p * p)];
    assert k4[3] == dt * p && k4[4] == dt * (p * p);
    assert k4 == [0.0, 1.0, dt, dt * p, dt * (p * p)];
    var s1 := Axpy(e1, 2.0, k2);
    AxpyFive(e1, 2.0, k2, 0.0, 1.0, 0.0, 0.0, 0.0, 0.0, 1.0, p, 0.0, 0.0);
    Fmas(2.0);
    FmaIs(1.0, 2.0, 1.0);
    FmaIs(0.0, 2.0, p);
    var s2 := Axpy(s1, 2.0, k3);
    AxpyFive(s1, 2.0, k3, 0.0, 3.0, 2.0 * p, 0.0, 0.0, 0.0, 1.0, p, p * p, 0.0);
    FmaIs(3.0, 2.0, 1.0);
    FmaIs(2.0 * p, 2.0, p);
    FmaIs(0.0, 2.0, p * p);
    AxpyFive(s2, 1.0, k4, 0.0, 5.0, 4.0 * p, 2.0 * (p * p), 0.0, 0.0, 1.0, dt, dt * p, dt * (p * p));
    Fmas(1.0);
    FmaIs(5.0, 1.0, 1.0);
    FmaIs(4.0 * p, 1.0, dt);
    FmaIs(2.0 * (p * p), 1.0, dt * p);
    FmaIs(0.0, 1.0, dt * (p * p));
  }

  lemma FmaIs(x: real, z: real, y: real)
    ensures Fma(x, z, y) == x + z * y
  {}

  lemma Fmas(z: real)
    ensures Fma(0.0, z, 0.0) == 0.0 && Fma(1.0, z, 0.0) == 1.0 && Fma(0.0, z, 1.0) == z
  {}

  lemma AxpyFive(c: seq<real>, z: real, e: seq<real>, c0: real, c1: real, c2: real, c3: real, c4: real,
                 e0: real, e1: real, e2: real, e3: real, e4: real)
    requires c == [c0, c1, c2, c3, c4] && e == [e0, e1, e2, e3, e4]
    ensures Axpy(c, z, e) == [Fma(c0, z, e0), Fma(c1, z, e1), Fma(c2, z, e2), Fma(c3, z, e3), Fma(c4, z, e4)]
  {
    hide Fma;
  }

  lemma FinalWeights(dt: real, p: real)
    requires p == 0.5 * dt
    ensures Axpy(Unit(0), 1.0 / 6.0 * dt, [0.0, 6.0, 4.0 * p + dt, 2.0 * (p * p) + dt * p, dt * (p * p)]) ==
            StepWeights(dt)
  {
    hide Fma, Axpy, Unit;
    var z := 1.0 / 6.0 * dt;
    var x2, x3, x4 := 4.0 * p + dt, 2.0 * (p * p) + dt * p, dt * (p * p);
    SixthPowers(dt, p, z, x2, x3, x4);
    AxpyFive(Unit(0), z, [0.0, 6.0, x2, x3, x4], 1.0, 0.0, 0.0, 0.0, 0.0, 0.0, 6.0, x2, x3, x4);
    Fmas(z);
    FmaIs(0.0, z, 6.0);
  }

  lemma SixthPowers(dt: real, p: real, z: real, x2: real, x3: real, x4: real)
    requires p == 0.5 * dt && z == 1.0 / 6.0 * dt
    requires x2 == 4.0 * p + dt && x3 == 2.0 * (p * p) + dt * p && x4 == dt * (p * p)
    ensures Fma(1.0, z, 0.0) == 1.0 && Fma(0.0, z, 6.0) == dt && Fma(0.0, z, x2) == dt * dt / 2.0
    ensures Fma(0.0, z, x3) == dt * dt * dt / 6.0 && Fma(0.0, z, x4) == dt * dt * dt * dt / 24.0
  {
    assert p * p == 0.25 * (dt * dt) && dt * p == 0.5 * (dt * dt);
    assert x2 == 3.0 * dt && x3 == dt * dt && x4 == 0.25 * (dt * (dt * dt));
    assert dt * (dt * dt) == dt * dt * dt && dt * (dt * (dt * dt)) == dt * dt * dt * dt;
  }

  lemma TaylorIsComb(h: Mat, ops: seq<CollapseOperator>, rho: Mat, dt: real, ms: seq<Mat>)
    requires h.r == h.c == rho.r == rho.c && Compatible(ops, rho.r)
    requires |ms| == 5 && forall k :: 0 <= k < |ms| ==> ms[k].r == ms[k].c == rho.r && ms[k] == Iterate(h, ops, rho, k)
    ensures Taylor(h, ops, rho, dt, 4) == Comb(rho.r, ms, StepWeights(dt), 5)
  {
    hide Iterate, Weight, Compatible, Plus, Scale, Zeros, Real, StepWeights;
    Weights(dt);
    PrefixIsTaylor(h, ops, rho, dt, ms, 4);
  }

  lemma {:induction false} PrefixIsTaylor(h: Mat, ops: seq<CollapseOperator>, rho: Mat, dt: real, ms: seq<Mat>, n: nat)
    requires h.r == h.c == rho.r == rho.c && Compatible(ops, rho.r) && n <= 4
    requires |ms| == 5 && forall k :: 0 <= k < |ms| ==> ms[k].r == ms[k].c == rho.r && ms[k] == Iterate(h, ops, rho, k)
    ensures Taylor(h, ops, rho, dt, n) == Comb(rho.r, ms, StepWeights(dt), n + 1)
  {
    hide Weight, Compatible, Plus, Scale, Zeros, LindbladRhs;
    Weights(dt);
    if n == 0 {
      ScaleByOne(rho);
      PlusLaws(rho, Zeros(rho.r, rho.r), rho);
      PlusLaws(Zeros(rho.r, rho.r), rho, rho);
      assert Comb(rho.r, ms, StepWeights(dt), 0) == Zeros(rho.r, rho.r);
    } else {
      PrefixIsTaylor(h, ops, rho, dt, ms, n - 1);
      assert StepWeights(dt)[n] == Weight(dt, n);
    }
  }

  // ---------- the evolution ----------

  // Evolving over k + m steps is evolving over k and then over the m next Hamiltonians; one step is an RK4 step.
  lemma {:induction false} EvolveSplit(rho: Mat, hs: seq<Mat>, ops: seq<CollapseOperator>, dt: real, k: nat, m: nat)
    requires rho.r == rho.c && Compatible(ops, rho.r) && k + m <= |hs|
    requires forall t :: 0 <= t < |hs| ==> hs[t].r == hs[t].c == rho.r
    ensures Evolve(rho, hs, ops, dt, k + m) == Evolve(Evolve(rho, hs, ops, dt, k), hs[k..], ops, dt, m)
    ensures k < |hs| ==> Evolve(rho, [hs[k]], ops, dt, 1) == Taylor(hs[k], ops, rho, dt, 4)
  {
    hide Rk4Step, Taylor, Compatible;
    if m > 0 { EvolveSplit(rho, hs, ops, dt, k, m - 1); }
    if k < |hs| {
      Rk4IsTaylor(rho, hs[k], ops, dt);
      assert Evolve(rho, [hs[k]], ops, dt, 0) == rho;
    }
  }

  // ---------- several operators ----------

  // The dissipators of two lists add up; one operator contributes its own dissipator, or nothing if its size differs.
  lemma {:induction false} DissipatorsAdd(a: seq<CollapseOperator>, b: seq<CollapseOperator>, rho: Mat)
    requires rho.r == rho.c && Compatible(a, rho.r) && Compatible(b, rho.r)
    ensures Compatible(a + b, rho.r)
    ensures TotalDissipator(a + b, rho, |a + b|) ==
            Plus(TotalDissipator(a, rho, |a|), TotalDissipator(b, rho, |b|))
    ensures |b| == 1 && b[0].matrix.r == rho.r ==> TotalDissipator(b, rho, 1) == Dissipator(b[0], rho)
    ensures |b| == 1 && b[0].matrix.r != rho.r ==> TotalDissipator(b, rho, 1) == Zeros(rho.r, rho.r)
  {
    hide Plus, Dissipator, Zeros;
    assert Compatible(a + b, rho.r);
    PrefixTotal(a, b, rho, |a|);
    SuffixTotal(a, b, rho, |b|);
    assert TotalDissipator(b, rho, 0) == Zeros(rho.r, rho.r);
    if |b| == 1 && b[0].matrix.r == rho.r { ZeroPlus(Dissipator(b[0], rho), rho.r); }
  }

  lemma ZeroPlus(m: Mat, d: nat)
    requires m.r == m.c == d
    ensures Plus(Zeros(d, d), m) == m && Plus(m, Zeros(d, d)) == m
  {
    hide Plus, Zeros;
    PlusLaws(m, Zeros(d, d), m);
  }

  lemma {:induction false} PrefixTotal(a: seq<CollapseOperator>, b: seq<CollapseOperator>, rho: Mat, k: nat)
    requires rho.r == rho.c && Compatible(a, rho.r) && Compatible(a + b, rho.r) && k <= |a|
    ensures TotalDissipator(a + b, rho, k) == TotalDissipator(a, rho, k)
  {
    hide Plus, Dissipator, Zeros;
    if k > 0 { PrefixTotal(a, b, rho, k - 1); }
  }

  lemma {:induction false} SuffixTotal(a: seq<CollapseOperator>, b: seq<CollapseOperator>, rho: Mat, k: nat)
    requires rho.r == rho.c && Compatible(a, rho.r) && Compatible(b, rho.r) && Compatible(a + b, rho.r) && k <= |b|
    ensures TotalDissipator(a + b, rho, |a| + k) ==
            Plus(TotalDissipator(a, rho, |a|), TotalDissipator(b, rho, k))
  {
    hide Plus, Dissipator, Zeros;
    var first := TotalDissipator(a, rho, |a|);
    if k == 0 {
      PrefixTotal(a, b, rho, |a|);
      ZeroPlus(first, rho.r);
      assert TotalDissipator(b, rho, 0) == Zeros(rho.r, rho.r);
    } else {
      SuffixTotal(a, b, rho, k - 1);
      var op := b[k - 1];
      assert (a + b)[|a| + k - 1] == op;
      if op.matrix.r == rho.r { PlusLaws(first, TotalDissipator(b, rho, k - 1), Dissipator(op, rho)); }
    }
  }
}
