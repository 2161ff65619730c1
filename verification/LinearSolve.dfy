// Gaussian elimination with partial pivoting: hal/src/grape/expm.rs, solve_linear.
module LinearSolve {
  import opened Wrappers
  import opened ComplexNumbers
  import opened Matrices

  // The near-singular threshold on |pivot|; the code compares norms, we compare their squares.
  const PIVOT_FLOOR := 1.0 / 1_000_000_000_000_000.0

  predicate Negligible(z: Complex) {
    NormSqr(z) < PIVOT_FLOOR * PIVOT_FLOOR
  }

  lemma NegligibleZero()
    ensures Negligible(ZERO)
  {}

  // ---------- the steps on matrix values ----------

  function Augment(a: Mat, b: Mat): (m: Mat)
    requires a.r == b.r
    ensures m.r == a.r && m.c == a.c + b.c
  {
    Build(a.r, a.c + b.c, (i, j) => if j < a.c then At(a, i, j) else At(b, i, j - a.c))
  }

  // The first row of largest norm in column col among rows col .. k-1.
  function PivotRow(m: Mat, col: nat, k: nat): (p: nat)
    requires col < k <= m.r && col < m.c
    ensures col <= p < k
    ensures forall i :: col <= i < k ==> NormSqr(At(m, i, col)) <= NormSqr(At(m, p, col))
    ensures forall i :: col <= i < p ==> NormSqr(At(m, i, col)) < NormSqr(At(m, p, col))
  {
    if k == col + 1 then col
    else
      var p := PivotRow(m, col, k - 1);
      if NormSqr(At(m, k - 1, col)) > NormSqr(At(m, p, col)) then k - 1 else p
  }

  function SwapRows(m: Mat, p: nat, q: nat): (s: Mat)
    requires p < m.r && q < m.r
    ensures s.r == m.r && s.c == m.c
  {
    Build(m.r, m.c, (i, j) => At(m, if i == p then q else if i == q then p else i, j))
  }

  function EliminatedCell(m: Mat, col: nat, i: int, j: int): Complex
    requires At(m, col, col) != ZERO
  {
    Sub(At(m, i, j), Mul(Div(At(m, i, col), At(m, col, col)), At(m, col, j)))
  }

  function EliminateBelow(m: Mat, col: nat): (s: Mat)
    requires At(m, col, col) != ZERO
    ensures s.r == m.r && s.c == m.c
  {
    Build(m.r, m.c, (i, j) => if i > col && j >= col then EliminatedCell(m, col, i, j) else At(m, i, j))
  }

  // One column of forward elimination; None is the near-singular exit.
  function Step(m: Mat, n: nat, col: nat): (s: Option<Mat>)
    requires m.r == n <= m.c && col < n
    ensures s.Some? ==> s.value.r == m.r && s.value.c == m.c
  {
    var s := SwapRows(m, col, PivotRow(m, col, n));
    if Negligible(At(s, col, col)) then None else
      NegligibleZero();
      Some(EliminateBelow(s, col))
  }

  function Forward(m: Mat, n: nat, col: nat): (u: Option<Mat>)
    requires m.r == n <= m.c && col <= n
    ensures u.Some? ==> u.value.r == m.r && u.value.c == m.c
    decreases n - col
  {
    if col == n then Some(m) else
      match Step(m, n, col)
      case None => None
      case Some(s) => Forward(s, n, col + 1)
  }

  // Rows col .. n-1 of the solution of an upper triangular system.
  function BackCell(u: Mat, x: Mat, n: nat, col: nat, j: int): Complex
    requires At(u, col, col) != ZERO
  {
    Div(Sub(At(u, col, n + j), Sum(n, k => if k > col then Mul(At(u, col, k), At(x, k, j)) else ZERO)), At(u, col, col))
  }

  ghost predicate Triangular(u: Mat, n: nat, upto: nat) {
    u.r == n <= u.c && upto <= n &&
    (forall j :: 0 <= j < upto ==> At(u, j, j) != ZERO) &&
    forall i, j :: 0 <= j < upto && j < i < n ==> At(u, i, j) == ZERO
  }

  function BackSubstitute(u: Mat, n: nat, col: nat): (x: Mat)
    requires u.r == n <= u.c && col <= n && forall j :: col <= j < n ==> At(u, j, j) != ZERO
    ensures x.r == n && x.c == u.c - n
    decreases n - col
  {
    if col == n then Zeros(n, u.c - n) else
      var x := BackSubstitute(u, n, col + 1);
      Build(n, u.c - n, (i, j) => if i == col && At(u, col, col) != ZERO then BackCell(u, x, n, col, j)
        else At(x, i, j))
  }

  lemma {:induction false} StepTriangular(m: Mat, n: nat, col: nat)
    requires Triangular(m, n, col) && col < n
    requires Step(m, n, col).Some?
    ensures Triangular(Step(m, n, col).value, n, col + 1)
  {
    hide Mul, Div, Sub, NormSqr;
    var p := PivotRow(m, col, n);
    var s := SwapRows(m, col, p);
    NegligibleZero();
    var t := EliminateBelow(s, col);
    forall i, j | 0 <= j < col && j < i < n
      ensures At(t, i, j) == ZERO
    {
      assert At(t, i, j) == At(s, i, j);
    }
    forall i | col < i < n
      ensures At(t, i, col) == ZERO
    {
      EliminationClears(At(s, i, col), At(s, col, col));
    }
  }

  lemma EliminationClears(a: Complex, p: Complex)
    requires p != ZERO
    ensures Sub(a, Mul(Div(a, p), p)) == ZERO
  {
    hide Mul, Div;
    DivMul(a, p);
    MulComm(Div(a, p), p);
  }

  lemma {:induction false} ForwardTriangular(m: Mat, n: nat, col: nat)
    requires Triangular(m, n, col)
    requires Forward(m, n, col).Some?
    ensures Triangular(Forward(m, n, col).value, n, n)
    decreases n - col
  {
    hide Step;
    if col < n {
      StepTriangular(m, n, col);
      ForwardTriangular(Step(m, n, col).value, n, col + 1);
    }
  }

  function Solvable(a: Mat): bool
    requires a.r == a.c
  {
    Forward(a, a.r, 0).Some?
  }

  // What solve_linear returns.
  function Solve(a: Mat, b: Mat): (x: Mat)
    requires a.r == a.c == b.r
    ensures x.r == a.r && (Forward(Augment(a, b), a.r, 0).Some? ==> x.c == b.c)
  {
    var f := Forward(Augment(a, b), a.r, 0);
    if f.None? then Id(a.r) else
      ForwardTriangular(Augment(a, b), a.r, 0);
      BackSubstitute(f.value, a.r, 0)
  }

  // ---------- row operations keep the solution set ----------

  function Lhs(m: Mat, x: Mat, n: nat, i: int, j: int): Complex {
    Sum(n, k => Mul(At(m, i, k), At(x, k, j)))
  }

  ghost predicate RowHolds(m: Mat, x: Mat, n: nat, i: int, j: int) {
    Lhs(m, x, n, i, j) == At(m, i, n + j)
  }

  ghost predicate Solves(m: Mat, n: nat, x: Mat) {
    forall i, j :: 0 <= i < n && 0 <= j < x.c ==> RowHolds(m, x, n, i, j)
  }

  // Subtracting f times an equation that holds does not change whether a row holds.
  lemma {:induction false} EliminateRow(m: Mat, n: nat, col: nat, x: Mat, i: int, j: int)
    requires Triangular(m, n, col) && col < i < n && At(m, col, col) != ZERO
    requires x.r == n && 0 <= j < x.c && m.c == n + x.c
    requires RowHolds(m, x, n, col, j)
    ensures RowHolds(EliminateBelow(m, col), x, n, i, j) <==> RowHolds(m, x, n, i, j)
  {
    hide Mul, Add, Sum, Div, NormSqr, Neg, Sub;
    var f := Div(At(m, i, col), At(m, col, col));
    var g := Neg(f);
    var t := EliminateBelow(m, col);
    forall k | 0 <= k < n + x.c
      ensures At(t, i, k) == Add(At(m, i, k), Mul(g, At(m, col, k)))
    {
      SubScaled(At(m, i, k), f, At(m, col, k));
      if k < col {
        assert At(m, col, k) == ZERO && At(t, i, k) == At(m, i, k);
        MulUnit(g);
        AddLaws(At(m, i, k), ZERO, ZERO);
      }
    }
    forall k | 0 <= k < n
      ensures Mul(At(t, i, k), At(x, k, j)) ==
        Add(Mul(At(m, i, k), At(x, k, j)), Mul(g, Mul(At(m, col, k), At(x, k, j))))
    {
      Distrib(At(x, k, j), At(m, i, k), Mul(g, At(m, col, k)));
      MulAssoc(g, At(m, col, k), At(x, k, j));
    }
    SumScale(n, g, k => Mul(At(m, col, k), At(x, k, j)), k => Mul(g, Mul(At(m, col, k), At(x, k, j))));
    SumAdd(n, k => Mul(At(m, i, k), At(x, k, j)), k => Mul(g, Mul(At(m, col, k), At(x, k, j))),
           k => Mul(At(t, i, k), At(x, k, j)));
    AddCancel(Lhs(m, x, n, i, j), At(m, i, n + j), Mul(g, At(m, col, n + j)));
  }

  lemma SubScaled(a: Complex, f: Complex, b: Complex)
    ensures Sub(a, Mul(f, b)) == Add(a, Mul(Neg(f), b))
  {}

  lemma AddCancel(a: Complex, b: Complex, c: Complex)
    ensures Add(a, c) == Add(b, c) <==> a == b
  {}

  lemma {:induction false} SwapKeeps(m: Mat, n: nat, p: nat, q: nat, x: Mat, i: int, j: int)
    requires m.r == n && p < n && q < n && x.r == n && 0 <= i < n && 0 <= j < x.c && m.c == n + x.c
    ensures RowHolds(SwapRows(m, p, q), x, n, i, j) <==>
      RowHolds(m, x, n, if i == p then q else if i == q then p else i, j)
  {
    hide Mul, Add, Sum;
    var i' := if i == p then q else if i == q then p else i;
    SumExt(n, k => Mul(At(SwapRows(m, p, q), i, k), At(x, k, j)), k => Mul(At(m, i', k), At(x, k, j)));
  }

  lemma {:induction false} StepKeeps(m: Mat, n: nat, col: nat, x: Mat)
    requires Triangular(m, n, col) && col < n && Step(m, n, col).Some?
    requires x.r == n && m.c == n + x.c
    ensures Solves(Step(m, n, col).value, n, x) <==> Solves(m, n, x)
  {
    hide Mul, Add, Sum, Div, NormSqr, Sub, RowHolds;
    var p := PivotRow(m, col, n);
    var s := SwapRows(m, col, p);
    NegligibleZero();
    var t := EliminateBelow(s, col);
    assert Triangular(s, n, col);
    forall i, j | 0 <= i < n && 0 <= j < x.c
      ensures RowHolds(s, x, n, i, j) <==> RowHolds(m, x, n, if i == col then p else if i == p then col else i, j)
      ensures i <= col ==> (RowHolds(t, x, n, i, j) <==> RowHolds(s, x, n, i, j))
      ensures i > col && RowHolds(s, x, n, col, j) ==> (RowHolds(t, x, n, i, j) <==> RowHolds(s, x, n, i, j))
    {
      SwapKeeps(m, n, col, p, x, i, j);
      if i <= col {
        SameRow(s, t, x, n, i, j);
      } else if RowHolds(s, x, n, col, j) {
        EliminateRow(s, n, col, x, i, j);
      }
    }
    if Solves(m, n, x) {
      assert Solves(s, n, x);
    }
    if Solves(s, n, x) {
      forall i, j | 0 <= i < n && 0 <= j < x.c ensures RowHolds(m, x, n, i, j) {
        var i' := if i == col then p else if i == p then col else i;
        assert RowHolds(s, x, n, i', j);
      }
    }
    if Solves(t, n, x) {
      forall i, j | 0 <= i < n && 0 <= j < x.c ensures RowHolds(s, x, n, i, j) {
        assert RowHolds(t, x, n, col, j) && RowHolds(t, x, n, i, j);
      }
    }
  }

  lemma SameRow(s: Mat, t: Mat, x: Mat, n: nat, i: int, j: int)
    requires forall k :: 0 <= k < n ==> At(s, i, k) == At(t, i, k)
    requires At(s, i, n + j) == At(t, i, n + j)
    ensures RowHolds(t, x, n, i, j) <==> RowHolds(s, x, n, i, j)
  {
    hide Mul, Add, Sum, At;
    SumExt(n, k => Mul(At(s, i, k), At(x, k, j)), k => Mul(At(t, i, k), At(x, k, j)));
  }

  lemma {:induction false} ForwardKeeps(m: Mat, n: nat, col: nat, x: Mat)
    requires Triangular(m, n, col) && Forward(m, n, col).Some?
    requires x.r == n && m.c == n + x.c
    ensures Solves(Forward(m, n, col).value, n, x) <==> Solves(m, n, x)
    decreases n - col
  {
    hide Step, Solves;
    if col < n {
      assert col <= n;
      StepTriangular(m, n, col);
      StepKeeps(m, n, col, x);
      ForwardKeeps(Step(m, n, col).value, n, col + 1, x);
    }
  }

  // ---------- back substitution ----------

  // Row col of a triangular system, split at the diagonal.
  lemma {:induction false} TriangularRow(u: Mat, n: nat, col: nat, x: Mat, j: int)
    requires Triangular(u, n, n) && col < n && x.r == n
    ensures Lhs(u, x, n, col, j) ==
            Add(Mul(At(u, col, col), At(x, col, j)),
                Sum(n, k => if k > col then Mul(At(u, col, k), At(x, k, j)) else ZERO))
  {
    hide Mul, Add, Sum;
    var tail := k => if k > col then Mul(At(u, col, k), At(x, k, j)) else ZERO;
    var diag := k => if k == col then Mul(At(u, col, col), At(x, col, j)) else ZERO;
    forall k | 0 <= k < n
      ensures Mul(At(u, col, k), At(x, k, j)) == Add(diag(k), tail(k))
    {
      AddLaws(diag(k), ZERO, ZERO);
      AddLaws(tail(k), ZERO, ZERO);
      if k < col {
        assert At(u, col, k) == ZERO;
        MulUnit(At(x, k, j));
      }
    }
    SumAdd(n, diag, tail, k => Mul(At(u, col, k), At(x, k, j)));
    SumSingle(n, col, diag);
    SumExt(n, tail, k => if k > col then Mul(At(u, col, k), At(x, k, j)) else ZERO);
  }

  // y solves row col exactly when its entry there is the back-substituted one.
  lemma {:induction false} BackCellUnique(u: Mat, n: nat, col: nat, x: Mat, y: Mat, j: int)
    requires Triangular(u, n, n) && col < n && x.r == y.r == n && x.c == y.c && 0 <= j < x.c && u.c == n + x.c
    requires forall k :: col < k < n ==> At(y, k, j) == At(x, k, j)
    ensures RowHolds(u, y, n, col, j) <==> At(y, col, j) == BackCell(u, x, n, col, j)
  {
    hide Mul, Add, Sum, Div, Sub;
    TriangularRow(u, n, col, y, j);
    var s := Sum(n, k => if k > col then Mul(At(u, col, k), At(x, k, j)) else ZERO);
    SumExt(n, k => if k > col then Mul(At(u, col, k), At(y, k, j)) else ZERO,
           k => if k > col then Mul(At(u, col, k), At(x, k, j)) else ZERO);
    var p, rhs := At(u, col, col), At(u, col, n + j);
    AddSub(Mul(p, At(y, col, j)), s, rhs);
    DivMul(Sub(rhs, s), p);
    DivMul(At(y, col, j), p);
  }

  lemma AddSub(a: Complex, s: Complex, b: Complex)
    ensures Add(a, s) == b <==> a == Sub(b, s)
  {}

  ghost predicate RowsHold(u: Mat, n: nat, col: nat, y: Mat) {
    forall i, j :: col <= i < n && 0 <= j < y.c ==> RowHolds(u, y, n, i, j)
  }

  ghost predicate AgreeFrom(x: Mat, y: Mat, n: nat, col: nat) {
    forall i, j :: col <= i < n && 0 <= j < y.c ==> At(y, i, j) == At(x, i, j)
  }

  // y solves rows col .. n-1 exactly when it agrees with back substitution there.
  lemma {:induction false} BackSubstituteSolves(u: Mat, n: nat, col: nat, y: Mat)
    requires Triangular(u, n, n) && col <= n
    requires y.r == n && u.c == n + y.c
    ensures RowsHold(u, n, col, y) <==> AgreeFrom(BackSubstitute(u, n, col), y, n, col)
    decreases n - col
  {
    hide RowHolds, BackCell, At, BackSubstitute;
    if col < n {
      var x := BackSubstitute(u, n, col + 1);
      BackSubstituteSolves(u, n, col + 1, y);
      forall i, j | col <= i < n && 0 <= j < y.c
        ensures At(BackSubstitute(u, n, col), i, j) == if i == col then BackCell(u, x, n, col, j) else At(x, i, j)
      {
        BackAt(u, n, col, i, j);
      }
      if AgreeFrom(x, y, n, col + 1) {
        forall j | 0 <= j < y.c
          ensures RowHolds(u, y, n, col, j) <==> At(y, col, j) == BackCell(u, x, n, col, j)
        {
          BackCellUnique(u, n, col, x, y, j);
        }
      }
      BackSplit(u, n, col, x, y);
    }
  }

  lemma BackAt(u: Mat, n: nat, col: nat, i: int, j: int)
    requires Triangular(u, n, n) && col <= n && 0 <= i < n && 0 <= j < u.c - n
    ensures col == n ==> At(BackSubstitute(u, n, col), i, j) == ZERO
    ensures col < n ==> At(BackSubstitute(u, n, col), i, j) ==
                        if i == col then BackCell(u, BackSubstitute(u, n, col + 1), n, col, j)
                        else At(BackSubstitute(u, n, col + 1), i, j)
  {
    hide BackCell, At;
    if col == n { assert At(Zeros(n, u.c - n), i, j) == ZERO; }
  }

  lemma BackSplit(u: Mat, n: nat, col: nat, x: Mat, y: Mat)
    requires col < n
    ensures RowsHold(u, n, col, y) <==>
      RowsHold(u, n, col + 1, y) && forall j :: 0 <= j < y.c ==> RowHolds(u, y, n, col, j)
    ensures AgreeFrom(x, y, n, col) <==>
      AgreeFrom(x, y, n, col + 1) && forall j :: 0 <= j < y.c ==> At(y, col, j) == At(x, col, j)
  {
    hide RowHolds, At;
  }

  // ---------- the exit depends on the left block only ----------

  ghost predicate SameLeft(m: Mat, m': Mat, n: nat) {
    m.r == m'.r == n && n <= m.c && n <= m'.c &&
    forall i, j :: 0 <= i < n && 0 <= j < n ==> At(m, i, j) == At(m', i, j)
  }

  lemma {:induction false} PivotRowSame(m: Mat, m': Mat, n: nat, col: nat, k: nat)
    requires SameLeft(m, m', n) && col < k <= n
    ensures PivotRow(m, col, k) == PivotRow(m', col, k)
  {
    hide NormSqr;
    if k > col + 1 { PivotRowSame(m, m', n, col, k - 1); }
  }

  lemma {:induction false} StepSame(m: Mat, m': Mat, n: nat, col: nat)
    requires SameLeft(m, m', n) && col < n
    ensures Step(m, n, col).Some? <==> Step(m', n, col).Some?
    ensures Step(m, n, col).Some? ==> SameLeft(Step(m, n, col).value, Step(m', n, col).value, n)
  {
    hide Mul, Div, Sub, NormSqr;
    PivotRowSame(m, m', n, col, n);
  }

  lemma {:induction false} ForwardSame(m: Mat, m': Mat, n: nat, col: nat)
    requires SameLeft(m, m', n) && col <= n
    ensures Forward(m, n, col).Some? <==> Forward(m', n, col).Some?
    decreases n - col
  {
    hide Step;
    if col < n {
      StepSame(m, m', n, col);
      if Step(m, n, col).Some? {
        ForwardSame(Step(m, n, col).value, Step(m', n, col).value, n, col + 1);
      }
    }
  }

  lemma SolvableSame(a: Mat, b: Mat)
    requires a.r == a.c == b.r
    ensures Forward(Augment(a, b), a.r, 0).Some? <==> Solvable(a)
  {
    hide Forward;
    ForwardSame(Augment(a, b), a, a.r, 0);
  }

  // ---------- main results ----------

  lemma {:induction false} AugmentCell(a: Mat, b: Mat, x: Mat, i: int, j: int)
    requires a.r == a.c == b.r == x.r && x.c == b.c && 0 <= i < a.r && 0 <= j < x.c
    ensures RowHolds(Augment(a, b), x, a.r, i, j) <==> At(Dot(a, x), i, j) == At(b, i, j)
  {
    hide Mul, Add, Sum;
    var m := Augment(a, b);
    SumExt(a.r, k => Mul(At(m, i, k), At(x, k, j)), k => Mul(At(a, i, k), At(x, k, j)));
  }

  lemma {:induction false} AugmentSolves(a: Mat, b: Mat, x: Mat)
    requires a.r == a.c == b.r == x.r && x.c == b.c
    ensures Solves(Augment(a, b), a.r, x) <==> Dot(a, x) == b
  {
    hide RowHolds, Dot, Augment, At;
    forall i, j | 0 <= i < a.r && 0 <= j < x.c
      ensures RowHolds(Augment(a, b), x, a.r, i, j) <==> At(Dot(a, x), i, j) == At(b, i, j)
    {
      AugmentCell(a, b, x, i, j);
    }
    if Solves(Augment(a, b), a.r, x) {
      Ext(Dot(a, x), b);
    }
  }

  // Without the near-singular exit the result solves A X = B and nothing else does.
  lemma {:induction false} SolveUnique(a: Mat, b: Mat, y: Mat)
    requires a.r == a.c == b.r == y.r && y.c == b.c
    requires Solvable(a)
    ensures Dot(a, y) == b <==> y == Solve(a, b)
  {
    hide Forward, BackSubstitute, Dot, RowHolds;
    var m, n := Augment(a, b), a.r;
    SolvableSame(a, b);
    var u := Forward(m, n, 0).value;
    ForwardTriangular(m, n, 0);
    ForwardKeeps(m, n, 0, y);
    BackSubstituteSolves(u, n, 0, y);
    AugmentSolves(a, b, y);
    var x := Solve(a, b);
    if Dot(a, y) == b {
      Ext(y, x);
    }
  }

  lemma SolveFallback(a: Mat, b: Mat)
    requires a.r == a.c == b.r
    requires !Solvable(a)
    ensures Solve(a, b) == Id(a.r)
  {
    hide Forward, BackSubstitute;
    SolvableSame(a, b);
  }

  // A matrix that passes elimination has a two-sided inverse.
  lemma {:induction false} SolvableInverse(a: Mat) returns (e: Mat)
    requires a.r == a.c && Solvable(a)
    ensures e.r == e.c == a.r
    ensures Dot(a, e) == Id(a.r) && Dot(e, a) == Id(a.r)
  {
    hide Forward, Solve, Dot, Solvable;
    var n := a.r;
    e := Solve(a, Id(n));
    SolvableSame(a, Id(n));
    SolveUnique(a, Id(n), e);
    DotAssoc(a, e, a);
    IdLaws(a);
    SolveUnique(a, a, Dot(e, a));
    SolveUnique(a, a, Id(n));
  }

  // The exit is taken exactly when the whole remaining column is negligible.
  lemma {:induction false} ExitMeansNegligibleColumn(m: Mat, n: nat, col: nat)
    requires m.r == n <= m.c && col < n
    ensures Step(m, n, col).None? <==> forall i :: col <= i < n ==> Negligible(At(m, i, col))
  {
    hide NormSqr;
    var p := PivotRow(m, col, n);
    assert At(SwapRows(m, col, p), col, col) == At(m, p, col);
  }

  // ---------- the in-place algorithm ----------

  ghost predicate Holds(aug: array2<Complex>, m: Mat)
    reads aug
  {
    aug.Length0 == m.r && aug.Length1 == m.c &&
    forall i, j :: 0 <= i < m.r && 0 <= j < m.c ==> aug[i, j] == At(m, i, j)
  }

  method FindPivot(aug: array2<Complex>, col: nat, ghost m: Mat) returns (maxRow: nat)
    requires Holds(aug, m) && col < m.r && col < m.c
    ensures maxRow == PivotRow(m, col, m.r)
  {
    hide NormSqr;
    var maxVal := 0.0;
    maxRow := col;
    for row := col to aug.Length0
      invariant col <= maxRow < aug.Length0
      invariant row == col ==> maxRow == col && maxVal == 0.0
      invariant row > col ==> maxRow == PivotRow(m, col, row) && maxVal == NormSqr(At(m, maxRow, col))
    {
      var val := NormSqr(aug[row, col]);
      NonZeroNorm(aug[row, col]);
      if val > maxVal {
        maxVal := val;
        maxRow := row;
      }
    }
  }

  method SwapInPlace(aug: array2<Complex>, p: nat, q: nat, ghost m: Mat)
    requires Holds(aug, m) && p < m.r && q < m.r
    modifies aug
    ensures Holds(aug, SwapRows(m, p, q))
  {
    if p == q { return; }
    for j := 0 to aug.Length1
      invariant forall i, t :: 0 <= i < m.r && 0 <= t < m.c ==>
        aug[i, t] == At(if t < j then SwapRows(m, p, q) else m, i, t)
    {
      var tmp := aug[p, j];
      aug[p, j] := aug[q, j];
      aug[q, j] := tmp;
    }
  }

  method EliminateInPlace(aug: array2<Complex>, col: nat, ghost m: Mat)
    requires Holds(aug, m) && col < m.r && col < m.c && At(m, col, col) != ZERO
    modifies aug
    ensures Holds(aug, EliminateBelow(m, col))
  {
    hide Mul, Div, Sub;
    var pivot := aug[col, col];
    ghost var t := EliminateBelow(m, col);
    for row := col + 1 to aug.Length0
      invariant forall i, k :: 0 <= i < m.r && 0 <= k < m.c ==> aug[i, k] == At(if i < row then t else m, i, k)
    {
      var factor := Div(aug[row, col], pivot);
      for j := col to aug.Length1
        invariant forall i, k :: 0 <= i < m.r && 0 <= k < m.c ==>
          aug[i, k] == At(if i < row || (i == row && k < j) then t else m, i, k)
      {
        aug[row, j] := Sub(aug[row, j], Mul(factor, aug[col, j]));
      }
    }
  }

  method ComputeBackCell(aug: array2<Complex>, x: array2<Complex>, n: nat, col: nat, j: nat, ghost u: Mat,
                         ghost below: Mat)
    returns (v: Complex)
    requires Holds(aug, u) && u.r == n <= u.c && col < n && j < u.c - n && At(u, col, col) != ZERO
    requires x.Length0 == n && x.Length1 == u.c - n
    requires forall k :: col < k < n ==> x[k, j] == At(below, k, j)
    ensures v == BackCell(u, below, n, col, j)
  {
    hide Mul, Div, Sub, Add;
    var sum := aug[col, n + j];
    ghost var tail := k => if k > col then Mul(At(u, col, k), At(below, k, j)) else ZERO;
    SumZero(col + 1, tail);
    SubZero(sum);
    for k := col + 1 to n
      invariant sum == Sub(At(u, col, n + j), Sum(k, tail))
    {
      SubSub(At(u, col, n + j), Sum(k, tail), Mul(aug[col, k], x[k, j]));
      sum := Sub(sum, Mul(aug[col, k], x[k, j]));
    }
    SumExt(n, tail, k => if k > col then Mul(At(u, col, k), At(below, k, j)) else ZERO);
    v := Div(sum, aug[col, col]);
  }

  method BackSubstituteInPlace(aug: array2<Complex>, n: nat, ghost u: Mat) returns (x: array2<Complex>)
    requires Holds(aug, u) && Triangular(u, n, n)
    ensures fresh(x) && Holds(x, BackSubstitute(u, n, 0))
  {
    hide BackCell, BackSubstitute, At;
    var m := aug.Length1 - n;
    x := new Complex[n, m]((i, j) => ZERO);
    var col := n;
    forall i, t | 0 <= i < n && 0 <= t < m ensures At(BackSubstitute(u, n, n), i, t) == ZERO {
      BackAt(u, n, n, i, t);
    }
    while col > 0
      invariant 0 <= col <= n && Holds(x, BackSubstitute(u, n, col))
    {
      col := col - 1;
      ghost var below, here := BackSubstitute(u, n, col + 1), BackSubstitute(u, n, col);
      forall i, t | 0 <= i < n && 0 <= t < m
        ensures At(here, i, t) == if i == col then BackCell(u, below, n, col, t) else At(below, i, t)
      {
        BackAt(u, n, col, i, t);
      }
      for j := 0 to m
        invariant forall i, t :: 0 <= i < n && 0 <= t < m ==>
          x[i, t] == At(if i == col && t < j then here else below, i, t)
      {
        x[col, j] := ComputeBackCell(aug, x, n, col, j, u, below);
      }
    }
  }

  lemma SubZero(a: Complex)
    ensures Sub(a, ZERO) == a
  {}

  lemma SubSub(a: Complex, s: Complex, b: Complex)
    ensures Sub(Sub(a, s), b) == Sub(a, Add(s, b))
  {}

  method SolveLinear(a: Mat, b: Mat) returns (x: array2<Complex>)
    requires a.r == a.c == b.r
    ensures fresh(x) && Holds(x, Solve(a, b))
  {
    hide Mul, Div, Sub, Add, NormSqr, PivotRow, SwapRows, EliminateBelow, At, BackSubstitute;
    var n, m := a.r, b.c;
    ghost var cur := Augment(a, b);
    var aug := new Complex[n, n + m]((i, j) => if j < n then At(a, i, j) else At(b, i, j - n));
    for col := 0 to n
      invariant cur.r == n && cur.c == n + m && Holds(aug, cur)
      invariant Triangular(cur, n, col)
      invariant Forward(Augment(a, b), n, 0) == Forward(cur, n, col)
    {
      ghost var before := cur;
      var maxRow := FindPivot(aug, col, cur);
      SwapInPlace(aug, col, maxRow, cur);
      cur := SwapRows(cur, col, maxRow);
      var pivot := aug[col, col];
      if Negligible(pivot) {
        x := new Complex[n, n]((i, j) => if i == j then ONE else ZERO);
        return;
      }
      NegligibleZero();
      EliminateInPlace(aug, col, cur);
      cur := EliminateBelow(cur, col);
      StepTriangular(before, n, col);
    }
    x := BackSubstituteInPlace(aug, n, cur);
  }
}
