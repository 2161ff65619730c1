// Dense complex matrices: the model of ndarray's Array2<Complex64>.
module Matrices {
  import opened ComplexNumbers

  // ---------- finite sums ----------

  function Sum(n: nat, f: int -> Complex): Complex {
    if n == 0 then ZERO else Add(Sum(n - 1, f), f(n - 1))
  }

  lemma {:induction false} SumExt(n: nat, f: int -> Complex, g: int -> Complex)
    requires forall k :: 0 <= k < n ==> f(k) == g(k)
    ensures Sum(n, f) == Sum(n, g)
  {
    if n > 0 { SumExt(n - 1, f, g); }
  }

  lemma {:induction false} SumZero(n: nat, f: int -> Complex)
    requires forall k :: 0 <= k < n ==> f(k) == ZERO
    ensures Sum(n, f) == ZERO
  {
    if n > 0 { SumZero(n - 1, f); }
  }

  lemma {:induction false} SumAdd(n: nat, f: int -> Complex, g: int -> Complex, h: int -> Complex)
    requires forall k :: 0 <= k < n ==> h(k) == Add(f(k), g(k))
    ensures Sum(n, h) == Add(Sum(n, f), Sum(n, g))
  {
    if n > 0 { SumAdd(n - 1, f, g, h); }
  }

  lemma {:induction false} SumScale(n: nat, c: Complex, f: int -> Complex, h: int -> Complex)
    requires forall k :: 0 <= k < n ==> h(k) == Mul(c, f(k))
    ensures Sum(n, h) == Mul(c, Sum(n, f))
  {
    hide Mul, Add;
    if n == 0 {
      MulUnit(c);
    } else {
      SumScale(n - 1, c, f, h);
      Distrib(c, Sum(n - 1, f), f(n - 1));
    }
  }

  lemma {:induction false} SumConj(n: nat, f: int -> Complex, h: int -> Complex)
    requires forall k :: 0 <= k < n ==> h(k) == Conj(f(k))
    ensures Sum(n, h) == Conj(Sum(n, f))
  {
    if n > 0 { SumConj(n - 1, f, h); }
  }

  // Only the term at p survives.
  lemma {:induction false} SumSingle(n: nat, p: int, f: int -> Complex)
    requires 0 <= p < n
    requires forall k :: 0 <= k < n && k != p ==> f(k) == ZERO
    ensures Sum(n, f) == f(p)
  {
    if p == n - 1 {
      SumZero(n - 1, f);
    } else {
      SumSingle(n - 1, p, f);
    }
  }

  // Exchange of the order of summation.
  lemma {:induction false} SumSwap(m: nat, n: nat, f: (int, int) -> Complex)
    ensures Sum(m, i => Sum(n, j => f(i, j))) == Sum(n, j => Sum(m, i => f(i, j)))
  {
    hide Add;
    if m == 0 {
      SumZero(n, j => Sum(m, i => f(i, j)));
    } else {
      SumSwap(m - 1, n, f);
      SumExt(m - 1, i => Sum(n, j => f(i, j)), (i: int) => Sum(n, j => f(i, j)));
      SumAdd(n, j => Sum(m - 1, i => f(i, j)), j => f(m - 1, j), j => Sum(m, i => f(i, j)));
    }
  }

  // ---------- matrices ----------

  datatype RawMat = RawMat(r: nat, c: nat, e: seq<seq<Complex>>)

  ghost predicate WellFormed(m: RawMat) {
    |m.e| == m.r && forall i :: 0 <= i < m.r ==> |m.e[i]| == m.c
  }

  type Mat = m: RawMat | WellFormed(m) witness RawMat(0, 0, [])

  function At(m: Mat, i: int, j: int): Complex {
    if 0 <= i < m.r && 0 <= j < m.c then m.e[i][j] else ZERO
  }

  function Build(r: nat, c: nat, f: (int, int) -> Complex): (m: Mat)
    ensures m.r == r && m.c == c
    ensures forall i, j :: 0 <= i < r && 0 <= j < c ==> At(m, i, j) == f(i, j)
  {
    RawMat(r, c, seq(r, i => seq(c, j => f(i, j))))
  }

  lemma Ext(a: Mat, b: Mat)
    requires a.r == b.r && a.c == b.c
    requires forall i, j :: 0 <= i < a.r && 0 <= j < a.c ==> At(a, i, j) == At(b, i, j)
    ensures a == b
  {
    forall i | 0 <= i < a.r
      ensures a.e[i] == b.e[i]
    {
      forall j | 0 <= j < a.c
        ensures a.e[i][j] == b.e[i][j]
      {
        assert At(a, i, j) == At(b, i, j);
      }
    }
  }

  function Id(n: nat): (m: Mat)
    ensures m.r == n && m.c == n
  {
    Build(n, n, (i, j) => if i == j then ONE else ZERO)
  }

  function Zeros(r: nat, c: nat): (m: Mat)
    ensures m.r == r && m.c == c
  {
    Build(r, c, (i, j) => ZERO)
  }

  function Plus(a: Mat, b: Mat): (m: Mat)
    ensures m.r == a.r && m.c == a.c
  {
    Build(a.r, a.c, (i, j) => Add(At(a, i, j), At(b, i, j)))
  }

  function Scale(z: Complex, a: Mat): (m: Mat)
    ensures m.r == a.r && m.c == a.c
  {
    Build(a.r, a.c, (i, j) => Mul(z, At(a, i, j)))
  }

  function Minus(a: Mat, b: Mat): (m: Mat)
    ensures m.r == a.r && m.c == a.c
  {
    Build(a.r, a.c, (i, j) => Sub(At(a, i, j), At(b, i, j)))
  }

  function Dagger(a: Mat): (m: Mat)
    ensures m.r == a.c && m.c == a.r
  {
    Build(a.c, a.r, (i, j) => Conj(At(a, j, i)))
  }

  // Row i of a against column j of b.
  function RowCol(a: Mat, b: Mat, i: int, j: int): Complex {
    Sum(a.c, k => Mul(At(a, i, k), At(b, k, j)))
  }

  function Dot(a: Mat, b: Mat): (m: Mat)
    ensures m.r == a.r && m.c == b.c
  {
    Build(a.r, b.c, (i, j) => RowCol(a, b, i, j))
  }

  function Trace(a: Mat): Complex {
    Sum(a.r, i => At(a, i, i))
  }

  // ---------- laws of the matrix algebra ----------

  lemma {:induction false} DotAssoc(a: Mat, b: Mat, c: Mat)
    requires a.c == b.r && b.c == c.r
    ensures Dot(Dot(a, b), c) == Dot(a, Dot(b, c))
  {
    hide Mul, Add, Sum;
    var l, r := Dot(Dot(a, b), c), Dot(a, Dot(b, c));
    forall i, j | 0 <= i < l.r && 0 <= j < l.c
      ensures At(l, i, j) == At(r, i, j)
    {
      var f := (k: int, t: int) => Mul(At(a, i, t), Mul(At(b, t, k), At(c, k, j)));
      forall k | 0 <= k < b.c
        ensures Mul(At(Dot(a, b), i, k), At(c, k, j)) == Sum(a.c, t => f(k, t))
      {
        MulComm(RowCol(a, b, i, k), At(c, k, j));
        forall t | 0 <= t < a.c
          ensures f(k, t) == Mul(At(c, k, j), Mul(At(a, i, t), At(b, t, k)))
        {
          MulAssoc(At(a, i, t), At(b, t, k), At(c, k, j));
          MulComm(At(c, k, j), Mul(At(a, i, t), At(b, t, k)));
        }
        SumScale(a.c, At(c, k, j), t => Mul(At(a, i, t), At(b, t, k)), t => f(k, t));
      }
      forall t | 0 <= t < a.c
        ensures Mul(At(a, i, t), At(Dot(b, c), t, j)) == Sum(b.c, k => f(k, t))
      {
        SumScale(b.c, At(a, i, t), k => Mul(At(b, t, k), At(c, k, j)), k => f(k, t));
      }
      SumExt(b.c, k => Mul(At(Dot(a, b), i, k), At(c, k, j)), k => Sum(a.c, t => f(k, t)));
      SumSwap(b.c, a.c, f);
      SumExt(a.c, t => Mul(At(a, i, t), At(Dot(b, c), t, j)), t => Sum(b.c, k => f(k, t)));
    }
    Ext(l, r);
  }

  lemma IdLaws(a: Mat)
    ensures Dot(Id(a.r), a) == a && Dot(a, Id(a.c)) == a
  {
    hide Mul, Add, Sum;
    var l, r := Dot(Id(a.r), a), Dot(a, Id(a.c));
    forall i, j | 0 <= i < a.r && 0 <= j < a.c
      ensures At(l, i, j) == At(a, i, j) && At(r, i, j) == At(a, i, j)
    {
      var f := k => Mul(At(Id(a.r), i, k), At(a, k, j));
      var g := k => Mul(At(a, i, k), At(Id(a.c), k, j));
      forall k | 0 <= k < a.r ensures f(k) == if k == i then At(a, i, j) else ZERO {
        MulUnit(At(a, k, j));
      }
      forall k | 0 <= k < a.c ensures g(k) == if k == j then At(a, i, j) else ZERO {
        MulUnit(At(a, i, k));
      }
      SumSingle(a.r, i, f);
      SumSingle(a.c, j, g);
      SumExt(a.r, f, k => Mul(At(Id(a.r), i, k), At(a, k, j)));
      SumExt(a.c, g, k => Mul(At(a, i, k), At(Id(a.c), k, j)));
    }
    Ext(l, a);
    Ext(r, a);
  }

  lemma DotPlus(a: Mat, b: Mat, c: Mat)
    requires b.r == c.r && b.c == c.c && a.c == b.r
    ensures Dot(a, Plus(b, c)) == Plus(Dot(a, b), Dot(a, c))
  {
    hide Mul, Add, Sum;
    var l, r := Dot(a, Plus(b, c)), Plus(Dot(a, b), Dot(a, c));
    forall i, j | 0 <= i < a.r && 0 <= j < b.c
      ensures At(l, i, j) == At(r, i, j)
    {
      forall k | 0 <= k < a.c
        ensures Mul(At(a, i, k), At(Plus(b, c), k, j)) ==
          Add(Mul(At(a, i, k), At(b, k, j)), Mul(At(a, i, k), At(c, k, j)))
      {
        Distrib(At(a, i, k), At(b, k, j), At(c, k, j));
      }
      SumAdd(a.c, k => Mul(At(a, i, k), At(b, k, j)), k => Mul(At(a, i, k), At(c, k, j)),
             k => Mul(At(a, i, k), At(Plus(b, c), k, j)));
    }
    Ext(l, r);
  }

  lemma PlusDot(b: Mat, c: Mat, a: Mat)
    requires b.r == c.r && b.c == c.c == a.r
    ensures Dot(Plus(b, c), a) == Plus(Dot(b, a), Dot(c, a))
  {
    hide Mul, Add, Sum;
    var l, r := Dot(Plus(b, c), a), Plus(Dot(b, a), Dot(c, a));
    forall i, j | 0 <= i < b.r && 0 <= j < a.c
      ensures At(l, i, j) == At(r, i, j)
    {
      forall k | 0 <= k < b.c
        ensures Mul(At(Plus(b, c), i, k), At(a, k, j)) ==
          Add(Mul(At(b, i, k), At(a, k, j)), Mul(At(c, i, k), At(a, k, j)))
      {
        Distrib(At(a, k, j), At(b, i, k), At(c, i, k));
      }
      SumAdd(b.c, k => Mul(At(b, i, k), At(a, k, j)), k => Mul(At(c, i, k), At(a, k, j)),
             k => Mul(At(Plus(b, c), i, k), At(a, k, j)));
    }
    Ext(l, r);
  }

  lemma DotScale(z: Complex, a: Mat, b: Mat)
    requires a.c == b.r
    ensures Dot(Scale(z, a), b) == Scale(z, Dot(a, b))
    ensures Dot(a, Scale(z, b)) == Scale(z, Dot(a, b))
  {
    hide Mul, Add, Sum;
    var l, m, r := Dot(Scale(z, a), b), Dot(a, Scale(z, b)), Scale(z, Dot(a, b));
    forall i, j | 0 <= i < a.r && 0 <= j < b.c
      ensures At(l, i, j) == At(r, i, j) && At(m, i, j) == At(r, i, j)
    {
      var f := k => Mul(At(a, i, k), At(b, k, j));
      forall k | 0 <= k < a.c
        ensures Mul(At(Scale(z, a), i, k), At(b, k, j)) == Mul(z, f(k))
        ensures Mul(At(a, i, k), At(Scale(z, b), k, j)) == Mul(z, f(k))
      {
        MulAssoc(z, At(a, i, k), At(b, k, j));
        MulComm(z, At(b, k, j));
        MulAssoc(At(a, i, k), At(b, k, j), z);
        MulComm(f(k), z);
      }
      SumExt(a.c, f, k => Mul(At(a, i, k), At(b, k, j)));
      SumScale(a.c, z, f, k => Mul(At(Scale(z, a), i, k), At(b, k, j)));
      SumScale(a.c, z, f, k => Mul(At(a, i, k), At(Scale(z, b), k, j)));
    }
    Ext(l, r);
    Ext(m, r);
  }

  lemma DaggerDot(a: Mat, b: Mat)
    requires a.c == b.r
    ensures Dagger(Dot(a, b)) == Dot(Dagger(b), Dagger(a))
  {
    hide Mul, Add, Sum, Conj;
    var l, r := Dagger(Dot(a, b)), Dot(Dagger(b), Dagger(a));
    forall i, j | 0 <= i < b.c && 0 <= j < a.r
      ensures At(l, i, j) == At(r, i, j)
    {
      forall k | 0 <= k < a.c
        ensures Mul(At(Dagger(b), i, k), At(Dagger(a), k, j)) == Conj(Mul(At(a, j, k), At(b, k, i)))
      {
        ConjLaws(At(a, j, k), At(b, k, i));
        MulComm(Conj(At(a, j, k)), Conj(At(b, k, i)));
      }
      SumConj(a.c, k => Mul(At(a, j, k), At(b, k, i)), k => Mul(At(Dagger(b), i, k), At(Dagger(a), k, j)));
    }
    Ext(l, r);
  }

  lemma DaggerDagger(a: Mat)
    ensures Dagger(Dagger(a)) == a
  {
    Ext(Dagger(Dagger(a)), a);
  }

  lemma DaggerPlus(a: Mat, b: Mat)
    requires a.r == b.r && a.c == b.c
    ensures Dagger(Plus(a, b)) == Plus(Dagger(a), Dagger(b))
    ensures Dagger(Minus(a, b)) == Minus(Dagger(a), Dagger(b))
  {
    Ext(Dagger(Plus(a, b)), Plus(Dagger(a), Dagger(b)));
    Ext(Dagger(Minus(a, b)), Minus(Dagger(a), Dagger(b)));
  }

  lemma DaggerScale(z: Complex, a: Mat)
    ensures Dagger(Scale(z, a)) == Scale(Conj(z), Dagger(a))
  {
    hide Mul, Conj;
    forall i, j | 0 <= i < a.c && 0 <= j < a.r
      ensures At(Dagger(Scale(z, a)), i, j) == At(Scale(Conj(z), Dagger(a)), i, j)
    {
      ConjLaws(z, At(a, j, i));
    }
    Ext(Dagger(Scale(z, a)), Scale(Conj(z), Dagger(a)));
  }

  lemma DaggerId(n: nat)
    ensures Dagger(Id(n)) == Id(n)
  {
    Ext(Dagger(Id(n)), Id(n));
  }

  lemma PlusLaws(a: Mat, b: Mat, c: Mat)
    requires a.r == b.r == c.r && a.c == b.c == c.c
    ensures Plus(a, b) == Plus(b, a)
    ensures Plus(Plus(a, b), c) == Plus(a, Plus(b, c))
    ensures Plus(a, Zeros(a.r, a.c)) == a
    ensures Minus(a, b) == Plus(a, Scale(Real(-1.0), b))
  {
    Ext(Plus(a, b), Plus(b, a));
    Ext(Plus(Plus(a, b), c), Plus(a, Plus(b, c)));
    Ext(Plus(a, Zeros(a.r, a.c)), a);
    Ext(Minus(a, b), Plus(a, Scale(Real(-1.0), b)));
  }

  lemma ScaleLaws(y: Complex, z: Complex, a: Mat)
    ensures Scale(y, Scale(z, a)) == Scale(Mul(y, z), a)
    ensures Scale(Add(y, z), a) == Plus(Scale(y, a), Scale(z, a))
    ensures Scale(ONE, a) == a
    ensures Scale(ZERO, a) == Zeros(a.r, a.c)
  {
    hide Mul, Add;
    forall i, j | 0 <= i < a.r && 0 <= j < a.c
      ensures At(Scale(y, Scale(z, a)), i, j) == At(Scale(Mul(y, z), a), i, j)
      ensures At(Scale(Add(y, z), a), i, j) == At(Plus(Scale(y, a), Scale(z, a)), i, j)
      ensures At(Scale(ONE, a), i, j) == At(a, i, j)
      ensures At(Scale(ZERO, a), i, j) == ZERO
    {
      MulAssoc(y, z, At(a, i, j));
      Distrib(At(a, i, j), y, z);
      MulUnit(At(a, i, j));
    }
    Ext(Scale(y, Scale(z, a)), Scale(Mul(y, z), a));
    Ext(Scale(Add(y, z), a), Plus(Scale(y, a), Scale(z, a)));
    Ext(Scale(ONE, a), a);
    Ext(Scale(ZERO, a), Zeros(a.r, a.c));
  }

  lemma ScalePlus(z: Complex, a: Mat, b: Mat)
    requires a.r == b.r && a.c == b.c
    ensures Scale(z, Plus(a, b)) == Plus(Scale(z, a), Scale(z, b))
  {
    hide Mul, Add;
    forall i, j | 0 <= i < a.r && 0 <= j < a.c
      ensures At(Scale(z, Plus(a, b)), i, j) == At(Plus(Scale(z, a), Scale(z, b)), i, j)
    {
      Distrib(z, At(a, i, j), At(b, i, j));
    }
    Ext(Scale(z, Plus(a, b)), Plus(Scale(z, a), Scale(z, b)));
  }

  lemma {:induction false} TraceCyclic(a: Mat, b: Mat)
    requires a.c == b.r && b.c == a.r
    ensures Trace(Dot(a, b)) == Trace(Dot(b, a))
  {
    hide Mul, Add, Sum;
    var f := (i: int, k: int) => Mul(At(a, i, k), At(b, k, i));
    SumExt(a.r, i => At(Dot(a, b), i, i), i => Sum(a.c, k => f(i, k))) by {
      forall i | 0 <= i < a.r
        ensures At(Dot(a, b), i, i) == Sum(a.c, k => f(i, k))
      {
        SumExt(a.c, k => Mul(At(a, i, k), At(b, k, i)), k => f(i, k));
      }
    }
    SumSwap(a.r, a.c, f);
    SumExt(b.r, k => At(Dot(b, a), k, k), k => Sum(a.r, i => f(i, k))) by {
      forall k | 0 <= k < b.r
        ensures At(Dot(b, a), k, k) == Sum(a.r, i => f(i, k))
      {
        forall i | 0 <= i < a.r ensures Mul(At(b, k, i), At(a, i, k)) == f(i, k) {
          MulComm(At(b, k, i), At(a, i, k));
        }
        SumExt(a.r, i => Mul(At(b, k, i), At(a, i, k)), i => f(i, k));
      }
    }
  }

  lemma TraceLinear(z: Complex, a: Mat, b: Mat)
    requires a.r == b.r && a.c == b.c && a.r <= a.c
    ensures Trace(Plus(a, b)) == Add(Trace(a), Trace(b))
    ensures Trace(Scale(z, a)) == Mul(z, Trace(a))
    ensures Trace(Dagger(a)) == Conj(Trace(a)) || a.r != a.c
  {
    hide Mul, Add, Sum, Conj;
    SumAdd(a.r, i => At(a, i, i), i => At(b, i, i), i => At(Plus(a, b), i, i));
    SumScale(a.r, z, i => At(a, i, i), i => At(Scale(z, a), i, i));
    if a.r == a.c {
      SumConj(a.r, i => At(a, i, i), i => At(Dagger(a), i, i));
    }
  }
}
