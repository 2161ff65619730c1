// Elementary gates, random sampling and RB sequences: core/src/qubitos/calibrator/cliffords.py 308-454.
module CliffordSampling {
  import opened Gf2
  import opened CliffordTableaux

  function Unsigned(n: nat, m: BMat): (t: Tableau)
    requires m.d == 2 * n
    ensures t.n == n && t.table == m
  {
    RawTableau(n, m, seq(2 * n, _ => false))
  }

  function HadamardTable(n: nat, q: int): (m: BMat)
    ensures m.d == 2 * n
  {
    Build(2 * n, (i, j) => j == if i == q || i == n + q then Partner(n, i) else i)
  }

  function PhaseTable(n: nat, q: int): (m: BMat)
    ensures m.d == 2 * n
  {
    Build(2 * n, (i, j) => i == j || (i == q && j == n + q))
  }

  function CnotTable(n: nat, control: int, target: int): (m: BMat)
    ensures m.d == 2 * n
  {
    Build(2 * n, (i, j) => i == j || (i == control && j == target) || (i == n + target && j == n + control))
  }

  function Hadamard(n: nat, q: int): (t: Tableau)
    ensures t.n == n
  {
    Unsigned(n, HadamardTable(n, q))
  }

  function PhaseGate(n: nat, q: int): (t: Tableau)
    ensures t.n == n
  {
    Unsigned(n, PhaseTable(n, q))
  }

  function Cnot(n: nat, control: int, target: int): (t: Tableau)
    ensures t.n == n
  {
    Unsigned(n, CnotTable(n, control, target))
  }

  // ---------- the gates are symplectic ----------

  lemma FormSparse(n: nat, u: int -> bool, w: int -> bool, p: int, x: bool, y: int)
    requires 0 <= p < 2 * n && 0 <= y < 2 * n
    requires forall k :: 0 <= k < 2 * n ==> w(k) == ((k == p) != (x && k == y))
    ensures Form(n, u, w) == (u(Partner(n, p)) != (x && u(Partner(n, y))))
  {
    hide Par;
    var f, g, h := k => u(k) && k == Partner(n, p), k => x && u(k) && k == Partner(n, y), k => u(k) && w(Partner(n, k));
    ParXor(2 * n, f, g, h);
    ParSingle(2 * n, Partner(n, p), f);
    ParSingle(2 * n, Partner(n, y), g);
    ParExt(2 * n, h, k => u(k) && w(Partner(n, k)));
  }

  // Row i of a matrix is the unit vector at one column, plus possibly the unit vector at another.
  datatype SparseRow = SparseRow(main: int, more: bool, extra: int)

  predicate DescribesRow(n: nat, m: BMat, i: int, r: SparseRow) {
    0 <= r.main < 2 * n && 0 <= r.extra < 2 * n &&
    forall j :: 0 <= j < 2 * n ==> Bit(m, i, j) == ((j == r.main) != (r.more && j == r.extra))
  }

  lemma SparseSandwich(n: nat, m: BMat, rows: int -> SparseRow)
    requires m.d == 2 * n && forall i :: 0 <= i < 2 * n ==> DescribesRow(n, m, i, rows(i))
    requires forall i, j :: 0 <= i < 2 * n && 0 <= j < 2 * n ==>
               (Bit(m, j, Partner(n, rows(i).main)) != (rows(i).more && Bit(m, j, Partner(n, rows(i).extra)))) ==
                 (j == Partner(n, i))
    ensures Dot(Dot(m, Omega(n)), Transpose(m)) == Omega(n)
  {
    hide Form, Dot;
    var l := Dot(Dot(m, Omega(n)), Transpose(m));
    forall i, j | 0 <= i < 2 * n && 0 <= j < 2 * n ensures Bit(l, i, j) == Bit(Omega(n), i, j) {
      SandwichEntry(n, m, i, j);
      var r := rows(i);
      assert DescribesRow(n, m, i, r);
      FormSparse(n, Row(m, j), Row(m, i), r.main, r.more, r.extra);
      assert 0 <= Partner(n, r.main) < 2 * n && 0 <= Partner(n, r.extra) < 2 * n;
    }
    Ext(l, Omega(n));
  }

  lemma SymplecticFromBoth(n: nat, m: BMat)
    requires m.d == 2 * n
    requires Dot(Dot(m, Omega(n)), Transpose(m)) == Omega(n)
    requires var t := Transpose(m); Dot(Dot(t, Omega(n)), Transpose(t)) == Omega(n)
    ensures Symplectic(n, m)
  {
    TransposeTwice(m);
  }

  lemma HadamardSymplectic(n: nat, q: int)
    requires 0 <= q < n
    ensures Symplectic(n, HadamardTable(n, q))
  {
    hide Dot;
    var m := HadamardTable(n, q);
    var rows := i => SparseRow(if i == q || i == n + q then Partner(n, i) else i, false, 0);
    SparseSandwich(n, m, rows);
    Ext(Transpose(m), m);
    SymplecticFromBoth(n, m);
  }

  lemma PhaseSymplectic(n: nat, q: int)
    requires 0 <= q < n
    ensures Symplectic(n, PhaseTable(n, q))
  {
    hide Dot;
    var m := PhaseTable(n, q);
    SparseSandwich(n, m, i => SparseRow(i, i == q, n + q));
    SparseSandwich(n, Transpose(m), i => SparseRow(i, i == n + q, q));
    SymplecticFromBoth(n, m);
  }

  lemma CnotSymplectic(n: nat, control: int, target: int)
    requires 0 <= control < n && 0 <= target < n && control != target
    ensures Symplectic(n, CnotTable(n, control, target))
  {
    hide Dot, Symplectic;
    var m := CnotTable(n, control, target);
    CnotSandwich(n, control, target);
    CnotSandwich(n, target, control);
    Ext(Transpose(m), CnotTable(n, target, control));
    SymplecticFromBoth(n, m);
  }

  lemma CnotSandwich(n: nat, control: int, target: int)
    requires 0 <= control < n && 0 <= target < n && control != target
    ensures var m := CnotTable(n, control, target); Dot(Dot(m, Omega(n)), Transpose(m)) == Omega(n)
  {
    hide Dot, Omega, Transpose;
    var m := CnotTable(n, control, target);
    SparseSandwich(n, m,
                   i => SparseRow(i, i == control || i == n + target, if i == control then target else n + control));
  }

  // ---------- everything reachable from the gates ----------

  datatype Word =
    | Start
    | H(qubit: nat)
    | S(qubit: nat)
    | CX(control: nat, target: nat)
    | After(outer: Word, inner: Word)
    | Undo(word: Word)

  predicate Fits(n: nat, w: Word) {
    match w
    case Start => true
    case H(q) => q < n
    case S(q) => q < n
    case CX(c, t) => c < n && t < n && c != t
    case After(a, b) => Fits(n, a) && Fits(n, b)
    case Undo(a) => Fits(n, a)
  }

  function Value(n: nat, w: Word): (t: Tableau)
    ensures t.n == n
  {
    match w
    case Start => Identity(n)
    case H(q) => Hadamard(n, q)
    case S(q) => PhaseGate(n, q)
    case CX(c, t) => Cnot(n, c, t)
    case After(a, b) => Compose(Value(n, a), Value(n, b))
    case Undo(a) => Inverse(Value(n, a))
  }

  lemma {:induction false} ReachableSymplectic(n: nat, w: Word)
    requires Fits(n, w)
    ensures Symplectic(n, Value(n, w).table)
  {
    hide Symplectic, Compose, Inverse;
    match w
    case Start => SymplecticId(n);
    case H(q) => HadamardSymplectic(n, q);
    case S(q) => PhaseSymplectic(n, q);
    case CX(c, t) => CnotSymplectic(n, c, t);
    case After(a, b) =>
      ReachableSymplectic(n, a);
      ReachableSymplectic(n, b);
      ComposeShape(Value(n, a), Value(n, b));
      SymplecticDot(n, Value(n, a).table, Value(n, b).table);
    case Undo(a) =>
      ReachableSymplectic(n, a);
      InverseShape(Value(n, a));
      InverseTableLaws(n, Value(n, a).table);
  }

  lemma ComposeShape(a: Tableau, b: Tableau)
    requires a.n == b.n
    ensures Compose(a, b).n == a.n && Compose(a, b).table == Dot(a.table, b.table)
  {}

  lemma ReachableInverse(n: nat, w: Word)
    requires Fits(n, w)
    ensures Value(n, After(w, Undo(w))) == Identity(n)
    ensures Value(n, After(Undo(w), w)) == Identity(n)
    ensures Value(n, Undo(Undo(w))) == Value(n, w)
  {
    hide Symplectic, Compose, Inverse;
    ReachableSymplectic(n, w);
    InverseExact(Value(n, w));
  }

  // ---------- findings: signs and order of composition ----------

  // identity o S differs from S, so compose with identity on the left is not harmless,
  // and (I o I) o S differs from I o (I o S).
  lemma SignsDoNotAssociate()
    ensures var e, s := Identity(1), PhaseGate(1, 0);
            && Compose(e, s) != s
            && Compose(Compose(e, e), s) != Compose(e, Compose(e, s))
  {
    hide Compose, Dot, Pairs;
    var e, s := Identity(1), PhaseGate(1, 0);
    RightUnit(e);
    OnePair(Row(s.table, 0));
    LeftUnit(s);
    var es := Compose(e, s);
    LeftSign(s, 0);
    LeftSign(es, 0);
  }

  lemma OnePair(u: int -> bool)
    ensures Pairs(1, u) == (u(0) && u(1))
  {
    ParSingle(1, 0, k => u(k) && u(1 + k));
  }

  // Composing with identity on the left flips the signs of rows with an odd number of pairs.
  lemma LeftSign(t: Tableau, i: int)
    requires 0 <= i < 2 * t.n
    ensures Phase(Compose(Identity(t.n), t), i) == (Phase(t, i) != Pairs(t.n, Row(t.table, i)))
  {
    hide Par, Dot, Pairs, Id;
    ParZero(2 * t.n, j => Bit(t.table, i, j) && Phase(Identity(t.n), j));
  }

  // The docstring says "apply other first", but rows are images of generators, so the product taken is the
  // table of the opposite order: row i is the image under other of row i of self.
  lemma ComposeRows(a: Tableau, b: Tableau, i: int, k: int)
    requires a.n == b.n && 0 <= i < 2 * a.n && 0 <= k < 2 * a.n
    ensures Bit(Compose(a, b).table, i, k) == Combination(b.table, Row(a.table, i), 2 * a.n)(k)
  {
    hide Par;
    var f, g := j => Bit(a.table, i, j) && Bit(b.table, j, k), j => Row(a.table, i)(j) && Bit(b.table, j, k);
    forall j | 0 <= j < 2 * a.n ensures f(j) == g(j) {
      assert Row(a.table, i)(j) == Bit(a.table, i, j);
    }
    ParExt(2 * a.n, f, g);
  }

  // The documented order, row i being the image under self of row i of other, holds exactly when the tables commute.
  lemma DocumentedOrderExactly(a: Tableau, b: Tableau)
    requires a.n == b.n
    ensures (forall i, k :: 0 <= i < 2 * a.n && 0 <= k < 2 * a.n ==>
               Bit(Compose(a, b).table, i, k) == Combination(a.table, Row(b.table, i), 2 * a.n)(k)) <==>
            Dot(a.table, b.table) == Dot(b.table, a.table)
  {
    hide Dot, Combination, Compose, Row;
    ComposeShape(a, b);
    ComposeShape(b, a);
    forall i, k | 0 <= i < 2 * a.n && 0 <= k < 2 * a.n
      ensures Bit(Dot(b.table, a.table), i, k) == Combination(a.table, Row(b.table, i), 2 * a.n)(k)
    {
      ComposeRows(b, a, i, k);
    }
    if forall i, k :: 0 <= i < 2 * a.n && 0 <= k < 2 * a.n ==>
      Bit(Compose(a, b).table, i, k) == Combination(a.table, Row(b.table, i), 2 * a.n)(k)
    {
      Ext(Dot(a.table, b.table), Dot(b.table, a.table));
    }
  }

  lemma OrderMatters()
    ensures Compose(Hadamard(1, 0), PhaseGate(1, 0)).table != Compose(PhaseGate(1, 0), Hadamard(1, 0)).table
  {
    hide Par;
    var h, s := HadamardTable(1, 0), PhaseTable(1, 0);
    ParSingle(2, 1, k => Bit(h, 0, k) && Bit(s, k, 0));
    ParSingle(2, 1, k => Bit(s, 0, k) && Bit(h, k, 0));
    assert !Bit(Dot(h, s), 0, 0) && Bit(Dot(s, h), 0, 0);
  }

  // ---------- sampling and RB sequences ----------

  // The k-th draw of the generator, for a given exclusive upper bound
  type Rng = (nat, nat) -> nat

  ghost predicate InRange(rng: Rng) {
    forall k: nat, bound: nat :: 0 < bound ==> rng(k, bound) < bound
  }

  datatype Drawn<T> = Drawn(value: T, next: nat)

  // One pass of the sampling loop
  function Layer(n: nat, rng: Rng, k: nat, t: Tableau): (r: Drawn<Tableau>)
    requires t.n == n
    ensures r.value.n == n
  {
    var gate := rng(k, 3);
    if gate == 0 then
      Drawn(Compose(Hadamard(n, rng(k + 1, n)), t), k + 2)
    else if gate == 1 then
      Drawn(Compose(PhaseGate(n, rng(k + 1, n)), t), k + 2)
    else if gate == 2 && n > 1 then
      var control, drawn := rng(k + 1, n), rng(k + 2, n - 1);
      Drawn(Compose(Cnot(n, control, if drawn >= control then drawn + 1 else drawn), t), k + 3)
    else
      Drawn(t, k + 1)
  }

  function Layers(n: nat, rng: Rng, k: nat, count: nat): (r: Drawn<Tableau>)
    ensures r.value.n == n
  {
    if count == 0 then Drawn(Identity(n), k)
    else
      var before := Layers(n, rng, k, count - 1);
      Layer(n, rng, before.next, before.value)
  }

  function NumLayers(n: nat): nat {
    4 * n * n + 10
  }

  function Sample(n: nat, rng: Rng, k: nat): (r: Drawn<Tableau>)
    ensures r.value.n == n
  {
    Layers(n, rng, k, NumLayers(n))
  }

  lemma LayerSymplectic(n: nat, rng: Rng, k: nat, t: Tableau)
    requires n >= 1 && InRange(rng) && t.n == n && Symplectic(n, t.table)
    ensures Symplectic(n, Layer(n, rng, k, t).value.table)
  {
    hide Symplectic, Compose;
    var gate, q := rng(k, 3), rng(k + 1, n);
    if gate == 0 {
      HadamardSymplectic(n, q);
      ComposeShape(Hadamard(n, q), t);
      SymplecticDot(n, HadamardTable(n, q), t.table);
    } else if gate == 1 {
      PhaseSymplectic(n, q);
      ComposeShape(PhaseGate(n, q), t);
      SymplecticDot(n, PhaseTable(n, q), t.table);
    } else if n > 1 {
      var drawn := rng(k + 2, n - 1);
      var target := if drawn >= q then drawn + 1 else drawn;
      CnotSymplectic(n, q, target);
      ComposeShape(Cnot(n, q, target), t);
      SymplecticDot(n, CnotTable(n, q, target), t.table);
    }
  }

  lemma {:induction false} LayersSymplectic(n: nat, rng: Rng, k: nat, count: nat)
    requires n >= 1 && InRange(rng)
    ensures Symplectic(n, Layers(n, rng, k, count).value.table)
  {
    hide Symplectic, Layer;
    if count == 0 {
      SymplecticId(n);
    } else {
      LayersSymplectic(n, rng, k, count - 1);
      var before := Layers(n, rng, k, count - 1);
      LayerSymplectic(n, rng, before.next, before.value);
    }
  }

  lemma SampleSymplectic(n: nat, rng: Rng, k: nat)
    requires n >= 1 && InRange(rng)
    ensures Symplectic(n, Sample(n, rng, k).value.table)
  {
    LayersSymplectic(n, rng, k, NumLayers(n));
  }

  // Apply a list of Cliffords in order, starting from identity: what an RB experiment runs.
  function Fold(n: nat, list: seq<Tableau>): (t: Tableau)
    requires forall c :: c in list ==> c.n == n
    ensures t.n == n
  {
    if list == [] then Identity(n) else Compose(list[|list| - 1], Fold(n, list[..|list| - 1]))
  }

  function RandomPrefix(n: nat, length: nat, rng: Rng, k: nat): (r: Drawn<seq<Tableau>>)
    ensures |r.value| == length && forall c :: c in r.value ==> c.n == n
  {
    if length == 0 then Drawn([], k)
    else
      var before := RandomPrefix(n, length - 1, rng, k);
      var cliff := Sample(n, rng, before.next);
      Drawn(before.value + [cliff.value], cliff.next)
  }

  function RbSequence(n: nat, length: nat, rng: Rng, k: nat): (list: seq<Tableau>)
    ensures |list| == length + 1 && forall c :: c in list ==> c.n == n
  {
    var prefix := RandomPrefix(n, length, rng, k).value;
    prefix + [Inverse(Fold(n, prefix))]
  }

  lemma {:induction false} PrefixSymplectic(n: nat, length: nat, rng: Rng, k: nat)
    requires n >= 1 && InRange(rng)
    ensures forall c :: c in RandomPrefix(n, length, rng, k).value ==> Symplectic(n, c.table)
    ensures Symplectic(n, Fold(n, RandomPrefix(n, length, rng, k).value).table)
  {
    hide Symplectic, Sample, Compose;
    if length == 0 {
      SymplecticId(n);
    } else {
      PrefixSymplectic(n, length - 1, rng, k);
      var before := RandomPrefix(n, length - 1, rng, k);
      var cliff := Sample(n, rng, before.next).value;
      SampleSymplectic(n, rng, before.next);
      var list := before.value + [cliff];
      assert list[..length - 1] == before.value;
      ComposeShape(cliff, Fold(n, before.value));
      SymplecticDot(n, cliff.table, Fold(n, before.value).table);
    }
  }

  // Every element is symplectic and the whole list composes to the identity, signs included.
  lemma RbIdentity(n: nat, length: nat, rng: Rng, k: nat)
    requires n >= 1 && InRange(rng)
    ensures Fold(n, RbSequence(n, length, rng, k)) == Identity(n)
    ensures forall c :: c in RbSequence(n, length, rng, k) ==> Symplectic(n, c.table)
  {
    hide Symplectic, Compose, Inverse, RandomPrefix;
    var prefix := RandomPrefix(n, length, rng, k).value;
    var list := RbSequence(n, length, rng, k);
    var total := Fold(n, prefix);
    PrefixSymplectic(n, length, rng, k);
    InverseExact(total);
    InverseShape(total);
    InverseTableLaws(n, total.table);
    assert list[..length] == prefix && list[length] == Inverse(total);
  }
}
