// Clifford tableaux over GF(2): core/src/qubitos/calibrator/cliffords.py.
module CliffordTableaux {
  import opened Gf2

  datatype RawTableau = RawTableau(n: nat, table: BMat, phases: seq<bool>)

  type Tableau = t: RawTableau | t.table.d == 2 * t.n && |t.phases| == 2 * t.n witness RawTableau(0, Id(0), [])

  function Phase(t: Tableau, i: int): bool {
    0 <= i < 2 * t.n && t.phases[i]
  }

  lemma TableauExt(a: Tableau, b: Tableau)
    requires a.n == b.n && a.table == b.table && forall i :: 0 <= i < 2 * a.n ==> Phase(a, i) == Phase(b, i)
    ensures a == b
  {
    forall i | 0 <= i < 2 * a.n ensures a.phases[i] == b.phases[i] {
      assert Phase(a, i) == Phase(b, i);
    }
  }

  function Identity(n: nat): Tableau {
    RawTableau(n, Id(2 * n), seq(2 * n, _ => false))
  }

  // Number of X_j Z_j pairs in a Pauli row, mod 2
  function Pairs(n: nat, row: int -> bool): bool {
    Par(n, k => row(k) && row(n + k))
  }

  function Row(m: BMat, i: int): int -> bool {
    k => Bit(m, i, k)
  }

  // Phase of the image of generator i under a after b, as the code accumulates it.
  function ComposedPhase(a: Tableau, b: Tableau, i: int): bool {
    (Phase(b, i) != Par(2 * a.n, j => Bit(b.table, i, j) && Phase(a, j))) != Pairs(a.n, Row(b.table, i))
  }

  function Compose(a: Tableau, b: Tableau): (t: Tableau)
    requires a.n == b.n
    ensures t.n == a.n
  {
    RawTableau(a.n, Dot(a.table, b.table), seq(2 * a.n, i => ComposedPhase(a, b, i)))
  }

  function Partner(n: nat, i: int): int {
    if i < n then n + i else i - n
  }

  // The symplectic form [[0, I], [I, 0]]
  function Omega(n: nat): (m: BMat)
    ensures m.d == 2 * n
  {
    Build(2 * n, (i, j) => j == Partner(n, i))
  }

  function InverseTable(n: nat, s: BMat): (m: BMat)
    requires s.d == 2 * n
    ensures m.d == 2 * n
  {
    Dot(Dot(Omega(n), Transpose(s)), Omega(n))
  }

  function Inverse(t: Tableau): (r: Tableau)
    ensures r.n == t.n
  {
    var inv: Tableau := RawTableau(t.n, InverseTable(t.n, t.table), seq(2 * t.n, _ => false));
    RawTableau(t.n, inv.table, Compose(t, inv).phases)
  }

  // ---------- the symplectic group ----------

  ghost predicate Symplectic(n: nat, s: BMat) {
    s.d == 2 * n &&
    Dot(Dot(s, Omega(n)), Transpose(s)) == Omega(n) && Dot(Dot(Transpose(s), Omega(n)), s) == Omega(n)
  }

  lemma OmegaLaws(n: nat)
    ensures Dot(Omega(n), Omega(n)) == Id(2 * n) && Transpose(Omega(n)) == Omega(n)
  {
    hide Par;
    var w := Omega(n);
    forall i, j | 0 <= i < 2 * n && 0 <= j < 2 * n ensures Bit(Dot(w, w), i, j) == (i == j) {
      ParSingle(2 * n, Partner(n, i), k => Bit(w, i, k) && Bit(w, k, j));
    }
    Ext(Dot(w, w), Id(2 * n));
    Ext(Transpose(w), w);
  }

  // Omega S^T Omega is a two-sided inverse of a symplectic S, is symplectic itself, and inverting it gives S back.
  lemma InverseTableLaws(n: nat, s: BMat)
    requires Symplectic(n, s)
    ensures var v := InverseTable(n, s);
            Dot(s, v) == Id(2 * n) && Dot(v, s) == Id(2 * n) && Symplectic(n, v) && InverseTable(n, v) == s
  {
    hide Dot, Transpose, Omega, Id;
    var w, t := Omega(n), Transpose(s);
    var v := InverseTable(n, s);
    var wt := Dot(w, t);
    OmegaLaws(n);
    TransposeTwice(s);
    // s v = (s w t) w = w w
    DotAssoc(s, wt, w);
    DotAssoc(s, w, t);
    // v s = w (t w s) = w w
    DotAssoc(wt, w, s);
    DotAssoc(w, t, Dot(w, s));
    DotAssoc(t, w, s);
    // v^T = w s w
    TransposeDot(wt, w);
    TransposeDot(w, t);
    var sw := Dot(s, w);
    assert Transpose(v) == Dot(w, sw);
    // v w = w t and w v = t w
    DotAssoc(wt, w, w);
    IdLaws(wt);
    DotAssoc(w, w, Dot(t, w));
    DotAssoc(w, t, w);
    IdLaws(Dot(t, w));
    // v w v^T = w t w s w = w w w
    DotAssoc(wt, w, sw);
    DotAssoc(w, s, w);
    DotAssoc(wt, Dot(w, s), w);
    IdLaws(w);
    // v^T w v = w s w t w = w
    DotAssoc(Dot(w, sw), w, v);
    DotAssoc(w, sw, Dot(t, w));
    DotAssoc(sw, t, w);
    // w v^T w = s
    DotAssoc(w, w, sw);
    IdLaws(sw);
    DotAssoc(s, w, w);
    IdLaws(s);
  }

  lemma SymplecticDot(n: nat, a: BMat, b: BMat)
    requires Symplectic(n, a) && Symplectic(n, b)
    ensures Symplectic(n, Dot(a, b))
  {
    hide Dot, Transpose, Omega;
    var w, p, q := Omega(n), Transpose(a), Transpose(b);
    TransposeDot(a, b);
    // a b w q p = a w p
    DotAssoc(a, b, w);
    DotAssoc(a, Dot(b, w), Dot(q, p));
    DotAssoc(Dot(b, w), q, p);
    DotAssoc(a, w, p);
    // q p w a b = q w b
    DotAssoc(q, p, w);
    DotAssoc(q, Dot(p, w), Dot(a, b));
    DotAssoc(Dot(p, w), a, b);
    DotAssoc(q, w, b);
  }

  lemma SymplecticId(n: nat)
    ensures Symplectic(n, Id(2 * n))
  {
    hide Dot, Transpose, Omega, Id;
    TransposeId(2 * n);
    IdLaws(Omega(n));
    IdLaws(Dot(Omega(n), Id(2 * n)));
  }

  // ---------- the quadratic form behind the phases ----------

  // The symplectic product of two rows
  function Form(n: nat, u: int -> bool, w: int -> bool): bool {
    Par(2 * n, k => u(k) && w(Partner(n, k)))
  }

  lemma FormHalves(n: nat, u: int -> bool, w: int -> bool)
    ensures Form(n, u, w) == (Par(n, k => u(k) && w(n + k)) != Par(n, k => u(n + k) && w(k)))
  {
    hide Par;
    var f, g, h := k => u(k) && w(Partner(n, k)), k => u(k) && w(n + k), k => u(n + k) && w(k);
    forall k | 0 <= k < n ensures f(k) == g(k) && h(k) == f(n + k) {
      assert Partner(n, k) == n + k && Partner(n, n + k) == k;
    }
    ParSplit(n, n, f, h);
    ParExt(n, f, g);
    assert n + n == 2 * n;
    ParExt(2 * n, f, k => u(k) && w(Partner(n, k)));
    ParExt(n, g, k => u(k) && w(n + k));
    ParExt(n, h, k => u(n + k) && w(k));
  }

  // Pairs is a quadratic form whose polar form is the symplectic product.
  lemma {:induction false} Polar(n: nat, u: int -> bool, w: int -> bool, v: int -> bool)
    requires forall k :: 0 <= k < 2 * n ==> v(k) == (u(k) != w(k))
    ensures Pairs(n, v) == ((Pairs(n, u) != Pairs(n, w)) != Form(n, u, w))
  {
    hide Par, Form;
    FormHalves(n, u, w);
    ParXorFour(n, k => u(k) && u(n + k), k => w(k) && w(n + k), k => u(k) && w(n + k), k => u(n + k) && w(k),
               k => v(k) && v(n + k));
  }

  // Entries of M Omega M^T are symplectic products of rows.
  lemma SandwichEntry(n: nat, m: BMat, i: int, j: int)
    requires m.d == 2 * n && 0 <= i < 2 * n && 0 <= j < 2 * n
    ensures Bit(Dot(Dot(m, Omega(n)), Transpose(m)), i, j) == Form(n, Row(m, j), Row(m, i))
  {
    hide Par;
    var w := Omega(n);
    var mw := Dot(m, w);
    forall k | 0 <= k < 2 * n ensures Bit(mw, i, k) == Bit(m, i, Partner(n, k)) {
      ParSingle(2 * n, Partner(n, k), t => Bit(m, i, t) && Bit(w, t, k));
    }
    var f, g := k => Bit(mw, i, k) && Bit(Transpose(m), k, j), k => Row(m, j)(k) && Row(m, i)(Partner(n, k));
    forall k | 0 <= k < 2 * n ensures f(k) == g(k) {
      assert Row(m, j)(k) == Bit(m, j, k) && Row(m, i)(Partner(n, k)) == Bit(m, i, Partner(n, k));
    }
    ParExt(2 * n, f, g);
  }

  // Rows of a symplectic matrix pair up like the generators.
  lemma RowsPair(n: nat, m: BMat, i: int, j: int)
    requires Symplectic(n, m) && 0 <= i < 2 * n && 0 <= j < 2 * n
    ensures Form(n, Row(m, j), Row(m, i)) == (j == Partner(n, i))
  {
    hide Par, Form, Dot;
    SandwichEntry(n, m, i, j);
  }

  // c_0 M_0 + ... + c_{m-1} M_{m-1}
  function Combination(m: BMat, c: int -> bool, count: nat): int -> bool {
    t => Par(count, j => c(j) && Bit(m, j, t))
  }

  function EarlierPartner(n: nat, c: int -> bool): int -> bool {
    j => j >= n && c(j) && c(j - n)
  }

  lemma {:induction false} CombinationForm(n: nat, m: BMat, c: int -> bool, count: nat)
    requires Symplectic(n, m) && count < 2 * n
    ensures Form(n, Combination(m, c, count), Row(m, count)) == (count >= n && c(count - n))
  {
    hide Par, Symplectic;
    SymplecticShape(n, m);
    var f := (k: int, j: int) => c(j) && Bit(m, j, k) && Bit(m, count, Partner(n, k));
    forall k | 0 <= k < 2 * n
      ensures (Combination(m, c, count)(k) && Row(m, count)(Partner(n, k))) == Par(count, j => f(k, j))
    {
      ParScale(count, Bit(m, count, Partner(n, k)), j => c(j) && Bit(m, j, k), j => f(k, j));
    }
    ParExt(2 * n, k => Combination(m, c, count)(k) && Row(m, count)(Partner(n, k)), k => Par(count, j => f(k, j)));
    ParSwap(2 * n, count, f);
    var g, col := j => count >= n && j == count - n && c(j), j => Par(2 * n, k => f(k, j));
    forall j | 0 <= j < count ensures col(j) == g(j) {
      var rows := k => Row(m, j)(k) && Row(m, count)(Partner(n, k));
      forall k | 0 <= k < 2 * n ensures f(k, j) == (c(j) && rows(k)) {
        assert Row(m, j)(k) == Bit(m, j, k) && Row(m, count)(Partner(n, k)) == Bit(m, count, Partner(n, k));
      }
      ParScale(2 * n, c(j), rows, k => f(k, j));
      RowsPair(n, m, count, j);
    }
    ParExt(count, col, g);
    if count >= n { ParSingle(count, count - n, g); } else { ParZero(count, g); }
  }

  lemma SymplecticShape(n: nat, m: BMat)
    requires Symplectic(n, m)
    ensures m.d == 2 * n
  {}

  // Pairs of a combination: the sum of the rows' own values plus one term per pair of partner rows.
  lemma {:induction false} PairsOfCombination(n: nat, m: BMat, c: int -> bool, count: nat)
    requires Symplectic(n, m) && count <= 2 * n
    ensures Pairs(n, Combination(m, c, count)) ==
            (Par(count, j => c(j) && Pairs(n, Row(m, j))) != Par(count, EarlierPartner(n, c)))
  {
    hide Symplectic, Form, Pairs;
    if count == 0 {
      PairsZero(n, Combination(m, c, 0));
    } else {
      var k := count - 1;
      PairsOfCombination(n, m, c, k);
      var before, after := Combination(m, c, k), Combination(m, c, count);
      var own := j => c(j) && Pairs(n, Row(m, j));
      ParExt(k, own, j => c(j) && Pairs(n, Row(m, j)));
      ParExt(count, own, j => c(j) && Pairs(n, Row(m, j)));
      if c(k) {
        Polar(n, before, Row(m, k), after);
        CombinationForm(n, m, c, k);
      } else {
        PairsExt(n, before, after);
      }
    }
  }

  lemma PairsZero(n: nat, u: int -> bool)
    requires forall k :: 0 <= k < 2 * n ==> !u(k)
    ensures !Pairs(n, u)
  {
    ParZero(n, k => u(k) && u(n + k));
  }

  lemma PairsExt(n: nat, u: int -> bool, v: int -> bool)
    requires forall k :: 0 <= k < 2 * n ==> u(k) == v(k)
    ensures Pairs(n, u) == Pairs(n, v)
  {
    ParExt(n, k => u(k) && u(n + k), k => v(k) && v(n + k));
  }

  lemma PartnerTerms(n: nat, c: int -> bool)
    ensures Par(2 * n, EarlierPartner(n, c)) == Pairs(n, c)
  {
    hide Par;
    var g := k => c(k) && c(n + k);
    ParSplit(n, n, EarlierPartner(n, c), g);
    ParZero(n, EarlierPartner(n, c));
    assert n + n == 2 * n;
    ParExt(n, g, k => c(k) && c(n + k));
  }

  // When row i of S and its inverse V multiply to a unit vector, the pair counts of V's rows, weighted by S,
  // sum to the pair count of S's row.
  lemma {:induction false} WeightedPairs(n: nat, s: BMat, v: BMat, i: int)
    requires Symplectic(n, v) && s.d == 2 * n && Dot(s, v) == Id(2 * n) && 0 <= i < 2 * n
    ensures Par(2 * n, j => Bit(s, i, j) && Pairs(n, Row(v, j))) == Pairs(n, Row(s, i))
  {
    hide Par, Symplectic, Pairs;
    SymplecticShape(n, v);
    var c := Row(s, i);
    PairsOfCombination(n, v, c, 2 * n);
    PartnerTerms(n, c);
    var u := Combination(v, c, 2 * n);
    forall t | 0 <= t < 2 * n ensures u(t) == (t == i) {
      ParExt(2 * n, j => c(j) && Bit(v, j, t), k => Bit(s, i, k) && Bit(v, k, t));
      assert Bit(Dot(s, v), i, t) == Bit(Id(2 * n), i, t);
    }
    UnitHasNoPairs(n, u, i);
    ParExt(2 * n, j => c(j) && Pairs(n, Row(v, j)), j => Bit(s, i, j) && Pairs(n, Row(v, j)));
  }

  lemma UnitHasNoPairs(n: nat, u: int -> bool, i: int)
    requires forall t :: 0 <= t < 2 * n ==> u(t) == (t == i)
    ensures !Pairs(n, u)
  {
    ParZero(n, k => u(k) && u(n + k));
  }

  // ---------- inverse laws, phases included ----------

  lemma InversePhase(t: Tableau, j: int)
    requires 0 <= j < 2 * t.n
    ensures Phase(Inverse(t), j) ==
            (Par(2 * t.n, k => Bit(Inverse(t).table, j, k) && Phase(t, k)) != Pairs(t.n, Row(Inverse(t).table, j)))
  {
    hide Par, Pairs, InverseTable;
  }

  // Sum over j of S_ij times the inverse's phase j is phase i plus the pair count of row i.
  lemma {:induction false} InversePhasesCancel(t: Tableau, i: int)
    requires Symplectic(t.n, t.table) && 0 <= i < 2 * t.n
    ensures Par(2 * t.n, j => Bit(t.table, i, j) && Phase(Inverse(t), j)) ==
      (Phase(t, i) != Pairs(t.n, Row(t.table, i)))
  {
    hide Par, Symplectic, Pairs, InverseTable, Phase;
    var n, s, v := t.n, t.table, Inverse(t).table;
    InverseTableLaws(n, s);
    SymplecticShape(n, v);
    WeightedPairs(n, s, v, i);
    var f := (j: int, k: int) => Bit(s, i, j) && Bit(v, j, k) && Phase(t, k);
    var own := j => Bit(s, i, j) && Pairs(n, Row(v, j));
    forall j | 0 <= j < 2 * n
      ensures (Bit(s, i, j) && Phase(Inverse(t), j)) == (Par(2 * n, k => f(j, k)) != own(j))
    {
      InversePhase(t, j);
      ParScale(2 * n, Bit(s, i, j), k => Bit(v, j, k) && Phase(t, k), k => f(j, k));
    }
    ParXor(2 * n, j => Par(2 * n, k => f(j, k)), own, j => Bit(s, i, j) && Phase(Inverse(t), j));
    ParSwap(2 * n, 2 * n, f);
    var g, col := k => k == i && Phase(t, k), k => Par(2 * n, j => f(j, k));
    forall k | 0 <= k < 2 * n ensures col(k) == g(k) {
      ParScale(2 * n, Phase(t, k), j => Bit(s, i, j) && Bit(v, j, k), j => f(j, k));
      assert Bit(Dot(s, v), i, k) == Bit(Id(2 * n), i, k);
    }
    ParExt(2 * n, col, g);
    ParSingle(2 * n, i, g);
    ParExt(2 * n, own, j => Bit(s, i, j) && Pairs(n, Row(v, j)));
  }

  // The inverse is exact and two-sided, signs included, and inverting twice gives the tableau back.
  lemma {:induction false} InverseExact(t: Tableau)
    requires Symplectic(t.n, t.table)
    ensures Compose(t, Inverse(t)) == Identity(t.n)
    ensures Compose(Inverse(t), t) == Identity(t.n)
    ensures Inverse(Inverse(t)) == t
  {
    hide Par, Symplectic, Pairs, InverseTable, Dot, Id, Inverse;
    var n, r := t.n, Inverse(t);
    InverseShape(t);
    InverseTableLaws(n, t.table);
    forall i | 0 <= i < 2 * n
      ensures !Phase(Compose(t, r), i) && !Phase(Compose(r, t), i) && Phase(Inverse(r), i) == Phase(t, i)
    {
      InversePhase(t, i);
      InversePhasesCancel(t, i);
      InverseShape(r);
      InversePhase(r, i);
      assert Phase(Compose(t, r), i) == ComposedPhase(t, r, i);
      assert Phase(Compose(r, t), i) == ComposedPhase(r, t, i);
    }
    TableauExt(Compose(t, r), Identity(n));
    TableauExt(Compose(r, t), Identity(n));
    InverseShape(r);
    TableauExt(Inverse(r), t);
  }

  lemma InverseShape(t: Tableau)
    ensures Inverse(t).n == t.n && Inverse(t).table == InverseTable(t.n, t.table)
  {}

  // ---------- units and associativity ----------

  lemma IdEntries(d: nat)
    ensures forall i, j :: 0 <= i < d && 0 <= j < d ==> Bit(Id(d), i, j) == (i == j)
  {}

  // identity(n) is a right unit of compose, signs included.
  lemma RightUnit(t: Tableau)
    ensures Compose(t, Identity(t.n)) == t
  {
    hide Par, Dot, Pairs, Id;
    var n, e := t.n, Identity(t.n);
    IdEntries(2 * n);
    forall i | 0 <= i < 2 * n ensures Phase(Compose(t, e), i) == Phase(t, i) {
      var u := j => Bit(e.table, i, j) && Phase(t, j);
      ParSingle(2 * n, i, u);
      UnitHasNoPairs(n, Row(e.table, i), i);
    }
    IdLaws(t.table);
    TableauExt(Compose(t, e), t);
  }

  // As a left unit it fails exactly when some row holds an odd number of X_j Z_j pairs.
  lemma LeftUnit(t: Tableau)
    ensures Compose(Identity(t.n), t) == t <==> forall i :: 0 <= i < 2 * t.n ==> !Pairs(t.n, Row(t.table, i))
    ensures Compose(Identity(t.n), t).table == t.table
  {
    hide Par, Dot, Pairs, Id;
    var n, e := t.n, Identity(t.n);
    IdLaws(t.table);
    var r := Compose(e, t);
    forall i | 0 <= i < 2 * n ensures Phase(r, i) == (Phase(t, i) != Pairs(n, Row(t.table, i))) {
      ParZero(2 * n, j => Bit(t.table, i, j) && Phase(e, j));
    }
    if forall i :: 0 <= i < 2 * n ==> !Pairs(n, Row(t.table, i)) { TableauExt(r, t); }
  }

  lemma TablesAssociate(a: Tableau, b: Tableau, c: Tableau)
    requires a.n == b.n == c.n
    ensures Compose(Compose(a, b), c).table == Compose(a, Compose(b, c)).table
  {
    DotAssoc(a.table, b.table, c.table);
  }

  // What the two bracketings of a, b, c add to phase i beyond their common part.
  predicate LeftExtra(a: Tableau, b: Tableau, c: Tableau, i: int) {
    Par(2 * a.n, k => RowCol(c.table, b.table, i, k) && Phase(a, k)) !=
      Par(2 * a.n, j => Bit(c.table, i, j) && Pairs(a.n, Row(b.table, j)))
  }

  predicate RightExtra(a: Tableau, b: Tableau, c: Tableau, i: int)
    requires b.n == c.n
  {
    Par(2 * a.n, k => Bit(Dot(b.table, c.table), i, k) && Phase(a, k)) != Pairs(a.n, Row(Dot(b.table, c.table), i))
  }

  // compose associates, signs included, exactly when the extra terms agree on every row.
  lemma AssociativeExactly(a: Tableau, b: Tableau, c: Tableau)
    requires a.n == b.n == c.n
    ensures Compose(Compose(a, b), c) == Compose(a, Compose(b, c)) <==>
            forall i :: 0 <= i < 2 * a.n ==> LeftExtra(a, b, c, i) == RightExtra(a, b, c, i)
  {
    hide Par, Dot, Pairs, LeftExtra, RightExtra;
    var l, r := Compose(Compose(a, b), c), Compose(a, Compose(b, c));
    TablesAssociate(a, b, c);
    forall i | 0 <= i < 2 * a.n
      ensures (Phase(l, i) == Phase(r, i)) == (LeftExtra(a, b, c, i) == RightExtra(a, b, c, i))
    {
      LeftPhase(a, b, c, i);
      RightPhase(a, b, c, i);
    }
    if forall i :: 0 <= i < 2 * a.n ==> LeftExtra(a, b, c, i) == RightExtra(a, b, c, i) { TableauExt(l, r); }
  }

  predicate CommonPhase(b: Tableau, c: Tableau, i: int) {
    (Phase(c, i) != Par(2 * b.n, j => Bit(c.table, i, j) && Phase(b, j))) != Pairs(b.n, Row(c.table, i))
  }

  lemma RightPhase(a: Tableau, b: Tableau, c: Tableau, i: int)
    requires a.n == b.n == c.n && 0 <= i < 2 * a.n
    ensures Phase(Compose(a, Compose(b, c)), i) == (CommonPhase(b, c, i) != RightExtra(a, b, c, i))
  {
    hide Par, Dot, Pairs;
    assert Phase(Compose(b, c), i) == CommonPhase(b, c, i);
  }

  lemma LeftPhase(a: Tableau, b: Tableau, c: Tableau, i: int)
    requires a.n == b.n == c.n && 0 <= i < 2 * a.n
    ensures Phase(Compose(Compose(a, b), c), i) == (CommonPhase(b, c, i) != LeftExtra(a, b, c, i))
  {
    hide Par, Dot, Pairs;
    var d, ab := 2 * a.n, Compose(a, b);
    var own := j => Bit(c.table, i, j) && Phase(b, j);
    var pairs := j => Bit(c.table, i, j) && Pairs(a.n, Row(b.table, j));
    var f := (j: int, k: int) => Bit(c.table, i, j) && Bit(b.table, j, k) && Phase(a, k);
    var inner := j => Par(d, k => f(j, k));
    var sum := j => own(j) != inner(j);
    forall j | 0 <= j < d ensures (Bit(c.table, i, j) && Phase(ab, j)) == (sum(j) != pairs(j)) {
      ParScale(d, Bit(c.table, i, j), k => Bit(b.table, j, k) && Phase(a, k), k => f(j, k));
      assert Phase(ab, j) == ComposedPhase(a, b, j);
    }
    ParXor(d, own, inner, sum);
    ParXor(d, sum, pairs, j => Bit(c.table, i, j) && Phase(ab, j));
    ParSwap(d, d, f);
    var col, g := k => Par(d, j => f(j, k)), k => RowCol(c.table, b.table, i, k) && Phase(a, k);
    forall k | 0 <= k < d ensures col(k) == g(k) {
      ParScale(d, Phase(a, k), j => Bit(c.table, i, j) && Bit(b.table, j, k), j => f(j, k));
    }
    ParExt(d, col, g);
    ParExt(d, own, j => Bit(c.table, i, j) && Phase(b, j));
    ParExt(d, pairs, j => Bit(c.table, i, j) && Pairs(a.n, Row(b.table, j)));
  }
}
