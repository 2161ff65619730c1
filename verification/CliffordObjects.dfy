// The mutable tableau object and its array loops: core/src/qubitos/calibrator/cliffords.py 38-151, 308-454.
// Arrays hold int8 values as the program does; every int8 result is wrapped to -128..127.
module CliffordObjects {
  import opened Gf2
  import opened CliffordTableaux
  import opened CliffordSampling

  // Two's-complement int8 arithmetic
  function Wrap8(x: int): int {
    (x + 128) % 256 - 128
  }

  // Wrapping changes a value by a multiple of 256, so never its parity.
  lemma WrapKeepsParity(x: int)
    ensures -128 <= Wrap8(x) < 128 && Wrap8(x) % 2 == x % 2
  {
    var q := (x + 128) / 256;
    assert Wrap8(x) == x - 2 * (128 * q);
    EvenShift(x, 128 * q);
  }

  lemma EvenShift(x: int, k: int)
    ensures (x - 2 * k) % 2 == x % 2
  {}

  function Digit(b: bool): int {
    if b then 1 else 0
  }

  ghost predicate HoldsBits(a: array2<int>, m: BMat)
    reads a
  {
    a.Length0 == m.d && a.Length1 == m.d &&
    forall i, j :: 0 <= i < m.d && 0 <= j < m.d ==> a[i, j] == Digit(Bit(m, i, j))
  }

  // The array agrees with the bits modulo 2.
  ghost predicate Congruent(a: array2<int>, m: BMat)
    reads a
  {
    a.Length0 == m.d && a.Length1 == m.d &&
    forall i, j :: 0 <= i < m.d && 0 <= j < m.d ==> a[i, j] % 2 == Digit(Bit(m, i, j))
  }

  ghost predicate HoldsPhases(a: array<int>, t: Tableau)
    reads a
  {
    a.Length == 2 * t.n && forall i :: 0 <= i < 2 * t.n ==> a[i] == Digit(Phase(t, i))
  }

  lemma ProductParity(x: int, y: int)
    ensures (x * y) % 2 == Digit(x % 2 == 1 && y % 2 == 1)
  {
    var k, r := x / 2, x % 2;
    assert x * y == r * y - 2 * (-k * y) by {
      assert x == 2 * k + r;
    }
    EvenShift(r * y, -k * y);
  }

  // One multiply-accumulate step on int8 values
  function Accumulate8(acc: int, x: int, y: int): int {
    Wrap8(acc + Wrap8(x * y))
  }

  lemma AccumulateParity(acc: int, x: int, y: int)
    ensures -128 <= Accumulate8(acc, x, y) < 128
    ensures Accumulate8(acc, x, y) % 2 == Digit((acc % 2 == 1) != (x % 2 == 1 && y % 2 == 1))
  {
    hide Wrap8;
    var m := x * y;
    ProductParity(x, y);
    WrapKeepsParity(m);
    WrapKeepsParity(acc + Wrap8(m));
    SumParity(acc, Wrap8(m));
  }

  lemma SumParity(x: int, y: int)
    ensures (x + y) % 2 == Digit((x % 2 == 1) != (y % 2 == 1))
  {}

  // a @ b on int8 arrays: the accumulator wraps, the parity is that of the GF(2) product.
  method MatMul8(a: array2<int>, b: array2<int>, ghost p: BMat, ghost q: BMat) returns (c: array2<int>)
    requires p.d == q.d && Congruent(a, p) && Congruent(b, q)
    ensures fresh(c) && Congruent(c, Dot(p, q))
  {
    hide RowCol;
    var d := a.Length0;
    c := new int[d, d]((i, j) => 0);
    for i := 0 to d
      invariant forall s, t :: 0 <= s < i && 0 <= t < d ==> c[s, t] % 2 == Digit(RowCol(p, q, s, t))
    {
      for j := 0 to d
        invariant forall s, t :: 0 <= s < d && 0 <= t < d && (s < i || (s == i && t < j)) ==>
          c[s, t] % 2 == Digit(RowCol(p, q, s, t))
      {
        var acc := Entry8(a, b, p, q, i, j);
        c[i, j] := acc;
      }
    }
  }

  method Entry8(a: array2<int>, b: array2<int>, ghost p: BMat, ghost q: BMat, i: nat, j: nat) returns (acc: int)
    requires p.d == q.d && Congruent(a, p) && Congruent(b, q) && i < p.d && j < p.d
    ensures -128 <= acc < 128 && acc % 2 == Digit(RowCol(p, q, i, j))
  {
    hide Accumulate8;
    ghost var f := k => Bit(p, i, k) && Bit(q, k, j);
    acc := 0;
    for k := 0 to a.Length0
      invariant -128 <= acc < 128 && acc % 2 == Digit(Par(k, f))
    {
      AccumulateParity(acc, a[i, k], b[k, j]);
      acc := Accumulate8(acc, a[i, k], b[k, j]);
    }
    ParExt(p.d, f, k => Bit(p, i, k) && Bit(q, k, j));
  }

  method Mod2(a: array2<int>, ghost m: BMat) returns (c: array2<int>)
    requires Congruent(a, m)
    ensures fresh(c) && HoldsBits(c, m)
  {
    var d := a.Length0;
    c := new int[d, d]((i, j) => 0);
    for i := 0 to d
      invariant forall s, t :: 0 <= s < i && 0 <= t < d ==> c[s, t] == Digit(Bit(m, s, t))
    {
      for j := 0 to d
        invariant forall s, t :: 0 <= s < d && 0 <= t < d && (s < i || (s == i && t < j)) ==>
          c[s, t] == Digit(Bit(m, s, t))
      {
        c[i, j] := a[i, j] % 2;
      }
    }
  }

  method MakeOmega(n: nat) returns (omega: array2<int>)
    ensures fresh(omega) && HoldsBits(omega, Omega(n))
  {
    omega := new int[2 * n, 2 * n]((i, j) => 0);
    for i := 0 to n
      invariant forall s, t :: 0 <= s < 2 * n && 0 <= t < 2 * n ==>
        omega[s, t] == Digit(t == Partner(n, s) && (s < i || n <= s < n + i))
    {
      omega[i, n + i] := 1;
      omega[n + i, i] := 1;
    }
  }

  lemma SamePhases(a: array<int>, s: Tableau, t: Tableau)
    requires HoldsPhases(a, s) && s.n == t.n && s.phases == t.phases
    ensures HoldsPhases(a, t)
  {
    forall i | 0 <= i < 2 * t.n ensures Phase(s, i) == Phase(t, i) {}
  }

  class CliffordTableau {
    var numQubits: nat
    var table: array2<int>
    var phases: array<int>
    ghost var view: Tableau

    ghost predicate Valid()
      reads this, table, phases
    {
      numQubits == view.n && HoldsBits(table, view.table) && HoldsPhases(phases, view)
    }

    constructor (n: nat, table: array2<int>, phases: array<int>, ghost view: Tableau)
      ensures this.numQubits == n && this.table == table && this.phases == phases && this.view == view
    {
      this.numQubits := n;
      this.table := table;
      this.phases := phases;
      this.view := view;
    }

    // The shape check of the constructor: a wrong shape raises ValueError, here null. Entries are not checked;
    // the object represents the tableau given by view exactly when the arrays hold its bits.
    static method Checked(n: nat, table: array2<int>, phases: array<int>, ghost view: Tableau)
      returns (c: CliffordTableau?)
      ensures c == null <==> !(table.Length0 == 2 * n && table.Length1 == 2 * n && phases.Length == 2 * n)
      ensures c != null ==> fresh(c) && c.numQubits == n && c.table == table && c.phases == phases && c.view == view
      ensures c != null ==> (c.Valid() <==> view.n == n && HoldsBits(table, view.table) && HoldsPhases(phases, view))
    {
      if table.Length0 != 2 * n || table.Length1 != 2 * n { return null; }
      if phases.Length != 2 * n { return null; }
      c := new CliffordTableau(n, table, phases, view);
    }

    static method MakeIdentity(n: nat) returns (c: CliffordTableau)
      ensures fresh(c) && c.Valid() && c.view == Identity(n)
    {
      var table := new int[2 * n, 2 * n]((i, j) => if i == j then 1 else 0);
      var phases := new int[2 * n](i => 0);
      c := new CliffordTableau(n, table, phases, Identity(n));
    }

    method ComposePhases(other: CliffordTableau) returns (newPhases: array<int>)
      requires Valid() && other.Valid() && numQubits == other.numQubits
      ensures fresh(newPhases) && HoldsPhases(newPhases, Compose(view, other.view))
    {
      hide Par, Dot, Pairs, ComposedPhase;
      var n := numQubits;
      newPhases := new int[2 * n](i => 0);
      for i := 0 to 2 * n
        invariant forall s :: 0 <= s < i ==> newPhases[s] == Digit(ComposedPhase(view, other.view, s))
      {
        newPhases[i] := ComposePhase(other, i);
      }
    }

    method ComposePhase(other: CliffordTableau, i: nat) returns (r: int)
      requires Valid() && other.Valid() && numQubits == other.numQubits && i < 2 * numQubits
      ensures r == Digit(ComposedPhase(view, other.view, i))
    {
      hide Wrap8;
      var n := numQubits;
      ghost var a, b := view, other.view;
      ghost var f := j => Bit(b.table, i, j) && Phase(a, j);
      var phase := other.phases[i];
      for j := 0 to 2 * n
        invariant phase == Digit(Phase(b, i) != Par(j, f))
      {
        if other.table[i, j] != 0 {
          WrapKeepsParity(phase + phases[j]);
          phase := Wrap8(phase + phases[j]) % 2;
        }
      }
      ParExt(2 * n, f, j => Bit(b.table, i, j) && Phase(a, j));
      var inner := PairSum(other, i);
      WrapKeepsParity(phase + inner);
      r := Wrap8(phase + inner) % 2;
    }

    method PairSum(other: CliffordTableau, i: nat) returns (inner: int)
      requires Valid() && other.Valid() && numQubits == other.numQubits && i < 2 * numQubits
      ensures inner == Digit(Pairs(numQubits, Row(other.view.table, i)))
    {
      var n, sum := numQubits, 0;
      ghost var row := Row(other.view.table, i);
      ghost var g := k => row(k) && row(n + k);
      for k := 0 to n
        invariant sum % 2 == Digit(Par(k, g))
      {
        sum := sum + other.table[i, k] * other.table[i, n + k];
      }
      ParExt(n, g, k => row(k) && row(n + k));
      inner := sum % 2;
    }

    // Different qubit counts raise ValueError, here null.
    method ComposeWith(other: CliffordTableau) returns (r: CliffordTableau?)
      requires Valid() && other.Valid()
      ensures r == null <==> numQubits != other.numQubits
      ensures r != null ==>
        fresh(r) && fresh(r.table) && fresh(r.phases) && r.Valid() && r.view == Compose(view, other.view)
    {
      hide Dot, ComposedPhase;
      if numQubits != other.numQubits { return null; }
      var product := MatMul8(table, other.table, view.table, other.view.table);
      var newTable := Mod2(product, Dot(view.table, other.view.table));
      var newPhases := ComposePhases(other);
      r := new CliffordTableau(numQubits, newTable, newPhases, Compose(view, other.view));
    }

    method MakeInverse() returns (r: CliffordTableau)
      requires Valid()
      ensures fresh(r) && r.Valid() && r.view == Inverse(view)
    {
      hide Dot, ComposedPhase, Transpose, InverseTable;
      var n := numQubits;
      var invTable := InvertTable();
      var zeros := new int[2 * n](i => 0);
      ghost var start: Tableau := RawTableau(n, InverseTable(n, view.table), seq(2 * n, _ => false));
      r := new CliffordTableau(n, invTable, zeros, start);
      var composed := ComposeWith(r);
      r.phases := composed.phases;
      r.view := Inverse(view);
      SamePhases(composed.phases, composed.view, r.view);
    }

    method InvertTable() returns (c: array2<int>)
      requires Valid()
      ensures fresh(c) && HoldsBits(c, InverseTable(numQubits, view.table))
    {
      hide Dot, Transpose, Omega;
      var n := numQubits;
      ghost var w, t := Omega(n), Transpose(view.table);
      var omega := MakeOmega(n);
      var flipped := FlipTable();
      var left := MatMul8(omega, flipped, w, t);
      var raw := MatMul8(left, omega, Dot(w, t), w);
      c := Mod2(raw, InverseTable(n, view.table));
    }

    method FlipTable() returns (c: array2<int>)
      requires Valid()
      ensures fresh(c) && HoldsBits(c, Transpose(view.table))
    {
      var d := 2 * numQubits;
      c := new int[d, d]((i, j) => 0);
      for i := 0 to d
        invariant forall s, t :: 0 <= s < i && 0 <= t < d ==> c[s, t] == Digit(Bit(view.table, t, s))
      {
        for j := 0 to d
          invariant forall s, t :: 0 <= s < d && 0 <= t < d && (s < i || (s == i && t < j)) ==>
            c[s, t] == Digit(Bit(view.table, t, s))
        {
          c[i, j] := table[j, i];
        }
      }
    }
  }

  method MakeHadamard(n: nat, qubit: nat) returns (c: CliffordTableau)
    requires qubit < n
    ensures fresh(c) && c.Valid() && c.view == Hadamard(n, qubit)
  {
    var table := new int[2 * n, 2 * n]((i, j) => if i == j then 1 else 0);
    for j := 0 to 2 * n
      invariant forall s, t :: 0 <= s < 2 * n && 0 <= t < 2 * n ==>
        table[s, t] == Digit(t == if t < j && (s == qubit || s == n + qubit) then Partner(n, s) else s)
    {
      table[qubit, j], table[n + qubit, j] := table[n + qubit, j], table[qubit, j];
    }
    var phases := new int[2 * n](i => 0);
    c := new CliffordTableau(n, table, phases, Hadamard(n, qubit));
  }

  method MakePhase(n: nat, qubit: nat) returns (c: CliffordTableau)
    requires qubit < n
    ensures fresh(c) && c.Valid() && c.view == PhaseGate(n, qubit)
  {
    var table := new int[2 * n, 2 * n]((i, j) => if i == j then 1 else 0);
    table[qubit, n + qubit] := 1;
    var phases := new int[2 * n](i => 0);
    c := new CliffordTableau(n, table, phases, PhaseGate(n, qubit));
  }

  method MakeCnot(n: nat, control: nat, target: nat) returns (c: CliffordTableau)
    requires control < n && target < n
    ensures fresh(c) && c.Valid() && c.view == Cnot(n, control, target)
  {
    hide Cnot, Bit, Phase, Digit;
    CnotDigits(n, control, target);
    var table := new int[2 * n, 2 * n]((i, j) => if i == j then 1 else 0);
    table[control, target] := 1;
    table[n + target, n + control] := 1;
    var phases := new int[2 * n](i => 0);
    c := new CliffordTableau(n, table, phases, Cnot(n, control, target));
  }

  function CnotDigit(n: nat, control: nat, target: nat, i: int, j: int): int {
    if i == j || (i == control && j == target) || (i == n + target && j == n + control) then 1 else 0
  }

  lemma CnotDigits(n: nat, control: nat, target: nat)
    requires control < n && target < n
    ensures var t := Cnot(n, control, target);
            && t.table.d == 2 * n
            && (forall i, j :: 0 <= i < 2 * n && 0 <= j < 2 * n ==>
                  Digit(Bit(t.table, i, j)) == CnotDigit(n, control, target, i, j))
            && forall i :: 0 <= i < 2 * n ==> Digit(Phase(t, i)) == 0
  {}

  method SampleRandomClifford(n: nat, rng: Rng, start: nat) returns (result: CliffordTableau, k: nat)
    requires n >= 1 && InRange(rng)
    ensures fresh(result) && result.Valid() && result.view == Sample(n, rng, start).value &&
      k == Sample(n, rng, start).next
  {
    hide Compose, Hadamard, PhaseGate, Cnot, Identity, Sample;
    result := CliffordTableau.MakeIdentity(n);
    k := start;
    for layer := 0 to NumLayers(n)
      invariant fresh(result) && result.Valid() && result.numQubits == n
      invariant Layers(n, rng, start, layer) == Drawn(result.view, k)
    {
      result, k := SampleLayer(n, rng, k, result);
    }
    SampleIsLayers(n, rng, start);
  }

  lemma SampleIsLayers(n: nat, rng: Rng, k: nat)
    ensures Sample(n, rng, k) == Layers(n, rng, k, NumLayers(n))
  {}

  method SampleLayer(n: nat, rng: Rng, at: nat, before: CliffordTableau) returns (result: CliffordTableau, k: nat)
    requires n >= 1 && InRange(rng) && before.Valid() && before.numQubits == n
    ensures result == before || fresh(result)
    ensures result.Valid() && result.numQubits == n
    ensures Layer(n, rng, at, before.view) == Drawn(result.view, k)
  {
    hide Compose, Hadamard, PhaseGate, Cnot;
    result := before;
    var gate := rng(at, 3);
    k := at + 1;
    if gate == 0 {
      var q := rng(k, n);
      k := k + 1;
      var h := MakeHadamard(n, q);
      result := h.ComposeWith(result);
    } else if gate == 1 {
      var q := rng(k, n);
      k := k + 1;
      var s := MakePhase(n, q);
      result := s.ComposeWith(result);
    } else if gate == 2 && n > 1 {
      var control := rng(k, n);
      k := k + 1;
      var target := rng(k, n - 1);
      k := k + 1;
      if target >= control { target := target + 1; }
      var c := MakeCnot(n, control, target);
      result := c.ComposeWith(result);
    }
  }

  ghost predicate Shows(list: seq<CliffordTableau>, views: seq<Tableau>)
    reads list, set i | 0 <= i < |list| :: list[i].table, set i | 0 <= i < |list| :: list[i].phases
  {
    |list| == |views| && forall i :: 0 <= i < |list| ==> list[i].Valid() && list[i].view == views[i]
  }

  lemma ShowsAppend(list: seq<CliffordTableau>, views: seq<Tableau>, c: CliffordTableau)
    requires Shows(list, views) && c.Valid()
    ensures Shows(list + [c], views + [c.view])
  {}

  lemma PrefixStart(n: nat, rng: Rng, k: nat)
    ensures RandomPrefix(n, 0, rng, k) == Drawn([], k) && Fold(n, []) == Identity(n) && Shows([], [])
  {}

  lemma PrefixStep(n: nat, i: nat, rng: Rng, k: nat)
    ensures var before := RandomPrefix(n, i, rng, k);
            var cliff := Sample(n, rng, before.next);
            && RandomPrefix(n, i + 1, rng, k) == Drawn(before.value + [cliff.value], cliff.next)
            && Fold(n, before.value + [cliff.value]) == Compose(cliff.value, Fold(n, before.value))
  {
    hide Compose, Sample;
    var before := RandomPrefix(n, i, rng, k);
    var cliff := Sample(n, rng, before.next).value;
    assert (before.value + [cliff])[..i] == before.value;
  }

  // The list handed to the experiment is the specified one, so by RbIdentity it composes to the identity.
  method GenerateRbSequence(n: nat, length: nat, rng: Rng, start: nat) returns (cliffords: seq<CliffordTableau>)
    requires n >= 1 && InRange(rng)
    ensures Shows(cliffords, RbSequence(n, length, rng, start))
  {
    hide Compose, Inverse, Identity, Sample, RandomPrefix, Fold, Shows, InverseTable;
    PrefixStart(n, rng, start);
    cliffords := [];
    var cumulative: CliffordTableau := CliffordTableau.MakeIdentity(n);
    var k := start;
    for i := 0 to length
      invariant cumulative.Valid() && cumulative.numQubits == n
      invariant Shows(cliffords, RandomPrefix(n, i, rng, start).value)
      invariant k == RandomPrefix(n, i, rng, start).next
      invariant cumulative.view == Fold(n, RandomPrefix(n, i, rng, start).value)
    {
      ghost var before := RandomPrefix(n, i, rng, start);
      var cliff;
      cliff, k := SampleRandomClifford(n, rng, k);
      PrefixStep(n, i, rng, start);
      ShowsAppend(cliffords, before.value, cliff);
      cliffords := cliffords + [cliff];
      cumulative := cliff.ComposeWith(cumulative);
    }
    var inv := cumulative.MakeInverse();
    ShowsAppend(cliffords, RandomPrefix(n, length, rng, start).value, inv);
    cliffords := cliffords + [inv];
  }
}
