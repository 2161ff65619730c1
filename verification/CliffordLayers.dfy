// What one layer of the sampler does to a tableau: core/src/qubitos/calibrator/cliffords.py.
module CliffordLayers {
  import opened Gf2
  import opened CliffordTableaux
  import opened CliffordSampling

  // A row with one or two set bits picks or adds rows of the right factor.
  lemma SparseRowDot(n: nat, m: BMat, t: BMat, i: int, j: int, r: SparseRow)
    requires m.d == t.d == 2 * n && 0 <= i < 2 * n && 0 <= j < 2 * n && DescribesRow(n, m, i, r)
    ensures Bit(Dot(m, t), i, j) == (Bit(t, r.main, j) != (r.more && Bit(t, r.extra, j)))
  {
    hide Par, Bit;
    var f, g := k => k == r.main && Bit(t, k, j), k => r.more && k == r.extra && Bit(t, k, j);
    var h := k => Bit(m, i, k) && Bit(t, k, j);
    assert Bit(Dot(m, t), i, j) == Par(2 * n, h) by { DotBit(m, t, i, j); }
    ParXor(2 * n, f, g, h);
    ParSingle(2 * n, r.main, f);
    ParSingle(2 * n, r.extra, g);
  }

  lemma DotBit(m: BMat, t: BMat, i: int, j: int)
    requires m.d == t.d && 0 <= i < m.d && 0 <= j < m.d
    ensures Bit(Dot(m, t), i, j) == Par(m.d, k => Bit(m, i, k) && Bit(t, k, j))
  {
    hide Par;
    ParExt(m.d, k => Bit(m, i, k) && Bit(t, k, j), k => Bit(m, i, k) && Bit(t, k, j));
  }

  // The target of a CNOT: the second draw skips the control.
  function Target(control: nat, drawn: nat): nat {
    if drawn >= control then drawn + 1 else drawn
  }

  // Bit (i, j) after a layer, from the bits before it: draw 0 exchanges rows q and n + q, draw 1 adds row n + q to
  // row q, and draw 2 adds row target to row control and row n + control to row n + target.
  function BitAfter(n: nat, rng: Rng, k: nat, t: BMat, i: int, j: int): bool {
    var gate, q := rng(k, 3), rng(k + 1, n);
    if gate == 0 then
      Bit(t, if i == q then n + q else if i == n + q then q else i, j)
    else if gate == 1 then
      Bit(t, i, j) != (i == q && Bit(t, n + q, j))
    else if gate == 2 && n > 1 then
      var target := Target(q, rng(k + 2, n - 1));
      (Bit(t, i, j) != (i == q && Bit(t, target, j))) != (i == n + target && Bit(t, n + q, j))
    else
      Bit(t, i, j)
  }

  lemma LayerRows(n: nat, rng: Rng, k: nat, t: Tableau, i: int, j: int)
    requires n >= 1 && InRange(rng) && t.n == n && 0 <= i < 2 * n && 0 <= j < 2 * n
    ensures Bit(Layer(n, rng, k, t).value.table, i, j) == BitAfter(n, rng, k, t.table, i, j)
  {
    hide Compose, Dot, Bit, Partner;
    var gate, q := rng(k, 3), rng(k + 1, n);
    if gate == 0 {
      ComposeShape(Hadamard(n, q), t);
      HadamardRow(n, q, i);
      SparseRowDot(n, HadamardTable(n, q), t.table, i, j, SparseRow(Exchanged(n, q, i), false, 0));
    } else if gate == 1 {
      ComposeShape(PhaseGate(n, q), t);
      PhaseRow(n, q, i);
      SparseRowDot(n, PhaseTable(n, q), t.table, i, j, SparseRow(i, i == q, n + q));
    } else if gate == 2 && n > 1 {
      var target := Target(q, rng(k + 2, n - 1));
      assert target != q && target < n;
      ComposeShape(Cnot(n, q, target), t);
      CnotRow(n, q, target, i);
      SparseRowDot(n, CnotTable(n, q, target), t.table, i, j, CnotRowOf(n, q, target, i));
    }
  }

  function Exchanged(n: nat, q: int, i: int): int {
    if i == q then n + q else if i == n + q then q else i
  }

  lemma HadamardRow(n: nat, q: int, i: int)
    requires 0 <= q < n && 0 <= i < 2 * n
    ensures DescribesRow(n, HadamardTable(n, q), i, SparseRow(Exchanged(n, q, i), false, 0))
  {}

  lemma PhaseRow(n: nat, q: int, i: int)
    requires 0 <= q < n && 0 <= i < 2 * n
    ensures DescribesRow(n, PhaseTable(n, q), i, SparseRow(i, i == q, n + q))
  {}

  function CnotRowOf(n: nat, control: int, target: int, i: int): SparseRow {
    SparseRow(i, i == control || i == n + target, if i == control then target else n + control)
  }

  lemma CnotRow(n: nat, control: int, target: int, i: int)
    requires 0 <= control < n && 0 <= target < n && control != target && 0 <= i < 2 * n
    ensures DescribesRow(n, CnotTable(n, control, target), i, CnotRowOf(n, control, target, i))
  {}

  // Every applied gate flips the sign of exactly the rows with an odd number of X Z pairs; no other layer touches
  // signs.
  lemma LayerSigns(n: nat, rng: Rng, k: nat, t: Tableau, i: int)
    requires n >= 1 && InRange(rng) && t.n == n && 0 <= i < 2 * n
    ensures Phase(Layer(n, rng, k, t).value, i) ==
            (Phase(t, i) != ((rng(k, 3) < 2 || n > 1) && Pairs(n, Row(t.table, i))))
  {
    hide Dot, Pairs, Par;
    assert rng(k, 3) < 3;
    var gate, q := rng(k, 3), rng(k + 1, n);
    if gate == 0 {
      UnsignedGate(Hadamard(n, q), t, i);
    } else if gate == 1 {
      UnsignedGate(PhaseGate(n, q), t, i);
    } else if n > 1 {
      UnsignedGate(Cnot(n, q, Target(q, rng(k + 2, n - 1))), t, i);
    }
  }

  lemma UnsignedGate(g: Tableau, t: Tableau, i: int)
    requires g.n == t.n && 0 <= i < 2 * t.n && forall j :: 0 <= j < 2 * g.n ==> !Phase(g, j)
    ensures Phase(Compose(g, t), i) == (Phase(t, i) != Pairs(t.n, Row(t.table, i)))
  {
    hide Dot, Pairs, Par;
    ParZero(2 * g.n, j => Bit(t.table, i, j) && Phase(g, j));
  }

  // ---------- whole samples ----------

  // The number of draws a layer takes
  function DrawsOf(n: nat, rng: Rng, k: nat): nat {
    if rng(k, 3) < 2 then 2 else if rng(k, 3) == 2 && n > 1 then 3 else 1
  }

  // Position in the draws, and the bits of the table, after count layers from the identity
  function Position(n: nat, rng: Rng, k: nat, count: nat): nat {
    if count == 0 then k else
      var before := Position(n, rng, k, count - 1);
      before + DrawsOf(n, rng, before)
  }

  function Bits(n: nat, rng: Rng, k: nat, count: nat): (m: BMat)
    ensures m.d == 2 * n
  {
    if count == 0 then Id(2 * n) else
      var before, at := Bits(n, rng, k, count - 1), Position(n, rng, k, count - 1);
      Build(2 * n, (i, j) => BitAfter(n, rng, at, before, i, j))
  }

  // A sample is the identity after 4 n^2 + 10 layers of row operations.
  lemma {:induction false} LayersBits(n: nat, rng: Rng, k: nat, count: nat)
    requires n >= 1 && InRange(rng)
    ensures Layers(n, rng, k, count).next == Position(n, rng, k, count)
    ensures Layers(n, rng, k, count).value.table == Bits(n, rng, k, count)
  {
    hide BitAfter, Bit, Layers, Bits, Layer, Identity;
    if count == 0 {
      LayersStart(n, rng, k);
    } else {
      LayersBits(n, rng, k, count - 1);
      LayersStep(n, rng, k, count);
      var before := Layers(n, rng, k, count - 1);
      var t := Layers(n, rng, k, count).value.table;
      LayerDraws(n, rng, before.next, before.value);
      forall i, j | 0 <= i < 2 * n && 0 <= j < 2 * n ensures Bit(t, i, j) == Bit(Bits(n, rng, k, count), i, j) {
        LayerRows(n, rng, before.next, before.value, i, j);
        BitsStep(n, rng, k, count, i, j);
      }
      Ext(t, Bits(n, rng, k, count));
    }
  }

  lemma LayersStart(n: nat, rng: Rng, k: nat)
    ensures Layers(n, rng, k, 0).next == k && Layers(n, rng, k, 0).value.table == Id(2 * n) == Bits(n, rng, k, 0)
  {}

  lemma LayersStep(n: nat, rng: Rng, k: nat, count: nat)
    requires count > 0
    ensures var before := Layers(n, rng, k, count - 1);
            Layers(n, rng, k, count) == Layer(n, rng, before.next, before.value)
  {
    hide Layer;
  }

  lemma BitsStep(n: nat, rng: Rng, k: nat, count: nat, i: int, j: int)
    requires count > 0 && 0 <= i < 2 * n && 0 <= j < 2 * n
    ensures Bit(Bits(n, rng, k, count), i, j) ==
            BitAfter(n, rng, Position(n, rng, k, count - 1), Bits(n, rng, k, count - 1), i, j)
  {
    hide BitAfter, Bit, Position;
  }

  lemma LayerDraws(n: nat, rng: Rng, k: nat, t: Tableau)
    requires t.n == n && InRange(rng)
    ensures Layer(n, rng, k, t).next == k + DrawsOf(n, rng, k) && Layer(n, rng, k, t).value.n == n
  {
    hide Compose, Hadamard, PhaseGate, Cnot;
    assert rng(k, 3) < 3;
  }

  lemma SampleBits(n: nat, rng: Rng, k: nat)
    requires n >= 1 && InRange(rng)
    ensures Sample(n, rng, k).value.table == Bits(n, rng, k, 4 * n * n + 10)
    ensures Sample(n, rng, k).next == Position(n, rng, k, 4 * n * n + 10)
  {
    hide Layers, Bits, Position;
    LayersBits(n, rng, k, NumLayers(n));
  }

  // Where the draws of the i-th sample start
  function StartDraw(n: nat, rng: Rng, k: nat, i: nat): nat {
    if i == 0 then k else Position(n, rng, StartDraw(n, rng, k, i - 1), 4 * n * n + 10)
  }

  // Every entry of the RB list but the last is a sample, drawn where the one before stopped.
  lemma {:induction false} RbSamples(n: nat, length: nat, rng: Rng, k: nat, i: nat)
    requires n >= 1 && InRange(rng) && i < length
    ensures RandomPrefix(n, length, rng, k).next == StartDraw(n, rng, k, length)
    ensures RandomPrefix(n, length, rng, k).value[i] == Sample(n, rng, StartDraw(n, rng, k, i)).value
    ensures RbSequence(n, length, rng, k)[i] == RandomPrefix(n, length, rng, k).value[i]
  {
    hide Sample, Position, Inverse, Fold;
    PrefixDraws(n, length, rng, k);
    PrefixDraws(n, i, rng, k);
    PrefixEntry(n, length, rng, k, i);
  }

  lemma {:induction false} PrefixDraws(n: nat, length: nat, rng: Rng, k: nat)
    requires n >= 1 && InRange(rng)
    ensures RandomPrefix(n, length, rng, k).next == StartDraw(n, rng, k, length)
  {
    hide Sample, Position;
    if length > 0 {
      PrefixDraws(n, length - 1, rng, k);
      SampleBits(n, rng, StartDraw(n, rng, k, length - 1));
    }
  }

  lemma {:induction false} PrefixEntry(n: nat, length: nat, rng: Rng, k: nat, i: nat)
    requires n >= 1 && InRange(rng) && i < length
    ensures RandomPrefix(n, length, rng, k).value[i] == Sample(n, rng, StartDraw(n, rng, k, i)).value
  {
    hide Sample;
    PrefixDraws(n, length - 1, rng, k);
    if i < length - 1 { PrefixEntry(n, length - 1, rng, k, i); }
  }
}
