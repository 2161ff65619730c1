// The resumable noise sweep: core/src/qubitos/feedback/analysis.py.
module Sweep {
  import opened Sequences

  const FEEDBACK := "lyapunov_feedback"

  datatype CellResult = CellResult(mean: real, std: real, energy: real)

  // simulate runs one (method, noise level, seed) cell; children are the spawned 32-bit seeds.
  datatype Inputs = Inputs(methods: seq<string>, noise: seq<real>, children: seq<int>,
                           simulate: (string, real, int) -> CellResult)

  ghost predicate WellFormed(s: Inputs) {
    |s.children| == |s.methods| * |s.noise|
  }

  datatype Cell = Cell(noiseIdx: nat, methodIdx: nat)

  predicate InGrid(s: Inputs, c: Cell) {
    c.noiseIdx < |s.noise| && c.methodIdx < |s.methods|
  }

  // ---------- per-cell seeds ----------

  function SeedIndex(nNoise: nat, c: Cell): nat {
    c.methodIdx * nNoise + c.noiseIdx
  }

  lemma IndexInRange(nNoise: nat, nMethods: nat, c: Cell)
    requires c.noiseIdx < nNoise && c.methodIdx < nMethods
    ensures SeedIndex(nNoise, c) < nMethods * nNoise
  {
    assert (c.methodIdx + 1) * nNoise <= nMethods * nNoise by {
      RowsMonotone(c.methodIdx + 1, nMethods, nNoise);
    }
  }

  lemma RowsMonotone(a: nat, b: nat, n: nat)
    requires a <= b
    ensures a * n <= b * n
  {}

  // No two cells share a seed slot,
  lemma SeedIndexInjective(nNoise: nat, c: Cell, d: Cell)
    requires c.noiseIdx < nNoise && d.noiseIdx < nNoise && SeedIndex(nNoise, c) == SeedIndex(nNoise, d)
    ensures c == d
  {
    RowOfSlot(nNoise, c);
    RowOfSlot(nNoise, d);
  }

  lemma RowOfSlot(nNoise: nat, c: Cell)
    requires c.noiseIdx < nNoise
    ensures SeedIndex(nNoise, c) / nNoise == c.methodIdx && SeedIndex(nNoise, c) % nNoise == c.noiseIdx
  {
    var k, m := SeedIndex(nNoise, c), c.methodIdx;
    var q, r := k / nNoise, k % nNoise;
    assert (m - q) * nNoise == r - c.noiseIdx;
    assert (q - m) * nNoise == -((m - q) * nNoise);
    if m > q { RowsMonotone(1, m - q, nNoise); }
    if m < q { RowsMonotone(1, q - m, nNoise); }
  }

  // and every slot belongs to a cell.
  lemma SeedIndexCovers(nNoise: nat, nMethods: nat, k: nat)
    requires k < nMethods * nNoise
    ensures exists c: Cell :: c.noiseIdx < nNoise && c.methodIdx < nMethods && SeedIndex(nNoise, c) == k
  {
    var c := Cell(k % nNoise, k / nNoise);
    if nMethods <= k / nNoise { RowsMonotone(nMethods, k / nNoise, nNoise); }
    assert SeedIndex(nNoise, c) == k;
  }

  // Raises ValueError for an empty grid, here null.
  method SpawnCellSeeds(nNoise: int, nMethods: int, children: seq<int>) returns (out: array2?<int>)
    requires nNoise > 0 && nMethods > 0 ==> |children| == nMethods * nNoise
    ensures out == null <==> nNoise <= 0 || nMethods <= 0
    ensures out != null ==> fresh(out) && out.Length0 == nMethods && out.Length1 == nNoise
    ensures out != null ==> forall m, j :: 0 <= m < nMethods && 0 <= j < nNoise ==>
      SeedIndex(nNoise, Cell(j, m)) < |children| && out[m, j] == children[SeedIndex(nNoise, Cell(j, m))]
  {
    if nNoise <= 0 || nMethods <= 0 { return null; }
    out := new int[nMethods, nNoise]((i, j) => 0);
    for mIdx := 0 to nMethods
      invariant forall m, j :: 0 <= m < mIdx && 0 <= j < nNoise ==>
        SeedIndex(nNoise, Cell(j, m)) < |children| && out[m, j] == children[SeedIndex(nNoise, Cell(j, m))]
    {
      for j := 0 to nNoise
        invariant forall m, i :: 0 <= m < nMethods && 0 <= i < nNoise && (m < mIdx || (m == mIdx && i < j)) ==>
          SeedIndex(nNoise, Cell(i, m)) < |children| && out[m, i] == children[SeedIndex(nNoise, Cell(i, m))]
      {
        var k := SeedIndex(nNoise, Cell(j, mIdx));
        IndexInRange(nNoise, nMethods, Cell(j, mIdx));
        out[mIdx, j] := children[k];
      }
    }
  }

  function CellValue(s: Inputs, c: Cell): CellResult
    requires WellFormed(s) && InGrid(s, c)
  {
    IndexInRange(|s.noise|, |s.methods|, c);
    s.simulate(s.methods[c.methodIdx], s.noise[c.noiseIdx], s.children[SeedIndex(|s.noise|, c)])
  }

  // ---------- result arrays ----------

  // dicts of arrays keyed by method name
  datatype Arrays = Arrays(mean: map<string, seq<real>>, std: map<string, seq<real>>, energy: map<string, seq<real>>)

  function ZeroRow(n: nat): (z: seq<real>)
    ensures |z| == n && forall i :: 0 <= i < n ==> z[i] == 0.0
  {
    seq(n, _ => 0.0)
  }

  function Fresh(s: Inputs): (a: Arrays)
    ensures Shaped(s, a)
  {
    var zeros := map m | m in s.methods :: ZeroRow(|s.noise|);
    Arrays(zeros, zeros, map[])
  }

  ghost predicate Shaped(s: Inputs, a: Arrays) {
    && a.mean.Keys == a.std.Keys == (set m | m in s.methods)
    && a.energy.Keys <= {FEEDBACK}
    && (forall m :: m in a.mean ==> |a.mean[m]| == |s.noise| && |a.std[m]| == |s.noise|)
    && (forall m :: m in a.energy ==> |a.energy[m]| == |s.noise|)
  }

  // Store one result under the method's name; only the feedback method has an energy row.
  function Store(s: Inputs, a: Arrays, c: Cell, r: CellResult): (b: Arrays)
    requires Shaped(s, a) && InGrid(s, c)
    ensures Shaped(s, b)
  {
    var m, j := s.methods[c.methodIdx], c.noiseIdx;
    Arrays(a.mean[m := a.mean[m][j := r.mean]], a.std[m := a.std[m][j := r.std]],
           if m == FEEDBACK then
             a.energy[m := (if m in a.energy then a.energy[m] else ZeroRow(|s.noise|))[j := r.energy]]
           else a.energy)
  }

  // ---------- checkpoints ----------

  datatype Record = Record(name: string, result: CellResult)

  // Checkpoint files carrying this sweep's tag, by the cell in their name
  type Disk = map<Cell, Record>

  predicate Usable(s: Inputs, disk: Disk, c: Cell) {
    c in disk && InGrid(s, c) && s.methods[c.methodIdx] == disk[c].name
  }

  function Load(s: Inputs, disk: Disk, a: Arrays, listing: seq<Cell>): (b: Arrays)
    requires Shaped(s, a)
    ensures Shaped(s, b)
  {
    if listing == [] then a
    else
      var before, c := Load(s, disk, a, listing[..|listing| - 1]), listing[|listing| - 1];
      if Usable(s, disk, c) then Store(s, before, c, disk[c].result) else before
  }

  function Complete(s: Inputs, a: Arrays, order: seq<Cell>): (b: Arrays)
    requires WellFormed(s) && Shaped(s, a) && forall c :: c in order ==> InGrid(s, c)
    ensures Shaped(s, b)
  {
    if order == [] then a
    else
      var c := order[|order| - 1];
      Store(s, Complete(s, a, order[..|order| - 1]), c, CellValue(s, c))
  }

  function Written(s: Inputs, disk: Disk, order: seq<Cell>): Disk
    requires WellFormed(s) && forall c :: c in order ==> InGrid(s, c)
  {
    if order == [] then disk
    else
      var c := order[|order| - 1];
      assert c in order && InGrid(s, c);
      Written(s, disk, order[..|order| - 1])[c := Record(s.methods[c.methodIdx], CellValue(s, c))]
  }

  // ---------- which cells an array reflects ----------

  // Two cells with one method name and noise index write the same place.
  predicate SamePlace(s: Inputs, c: Cell, d: Cell)
    requires InGrid(s, c) && InGrid(s, d)
  {
    c.noiseIdx == d.noiseIdx && s.methods[c.methodIdx] == s.methods[d.methodIdx]
  }

  // The same-place cells of the grid agree; distinct method names make this hold at once.
  ghost predicate Agree(s: Inputs)
    requires WellFormed(s)
  {
    forall c, d :: InGrid(s, c) && InGrid(s, d) && SamePlace(s, c, d) ==> Visible(s, c) == Visible(s, d)
  }

  ghost predicate DistinctMethods(s: Inputs) {
    forall i, j :: 0 <= i < j < |s.methods| ==> s.methods[i] != s.methods[j]
  }

  // What a cell leaves in the arrays: the energy counts for the feedback method only.
  function Visible(s: Inputs, c: Cell): CellResult
    requires WellFormed(s) && InGrid(s, c)
  {
    var r := CellValue(s, c);
    if s.methods[c.methodIdx] == FEEDBACK then r else r.(energy := 0.0)
  }

  lemma DistinctAgree(s: Inputs)
    requires WellFormed(s) && DistinctMethods(s)
    ensures Agree(s)
  {
    forall c, d | InGrid(s, c) && InGrid(s, d) && SamePlace(s, c, d) ensures c == d {}
  }

  // The entry an array set holds for the place of a cell
  function At(s: Inputs, a: Arrays, c: Cell): CellResult
    requires Shaped(s, a) && InGrid(s, c)
  {
    var m, j := s.methods[c.methodIdx], c.noiseIdx;
    CellResult(a.mean[m][j], a.std[m][j], if m in a.energy then a.energy[m][j] else 0.0)
  }

  ghost predicate Covered(s: Inputs, c: Cell, cells: set<Cell>)
    requires InGrid(s, c)
  {
    exists d :: d in cells && InGrid(s, d) && SamePlace(s, d, c)
  }

  // The arrays hold the value of every stored cell, zero elsewhere, and an energy row once a feedback cell is stored.
  ghost predicate Reflects(s: Inputs, a: Arrays, cells: set<Cell>)
    requires WellFormed(s)
  {
    && Shaped(s, a)
    && (forall c :: InGrid(s, c) ==>
      At(s, a, c) == if Covered(s, c, cells) then Visible(s, c) else CellResult(0.0, 0.0, 0.0))
    && (FEEDBACK in a.energy <==> exists c :: c in cells && InGrid(s, c) && s.methods[c.methodIdx] == FEEDBACK)
  }

  lemma FreshReflects(s: Inputs)
    requires WellFormed(s)
    ensures Reflects(s, Fresh(s), {})
  {}

  lemma StoreAt(s: Inputs, a: Arrays, c: Cell, r: CellResult, d: Cell)
    requires Shaped(s, a) && InGrid(s, c) && InGrid(s, d)
    ensures At(s, Store(s, a, c, r), d) ==
            if SamePlace(s, c, d) then (if s.methods[c.methodIdx] == FEEDBACK then r else r.(energy := 0.0))
              else At(s, a, d)
    ensures FEEDBACK in Store(s, a, c, r).energy <==> FEEDBACK in a.energy || s.methods[c.methodIdx] == FEEDBACK
  {}

  lemma CoveredByOneMore(s: Inputs, d: Cell, c: Cell, cells: set<Cell>)
    requires InGrid(s, c) && InGrid(s, d)
    ensures Covered(s, d, cells + {c}) <==> Covered(s, d, cells) || SamePlace(s, c, d)
  {
    hide SamePlace;
    if SamePlace(s, c, d) { assert c in cells + {c}; }
    if Covered(s, d, cells) {
      var e :| e in cells && InGrid(s, e) && SamePlace(s, e, d);
      assert e in cells + {c};
    }
  }

  lemma StoreReflects(s: Inputs, a: Arrays, c: Cell, cells: set<Cell>)
    requires WellFormed(s) && Agree(s) && Shaped(s, a) && InGrid(s, c)
    ensures Reflects(s, a, cells) ==> Reflects(s, Store(s, a, c, CellValue(s, c)), cells + {c})
  {
    hide Store, CellValue, At, Covered, SamePlace, Shaped;
    if !Reflects(s, a, cells) { return; }
    var b := Store(s, a, c, CellValue(s, c));
    forall d | InGrid(s, d)
      ensures At(s, b, d) == if Covered(s, d, cells + {c}) then Visible(s, d) else CellResult(0.0, 0.0, 0.0)
    {
      StoreAt(s, a, c, CellValue(s, c), d);
      CoveredByOneMore(s, d, c, cells);
    }
    StoreAt(s, a, c, CellValue(s, c), c);
    assert c in cells + {c};
  }

  lemma SameEntries(s: Inputs, a: Arrays, b: Arrays)
    requires Shaped(s, a) && Shaped(s, b) && (FEEDBACK in a.energy <==> FEEDBACK in b.energy)
    requires FEEDBACK in a.energy ==> FEEDBACK in s.methods
    requires forall c :: InGrid(s, c) ==> At(s, a, c) == At(s, b, c)
    ensures a == b
  {
    forall m | m in a.mean
      ensures a.mean[m] == b.mean[m] && a.std[m] == b.std[m] && (m in a.energy ==> a.energy[m] == b.energy[m])
    {
      var i :| 0 <= i < |s.methods| && s.methods[i] == m;
      forall j | 0 <= j < |s.noise|
        ensures a.mean[m][j] == b.mean[m][j] && a.std[m][j] == b.std[m][j]
        ensures m in a.energy ==> a.energy[m][j] == b.energy[m][j]
      {
        assert InGrid(s, Cell(j, i));
        assert At(s, a, Cell(j, i)) == At(s, b, Cell(j, i));
      }
    }
    assert a.mean == b.mean && a.std == b.std && a.energy == b.energy;
  }

  // Arrays that reflect the whole grid are determined.
  lemma ReflectsUnique(s: Inputs, a: Arrays, b: Arrays, cells: set<Cell>, more: set<Cell>)
    requires WellFormed(s) && Reflects(s, a, cells) && Reflects(s, b, more)
    requires forall c :: InGrid(s, c) ==> c in cells && c in more
    ensures a == b
  {
    hide Shaped, Visible, At;
    forall c | InGrid(s, c) ensures At(s, a, c) == At(s, b, c) {
      assert SamePlace(s, c, c);
      assert Covered(s, c, cells) && Covered(s, c, more);
    }
    SameEntries(s, a, b);
  }

  // ---------- runs ----------

  // One call: the order in which the directory lists the files, and the cells completed before it ended
  datatype Attempt = Attempt(listing: seq<Cell>, order: seq<Cell>)

  // Files whose name is in the grid and whose method matches are done; the rest of the grid is pending.
  ghost predicate Possible(s: Inputs, disk: Disk, t: Attempt) {
    && (forall c :: c in t.listing <==> c in disk)
    && NoRepeats(t.order)
    && (forall c :: c in t.order ==> InGrid(s, c) && !Usable(s, disk, c))
  }

  ghost predicate Finished(s: Inputs, disk: Disk, t: Attempt) {
    Possible(s, disk, t) && forall c :: InGrid(s, c) && !Usable(s, disk, c) ==> c in t.order
  }

  function ResultOf(s: Inputs, disk: Disk, t: Attempt): (a: Arrays)
    requires WellFormed(s) && forall c :: c in t.order ==> InGrid(s, c)
    ensures Shaped(s, a)
  {
    Complete(s, Load(s, disk, Fresh(s), t.listing), t.order)
  }

  // Checkpoints are genuine: each holds the result of the cell in its name.
  ghost predicate Genuine(s: Inputs, disk: Disk)
    requires WellFormed(s)
  {
    forall c :: c in disk ==> InGrid(s, c) && disk[c] == Record(s.methods[c.methodIdx], CellValue(s, c))
  }

  ghost predicate History(s: Inputs, disk: Disk, attempts: seq<Attempt>)
    requires WellFormed(s)
    decreases attempts
  {
    attempts == [] ||
    (Possible(s, disk, attempts[0]) && History(s, Written(s, disk, attempts[0].order), attempts[1..]))
  }

  function DiskAfter(s: Inputs, disk: Disk, attempts: seq<Attempt>): Disk
    requires WellFormed(s) && forall t :: t in attempts ==> forall c :: c in t.order ==> InGrid(s, c)
    decreases attempts
  {
    if attempts == [] then disk
    else
      assert attempts[0] in attempts;
      DiskAfter(s, Written(s, disk, attempts[0].order), attempts[1..])
  }

  function Cells(order: seq<Cell>): set<Cell> {
    set c | c in order
  }

  lemma {:induction false} LoadReflects(s: Inputs, disk: Disk, listing: seq<Cell>)
    requires WellFormed(s) && Agree(s) && Genuine(s, disk) && forall c :: c in listing ==> c in disk
    ensures Reflects(s, Load(s, disk, Fresh(s), listing), Cells(listing))
  {
    hide Reflects, Agree, Store, CellValue;
    if listing == [] {
      FreshReflects(s);
      assert Cells(listing) == {};
    } else {
      var front, c := listing[..|listing| - 1], listing[|listing| - 1];
      LoadReflects(s, disk, front);
      StoreReflects(s, Load(s, disk, Fresh(s), front), c, Cells(front));
      assert listing == front + [c];
      assert Cells(listing) == Cells(front) + {c};
    }
  }

  lemma {:induction false} CompleteReflects(s: Inputs, a: Arrays, order: seq<Cell>, cells: set<Cell>)
    requires WellFormed(s) && Agree(s) && Shaped(s, a) && Reflects(s, a, cells)
    requires forall c :: c in order ==> InGrid(s, c)
    ensures Reflects(s, Complete(s, a, order), cells + Cells(order))
  {
    hide Reflects, Agree, Store, CellValue, Shaped;
    if order == [] {
      assert cells + Cells(order) == cells;
    } else {
      var front, c := order[..|order| - 1], order[|order| - 1];
      CompleteReflects(s, a, front, cells);
      StoreReflects(s, Complete(s, a, front), c, cells + Cells(front));
      assert order == front + [c];
      assert cells + Cells(order) == cells + Cells(front) + {c};
    }
  }

  lemma {:induction false} WrittenGenuine(s: Inputs, disk: Disk, order: seq<Cell>)
    requires WellFormed(s) && Genuine(s, disk) && forall c :: c in order ==> InGrid(s, c)
    ensures Genuine(s, Written(s, disk, order))
  {
    hide CellValue;
    if order != [] { WrittenGenuine(s, disk, order[..|order| - 1]); }
  }

  lemma {:induction false} HistoryGenuine(s: Inputs, disk: Disk, attempts: seq<Attempt>)
    requires WellFormed(s) && Genuine(s, disk) && History(s, disk, attempts)
    ensures forall t :: t in attempts ==> forall c :: c in t.order ==> InGrid(s, c)
    ensures Genuine(s, DiskAfter(s, disk, attempts))
    decreases attempts
  {
    hide Genuine;
    if attempts != [] {
      WrittenGenuine(s, disk, attempts[0].order);
      HistoryGenuine(s, Written(s, disk, attempts[0].order), attempts[1..]);
      assert forall t :: t in attempts ==> t == attempts[0] || t in attempts[1..];
    }
  }

  lemma FinishedReflects(s: Inputs, disk: Disk, t: Attempt)
    requires WellFormed(s) && Agree(s) && Genuine(s, disk) && Finished(s, disk, t)
    ensures Reflects(s, ResultOf(s, disk, t), Cells(t.listing) + Cells(t.order))
    ensures forall c :: InGrid(s, c) ==> c in Cells(t.listing) + Cells(t.order)
  {
    hide Reflects, Agree, CellValue, Load, Complete, Shaped;
    LoadReflects(s, disk, t.listing);
    CompleteReflects(s, Load(s, disk, Fresh(s), t.listing), t.order, Cells(t.listing));
  }

  // What a finished sweep holds: at (method, j) the simulation of that method at noise level j with the cell's own
  // seed; an energy is kept for the feedback method.
  lemma FinishedEntries(s: Inputs, disk: Disk, t: Attempt, j: nat, m: nat)
    requires WellFormed(s) && Agree(s) && Genuine(s, disk) && Finished(s, disk, t)
    requires j < |s.noise| && m < |s.methods|
    ensures (forall c :: c in t.order ==> InGrid(s, c)) && m * |s.noise| + j < |s.children|
    ensures var name := s.methods[m];
            Holds(ResultOf(s, disk, t), name, j, s.simulate(name, s.noise[j], s.children[m * |s.noise| + j]))
  {
    hide Agree, Genuine, Finished, ResultOf, Reflects, Holds;
    FinishedInGrid(s, disk, t);
    FinishedReflects(s, disk, t);
    var c := Cell(j, m);
    IndexInRange(|s.noise|, |s.methods|, c);
    ReflectedEntry(s, ResultOf(s, disk, t), Cells(t.listing) + Cells(t.order), c);
  }

  // Row name holds r at j; only the feedback method has energies.
  predicate Holds(a: Arrays, name: string, j: nat, r: CellResult) {
    && name in a.mean && name in a.std && j < |a.mean[name]| == |a.std[name]|
    && a.mean[name][j] == r.mean && a.std[name][j] == r.std
    && (name == FEEDBACK ==> name in a.energy && j < |a.energy[name]| && a.energy[name][j] == r.energy)
    && (name != FEEDBACK ==> name !in a.energy)
  }

  lemma ReflectedEntry(s: Inputs, a: Arrays, cells: set<Cell>, c: Cell)
    requires WellFormed(s) && Reflects(s, a, cells) && InGrid(s, c) && c in cells
    ensures Holds(a, s.methods[c.methodIdx], c.noiseIdx, CellValue(s, c))
  {
    hide CellValue;
    assert Covered(s, c, cells) by { assert SamePlace(s, c, c); }
    assert At(s, a, c) == Visible(s, c);
    assert s.methods[c.methodIdx] in s.methods;
  }

  // Any completion order, after any number of interrupted runs, gives the arrays of one uninterrupted run.
  lemma ResumeDeterministic(s: Inputs, attempts: seq<Attempt>, last: Attempt, single: Attempt)
    requires WellFormed(s) && Agree(s)
    requires History(s, map[], attempts)
    requires forall t :: t in attempts ==> forall c :: c in t.order ==> InGrid(s, c)
    requires Finished(s, DiskAfter(s, map[], attempts), last) && Finished(s, map[], single)
    ensures ResultOf(s, DiskAfter(s, map[], attempts), last) == ResultOf(s, map[], single)
  {
    hide Reflects, Agree, CellValue, ResultOf, Finished;
    HistoryGenuine(s, map[], attempts);
    var disk := DiskAfter(s, map[], attempts);
    assert (forall c :: c in last.order ==> InGrid(s, c)) && (forall c :: c in single.order ==> InGrid(s, c)) by {
      FinishedInGrid(s, disk, last);
      FinishedInGrid(s, map[], single);
    }
    FinishedReflects(s, disk, last);
    FinishedReflects(s, map[], single);
    ReflectsUnique(s, ResultOf(s, disk, last), ResultOf(s, map[], single), Cells(last.listing) + Cells(last.order),
                   Cells(single.listing) + Cells(single.order));
  }

  lemma FinishedInGrid(s: Inputs, disk: Disk, t: Attempt)
    requires Finished(s, disk, t)
    ensures forall c :: c in t.order ==> InGrid(s, c)
  {}

  // ---------- the pending list, and exactly when the order does not matter ----------

  function PendingRow(s: Inputs, disk: Disk, j: nat, count: nat): seq<Cell> {
    if count == 0 then []
    else PendingRow(s, disk, j, count - 1) + if Usable(s, disk, Cell(j, count - 1)) then [] else [Cell(j, count - 1)]
  }

  // Noise index outermost, methods innermost, done cells left out
  function PendingRows(s: Inputs, disk: Disk, count: nat): seq<Cell> {
    if count == 0 then [] else PendingRows(s, disk, count - 1) + PendingRow(s, disk, count - 1, |s.methods|)
  }

  function Pending(s: Inputs, disk: Disk): seq<Cell> {
    PendingRows(s, disk, |s.noise|)
  }

  lemma {:induction false} RowCells(s: Inputs, disk: Disk, j: nat, count: nat)
    ensures forall c :: c in PendingRow(s, disk, j, count) <==>
      c.noiseIdx == j && c.methodIdx < count && !Usable(s, disk, c)
    ensures NoRepeats(PendingRow(s, disk, j, count))
  {
    hide Usable;
    if count > 0 { RowCells(s, disk, j, count - 1); }
  }

  lemma {:induction false} RowsCells(s: Inputs, disk: Disk, count: nat)
    ensures forall c :: c in PendingRows(s, disk, count) <==>
              c.noiseIdx < count && c.methodIdx < |s.methods| && !Usable(s, disk, c)
    ensures NoRepeats(PendingRows(s, disk, count))
  {
    hide Usable, PendingRow;
    if count > 0 {
      var a, b := PendingRows(s, disk, count - 1), PendingRow(s, disk, count - 1, |s.methods|);
      RowsCells(s, disk, count - 1);
      RowCells(s, disk, count - 1, |s.methods|);
      assert forall i :: 0 <= i < |a| ==> a[i] in a;
      assert forall i :: 0 <= i < |b| ==> b[i] in b;
    }
  }

  // A complete order that ends with a given cell
  function EndingWith(s: Inputs, c: Cell): seq<Cell>
    requires InGrid(s, c)
  {
    Pending(s, map[c := Record(s.methods[c.methodIdx], CellResult(0.0, 0.0, 0.0))]) + [c]
  }

  lemma EndingWithFinished(s: Inputs, c: Cell)
    requires InGrid(s, c)
    ensures Finished(s, map[], Attempt([], EndingWith(s, c)))
  {
    RowsCells(s, map[c := Record(s.methods[c.methodIdx], CellResult(0.0, 0.0, 0.0))], |s.noise|);
  }

  lemma LastCellWins(s: Inputs, c: Cell)
    requires WellFormed(s) && InGrid(s, c)
    requires forall d :: d in EndingWith(s, c) ==> InGrid(s, d)
    ensures At(s, ResultOf(s, map[], Attempt([], EndingWith(s, c))), c) == Visible(s, c)
  {
    hide Store, CellValue, At, Pending;
    var order := EndingWith(s, c);
    var before := Complete(s, Load(s, map[], Fresh(s), []), order[..|order| - 1]);
    StoreAt(s, before, c, CellValue(s, c), c);
  }

  ghost predicate SameResult(s: Inputs, t: Attempt, u: Attempt)
    requires WellFormed(s) && Finished(s, map[], t) && Finished(s, map[], u)
  {
    ResultOf(s, map[], t) == ResultOf(s, map[], u)
  }

  // Any two finished runs from an empty directory give the same arrays.
  ghost predicate OrderIrrelevant(s: Inputs)
    requires WellFormed(s)
  {
    forall t, u :: Finished(s, map[], t) && Finished(s, map[], u) ==> SameResult(s, t, u)
  }

  // Completion order never shows in the result exactly when cells that share a place agree.
  lemma OrderIrrelevantExactly(s: Inputs)
    requires WellFormed(s)
    ensures Agree(s) <==> OrderIrrelevant(s)
  {
    hide ResultOf, Finished, Visible, At, EndingWith;
    if Agree(s) {
      forall t, u | Finished(s, map[], t) && Finished(s, map[], u)
        ensures SameResult(s, t, u)
      {
        ResumeDeterministic(s, [], t, u);
      }
    } else {
      var c, d :| InGrid(s, c) && InGrid(s, d) && SamePlace(s, c, d) && Visible(s, c) != Visible(s, d);
      var t, u := Attempt([], EndingWith(s, c)), Attempt([], EndingWith(s, d));
      EndingWithFinished(s, c);
      EndingWithFinished(s, d);
      FinishedInGrid(s, map[], t);
      FinishedInGrid(s, map[], u);
      LastCellWins(s, c);
      LastCellWins(s, d);
      SamePlaceSameEntry(s, ResultOf(s, map[], t), c, d);
      assert !SameResult(s, t, u);
    }
  }

  lemma SamePlaceSameEntry(s: Inputs, a: Arrays, c: Cell, d: Cell)
    requires Shaped(s, a) && InGrid(s, c) && InGrid(s, d) && SamePlace(s, c, d)
    ensures At(s, a, c) == At(s, a, d)
  {}

  // No repeated method name carries different seeds at one noise index: what a caller can check beforehand.
  ghost predicate SeedsShared(s: Inputs)
    requires WellFormed(s)
  {
    forall c, d :: InGrid(s, c) && InGrid(s, d) && SamePlace(s, c, d) ==> SeedOf(s, c) == SeedOf(s, d)
  }

  function SeedOf(s: Inputs, c: Cell): int
    requires WellFormed(s) && InGrid(s, c)
  {
    IndexInRange(|s.noise|, |s.methods|, c);
    s.children[SeedIndex(|s.noise|, c)]
  }

  // A simulation that shows its seed
  function ShowSeed(): (string, real, int) -> CellResult {
    (name: string, gamma: real, seed: int) => CellResult(seed as real, 0.0, 0.0)
  }

  lemma ShowSeedValue(s: Inputs, c: Cell)
    requires WellFormed(s) && InGrid(s, c) && s.simulate == ShowSeed()
    ensures Visible(s, c).mean == SeedOf(s, c) as real
  {
    hide SeedIndex;
  }

  lemma SharedSeedsAgree(s: Inputs)
    requires WellFormed(s) && SeedsShared(s)
    ensures Agree(s)
  {
    hide SeedIndex;
    forall c, d | InGrid(s, c) && InGrid(s, d) && SamePlace(s, c, d) ensures Visible(s, c) == Visible(s, d) {
      assert SeedOf(s, c) == SeedOf(s, d);
    }
  }

  lemma DifferentSeedsDisagree(s: Inputs, c: Cell, d: Cell)
    requires WellFormed(s) && InGrid(s, c) && InGrid(s, d) && s.simulate == ShowSeed()
    requires SamePlace(s, c, d) && SeedOf(s, c) != SeedOf(s, d)
    ensures !Agree(s)
  {
    hide Visible, SeedOf;
    ShowSeedValue(s, c);
    ShowSeedValue(s, d);
    assert Visible(s, c) != Visible(s, d);
  }

  // Whatever the cells compute, the order is irrelevant exactly when repeated methods share their seeds.
  lemma OrderIrrelevantForAll(s: Inputs)
    requires WellFormed(s)
    ensures SeedsShared(s) <==> forall f: (string, real, int) -> CellResult :: OrderIrrelevant(s.(simulate := f))
  {
    hide OrderIrrelevant, Visible, SeedIndex, CellValue;
    if SeedsShared(s) {
      forall f: (string, real, int) -> CellResult ensures OrderIrrelevant(s.(simulate := f)) {
        var t := s.(simulate := f);
        SameSeeds(s, t);
        SharedSeedsAgree(t);
        OrderIrrelevantExactly(t);
      }
    } else {
      var c, d :| InGrid(s, c) && InGrid(s, d) && SamePlace(s, c, d) && SeedOf(s, c) != SeedOf(s, d);
      var t := s.(simulate := ShowSeed());
      SameSeeds(s, t);
      assert SeedOf(t, c) != SeedOf(t, d);
      DifferentSeedsDisagree(t, c, d);
      OrderIrrelevantExactly(t);
      assert !OrderIrrelevant(s.(simulate := ShowSeed()));
    }
  }

  lemma SameSeeds(s: Inputs, t: Inputs)
    requires WellFormed(s) && t.methods == s.methods && t.noise == s.noise && t.children == s.children
    ensures forall c :: InGrid(s, c) ==> InGrid(t, c) && SeedOf(t, c) == SeedOf(s, c)
    ensures SeedsShared(s) ==> SeedsShared(t)
  {
    hide SeedIndex;
    if SeedsShared(s) {
      forall c, d | InGrid(t, c) && InGrid(t, d) && SamePlace(t, c, d) ensures SeedOf(t, c) == SeedOf(t, d) {
        assert InGrid(s, c) && InGrid(s, d) && SamePlace(s, c, d);
      }
    }
  }

  // "drag" listed twice over one noise level: the two cells have seeds 7 and 8 and write the same entry.
  lemma RepeatedMethodDependsOnOrder()
    ensures var s := Inputs(["drag", "drag"], [1.0], [7, 8], ShowSeed());
            WellFormed(s) && !Agree(s) && !OrderIrrelevant(s)
  {
    hide OrderIrrelevant, Agree, ShowSeed, Visible, WellFormed, SeedOf;
    RepeatedSeeds();
    var s := Inputs(["drag", "drag"], [1.0], [7, 8], ShowSeed());
    DifferentSeedsDisagree(s, Cell(0, 0), Cell(0, 1));
    OrderIrrelevantExactly(s);
  }

  lemma RepeatedSeeds()
    ensures var s := Inputs(["drag", "drag"], [1.0], [7, 8], ShowSeed());
            && WellFormed(s) && InGrid(s, Cell(0, 0)) && InGrid(s, Cell(0, 1)) && SamePlace(s, Cell(0, 0), Cell(0, 1))
            && SeedOf(s, Cell(0, 0)) == 7 && SeedOf(s, Cell(0, 1)) == 8
  {
    hide ShowSeed;
  }

  // ---------- the sweep context ----------

  class SweepContext {
    const inputs: Inputs
    const checkpointing: bool
    var arrays: Arrays
    var disk: Disk

    ghost predicate Valid()
      reads this
    {
      WellFormed(inputs) && Shaped(inputs, arrays)
    }

    constructor (inputs: Inputs, checkpointing: bool, disk: Disk)
      requires WellFormed(inputs)
      ensures Valid() && this.inputs == inputs && this.checkpointing == checkpointing && this.disk == disk &&
        arrays == Fresh(inputs)
    {
      this.inputs := inputs;
      this.checkpointing := checkpointing;
      this.disk := disk;
      arrays := Fresh(inputs);
    }

    method ApplyCell(c: Cell, r: CellResult)
      requires Valid() && InGrid(inputs, c)
      modifies this
      ensures Valid() && arrays == Store(inputs, old(arrays), c, r)
      ensures disk == if checkpointing then old(disk)[c := Record(inputs.methods[c.methodIdx], r)] else old(disk)
    {
      hide Shaped;
      arrays := Store(inputs, arrays, c, r);
      if checkpointing { disk := disk[c := Record(inputs.methods[c.methodIdx], r)]; }
    }

    method CheckpointLoad(listing: seq<Cell>) returns (done: set<Cell>)
      requires Valid() && forall c :: c in listing ==> c in disk
      modifies this
      ensures Valid() && disk == old(disk)
      ensures arrays == if checkpointing then Load(inputs, disk, old(arrays), listing) else old(arrays)
      ensures done == if checkpointing then set c | c in listing && Usable(inputs, disk, c) else {}
    {
      hide Shaped, Store;
      done := {};
      if !checkpointing { return; }
      for i := 0 to |listing|
        invariant Valid() && disk == old(disk)
        invariant arrays == Load(inputs, disk, old(arrays), listing[..i])
        invariant done == set c | c in listing[..i] && Usable(inputs, disk, c)
      {
        var c := listing[i];
        assert listing[..i + 1] == listing[..i] + [c];
        if Usable(inputs, disk, c) {
          arrays := Store(inputs, arrays, c, disk[c].result);
          done := done + {c};
        }
      }
      assert listing[..|listing|] == listing;
    }

    // The serial loop, and the parallel one with cells in completion order
    method RunCells(order: seq<Cell>)
      requires Valid() && forall c :: c in order ==> InGrid(inputs, c)
      modifies this
      ensures Valid() && arrays == Complete(inputs, old(arrays), order)
      ensures disk == if checkpointing then Written(inputs, old(disk), order) else old(disk)
    {
      hide Shaped, Store, CellValue;
      for i := 0 to |order|
        invariant Valid() && arrays == Complete(inputs, old(arrays), order[..i])
        invariant disk == if checkpointing then Written(inputs, old(disk), order[..i]) else old(disk)
      {
        var c := order[i];
        assert order[..i + 1][..i] == order[..i];
        var r := CellValue(inputs, c);
        ApplyCell(c, r);
      }
      assert order[..|order|] == order;
    }

    method BuildPending(done: set<Cell>) returns (pending: seq<Cell>)
      requires checkpointing ==> forall c :: c in done <==> Usable(inputs, disk, c)
      requires !checkpointing ==> done == {}
      ensures pending == Pending(inputs, if checkpointing then disk else map[])
    {
      hide Usable;
      ghost var known := if checkpointing then disk else map[];
      NothingUsable(inputs);
      pending := [];
      for j := 0 to |inputs.noise|
        invariant pending == PendingRows(inputs, known, j)
      {
        for m := 0 to |inputs.methods|
          invariant pending == PendingRows(inputs, known, j) + PendingRow(inputs, known, j, m)
        {
          if Cell(j, m) !in done { pending := pending + [Cell(j, m)]; }
        }
      }
    }

    // A whole call: completed is the pending list in completion order, cut short if the run is interrupted.
    method Run(listing: seq<Cell>, arrange: seq<Cell> -> seq<Cell>, stop: nat) returns (completed: seq<Cell>)
      requires Valid() && arrays == Fresh(inputs) && forall c :: c in listing <==> c in disk
      requires forall p :: multiset(arrange(p)) == multiset(p)
      modifies this
      ensures forall c :: c in completed ==> InGrid(inputs, c)
      ensures checkpointing ==> Possible(inputs, old(disk), Attempt(listing, completed))
      ensures checkpointing ==> arrays == ResultOf(inputs, old(disk), Attempt(listing, completed))
      ensures checkpointing ==> disk == Written(inputs, old(disk), completed)
      ensures !checkpointing ==> disk == old(disk) && arrays == ResultOf(inputs, map[], Attempt([], completed))
      ensures checkpointing && |completed| < stop ==> Finished(inputs, old(disk), Attempt(listing, completed))
      ensures !checkpointing && |completed| < stop ==> Finished(inputs, map[], Attempt([], completed))
    {
      hide Shaped, CellValue, Fresh, Usable, Load, Complete, Written, Possible, Finished, Pending, InGrid;
      ghost var known := if checkpointing then disk else map[];
      var done := CheckpointLoad(listing);
      UsableListed(inputs, disk);
      var pending := BuildPending(done);
      var order := arrange(pending);
      completed := if stop < |order| then order[..stop] else order;
      AttemptFacts(inputs, known, Attempt(if checkpointing then listing else [], completed), order);
      RunCells(completed);
      if !checkpointing { LoadNothing(inputs, map[], Fresh(inputs)); }
    }
  }

  lemma LoadNothing(s: Inputs, disk: Disk, a: Arrays)
    requires Shaped(s, a)
    ensures Load(s, disk, a, []) == a
  {}

  lemma AttemptFacts(s: Inputs, disk: Disk, t: Attempt, order: seq<Cell>)
    requires (forall c :: c in t.listing <==> c in disk) && multiset(order) == multiset(Pending(s, disk)) &&
      t.order <= order
    ensures Possible(s, disk, t) && (forall c :: c in t.order ==> InGrid(s, c))
    ensures |t.order| == |order| ==> Finished(s, disk, t)
  {
    hide Usable, PendingRows;
    RowsCells(s, disk, |s.noise|);
    RearrangedPending(Pending(s, disk), order, t.order);
  }

  lemma NothingUsable(s: Inputs)
    ensures forall c :: !Usable(s, map[], c)
  {}

  lemma UsableListed(s: Inputs, disk: Disk)
    ensures forall c :: Usable(s, disk, c) ==> c in disk
  {}

  lemma RearrangedPending(pending: seq<Cell>, order: seq<Cell>, completed: seq<Cell>)
    requires NoRepeats(pending) && multiset(order) == multiset(pending) && completed <= order
    ensures NoRepeats(completed) && forall c :: c in completed ==> c in pending
    ensures |completed| == |order| ==> forall c :: c in pending ==> c in completed
  {
    assert forall c :: c in completed ==> c in order;
    assert forall c :: c in order ==> c in multiset(order);
    assert forall c :: c in pending ==> c in multiset(order);
    forall i, j | 0 <= i < j < |completed| ensures completed[i] != completed[j] {
      if completed[i] == completed[j] {
        RepeatCounts(order, i, j);
        CountNoRepeats(pending, order[i]);
      }
    }
  }

  lemma RepeatCounts(s: seq<Cell>, i: nat, j: nat)
    requires i < j < |s| && s[i] == s[j]
    ensures multiset(s)[s[i]] >= 2
  {
    assert s == s[..j] + s[j..];
    assert s[i] in s[..j] && s[j] in s[j..];
    assert multiset(s) == multiset(s[..j]) + multiset(s[j..]);
    assert multiset(s[..j])[s[i]] >= 1 && multiset(s[j..])[s[i]] >= 1;
  }
}
