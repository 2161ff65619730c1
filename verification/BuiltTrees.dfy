// What the root hash of a built tree commits to, part by part, and the symmetry of the diff:
// core/src/qubitos/provenance/tree.py.
module BuiltTrees {
  import opened Provenance
  import opened ProvenanceDiff
  import opened PulseDiff

  // ---------- the parts of a built tree ----------

  ghost predicate OfKind(nodes: seq<Node>, kind: NodeType) {
    forall n :: n in nodes ==> n.kind == kind
  }

  lemma ShapesOfKind(nodes: seq<Node>, kind: NodeType, x: Shape)
    requires OfKind(nodes, kind) && x.kind != kind
    ensures multiset(Shapes(nodes))[x] == 0
  {
    var s := Shapes(nodes);
    forall i | 0 <= i < |s| ensures s[i] != x {
      assert nodes[i] in nodes;
    }
    assert x !in s;
  }

  lemma ShapesConcat(s: seq<Node>, t: seq<Node>)
    ensures Shapes(s + t) == Shapes(s) + Shapes(t)
  {
    hide ShapeOf;
  }

  function RootParts(calibration: Node, experiment: Node, p: Parts): seq<seq<Node>> {
    [[calibration], [experiment], p.drifts, p.recalibrations, p.benchmarks]
  }

  function KindOf(i: nat): NodeType {
    if i == 0 then Calibration else if i == 1 then Experiment else if i == 2 then DriftEvent
    else if i == 3 then Recalibration else Benchmarking
  }

  // Five lists of nodes of five types, in order
  ghost predicate Sorted(parts: seq<seq<Node>>) {
    |parts| == 5 && forall i :: 0 <= i < 5 ==> OfKind(parts[i], KindOf(i))
  }

  function Flat(parts: seq<seq<Node>>): seq<Node>
    requires |parts| == 5
  {
    parts[0] + parts[1] + parts[2] + parts[3] + parts[4]
  }

  // A part holds exactly the shapes of its type.
  lemma PartCounts(parts: seq<seq<Node>>, i: nat, x: Shape)
    requires Sorted(parts) && i < 5
    ensures multiset(Shapes(parts[i]))[x] == if x.kind == KindOf(i) then multiset(Shapes(Flat(parts)))[x] else 0
  {
    hide Shapes, ShapeOf, OfKind, Flat;
    FlatShapes(parts);
    if x.kind != KindOf(0) { ShapesOfKind(parts[0], KindOf(0), x); }
    if x.kind != KindOf(1) { ShapesOfKind(parts[1], KindOf(1), x); }
    if x.kind != KindOf(2) { ShapesOfKind(parts[2], KindOf(2), x); }
    if x.kind != KindOf(3) { ShapesOfKind(parts[3], KindOf(3), x); }
    if x.kind != KindOf(4) { ShapesOfKind(parts[4], KindOf(4), x); }
  }

  lemma FlatShapes(parts: seq<seq<Node>>)
    requires |parts| == 5
    ensures multiset(Shapes(Flat(parts))) == multiset(Shapes(parts[0])) + multiset(Shapes(parts[1]))
              + multiset(Shapes(parts[2])) + multiset(Shapes(parts[3])) + multiset(Shapes(parts[4]))
  {
    hide Shapes;
    ShapesConcat(parts[0], parts[1]);
    ShapesConcat(parts[0] + parts[1], parts[2]);
    ShapesConcat(parts[0] + parts[1] + parts[2], parts[3]);
    ShapesConcat(parts[0] + parts[1] + parts[2] + parts[3], parts[4]);
  }

  ghost predicate SameShapes(s: seq<Node>, t: seq<Node>) {
    multiset(Shapes(s)) == multiset(Shapes(t))
  }

  lemma PartsAgree(s: seq<seq<Node>>, t: seq<seq<Node>>)
    requires Sorted(s) && Sorted(t)
    ensures SameShapes(Flat(s), Flat(t)) <==> forall i :: 0 <= i < 5 ==> SameShapes(s[i], t[i])
  {
    hide Shapes, Flat, Sorted;
    assert |s| == |t| == 5 by { FiveParts(s); FiveParts(t); }
    if SameShapes(Flat(s), Flat(t)) {
      forall i | 0 <= i < 5 ensures SameShapes(s[i], t[i]) {
        forall x ensures multiset(Shapes(s[i]))[x] == multiset(Shapes(t[i]))[x] {
          PartCounts(s, i, x);
          PartCounts(t, i, x);
        }
      }
    }
    if forall i :: 0 <= i < 5 ==> SameShapes(s[i], t[i]) {
      FlatShapes(s);
      FlatShapes(t);
      assert SameShapes(s[0], t[0]) && SameShapes(s[1], t[1]) && SameShapes(s[2], t[2]) && SameShapes(s[3], t[3])
             && SameShapes(s[4], t[4]);
    }
  }

  lemma FiveParts(s: seq<seq<Node>>)
    requires Sorted(s)
    ensures |s| == 5
  {}

  lemma OneShape(m: Node, n: Node)
    ensures SameShapes([m], [n]) <==> ShapeOf(m) == ShapeOf(n)
  {
    hide ShapeOf;
    assert Shapes([m]) == [ShapeOf(m)] && Shapes([n]) == [ShapeOf(n)];
    if SameShapes([m], [n]) { assert ShapeOf(m) in multiset([ShapeOf(n)]); }
  }

  // The shapes of the two sections of an experiment
  lemma {:induction false} ExperimentParts(h: Hashing, p: Parts, q: Parts)
    requires PartsConsistent(h, p) && PartsConsistent(h, q)
    ensures ShapeOf(ExperimentNode(h, p)) == ShapeOf(ExperimentNode(h, q)) <==>
            SameShapes(p.pulses, q.pulses) && ShapeOf(ConfigNode(h, p)) == ShapeOf(ConfigNode(h, q))
  {
    hide ShapeOf, Shapes, Consistent, SequenceNode, ConfigNode, PartsConsistent;
    var s, t, c, d := SequenceNode(h, p), SequenceNode(h, q), ConfigNode(h, p), ConfigNode(h, q);
    SequenceShape(h, p);
    SequenceShape(h, q);
    ConfigKind(h, p);
    ConfigKind(h, q);
    assert ExperimentNode(h, p).children == [s, c] && ExperimentNode(h, q).children == [t, d] by {
      ExperimentSections(h, p);
      ExperimentSections(h, q);
    }
    ShapeParts(ExperimentNode(h, p));
    ShapeParts(ExperimentNode(h, q));
    TwoShapes(s, c, t, d);
    ShapeParts(s);
    ShapeParts(t);
    assert |multiset(Shapes(p.pulses))| == |p.pulses| && |multiset(Shapes(q.pulses))| == |q.pulses|;
    SectionContent(h, p);
    SectionContent(h, q);
    ExperimentContent(h, p);
    ExperimentContent(h, q);
  }

  function ConfigNode(h: Hashing, p: Parts): Node {
    Section(h, Config, Optional(p.grapeConfig) + Optional(p.software), "config")
  }

  lemma ConfigKind(h: Hashing, p: Parts)
    ensures ConfigNode(h, p).kind == Config
  {}

  lemma ExperimentSections(h: Hashing, p: Parts)
    ensures ExperimentNode(h, p).children == [SequenceNode(h, p), ConfigNode(h, p)]
  {}

  lemma ExperimentContent(h: Hashing, p: Parts)
    ensures ExperimentNode(h, p).kind == Experiment && ExperimentNode(h, p).content == map[]
  {}

  lemma SectionContent(h: Hashing, p: Parts)
    ensures SequenceNode(h, p).content == if p.pulses == [] then EMPTY else map[]
  {}

  lemma TwoShapes(s: Node, c: Node, t: Node, d: Node)
    requires s.kind == t.kind == PulseSequence && c.kind == d.kind == Config
    ensures SameShapes([s, c], [t, d]) <==> ShapeOf(s) == ShapeOf(t) && ShapeOf(c) == ShapeOf(d)
  {
    hide ShapeOf, Shapes;
    ShapeKind(s);
    ShapeKind(c);
    ShapeKind(t);
    ShapeKind(d);
    ShapesOfTwo(s, c);
    ShapesOfTwo(t, d);
    PairOfShapes(ShapeOf(s), ShapeOf(c), ShapeOf(t), ShapeOf(d));
  }

  lemma ShapeKind(n: Node)
    ensures ShapeOf(n).kind == n.kind
  {
    hide Shapes;
    ShapeParts(n);
  }

  lemma ShapesOfTwo(s: Node, c: Node)
    ensures Shapes([s, c]) == [ShapeOf(s), ShapeOf(c)]
  {
    hide ShapeOf;
  }

  lemma PairOfShapes(a: Shape, c: Shape, b: Shape, d: Shape)
    requires a.kind == b.kind == PulseSequence && c.kind == d.kind == Config
    ensures multiset([a, c]) == multiset([b, d]) <==> a == b && c == d
  {
    if multiset([a, c]) == multiset([b, d]) {
      assert a in multiset([a, c]) && c in multiset([a, c]);
    }
  }

  // Absent a collision, two built trees have one root hash exactly when every part agrees up to order and labels:
  // calibration, pulses, configuration, drift events, recalibrations and benchmarks.
  lemma {:induction false} RootCommitsToParts(h: Hashing, cal: Node, p: Parts, cal': Node, q: Parts)
    requires Faithful(h) && PartsConsistent(h, p) && PartsConsistent(h, q)
    requires Consistent(h, cal) && Consistent(h, cal') && cal.kind == cal'.kind == Calibration
    requires CollisionFree(h, Payloads(h, RootNode(h, cal, p)) + Payloads(h, RootNode(h, cal', q)))
    ensures RootNode(h, cal, p).hash == RootNode(h, cal', q).hash <==>
            && ShapeOf(cal) == ShapeOf(cal') && SameShapes(p.pulses, q.pulses)
            && ShapeOf(ConfigNode(h, p)) == ShapeOf(ConfigNode(h, q)) && SameShapes(p.drifts, q.drifts)
            && SameShapes(p.recalibrations, q.recalibrations) && SameShapes(p.benchmarks, q.benchmarks)
  {
    hide Faithful, Consistent, Payloads, RootNode, ExperimentNode, ConfigNode, ShapeOf, SameShapes, PartsConsistent,
      Flat;
    var r, r' := RootNode(h, cal, p), RootNode(h, cal', q);
    RootConsistent(h, cal, p);
    RootConsistent(h, cal', q);
    if r.hash == r'.hash { HashCommits(h, r, r'); }
    ShapeDeterminesHash(h, r, r');
    RootShapes(h, cal, p, cal', q);
    ExperimentParts(h, p, q);
  }

  lemma RootShapes(h: Hashing, cal: Node, p: Parts, cal': Node, q: Parts)
    requires PartsConsistent(h, p) && PartsConsistent(h, q) && cal.kind == cal'.kind == Calibration
    ensures ShapeOf(RootNode(h, cal, p)) == ShapeOf(RootNode(h, cal', q)) <==>
            && ShapeOf(cal) == ShapeOf(cal') && ShapeOf(ExperimentNode(h, p)) == ShapeOf(ExperimentNode(h, q))
            && SameShapes(p.drifts, q.drifts) && SameShapes(p.recalibrations, q.recalibrations)
            && SameShapes(p.benchmarks, q.benchmarks)
  {
    hide Consistent, ExperimentNode, ShapeOf, Shapes, PartsConsistent, RootNode, Flat, Sorted, SameShapes, RootParts;
    var e, e' := ExperimentNode(h, p), ExperimentNode(h, q);
    var s, t := RootParts(cal, e, p), RootParts(cal', e', q);
    RootSorted(h, cal, p);
    RootSorted(h, cal', q);
    RootIsFlat(h, cal, p);
    RootIsFlat(h, cal', q);
    ShapeParts(RootNode(h, cal, p));
    ShapeParts(RootNode(h, cal', q));
    FlatAgree(RootNode(h, cal, p), RootNode(h, cal', q));
    PartsAgree(s, t);
    OneShape(cal, cal');
    OneShape(e, e');
    assert (forall i :: 0 <= i < 5 ==> SameShapes(s[i], t[i])) <==>
      SameShapes(s[0], t[0]) && SameShapes(s[1], t[1]) && SameShapes(s[2], t[2]) && SameShapes(s[3], t[3]) &&
      SameShapes(s[4], t[4]);
  }

  lemma FlatAgree(r: Node, r': Node)
    requires r.kind == r'.kind && r.content == r'.content
    ensures ShapeOf(r) == ShapeOf(r') <==> SameShapes(r.children, r'.children)
  {
    ShapeParts(r);
    ShapeParts(r');
    hide ShapeOf, Shapes;
  }

  lemma RootIsFlat(h: Hashing, cal: Node, p: Parts)
    ensures var r, parts := RootNode(h, cal, p), RootParts(cal, ExperimentNode(h, p), p);
            && r.kind == Root && r.content == map[] && |parts| == 5 && r.children == Flat(parts)
            && parts[0] == [cal] && parts[1] == [ExperimentNode(h, p)] && parts[2] == p.drifts
            && parts[3] == p.recalibrations && parts[4] == p.benchmarks
  {
    hide ExperimentNode;
  }

  lemma RootSorted(h: Hashing, cal: Node, p: Parts)
    requires PartsConsistent(h, p) && cal.kind == Calibration
    ensures Sorted(RootParts(cal, ExperimentNode(h, p), p))
  {
    hide Consistent;
    ExperimentContent(h, p);
  }
}
