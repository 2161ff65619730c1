// Provenance Merkle trees: core/src/qubitos/provenance/nodes.py and builder.py.
module Provenance {
  import opened Sequences
  import opened Wrappers
  import opened Strings

  datatype NodeType =
    | Root | Calibration | QubitCalibration | CouplerCalibration | Experiment | PulseSequence | ScheduledPulse
    | Config | GrapeConfig | SoftwareVersion | DriftEvent | Recalibration | Benchmarking

  function TypeName(k: NodeType): string {
    match k
    case Root => "root"
    case Calibration => "calibration"
    case QubitCalibration => "qubit_calibration"
    case CouplerCalibration => "coupler_calibration"
    case Experiment => "experiment"
    case PulseSequence => "pulse_sequence"
    case ScheduledPulse => "scheduled_pulse"
    case Config => "config"
    case GrapeConfig => "grape_config"
    case SoftwareVersion => "software_version"
    case DriftEvent => "drift_event"
    case Recalibration => "recalibration"
    case Benchmarking => "benchmarking"
  }

  // A JSON value; numbers by their printed form
  datatype Json = JNull | JBool(b: bool) | JNumber(printed: string) | JStr(s: string) | JList(items: seq<Json>)

  type Content = map<string, Json>

  datatype Node = Node(kind: NodeType, hash: string, children: seq<Node>, content: Content, name: string)

  // json.dumps with sorted keys, and SHA-256 as a hex digest
  datatype Hashing = Hashing(dumps: Content -> string, sha: string -> string)

  // JSON objects print with a leading brace and can be read back; digests are non-empty and free of '|'.
  ghost predicate Faithful(h: Hashing) {
    && (forall c :: h.dumps(c) != "" && h.dumps(c)[0] == '{')
    && (forall c, d :: h.dumps(c) == h.dumps(d) ==> c == d)
    && (forall p :: h.sha(p) != "" && '|' !in h.sha(p))
  }

  const TYPE_KEY := "__node_type__"

  function LeafPayload(h: Hashing, kind: NodeType, content: Content): string {
    h.dumps(map[TYPE_KEY := JStr(TypeName(kind))] + content)
  }

  function InternalPayload(kind: NodeType, hashes: seq<string>): string {
    TypeName(kind) + [':'] + Join(Sort(hashes), '|')
  }

  function HashLeaf(h: Hashing, kind: NodeType, content: Content): string {
    h.sha(LeafPayload(h, kind, content))
  }

  function HashInternal(h: Hashing, kind: NodeType, hashes: seq<string>): string {
    h.sha(InternalPayload(kind, hashes))
  }

  function Hashes(nodes: seq<Node>): (r: seq<string>)
    ensures |r| == |nodes| && forall i :: 0 <= i < |nodes| ==> r[i] == nodes[i].hash
  {
    seq(|nodes|, i requires 0 <= i < |nodes| => nodes[i].hash)
  }

  // A node without children is hashed from its content, except that the calibration node is always hashed from
  // its children, even when it has none.
  predicate HashedAsLeaf(n: Node) {
    n.children == [] && n.kind != Calibration
  }

  function Payload(h: Hashing, n: Node): string {
    if HashedAsLeaf(n) then LeafPayload(h, n.kind, n.content) else InternalPayload(n.kind, Hashes(n.children))
  }

  ghost predicate Consistent(h: Hashing, n: Node) {
    && n.hash == h.sha(Payload(h, n))
    && TYPE_KEY !in n.content
    && (HashedAsLeaf(n) || n.content == map[])
    && forall i :: 0 <= i < |n.children| ==> Consistent(h, n.children[i])
  }

  // ---------- what a hash commits to ----------

  // A tree without hashes, labels and sibling order
  datatype Shape = Shape(kind: NodeType, content: Content, parts: multiset<Shape>)

  ghost function ShapeOf(n: Node): Shape {
    Shape(n.kind, n.content, multiset(seq(|n.children|, i requires 0 <= i < |n.children| => ShapeOf(n.children[i]))))
  }

  ghost function Shapes(nodes: seq<Node>): (r: seq<Shape>)
    ensures |r| == |nodes| && forall i :: 0 <= i < |nodes| ==> r[i] == ShapeOf(nodes[i])
  {
    seq(|nodes|, i requires 0 <= i < |nodes| => ShapeOf(nodes[i]))
  }

  lemma ShapeParts(n: Node)
    ensures ShapeOf(n) == Shape(n.kind, n.content, multiset(Shapes(n.children)))
  {
    assert seq(|n.children|, i requires 0 <= i < |n.children| => ShapeOf(n.children[i])) == Shapes(n.children);
  }

  // Every string the tree feeds to SHA-256
  ghost function Payloads(h: Hashing, n: Node): set<string> {
    {Payload(h, n)} + set i, p | 0 <= i < |n.children| && p in Payloads(h, n.children[i]) :: p
  }

  ghost predicate CollisionFree(h: Hashing, payloads: set<string>) {
    forall p, q :: p in payloads && q in payloads && h.sha(p) == h.sha(q) ==> p == q
  }

  lemma TypeNamesPlain(k: NodeType)
    ensures var s := TypeName(k); s != "" && s[0] != '{' && ':' !in s
  {}

  lemma TypeNamesDistinct(a: NodeType, b: NodeType)
    requires TypeName(a) == TypeName(b)
    ensures a == b
  {
    assert |TypeName(a)| == |TypeName(b)|;
    assert TypeName(a)[0] == TypeName(b)[0];
  }

  lemma LeafPayloadInjective(h: Hashing, a: Node, b: Node)
    requires Faithful(h) && TYPE_KEY !in a.content && TYPE_KEY !in b.content
    requires LeafPayload(h, a.kind, a.content) == LeafPayload(h, b.kind, b.content)
    ensures a.kind == b.kind && a.content == b.content
  {
    hide TypeName;
    var m := map[TYPE_KEY := JStr(TypeName(a.kind))] + a.content;
    var n := map[TYPE_KEY := JStr(TypeName(b.kind))] + b.content;
    assert m == n;
    assert m[TYPE_KEY] == n[TYPE_KEY];
    TypeNamesDistinct(a.kind, b.kind);
    assert a.content == map k | k in m && k != TYPE_KEY :: m[k];
    assert b.content == map k | k in n && k != TYPE_KEY :: n[k];
  }

  lemma InternalPayloadInjective(a: NodeType, s: seq<string>, b: NodeType, t: seq<string>)
    requires Words(s, '|') && Words(t, '|') && InternalPayload(a, s) == InternalPayload(b, t)
    ensures a == b && multiset(s) == multiset(t)
  {
    hide TypeName, Join, Sort;
    var p, q := [':'] + Join(Sort(s), '|'), [':'] + Join(Sort(t), '|');
    TypeNamesPlain(a);
    TypeNamesPlain(b);
    assert InternalPayload(a, s) == TypeName(a) + p && InternalPayload(b, t) == TypeName(b) + q;
    HeadUnique(TypeName(a), p, TypeName(b), q, ':');
    TypeNamesDistinct(a, b);
    assert p[1..] == Join(Sort(s), '|') && q[1..] == Join(Sort(t), '|');
    SortWords(s);
    SortWords(t);
    JoinInjective(Sort(s), Sort(t), '|');
    SortCanonical(s, t);
  }

  lemma SortWords(s: seq<string>)
    requires Words(s, '|')
    ensures Words(Sort(s), '|')
  {
    SortSorts(s);
    forall w | w in Sort(s) ensures w in s {
      assert w in multiset(Sort(s));
    }
  }

  lemma PayloadsDisjoint(h: Hashing, kind: NodeType, content: Content, other: NodeType, hashes: seq<string>)
    requires Faithful(h)
    ensures LeafPayload(h, kind, content) != InternalPayload(other, hashes)
  {
    hide TypeName;
    TypeNamesPlain(other);
    assert InternalPayload(other, hashes)[0] == TypeName(other)[0];
  }

  lemma PayloadsOfChild(h: Hashing, n: Node, i: nat)
    requires i < |n.children|
    ensures Payloads(h, n.children[i]) <= Payloads(h, n) && Payload(h, n) in Payloads(h, n)
  {}

  lemma HashWords(h: Hashing, n: Node)
    requires Faithful(h) && Consistent(h, n)
    ensures Words(Hashes(n.children), '|')
  {
    hide Payload;
    forall w | w in Hashes(n.children) ensures w != "" && '|' !in w {
      var i :| 0 <= i < |n.children| && w == n.children[i].hash;
      assert Consistent(h, n.children[i]);
    }
  }

  // Equal hashes of consistent trees mean equal trees up to sibling order and labels, unless the two trees
  // exhibit a SHA-256 collision.
  lemma {:induction false} HashCommits(h: Hashing, a: Node, b: Node)
    requires Faithful(h) && Consistent(h, a) && Consistent(h, b) && a.hash == b.hash
    requires CollisionFree(h, Payloads(h, a) + Payloads(h, b))
    ensures ShapeOf(a) == ShapeOf(b)
    decreases a
  {
    hide Faithful, LeafPayload, InternalPayload, Payloads, ShapeOf, Words;
    TopPayload(h, a);
    TopPayload(h, b);
    assert Payload(h, a) == Payload(h, b);
    ShapeParts(a);
    ShapeParts(b);
    if HashedAsLeaf(a) != HashedAsLeaf(b) {
      PayloadsDisjoint(h, a.kind, a.content, b.kind, Hashes(b.children));
      PayloadsDisjoint(h, b.kind, b.content, a.kind, Hashes(a.children));
    } else if HashedAsLeaf(a) {
      LeafPayloadInjective(h, a, b);
    } else {
      HashWords(h, a);
      HashWords(h, b);
      InternalPayloadInjective(a.kind, Hashes(a.children), b.kind, Hashes(b.children));
      forall i, j | 0 <= i < |a.children| && 0 <= j < |b.children| && Hashes(a.children)[i] == Hashes(b.children)[j]
        ensures Shapes(a.children)[i] == Shapes(b.children)[j]
      {
        PayloadsOfChild(h, a, i);
        PayloadsOfChild(h, b, j);
        HashCommits(h, a.children[i], b.children[j]);
      }
      MatchTransfer(Hashes(a.children), Hashes(b.children), Shapes(a.children), Shapes(b.children));
    }
  }

  lemma TopPayload(h: Hashing, n: Node)
    ensures Payload(h, n) in Payloads(h, n)
  {}

  // Conversely the hash depends on nothing else.
  lemma {:induction false} ShapeDeterminesHash(h: Hashing, a: Node, b: Node)
    requires Consistent(h, a) && Consistent(h, b)
    ensures ShapeOf(a) == ShapeOf(b) ==> a.hash == b.hash
    decreases a
  {
    hide LeafPayload, ShapeOf, TypeName, Join, Sort;
    ShapeParts(a);
    ShapeParts(b);
    assert |multiset(Shapes(a.children))| == |a.children| && |multiset(Shapes(b.children))| == |b.children|;
    if ShapeOf(a) == ShapeOf(b) && !HashedAsLeaf(a) {
      forall i, j | 0 <= i < |a.children| && 0 <= j < |b.children| && Shapes(a.children)[i] == Shapes(b.children)[j]
        ensures Hashes(a.children)[i] == Hashes(b.children)[j]
      {
        ShapeDeterminesHash(h, a.children[i], b.children[j]);
      }
      MatchTransfer(Shapes(a.children), Shapes(b.children), Hashes(a.children), Hashes(b.children));
      SortCanonical(Hashes(a.children), Hashes(b.children));
    }
  }

  // ---------- the builder ----------

  datatype Parts = Parts(
    calibration: Option<Node>, pulses: seq<Node>, grapeConfig: Option<Node>, software: Option<Node>,
    drifts: seq<Node>, recalibrations: seq<Node>, benchmarks: seq<Node>)

  const EMPTY: Content := map["empty" := JBool(true)]

  function Leaf(h: Hashing, kind: NodeType, content: Content, name: string): Node {
    Node(kind, HashLeaf(h, kind, content), [], content, name)
  }

  function Internal(h: Hashing, kind: NodeType, children: seq<Node>, name: string): Node {
    Node(kind, HashInternal(h, kind, Hashes(children)), children, map[], name)
  }

  function Optional(o: Option<Node>): seq<Node> {
    if o.Some? then [o.value] else []
  }

  // A section without entries becomes a leaf holding {"empty": true}.
  function Section(h: Hashing, kind: NodeType, children: seq<Node>, name: string): Node {
    if children != [] then Internal(h, kind, children, name) else Leaf(h, kind, EMPTY, name)
  }

  function ExperimentNode(h: Hashing, p: Parts): Node {
    var sequence := Section(h, PulseSequence, p.pulses, "pulse_sequence");
    var config := Section(h, Config, Optional(p.grapeConfig) + Optional(p.software), "config");
    Internal(h, Experiment, [sequence, config], "experiment")
  }

  function RootNode(h: Hashing, calibration: Node, p: Parts): Node {
    Internal(h, Root, [calibration, ExperimentNode(h, p)] + p.drifts + p.recalibrations + p.benchmarks, "")
  }

  ghost predicate AllConsistent(h: Hashing, nodes: seq<Node>) {
    forall n :: n in nodes ==> Consistent(h, n)
  }

  ghost predicate AllOfKind(nodes: seq<Node>, kind: NodeType) {
    forall n :: n in nodes ==> n.kind == kind && n.children == []
  }

  ghost predicate PartsConsistent(h: Hashing, p: Parts) {
    && (p.calibration.Some? ==> Consistent(h, p.calibration.value) && p.calibration.value.kind == Calibration)
    && AllConsistent(h, p.pulses) && AllConsistent(h, Optional(p.grapeConfig)) && AllConsistent(h, Optional(p.software))
    && AllConsistent(h, p.drifts) && AllConsistent(h, p.recalibrations) && AllConsistent(h, p.benchmarks)
    && AllOfKind(p.pulses, ScheduledPulse) && AllOfKind(p.drifts, DriftEvent)
    && AllOfKind(p.recalibrations, Recalibration) && AllOfKind(p.benchmarks, Benchmarking)
  }

  lemma LeafConsistent(h: Hashing, kind: NodeType, content: Content, name: string)
    requires TYPE_KEY !in content && kind != Calibration
    ensures Consistent(h, Leaf(h, kind, content, name))
  {}

  lemma InternalConsistent(h: Hashing, kind: NodeType, children: seq<Node>, name: string)
    requires AllConsistent(h, children) && (children != [] || kind == Calibration)
    ensures Consistent(h, Internal(h, kind, children, name))
  {}

  lemma SectionConsistent(h: Hashing, kind: NodeType, children: seq<Node>, name: string)
    requires AllConsistent(h, children) && kind != Calibration
    ensures Consistent(h, Section(h, kind, children, name))
  {
    hide Consistent, Leaf, Internal;
    if children == [] { LeafConsistent(h, kind, EMPTY, name); } else { InternalConsistent(h, kind, children, name); }
  }

  lemma RootConsistent(h: Hashing, calibration: Node, p: Parts)
    requires PartsConsistent(h, p) && Consistent(h, calibration)
    ensures Consistent(h, RootNode(h, calibration, p))
  {
    hide Consistent, Internal, Section;
    SectionConsistent(h, PulseSequence, p.pulses, "pulse_sequence");
    SectionConsistent(h, Config, Optional(p.grapeConfig) + Optional(p.software), "config");
    var sequence := Section(h, PulseSequence, p.pulses, "pulse_sequence");
    var config := Section(h, Config, Optional(p.grapeConfig) + Optional(p.software), "config");
    InternalConsistent(h, Experiment, [sequence, config], "experiment");
    InternalConsistent(h, Root, [calibration, ExperimentNode(h, p)] + p.drifts + p.recalibrations + p.benchmarks, "");
  }

  // The root hash does not record the order in which pulses were added.
  lemma PulseOrderNotCommitted(h: Hashing, calibration: Node, p: Parts, pulses: seq<Node>)
    requires multiset(pulses) == multiset(p.pulses)
    ensures RootNode(h, calibration, p.(pulses := pulses)).hash == RootNode(h, calibration, p).hash
  {
    hide TypeName, Join, Sort;
    assert |multiset(pulses)| == |pulses| && |multiset(p.pulses)| == |p.pulses|;
    MatchTransfer(pulses, p.pulses, Hashes(pulses), Hashes(p.pulses));
    SortCanonical(Hashes(pulses), Hashes(p.pulses));
    var q := p.(pulses := pulses);
    var a, b := Section(h, PulseSequence, q.pulses, "pulse_sequence"),
      Section(h, PulseSequence, p.pulses, "pulse_sequence");
    var c := Section(h, Config, Optional(p.grapeConfig) + Optional(p.software), "config");
    assert a.hash == b.hash;
    assert Hashes([a, c]) == Hashes([b, c]);
    var rest := p.drifts + p.recalibrations + p.benchmarks;
    assert Hashes([calibration, ExperimentNode(h, q)] + q.drifts + q.recalibrations + q.benchmarks) ==
           Hashes([calibration, ExperimentNode(h, p)] + p.drifts + p.recalibrations + p.benchmarks);
  }

  // Content and name of one leaf, as computed by the caller-facing methods
  datatype Item = Item(content: Content, name: string)

  ghost predicate PlainItems(items: seq<Item>) {
    forall i :: i in items ==> TYPE_KEY !in i.content
  }

  function Leaves(h: Hashing, kind: NodeType, items: seq<Item>): (r: seq<Node>)
    ensures |r| == |items| && forall i :: 0 <= i < |r| ==> r[i] == Leaf(h, kind, items[i].content, items[i].name)
  {
    seq(|items|, i requires 0 <= i < |items| => Leaf(h, kind, items[i].content, items[i].name))
  }

  function CalibrationNode(h: Hashing, qubits: seq<Item>, couplers: seq<Item>): Node {
    Internal(h, Calibration, Leaves(h, QubitCalibration, qubits) + Leaves(h, CouplerCalibration, couplers),
             "calibration")
  }

  class ProvenanceBuilder {
    const hashing: Hashing
    var parts: Parts

    ghost predicate Valid()
      reads this
    {
      PartsConsistent(hashing, parts)
    }

    constructor (hashing: Hashing)
      ensures Valid() && this.hashing == hashing && parts == Parts(None, [], None, None, [], [], [])
    {
      this.hashing := hashing;
      parts := Parts(None, [], None, None, [], [], []);
    }

    method MakeLeaves(kind: NodeType, items: seq<Item>) returns (nodes: seq<Node>)
      requires PlainItems(items) && kind != Calibration
      ensures nodes == Leaves(hashing, kind, items) && AllConsistent(hashing, nodes)
    {
      hide Consistent, Leaf;
      nodes := [];
      for i := 0 to |items|
        invariant nodes == Leaves(hashing, kind, items[..i]) && AllConsistent(hashing, nodes)
      {
        LeafConsistent(hashing, kind, items[i].content, items[i].name);
        nodes := nodes + [Leaf(hashing, kind, items[i].content, items[i].name)];
      }
      assert items[..|items|] == items;
    }

    method SetCalibration(qubits: seq<Item>, couplers: seq<Item>)
      requires Valid() && PlainItems(qubits) && PlainItems(couplers)
      modifies this
      ensures Valid() && parts == old(parts).(calibration := Some(CalibrationNode(hashing, qubits, couplers)))
    {
      hide Consistent, Leaf;
      var qubitNodes := MakeLeaves(QubitCalibration, qubits);
      var couplerNodes := MakeLeaves(CouplerCalibration, couplers);
      InternalConsistent(hashing, Calibration, qubitNodes + couplerNodes, "calibration");
      parts := parts.(calibration := Some(Internal(hashing, Calibration, qubitNodes + couplerNodes, "calibration")));
    }

    method AddPulse(item: Item)
      requires Valid() && TYPE_KEY !in item.content
      modifies this
      ensures Valid() &&
        parts == old(parts).(pulses := old(parts).pulses + [Leaf(hashing, ScheduledPulse, item.content, item.name)])
    {
      LeafConsistent(hashing, ScheduledPulse, item.content, item.name);
      parts := parts.(pulses := parts.pulses + [Leaf(hashing, ScheduledPulse, item.content, item.name)]);
    }

    // Fails exactly when no calibration was set; otherwise every node of the tree carries its own hash.
    method Build() returns (r: Result<Node>)
      requires Valid()
      ensures r.Err? <==> parts.calibration.None?
      ensures r.Ok? ==> r.value == RootNode(hashing, parts.calibration.value, parts) && Consistent(hashing, r.value)
    {
      hide Consistent, Internal, Leaf;
      if parts.calibration.None? { return Err("Calibration not set"); }
      var pulseSequence;
      if parts.pulses != [] {
        pulseSequence := Internal(hashing, PulseSequence, parts.pulses, "pulse_sequence");
      } else {
        pulseSequence := Leaf(hashing, PulseSequence, EMPTY, "pulse_sequence");
      }
      var configChildren := [];
      if parts.grapeConfig.Some? { configChildren := configChildren + [parts.grapeConfig.value]; }
      if parts.software.Some? { configChildren := configChildren + [parts.software.value]; }
      assert configChildren == Optional(parts.grapeConfig) + Optional(parts.software);
      var config;
      if configChildren != [] {
        config := Internal(hashing, Config, configChildren, "config");
      } else {
        config := Leaf(hashing, Config, EMPTY, "config");
      }
      var experiment := Internal(hashing, Experiment, [pulseSequence, config], "experiment");
      var rootChildren := [parts.calibration.value, experiment];
      rootChildren := rootChildren + parts.drifts;
      rootChildren := rootChildren + parts.recalibrations;
      rootChildren := rootChildren + parts.benchmarks;
      RootConsistent(hashing, parts.calibration.value, parts);
      return Ok(Internal(hashing, Root, rootChildren, ""));
    }
  }
}
