// Structural diff and dictionary form of provenance trees: core/src/qubitos/provenance/tree.py.
module ProvenanceDiff {
  import opened Sequences
  import opened Wrappers
  import opened Strings
  import opened Provenance

  // ---------- children by (type, label) ----------

  datatype Key = Key(kind: NodeType, name: string)

  function KeyOf(n: Node): Key {
    Key(n.kind, n.name)
  }

  // A dict comprehension over the children: a repeated key keeps the last child.
  function ByKey(nodes: seq<Node>): map<Key, Node> {
    if nodes == [] then map[] else ByKey(nodes[..|nodes| - 1])[KeyOf(nodes[|nodes| - 1]) := nodes[|nodes| - 1]]
  }

  lemma {:induction false} ByKeyIsLast(nodes: seq<Node>)
    ensures forall n :: n in nodes ==> KeyOf(n) in ByKey(nodes)
    ensures forall k :: k in ByKey(nodes) ==> ByKey(nodes)[k] in nodes && KeyOf(ByKey(nodes)[k]) == k
    ensures forall i :: 0 <= i < |nodes| && Last(nodes, i) ==> ByKey(nodes)[KeyOf(nodes[i])] == nodes[i]
  {
    if nodes != [] {
      var front, last := nodes[..|nodes| - 1], nodes[|nodes| - 1];
      ByKeyIsLast(front);
      assert nodes == front + [last];
      forall i | 0 <= i < |nodes| && Last(nodes, i) ensures ByKey(nodes)[KeyOf(nodes[i])] == nodes[i] {
        if i < |front| {
          assert Last(front, i);
          assert KeyOf(nodes[|nodes| - 1]) != KeyOf(nodes[i]);
        }
      }
    }
  }

  // No later sibling has the same type and label.
  predicate Last(nodes: seq<Node>, i: nat)
    requires i < |nodes|
  {
    forall j :: i < j < |nodes| ==> KeyOf(nodes[j]) != KeyOf(nodes[i])
  }

  predicate UniqueKeys(nodes: seq<Node>) {
    forall i, j :: 0 <= i < j < |nodes| ==> KeyOf(nodes[i]) != KeyOf(nodes[j])
  }

  ghost predicate UniqueSiblings(n: Node) {
    UniqueKeys(n.children) && forall i :: 0 <= i < |n.children| ==> UniqueSiblings(n.children[i])
  }

  // Keys are ordered by the name of their type first and by their label second.
  predicate KeyLeq(a: Key, b: Key) {
    if a.kind == b.kind then Leq(a.name, b.name) else Leq(TypeName(a.kind), TypeName(b.kind))
  }

  lemma KeyLeqTotal(a: Key, b: Key)
    ensures KeyLeq(a, b) || KeyLeq(b, a)
  {
    hide Leq, TypeName;
    LeqTotal(a.name, b.name);
    LeqTotal(TypeName(a.kind), TypeName(b.kind));
  }

  lemma KeyLeqTransitive(a: Key, b: Key, c: Key)
    requires KeyLeq(a, b) && KeyLeq(b, c)
    ensures KeyLeq(a, c)
  {
    hide Leq, TypeName;
    if a.kind == b.kind == c.kind {
      LeqTransitive(a.name, b.name, c.name);
    } else if a.kind != b.kind && b.kind != c.kind {
      LeqTransitive(TypeName(a.kind), TypeName(b.kind), TypeName(c.kind));
      if a.kind == c.kind {
        LeqAntisymmetric(TypeName(a.kind), TypeName(b.kind));
        TypeNamesDistinct(a.kind, b.kind);
      }
    }
  }

  // The set of keys as an ascending list
  function InsertKey(k: Key, keys: seq<Key>): (r: seq<Key>)
    ensures forall x :: x in r <==> x == k || x in keys
  {
    if keys == [] then [k]
    else if k == keys[0] then keys
    else if KeyLeq(k, keys[0]) then [k] + keys
    else [keys[0]] + InsertKey(k, keys[1..])
  }

  function AllKeys(nodes: seq<Node>): (r: seq<Key>)
    ensures forall x :: x in r <==> exists n :: n in nodes && KeyOf(n) == x
  {
    if nodes == [] then [] else
      assert forall n :: n in nodes <==> n == nodes[0] || n in nodes[1..];
      InsertKey(KeyOf(nodes[0]), AllKeys(nodes[1..]))
  }

  ghost predicate Ascending(keys: seq<Key>) {
    forall i, j :: 0 <= i < j < |keys| ==> keys[i] != keys[j] && KeyLeq(keys[i], keys[j])
  }

  lemma {:induction false} InsertKeyAscending(k: Key, keys: seq<Key>)
    requires Ascending(keys)
    ensures Ascending(InsertKey(k, keys))
  {
    hide KeyLeq;
    if keys != [] && k != keys[0] {
      KeyLeqTotal(k, keys[0]);
      if KeyLeq(k, keys[0]) {
        InsertInFront(k, keys);
      } else {
        var rest := InsertKey(k, keys[1..]);
        InsertKeyAscending(k, keys[1..]);
        forall j | 0 <= j < |rest| ensures keys[0] != rest[j] && KeyLeq(keys[0], rest[j]) {
          assert rest[j] in rest;
          assert rest[j] == k || rest[j] in keys[1..];
        }
      }
    }
  }

  lemma InsertInFront(k: Key, keys: seq<Key>)
    requires Ascending(keys) && keys != [] && k != keys[0] && KeyLeq(k, keys[0])
    ensures Ascending([k] + keys)
  {
    hide KeyLeq;
    forall j | 0 < j < |keys| ensures k != keys[j] && KeyLeq(k, keys[j]) {
      KeyLeqTransitive(k, keys[0], keys[j]);
      if k == keys[j] { KeyLeqAntisymmetric(k, keys[0]); }
    }
  }

  lemma KeyLeqAntisymmetric(a: Key, b: Key)
    requires KeyLeq(a, b) && KeyLeq(b, a)
    ensures a == b
  {
    hide Leq, TypeName;
    if a.kind == b.kind {
      LeqAntisymmetric(a.name, b.name);
    } else {
      LeqAntisymmetric(TypeName(a.kind), TypeName(b.kind));
      TypeNamesDistinct(a.kind, b.kind);
    }
  }

  // The list of keys visited is strictly ascending, so each key is visited once, in the order of the sort.
  lemma {:induction false} AllKeysAscending(nodes: seq<Node>)
    ensures Ascending(AllKeys(nodes))
  {
    hide InsertKey;
    if nodes != [] {
      AllKeysAscending(nodes[1..]);
      InsertKeyAscending(KeyOf(nodes[0]), AllKeys(nodes[1..]));
    }
  }

  // ---------- diff ----------

  datatype NodeChange = NodeChange(kind: NodeType, path: string, oldHash: string, newHash: string, oldContent: Content,
                                   newContent: Content)

  datatype Diff = Diff(changed: seq<NodeChange>, kept: seq<string>)

  function Both(a: Diff, b: Diff): Diff {
    Diff(a.changed + b.changed, a.kept + b.kept)
  }

  function ShortHash(n: Node): string {
    n.hash[..if |n.hash| < 16 then |n.hash| else 16]
  }

  function LeafLabel(n: Node): string {
    if n.name != "" then TypeName(n.kind) + "/" + n.name else TypeName(n.kind)
  }

  function LeafLabels(n: Node): seq<string> {
    if n.children == [] then [LeafLabel(n)] else LeafLabelsOf(n.children)
  }

  function LeafLabelsOf(nodes: seq<Node>): seq<string> {
    if nodes == [] then [] else LeafLabels(nodes[0]) + LeafLabelsOf(nodes[1..])
  }

  function PathOf(path: string, n: Node): string {
    var here := if n.name != "" then path + "/" + n.name else path;
    if here == "" then TypeName(n.kind) else here
  }

  function Removed(k: Key, n: Node, path: string): NodeChange {
    NodeChange(k.kind, path + "/" + k.name, ShortHash(n), "(removed)", n.content, map[])
  }

  function Added(k: Key, n: Node, path: string): NodeChange {
    NodeChange(k.kind, path + "/" + k.name, "(added)", ShortHash(n), map[], n.content)
  }

  lemma MapChild(n: Node, k: Key)
    requires k in ByKey(n.children)
    ensures ByKey(n.children)[k] in n.children && ByKey(n.children)[k] < n && KeyOf(ByKey(n.children)[k]) == k
  {
    hide ByKey;
    ByKeyIsLast(n.children);
    assert ByKey(n.children)[k] in n.children;
  }

  function DiffNodes(a: Node, b: Node, path: string): Diff
    decreases a, 1, 0
  {
    if a.hash == b.hash then Diff([], LeafLabels(a))
    else if a.children == [] && b.children == [] then
      Diff([NodeChange(a.kind, PathOf(path, a), ShortHash(a), ShortHash(b), a.content, b.content)], [])
    else DiffKeys(a, b, AllKeys(a.children + b.children), PathOf(path, a))
  }

  function DiffKeys(a: Node, b: Node, keys: seq<Key>, path: string): Diff
    decreases a, 0, |keys|
  {
    if keys == [] then Diff([], [])
    else
      var k, rest := keys[0], DiffKeys(a, b, keys[1..], path);
      var inA, inB := ByKey(a.children), ByKey(b.children);
      if k in inA && k in inB then
        MapChild(a, k);
        Both(DiffNodes(inA[k], inB[k], path), rest)
      else if k in inA then Both(Diff([Removed(k, inA[k], path)], []), rest)
      else if k in inB then Both(Diff([Added(k, inB[k], path)], []), rest)
      else rest
  }

  // Two subtrees whose keys and last children agree all the way down report no change.
  lemma {:induction false} QuietKeys(a: Node, b: Node, keys: seq<Key>, path: string, k: Key)
    requires k in keys && DiffKeys(a, b, keys, path).changed == []
    requires k in ByKey(a.children) || k in ByKey(b.children)
    ensures k in ByKey(a.children) && k in ByKey(b.children)
    ensures DiffNodes(ByKey(a.children)[k], ByKey(b.children)[k], path).changed == []
  {
    hide ByKey, DiffNodes;
    if k != keys[0] {
      QuietKeys(a, b, keys[1..], path, k);
    }
  }

  lemma {:induction false} KeysQuiet(a: Node, b: Node, keys: seq<Key>, path: string)
    requires forall k :: k in keys ==> k in ByKey(a.children) && k in ByKey(b.children)
    requires forall k :: k in keys ==> DiffNodes(ByKey(a.children)[k], ByKey(b.children)[k], path).changed == []
    ensures DiffKeys(a, b, keys, path).changed == []
  {
    hide ByKey, DiffNodes;
    if keys != [] { KeysQuiet(a, b, keys[1..], path); }
  }

  // The first half holds of any two trees; the second needs consistent hashes, one root type and distinct siblings.
  lemma {:induction false} DiffComplete(h: Hashing, a: Node, b: Node, path: string)
    requires Consistent(h, a) && Consistent(h, b) && a.kind == b.kind
    requires UniqueSiblings(a) && UniqueSiblings(b)
    ensures DiffNodes(a, b, path).changed == [] <==> a.hash == b.hash
    decreases a
  {
    hide Payload, UniqueKeys, ByKey, AllKeys;
    if a.hash != b.hash && DiffNodes(a, b, path).changed == [] {
      var keys, here := AllKeys(a.children + b.children), PathOf(path, a);
      forall k | k in ByKey(a.children) || k in ByKey(b.children)
        ensures k in ByKey(a.children) && k in ByKey(b.children)
        ensures ByKey(a.children)[k].hash == ByKey(b.children)[k].hash
      {
        KeyListed(a, b, k);
        QuietKeys(a, b, keys, here, k);
        MapChild(a, k);
        MapChild(b, k);
        DiffComplete(h, ByKey(a.children)[k], ByKey(b.children)[k], here);
      }
      SameChildren(a.children, b.children);
      SamePayload(h, a, b);
    }
  }

  lemma KeyListed(a: Node, b: Node, k: Key)
    requires k in ByKey(a.children) || k in ByKey(b.children)
    ensures k in AllKeys(a.children + b.children)
  {
    hide ByKey;
    if k in ByKey(a.children) { MapChild(a, k); } else { MapChild(b, k); }
  }

  // Sibling lists with distinct keys and the same hash under every key have the same hashes.
  lemma SameChildren(s: seq<Node>, t: seq<Node>)
    requires UniqueKeys(s) && UniqueKeys(t)
    requires forall k :: k in ByKey(s) <==> k in ByKey(t)
    requires forall k :: k in ByKey(s) && k in ByKey(t) ==> ByKey(s)[k].hash == ByKey(t)[k].hash
    ensures multiset(Hashes(s)) == multiset(Hashes(t))
  {
    hide ByKey;
    ByKeyIsLast(s);
    ByKeyIsLast(t);
    var x, y := KeySeq(s), KeySeq(t);
    SameElements(x, y);
    forall i, j | 0 <= i < |s| && 0 <= j < |t| && x[i] == y[j] ensures Hashes(s)[i] == Hashes(t)[j] {
      assert Last(s, i) && Last(t, j);
    }
    MatchTransfer(x, y, Hashes(s), Hashes(t));
  }

  function KeySeq(s: seq<Node>): (r: seq<Key>)
    ensures |r| == |s| && forall i :: 0 <= i < |s| ==> r[i] == KeyOf(s[i])
  {
    seq(|s|, i requires 0 <= i < |s| => KeyOf(s[i]))
  }

  lemma SamePayload(h: Hashing, a: Node, b: Node)
    requires Consistent(h, a) && Consistent(h, b) && a.kind == b.kind
    requires a.children != [] || b.children != []
    requires multiset(Hashes(a.children)) == multiset(Hashes(b.children))
    ensures a.hash == b.hash
  {
    hide TypeName, Join, Sort;
    assert |multiset(Hashes(a.children))| == |multiset(Hashes(b.children))|;
    SortCanonical(Hashes(a.children), Hashes(b.children));
  }

  // A tree with one child replaced is reported exactly when that child is the last of its key and is itself
  // reported.
  lemma ReplacementSeen(a: Node, b: Node, i: nat, path: string)
    requires i < |a.children| && |b.children| == |a.children| && b.children == a.children[i := b.children[i]]
    requires KeyOf(b.children[i]) == KeyOf(a.children[i]) && a.hash != b.hash
    ensures DiffNodes(a, b, path).changed != [] <==>
            Last(a.children, i) && DiffNodes(a.children[i], b.children[i], PathOf(path, a)).changed != []
  {
    hide ByKey, AllKeys, PathOf;
    var here, keys, k := PathOf(path, a), AllKeys(a.children + b.children), KeyOf(a.children[i]);
    ByKeyIsLast(a.children);
    ByKeyIsLast(b.children);
    if Last(a.children, i) {
      assert Last(b.children, i) && a.children[i] in a.children;
      KeyListed(a, b, k);
      if DiffNodes(a, b, path).changed == [] { QuietKeys(a, b, keys, here, k); }
    }
    if !Last(a.children, i) || DiffNodes(a.children[i], b.children[i], here).changed == [] {
      forall x | x in keys
        ensures x in ByKey(a.children) && x in ByKey(b.children)
        ensures DiffNodes(ByKey(a.children)[x], ByKey(b.children)[x], here).changed == []
      {
        LastOrReplaced(a.children, b.children, i, x);
      }
      KeysQuiet(a, b, keys, here);
    }
  }

  // Lists that differ at one position hold the same last entry under every key, except there.
  lemma LastOrReplaced(s: seq<Node>, t: seq<Node>, i: nat, x: Key)
    requires |s| == |t| && i < |s| && t == s[i := t[i]] && KeyOf(t[i]) == KeyOf(s[i])
    requires exists n :: n in s + t && KeyOf(n) == x
    ensures x in ByKey(s) && x in ByKey(t)
    ensures ByKey(s)[x] == ByKey(t)[x] || (Last(s, i) && ByKey(s)[x] == s[i] && ByKey(t)[x] == t[i])
  {
    hide ByKey;
    ByKeyIsLast(s);
    ByKeyIsLast(t);
    var n :| n in s + t && KeyOf(n) == x;
    var p :| 0 <= p < |s| && (s[p] == n || t[p] == n);
    var j := FindLast(s, p);
    assert Last(t, j);
  }

  // The parent of one replaced child, rehashed as the builder would
  function ReplaceChild(h: Hashing, a: Node, i: nat, c: Node): Node
    requires i < |a.children|
  {
    Internal(h, a.kind, a.children[i := c], a.name)
  }

  // Repeated siblings: replacing a child is reported exactly when no later sibling shares its type and label.
  lemma ReplacementReported(h: Hashing, a: Node, i: nat, c: Node, path: string)
    requires i < |a.children| && Consistent(h, a) && Consistent(h, c)
    requires KeyOf(c) == KeyOf(a.children[i]) && c.hash != a.children[i].hash
    requires UniqueSiblings(c) && UniqueSiblings(a.children[i])
    requires a.hash != ReplaceChild(h, a, i, c).hash
    ensures DiffNodes(a, ReplaceChild(h, a, i, c), path).changed != [] <==> Last(a.children, i)
  {
    hide Payload, UniqueSiblings, HashInternal, DiffNodes;
    ReplacementSeen(a, ReplaceChild(h, a, i, c), i, path);
    DiffComplete(h, a.children[i], c, PathOf(path, a));
  }

  lemma {:induction false} FindLast(s: seq<Node>, p: nat) returns (j: nat)
    requires p < |s|
    ensures j < |s| && KeyOf(s[j]) == KeyOf(s[p]) && Last(s, j)
    decreases |s| - p
  {
    if Last(s, p) {
      j := p;
    } else {
      var q :| p < q < |s| && KeyOf(s[q]) == KeyOf(s[p]);
      j := FindLast(s, q);
    }
  }

  // ---------- one replaced pulse, seen from the root ----------

  // Equal hashes of two nodes that differ in one child force that child's hash, unless SHA-256 collides.
  lemma ReplacedHash(h: Hashing, a: Node, b: Node, i: nat)
    requires Faithful(h) && Consistent(h, a) && Consistent(h, b) && a.kind == b.kind && a.hash == b.hash
    requires i < |a.children| && |b.children| == |a.children| && b.children == a.children[i := b.children[i]]
    requires CollisionFree(h, Payloads(h, a) + Payloads(h, b))
    ensures a.children[i].hash == b.children[i].hash
  {
    hide Faithful, LeafPayload, InternalPayload, Payloads, Words;
    TopPayload(h, a);
    TopPayload(h, b);
    assert Payload(h, a) == Payload(h, b);
    HashWords(h, a);
    HashWords(h, b);
    var s, t := Hashes(a.children), Hashes(b.children);
    InternalPayloadInjective(a.kind, s, b.kind, t);
    assert t == s[i := t[i]];
    UpdateChangesMultiset(s, i, t[i]);
  }

  lemma UpdateChangesMultiset(s: seq<string>, i: nat, x: string)
    requires i < |s| && multiset(s[i := x]) == multiset(s)
    ensures s[i] == x
  {
    hide Without;
    var t := s[i := x];
    WithoutSplit(s, i);
    WithoutSplit(t, i);
    assert t[..i] == s[..i] && t[i + 1..] == s[i + 1..];
    assert multiset(s) == multiset{s[i]} + multiset(Without(s, i));
    assert multiset(t) == multiset{x} + multiset(Without(s, i));
    assert multiset{s[i]} == multiset(s) - multiset(Without(s, i));
    assert multiset{x} == multiset(t) - multiset(Without(s, i));
    assert s[i] in multiset{s[i]};
  }

  // The parts of a tree with the content of one pulse replaced under the same label
  function WithPulse(h: Hashing, p: Parts, i: nat, content: Content): Parts
    requires i < |p.pulses|
  {
    p.(pulses := p.pulses[i := Leaf(h, ScheduledPulse, content, p.pulses[i].name)])
  }

  ghost predicate Replaces(h: Hashing, p: Parts, i: nat, content: Content) {
    i < |p.pulses| && TYPE_KEY !in content && content != p.pulses[i].content
  }

  lemma WithPulseConsistent(h: Hashing, p: Parts, i: nat, content: Content)
    requires PartsConsistent(h, p) && Replaces(h, p, i, content)
    ensures PartsConsistent(h, WithPulse(h, p, i, content))
  {
    hide Consistent, Leaf;
    LeafConsistent(h, ScheduledPulse, content, p.pulses[i].name);
    var q := WithPulse(h, p, i, content).pulses;
    forall n | n in q ensures Consistent(h, n) && n.kind == ScheduledPulse && n.children == [] {
      var j :| 0 <= j < |q| && q[j] == n;
      if j == i { LeafShape(h, ScheduledPulse, content, p.pulses[i].name); } else { assert p.pulses[j] in p.pulses; }
    }
  }

  lemma LeafShape(h: Hashing, kind: NodeType, content: Content, name: string)
    ensures var n := Leaf(h, kind, content, name);
      n.kind == kind && n.children == [] && n.content == content && n.name == name
  {}

  // Without a collision the replaced pulse changes the hash of the pulse sequence,
  lemma SequenceHashChanges(h: Hashing, p: Parts, i: nat, content: Content)
    requires Faithful(h) && PartsConsistent(h, p) && Replaces(h, p, i, content)
    requires CollisionFree(h, Payloads(h, SequenceNode(h, p))
      + Payloads(h, SequenceNode(h, WithPulse(h, p, i, content))))
    ensures p.pulses[i].hash != Leaf(h, ScheduledPulse, content, p.pulses[i].name).hash
    ensures SequenceNode(h, p).hash != SequenceNode(h, WithPulse(h, p, i, content)).hash
  {
    hide Faithful, Consistent, Leaf, HashInternal, Payloads;
    var q := WithPulse(h, p, i, content);
    var s, s' := SequenceNode(h, p), SequenceNode(h, q);
    WithPulseConsistent(h, p, i, content);
    InternalConsistent(h, PulseSequence, p.pulses, "pulse_sequence");
    InternalConsistent(h, PulseSequence, q.pulses, "pulse_sequence");
    PayloadsOfChild(h, s, i);
    PayloadsOfChild(h, s', i);
    TopPayload(h, p.pulses[i]);
    TopPayload(h, q.pulses[i]);
    PulseHashesDiffer(h, p, i, content);
    if s.hash == s'.hash { ReplacedHash(h, s, s', i); }
  }

  // of the experiment,
  lemma ExperimentHashChanges(h: Hashing, p: Parts, i: nat, content: Content)
    requires Faithful(h) && PartsConsistent(h, p) && Replaces(h, p, i, content)
    requires CollisionFree(h, Payloads(h, ExperimentNode(h, p))
      + Payloads(h, ExperimentNode(h, WithPulse(h, p, i, content))))
    ensures p.pulses[i].hash != Leaf(h, ScheduledPulse, content, p.pulses[i].name).hash
    ensures SequenceNode(h, p).hash != SequenceNode(h, WithPulse(h, p, i, content)).hash
    ensures ExperimentNode(h, p).hash != ExperimentNode(h, WithPulse(h, p, i, content)).hash
  {
    hide Faithful, Consistent, Leaf, HashInternal, Payloads, ExperimentNode, SequenceNode, PartsConsistent;
    var q := WithPulse(h, p, i, content);
    var e, e' := ExperimentNode(h, p), ExperimentNode(h, q);
    WithPulseConsistent(h, p, i, content);
    ExperimentConsistent(h, p);
    ExperimentConsistent(h, q);
    ExperimentChildren(h, p, q);
    PayloadsOfChild(h, e, 0);
    PayloadsOfChild(h, e', 0);
    SequenceHashChanges(h, p, i, content);
    if e.hash == e'.hash { ReplacedHash(h, e, e', 0); }
  }

  // and of the root.
  lemma ReplacedPulseChangesRoot(h: Hashing, calibration: Node, p: Parts, i: nat, content: Content)
    requires Faithful(h) && PartsConsistent(h, p) && Consistent(h, calibration) && Replaces(h, p, i, content)
    requires var q := WithPulse(h, p, i, content);
             CollisionFree(h, Payloads(h, RootNode(h, calibration, p)) + Payloads(h, RootNode(h, calibration, q)))
    ensures p.pulses[i].hash != Leaf(h, ScheduledPulse, content, p.pulses[i].name).hash
    ensures SequenceNode(h, p).hash != SequenceNode(h, WithPulse(h, p, i, content)).hash
    ensures ExperimentNode(h, p).hash != ExperimentNode(h, WithPulse(h, p, i, content)).hash
    ensures RootNode(h, calibration, p).hash != RootNode(h, calibration, WithPulse(h, p, i, content)).hash
  {
    hide Faithful, Consistent, Leaf, HashInternal, Payloads, ExperimentNode, SequenceNode, RootNode, PartsConsistent;
    var q := WithPulse(h, p, i, content);
    var r, r' := RootNode(h, calibration, p), RootNode(h, calibration, q);
    WithPulseConsistent(h, p, i, content);
    RootConsistent(h, calibration, p);
    RootConsistent(h, calibration, q);
    RootChildren(h, calibration, p, q);
    PayloadsOfChild(h, r, 1);
    PayloadsOfChild(h, r', 1);
    ExperimentHashChanges(h, p, i, content);
    if r.hash == r'.hash { ReplacedHash(h, r, r', 1); }
  }

  function SequenceNode(h: Hashing, p: Parts): Node {
    Section(h, PulseSequence, p.pulses, "pulse_sequence")
  }

  lemma ExperimentChildren(h: Hashing, p: Parts, q: Parts)
    requires q == p.(pulses := q.pulses)
    ensures var e, e' := ExperimentNode(h, p), ExperimentNode(h, q);
            && |e.children| == |e'.children| == 2 && e.children[0] == SequenceNode(h, p)
            && e'.children == e.children[0 := SequenceNode(h, q)] && e.children[1].kind == Config
            && e.kind == e'.kind == Experiment && e.name == e'.name == "experiment"
  {}

  lemma ExperimentConsistent(h: Hashing, p: Parts)
    requires PartsConsistent(h, p)
    ensures Consistent(h, ExperimentNode(h, p))
  {
    hide Consistent, Internal, Section;
    var sequence := Section(h, PulseSequence, p.pulses, "pulse_sequence");
    var config := Section(h, Config, Optional(p.grapeConfig) + Optional(p.software), "config");
    SectionConsistent(h, PulseSequence, p.pulses, "pulse_sequence");
    SectionConsistent(h, Config, Optional(p.grapeConfig) + Optional(p.software), "config");
    InternalConsistent(h, Experiment, [sequence, config], "experiment");
  }

  lemma RootChildren(h: Hashing, calibration: Node, p: Parts, q: Parts)
    requires q == p.(pulses := q.pulses)
    ensures var r, r' := RootNode(h, calibration, p), RootNode(h, calibration, q);
            && |r.children| == |r'.children| >= 2 && r.children[1] == ExperimentNode(h, p) && r.kind == r'.kind == Root
            && r'.children == r.children[1 := ExperimentNode(h, q)]
  {
    hide ExperimentNode;
  }

  lemma PulseHashesDiffer(h: Hashing, p: Parts, i: nat, content: Content)
    requires Faithful(h) && PartsConsistent(h, p) && Replaces(h, p, i, content)
    requires CollisionFree(h, {Payload(h, p.pulses[i]), Payload(h, Leaf(h, ScheduledPulse, content, p.pulses[i].name))})
    ensures p.pulses[i].hash != Leaf(h, ScheduledPulse, content, p.pulses[i].name).hash
  {
    hide Faithful, LeafPayload;
    var before, after := p.pulses[i], Leaf(h, ScheduledPulse, content, p.pulses[i].name);
    assert before in p.pulses;
    if before.hash == after.hash {
      assert Payload(h, before) == Payload(h, after);
      LeafPayloadInjective(h, before, after);
    }
  }

  // Two built trees that differ in the content of one pulse: the root hashes differ, and diff reports a change
  // exactly when no later pulse carries the same label.
  lemma ReplacedPulseReported(h: Hashing, calibration: Node, p: Parts, i: nat, content: Content)
    requires Faithful(h) && PartsConsistent(h, p) && Consistent(h, calibration) && calibration.kind == Calibration
    requires Replaces(h, p, i, content)
    requires var q := WithPulse(h, p, i, content);
             CollisionFree(h, Payloads(h, RootNode(h, calibration, p)) + Payloads(h, RootNode(h, calibration, q)))
    ensures var a, b := RootNode(h, calibration, p), RootNode(h, calibration, WithPulse(h, p, i, content));
            && a.hash != b.hash
            && (DiffNodes(a, b, "").changed != [] <==>
                  forall j :: i < j < |p.pulses| ==> p.pulses[j].name != p.pulses[i].name)
  {
    hide Faithful, Consistent, RootNode, ExperimentNode, HashInternal, Payloads, DiffNodes, PathOf, PartsConsistent;
    var q := WithPulse(h, p, i, content);
    var r, e, s := RootNode(h, calibration, p), ExperimentNode(h, p), SequenceNode(h, p);
    var r', e', s' := RootNode(h, calibration, q), ExperimentNode(h, q), SequenceNode(h, q);
    var rootPath := PathOf("", r);
    var experimentPath := PathOf(rootPath, e);
    ReplacedPulseChangesRoot(h, calibration, p, i, content);
    RootChildren(h, calibration, p, q);
    ExperimentChildren(h, p, q);
    ExperimentIsLast(h, calibration, p);
    ReplacementSeen(r, r', 1, "");
    ReplacementSeen(e, e', 0, rootPath);
    PulseKeys(h, p, i);
    ReplacementSeen(s, s', i, experimentPath);
    LeafDiff(h, p, i, content, PathOf(experimentPath, s));
  }

  lemma PulseKeys(h: Hashing, p: Parts, i: nat)
    requires PartsConsistent(h, p) && i < |p.pulses|
    ensures p.pulses[i].kind == ScheduledPulse
    ensures Last(p.pulses, i) <==> forall j :: i < j < |p.pulses| ==> p.pulses[j].name != p.pulses[i].name
  {
    hide Consistent;
    assert forall j :: 0 <= j < |p.pulses| ==> p.pulses[j] in p.pulses;
  }

  lemma ExperimentIsLast(h: Hashing, calibration: Node, p: Parts)
    requires PartsConsistent(h, p) && calibration.kind == Calibration
    ensures |RootNode(h, calibration, p).children| >= 2 && Last(RootNode(h, calibration, p).children, 1)
  {
    hide Consistent, ExperimentNode;
    ExperimentChildren(h, p, p);
    var rest := p.drifts + p.recalibrations + p.benchmarks;
    var c := RootNode(h, calibration, p).children;
    forall j | 1 < j < |c| ensures KeyOf(c[j]) != KeyOf(c[1]) {
      assert c[j] in p.drifts || c[j] in p.recalibrations || c[j] in p.benchmarks;
    }
  }

  lemma LeafDiff(h: Hashing, p: Parts, i: nat, content: Content, path: string)
    requires PartsConsistent(h, p) && Replaces(h, p, i, content)
    requires p.pulses[i].hash != Leaf(h, ScheduledPulse, content, p.pulses[i].name).hash
    ensures DiffNodes(p.pulses[i], Leaf(h, ScheduledPulse, content, p.pulses[i].name), path).changed != []
  {
    hide Consistent;
    assert p.pulses[i] in p.pulses;
  }

  // Two pulses "x_q0": editing the first leaves diff silent although the root hash changes.
  lemma LikePulsesHideAnEdit(h: Hashing)
    requires Faithful(h)
    requires CollisionFree(h, Payloads(h, TwoPulses(h, "a")) + Payloads(h, TwoPulses(h, "c")))
    ensures TwoPulses(h, "a").hash != TwoPulses(h, "c").hash
    ensures DiffNodes(TwoPulses(h, "a"), TwoPulses(h, "c"), "").changed == []
  {
    hide Faithful, Payloads, RootNode, DiffNodes, Consistent, Leaf;
    var p := TwoPulseParts(h, "a");
    var cal := CalibrationNode(h, [], []);
    LeafConsistent(h, ScheduledPulse, PulseContent("a"), "x_q0");
    LeafConsistent(h, ScheduledPulse, PulseContent("b"), "x_q0");
    LeafShape(h, ScheduledPulse, PulseContent("a"), "x_q0");
    LeafShape(h, ScheduledPulse, PulseContent("b"), "x_q0");
    InternalConsistent(h, Calibration, Leaves(h, QubitCalibration, []) + Leaves(h, CouplerCalibration, []),
                       "calibration");
    assert PulseContent("a")["pulse_id"] == JStr("a") && PulseContent("c")["pulse_id"] == JStr("c");
    assert WithPulse(h, p, 0, PulseContent("c")) == TwoPulseParts(h, "c");
    ReplacedPulseReported(h, cal, p, 0, PulseContent("c"));
    assert p.pulses[1].name == p.pulses[0].name;
  }

  function PulseContent(id: string): Content {
    map["pulse_id" := JStr(id)]
  }

  function TwoPulseParts(h: Hashing, first: string): Parts {
    Parts(None,
          [Leaf(h, ScheduledPulse, PulseContent(first), "x_q0"), Leaf(h, ScheduledPulse, PulseContent("b"), "x_q0")],
          None, None, [], [], [])
  }

  // What the builder makes of an empty calibration and two pulses that act alike
  function TwoPulses(h: Hashing, first: string): Node {
    RootNode(h, CalibrationNode(h, [], []), TwoPulseParts(h, first))
  }

  // ---------- the recursive procedure ----------

  // What one key contributes to the diff of two internal nodes
  function DiffKey(a: Node, b: Node, k: Key, path: string): Diff {
    var inA, inB := ByKey(a.children), ByKey(b.children);
    if k in inA && k in inB then DiffNodes(inA[k], inB[k], path)
    else if k in inA then Diff([Removed(k, inA[k], path)], [])
    else if k in inB then Diff([Added(k, inB[k], path)], [])
    else Diff([], [])
  }

  lemma DiffKeysStep(a: Node, b: Node, keys: seq<Key>, i: nat, path: string)
    requires i < |keys|
    ensures DiffKeys(a, b, keys[i..], path) == Both(DiffKey(a, b, keys[i], path), DiffKeys(a, b, keys[i + 1..], path))
  {
    hide ByKey, DiffNodes;
    assert keys[i..][0] == keys[i] && keys[i..][1..] == keys[i + 1..];
  }

  // Appends to the two shared lists.
  method DiffRecursive(a: Node, b: Node, path: string, changed: seq<NodeChange>, kept: seq<string>)
    returns (allChanged: seq<NodeChange>, allKept: seq<string>)
    ensures allChanged == changed + DiffNodes(a, b, path).changed
    ensures allKept == kept + DiffNodes(a, b, path).kept
    decreases a
  {
    hide ByKey, AllKeys, DiffKeys, LeafLabels, PathOf;
    allChanged, allKept := changed, kept;
    var currentPath := PathOf(path, a);
    if a.hash == b.hash {
      allKept := allKept + LeafLabels(a);
      return;
    }
    if a.children == [] && b.children == [] {
      allChanged := allChanged + [NodeChange(a.kind, currentPath, ShortHash(a), ShortHash(b), a.content, b.content)];
      return;
    }
    allChanged, allKept := DiffChildren(a, b, currentPath, allChanged, allKept);
  }

  method DiffChildren(a: Node, b: Node, path: string, changed: seq<NodeChange>, kept: seq<string>)
    returns (allChanged: seq<NodeChange>, allKept: seq<string>)
    ensures var d := DiffKeys(a, b, AllKeys(a.children + b.children), path);
      allChanged == changed + d.changed && allKept == kept + d.kept
    decreases a, 0
  {
    hide ByKey, AllKeys, DiffNodes, DiffKeys;
    allChanged, allKept := changed, kept;
    var aChildren, bChildren := ByKey(a.children), ByKey(b.children);
    var keys := AllKeys(a.children + b.children);
    ghost var whole := DiffKeys(a, b, keys, path);
    assert keys[0..] == keys;
    var i := 0;
    while i < |keys|
      invariant 0 <= i <= |keys|
      invariant changed + whole.changed == allChanged + DiffKeys(a, b, keys[i..], path).changed
      invariant kept + whole.kept == allKept + DiffKeys(a, b, keys[i..], path).kept
    {
      var k := keys[i];
      DiffKeysStep(a, b, keys, i, path);
      ghost var d, rest := DiffKey(a, b, k, path), DiffKeys(a, b, keys[i + 1..], path);
      assert allChanged + (d.changed + rest.changed) == (allChanged + d.changed) + rest.changed;
      assert allKept + (d.kept + rest.kept) == (allKept + d.kept) + rest.kept;
      if k in aChildren && k in bChildren {
        MapChild(a, k);
        allChanged, allKept := DiffRecursive(aChildren[k], bChildren[k], path, allChanged, allKept);
      } else if k in aChildren {
        allChanged := allChanged + [Removed(k, aChildren[k], path)];
      } else if k in bChildren {
        allChanged := allChanged + [Added(k, bChildren[k], path)];
      }
      i := i + 1;
    }
    DiffNoKeys(a, b, keys[i..], path);
  }

  lemma DiffNoKeys(a: Node, b: Node, keys: seq<Key>, path: string)
    requires keys == []
    ensures DiffKeys(a, b, keys, path) == Diff([], [])
  {}

  datatype ProvenanceTree = ProvenanceTree(root: Node, timestamp: string, metadata: Content)

  datatype ProvenanceDiff = ProvenanceDiff(hashA: string, hashB: string, changed: seq<NodeChange>, kept: seq<string>)

  method DiffTrees(a: ProvenanceTree, b: ProvenanceTree) returns (d: ProvenanceDiff)
    ensures d.hashA == a.root.hash && d.hashB == b.root.hash
    ensures Diff(d.changed, d.kept) == DiffNodes(a.root, b.root, "")
  {
    if a.root.hash == b.root.hash {
      return ProvenanceDiff(a.root.hash, b.root.hash, [], LeafLabels(a.root));
    }
    var changed, kept := DiffRecursive(a.root, b.root, "", [], []);
    d := ProvenanceDiff(a.root.hash, b.root.hash, changed, kept);
  }

  // ---------- dictionary form ----------

  // Optional entries may be missing from a dictionary; from_dict falls back to defaults for them.
  datatype NodeDict =
    | LeafDict(nodeType: string, hash: string, name: Option<string>, content: Option<Content>)
    | InternalDict(nodeType: string, hash: string, name: Option<string>, children: seq<NodeDict>)

  datatype TreeDict = TreeDict(version: string, rootHash: string, timestamp: Option<string>, metadata: Option<Content>,
                               tree: NodeDict)

  function NodeToDict(n: Node): NodeDict {
    if n.children == [] then LeafDict(TypeName(n.kind), n.hash, Some(n.name), Some(n.content))
    else InternalDict(TypeName(n.kind), n.hash, Some(n.name),
                      seq(|n.children|, i requires 0 <= i < |n.children| => NodeToDict(n.children[i])))
  }

  function TreeToDict(t: ProvenanceTree): TreeDict {
    TreeDict("1.0", t.root.hash, Some(t.timestamp), Some(t.metadata), NodeToDict(t.root))
  }

  const KINDS := [Root, Calibration, QubitCalibration, CouplerCalibration, Experiment, PulseSequence, ScheduledPulse,
                  Config, GrapeConfig, SoftwareVersion, DriftEvent, Recalibration, Benchmarking]

  // NodeType(value): the member with that value, else ValueError
  function ParseKind(s: string, candidates: seq<NodeType>): Result<NodeType> {
    if candidates == [] then Err("not a valid NodeType")
    else if TypeName(candidates[0]) == s then Ok(candidates[0])
    else ParseKind(s, candidates[1..])
  }

  function Default<T>(o: Option<T>, d: T): T {
    if o.Some? then o.value else d
  }

  function NodeFromDict(d: NodeDict): Result<Node> {
    var kind := ParseKind(d.nodeType, KINDS);
    if kind.Err? then Err(kind.reason)
    else if d.InternalDict? then
      var children := NodesFromDicts(d.children);
      if children.Err? then Err(children.reason)
      else Ok(Node(kind.value, d.hash, children.value, map[], Default(d.name, "")))
    else Ok(Node(kind.value, d.hash, [], Default(d.content, map[]), Default(d.name, "")))
  }

  function NodesFromDicts(ds: seq<NodeDict>): Result<seq<Node>> {
    if ds == [] then Ok([])
    else
      var first := NodeFromDict(ds[0]);
      if first.Err? then Err(first.reason)
      else
        var rest := NodesFromDicts(ds[1..]);
        if rest.Err? then rest else Ok([first.value] + rest.value)
  }

  function TreeFromDict(d: TreeDict): Result<ProvenanceTree> {
    var root := NodeFromDict(d.tree);
    if root.Err? then Err(root.reason)
    else Ok(ProvenanceTree(root.value, Default(d.timestamp, ""), Default(d.metadata, map[])))
  }

  // The class docstring's rule: internal nodes carry no content.
  ghost predicate ContentOnLeaves(n: Node) {
    (n.children != [] ==> n.content == map[]) && forall i :: 0 <= i < |n.children| ==> ContentOnLeaves(n.children[i])
  }

  lemma {:induction false} ParseKindFinds(k: NodeType, candidates: seq<NodeType>)
    requires k in candidates
    ensures ParseKind(TypeName(k), candidates) == Ok(k)
  {
    hide TypeName;
    if TypeName(candidates[0]) == TypeName(k) {
      TypeNamesDistinct(candidates[0], k);
    } else {
      ParseKindFinds(k, candidates[1..]);
    }
  }

  lemma KindsComplete(k: NodeType)
    ensures k in KINDS
  {
    var order := match k
      case Root => 0 case Calibration => 1 case QubitCalibration => 2 case CouplerCalibration => 3 case Experiment => 4
      case PulseSequence => 5 case ScheduledPulse => 6 case Config => 7 case GrapeConfig => 8 case SoftwareVersion => 9
      case DriftEvent => 10 case Recalibration => 11 case Benchmarking => 12;
    assert KINDS[order] == k;
  }

  // Reading back what was written gives the same node exactly when no internal node holds content.
  lemma {:induction false} NodeRoundTrip(n: Node)
    ensures NodeFromDict(NodeToDict(n)).Ok?
    ensures NodeFromDict(NodeToDict(n)) == Ok(n) <==> ContentOnLeaves(n)
    decreases n, 1
  {
    hide TypeName;
    KindsComplete(n.kind);
    ParseKindFinds(n.kind, KINDS);
    if n.children != [] {
      forall c | c in n.children ensures c < n {}
      NodesRoundTrip(n, n.children);
      assert NodeToDict(n).children == Dicts(n.children);
    }
  }

  function Dicts(nodes: seq<Node>): (r: seq<NodeDict>)
    ensures |r| == |nodes| && forall i :: 0 <= i < |nodes| ==> r[i] == NodeToDict(nodes[i])
  {
    seq(|nodes|, i requires 0 <= i < |nodes| => NodeToDict(nodes[i]))
  }

  lemma {:induction false} NodesRoundTrip(parent: Node, nodes: seq<Node>)
    requires forall n :: n in nodes ==> n < parent
    ensures NodesFromDicts(Dicts(nodes)).Ok?
    ensures NodesFromDicts(Dicts(nodes)) == Ok(nodes) <==> forall i :: 0 <= i < |nodes| ==> ContentOnLeaves(nodes[i])
    decreases parent, 0, |nodes|
  {
    hide ContentOnLeaves, NodeToDict, NodeFromDict;
    if nodes != [] {
      assert nodes[0] in nodes;
      NodeRoundTrip(nodes[0]);
      assert forall n :: n in nodes[1..] ==> n in nodes;
      NodesRoundTrip(parent, nodes[1..]);
      assert Dicts(nodes)[1..] == Dicts(nodes[1..]);
      var first, rest := NodeFromDict(NodeToDict(nodes[0])).value, NodesFromDicts(Dicts(nodes[1..])).value;
      SplitHead(first, rest, nodes);
      AllSplit(nodes);
    }
  }

  lemma SplitHead(first: Node, rest: seq<Node>, nodes: seq<Node>)
    requires nodes != []
    ensures [first] + rest == nodes <==> first == nodes[0] && rest == nodes[1..]
  {
    assert ([first] + rest)[1..] == rest;
  }

  lemma AllSplit(nodes: seq<Node>)
    requires nodes != []
    ensures (forall i :: 0 <= i < |nodes| ==> ContentOnLeaves(nodes[i])) <==>
            ContentOnLeaves(nodes[0]) && forall i :: 0 <= i < |nodes| - 1 ==> ContentOnLeaves(nodes[1..][i])
  {
    hide ContentOnLeaves;
    assert forall i :: 0 < i < |nodes| ==> nodes[i] == nodes[1..][i - 1];
  }

  lemma TreeRoundTrip(t: ProvenanceTree)
    ensures TreeFromDict(TreeToDict(t)) == Ok(t) <==> ContentOnLeaves(t.root)
  {
    hide NodeToDict, NodeFromDict, ContentOnLeaves;
    NodeRoundTrip(t.root);
  }

  lemma {:induction false} ConsistentContent(h: Hashing, n: Node)
    requires Consistent(h, n)
    ensures ContentOnLeaves(n)
  {
    hide Payload;
    forall i | 0 <= i < |n.children| ensures ContentOnLeaves(n.children[i]) {
      ConsistentContent(h, n.children[i]);
    }
  }

  lemma ConsistentRoundTrip(h: Hashing, t: ProvenanceTree)
    requires Consistent(h, t.root)
    ensures TreeFromDict(TreeToDict(t)) == Ok(t)
  {
    ConsistentContent(h, t.root);
    TreeRoundTrip(t);
  }
}
