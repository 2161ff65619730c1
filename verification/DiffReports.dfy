// Which changes a diff reports, and what exchanging its trees does: core/src/qubitos/provenance/tree.py.
module DiffReports {
  import opened Provenance
  import opened ProvenanceDiff

  // Old and new are exchanged, and so are added and removed.
  predicate Mirror(c: NodeChange, d: NodeChange) {
    && d.kind == c.kind && d.path == c.path && d.oldContent == c.newContent && d.newContent == c.oldContent
    && (d.oldHash == c.newHash || (c.newHash == "(removed)" && d.oldHash == "(added)"))
    && (d.newHash == c.oldHash || (c.oldHash == "(added)" && d.newHash == "(removed)"))
  }

  predicate Mirrors(s: seq<NodeChange>, t: seq<NodeChange>) {
    |s| == |t| && forall i :: 0 <= i < |s| ==> Mirror(s[i], t[i])
  }

  lemma MirrorsConcat(s: seq<NodeChange>, t: seq<NodeChange>, u: seq<NodeChange>, v: seq<NodeChange>)
    requires Mirrors(s, t) && Mirrors(u, v)
    ensures Mirrors(s + u, t + v)
  {
    hide Mirror;
  }

  // Strictly ascending lists of the same keys are one list.
  lemma {:induction false} AscendingUnique(s: seq<Key>, t: seq<Key>)
    requires Ascending(s) && Ascending(t) && forall k :: k in s <==> k in t
    ensures s == t
  {
    hide KeyLeq;
    assert (s != [] ==> s[0] in s) && (t != [] ==> t[0] in t);
    if s != [] && t != [] {
      SameHead(s, t);
      forall k ensures k in s[1..] <==> k in t[1..] {
        TailMembers(s, k);
        TailMembers(t, k);
      }
      assert Ascending(s[1..]) && Ascending(t[1..]);
      AscendingUnique(s[1..], t[1..]);
      assert s == [s[0]] + s[1..] && t == [t[0]] + t[1..];
    }
  }

  lemma SameHead(s: seq<Key>, t: seq<Key>)
    requires Ascending(s) && Ascending(t) && s != [] && t != [] && forall k :: k in s <==> k in t
    ensures s[0] == t[0]
  {
    hide KeyLeq;
    assert s[0] in s && t[0] in t;
    var i :| 0 <= i < |t| && t[i] == s[0];
    var j :| 0 <= j < |s| && s[j] == t[0];
    if i > 0 && j > 0 { KeyLeqAntisymmetric(s[0], t[0]); }
  }

  lemma TailMembers(s: seq<Key>, k: Key)
    requires Ascending(s) && s != []
    ensures k in s[1..] <==> k in s && k != s[0]
  {
    hide KeyLeq;
    assert s == [s[0]] + s[1..];
    forall i | 0 <= i < |s[1..]| ensures s[1..][i] != s[0] {
      assert s[1..][i] == s[i + 1];
    }
  }

  lemma SameKeys(s: seq<Node>, t: seq<Node>)
    ensures AllKeys(s + t) == AllKeys(t + s)
  {
    hide Ascending, AllKeys;
    AllKeysAscending(s + t);
    AllKeysAscending(t + s);
    forall k ensures k in AllKeys(s + t) <==> k in AllKeys(t + s) {
      assert forall n :: n in s + t <==> n in t + s;
    }
    AscendingUnique(AllKeys(s + t), AllKeys(t + s));
  }

  // Exchanging two trees of one type and label exchanges old and new in every reported change, in the same order.
  lemma {:induction false} DiffMirrored(a: Node, b: Node, path: string)
    requires KeyOf(a) == KeyOf(b)
    ensures Mirrors(DiffNodes(a, b, path).changed, DiffNodes(b, a, path).changed)
    decreases a, 1, 0
  {
    hide ByKey, AllKeys, DiffKeys;
    if a.hash != b.hash && (a.children != [] || b.children != []) {
      SameKeys(a.children, b.children);
      KeysMirrored(a, b, AllKeys(a.children + b.children), PathOf(path, a));
    }
  }

  lemma {:induction false} KeysMirrored(a: Node, b: Node, keys: seq<Key>, path: string)
    ensures Mirrors(DiffKeys(a, b, keys, path).changed, DiffKeys(b, a, keys, path).changed)
    decreases a, 0, |keys|
  {
    hide ByKey, DiffNodes;
    if keys != [] {
      var k := keys[0];
      KeysMirrored(a, b, keys[1..], path);
      var s, t := DiffKey(a, b, k, path).changed, DiffKey(b, a, k, path).changed;
      assert Mirrors(s, t) by {
        if k in ByKey(a.children) && k in ByKey(b.children) {
          MapChild(a, k);
          MapChild(b, k);
          DiffMirrored(ByKey(a.children)[k], ByKey(b.children)[k], path);
        }
      }
      assert keys[0..] == keys;
      DiffKeysStep(a, b, keys, 0, path);
      DiffKeysStep(b, a, keys, 0, path);
      MirrorsConcat(s, t, DiffKeys(a, b, keys[1..], path).changed, DiffKeys(b, a, keys[1..], path).changed);
    }
  }

  // ---------- one replaced node ----------

  // If every other key is silent, the changes are those of one key.
  lemma {:induction false} OnlyKey(a: Node, b: Node, keys: seq<Key>, path: string, k: Key)
    requires Ascending(keys) && k in keys
    requires forall x :: x in keys && x != k ==> DiffKey(a, b, x, path).changed == []
    ensures DiffKeys(a, b, keys, path).changed == DiffKey(a, b, k, path).changed
  {
    hide ByKey, DiffNodes, DiffKey, KeyLeq, DiffKeys;
    assert keys[0..] == keys;
    DiffKeysStep(a, b, keys, 0, path);
    forall x | x in keys[1..] ensures x in keys && x != keys[0] { TailMembers(keys, x); }
    if k == keys[0] {
      OtherKeys(a, b, keys[1..], path);
    } else {
      assert Ascending(keys[1..]);
      OnlyKey(a, b, keys[1..], path, k);
    }
  }

  lemma {:induction false} OtherKeys(a: Node, b: Node, keys: seq<Key>, path: string)
    requires forall x :: x in keys ==> DiffKey(a, b, x, path).changed == []
    ensures DiffKeys(a, b, keys, path).changed == []
  {
    hide ByKey, DiffNodes, DiffKey;
    if keys != [] {
      hide DiffKeys;
      assert keys[0..] == keys && keys[0] in keys;
      DiffKeysStep(a, b, keys, 0, path);
      OtherKeys(a, b, keys[1..], path);
    }
  }

  // Replacing the last child of its type and label reports exactly what the two children report.
  lemma ReplacementExact(a: Node, b: Node, i: nat, path: string)
    requires i < |a.children| && |b.children| == |a.children| && b.children == a.children[i := b.children[i]]
    requires KeyOf(b.children[i]) == KeyOf(a.children[i]) && a.hash != b.hash && Last(a.children, i)
    ensures DiffNodes(a, b, path).changed == DiffNodes(a.children[i], b.children[i], PathOf(path, a)).changed
  {
    hide ByKey, AllKeys, PathOf, DiffKeys, KeyLeq;
    var here, keys, k := PathOf(path, a), AllKeys(a.children + b.children), KeyOf(a.children[i]);
    ByKeyIsLast(a.children);
    ByKeyIsLast(b.children);
    assert Last(b.children, i) && a.children[i] in a.children;
    KeyListed(a, b, k);
    AllKeysAscending(a.children + b.children);
    forall x | x in keys && x != k ensures DiffKey(a, b, x, here).changed == [] {
      LastOrReplaced(a.children, b.children, i, x);
    }
    OnlyKey(a, b, keys, here, k);
  }

  // Two built trees that differ in one pulse, the last of its label: diff reports that change and nothing else, with
  // its path, both shortened hashes and both contents.
  lemma ReplacedPulseExactly(h: Hashing, calibration: Node, p: Parts, i: nat, content: Content)
    requires Faithful(h) && PartsConsistent(h, p) && Consistent(h, calibration) && calibration.kind == Calibration
    requires Replaces(h, p, i, content)
    requires var q := WithPulse(h, p, i, content);
             CollisionFree(h, Payloads(h, RootNode(h, calibration, p)) + Payloads(h, RootNode(h, calibration, q)))
    requires forall j :: i < j < |p.pulses| ==> p.pulses[j].name != p.pulses[i].name
    ensures var a, b := RootNode(h, calibration, p), RootNode(h, calibration, WithPulse(h, p, i, content));
            var before, after := p.pulses[i], Leaf(h, ScheduledPulse, content, p.pulses[i].name);
            DiffNodes(a, b, "").changed ==
            [NodeChange(ScheduledPulse, PulsePath(before.name), ShortHash(before), ShortHash(after), before.content,
                        content)]
  {
    hide Faithful, Consistent, RootNode, ExperimentNode, HashInternal, Payloads, DiffNodes, PathOf, PartsConsistent,
      PulsePath;
    var q := WithPulse(h, p, i, content);
    var r, e, s := RootNode(h, calibration, p), ExperimentNode(h, p), SequenceNode(h, p);
    var r', e', s' := RootNode(h, calibration, q), ExperimentNode(h, q), SequenceNode(h, q);
    var rootPath := PathOf("", r);
    var experimentPath := PathOf(rootPath, e);
    ReplacedPulseChangesRoot(h, calibration, p, i, content);
    RootChildren(h, calibration, p, q);
    ExperimentChildren(h, p, q);
    ExperimentIsLast(h, calibration, p);
    ReplacementExact(r, r', 1, "");
    ReplacementExact(e, e', 0, rootPath);
    PulseKeys(h, p, i);
    ReplacementExact(s, s', i, experimentPath);
    LeafReports(h, p, i, content, PathOf(experimentPath, s));
    RootName(h, calibration, p);
    PathsAre(r, e, s, p.pulses[i]);
  }

  function PulsePath(name: string): string {
    TypeName(Root) + "/experiment/pulse_sequence" + if name != "" then "/" + name else ""
  }

  lemma RootName(h: Hashing, calibration: Node, p: Parts)
    ensures RootNode(h, calibration, p).name == ""
  {}

  lemma PathsAre(r: Node, e: Node, s: Node, n: Node)
    requires r.kind == Root && r.name == "" && e.name == "experiment" && s.name == "pulse_sequence"
    ensures PathOf(PathOf(PathOf(PathOf("", r), e), s), n) == PulsePath(n.name)
  {
    TypeNamesPlain(Root);
    hide TypeName;
    var x := TypeName(Root);
    assert PathOf("", r) == x;
    assert PathOf(x, e) == x + "/" + "experiment";
    assert x + "/" + "experiment" + "/" + "pulse_sequence" == x + "/experiment/pulse_sequence";
  }

  lemma LeafReports(h: Hashing, p: Parts, i: nat, content: Content, path: string)
    requires PartsConsistent(h, p) && Replaces(h, p, i, content)
    requires p.pulses[i].hash != Leaf(h, ScheduledPulse, content, p.pulses[i].name).hash
    ensures var before, after := p.pulses[i], Leaf(h, ScheduledPulse, content, p.pulses[i].name);
            DiffNodes(before, after, path).changed ==
            [NodeChange(ScheduledPulse, PathOf(path, before), ShortHash(before), ShortHash(after), before.content,
                        content)]
  {
    hide Consistent, PathOf;
    assert p.pulses[i] in p.pulses;
  }
}
