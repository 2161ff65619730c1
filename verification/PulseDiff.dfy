// When the diff of two built trees says nothing about their pulses: core/src/qubitos/provenance/tree.py.
module PulseDiff {
  import opened Strings
  import opened Provenance
  import opened ProvenanceDiff

  // For every label in use, the hash of the last pulse that carries it
  function LastPulses(s: seq<Node>): map<string, string> {
    if s == [] then map[] else LastPulses(s[..|s| - 1])[s[|s| - 1].name := s[|s| - 1].hash]
  }

  lemma {:induction false} LastPulsesAre(s: seq<Node>)
    ensures forall x :: x in LastPulses(s) <==> exists n :: n in s && n.name == x
    ensures forall i :: 0 <= i < |s| && (forall j :: i < j < |s| ==> s[j].name != s[i].name) ==>
      LastPulses(s)[s[i].name] == s[i].hash
  {
    if s != [] {
      var front, last := s[..|s| - 1], s[|s| - 1];
      LastPulsesAre(front);
      assert s == front + [last];
      forall i | 0 <= i < |s| && (forall j :: i < j < |s| ==> s[j].name != s[i].name)
        ensures LastPulses(s)[s[i].name] == s[i].hash
      {
        if i < |front| { assert front[i] == s[i] && s[|s| - 1].name != s[i].name; }
      }
    }
  }

  // The dictionary of the children says the same when all have one type.
  lemma {:induction false} ByLabel(s: seq<Node>, kind: NodeType)
    requires forall n :: n in s ==> n.kind == kind
    ensures forall k :: k in ByKey(s) <==> k.kind == kind && k.name in LastPulses(s)
    ensures forall k :: k in ByKey(s) ==> ByKey(s)[k].hash == LastPulses(s)[k.name]
  {
    if s != [] {
      ByLabel(s[..|s| - 1], kind);
      assert s[|s| - 1] in s;
    }
  }

  lemma LeafDiffers(a: Node, b: Node, path: string)
    requires a.children == [] && b.children == []
    ensures DiffNodes(a, b, path).changed == [] <==> a.hash == b.hash
  {}

  // Leaves of one type: the diff of their parents is silent exactly when the last hash under every label agrees.
  lemma LeavesSilent(a: Node, b: Node, kind: NodeType, path: string)
    requires a.hash != b.hash && (a.children != [] || b.children != [])
    requires forall n :: n in a.children + b.children ==> n.children == [] && n.kind == kind
    ensures DiffNodes(a, b, path).changed == [] <==> LastPulses(a.children) == LastPulses(b.children)
  {
    hide ByKey, AllKeys, PathOf, LastPulses, DiffKeys;
    var s, t := a.children, b.children;
    var keys, here := AllKeys(s + t), PathOf(path, a);
    ByLabel(s, kind);
    ByLabel(t, kind);
    if DiffNodes(a, b, path).changed == [] {
      forall x | x in LastPulses(s) || x in LastPulses(t)
        ensures x in LastPulses(s) && x in LastPulses(t) && LastPulses(s)[x] == LastPulses(t)[x]
      {
        SilentKey(a, b, keys, here, Key(kind, x));
      }
      assert LastPulses(s) == LastPulses(t);
    }
    if LastPulses(s) == LastPulses(t) {
      forall k | k in keys
        ensures k in ByKey(s) && k in ByKey(t) && DiffNodes(ByKey(s)[k], ByKey(t)[k], here).changed == []
      {
        ListedKey(a, b, k);
        MapChild(a, k);
        MapChild(b, k);
        LeafDiffers(ByKey(s)[k], ByKey(t)[k], here);
      }
      KeysQuiet(a, b, keys, here);
    }
  }

  lemma SilentKey(a: Node, b: Node, keys: seq<Key>, path: string, k: Key)
    requires keys == AllKeys(a.children + b.children) && DiffKeys(a, b, keys, path).changed == []
    requires forall n :: n in a.children + b.children ==> n.children == []
    requires k in ByKey(a.children) || k in ByKey(b.children)
    ensures k in ByKey(a.children) && k in ByKey(b.children)
    ensures ByKey(a.children)[k].hash == ByKey(b.children)[k].hash
  {
    hide ByKey, AllKeys, DiffNodes, DiffKeys;
    KeyListed(a, b, k);
    QuietKeys(a, b, keys, path, k);
    MapChild(a, k);
    MapChild(b, k);
    LeafDiffers(ByKey(a.children)[k], ByKey(b.children)[k], path);
  }

  lemma ListedKey(a: Node, b: Node, k: Key)
    requires k in AllKeys(a.children + b.children)
    ensures k in ByKey(a.children) || k in ByKey(b.children)
  {
    hide ByKey;
    ByKeyIsLast(a.children);
    ByKeyIsLast(b.children);
  }

  // ---------- from the pulses to the root ----------

  // Equal hashes below give equal hashes above.
  lemma HashesUp(h: Hashing, calibration: Node, p: Parts, q: Parts)
    requires q == p.(pulses := q.pulses)
    ensures SequenceNode(h, p).hash == SequenceNode(h, q).hash ==>
      ExperimentNode(h, p).hash == ExperimentNode(h, q).hash
    ensures ExperimentNode(h, p).hash == ExperimentNode(h, q).hash ==>
      RootNode(h, calibration, p).hash == RootNode(h, calibration, q).hash
  {
    hide Section, HashInternal;
    var config := Section(h, Config, Optional(p.grapeConfig) + Optional(p.software), "config");
    var s, t := [SequenceNode(h, p), config], [SequenceNode(h, q), config];
    if SequenceNode(h, p).hash == SequenceNode(h, q).hash { assert Hashes(s) == Hashes(t); }
    var e, f := [calibration, ExperimentNode(h, p)] + p.drifts + p.recalibrations + p.benchmarks,
      [calibration, ExperimentNode(h, q)] + p.drifts + p.recalibrations + p.benchmarks;
    if ExperimentNode(h, p).hash == ExperimentNode(h, q).hash { assert Hashes(e) == Hashes(f); }
  }

  lemma EqualHashSilent(a: Node, b: Node, path: string)
    requires a.hash == b.hash
    ensures DiffNodes(a, b, path).changed == []
  {}

  // Two built trees that differ in their pulse lists: diff is silent exactly when the root hashes agree or both
  // lists have the same labels with the same last hash under each.
  lemma PulsesSilent(h: Hashing, calibration: Node, p: Parts, q: Parts)
    requires PartsConsistent(h, p) && PartsConsistent(h, q) && q == p.(pulses := q.pulses)
    requires calibration.kind == Calibration
    ensures var a, b := RootNode(h, calibration, p), RootNode(h, calibration, q);
      DiffNodes(a, b, "").changed == [] <==> a.hash == b.hash || LastPulses(p.pulses) == LastPulses(q.pulses)
  {
    hide Consistent, RootNode, ExperimentNode, HashInternal, PathOf, PartsConsistent, LastPulses, DiffKeys, Section,
      SequenceNode, DiffNodes;
    var r, e, s := RootNode(h, calibration, p), ExperimentNode(h, p), SequenceNode(h, p);
    var r', e', s' := RootNode(h, calibration, q), ExperimentNode(h, q), SequenceNode(h, q);
    if r.hash == r'.hash {
      EqualHashSilent(r, r', "");
    } else {
      var rootPath := PathOf("", r);
      var experimentPath := PathOf(rootPath, e);
      HashesUp(h, calibration, p, q);
      RootChildren(h, calibration, p, q);
      ExperimentChildren(h, p, q);
      ExperimentIsLast(h, calibration, p);
      SequenceShape(h, p);
      SequenceShape(h, q);
      ReplacementSeen(r, r', 1, "");
      ReplacementSeen(e, e', 0, rootPath);
      LeavesSilent(s, s', ScheduledPulse, experimentPath);
    }
  }

  lemma SequenceShape(h: Hashing, p: Parts)
    requires PartsConsistent(h, p)
    ensures var s := SequenceNode(h, p);
            && s.kind == PulseSequence && s.name == "pulse_sequence" && s.children == p.pulses
            && (p.pulses == [] ==> s == Leaf(h, PulseSequence, EMPTY, "pulse_sequence"))
            && forall n :: n in p.pulses ==> n.children == [] && n.kind == ScheduledPulse
  {
    hide Consistent;
  }

  // Without a collision the root hashes agree exactly when the pulses have the same hashes, in any order.
  lemma SameRootExactly(h: Hashing, calibration: Node, p: Parts, q: Parts)
    requires Faithful(h) && PartsConsistent(h, p) && PartsConsistent(h, q) && q == p.(pulses := q.pulses)
    requires Consistent(h, calibration)
    requires CollisionFree(h, Payloads(h, RootNode(h, calibration, p)) + Payloads(h, RootNode(h, calibration, q)))
    ensures RootNode(h, calibration, p).hash == RootNode(h, calibration, q).hash <==>
            multiset(Hashes(p.pulses)) == multiset(Hashes(q.pulses))
  {
    hide Faithful, Consistent, Payloads, RootNode, ExperimentNode, SequenceNode, Hashes;
    var r, e := RootNode(h, calibration, p), ExperimentNode(h, p);
    var r', e' := RootNode(h, calibration, q), ExperimentNode(h, q);
    if r.hash == r'.hash {
      RootConsistent(h, calibration, p);
      RootConsistent(h, calibration, q);
      RootChildren(h, calibration, p, q);
      ExperimentChildren(h, p, q);
      ExperimentConsistent(h, p);
      ExperimentConsistent(h, q);
      PayloadsOfChild(h, r, 1);
      PayloadsOfChild(h, r', 1);
      ReplacedHash(h, r, r', 1);
      PayloadsOfChild(h, e, 0);
      PayloadsOfChild(h, e', 0);
      ReplacedHash(h, e, e', 0);
      SequenceHashed(h, p, q);
    }
    if multiset(Hashes(p.pulses)) == multiset(Hashes(q.pulses)) {
      SamePulseHashes(h, p, q);
      HashesUp(h, calibration, p, q);
    }
  }

  lemma SamePulseHashes(h: Hashing, p: Parts, q: Parts)
    requires multiset(Hashes(p.pulses)) == multiset(Hashes(q.pulses))
    ensures SequenceNode(h, p).hash == SequenceNode(h, q).hash
  {
    hide TypeName, Join, Sort;
    assert |multiset(Hashes(p.pulses))| == |p.pulses| && |multiset(Hashes(q.pulses))| == |q.pulses|;
    SortCanonical(Hashes(p.pulses), Hashes(q.pulses));
  }

  lemma SequenceHashed(h: Hashing, p: Parts, q: Parts)
    requires Faithful(h) && PartsConsistent(h, p) && PartsConsistent(h, q)
    requires CollisionFree(h, Payloads(h, SequenceNode(h, p)) + Payloads(h, SequenceNode(h, q)))
    requires SequenceNode(h, p).hash == SequenceNode(h, q).hash
    ensures multiset(Hashes(p.pulses)) == multiset(Hashes(q.pulses))
  {
    hide Faithful, LeafPayload, InternalPayload, Payloads, Words;
    var s, t := SequenceNode(h, p), SequenceNode(h, q);
    SectionConsistent(h, PulseSequence, p.pulses, "pulse_sequence");
    SectionConsistent(h, PulseSequence, q.pulses, "pulse_sequence");
    TopPayload(h, s);
    TopPayload(h, t);
    assert Payload(h, s) == Payload(h, t);
    HashWords(h, s);
    HashWords(h, t);
    if p.pulses != [] && q.pulses != [] {
      InternalPayloadInjective(PulseSequence, Hashes(p.pulses), PulseSequence, Hashes(q.pulses));
    } else if p.pulses != [] {
      PayloadsDisjoint(h, PulseSequence, EMPTY, PulseSequence, Hashes(p.pulses));
    } else if q.pulses != [] {
      PayloadsDisjoint(h, PulseSequence, EMPTY, PulseSequence, Hashes(q.pulses));
    }
  }

  // In terms of the pulses alone
  lemma PulsesSilentExactly(h: Hashing, calibration: Node, p: Parts, q: Parts)
    requires Faithful(h) && PartsConsistent(h, p) && PartsConsistent(h, q) && q == p.(pulses := q.pulses)
    requires Consistent(h, calibration) && calibration.kind == Calibration
    requires CollisionFree(h, Payloads(h, RootNode(h, calibration, p)) + Payloads(h, RootNode(h, calibration, q)))
    ensures DiffNodes(RootNode(h, calibration, p), RootNode(h, calibration, q), "").changed == [] <==>
            multiset(Hashes(p.pulses)) == multiset(Hashes(q.pulses)) || LastPulses(p.pulses) == LastPulses(q.pulses)
  {
    hide *;
    PulsesSilent(h, calibration, p, q);
    SameRootExactly(h, calibration, p, q);
  }

  // Dropping the first of two pulses "x_q0" changes the root hash and is not reported.
  lemma DroppedPulseHidden(h: Hashing)
    requires Faithful(h)
    requires CollisionFree(h, Payloads(h, TwoPulses(h, "a")) + Payloads(h, SecondPulse(h)))
    ensures TwoPulses(h, "a").hash != SecondPulse(h).hash
    ensures DiffNodes(TwoPulses(h, "a"), SecondPulse(h), "").changed == []
  {
    hide Faithful, Payloads, RootNode, DiffNodes, Consistent, Leaf, LastPulses;
    var p, cal := TwoPulseParts(h, "a"), CalibrationNode(h, [], []);
    var q := p.(pulses := p.pulses[1..]);
    LeafConsistent(h, ScheduledPulse, PulseContent("a"), "x_q0");
    LeafConsistent(h, ScheduledPulse, PulseContent("b"), "x_q0");
    LeafShape(h, ScheduledPulse, PulseContent("a"), "x_q0");
    LeafShape(h, ScheduledPulse, PulseContent("b"), "x_q0");
    InternalConsistent(h, Calibration, Leaves(h, QubitCalibration, []) + Leaves(h, CouplerCalibration, []),
                       "calibration");
    SameRootExactly(h, cal, p, q);
    assert |multiset(Hashes(p.pulses))| == 2 && |multiset(Hashes(q.pulses))| == 1;
    TwoThenOne(p.pulses[0], p.pulses[1]);
    PulsesSilent(h, cal, p, q);
  }

  lemma TwoThenOne(m: Node, n: Node)
    requires m.name == n.name
    ensures LastPulses([m, n]) == LastPulses([n])
  {
    assert [m, n][..1] == [m] && [m][..0] == [] && [n][..0] == [];
  }

  // What the builder makes of an empty calibration and the second pulse alone
  function SecondPulse(h: Hashing): Node {
    var p := TwoPulseParts(h, "a");
    RootNode(h, CalibrationNode(h, [], []), p.(pulses := p.pulses[1..]))
  }
}
