// The pulse sequence builder and its validation: hal/src/temporal/sequence.rs.
module PulseSequences {
  import opened Sequences
  import opened Wrappers
  import opened Temporal

  type GridPoint = t: TimePoint | t.precisionNs > 0.0 witness TimePoint(0.0, 1.0, 0.0)

  datatype ScheduledPulse = ScheduledPulse(id: string, qubits: seq<nat>, start: GridPoint, duration: GridPoint)
  {
    function StartNs(): real { start.QuantizedNs() }
    function DurationNs(): real { duration.QuantizedNs() }
    function EndNs(): real { StartNs() + DurationNs() }
  }

  datatype Config = Config(awg: Option<AwgClock>, limits: Option<BudgetLimits>)
  {
    predicate Valid() {
      (awg.Some? ==> awg.value.Valid()) && (limits.Some? ==> limits.value.block > 0.0)
    }
  }

  datatype SeqState = SeqState(pulses: seq<ScheduledPulse>, constraints: seq<TemporalConstraint>, times: QubitTimes)

  // The first pulse with the given id.
  function Find(pulses: seq<ScheduledPulse>, id: string): Option<ScheduledPulse> {
    if pulses == [] then None
    else if pulses[0].id == id then Some(pulses[0])
    else Find(pulses[1..], id)
  }

  lemma {:induction false} FindAppend(pulses: seq<ScheduledPulse>, p: ScheduledPulse, id: string)
    ensures Find(pulses + [p], id) ==
            if Find(pulses, id).Some? then Find(pulses, id) else if p.id == id then Some(p) else None
  {
    if pulses != [] {
      assert (pulses + [p])[1..] == pulses[1..] + [p];
      FindAppend(pulses[1..], p, id);
    }
  }

  lemma {:induction false} FindNone(pulses: seq<ScheduledPulse>, id: string)
    ensures Find(pulses, id).None? <==> forall k :: 0 <= k < |pulses| ==> pulses[k].id != id
  {
    if pulses != [] {
      FindNone(pulses[1..], id);
      if Find(pulses, id).None? {
        forall k | 0 <= k < |pulses| ensures pulses[k].id != id {
          if k > 0 { assert pulses[k] == pulses[1..][k - 1]; }
        }
      }
    }
  }

  // ---------- append ----------

  function MakePulse(cfg: Config, id: string, qubits: seq<nat>, startNs: real, durationNs: real): ScheduledPulse
    requires cfg.Valid()
  {
    match cfg.awg
    case Some(awg) =>
      ScheduledPulse(id, qubits, awg.MakeTimePoint(startNs), awg.MakeTimePoint(awg.QuantizeDuration(durationNs)))
    case None => ScheduledPulse(id, qubits, FromDurationNs(startNs), FromDurationNs(durationNs))
  }

  function AddAll(times: QubitTimes, qubits: seq<nat>, ns: real): QubitTimes {
    if qubits == [] then times else AddTime(AddAll(times, qubits[..|qubits| - 1], ns), qubits[|qubits| - 1], ns)
  }

  predicate AllCanAdd(cfg: Config, times: QubitTimes, qubits: seq<nat>, ns: real) {
    cfg.limits.Some? ==> forall k :: 0 <= k < |qubits| ==> CanAdd(cfg.limits.value, times, qubits[k], ns)
  }

  function Append(cfg: Config, s: SeqState, id: string, qubits: seq<nat>, startNs: real,
                  durationNs: real): Result<SeqState>
    requires cfg.Valid()
  {
    var p := MakePulse(cfg, id, qubits, startNs, durationNs);
    if Find(s.pulses, id).Some? then Err("pulse id already exists in sequence")
    else if !AllCanAdd(cfg, s.times, qubits, p.DurationNs()) then Err("decoherence budget exceeded")
    else Ok(SeqState(s.pulses + [p], s.constraints,
                     if cfg.limits.Some? then AddAll(s.times, qubits, p.DurationNs()) else s.times))
  }

  predicate Satisfied(c: TemporalConstraint, pa: ScheduledPulse, pb: ScheduledPulse) {
    Check(c, pa.StartNs(), pa.DurationNs(), pb.StartNs(), pb.DurationNs(), pa.start.jitterNs + pb.start.jitterNs)
  }

  function AddConstraint(s: SeqState, c: TemporalConstraint): Result<SeqState> {
    var pa, pb := Find(s.pulses, c.a), Find(s.pulses, c.b);
    if pa.None? || pb.None? then Err("pulse not found in sequence")
    else if !Satisfied(c, pa.value, pb.value) then Err("constraint violated")
    else Ok(s.(constraints := s.constraints + [c]))
  }

  // ---------- validation ----------

  function ConstraintIssue(pulses: seq<ScheduledPulse>, c: TemporalConstraint): seq<Issue> {
    var pa, pb := Find(pulses, c.a), Find(pulses, c.b);
    if pa.None? then [UnknownPulse(c.a)]
    else if pb.None? then [UnknownPulse(c.b)]
    else if !Satisfied(c, pa.value, pb.value) then [ConstraintViolated(c)]
    else []
  }

  function ConstraintIssues(pulses: seq<ScheduledPulse>, cs: seq<TemporalConstraint>): seq<Issue> {
    if cs == [] then [] else ConstraintIssues(pulses, cs[..|cs| - 1]) + ConstraintIssue(pulses, cs[|cs| - 1])
  }

  predicate SharesQubit(pa: ScheduledPulse, pb: ScheduledPulse) {
    exists i :: 0 <= i < |pa.qubits| && pa.qubits[i] in pb.qubits
  }

  predicate Clash(pa: ScheduledPulse, pb: ScheduledPulse) {
    SharesQubit(pa, pb) && pa.StartNs() < pb.EndNs() && pb.StartNs() < pa.EndNs()
  }

  function OverlapRow(pulses: seq<ScheduledPulse>, i: nat, j: nat): seq<Issue>
    requires i < j <= |pulses|
  {
    if j == i + 1 then [] else
      OverlapRow(pulses, i, j - 1) + if Clash(pulses[i], pulses[j - 1]) then [Overlap(i, j - 1)] else []
  }

  function OverlapIssues(pulses: seq<ScheduledPulse>, i: nat): seq<Issue>
    requires i <= |pulses|
  {
    if i == 0 then [] else OverlapIssues(pulses, i - 1) + OverlapRow(pulses, i - 1, |pulses|)
  }

  function Issues(cfg: Config, s: SeqState): seq<Issue> {
    ConstraintIssues(s.pulses, s.constraints)
    + (if cfg.limits.Some? then BudgetMessages(cfg.limits.value, s.times) else [])
    + OverlapIssues(s.pulses, |s.pulses|)
  }

  lemma {:induction false} RowReports(pulses: seq<ScheduledPulse>, i: nat, j: nat, x: Issue)
    requires i < j <= |pulses|
    ensures x in OverlapRow(pulses, i, j) <==>
            x.Overlap? && x.first == i && i < x.second < j && Clash(pulses[i], pulses[x.second])
  {
    hide Clash;
    if j > i + 1 { RowReports(pulses, i, j - 1, x); }
  }

  // Overlaps are reported exactly for the clashing pairs.
  lemma {:induction false} OverlapsReported(pulses: seq<ScheduledPulse>, i: nat, x: Issue)
    requires i <= |pulses|
    ensures x in OverlapIssues(pulses, i) <==>
            x.Overlap? && x.first < i && x.first < x.second < |pulses| && Clash(pulses[x.first], pulses[x.second])
  {
    hide Clash, OverlapRow;
    if i > 0 {
      OverlapsReported(pulses, i - 1, x);
      RowReports(pulses, i - 1, |pulses|, x);
    }
  }

  lemma {:induction false} ConstraintIssuesEmpty(pulses: seq<ScheduledPulse>, cs: seq<TemporalConstraint>)
    requires forall k :: 0 <= k < |cs| ==> ConstraintIssue(pulses, cs[k]) == []
    ensures ConstraintIssues(pulses, cs) == []
  {
    hide ConstraintIssue;
    if cs != [] { ConstraintIssuesEmpty(pulses, cs[..|cs| - 1]); }
  }

  // No clash is missed: an accepted validation means pairwise disjoint pulses on every shared qubit.
  lemma {:induction false} CleanMeansDisjoint(cfg: Config, s: SeqState)
    requires Issues(cfg, s) == []
    ensures forall i, j :: 0 <= i < j < |s.pulses| ==> !Clash(s.pulses[i], s.pulses[j])
  {
    hide Clash, ConstraintIssues, BudgetMessages;
    forall i, j | 0 <= i < j < |s.pulses| ensures !Clash(s.pulses[i], s.pulses[j]) {
      OverlapsReported(s.pulses, |s.pulses|, Overlap(i, j));
    }
  }

  // ---------- what every run keeps ----------

  datatype Operation =
    | AppendPulse(id: string, qubits: seq<nat>, startNs: real, durationNs: real)
    | Constrain(constraint: TemporalConstraint)

  // A rejected operation leaves the sequence unchanged.
  function Perform(cfg: Config, s: SeqState, op: Operation): SeqState
    requires cfg.Valid()
  {
    var r := match op
      case AppendPulse(id, qubits, startNs, durationNs) => Append(cfg, s, id, qubits, startNs, durationNs)
      case Constrain(c) => AddConstraint(s, c);
    if r.Ok? then r.value else s
  }

  const EMPTY := SeqState([], [], map[])

  function Run(cfg: Config, ops: seq<Operation>): SeqState
    requires cfg.Valid()
  {
    if ops == [] then EMPTY else Perform(cfg, Run(cfg, ops[..|ops| - 1]), ops[|ops| - 1])
  }

  function Multiplicity(qubits: seq<nat>, q: nat): nat {
    if qubits == [] then 0 else Multiplicity(qubits[..|qubits| - 1], q) + if qubits[|qubits| - 1] == q then 1 else 0
  }

  function Charge(listings: nat, ns: real): real {
    listings as real * ns
  }

  lemma ChargeLaws(k: nat, ns: real)
    ensures Charge(0, ns) == 0.0 && Charge(1, ns) == ns && Charge(k + 1, ns) == Charge(k, ns) + ns
  {}

  // Time the pulses charge to q: each listing of q in a pulse counts its quantised duration.
  function Usage(pulses: seq<ScheduledPulse>, q: nat): real {
    if pulses == [] then 0.0 else
      var p := pulses[|pulses| - 1];
      Usage(pulses[..|pulses| - 1], q) + Charge(Multiplicity(p.qubits, q), p.DurationNs())
  }

  lemma UsageAppend(pulses: seq<ScheduledPulse>, p: ScheduledPulse, q: nat)
    ensures Usage(pulses + [p], q) == Usage(pulses, q) + Charge(Multiplicity(p.qubits, q), p.DurationNs())
  {
    hide Charge, Multiplicity, ScheduledPulse.DurationNs;
    assert (pulses + [p])[..|pulses|] == pulses;
  }

  lemma AddTimeAt(times: QubitTimes, x: nat, ns: real, q: nat)
    ensures TimeOf(AddTime(times, x, ns), q) == TimeOf(times, q) + if q == x then ns else 0.0
  {}

  lemma {:induction false} AddAllTime(times: QubitTimes, qubits: seq<nat>, ns: real, q: nat)
    ensures TimeOf(AddAll(times, qubits, ns), q) == TimeOf(times, q) + Charge(Multiplicity(qubits, q), ns)
  {
    hide Charge, TimeOf, AddTime;
    if qubits == [] {
      ChargeLaws(0, ns);
    } else {
      var n := |qubits| - 1;
      AddAllTime(times, qubits[..n], ns, q);
      AddTimeAt(AddAll(times, qubits[..n], ns), qubits[n], ns, q);
      ChargeLaws(Multiplicity(qubits[..n], q), ns);
    }
  }

  // What an accepted append stores: the pulse at the requested start, each time within half a step of the request
  // (durations subject to the clock's limits), and its duration charged once per listing.
  lemma AppendStores(cfg: Config, s: SeqState, id: string, qubits: seq<nat>, startNs: real, durationNs: real)
    requires cfg.Valid() && Append(cfg, s, id, qubits, startNs, durationNs).Ok?
    ensures var r := Append(cfg, s, id, qubits, startNs, durationNs).value;
            var step := if cfg.awg.Some? then cfg.awg.value.SamplePeriodNs() else 1.0;
            && |r.pulses| == |s.pulses| + 1 && r.pulses[..|s.pulses|] == s.pulses && r.constraints == s.constraints
            && var p := r.pulses[|s.pulses|];
            && p.id == id && p.qubits == qubits && p.start.nominalNs == startNs
            && -0.5 * step <= p.StartNs() - startNs <= 0.5 * step
            && (cfg.awg.Some? ==> p.DurationNs() == cfg.awg.value.QuantizeDuration(durationNs))
            && (cfg.awg.None? ==> -0.5 <= p.DurationNs() - durationNs <= 0.5)
            && (cfg.limits.None? ==> r.times == s.times)
            && (cfg.limits.Some? ==>
                  forall q ::
                    TimeOf(r.times, q) == TimeOf(s.times, q) + Charge(Multiplicity(qubits, q), p.DurationNs()))
  {
    hide AddAll, TimeOf, Charge, Multiplicity, AllCanAdd, Find, TimePoint.QuantizedNs, AwgClock.QuantizeDuration;
    var p := MakePulse(cfg, id, qubits, startNs, durationNs);
    QuantizedNear(p.start);
    QuantizedNear(p.duration);
    if cfg.awg.Some? { QuantizedOnGrid(cfg.awg.value, durationNs); }
    forall q: nat
      ensures TimeOf(AddAll(s.times, qubits, p.DurationNs()), q) ==
              TimeOf(s.times, q) + Charge(Multiplicity(qubits, q), p.DurationNs())
    {
      AddAllTime(s.times, qubits, p.DurationNs(), q);
    }
  }

  lemma {:induction false} AddAllKeys(times: QubitTimes, qubits: seq<nat>, ns: real, q: nat)
    ensures q in AddAll(times, qubits, ns) <==> q in times || q in qubits
  {
    if qubits != [] {
      var n := |qubits| - 1;
      AddAllKeys(times, qubits[..n], ns, q);
      assert qubits == qubits[..n] + [qubits[n]];
    }
  }

  ghost predicate UniqueIds(pulses: seq<ScheduledPulse>) {
    forall i, j :: 0 <= i < j < |pulses| ==> pulses[i].id != pulses[j].id
  }

  ghost predicate BudgetMatches(s: SeqState) {
    (forall q :: TimeOf(s.times, q) == Usage(s.pulses, q)) &&
    forall q :: q in s.times <==> exists k :: 0 <= k < |s.pulses| && q in s.pulses[k].qubits
  }

  ghost predicate ConstraintsHold(s: SeqState) {
    forall k :: 0 <= k < |s.constraints| ==> ConstraintIssue(s.pulses, s.constraints[k]) == []
  }

  predicate OnGrid(awg: AwgClock, p: ScheduledPulse) {
    p.DurationNs() == p.duration.nominalNs && awg.minSamples <= p.duration.NumSamples() <= awg.maxSamples
  }

  ghost predicate DurationsOnGrid(cfg: Config, s: SeqState) {
    cfg.awg.Some? ==> forall k :: 0 <= k < |s.pulses| ==> OnGrid(cfg.awg.value, s.pulses[k])
  }

  ghost predicate Invariant(cfg: Config, s: SeqState) {
    UniqueIds(s.pulses) && (cfg.limits.Some? ==> BudgetMatches(s)) && ConstraintsHold(s) && DurationsOnGrid(cfg, s)
  }

  lemma {:induction false} AppendKeeps(cfg: Config, s: SeqState, id: string, qubits: seq<nat>, startNs: real,
                                       durationNs: real)
    requires cfg.Valid() && Invariant(cfg, s)
    requires Append(cfg, s, id, qubits, startNs, durationNs).Ok?
    ensures Invariant(cfg, Append(cfg, s, id, qubits, startNs, durationNs).value)
  {
    hide AllCanAdd, AddAll, Satisfied, OnGrid;
    var p := MakePulse(cfg, id, qubits, startNs, durationNs);
    var s' := Append(cfg, s, id, qubits, startNs, durationNs).value;
    FindNone(s.pulses, id);
    AppendKeepsConstraints(s, p);
    if cfg.awg.Some? {
      QuantizedOnGrid(cfg.awg.value, durationNs);
      assert OnGrid(cfg.awg.value, p) by { NewPulseOnGrid(cfg, id, qubits, startNs, durationNs); }
    }
    if cfg.limits.Some? { AppendKeepsBudget(s, p); }
  }

  lemma NewPulseOnGrid(cfg: Config, id: string, qubits: seq<nat>, startNs: real, durationNs: real)
    requires cfg.Valid() && cfg.awg.Some?
    ensures OnGrid(cfg.awg.value, MakePulse(cfg, id, qubits, startNs, durationNs))
  {
    QuantizedOnGrid(cfg.awg.value, durationNs);
  }

  lemma AppendKeepsConstraints(s: SeqState, p: ScheduledPulse)
    requires ConstraintsHold(s)
    ensures ConstraintsHold(s.(pulses := s.pulses + [p]))
  {
    hide Satisfied;
    forall k | 0 <= k < |s.constraints| ensures ConstraintIssue(s.pulses + [p], s.constraints[k]) == [] {
      FindAppend(s.pulses, p, s.constraints[k].a);
      FindAppend(s.pulses, p, s.constraints[k].b);
    }
  }

  lemma AppendKeepsBudget(s: SeqState, p: ScheduledPulse)
    requires BudgetMatches(s)
    ensures BudgetMatches(SeqState(s.pulses + [p], s.constraints, AddAll(s.times, p.qubits, p.DurationNs())))
  {
    hide AddAll, ScheduledPulse.DurationNs, Usage, Charge, Multiplicity, TimeOf;
    var s' := SeqState(s.pulses + [p], s.constraints, AddAll(s.times, p.qubits, p.DurationNs()));
    forall q: nat
      ensures TimeOf(s'.times, q) == Usage(s'.pulses, q)
      ensures q in s'.times <==> exists k :: 0 <= k < |s'.pulses| && q in s'.pulses[k].qubits
    {
      AddAllTime(s.times, p.qubits, p.DurationNs(), q);
      AddAllKeys(s.times, p.qubits, p.DurationNs(), q);
      UsageAppend(s.pulses, p, q);
      if q in s.times {
        var k :| 0 <= k < |s.pulses| && q in s.pulses[k].qubits;
        assert q in s'.pulses[k].qubits;
      }
      if q in p.qubits { assert q in s'.pulses[|s.pulses|].qubits; }
    }
  }

  lemma ConstrainKeeps(cfg: Config, s: SeqState, c: TemporalConstraint)
    requires Invariant(cfg, s) && AddConstraint(s, c).Ok?
    ensures Invariant(cfg, AddConstraint(s, c).value)
  {
    hide Satisfied, OnGrid, Usage;
  }

  lemma EmptyInvariant(cfg: Config)
    ensures Invariant(cfg, EMPTY)
  {}

  // Every run of append and add_constraint keeps ids unique, constraints satisfied, the budget equal to the
  // time the pulses charge, and durations on the AWG grid.
  lemma {:induction false} RunKeepsInvariant(cfg: Config, ops: seq<Operation>)
    requires cfg.Valid()
    ensures Invariant(cfg, Run(cfg, ops))
  {
    hide Append, AddConstraint, Usage;
    if ops == [] {
      EmptyInvariant(cfg);
    } else {
      var s, op := Run(cfg, ops[..|ops| - 1]), ops[|ops| - 1];
      RunKeepsInvariant(cfg, ops[..|ops| - 1]);
      match op
      case AppendPulse(id, qubits, startNs, durationNs) =>
        if Append(cfg, s, id, qubits, startNs, durationNs).Ok? { AppendKeeps(cfg, s, id, qubits, startNs, durationNs); }
      case Constrain(c) =>
        if AddConstraint(s, c).Ok? { ConstrainKeeps(cfg, s, c); }
    }
  }

  // ---------- the blocking threshold ----------

  ghost predicate BelowBlock(cfg: Config, s: SeqState) {
    cfg.limits.Some? ==> forall q :: q in s.times ==> T2Fraction(cfg.limits.value, s.times, q) < cfg.limits.value.block
  }

  // An accepted append stays below the T2 blocking fraction exactly when the whole charge to each listed qubit,
  // repetitions included, would have been accepted.
  lemma {:induction false} AppendBelowBlock(cfg: Config, s: SeqState, id: string, qubits: seq<nat>, startNs: real,
                                            durationNs: real)
    requires cfg.Valid() && BelowBlock(cfg, s)
    requires Append(cfg, s, id, qubits, startNs, durationNs).Ok?
    ensures var d := MakePulse(cfg, id, qubits, startNs, durationNs).DurationNs();
            BelowBlock(cfg, Append(cfg, s, id, qubits, startNs, durationNs).value) <==>
            (cfg.limits.Some? ==> forall k :: 0 <= k < |qubits| ==>
               CanAdd(cfg.limits.value, s.times, qubits[k], Charge(Multiplicity(qubits, qubits[k]), d)))
  {
    hide AllCanAdd, AddAll, ScheduledPulse.DurationNs, CanAdd, T2Fraction, Multiplicity, MakePulse, Charge, TimeOf,
      AddTime;
    if cfg.limits.Some? {
      var l, d := cfg.limits.value, MakePulse(cfg, id, qubits, startNs, durationNs).DurationNs();
      var times := AddAll(s.times, qubits, d);
      forall q: nat
        ensures q in times <==> q in s.times || q in qubits
        ensures q in qubits ==>
          (T2Fraction(l, times, q) < l.block <==> CanAdd(l, s.times, q, Charge(Multiplicity(qubits, q), d)))
        ensures q !in qubits ==> T2Fraction(l, times, q) == T2Fraction(l, s.times, q)
      {
        FractionAfter(l, s.times, qubits, d, q);
      }
      if forall k :: 0 <= k < |qubits| ==> CanAdd(l, s.times, qubits[k], Charge(Multiplicity(qubits, qubits[k]), d)) {
        forall q | q in times ensures T2Fraction(l, times, q) < l.block {
          if q in qubits {
            var k :| 0 <= k < |qubits| && qubits[k] == q;
          }
        }
      }
      if forall q :: q in times ==> T2Fraction(l, times, q) < l.block {
        forall k | 0 <= k < |qubits|
          ensures CanAdd(l, s.times, qubits[k], Charge(Multiplicity(qubits, qubits[k]), d))
        {
          assert qubits[k] in times;
        }
      }
    }
  }

  lemma FractionAfter(l: BudgetLimits, before: QubitTimes, qubits: seq<nat>, d: real, q: nat)
    requires l.block > 0.0
    ensures var times := AddAll(before, qubits, d);
            && (q in times <==> q in before || q in qubits)
            && (q in qubits ==>
              (T2Fraction(l, times, q) < l.block <==> CanAdd(l, before, q, Charge(Multiplicity(qubits, q), d))))
            && (q !in qubits ==> T2Fraction(l, times, q) == T2Fraction(l, before, q))
  {
    hide AddAll, CanAdd, T2Fraction, Multiplicity, Charge, TimeOf, AddTime;
    var times, m := AddAll(before, qubits, d), Charge(Multiplicity(qubits, q), d);
    AddAllTime(before, qubits, d, q);
    AddAllKeys(before, qubits, d, q);
    CanAddExact(l, before, q, m);
    AddTimeAt(before, q, m, q);
    SameTimeSameFraction(l, times, AddTime(before, q, m), q);
    if q !in qubits {
      NotListed(qubits, q);
      ChargeLaws(0, d);
      SameTimeSameFraction(l, times, before, q);
    }
  }

  lemma {:induction false} NotListed(qubits: seq<nat>, q: nat)
    requires q !in qubits
    ensures Multiplicity(qubits, q) == 0
  {
    if qubits != [] { NotListed(qubits[..|qubits| - 1], q); }
  }

  lemma SameTimeSameFraction(l: BudgetLimits, a: QubitTimes, b: QubitTimes, q: nat)
    requires TimeOf(a, q) == TimeOf(b, q)
    ensures T2Fraction(l, a, q) == T2Fraction(l, b, q)
  {}

  lemma {:induction false} MultiplicityOne(qubits: seq<nat>, q: nat)
    requires NoRepeats(qubits)
    ensures Multiplicity(qubits, q) == if q in qubits then 1 else 0
  {
    if qubits != [] {
      var n := |qubits| - 1;
      MultiplicityOne(qubits[..n], q);
      assert qubits == qubits[..n] + [qubits[n]];
    }
  }

  // Runs whose pulses list no qubit twice never reach the T2 blocking fraction.
  lemma {:induction false} RunBelowBlock(cfg: Config, ops: seq<Operation>)
    requires cfg.Valid()
    requires forall k :: 0 <= k < |ops| && ops[k].AppendPulse? ==> NoRepeats(ops[k].qubits)
    ensures BelowBlock(cfg, Run(cfg, ops))
  {
    hide Append, AddConstraint, CanAdd, T2Fraction, Multiplicity, Charge;
    if ops != [] {
      var s, op := Run(cfg, ops[..|ops| - 1]), ops[|ops| - 1];
      RunBelowBlock(cfg, ops[..|ops| - 1]);
      match op
      case AppendPulse(id, qubits, startNs, durationNs) =>
        var r := Append(cfg, s, id, qubits, startNs, durationNs);
        if r.Ok? {
          AppendBelowBlock(cfg, s, id, qubits, startNs, durationNs);
          AppendAccepted(cfg, s, id, qubits, startNs, durationNs);
          var d := MakePulse(cfg, id, qubits, startNs, durationNs).DurationNs();
          forall k | 0 <= k < |qubits| ensures Charge(Multiplicity(qubits, qubits[k]), d) == d {
            MultiplicityOne(qubits, qubits[k]);
            ChargeLaws(0, d);
          }
        }
      case Constrain(c) => ConstrainTimes(s, c);
    }
  }

  lemma AppendAccepted(cfg: Config, s: SeqState, id: string, qubits: seq<nat>, startNs: real, durationNs: real)
    requires cfg.Valid() && Append(cfg, s, id, qubits, startNs, durationNs).Ok?
    ensures AllCanAdd(cfg, s.times, qubits, MakePulse(cfg, id, qubits, startNs, durationNs).DurationNs())
  {}

  lemma ConstrainTimes(s: SeqState, c: TemporalConstraint)
    ensures AddConstraint(s, c).Ok? ==> AddConstraint(s, c).value.times == s.times
  {}

  // ---------- T1, which the look-ahead never consults ----------

  ghost predicate BelowT1Block(cfg: Config, s: SeqState) {
    cfg.limits.Some? ==> forall q :: q in s.times ==> T1Fraction(cfg.limits.value, s.times, q) < cfg.limits.value.block
  }

  // What a T1 test in the style of can_add would compute
  predicate T1Fits(l: BudgetLimits, times: QubitTimes, q: nat, ns: real) {
    q in l.t1Us && l.t1Us[q] > 0.0 ==> 1.0 - l.exp(-(TimeOf(times, q) + ns) / (l.t1Us[q] * 1000.0)) < l.block
  }

  lemma T1After(l: BudgetLimits, before: QubitTimes, qubits: seq<nat>, d: real, q: nat)
    requires l.block > 0.0
    ensures var times := AddAll(before, qubits, d);
            && (q in times <==> q in before || q in qubits)
            && (T1Fraction(l, times, q) < l.block <==> T1Fits(l, before, q, Charge(Multiplicity(qubits, q), d)))
            && (q !in qubits ==> T1Fraction(l, times, q) == T1Fraction(l, before, q))
  {
    hide AddAll, Multiplicity, Charge, TimeOf, AddTime;
    AddAllTime(before, qubits, d, q);
    AddAllKeys(before, qubits, d, q);
    if q !in qubits {
      NotListed(qubits, q);
      ChargeLaws(0, d);
    }
  }

  // From a state without T1 blocks an accepted append leaves none exactly when the whole charge to each listed
  // qubit, repetitions included, stays below the block on T1.
  lemma {:induction false} AppendBelowT1Block(cfg: Config, s: SeqState, id: string, qubits: seq<nat>,
                                              startNs: real, durationNs: real)
    requires cfg.Valid() && BelowT1Block(cfg, s)
    requires Append(cfg, s, id, qubits, startNs, durationNs).Ok?
    ensures var d := MakePulse(cfg, id, qubits, startNs, durationNs).DurationNs();
            BelowT1Block(cfg, Append(cfg, s, id, qubits, startNs, durationNs).value) <==>
            (cfg.limits.Some? ==> forall k :: 0 <= k < |qubits| ==>
               T1Fits(cfg.limits.value, s.times, qubits[k], Charge(Multiplicity(qubits, qubits[k]), d)))
  {
    hide AllCanAdd, AddAll, ScheduledPulse.DurationNs, T1Fits, T1Fraction, Multiplicity, MakePulse, Charge;
    if cfg.limits.Some? {
      var l, d := cfg.limits.value, MakePulse(cfg, id, qubits, startNs, durationNs).DurationNs();
      var times := AddAll(s.times, qubits, d);
      forall q: nat
        ensures q in times <==> q in s.times || q in qubits
        ensures T1Fraction(l, times, q) < l.block <==> T1Fits(l, s.times, q, Charge(Multiplicity(qubits, q), d))
        ensures q !in qubits ==> T1Fraction(l, times, q) == T1Fraction(l, s.times, q)
      {
        T1After(l, s.times, qubits, d, q);
      }
      if forall k :: 0 <= k < |qubits| ==> T1Fits(l, s.times, qubits[k], Charge(Multiplicity(qubits, qubits[k]), d)) {
        forall q | q in times ensures T1Fraction(l, times, q) < l.block {
          if q in qubits {
            var k :| 0 <= k < |qubits| && qubits[k] == q;
          }
        }
      }
      if forall q :: q in times ==> T1Fraction(l, times, q) < l.block {
        forall k | 0 <= k < |qubits|
          ensures T1Fits(l, s.times, qubits[k], Charge(Multiplicity(qubits, qubits[k]), d))
        {
          assert qubits[k] in times;
        }
      }
    }
  }

  ghost predicate IsExp(exp: real -> real) {
    (forall x, y :: x <= y ==> exp(x) <= exp(y)) && exp(0.0) == 1.0
  }

  // Relaxation is slower than dephasing wherever it is known.
  ghost predicate SlowRelaxation(l: BudgetLimits) {
    forall q :: q in l.t1Us && l.t1Us[q] > 0.0 ==> q in l.t2Us && 0.0 < l.t2Us[q] <= l.t1Us[q]
  }

  lemma QuotientOrder(t: real, short: real, long: real)
    requires t >= 0.0 && 0.0 < short <= long
    ensures -t / short <= -t / long
  {
    var a, b := t / short, t / long;
    assert a * short == t && b * long == t;
    if a < b {
      assert a * short <= b * short;
      assert b * short <= b * long;
      StrictScale(a, b, short);
    }
  }

  lemma StrictScale(a: real, b: real, k: real)
    requires a < b && k > 0.0
    ensures a * k < b * k
  {}

  lemma NegativeQuotient(t: real, k: real)
    requires t < 0.0 && k > 0.0
    ensures -t / k >= 0.0
  {}

  // A qubit consumes at most as much T1 as T2, and none at all for a negative total time.
  lemma T1BelowT2(l: BudgetLimits, times: QubitTimes, q: nat)
    requires IsExp(l.exp) && SlowRelaxation(l)
    ensures TimeOf(times, q) >= 0.0 ==> T1Fraction(l, times, q) <= T2Fraction(l, times, q)
    ensures TimeOf(times, q) < 0.0 ==> T1Fraction(l, times, q) <= 0.0
  {
    if q in l.t1Us && l.t1Us[q] > 0.0 {
      var t := TimeOf(times, q);
      if t >= 0.0 {
        QuotientOrder(t, l.t2Us[q] * 1000.0, l.t1Us[q] * 1000.0);
      } else {
        NegativeQuotient(t, l.t1Us[q] * 1000.0);
      }
    } else if TimeOf(times, q) >= 0.0 && q in l.t2Us && l.t2Us[q] > 0.0 {
      QuotientOrder(TimeOf(times, q), l.t2Us[q] * 1000.0, l.t2Us[q] * 1000.0);
      NonPositiveQuotient(TimeOf(times, q), l.t2Us[q] * 1000.0);
    }
  }

  lemma NonPositiveQuotient(t: real, k: real)
    requires t >= 0.0 && k > 0.0
    ensures -t / k <= 0.0
  {}

  // Then no run of duplicate-free appends reaches the T1 block either.
  lemma RunBelowT1Block(cfg: Config, ops: seq<Operation>)
    requires cfg.Valid()
    requires cfg.limits.Some? ==> IsExp(cfg.limits.value.exp) && SlowRelaxation(cfg.limits.value)
    requires forall k :: 0 <= k < |ops| && ops[k].AppendPulse? ==> NoRepeats(ops[k].qubits)
    ensures BelowT1Block(cfg, Run(cfg, ops))
  {
    hide Run, T1Fraction, T2Fraction, IsExp, SlowRelaxation;
    RunBelowBlock(cfg, ops);
    if cfg.limits.Some? {
      forall q | q in Run(cfg, ops).times
        ensures T1Fraction(cfg.limits.value, Run(cfg, ops).times, q) < cfg.limits.value.block
      {
        T1BelowT2(cfg.limits.value, Run(cfg, ops).times, q);
      }
    }
  }

  // So validate reports no block of any kind.
  lemma RunNeverBlocks(cfg: Config, ops: seq<Operation>, x: Issue)
    requires cfg.Valid() && x in Issues(cfg, Run(cfg, ops))
    requires cfg.limits.Some? ==> IsExp(cfg.limits.value.exp) && SlowRelaxation(cfg.limits.value)
    requires forall k :: 0 <= k < |ops| && ops[k].AppendPulse? ==> NoRepeats(ops[k].qubits)
    ensures !x.Block?
  {
    hide Run, T1Fraction, T2Fraction, IsExp, SlowRelaxation, BudgetMessages, Issues;
    var s := Run(cfg, ops);
    RunIssues(cfg, ops, x);
    RunBelowT1Block(cfg, ops);
    if x.Block? {
      BlockFromBudget(cfg, ops, x);
      T1Reported(cfg.limits.value, s.times, x.qubit);
    }
  }

  lemma BlockFromBudget(cfg: Config, ops: seq<Operation>, x: Issue)
    requires cfg.Valid() && x in Issues(cfg, Run(cfg, ops)) && x.Block?
    ensures cfg.limits.Some? && x in BudgetMessages(cfg.limits.value, Run(cfg, ops).times)
  {
    hide Run, BudgetMessages, ConstraintIssue, Clash, Usage;
    var s := Run(cfg, ops);
    RunKeepsInvariant(cfg, ops);
    ConstraintIssuesEmpty(s.pulses, s.constraints);
    OverlapsReported(s.pulses, |s.pulses|, x);
  }

  lemma T1Reported(l: BudgetLimits, times: QubitTimes, q: nat)
    ensures Block(q, T1) in BudgetMessages(l, times) <==> q in times && T1Fraction(l, times, q) >= l.block
  {
    hide T1Fraction, T2Fraction, MessagesFor;
    BlockReported(l, times, SortedKeys(times.Keys), q);
  }

  // What validate can still report after any run: overlaps, warnings and T1 blocks; and T2 blocks only when
  // some pulse lists a qubit twice.
  lemma {:induction false} RunIssues(cfg: Config, ops: seq<Operation>, x: Issue)
    requires cfg.Valid() && x in Issues(cfg, Run(cfg, ops))
    ensures !x.UnknownPulse? && !x.ConstraintViolated?
    ensures (forall k :: 0 <= k < |ops| && ops[k].AppendPulse? ==> NoRepeats(ops[k].qubits)) ==>
              !(x.Block? && x.channel == T2)
  {
    hide Run, Usage, ConstraintIssue, T2Fraction, T1Fraction, Clash;
    var s := Run(cfg, ops);
    RunKeepsInvariant(cfg, ops);
    ConstraintIssuesEmpty(s.pulses, s.constraints);
    OverlapsReported(s.pulses, |s.pulses|, x);
    if cfg.limits.Some? {
      BlockReported(cfg.limits.value, s.times, SortedKeys(s.times.Keys), if x.Block? then x.qubit else 0);
      if forall k :: 0 <= k < |ops| && ops[k].AppendPulse? ==> NoRepeats(ops[k].qubits) {
        RunBelowBlock(cfg, ops);
      }
    }
  }

  function OneQubitConfig(t1: real, t2: real, exp: real -> real): Config {
    Config(None, Some(BudgetLimits(map[0 := t1], map[0 := t2], 0.3, 0.8, exp)))
  }

  // Listing a qubit twice passes the per-listing check and then blocks.
  lemma DuplicateListingBlocks(exp: real -> real)
    requires exp(-1.0) > 0.2 && exp(-2.0) <= 0.2
    ensures var cfg := OneQubitConfig(0.001, 0.001, exp);
            var r := Append(cfg, EMPTY, "x", [0, 0], 0.0, 1.0);
            r.Ok? && Block(0, T2) in Issues(cfg, r.value)
  {
    var cfg := OneQubitConfig(0.001, 0.001, exp);
    var p := MakePulse(cfg, "x", [0, 0], 0.0, 1.0);
    assert p.DurationNs() == 1.0 by { RoundInteger(1); }
    hide ScheduledPulse.DurationNs, TimePoint.QuantizedNs, Round, T1Fraction;
    var l, s := cfg.limits.value, SeqState([p], [], AddAll(map[], [0, 0], 1.0));
    AddAllTime(map[], [0, 0], 1.0, 0);
    AddAllKeys(map[], [0, 0], 1.0, 0);
    assert [0, 0][..1] == [0] && Multiplicity([0, 0], 0) == 2;
    assert CanAdd(l, map[], 0, 1.0) by { assert -(0.0 + 1.0) / (0.001 * 1000.0) == -1.0; }
    assert T2Fraction(l, s.times, 0) >= 0.8 by { assert -2.0 / (0.001 * 1000.0) == -2.0; }
    BlockReported(l, s.times, SortedKeys(s.times.Keys), 0);
  }

  // The look-ahead consults T2 only, so an accepted append can already be blocked on T1.
  lemma ShortT1Blocks(exp: real -> real)
    requires exp(-1.0) > 0.2 && exp(-2.0) <= 0.2
    ensures var cfg := OneQubitConfig(0.001, 0.002, exp);
            var r := Append(cfg, EMPTY, "x", [0], 0.0, 2.0);
            r.Ok? && Block(0, T1) in Issues(cfg, r.value)
  {
    var cfg := OneQubitConfig(0.001, 0.002, exp);
    var p := MakePulse(cfg, "x", [0], 0.0, 2.0);
    assert p.DurationNs() == 2.0 by { RoundInteger(2); }
    var l, s := cfg.limits.value, SeqState([p], [], AddAll(map[], [0], 2.0));
    AddAllTime(map[], [0], 2.0, 0);
    AddAllKeys(map[], [0], 2.0, 0);
    assert Multiplicity([0], 0) == 1;
    assert CanAdd(l, map[], 0, 2.0) by { assert -(0.0 + 2.0) / (0.002 * 1000.0) == -1.0; }
    assert T1Fraction(l, s.times, 0) >= 0.8 by { assert -2.0 / (0.001 * 1000.0) == -2.0; }
    BlockReported(l, s.times, SortedKeys(s.times.Keys), 0);
  }

  // ---------- the builder object ----------

  class DecoherenceBudget {
    const limits: BudgetLimits
    var qubitTimeNs: QubitTimes

    constructor (limits: BudgetLimits)
      ensures this.limits == limits && qubitTimeNs == map[]
    {
      this.limits := limits;
      qubitTimeNs := map[];
    }

    method AddQubitTime(q: nat, ns: real)
      modifies this
      ensures qubitTimeNs == AddTime(old(qubitTimeNs), q, ns)
    {
      qubitTimeNs := qubitTimeNs[q := (if q in qubitTimeNs then qubitTimeNs[q] else 0.0) + ns];
    }

    method CheckAll() returns (messages: seq<Issue>)
      ensures messages == BudgetMessages(limits, qubitTimeNs)
    {
      hide QubitMessages;
      messages := [];
      var qubits := SortedKeys(qubitTimeNs.Keys);
      for k := 0 to |qubits|
        invariant messages + MessagesFor(limits, qubitTimeNs, qubits[k..]) == BudgetMessages(limits, qubitTimeNs)
      {
        assert qubits[k..][0] == qubits[k] && qubits[k..][1..] == qubits[k + 1..];
        messages := messages + QubitMessages(limits, qubitTimeNs, qubits[k]);
      }
      assert qubits[|qubits|..] == [];
    }
  }

  class PulseSequence {
    var pulses: seq<ScheduledPulse>
    var constraints: seq<TemporalConstraint>
    const budget: DecoherenceBudget?
    const awg: Option<AwgClock>

    ghost function Settings(): Config {
      Config(awg, if budget == null then None else Some(budget.limits))
    }

    ghost function View(): SeqState
      reads this, budget
    {
      SeqState(pulses, constraints, if budget == null then map[] else budget.qubitTimeNs)
    }

    constructor (awg: Option<AwgClock>, budget: DecoherenceBudget?)
      ensures this.awg == awg && this.budget == budget && pulses == [] && constraints == []
    {
      this.awg, this.budget := awg, budget;
      pulses, constraints := [], [];
    }

    method PulseById(id: string) returns (p: Option<ScheduledPulse>)
      ensures p == Find(pulses, id)
    {
      for k := 0 to |pulses|
        invariant Find(pulses, id) == Find(pulses[k..], id)
      {
        if pulses[k].id == id { return Some(pulses[k]); }
        assert pulses[k..][1..] == pulses[k + 1..];
      }
      p := None;
    }

    // A rejected append changes nothing.
    method AppendPulse(id: string, qubits: seq<nat>, startNs: real, durationNs: real) returns (ok: bool)
      requires Settings().Valid()
      modifies this, budget
      ensures ok <==> Append(Settings(), old(View()), id, qubits, startNs, durationNs).Ok?
      ensures View() == Perform(Settings(), old(View()), Operation.AppendPulse(id, qubits, startNs, durationNs))
    {
      hide CanAdd, ScheduledPulse.DurationNs, AddTime, MakePulse, Find;
      var existing := PulseById(id);
      if existing.Some? { return false; }
      var p := BuildPulse(id, qubits, startNs, durationNs);
      if budget != null {
        for k := 0 to |qubits|
          invariant forall t :: 0 <= t < k ==> CanAdd(budget.limits, budget.qubitTimeNs, qubits[t], p.DurationNs())
        {
          if !CanAdd(budget.limits, budget.qubitTimeNs, qubits[k], p.DurationNs()) { return false; }
        }
        for k := 0 to |qubits|
          invariant budget.qubitTimeNs == AddAll(old(budget.qubitTimeNs), qubits[..k], p.DurationNs())
          invariant pulses == old(pulses) && constraints == old(constraints)
        {
          assert qubits[..k + 1][..k] == qubits[..k];
          budget.AddQubitTime(qubits[k], p.DurationNs());
        }
        assert qubits[..|qubits|] == qubits;
      }
      pulses := pulses + [p];
      ok := true;
    }

    method BuildPulse(id: string, qubits: seq<nat>, startNs: real, durationNs: real) returns (p: ScheduledPulse)
      requires Settings().Valid()
      ensures p == MakePulse(Settings(), id, qubits, startNs, durationNs)
    {
      if awg.Some? {
        var quantized := awg.value.QuantizeDuration(durationNs);
        p := ScheduledPulse(id, qubits, awg.value.MakeTimePoint(startNs), awg.value.MakeTimePoint(quantized));
      } else {
        p := ScheduledPulse(id, qubits, FromDurationNs(startNs), FromDurationNs(durationNs));
      }
    }

    method AddTemporalConstraint(c: TemporalConstraint) returns (ok: bool)
      requires Settings().Valid()
      modifies this`constraints
      ensures ok <==> AddConstraint(old(View()), c).Ok?
      ensures View() == Perform(Settings(), old(View()), Constrain(c))
    {
      hide Satisfied;
      var pa := PulseById(c.a);
      if pa.None? { return false; }
      var pb := PulseById(c.b);
      if pb.None? { return false; }
      if !Satisfied(c, pa.value, pb.value) { return false; }
      constraints := constraints + [c];
      ok := true;
    }

    method CheckConstraints() returns (issues: seq<Issue>)
      ensures issues == ConstraintIssues(pulses, constraints)
    {
      hide Satisfied;
      issues := [];
      for k := 0 to |constraints|
        invariant issues == ConstraintIssues(pulses, constraints[..k])
      {
        var c := constraints[k];
        assert constraints[..k + 1][..k] == constraints[..k];
        var pa := PulseById(c.a);
        if pa.None? {
          issues := issues + [UnknownPulse(c.a)];
          continue;
        }
        var pb := PulseById(c.b);
        if pb.None? {
          issues := issues + [UnknownPulse(c.b)];
          continue;
        }
        if !Satisfied(c, pa.value, pb.value) { issues := issues + [ConstraintViolated(c)]; }
      }
      assert constraints[..|constraints|] == constraints;
    }

    method CheckOverlaps() returns (issues: seq<Issue>)
      ensures issues == OverlapIssues(pulses, |pulses|)
    {
      hide Clash;
      issues := [];
      for i := 0 to |pulses|
        invariant issues == OverlapIssues(pulses, i)
      {
        for j := i + 1 to |pulses|
          invariant issues == OverlapIssues(pulses, i) + OverlapRow(pulses, i, j)
        {
          if Clash(pulses[i], pulses[j]) { issues := issues + [Overlap(i, j)]; }
        }
      }
    }

    method Validate() returns (issues: seq<Issue>)
      ensures issues == Issues(Settings(), View())
    {
      issues := CheckConstraints();
      if budget != null {
        var messages := budget.CheckAll();
        issues := issues + messages;
      }
      var overlaps := CheckOverlaps();
      issues := issues + overlaps;
    }
  }
}
