// Resource limits on a whole sequence, and the packing bound an accepted sequence satisfies:
// hal/src/validation/mod.rs, total_duration_ns in hal/src/temporal/sequence.rs.
module PulseValidation {
  import opened Sequences
  import opened Temporal
  import opened PulseSequences

  datatype Limits = Limits(maxPulseDurationNs: nat, maxTimeSteps: nat)

  function MinStart(pulses: seq<ScheduledPulse>): (m: real)
    requires pulses != []
    ensures forall k :: 0 <= k < |pulses| ==> m <= pulses[k].StartNs()
    ensures exists k :: 0 <= k < |pulses| && m == pulses[k].StartNs()
  {
    hide ScheduledPulse.StartNs;
    var n := |pulses| - 1;
    if n == 0 then pulses[0].StartNs() else
      var m := MinStart(pulses[..n]);
      assert forall k :: 0 <= k < n ==> pulses[..n][k] == pulses[k];
      if pulses[n].StartNs() < m then pulses[n].StartNs() else m
  }

  function MaxEnd(pulses: seq<ScheduledPulse>): (m: real)
    requires pulses != []
    ensures forall k :: 0 <= k < |pulses| ==> pulses[k].EndNs() <= m
    ensures exists k :: 0 <= k < |pulses| && m == pulses[k].EndNs()
  {
    hide ScheduledPulse.EndNs;
    var n := |pulses| - 1;
    if n == 0 then pulses[0].EndNs() else
      var m := MaxEnd(pulses[..n]);
      assert forall k :: 0 <= k < n ==> pulses[..n][k] == pulses[k];
      if pulses[n].EndNs() > m then pulses[n].EndNs() else m
  }

  function TotalDurationNs(pulses: seq<ScheduledPulse>): real {
    if pulses == [] then 0.0 else MaxEnd(pulses) - MinStart(pulses)
  }

  // The total duration is the largest distance from a start to an end, and some two pulses attain it.
  lemma DurationTight(pulses: seq<ScheduledPulse>)
    requires pulses != []
    ensures forall i, j :: 0 <= i < |pulses| && 0 <= j < |pulses| ==>
      pulses[j].EndNs() - pulses[i].StartNs() <= TotalDurationNs(pulses)
    ensures exists i, j ::
      0 <= i < |pulses| && 0 <= j < |pulses| && pulses[j].EndNs() - pulses[i].StartNs() == TotalDurationNs(pulses)
  {
    hide ScheduledPulse.StartNs, ScheduledPulse.EndNs, MinStart, MaxEnd;
    var i :| 0 <= i < |pulses| && MinStart(pulses) == pulses[i].StartNs();
    var j :| 0 <= j < |pulses| && MaxEnd(pulses) == pulses[j].EndNs();
    assert pulses[j].EndNs() - pulses[i].StartNs() == TotalDurationNs(pulses);
  }

  // The folds over all starts and ends, from the infinities
  method ComputeTotalDurationNs(pulses: seq<ScheduledPulse>) returns (total: real)
    ensures total == TotalDurationNs(pulses)
  {
    hide ScheduledPulse.StartNs, ScheduledPulse.EndNs;
    if pulses == [] { return 0.0; }
    var start, end := pulses[0].StartNs(), pulses[0].EndNs();
    assert pulses[..1] == [pulses[0]];
    for k := 1 to |pulses|
      invariant start == MinStart(pulses[..k]) && end == MaxEnd(pulses[..k])
    {
      assert pulses[..k + 1][..k] == pulses[..k];
      if pulses[k].StartNs() < start { start := pulses[k].StartNs(); }
      if pulses[k].EndNs() > end { end := pulses[k].EndNs(); }
    }
    assert pulses[..|pulses|] == pulses;
    total := end - start;
  }

  datatype Verdict = Accepted | DurationLimit | SampleLimit(pulse: nat) | Physics(issue: Issue)

  method ValidatePulseSequence(sequence: PulseSequence, limits: Limits) returns (v: Verdict)
    ensures v == Judge(sequence.Settings(), sequence.View(), limits)
  {
    hide TotalDurationNs, Issues;
    var total := ComputeTotalDurationNs(sequence.pulses);
    if total > limits.maxPulseDurationNs as real { return DurationLimit; }
    for k := 0 to |sequence.pulses|
      invariant FirstTooLong(sequence.pulses, limits, 0) == FirstTooLong(sequence.pulses, limits, k)
    {
      if sequence.pulses[k].duration.NumSamples() > limits.maxTimeSteps { return SampleLimit(k); }
    }
    var issues := sequence.Validate();
    if issues != [] { return Physics(issues[0]); }
    v := Accepted;
  }

  function FirstTooLong(pulses: seq<ScheduledPulse>, limits: Limits, k: nat): nat
    requires k <= |pulses|
    decreases |pulses| - k
  {
    if k == |pulses| || pulses[k].duration.NumSamples() > limits.maxTimeSteps then k
      else FirstTooLong(pulses, limits, k + 1)
  }

  // The first failing check decides.
  function Judge(cfg: Config, s: SeqState, limits: Limits): Verdict {
    if TotalDurationNs(s.pulses) > limits.maxPulseDurationNs as real then DurationLimit
    else if FirstTooLong(s.pulses, limits, 0) < |s.pulses| then SampleLimit(FirstTooLong(s.pulses, limits, 0))
    else if Issues(cfg, s) != [] then Physics(Issues(cfg, s)[0])
    else Accepted
  }

  // ---------- packing ----------

  datatype Interval = Interval(start: real, end: real)

  function TotalLength(xs: seq<Interval>): real {
    if xs == [] then 0.0 else TotalLength(xs[..|xs| - 1]) + (xs[|xs| - 1].end - xs[|xs| - 1].start)
  }

  lemma {:induction false} TotalLengthConcat(xs: seq<Interval>, ys: seq<Interval>)
    ensures TotalLength(xs + ys) == TotalLength(xs) + TotalLength(ys)
  {
    if ys == [] {
      assert xs + ys == xs;
    } else {
      assert (xs + ys)[..|xs + ys| - 1] == xs + ys[..|ys| - 1];
      TotalLengthConcat(xs, ys[..|ys| - 1]);
    }
  }

  // Positive intervals inside [lo, hi], no two of which overlap
  ghost predicate Packed(xs: seq<Interval>, lo: real, hi: real) {
    (forall i :: 0 <= i < |xs| ==> lo <= xs[i].start < xs[i].end <= hi) &&
    forall i, j :: 0 <= i < j < |xs| ==> !(xs[i].start < xs[j].end && xs[j].start < xs[i].end)
  }

  lemma {:induction false} LatestStart(xs: seq<Interval>) returns (p: nat)
    requires xs != []
    ensures p < |xs| && forall i :: 0 <= i < |xs| ==> xs[i].start <= xs[p].start
  {
    var n := |xs| - 1;
    if n == 0 { return 0; }
    p := LatestStart(xs[..n]);
    assert forall i :: 0 <= i < n ==> xs[i] == xs[..n][i];
    if xs[n].start > xs[p].start { p := n; }
  }

  lemma TotalLengthWithout(xs: seq<Interval>, p: nat)
    requires p < |xs|
    ensures TotalLength(xs) == TotalLength(Without(xs, p)) + (xs[p].end - xs[p].start)
  {
    hide TotalLength, Without;
    var before, after := xs[..p], xs[p + 1..];
    WithoutSplit(xs, p);
    TotalLengthConcat(before + [xs[p]], after);
    TotalLengthConcat(before, [xs[p]]);
    TotalLengthConcat(before, after);
    TotalLengthOne(xs[p]);
  }

  // Everything but the interval of latest start lies before that start.
  lemma WithoutPacked(xs: seq<Interval>, p: nat, lo: real, hi: real)
    requires Packed(xs, lo, hi) && p < |xs| && forall i :: 0 <= i < |xs| ==> xs[i].start <= xs[p].start
    ensures Packed(Without(xs, p), lo, xs[p].start)
  {
    var rest := Without(xs, p);
    forall i | 0 <= i < |rest| ensures lo <= rest[i].start < rest[i].end <= xs[p].start {
      var k := if i < p then i else i + 1;
      assert rest[i] == xs[k];
    }
    forall i, j | 0 <= i < j < |rest| ensures !(rest[i].start < rest[j].end && rest[j].start < rest[i].end) {
      var k, m := if i < p then i else i + 1, if j < p then j else j + 1;
      assert rest[i] == xs[k] && rest[j] == xs[m];
    }
  }

  // Disjoint intervals in [lo, hi] have total length at most hi - lo.
  lemma {:induction false} PackingBound(xs: seq<Interval>, lo: real, hi: real)
    requires Packed(xs, lo, hi) && lo <= hi
    ensures TotalLength(xs) <= hi - lo
    decreases |xs|
  {
    hide TotalLength;
    if xs == [] {
      TotalLengthEmpty();
    } else {
      var p := LatestStart(xs);
      WithoutPacked(xs, p, lo, hi);
      TotalLengthWithout(xs, p);
      PackingBound(Without(xs, p), lo, xs[p].start);
    }
  }

  lemma TotalLengthEmpty()
    ensures TotalLength([]) == 0.0
  {}

  lemma TotalLengthOne(x: Interval)
    ensures TotalLength([x]) == x.end - x.start
  {
    assert [x][..0] == [];
  }

  // Summed duration of the pulses that act on q, each counted once.
  function DurationOn(pulses: seq<ScheduledPulse>, q: nat): real {
    if pulses == [] then 0.0 else
      var p := pulses[|pulses| - 1];
      DurationOn(pulses[..|pulses| - 1], q) + if q in p.qubits then p.DurationNs() else 0.0
  }

  // The time ranges of the pulses on q that have positive length.
  function BusyOn(pulses: seq<ScheduledPulse>, q: nat): seq<Interval> {
    if pulses == [] then [] else
      var p := pulses[|pulses| - 1];
      BusyOn(pulses[..|pulses| - 1], q)
      + if q in p.qubits && p.DurationNs() > 0.0 then [Interval(p.StartNs(), p.EndNs())] else []
  }

  lemma {:induction false} BusyMembers(pulses: seq<ScheduledPulse>, q: nat, n: nat, x: Interval)
    requires n <= |pulses| && x in BusyOn(pulses[..n], q)
    ensures exists k :: 0 <= k < n && q in pulses[k].qubits && pulses[k].DurationNs() > 0.0
                        && x == Interval(pulses[k].StartNs(), pulses[k].EndNs())
  {
    hide ScheduledPulse.StartNs, ScheduledPulse.DurationNs, ScheduledPulse.EndNs;
    if n > 0 {
      assert pulses[..n][..n - 1] == pulses[..n - 1];
      if x in BusyOn(pulses[..n - 1], q) {
        BusyMembers(pulses, q, n - 1, x);
      }
    }
  }

  lemma {:induction false} BusyPacked(pulses: seq<ScheduledPulse>, q: nat, n: nat, lo: real, hi: real)
    requires n <= |pulses|
    requires forall i, j :: 0 <= i < j < |pulses| ==> !Clash(pulses[i], pulses[j])
    requires forall k :: 0 <= k < |pulses| ==> lo <= pulses[k].StartNs() && pulses[k].EndNs() <= hi
    ensures Packed(BusyOn(pulses[..n], q), lo, hi)
  {
    hide ScheduledPulse.StartNs, Clash, ScheduledPulse.DurationNs;
    if n > 0 {
      assert pulses[..n][..n - 1] == pulses[..n - 1];
      BusyPacked(pulses, q, n - 1, lo, hi);
      var xs, p := BusyOn(pulses[..n - 1], q), pulses[n - 1];
      if q in p.qubits && p.DurationNs() > 0.0 {
        var last := Interval(p.StartNs(), p.EndNs());
        forall i | 0 <= i < |xs| ensures !(xs[i].start < last.end && last.start < xs[i].end) {
          BusyMembers(pulses, q, n - 1, xs[i]);
          var k :| 0 <= k < n - 1 && q in pulses[k].qubits && pulses[k].DurationNs() > 0.0
                   && xs[i] == Interval(pulses[k].StartNs(), pulses[k].EndNs());
          SharedClash(pulses[k], p, q);
        }
      }
    }
  }

  lemma SharedClash(a: ScheduledPulse, b: ScheduledPulse, q: nat)
    requires q in a.qubits && q in b.qubits && !Clash(a, b)
    ensures !(a.StartNs() < b.EndNs() && b.StartNs() < a.EndNs())
  {
    hide ScheduledPulse.StartNs, ScheduledPulse.EndNs;
    var i :| 0 <= i < |a.qubits| && a.qubits[i] == q;
    assert a.qubits[i] in b.qubits;
  }

  // Dropping the pulses of non-positive length can only raise the sum; without any positive pulse the sum is at
  // most the length of each single one.
  lemma {:induction false} BusyDominates(pulses: seq<ScheduledPulse>, q: nat)
    ensures DurationOn(pulses, q) <= TotalLength(BusyOn(pulses, q))
    ensures BusyOn(pulses, q) == [] ==>
              forall k :: 0 <= k < |pulses| && q in pulses[k].qubits ==> DurationOn(pulses, q) <= pulses[k].DurationNs()
  {
    hide ScheduledPulse.StartNs, ScheduledPulse.DurationNs, TotalLength;
    TotalLengthEmpty();
    if pulses != [] {
      var n := |pulses| - 1;
      BusyDominates(pulses[..n], q);
      var p, xs := pulses[n], BusyOn(pulses[..n], q);
      if q in p.qubits && p.DurationNs() > 0.0 {
        TotalLengthConcat(xs, [Interval(p.StartNs(), p.EndNs())]);
        TotalLengthOne(Interval(p.StartNs(), p.EndNs()));
      } else {
        assert BusyOn(pulses, q) == xs;
        assert forall k :: 0 <= k < n ==> pulses[..n][k] == pulses[k];
      }
    }
  }

  // In an accepted sequence the pulses of every qubit that occurs, whatever the signs of their durations, sum to
  // at most the total duration, which is within the configured limit.
  lemma {:induction false} AcceptedPacks(cfg: Config, s: SeqState, limits: Limits, q: nat)
    requires Judge(cfg, s, limits) == Accepted
    requires exists k :: 0 <= k < |s.pulses| && q in s.pulses[k].qubits
    ensures DurationOn(s.pulses, q) <= TotalDurationNs(s.pulses) <= limits.maxPulseDurationNs as real
  {
    hide ScheduledPulse.StartNs, ScheduledPulse.DurationNs, Clash, Issues, MinStart, MaxEnd, TotalLength, FirstTooLong;
    var pulses := s.pulses;
    var k :| 0 <= k < |pulses| && q in pulses[k].qubits;
    CleanMeansDisjoint(cfg, s);
    var lo, hi := MinStart(pulses), MaxEnd(pulses);
    assert pulses[..|pulses|] == pulses;
    BusyPacked(pulses, q, |pulses|, lo, hi);
    BusyDominates(pulses, q);
    var xs := BusyOn(pulses, q);
    if xs != [] {
      assert lo <= xs[0].start < xs[0].end <= hi;
      PackingBound(xs, lo, hi);
    }
  }

  // A qubit that no pulse touches sums to zero, so for it the bound says that the total duration is not negative.
  lemma {:induction false} UntouchedQubit(pulses: seq<ScheduledPulse>, q: nat)
    requires forall k :: 0 <= k < |pulses| ==> q !in pulses[k].qubits
    ensures DurationOn(pulses, q) == 0.0
  {
    if pulses != [] {
      UntouchedQubit(pulses[..|pulses| - 1], q);
    }
  }

  // A sequence accepted after any run has its budget equal to the charged time and fits every qubit in the limit.
  lemma RunFits(cfg: Config, ops: seq<Operation>, limits: Limits, q: nat)
    requires cfg.Valid() && cfg.limits.Some? && Judge(cfg, Run(cfg, ops), limits) == Accepted
    requires q in Run(cfg, ops).times
    requires forall k :: 0 <= k < |ops| && ops[k].AppendPulse? ==> NoRepeats(ops[k].qubits)
    ensures TimeOf(Run(cfg, ops).times, q) <= TotalDurationNs(Run(cfg, ops).pulses) <= limits.maxPulseDurationNs as real
  {
    hide Judge, Run, TotalDurationNs, TimeOf, Usage, DurationOn;
    var s := Run(cfg, ops);
    RunKeepsInvariant(cfg, ops);
    RunDuplicateFree(cfg, ops);
    AcceptedPacks(cfg, s, limits, q);
    UsageIsDuration(s.pulses, q);
  }

  ghost predicate AllDuplicateFree(pulses: seq<ScheduledPulse>) {
    forall k :: 0 <= k < |pulses| ==> NoRepeats(pulses[k].qubits)
  }

  lemma {:induction false} RunDuplicateFree(cfg: Config, ops: seq<Operation>)
    requires cfg.Valid()
    requires forall k :: 0 <= k < |ops| && ops[k].AppendPulse? ==> NoRepeats(ops[k].qubits)
    ensures AllDuplicateFree(Run(cfg, ops).pulses)
  {
    hide AllCanAdd, AddAll, Satisfied, Find;
    if ops != [] {
      RunDuplicateFree(cfg, ops[..|ops| - 1]);
    }
  }

  lemma {:induction false} UsageIsDuration(pulses: seq<ScheduledPulse>, q: nat)
    requires AllDuplicateFree(pulses)
    ensures Usage(pulses, q) == DurationOn(pulses, q)
  {
    hide Charge, Multiplicity, ScheduledPulse.DurationNs;
    if pulses != [] {
      var p := pulses[|pulses| - 1];
      UsageIsDuration(pulses[..|pulses| - 1], q);
      MultiplicityOne(p.qubits, q);
      ChargeLaws(0, p.DurationNs());
    }
  }
}
