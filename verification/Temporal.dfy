// Time points, the AWG grid, constraints and the decoherence budget: hal/src/temporal.
module Temporal {
  import opened Reals
  import opened Wrappers

  // ---------- types.rs ----------

  // f64::round: nearest integer, halves away from zero
  function Round(x: real): int {
    if x >= 0.0 then (x + 0.5).Floor else -((-x + 0.5).Floor)
  }

  lemma RoundInteger(n: int)
    ensures Round(n as real) == n
  {}

  const U32_MAX := 0xFFFF_FFFF

  // A float-to-u32 cast saturates.
  function ToU32(n: int): (u: nat)
    ensures u <= U32_MAX
  {
    if n < 0 then 0 else if n > U32_MAX then U32_MAX else n
  }

  datatype TimePoint = TimePoint(nominalNs: real, precisionNs: real, jitterNs: real)
  {
    // The time in units of the grid
    function Steps(): real
      requires precisionNs != 0.0
    {
      nominalNs / precisionNs
    }

    function QuantizedNs(): real
      requires precisionNs != 0.0
    {
      Round(Steps()) as real * precisionNs
    }

    function NumSamples(): nat
      requires precisionNs != 0.0
    {
      var n := Round(Steps());
      ToU32(if n < 1 then 1 else n)
    }
  }

  function FromDurationNs(ns: real): TimePoint {
    TimePoint(ns, 1.0, 0.0)
  }

  datatype AwgClock = AwgClock(sampleRateGhz: real, jitterNs: real, minSamples: nat, maxSamples: nat)
  {
    predicate Valid() {
      sampleRateGhz > 0.0 && jitterNs >= 0.0 && 1 <= minSamples <= maxSamples <= U32_MAX
    }

    function SamplePeriodNs(): real
      requires Valid()
    {
      1.0 / sampleRateGhz
    }

    function Samples(ns: real): nat
      requires Valid()
    {
      WholeSamples(InSamples(ns))
    }

    function InSamples(ns: real): real {
      ns * sampleRateGhz
    }

    // The cast to u32 of the rounded count, clamped to the limits
    function WholeSamples(x: real): nat
      requires Valid()
    {
      var n := ToU32(Round(x));
      if n < minSamples then minSamples else if n > maxSamples then maxSamples else n
    }

    function Duration(samples: nat): real
      requires Valid()
    {
      samples as real * SamplePeriodNs()
    }

    function QuantizeDuration(ns: real): real
      requires Valid()
    {
      Duration(Samples(ns))
    }

    function MakeTimePoint(ns: real): (t: TimePoint)
      requires Valid()
      ensures t.precisionNs > 0.0
    {
      TimePoint(ns, SamplePeriodNs(), jitterNs)
    }
  }

  lemma RoundNearest(x: real)
    ensures -0.5 <= Round(x) as real - x <= 0.5
  {}

  // A quantised time is within half a step of the nominal one.
  lemma QuantizedNear(t: TimePoint)
    requires t.precisionNs > 0.0
    ensures -0.5 * t.precisionNs <= t.QuantizedNs() - t.nominalNs <= 0.5 * t.precisionNs
  {
    hide TimePoint.Steps, Round;
    RoundNearest(t.Steps());
    StepsBack(t);
    NearMultiple(Round(t.Steps()) as real, t.Steps(), t.precisionNs);
  }

  lemma StepsBack(t: TimePoint)
    requires t.precisionNs > 0.0
    ensures t.Steps() * t.precisionNs == t.nominalNs
  {}

  lemma NonNegativeProduct(a: real, b: real)
    requires a >= 0.0 && b >= 0.0
    ensures a * b >= 0.0
  {}

  lemma Distributed(a: real, b: real, c: real, p: real)
    ensures (a + b - c) * p == a * p + b * p - c * p
    ensures (a - b + c) * p == a * p - b * p + c * p
  {}

  lemma NearMultiple(n: real, x: real, p: real)
    requires p > 0.0 && -0.5 <= n - x <= 0.5
    ensures -0.5 * p <= n * p - x * p <= 0.5 * p
  {
    NonNegativeProduct(0.5 - n + x, p);
    NonNegativeProduct(0.5 + n - x, p);
    Distributed(0.5, n, x, p);
  }

  // Inside the clock's limits the quantised duration is within half a sample period of the request; outside it is the
  // nearer limit.
  lemma QuantizedNearest(awg: AwgClock, ns: real)
    requires awg.Valid()
    ensures var period, d := awg.SamplePeriodNs(), awg.QuantizeDuration(ns);
            var low, high := awg.Duration(awg.minSamples), awg.Duration(awg.maxSamples);
            && (low <= ns <= high ==> -0.5 * period <= d - ns <= 0.5 * period)
            && (ns <= low ==> d == low)
            && (ns >= high ==> d == high)
  {
    hide AwgClock.WholeSamples, AwgClock.Duration, AwgClock.InSamples;
    var x := awg.InSamples(ns);
    WholeNearest(awg, x);
    DurationOrder(awg, ns, awg.minSamples);
    DurationOrder(awg, ns, awg.maxSamples);
    if awg.minSamples as real <= x <= awg.maxSamples as real { DurationNear(awg, ns, awg.WholeSamples(x)); }
  }

  lemma DurationNear(awg: AwgClock, ns: real, n: nat)
    requires awg.Valid() && -0.5 <= n as real - awg.InSamples(ns) <= 0.5
    ensures var period := awg.SamplePeriodNs(); -0.5 * period <= awg.Duration(n) - ns <= 0.5 * period
  {
    hide AwgClock.InSamples, AwgClock.SamplePeriodNs;
    SamplesBack(awg, ns);
    NearMultiple(n as real, awg.InSamples(ns), awg.SamplePeriodNs());
  }

  lemma DurationOrder(awg: AwgClock, ns: real, k: nat)
    requires awg.Valid()
    ensures ns <= awg.Duration(k) <==> awg.InSamples(ns) <= k as real
    ensures ns >= awg.Duration(k) <==> awg.InSamples(ns) >= k as real
  {
    hide AwgClock.InSamples, AwgClock.SamplePeriodNs;
    SamplesBack(awg, ns);
    Within(awg.InSamples(ns), k as real, awg.SamplePeriodNs());
  }

  lemma SamplesBack(awg: AwgClock, ns: real)
    requires awg.Valid()
    ensures awg.SamplePeriodNs() > 0.0 && awg.InSamples(ns) * awg.SamplePeriodNs() == ns
  {
    var rate := awg.sampleRateGhz;
    assert (ns * rate) * (1.0 / rate) == ns;
  }

  lemma Within(x: real, k: real, p: real)
    requires p > 0.0
    ensures x * p <= k * p <==> x <= k
    ensures x * p >= k * p <==> x >= k
  {
    Distributed(0.0, x, k, p);
    if x > k { assert (x - k) * p > 0.0; }
    if x < k { assert (k - x) * p > 0.0; }
  }

  lemma WholeNearest(awg: AwgClock, x: real)
    requires awg.Valid()
    ensures var n := awg.WholeSamples(x);
            && (awg.minSamples as real <= x <= awg.maxSamples as real ==> -0.5 <= n as real - x <= 0.5)
            && (x <= awg.minSamples as real ==> n == awg.minSamples)
            && (x >= awg.maxSamples as real ==> n == awg.maxSamples)
  {
    hide Round;
    RoundNearest(x);
    if x <= awg.minSamples as real { RoundBelow(x, awg.minSamples); }
    if x >= awg.maxSamples as real { RoundAbove(x, awg.maxSamples); }
    if awg.minSamples as real <= x <= awg.maxSamples as real { RoundBetween(x, awg.minSamples, awg.maxSamples); }
  }

  lemma RoundBetween(x: real, low: nat, high: nat)
    requires low as real <= x <= high as real
    ensures low <= Round(x) <= high
  {}

  lemma RoundBelow(x: real, k: nat)
    requires x <= k as real
    ensures Round(x) <= k
  {}

  lemma RoundAbove(x: real, k: nat)
    requires x >= k as real
    ensures Round(x) >= k
  {}

  // A quantised duration is a fixed point of the grid with a sample count inside the clock's limits.
  lemma QuantizedOnGrid(awg: AwgClock, ns: real)
    requires awg.Valid()
    ensures var t := awg.MakeTimePoint(awg.QuantizeDuration(ns));
            t.QuantizedNs() == t.nominalNs == awg.QuantizeDuration(ns) &&
              awg.minSamples <= t.NumSamples() <= awg.maxSamples
  {
    var n, p := awg.Samples(ns), awg.SamplePeriodNs();
    var t := awg.MakeTimePoint(awg.QuantizeDuration(ns));
    hide Round, AwgClock.WholeSamples, AwgClock.InSamples;
    DivideBack(n as real, p);
    assert t.Steps() == n as real;
    RoundInteger(n);
    SamplesWithin(awg, ns);
  }

  lemma SamplesWithin(awg: AwgClock, ns: real)
    requires awg.Valid()
    ensures awg.minSamples <= awg.Samples(ns) <= awg.maxSamples
  {
    hide Round;
  }

  lemma DivideBack(x: real, p: real)
    requires p != 0.0
    ensures x * p / p == x
  {}

  // ---------- constraints.rs ----------

  datatype ConstraintKind = Simultaneous | Sequential | Aligned | MaxDelay | MinGap

  datatype TemporalConstraint = TemporalConstraint(kind: ConstraintKind, a: string, b: string, toleranceNs: real,
                                                   fraction: real)

  function NewConstraint(kind: ConstraintKind, a: string, b: string, toleranceNs: real,
                         fraction: real): Result<TemporalConstraint> {
    if toleranceNs < 0.0 then Err("tolerance_ns must be non-negative")
    else if a == b then Err("a constraint cannot reference the same pulse for both A and B")
    else if kind == Aligned && !(0.0 < fraction < 1.0) then Err("alignment_fraction must be in (0, 1)")
    else Ok(TemporalConstraint(kind, a, b, toleranceNs, fraction))
  }

  predicate Check(c: TemporalConstraint, startA: real, durationA: real, startB: real, durationB: real, jitter: real) {
    var endA := startA + durationA;
    match c.kind
    case Simultaneous => Abs(startA - startB) <= c.toleranceNs + jitter
    case Sequential => startB - endA >= c.toleranceNs - jitter
    case Aligned => Abs(startA + c.fraction * durationA - (startB + durationB / 2.0)) <= c.toleranceNs + jitter
    case MaxDelay => startB - endA <= c.toleranceNs + jitter
    case MinGap =>
      var gap := if startA <= startB then startB - endA else startA - (startB + durationB);
      gap >= c.toleranceNs + jitter
  }

  // The quantity a constraint bounds: an offset, a gap, or a distance from the alignment target
  function Offset(c: TemporalConstraint, startA: real, durationA: real, startB: real, durationB: real): real {
    match c.kind
    case Simultaneous => startA - startB
    case Sequential => startB - (startA + durationA)
    case Aligned => startA + c.fraction * durationA - (startB + durationB / 2.0)
    case MaxDelay => startB - (startA + durationA)
    case MinGap => if startA <= startB then startB - (startA + durationA) else startA - (startB + durationB)
  }

  // The requirement itself, on an offset shifted by some timing error
  predicate Meets(c: TemporalConstraint, offset: real, error: real) {
    match c.kind
    case Simultaneous => -c.toleranceNs <= offset + error <= c.toleranceNs
    case Sequential => offset + error >= c.toleranceNs
    case Aligned => -c.toleranceNs <= offset + error <= c.toleranceNs
    case MaxDelay => offset + error <= c.toleranceNs
    case MinGap => offset + error >= c.toleranceNs
  }

  // What accounting for worst-case jitter means: a minimum gap is accepted exactly when every timing error within
  // the jitter meets the requirement, every other kind exactly when some such error does.
  lemma CheckMeaning(kind: ConstraintKind, a: string, b: string, toleranceNs: real, fraction: real,
                     c: TemporalConstraint, startA: real, durationA: real, startB: real, durationB: real, jitter: real)
    requires NewConstraint(kind, a, b, toleranceNs, fraction) == Ok(c) && jitter >= 0.0
    ensures var offset := Offset(c, startA, durationA, startB, durationB);
            Check(c, startA, durationA, startB, durationB, jitter) <==>
            if kind == MinGap then forall e :: -jitter <= e <= jitter ==> Meets(c, offset, e)
            else exists e :: -jitter <= e <= jitter && Meets(c, offset, e)
  {
    var offset := Offset(c, startA, durationA, startB, durationB);
    assert kind == MinGap && Meets(c, offset, -jitter) ==> offset - jitter >= c.toleranceNs;
    if kind != MinGap && Check(c, startA, durationA, startB, durationB, jitter) {
      var e := if kind == Sequential then jitter
               else if kind == MaxDelay then -jitter
               else if offset > jitter then -jitter
               else if offset < -jitter then jitter
               else -offset;
      assert -jitter <= e <= jitter && Meets(c, offset, e);
    }
  }

  // A constraint is created exactly for a non-negative tolerance, two pulses and, if aligned, a proper fraction.
  lemma NewConstraintExact(kind: ConstraintKind, a: string, b: string, toleranceNs: real, fraction: real)
    ensures NewConstraint(kind, a, b, toleranceNs, fraction).Ok? <==>
            toleranceNs >= 0.0 && a != b && (kind == Aligned ==> 0.0 < fraction < 1.0)
  {}

  // A satisfied minimum gap keeps pulses of non-negative length apart, in either order.
  lemma MinGapSeparates(c: TemporalConstraint, startA: real, durationA: real, startB: real, durationB: real,
                        jitter: real)
    requires c.kind == MinGap && c.toleranceNs >= 0.0 && jitter >= 0.0 && durationA >= 0.0 && durationB >= 0.0
    ensures Check(c, startA, durationA, startB, durationB, jitter)
       <==> if startA <= startB then startA + durationA + c.toleranceNs + jitter <= startB
            else startB + durationB + c.toleranceNs + jitter <= startA
    ensures Check(c, startA, durationA, startB, durationB, jitter) ==>
              !(startA < startB + durationB && startB < startA + durationA)
  {}

  // ---------- budget.rs ----------

  // The fixed part of a DecoherenceBudget; exp is abstract.
  datatype BudgetLimits = BudgetLimits(t1Us: map<nat, real>, t2Us: map<nat, real>, warn: real, block: real,
                                       exp: real -> real)

  type QubitTimes = map<nat, real>

  function TimeOf(times: QubitTimes, q: nat): real {
    if q in times then times[q] else 0.0
  }

  function AddTime(times: QubitTimes, q: nat, ns: real): QubitTimes {
    times[q := TimeOf(times, q) + ns]
  }

  function Fraction(l: BudgetLimits, table: map<nat, real>, q: nat, ns: real): real {
    if q in table && table[q] > 0.0 then 1.0 - l.exp(-ns / (table[q] * 1000.0)) else 0.0
  }

  function T1Fraction(l: BudgetLimits, times: QubitTimes, q: nat): real {
    Fraction(l, l.t1Us, q, TimeOf(times, q))
  }

  function T2Fraction(l: BudgetLimits, times: QubitTimes, q: nat): real {
    Fraction(l, l.t2Us, q, TimeOf(times, q))
  }

  predicate CanAdd(l: BudgetLimits, times: QubitTimes, q: nat, ns: real) {
    if q in l.t2Us && l.t2Us[q] > 0.0 then
      1.0 - l.exp(-(TimeOf(times, q) + ns) / (l.t2Us[q] * 1000.0)) < l.block
    else true
  }

  // The look-ahead is exactly the state after the mutation (for a positive block fraction).
  lemma CanAddExact(l: BudgetLimits, times: QubitTimes, q: nat, ns: real)
    requires l.block > 0.0
    ensures CanAdd(l, times, q, ns) <==> T2Fraction(l, AddTime(times, q, ns), q) < l.block
  {}

  datatype Channel = T1 | T2

  datatype Issue =
    | UnknownPulse(id: string)
    | ConstraintViolated(constraint: TemporalConstraint)
    | Block(qubit: nat, channel: Channel)
    | Warning(qubit: nat, channel: Channel)
    | Overlap(first: nat, second: nat)

  function Level(l: BudgetLimits, q: nat, channel: Channel, fraction: real): seq<Issue> {
    if fraction >= l.block then [Block(q, channel)]
    else if fraction >= l.warn then [Warning(q, channel)]
    else []
  }

  function QubitMessages(l: BudgetLimits, times: QubitTimes, q: nat): seq<Issue> {
    Level(l, q, T2, T2Fraction(l, times, q)) + Level(l, q, T1, T1Fraction(l, times, q))
  }

  predicate IsLeast(m: nat, s: set<nat>) {
    m in s && forall x :: x in s ==> m <= x
  }

  lemma {:induction false} LeastExists(s: set<nat>)
    requires s != {}
    ensures exists m :: IsLeast(m, s)
  {
    var m :| m in s;
    var rest := s - {m};
    if rest == {} {
      assert IsLeast(m, s) by { assert forall x :: x in s ==> x == m || x in rest; }
    } else {
      LeastExists(rest);
      var n :| IsLeast(n, rest);
      LeastOfBoth(s, m, n);
    }
  }

  lemma LeastOfBoth(s: set<nat>, m: nat, n: nat)
    requires m in s && IsLeast(n, s - {m})
    ensures IsLeast(if n < m then n else m, s)
  {
    assert forall x :: x in s ==> x == m || x in s - {m};
  }

  // The keys in increasing order.
  function SortedKeys(s: set<nat>): (keys: seq<nat>)
    ensures forall q :: q in keys <==> q in s
  {
    if s == {} then [] else
      LeastExists(s);
      var m :| IsLeast(m, s);
      [m] + SortedKeys(s - {m})
  }

  function MessagesFor(l: BudgetLimits, times: QubitTimes, keys: seq<nat>): seq<Issue> {
    if keys == [] then [] else QubitMessages(l, times, keys[0]) + MessagesFor(l, times, keys[1..])
  }

  function BudgetMessages(l: BudgetLimits, times: QubitTimes): seq<Issue> {
    MessagesFor(l, times, SortedKeys(times.Keys))
  }

  // A warning is reported exactly between the two limits.
  lemma {:induction false} WarningReported(l: BudgetLimits, times: QubitTimes, keys: seq<nat>, q: nat)
    ensures Warning(q, T2) in MessagesFor(l, times, keys) <==>
            q in keys && l.warn <= T2Fraction(l, times, q) < l.block
    ensures Warning(q, T1) in MessagesFor(l, times, keys) <==>
            q in keys && l.warn <= T1Fraction(l, times, q) < l.block
  {
    hide T1Fraction, T2Fraction;
    if keys != [] {
      WarningReported(l, times, keys[1..], q);
    }
  }

  // A block is reported for a qubit exactly when it has accumulated time and its fraction reaches the limit.
  lemma {:induction false} BlockReported(l: BudgetLimits, times: QubitTimes, keys: seq<nat>, q: nat)
    ensures Block(q, T2) in MessagesFor(l, times, keys) <==> q in keys && T2Fraction(l, times, q) >= l.block
    ensures Block(q, T1) in MessagesFor(l, times, keys) <==> q in keys && T1Fraction(l, times, q) >= l.block
    ensures forall i :: i in MessagesFor(l, times, keys) ==> i.Block? || i.Warning?
  {
    hide T1Fraction, T2Fraction;
    if keys != [] {
      BlockReported(l, times, keys[1..], q);
    }
  }
}
