// The cumulative error budget of a pulse sequence: core/src/qubitos/error_budget/__init__.py.
module ErrorBudgets {
  import opened Wrappers

  datatype ErrorSource = GateInfidelity | Leakage | Crosstalk | Readout | Idle

  datatype ErrorContribution = ErrorContribution(source: ErrorSource, infidelity: real, qubit: int, durationNs: real)

  // math.sqrt and math.exp
  datatype Maths = Maths(sqrt: real -> real, exp: real -> real)

  ghost predicate Lawful(m: Maths) {
    && (forall x :: x >= 0.0 ==> m.sqrt(x) >= 0.0)
    && (forall x, y :: x <= y ==> m.exp(x) <= m.exp(y))
    && m.exp(0.0) == 1.0
  }

  // attached is the error reported by an attached DecoherenceBudget, which the budget itself never changes.
  datatype Config = Config(
    maths: Maths, targetFidelity: real, coherentFraction: real, anharmonicityMhz: real,
    t1Us: map<int, real>, t2Us: map<int, real>, readoutFidelity: map<int, real>, attached: Option<real>)

  ghost predicate ValidConfig(c: Config) {
    Lawful(c.maths) && 0.0 <= c.targetFidelity <= 1.0 && 0.0 <= c.coherentFraction <= 1.0
  }

  // ---------- a dict in insertion order ----------

  datatype Entry = Entry(qubit: int, time: real)

  type Times = seq<Entry>

  ghost predicate Distinct(t: Times) {
    forall i, j :: 0 <= i < j < |t| ==> t[i].qubit != t[j].qubit
  }

  function Get(t: Times, q: int): real {
    if t == [] then 0.0 else if t[0].qubit == q then t[0].time else Get(t[1..], q)
  }

  predicate Has(t: Times, q: int) {
    exists e :: e in t && e.qubit == q
  }

  function Set(t: Times, q: int, v: real): Times {
    if t == [] then [Entry(q, v)] else if t[0].qubit == q then [Entry(q, v)] + t[1..] else [t[0]] + Set(t[1..], q, v)
  }

  function AddTime(t: Times, q: int, d: real): Times {
    Set(t, q, Get(t, q) + d)
  }

  lemma {:induction false} SetKeys(t: Times, q: int, v: real)
    ensures forall p :: Has(Set(t, q, v), p) <==> p == q || Has(t, p)
  {
    if t != [] {
      SetKeys(t[1..], q, v);
      var s := Set(t, q, v);
      forall p ensures Has(s, p) <==> p == q || Has(t, p) {
        HeadOrTail(t, p);
        HeadOrTail(s, p);
        assert s[1..] == if t[0].qubit == q then t[1..] else Set(t[1..], q, v);
      }
    } else {
      assert Entry(q, v) in Set(t, q, v);
    }
  }

  lemma HeadOrTail(t: Times, p: int)
    requires t != []
    ensures Has(t, p) <==> t[0].qubit == p || Has(t[1..], p)
  {
    assert t == [t[0]] + t[1..];
    assert t[0] in t;
    assert forall e :: e in t[1..] ==> e in t;
  }

  lemma {:induction false} SetDistinct(t: Times, q: int, v: real)
    requires Distinct(t)
    ensures Distinct(Set(t, q, v))
  {
    if t != [] && t[0].qubit != q {
      SetDistinct(t[1..], q, v);
      SetKeys(t[1..], q, v);
      HeadUnique(t);
      var s := Set(t[1..], q, v);
      forall j | 0 <= j < |s| ensures s[j].qubit != t[0].qubit {
        assert s[j] in s && Has(s, s[j].qubit);
      }
    }
  }

  lemma HeadUnique(t: Times)
    requires t != [] && Distinct(t)
    ensures !Has(t[1..], t[0].qubit)
  {
    forall i | 0 <= i < |t[1..]| ensures t[1..][i].qubit != t[0].qubit {
      assert t[1..][i] == t[i + 1];
    }
  }

  // ---------- the error model ----------

  function Decay(m: Maths, timeConstants: map<int, real>, q: int, tUs: real): real {
    if q in timeConstants && timeConstants[q] > 0.0 then 1.0 - m.exp(-tUs / timeConstants[q]) else 0.0
  }

  function QubitDecay(c: Config, q: int, timeNs: real): real {
    Decay(c.maths, c.t1Us, q, timeNs / 1000.0) + Decay(c.maths, c.t2Us, q, timeNs / 1000.0)
  }

  function InlineDecoherence(c: Config, t: Times): real {
    if t == [] then 0.0 else InlineDecoherence(c, t[..|t| - 1]) + QubitDecay(c, t[|t| - 1].qubit, t[|t| - 1].time)
  }

  function Decoherence(c: Config, t: Times): real {
    if c.attached.Some? then c.attached.value else InlineDecoherence(c, t)
  }

  function Total(source: ErrorSource, s: seq<ErrorContribution>): real {
    if s == [] then 0.0
    else
      var last := s[|s| - 1];
      Total(source, s[..|s| - 1]) + if last.source == source then last.infidelity else 0.0
  }

  function Amplitudes(m: Maths, s: seq<ErrorContribution>): real {
    if s == [] then 0.0
    else
      var last := s[|s| - 1];
      Amplitudes(m, s[..|s| - 1]) +
      if last.source == GateInfidelity && last.infidelity > 0.0 then m.sqrt(last.infidelity) else 0.0
  }

  function Coherent(c: Config, amplitude: real): real {
    c.coherentFraction * (amplitude * amplitude)
  }

  datatype Budget = Budget(contributions: seq<ErrorContribution>, times: Times)

  function CoherentCorrection(c: Config, b: Budget): real {
    if c.coherentFraction == 0.0 then 0.0 else Coherent(c, Amplitudes(c.maths, b.contributions))
  }

  function ProjectedInfidelity(c: Config, b: Budget): real {
    Total(GateInfidelity, b.contributions) + CoherentCorrection(c, b) + Decoherence(c, b.times)
    + Total(Readout, b.contributions) + Total(Crosstalk, b.contributions) + Total(Leakage, b.contributions)
  }

  function ProjectedFidelity(c: Config, b: Budget): real {
    var f := 1.0 - ProjectedInfidelity(c, b);
    if f > 0.0 then f else 0.0
  }

  predicate WithinBudget(c: Config, b: Budget) {
    ProjectedFidelity(c, b) >= c.targetFidelity
  }

  // ---------- operations ----------

  datatype Operation =
    | AddGate(infidelity: real, qubit: int, durationNs: real)
    | AddTwoQubitGate(infidelity: real, qubitA: int, qubitB: int, durationNs: real)
    | AddIdle(qubit: int, durationNs: real)
    | AddReadout(qubit: int, error: Option<real>)
    | AddCrosstalk(qubit: int, couplingMhz: real, durationNs: real)
    | AddLeakage(qubit: int, driveAmplitudeMhz: real, anharmonicity: Option<real>)

  function Square(x: real): real { x * x }

  function DriveRatio(driveMhz: real, alpha: real): real
    requires alpha != 0.0
  {
    driveMhz / alpha
  }

  // A coupling in MHz over a duration in ns
  function CouplingPhase(couplingMhz: real, durationNs: real): real {
    (couplingMhz * 1000000.0) * (durationNs * 0.000000001)
  }

  function Alpha(c: Config, a: Option<real>): real {
    if a.Some? && a.value != 0.0 then a.value else c.anharmonicityMhz
  }

  // The contribution an operation records; None stands for the ValueError of a zero anharmonicity.
  function Contribution(c: Config, op: Operation): Option<ErrorContribution> {
    match op
    case AddGate(e, q, d) => Some(ErrorContribution(GateInfidelity, e, q, d))
    case AddTwoQubitGate(e, qa, qb, d) => Some(ErrorContribution(GateInfidelity, e, qa, d))
    case AddIdle(q, d) => Some(ErrorContribution(Idle, 0.0, q, d))
    case AddReadout(q, e) =>
      var fidelity := if q in c.readoutFidelity then c.readoutFidelity[q] else 1.0;
      Some(ErrorContribution(Readout, if e.Some? then e.value else 1.0 - fidelity, q, 0.0))
    case AddCrosstalk(q, g, d) => Some(ErrorContribution(Crosstalk, Square(CouplingPhase(g, d)), q, d))
    case AddLeakage(q, w, a) =>
      if Alpha(c, a) == 0.0 then None else Some(ErrorContribution(Leakage, Square(DriveRatio(w, Alpha(c, a))), q, 0.0))
  }

  // The checks made while building the contribution, before anything is stored
  predicate Accepted(c: Config, op: Operation) {
    var e := Contribution(c, op);
    e.Some? && e.value.infidelity >= 0.0 && e.value.durationNs >= 0.0
  }

  function Timed(t: Times, op: Operation): Times {
    match op
    case AddGate(_, q, d) => AddTime(t, q, d)
    case AddTwoQubitGate(_, qa, qb, d) => AddTime(AddTime(t, qa, d), qb, d)
    case AddIdle(q, d) => AddTime(t, q, d)
    case _ => t
  }

  // A rejected operation raises and leaves the budget as it was.
  function Apply(c: Config, b: Budget, op: Operation): Budget {
    if Accepted(c, op) then Budget(b.contributions + [Contribution(c, op).value], Timed(b.times, op)) else b
  }

  function Run(c: Config, b: Budget, ops: seq<Operation>): Budget {
    if ops == [] then b else Apply(c, Run(c, b, ops[..|ops| - 1]), ops[|ops| - 1])
  }

  // ---------- what an operation charges ----------

  lemma {:induction false} GetSet(t: Times, q: int, v: real, p: int)
    ensures Get(Set(t, q, v), p) == if p == q then v else Get(t, p)
  {
    if t != [] && t[0].qubit != q {
      GetSet(t[1..], q, v, p);
      assert Set(t, q, v)[1..] == Set(t[1..], q, v);
    } else if t != [] {
      assert Set(t, q, v)[1..] == t[1..];
    } else {
      assert Set(t, q, v)[1..] == [];
    }
  }

  // An accepted operation adds its duration once to every qubit it drives or idles: a two-qubit gate to both of its
  // qubits, readout, crosstalk and leakage to none.
  lemma TimesCharged(t: Times, op: Operation, q: int)
    ensures Get(Timed(t, op), q) == Get(t, q) +
      match op
      case AddGate(_, a, d) => if q == a then d else 0.0
      case AddTwoQubitGate(_, a, b, d) => (if q == a then d else 0.0) + if q == b then d else 0.0
      case AddIdle(a, d) => if q == a then d else 0.0
      case _ => 0.0
  {
    hide Get, Set;
    match op
    case AddGate(_, a, d) => GetSet(t, a, Get(t, a) + d, q);
    case AddTwoQubitGate(_, a, b, d) =>
      GetSet(t, a, Get(t, a) + d, q);
      GetSet(t, a, Get(t, a) + d, b);
      GetSet(AddTime(t, a, d), b, Get(AddTime(t, a, d), b) + d, q);
    case AddIdle(a, d) => GetSet(t, a, Get(t, a) + d, q);
    case _ =>
  }

  // The error of one relaxation channel: 1 - exp(-t / T) for every qubit with a known constant, times in ns against
  // constants in us
  function ChannelError(m: Maths, timeConstants: map<int, real>, t: Times): real {
    if t == [] then 0.0
    else
      var e := t[|t| - 1];
      ChannelError(m, timeConstants, t[..|t| - 1]) +
      if e.qubit in timeConstants && timeConstants[e.qubit] > 0.0 then
        1.0 - m.exp(-(e.time / 1000.0) / timeConstants[e.qubit])
      else 0.0
  }

  // Decoherence is the sum of a T1 and a T2 part.
  lemma {:induction false} DecoherenceChannels(c: Config, t: Times)
    ensures InlineDecoherence(c, t) == ChannelError(c.maths, c.t1Us, t) + ChannelError(c.maths, c.t2Us, t)
  {
    if t != [] { DecoherenceChannels(c, t[..|t| - 1]); }
  }

  // ---------- no operation raises the projected fidelity ----------

  lemma DecayMonotone(m: Maths, timeConstants: map<int, real>, q: int, t: real, u: real)
    requires Lawful(m) && t <= u
    ensures Decay(m, timeConstants, q, t) <= Decay(m, timeConstants, q, u)
  {
    if q in timeConstants && timeConstants[q] > 0.0 {
      DivideMonotone(t, u, timeConstants[q]);
    }
  }

  lemma DivideMonotone(t: real, u: real, k: real)
    requires k > 0.0 && t <= u
    ensures -u / k <= -t / k
  {}

  // Setting one entry changes the sum by that entry's own change; an absent entry counts as nothing.
  lemma {:induction false} DecoherenceOfSet(c: Config, t: Times, q: int, v: real)
    requires Distinct(t)
    ensures InlineDecoherence(c, Set(t, q, v)) ==
            InlineDecoherence(c, t) - (if Has(t, q) then QubitDecay(c, q, Get(t, q)) else 0.0) + QubitDecay(c, q, v)
  {
    hide QubitDecay;
    if t == [] {
      assert [Entry(q, v)][..0] == [];
    } else {
      HeadOrTail(t, q);
      DecoherenceFromHead(c, t);
      DecoherenceFromHead(c, Set(t, q, v));
      if t[0].qubit == q {
        NotInTail(t);
      } else {
        assert ([t[0]] + Set(t[1..], q, v))[1..] == Set(t[1..], q, v);
        DecoherenceOfSet(c, t[1..], q, v);
      }
    }
  }

  lemma NotInTail(t: Times)
    requires Distinct(t) && t != []
    ensures !Has(t[1..], t[0].qubit)
  {
    forall e | e in t[1..] ensures e.qubit != t[0].qubit {
      var i :| 0 <= i < |t| - 1 && t[1..][i] == e;
      assert t[i + 1] == e;
    }
  }

  lemma {:induction false} DecoherenceFromHead(c: Config, t: Times)
    requires t != []
    ensures InlineDecoherence(c, t) == QubitDecay(c, t[0].qubit, t[0].time) + InlineDecoherence(c, t[1..])
  {
    hide QubitDecay;
    if |t| == 1 {
      assert t[..0] == [] && t[1..] == [];
    } else {
      DecoherenceFromHead(c, t[..|t| - 1]);
      assert t[..|t| - 1][1..] == t[1..][..|t| - 2];
    }
  }

  lemma {:induction false} AbsentIsZero(t: Times, q: int)
    requires !Has(t, q)
    ensures Get(t, q) == 0.0
  {
    if t != [] {
      HeadOrTail(t, q);
      AbsentIsZero(t[1..], q);
    }
  }

  lemma TimeNeverHelps(c: Config, t: Times, q: int, d: real)
    requires Distinct(t) && Lawful(c.maths) && d >= 0.0
    ensures InlineDecoherence(c, t) <= InlineDecoherence(c, AddTime(t, q, d))
    ensures Distinct(AddTime(t, q, d))
  {
    hide Decay;
    var v := Get(t, q) + d;
    SetDistinct(t, q, v);
    DecoherenceOfSet(c, t, q, v);
    DecayMonotone(c.maths, c.t1Us, q, Get(t, q) / 1000.0, v / 1000.0);
    DecayMonotone(c.maths, c.t2Us, q, Get(t, q) / 1000.0, v / 1000.0);
    if !Has(t, q) {
      AbsentIsZero(t, q);
      NoDecayAtStart(c.maths, c.t1Us, q);
      NoDecayAtStart(c.maths, c.t2Us, q);
    }
  }

  lemma NoDecayAtStart(m: Maths, timeConstants: map<int, real>, q: int)
    requires m.exp(0.0) == 1.0
    ensures Decay(m, timeConstants, q, 0.0 / 1000.0) == 0.0
  {
    if q in timeConstants && timeConstants[q] > 0.0 {
      assert -0.0 / timeConstants[q] == 0.0;
    }
  }

  lemma {:induction false} AmplitudesNonNegative(m: Maths, s: seq<ErrorContribution>)
    requires Lawful(m)
    ensures Amplitudes(m, s) >= 0.0
  {
    if s != [] { AmplitudesNonNegative(m, s[..|s| - 1]); }
  }

  lemma CoherentMonotone(c: Config, x: real, y: real)
    requires c.coherentFraction >= 0.0 && 0.0 <= x <= y
    ensures Coherent(c, x) <= Coherent(c, y)
  {
    ScaleMonotone(x, x, y);
    ScaleMonotone(y, x, y);
    ScaleMonotone(c.coherentFraction, x * x, y * y);
  }

  lemma ScaleMonotone(k: real, x: real, y: real)
    requires k >= 0.0 && x <= y
    ensures k * x <= k * y
  {}

  // Recording one more contribution of non-negative error and more time never lowers the projected error.
  lemma MoreIsWorse(c: Config, b: Budget, e: ErrorContribution, t: Times)
    requires ValidConfig(c) && e.infidelity >= 0.0
    requires Decoherence(c, b.times) <= Decoherence(c, t)
    ensures ProjectedInfidelity(c, b) <= ProjectedInfidelity(c, Budget(b.contributions + [e], t))
  {
    hide Decoherence, Coherent;
    var s := b.contributions + [e];
    assert s[..|s| - 1] == b.contributions;
    AmplitudesNonNegative(c.maths, b.contributions);
    CoherentMonotone(c, Amplitudes(c.maths, b.contributions), Amplitudes(c.maths, s));
  }

  lemma ApplyNeverHelps(c: Config, b: Budget, op: Operation)
    requires ValidConfig(c) && Distinct(b.times)
    ensures Distinct(Apply(c, b, op).times)
    ensures ProjectedInfidelity(c, b) <= ProjectedInfidelity(c, Apply(c, b, op))
  {
    hide Lawful, InlineDecoherence, ProjectedInfidelity, AddTime;
    if Accepted(c, op) {
      var e := Contribution(c, op).value;
      TimedNeverHelps(c, b.times, op);
      MoreIsWorse(c, b, e, Timed(b.times, op));
    }
  }

  lemma TimedNeverHelps(c: Config, t: Times, op: Operation)
    requires Lawful(c.maths) && Distinct(t) && Accepted(c, op)
    ensures Distinct(Timed(t, op)) && InlineDecoherence(c, t) <= InlineDecoherence(c, Timed(t, op))
  {
    hide Lawful, InlineDecoherence, AddTime;
    match op
    case AddGate(_, q, d) => TimeNeverHelps(c, t, q, d);
    case AddTwoQubitGate(_, qa, qb, d) =>
      TimeNeverHelps(c, t, qa, d);
      TimeNeverHelps(c, AddTime(t, qa, d), qb, d);
    case AddIdle(q, d) => TimeNeverHelps(c, t, q, d);
    case _ =>
  }

  // Over a whole run the projected fidelity only falls, so a sequence that leaves its budget never comes back.
  lemma {:induction false} RunNeverHelps(c: Config, b: Budget, ops: seq<Operation>, k: nat)
    requires ValidConfig(c) && Distinct(b.times) && k <= |ops|
    ensures Distinct(Run(c, b, ops).times)
    ensures ProjectedFidelity(c, Run(c, b, ops)) <= ProjectedFidelity(c, Run(c, b, ops[..k]))
    ensures WithinBudget(c, Run(c, b, ops)) ==> WithinBudget(c, Run(c, b, ops[..k]))
  {
    hide ValidConfig, ProjectedInfidelity, Apply;
    if k == |ops| {
      assert ops[..k] == ops;
      if ops != [] {
        RunNeverHelps(c, b, ops[..|ops| - 1], |ops| - 1);
        ApplyNeverHelps(c, Run(c, b, ops[..|ops| - 1]), ops[|ops| - 1]);
      }
    } else {
      var before := ops[..|ops| - 1];
      RunNeverHelps(c, b, before, k);
      assert before[..k] == ops[..k];
      ApplyNeverHelps(c, Run(c, b, before), ops[|ops| - 1]);
    }
  }

  // ---------- the look-ahead ----------

  // The budget with one more gate, whatever its arguments
  function Append(b: Budget, infidelity: real, q: int, durationNs: real): Budget {
    Budget(b.contributions + [ErrorContribution(GateInfidelity, infidelity, q, durationNs)],
           AddTime(b.times, q, durationNs))
  }

  // can_append ignores an attached DecoherenceBudget and does not clamp.
  predicate LookAhead(c: Config, b: Budget, infidelity: real, durationNs: real, q: int) {
    1.0 - ProjectedInfidelity(c.(attached := None), Append(b, infidelity, q, durationNs)) >= c.targetFidelity
  }

  lemma LookAheadAgrees(c: Config, b: Budget, infidelity: real, durationNs: real, q: int)
    requires ValidConfig(c) && c.attached.None? && infidelity >= 0.0 && durationNs >= 0.0
    ensures var after := Apply(c, b, AddGate(infidelity, q, durationNs));
            var answer := LookAhead(c, b, infidelity, durationNs, q);
            && (answer ==> WithinBudget(c, after))
            && ((answer <==> WithinBudget(c, after)) <==>
              (c.targetFidelity > 0.0 || ProjectedInfidelity(c, after) <= 1.0))
  {
    hide ProjectedInfidelity;
    assert c.(attached := None) == c;
  }

  lemma LookAheadIsSafe(c: Config, b: Budget, infidelity: real, durationNs: real, q: int)
    requires ValidConfig(c) && Distinct(b.times) && c.attached.None? && infidelity >= 0.0 && durationNs >= 0.0
    requires LookAhead(c, b, infidelity, durationNs, q)
    ensures WithinBudget(c, b)
  {
    hide ProjectedInfidelity;
    LookAheadAgrees(c, b, infidelity, durationNs, q);
    ApplyNeverHelps(c, b, AddGate(infidelity, q, durationNs));
  }

  // What target and all contributions but decoherence leave for the decoherence error
  function Slack(c: Config, b: Budget): real {
    1.0 - c.targetFidelity - (ProjectedInfidelity(c, b) - Decoherence(c, b.times))
  }

  // With an attached budget the look-ahead compares the inline error with that slack, is_within_budget the
  // attached one: they agree exactly when both errors fall on the same side of it.
  lemma AttachedAgreesExactly(c: Config, b: Budget, infidelity: real, durationNs: real, q: int)
    requires ValidConfig(c) && c.attached.Some? && infidelity >= 0.0 && durationNs >= 0.0
    ensures var after := Apply(c, b, AddGate(infidelity, q, durationNs));
            var answer, inline := LookAhead(c, b, infidelity, durationNs, q), InlineDecoherence(c, after.times);
            && (answer <==> inline <= Slack(c, after))
            && (WithinBudget(c, after) <==> c.targetFidelity == 0.0 || c.attached.value <= Slack(c, after))
            && (c.targetFidelity > 0.0 ==>
                  ((answer <==> WithinBudget(c, after)) <==>
                    (inline <= Slack(c, after) <==> c.attached.value <= Slack(c, after))))
            && (c.attached.value <= inline && answer ==> WithinBudget(c, after))
  {
    hide Total, Amplitudes, InlineDecoherence, AddTime;
    SameInline(c, AddTime(b.times, q, durationNs));
  }

  // With an attached budget the two may differ: it is consulted by is_within_budget only.
  lemma AttachedBudgetIgnored(m: Maths)
    requires Lawful(m)
    ensures var c := Config(m, 0.5, 0.0, 300.0, map[], map[], map[], Some(0.9));
            && LookAhead(c, Budget([], []), 0.0, 0.0, 0)
            && !WithinBudget(c, Apply(c, Budget([], []), AddGate(0.0, 0, 0.0)))
  {
    var c := Config(m, 0.5, 0.0, 300.0, map[], map[], map[], Some(0.9));
    var s := [ErrorContribution(GateInfidelity, 0.0, 0, 0.0)];
    assert s[..0] == [];
    assert Append(Budget([], []), 0.0, 0, 0.0).contributions == s;
    DecoherenceOfSet(c.(attached := None), [], 0, 0.0);
  }

  // ---------- the mutable object ----------

  class ErrorBudget {
    const config: Config
    var contributions: seq<ErrorContribution>
    var qubitTimeNs: Times

    ghost predicate Valid()
      reads this
    {
      ValidConfig(config) && Distinct(qubitTimeNs)
    }

    function State(): Budget
      reads this
    {
      Budget(contributions, qubitTimeNs)
    }

    constructor (config: Config)
      requires ValidConfig(config)
      ensures Valid() && this.config == config && State() == Budget([], [])
    {
      this.config := config;
      contributions := [];
      qubitTimeNs := [];
    }

    // __post_init__ raises ValueError for fractions outside [0, 1].
    static method Make(config: Config) returns (b: ErrorBudget?)
      requires Lawful(config.maths)
      ensures b != null <==> ValidConfig(config)
      ensures b != null ==> fresh(b) && b.Valid() && b.config == config && b.State() == Budget([], [])
    {
      if !(0.0 <= config.targetFidelity <= 1.0) { return null; }
      if !(0.0 <= config.coherentFraction <= 1.0) { return null; }
      b := new ErrorBudget(config);
    }

    // Every add_* call: false when it raises ValueError, having changed nothing.
    method Add(op: Operation) returns (ok: bool)
      requires Valid()
      modifies this
      ensures Valid()
      ensures ok <==> Accepted(config, op)
      ensures State() == Apply(config, old(State()), op)
      ensures ProjectedInfidelity(config, State()) >= ProjectedInfidelity(config, old(State()))
    {
      hide AddTime, ProjectedInfidelity;
      ApplyNeverHelps(config, State(), op);
      var e := Contribution(config, op);
      if e.None? || e.value.infidelity < 0.0 || e.value.durationNs < 0.0 { return false; }
      contributions := contributions + [e.value];
      match op {
        case AddGate(_, q, d) =>
          qubitTimeNs := AddTime(qubitTimeNs, q, d);
        case AddTwoQubitGate(_, qa, qb, d) =>
          qubitTimeNs := AddTime(qubitTimeNs, qa, d);
          qubitTimeNs := AddTime(qubitTimeNs, qb, d);
        case AddIdle(q, d) =>
          qubitTimeNs := AddTime(qubitTimeNs, q, d);
        case _ =>
      }
      return true;
    }

    method Reset()
      requires Valid()
      modifies this
      ensures Valid() && State() == Budget([], [])
    {
      contributions := [];
      qubitTimeNs := [];
    }

    method DecoherenceInline() returns (total: real)
      ensures total == InlineDecoherence(config, qubitTimeNs)
    {
      total := 0.0;
      for i := 0 to |qubitTimeNs|
        invariant total == InlineDecoherence(config, qubitTimeNs[..i])
      {
        assert qubitTimeNs[..i + 1][..i] == qubitTimeNs[..i];
        var q, tUs := qubitTimeNs[i].qubit, qubitTimeNs[i].time / 1000.0;
        if q in config.t1Us && config.t1Us[q] > 0.0 {
          total := total + (1.0 - config.maths.exp(-tUs / config.t1Us[q]));
        }
        if q in config.t2Us && config.t2Us[q] > 0.0 {
          total := total + (1.0 - config.maths.exp(-tUs / config.t2Us[q]));
        }
      }
      assert qubitTimeNs[..|qubitTimeNs|] == qubitTimeNs;
    }

    method AmplitudeSum() returns (sum: real)
      ensures sum == Amplitudes(config.maths, contributions)
    {
      sum := 0.0;
      for i := 0 to |contributions|
        invariant sum == Amplitudes(config.maths, contributions[..i])
      {
        assert contributions[..i + 1][..i] == contributions[..i];
        if contributions[i].source == GateInfidelity && contributions[i].infidelity > 0.0 {
          sum := sum + config.maths.sqrt(contributions[i].infidelity);
        }
      }
      assert contributions[..|contributions|] == contributions;
    }

    // The decoherence error after extra time on one qubit, in one pass over the tracked qubits
    method DecoherenceAhead(qubit: int, durationNs: real) returns (total: real)
      requires Valid()
      ensures total == InlineDecoherence(config, AddTime(qubitTimeNs, qubit, durationNs))
    {
      hide ValidConfig, Decay, InlineDecoherence, Set, Get;
      var newTime := Get(qubitTimeNs, qubit) + durationNs;
      total := 0.0;
      ReplacedStart(config, qubit, newTime);
      for i := 0 to |qubitTimeNs|
        invariant total == Replaced(config, qubitTimeNs[..i], qubit, newTime)
      {
        var entry := qubitTimeNs[i];
        var t := if entry.qubit == qubit then newTime else entry.time;
        assert qubitTimeNs[..i + 1] == qubitTimeNs[..i] + [entry];
        ReplacedStep(config, qubitTimeNs[..i], entry, qubit, newTime);
        total := total + Decay(config.maths, config.t1Us, entry.qubit, t / 1000.0);
        total := total + Decay(config.maths, config.t2Us, entry.qubit, t / 1000.0);
      }
      assert qubitTimeNs[..|qubitTimeNs|] == qubitTimeNs;
      if !Has(qubitTimeNs, qubit) {
        DecoherenceOfSet(config, qubitTimeNs, qubit, newTime);
        AbsentIsZero(qubitTimeNs, qubit);
        total := total + Decay(config.maths, config.t1Us, qubit, durationNs / 1000.0);
        total := total + Decay(config.maths, config.t2Us, qubit, durationNs / 1000.0);
      }
    }

    method SumOf(source: ErrorSource) returns (sum: real)
      ensures sum == Total(source, contributions)
    {
      sum := 0.0;
      for i := 0 to |contributions|
        invariant sum == Total(source, contributions[..i])
      {
        assert contributions[..i + 1][..i] == contributions[..i];
        if contributions[i].source == source { sum := sum + contributions[i].infidelity; }
      }
      assert contributions[..|contributions|] == contributions;
    }

    // Without an attached budget and with a positive target, exactly is_within_budget after the same add_gate.
    method CanAppend(gateInfidelity: real, gateDurationNs: real, qubit: int) returns (r: bool)
      requires Valid()
      ensures r == LookAhead(config, State(), gateInfidelity, gateDurationNs, qubit)
      ensures config.attached.None? && config.targetFidelity > 0.0 && gateInfidelity >= 0.0 && gateDurationNs >= 0.0 ==>
                r == WithinBudget(config, Apply(config, State(), AddGate(gateInfidelity, qubit, gateDurationNs)))
    {
      hide InlineDecoherence, AddTime, Total, Amplitudes, Coherent, LookAhead, WithinBudget, Apply;
      var gateTotal := SumOf(GateInfidelity);
      var newGateTotal := gateTotal + gateInfidelity;
      var newCoherent := 0.0;
      if config.coherentFraction > 0.0 {
        var amplitudeSum := AmplitudeSum();
        if gateInfidelity > 0.0 { amplitudeSum := amplitudeSum + config.maths.sqrt(gateInfidelity); }
        newCoherent := Coherent(config, amplitudeSum);
      }
      var newDecoherence := DecoherenceAhead(qubit, gateDurationNs);
      var readout := SumOf(Readout);
      var crosstalk := SumOf(Crosstalk);
      var leakage := SumOf(Leakage);
      var projected := newGateTotal + newCoherent + newDecoherence + readout + crosstalk + leakage;
      r := 1.0 - projected >= config.targetFidelity;
      LookAheadSum(config, State(), gateInfidelity, gateDurationNs, qubit);
      if config.attached.None? && gateInfidelity >= 0.0 && gateDurationNs >= 0.0 {
        LookAheadAgrees(config, State(), gateInfidelity, gateDurationNs, qubit);
      }
    }

    method IsWithinBudget() returns (r: bool)
      ensures r == WithinBudget(config, State())
    {
      hide InlineDecoherence;
      var gate := SumOf(GateInfidelity);
      var coherent := 0.0;
      if config.coherentFraction != 0.0 {
        var amplitudeSum := AmplitudeSum();
        coherent := Coherent(config, amplitudeSum);
      }
      var decoherence;
      if config.attached.Some? { decoherence := config.attached.value; } else { decoherence := DecoherenceInline(); }
      var readout := SumOf(Readout);
      var crosstalk := SumOf(Crosstalk);
      var leakage := SumOf(Leakage);
      var projected := gate + coherent + decoherence + readout + crosstalk + leakage;
      r := (if 1.0 - projected > 0.0 then 1.0 - projected else 0.0) >= config.targetFidelity;
    }
  }

  lemma {:induction false} SameInline(c: Config, t: Times)
    ensures InlineDecoherence(c.(attached := None), t) == InlineDecoherence(c, t)
  {
    if t != [] { SameInline(c, t[..|t| - 1]); }
  }

  lemma LookAheadSum(c: Config, b: Budget, infidelity: real, durationNs: real, q: int)
    ensures LookAhead(c, b, infidelity, durationNs, q) <==>
            1.0 - (Total(GateInfidelity, b.contributions) + infidelity
                   + (if c.coherentFraction == 0.0 then 0.0 else
                        Coherent(c, Amplitudes(c.maths, b.contributions) +
                                    if infidelity > 0.0 then c.maths.sqrt(infidelity) else 0.0))
                   + InlineDecoherence(c, AddTime(b.times, q, durationNs))
                   + Total(Readout, b.contributions) + Total(Crosstalk, b.contributions)
                   + Total(Leakage, b.contributions)) >= c.targetFidelity
  {
    hide InlineDecoherence, AddTime;
    SameInline(c, AddTime(b.times, q, durationNs));
    var s := Append(b, infidelity, q, durationNs).contributions;
    assert s[..|s| - 1] == b.contributions;
  }

  // The inline sum over t with the time of q, if tracked, replaced by v
  function Replaced(c: Config, t: Times, q: int, v: real): real {
    if Has(t, q) then InlineDecoherence(c, Set(t, q, v)) else InlineDecoherence(c, t)
  }

  lemma ReplacedStart(c: Config, q: int, v: real)
    ensures Replaced(c, [], q, v) == 0.0
  {}

  lemma ReplacedStep(c: Config, t: Times, e: Entry, q: int, v: real)
    requires !Has(t, e.qubit)
    ensures Replaced(c, t + [e], q, v) ==
      Replaced(c, t, q, v) + QubitDecay(c, e.qubit, if e.qubit == q then v else e.time)
  {
    hide QubitDecay;
    SetOfAppend(t, e, q, v);
    assert (t + [e])[..|t|] == t && (t + [Entry(q, v)])[..|t|] == t;
    assert (Set(t, q, v) + [e])[..|Set(t, q, v)|] == Set(t, q, v);
  }

  lemma {:induction false} SetOfAppend(t: Times, e: Entry, q: int, v: real)
    ensures Has(t + [e], q) <==> Has(t, q) || e.qubit == q
    ensures Has(t, q) ==> Set(t + [e], q, v) == Set(t, q, v) + [e]
    ensures !Has(t, q) && e.qubit == q ==> Set(t + [e], q, v) == t + [Entry(q, v)]
  {
    assert e in t + [e];
    assert forall x :: x in t + [e] <==> x in t || x == e;
    if t != [] {
      HeadOrTail(t, q);
      assert (t + [e])[1..] == t[1..] + [e];
      SetOfAppend(t[1..], e, q, v);
    }
  }

  // ---------- coherent errors add in amplitude ----------

  // n gates of one infidelity, on any qubits
  ghost predicate EqualGates(s: seq<ErrorContribution>, e: real) {
    forall k :: 0 <= k < |s| ==> s[k].source == GateInfidelity && s[k].infidelity == e
  }

  lemma {:induction false} EqualSums(m: Maths, s: seq<ErrorContribution>, e: real)
    requires EqualGates(s, e) && e > 0.0
    ensures Amplitudes(m, s) == |s| as real * m.sqrt(e) && Total(GateInfidelity, s) == |s| as real * e
  {
    if s != [] {
      var n := |s| - 1;
      EqualSums(m, s[..n], e);
      OneMore(n, m.sqrt(e));
      OneMore(n, e);
    }
  }

  lemma OneMore(n: nat, x: real)
    ensures (n + 1) as real * x == n as real * x + x
  {}

  // The coherent part of n equal gates grows with the square of their number, the incoherent part linearly.
  lemma EqualGatesAddCoherently(c: Config, b: Budget, e: real)
    requires EqualGates(b.contributions, e) && e > 0.0 && c.maths.sqrt(e) * c.maths.sqrt(e) == e
    ensures var n := |b.contributions| as real;
            && Total(GateInfidelity, b.contributions) == n * e
            && CoherentCorrection(c, b) == c.coherentFraction * ((n * n) * e)
  {
    hide Amplitudes, Total;
    EqualSums(c.maths, b.contributions, e);
    var n, r := |b.contributions| as real, c.maths.sqrt(e);
    assert (n * r) * (n * r) == (n * n) * (r * r);
  }

  // ---------- the size of a contribution ----------

  // One radian of coupling phase, or a drive as strong as the anharmonicity, counts as one. An unspecified readout
  // error is what the readout fidelity leaves.
  lemma ContributionUnits(c: Config, q: int, alpha: real)
    requires alpha != 0.0
    ensures Size(c, AddCrosstalk(q, 1.0, 1000.0)) == 1.0
    ensures Size(c, AddLeakage(q, alpha, Some(alpha))) == 1.0
    ensures Size(c, AddLeakage(q, c.anharmonicityMhz, None)) == if c.anharmonicityMhz == 0.0 then 0.0 else 1.0
    ensures q in c.readoutFidelity ==> Size(c, AddReadout(q, None)) + c.readoutFidelity[q] == 1.0
  {
    hide Square, CouplingPhase, DriveRatio;
    UnitPhase();
    UnitRatio(alpha);
    if c.anharmonicityMhz != 0.0 { UnitRatio(c.anharmonicityMhz); }
  }

  lemma UnitPhase()
    ensures CouplingPhase(1.0, 1000.0) == 1.0 && Square(1.0) == 1.0
  {}

  lemma UnitRatio(alpha: real)
    requires alpha != 0.0
    ensures DriveRatio(alpha, alpha) == 1.0
  {}

  // x times the coupling or the duration gives x^2 times the crosstalk error,
  lemma CrosstalkQuadratic(c: Config, q: int, g: real, d: real, x: real, more: real)
    ensures more == x * g ==> Size(c, AddCrosstalk(q, more, d)) == Square(x) * Size(c, AddCrosstalk(q, g, d))
    ensures more == x * d ==> Size(c, AddCrosstalk(q, g, more)) == Square(x) * Size(c, AddCrosstalk(q, g, d))
  {
    hide Square, CouplingPhase, Product;
    if more == x * g { PhaseScales(x, g, more, d); }
    if more == x * d { PhaseScales(x, d, more, g); }
    SquareProduct(x, CouplingPhase(g, d));
    ProductIs(Square(x), Size(c, AddCrosstalk(q, g, d)));
  }

  // and x times the drive x^2 times the leakage error.
  lemma LeakageQuadratic(c: Config, q: int, w: real, a: Option<real>, x: real, more: real)
    requires more == x * w
    ensures Size(c, AddLeakage(q, more, a)) == Square(x) * Size(c, AddLeakage(q, w, a))
  {
    hide Square, DriveRatio, Product;
    if Alpha(c, a) != 0.0 {
      RatioScales(x, w, more, Alpha(c, a));
      SquareProduct(x, DriveRatio(w, Alpha(c, a)));
    } else {
      ProductIs(Square(x), 0.0);
    }
    ProductIs(Square(x), Size(c, AddLeakage(q, w, a)));
  }

  function Product(x: real, y: real): real { x * y }

  lemma ProductIs(x: real, y: real)
    ensures Product(x, y) == x * y && Product(x, 0.0) == 0.0
  {}

  lemma SquareProduct(x: real, y: real)
    ensures Square(Product(x, y)) == Product(Square(x), Square(y))
  {
    assert (x * y) * (x * y) == (x * x) * (y * y);
  }

  lemma PhaseScales(x: real, y: real, more: real, z: real)
    requires more == x * y
    ensures CouplingPhase(more, z) == Product(x, CouplingPhase(y, z))
    ensures CouplingPhase(z, more) == Product(x, CouplingPhase(z, y))
  {}

  lemma RatioScales(x: real, w: real, more: real, alpha: real)
    requires alpha != 0.0 && more == x * w
    ensures DriveRatio(more, alpha) == Product(x, DriveRatio(w, alpha))
  {}

  // The recorded error of an operation; none is recorded without an anharmonicity.
  function Size(c: Config, op: Operation): real {
    match Contribution(c, op)
    case Some(e) => e.infidelity
    case None => 0.0
  }
}
