/** The operating-envelope report and the independent throughput analysis, over accepted chains. */
module Report {
  import opened Checkpoints
  import opened Options
  import opened ChainLaws
  import opened Runner
  import opened Protocol
  import opened Completion
  import opened Loading
  import opened Throughput
  import Binary64
  import Rounding

  // ---------------------------------------------------------------------------
  // Windows of a chain

  function WindowsIn(chain: seq<Checkpoint>, phases: set<Phase>): seq<Window>
    decreases |chain|
  {
    if chain == [] then [] else
    var rest := WindowsIn(chain[..|chain| - 1], phases);
    var c := Last(chain);
    if c.phase in phases && c.window.Some? then rest + [c.window.value] else rest
  }

  const STABILITY: set<Phase> := {SteadyLoad, PostRecovery}

  lemma {:induction false} WindowsMeasured(plan: Plan, chain: seq<Checkpoint>, phases: set<Phase>)
    requires ValidChain(plan, chain) && phases <= STABILITY
    ensures forall i :: 0 <= i < |WindowsIn(chain, phases)| ==>
              Measured(WindowsIn(chain, phases)[i]) && WindowsIn(chain, phases)[i].completedWork <= SAFE_INTEGER_MAX
    ensures |WindowsIn(chain, phases)| == Count(chain, phases)
    decreases |chain|
  {
    if chain != [] { WindowsMeasured(plan, chain[..|chain| - 1], phases); }
  }

  // ---------------------------------------------------------------------------
  // The report

  /** Some window of the chain summarises the measurement, with or without samples. */
  predicate Summarised(chain: seq<Checkpoint>, name: string, observed: bool) {
    exists i :: 0 <= i < |chain| && SummarisedIn(chain[i].content, name, observed)
  }

  predicate SummarisedIn(c: Content, name: string, observed: bool) {
    && c.window.Some?
    && exists s :: s in c.window.value.summaries && s.measurement == name && s.reading.Observed? == observed
  }

  datatype Checks = Checks(
    completion: bool, failureFree: bool, measurementCoverage: bool, postRecoveryDuration: bool, recovery: bool,
    samplingOverhead: bool, stabilityDuration: bool, stabilityWindows: bool, throughputStability: bool)

  datatype Status = Passed | Failed | InProgress

  datatype ReportSummary = ReportSummary(
    status: Status, checks: Checks, median: int, minimum: int, degradation: int, overhead: int)

  predicate AllPass(c: Checks) {
    && c.completion && c.failureFree && c.measurementCoverage && c.postRecoveryDuration && c.recovery
    && c.samplingOverhead && c.stabilityDuration && c.stabilityWindows && c.throughputStability
  }

  function Reported(plan: Plan, chain: seq<Checkpoint>): seq<int>
    requires ValidChain(plan, chain)
  {
    WindowsMeasured(plan, chain, STABILITY);
    ReportedRates(WindowsIn(chain, STABILITY))
  }

  predicate RatesFit(rates: seq<int>) { forall i :: 0 <= i < |rates| ==> rates[i] <= SAFE_INTEGER_MAX }

  /** None where the code raises: a chain the validator refuses, or a rate beyond the safe integers. */
  function BuildReport(plan: Plan, chain: seq<Checkpoint>): Option<ReportSummary> {
    if !ValidPlan(plan) || chain == [] || !ValidChain(plan, chain) then None else
    var rates := Reported(plan, chain);
    if !RatesFit(rates) then None else
    var n := Last(chain).counters;
    var median := if rates != [] then Median(rates) else 0;
    var minimum := if rates != [] then Least(rates) else 0;
    var degradation := BasisPoints(if median > minimum then median - minimum else 0, median);
    var overhead := BasisPoints(n.overheadMs, n.stabilityMs);
    var completed := Last(chain).phase.Complete? && n.completions == 1;
    var checks := Checks(
      completed,
      Clean(n),
      forall p :: p in plan.policies && p.required ==>
        Summarised(chain, p.measurement, true) && !Summarised(chain, p.measurement, false),
      n.postRecoveryMs >= plan.minimumPostRecoveryMs,
      n.interruptions >= plan.minimumRecoveries && n.resumes == n.interruptions,
      overhead <= plan.maximumOverheadBp,
      n.stabilityMs >= plan.minimumStabilityMs,
      n.windows >= plan.minimumWindows,
      rates != [] && minimum > 0 && degradation <= plan.maximumDegradationBp);
    var failed := n.containment > 0 || n.duplicate > 0 || n.integrity > 0 || n.breaches > 0;
    var status := if completed then (if AllPass(checks) then Passed else Failed)
      else if failed then Failed else InProgress;
    Some(ReportSummary(status, checks, median, minimum, degradation, overhead))
  }

  lemma UniquePolicy(plan: Plan, p: Policy, s: Summary)
    requires DistinctPolicies(plan.policies) && p in plan.policies && Covered(plan, s) && s.measurement == p.measurement
    ensures ReadingOk(p, s)
  {
  }

  lemma NoGapInWindow(plan: Plan, p: Policy, c: Content)
    requires ValidPlan(plan) && WindowOk(plan, c) && p in plan.policies && p.required
    ensures !SummarisedIn(c, p.measurement, false)
    ensures IsWindowPhase(c.phase) ==> SummarisedIn(c, p.measurement, true)
  {
    if IsWindowPhase(c.phase) {
      var ss := c.window.value.summaries;
      forall s | s in ss && s.measurement == p.measurement ensures s.reading.Observed? {
        UniquePolicy(plan, p, s);
      }
      assert Accounted(ss, p.measurement);
    }
  }

  /** The coverage check cannot fail: the validator already refuses a required measurement without samples. */
  lemma CoverageAlwaysPasses(plan: Plan, chain: seq<Checkpoint>)
    requires BuildReport(plan, chain).Some?
    ensures BuildReport(plan, chain).value.checks.measurementCoverage
  {
    forall p | p in plan.policies && p.required
      ensures Summarised(chain, p.measurement, true) && !Summarised(chain, p.measurement, false)
    {
      forall i | 0 <= i < |chain| ensures !SummarisedIn(chain[i].content, p.measurement, false) {
        ValidPrefix(plan, chain, i);
        NoGapInWindow(plan, p, chain[i].content);
      }
      ValidPrefix(plan, chain, 0);
      NoGapInWindow(plan, p, chain[0].content);
      assert SummarisedIn(chain[0].content, p.measurement, true);
    }
  }

  /** Without a failure every load window of a published chain has lasted its target time and completed a pass. */
  lemma {:induction false} CleanWindows(plan: Plan, chain: seq<Checkpoint>, phases: set<Phase>)
    requires DiskOk(plan, chain) && (chain != [] ==> Clean(Last(chain).counters)) && phases <= STABILITY
    ensures forall i :: 0 <= i < |WindowsIn(chain, phases)| ==> Worked(plan, WindowsIn(chain, phases)[i])
    decreases |chain|
  {
    if chain != [] {
      var (prefix, c) := (chain[..|chain| - 1], chain[|chain| - 1]);
      assert chain == prefix + [c];
      CountersStep(plan, prefix, c);
      assert RecordOk(plan, chain[|chain| - 1].content);
      assert DiskOk(plan, prefix);
      hide DiskOk, ValidChain, Plus, Contribution;
      CleanRecord(CountersBefore(prefix), c.content);
      CleanBefore(CountersBefore(prefix), c.content);
      CleanWindows(plan, prefix, phases);
    }
  }

  lemma RatePositive(w: Window)
    requires Measured(w) && w.completedWork >= 1
    ensures Throughput.Reported(w) >= 1
  {
    if Throughput.Reported(w) <= 0 { Rounding.MulAtLeast(w.durationMs, Throughput.Reported(w), 0); }
  }

  /** So every rate of a completed qualification is positive. */
  lemma RatesPositive(plan: Plan, chain: seq<Checkpoint>)
    requires DiskOk(plan, chain) && chain != [] && Clean(Last(chain).counters)
    ensures forall i :: 0 <= i < |Reported(plan, chain)| ==> Reported(plan, chain)[i] >= 1
    ensures Reported(plan, chain) != [] ==> Median(Reported(plan, chain)) >= 1 && Least(Reported(plan, chain)) >= 1
  {
    CleanWindows(plan, chain, STABILITY);
    WindowsMeasured(plan, chain, STABILITY);
    var (ws, rates) := (WindowsIn(chain, STABILITY), Reported(plan, chain));
    forall i | 0 <= i < |rates| ensures rates[i] >= 1 { RatePositive(ws[i]); }
    if rates != [] {
      IntegerStatistics(rates);
      var i :| 0 <= i < |rates| && rates[i] == Median(rates);
      var j :| 0 <= j < |rates| && rates[j] == Least(rates);
    }
  }

  /** What a chain that ends in a clean completion has counted. */
  predicate CompletedWith(plan: Plan, n: Counters) {
    && Clean(n) && n.completions == 1
    && n.windows == plan.minimumWindows
    && n.interruptions == n.resumes >= plan.minimumRecoveries
    && n.stabilityMs >= plan.minimumWindows * plan.targetMs
  }

  lemma CompletedChecks(plan: Plan, chain: seq<Checkpoint>)
    requires ValidPlan(plan) && chain != [] && ValidChain(plan, chain)
    requires Last(chain).phase.Complete? && CompletedWith(plan, Last(chain).counters)
    requires Reported(plan, chain) != [] && Least(Reported(plan, chain)) >= 1
    ensures BuildReport(plan, chain).Some? <==> RatesFit(Reported(plan, chain))
    ensures var report := BuildReport(plan, chain);
      report.Some? ==>
        var c := report.value.checks;
        && c.completion && c.failureFree && c.recovery && c.stabilityWindows
        && (report.value.status.Passed? <==> AllPass(c))
        && !report.value.status.InProgress?
        && (c.throughputStability <==> report.value.degradation <= plan.maximumDegradationBp)
        && (plan.minimumWindows * plan.targetMs >= plan.minimumStabilityMs ==> c.stabilityDuration)
  {
    hide ValidChain, ValidPlan, Reported, RatesFit, Median, Least, BasisPoints, Summarised;
  }

  /** What any schedule's completion has counted and measured. */
  lemma CompletionCounted(plan: Plan, events: seq<Event>)
    requires ValidPlan(plan) && Contiguous(Reached(plan, events).files) && IsComplete(Reached(plan, events))
    ensures var chain := Disk(Reached(plan, events));
      && chain != [] && DiskOk(plan, chain)
      && Last(chain).phase.Complete? && CompletedWith(plan, Last(chain).counters)
  {
    RunKeeps(plan, EMPTY, events);
    hide ValidChain, ValidPlan;
    CompletionMeans(plan, events, |Reached(plan, events).files|);
    CompletedLength(plan, events);
  }

  /** For a qualification that any schedule completes, five of the nine checks hold already, and the sixth if its
      windows' target times add up to the stability duration; of throughput stability only the degradation is open. The
      verdict is the other four. */
  lemma CompletedReport(plan: Plan, events: seq<Event>)
    requires ValidPlan(plan) && Contiguous(Reached(plan, events).files) && IsComplete(Reached(plan, events))
    ensures var chain := Disk(Reached(plan, events));
      ValidChain(plan, chain) && (BuildReport(plan, chain).Some? <==> RatesFit(Reported(plan, chain)))
    ensures var report := BuildReport(plan, Disk(Reached(plan, events)));
      report.Some? ==>
        var c := report.value.checks;
        && c.completion && c.failureFree && c.measurementCoverage && c.recovery && c.stabilityWindows
        && (report.value.status.Passed? <==>
              c.postRecoveryDuration && c.samplingOverhead && c.stabilityDuration && c.throughputStability)
        && !report.value.status.InProgress?
        && (c.throughputStability <==> report.value.degradation <= plan.maximumDegradationBp)
        && (plan.minimumWindows * plan.targetMs >= plan.minimumStabilityMs ==> c.stabilityDuration)
  {
    hide ValidPlan, ValidChain, BuildReport, Reported, Reached, RatesFit, Median, Least;
    var chain := Disk(Reached(plan, events));
    CompletionCounted(plan, events);
    CompletionHasPostRecovery(plan, events);
    RatesPositive(plan, chain);
    CompletedChecks(plan, chain);
    if BuildReport(plan, chain).Some? { CoverageAlwaysPasses(plan, chain); }
  }

  // ---------------------------------------------------------------------------
  // The analysis

  datatype Fault = EmptyMedian | DateOutOfRange | RateTooLarge | DivisionByZero

  /** A window said to have started before the first representable timestamp. */
  predicate StartsTooEarly(c: Content) {
    IsStability(c.phase) && c.window.Some? && c.observedAt < c.window.value.durationMs
  }

  predicate DatesUnderflow(chain: seq<Checkpoint>) { exists i :: 0 <= i < |chain| && StartsTooEarly(chain[i].content) }

  datatype Analysis = Analysis(
    crossing: Option<Crossing>, exactDegradation: int, independentDegradation: int, reportedDegradation: int)

  datatype Analysed = Done(analysis: Analysis) | Raised(fault: Fault)

  /** Which error the analysis raises on an accepted chain, if any. */
  function FaultOf(plan: Plan, chain: seq<Checkpoint>): Option<Fault>
    requires ValidChain(plan, chain)
  {
    var rates := Reported(plan, chain);
    if rates == [] then Some(EmptyMedian)
    else if DatesUnderflow(chain) then Some(DateOutOfRange)
    else if !RatesFit(rates) then Some(RateTooLarge)
    else if Median(rates) == 0 then Some(DivisionByZero)
    else if WindowsIn(chain, {SteadyLoad}) == [] || WindowsIn(chain, {PostRecovery}) == [] then Some(EmptyMedian)
    else None
  }

  /** Every rate of an accepted chain is within the range in which the analysis' arithmetic is modelled. */
  lemma ReportedSafe(plan: Plan, chain: seq<Checkpoint>)
    requires ValidChain(plan, chain)
    ensures SafeRates(Reported(plan, chain))
  {
    WindowsMeasured(plan, chain, STABILITY);
    var ws := WindowsIn(chain, STABILITY);
    forall i | 0 <= i < |ws| ensures 0 <= Throughput.Reported(ws[i]) < Binary64.LIMIT {
      RateNonNegative(ws[i]);
      AtMostWork(ws[i].durationMs, Throughput.Reported(ws[i]), ws[i].completedWork * 1_000_000);
    }
  }

  lemma AtMostWork(d: int, n: int, a: int)
    requires d >= 1 && 0 <= n && 0 <= a && d * (n - 1) < a
    ensures n <= a
  {
    if n >= 2 { Rounding.MulAtLeast(n - 1, 1, d); }
  }

  lemma ReportNumbers(plan: Plan, chain: seq<Checkpoint>)
    requires ValidPlan(plan) && chain != [] && ValidChain(plan, chain)
    requires Reported(plan, chain) != [] && RatesFit(Reported(plan, chain))
    ensures BuildReport(plan, chain).Some?
    ensures var (rates, r) := (Reported(plan, chain), BuildReport(plan, chain).value);
      r.median == Median(rates) && r.degradation == BasisPoints(Median(rates) - Least(rates), Median(rates))
  {
    ReportedSafe(plan, chain);
    RunningBounds(Reported(plan, chain));
  }

  /** The report guards against a zero median; the analysis' own reproduction of the degradation does not. */
  method Analyse(plan: Plan, chain: seq<Checkpoint>) returns (r: Analysed)
    requires ValidPlan(plan) && chain != [] && ValidChain(plan, chain)
    ensures r.Raised? <==> FaultOf(plan, chain).Some?
    ensures r.Raised? ==> Some(r.fault) == FaultOf(plan, chain)
    ensures r.Done? ==> BuildReport(plan, chain).Some?
    ensures r.Done? ==> r.analysis.reportedDegradation == BuildReport(plan, chain).value.degradation
    ensures r.Done? ==>
              var (ws, rates) := (WindowsIn(chain, STABILITY), Reported(plan, chain));
              && rates != [] && SafeRates(rates) && (forall w :: w in ws ==> Measured(w))
              && FirstAbove(rates, plan.maximumDegradationBp, r.analysis.crossing)
              && r.analysis.independentDegradation == Running(rates)
              && 0 <= Least(rates) <= Median(rates) < Binary64.LIMIT
              && (r.analysis.independentDegradation == r.analysis.reportedDegradation <==>
                  FloatKeeps(Median(rates), Least(rates)))
              && r.analysis.exactDegradation == Degradation(LowerMedian(Rates(ws)), Minimum(Rates(ws)))
  {
    hide BuildReport, FloatDegradation, FloatKeeps, BasisPoints, Median, Least, Degradation, LowerMedian, Minimum;
    WindowsMeasured(plan, chain, STABILITY);
    var windows := WindowsIn(chain, STABILITY);
    var reported := ReportedRates(windows);
    if windows == [] { return Raised(EmptyMedian); }
    if DatesUnderflow(chain) { return Raised(DateOutOfRange); }
    if exists i :: 0 <= i < |reported| && reported[i] > SAFE_INTEGER_MAX { return Raised(RateTooLarge); }
    ReportedSafe(plan, chain);
    var rates := Rates(windows);
    var exact := Degradation(LowerMedian(rates), Minimum(rates));
    var crossing := FirstCrossing(reported, plan.maximumDegradationBp);
    ReportNumbers(plan, chain);
    var report := BuildReport(plan, chain);
    RunningBounds(reported);
    var (median, least) := (Median(reported), Least(reported));
    if median == 0 { return Raised(DivisionByZero); }
    var independent := FloatDegradation(median, least);
    assert reported[..|reported|] == reported;
    FloatExactly(median, least);
    if WindowsIn(chain, {SteadyLoad}) == [] || WindowsIn(chain, {PostRecovery}) == [] { return Raised(EmptyMedian); }
    return Done(Analysis(crossing, exact, independent, report.value.degradation));
  }

  // ---------------------------------------------------------------------------
  // The analysis of completed qualifications

  /** After its first recovery a chain measures only post-recovery windows. */
  predicate Recovered(c: Content) { c.phase !in {Baseline, SteadyLoad} }

  lemma {:induction false} SteadyStops(plan: Plan, chain: seq<Checkpoint>, k: nat)
    requires ValidChain(plan, chain) && 0 < k <= |chain| && Recovered(chain[k - 1].content)
    requires forall i :: 0 <= i < |chain| && i > 0 ==> chain[i].content.phase != Baseline
    ensures Recovered(Last(chain))
    ensures Count(chain, {SteadyLoad}) == Count(chain[..k], {SteadyLoad})
    decreases |chain|
  {
    if k == |chain| {
      assert chain[..k] == chain;
    } else {
      var prefix := chain[..|chain| - 1];
      SteadyStops(plan, prefix, k);
      assert prefix[..k] == chain[..k];
      PhasesStep(plan, chain, |chain| - 1);
    }
  }

  /** A completion follows a window; after a recovery, a post-recovery window. */
  lemma CompletionHasPostRecovery(plan: Plan, events: seq<Event>)
    requires ValidPlan(plan) && Contiguous(Reached(plan, events).files) && IsComplete(Reached(plan, events))
    ensures var chain := Disk(Reached(plan, events));
      ValidChain(plan, chain) && WindowsIn(chain, {PostRecovery}) != [] && Reported(plan, chain) != []
  {
    RunKeeps(plan, EMPTY, events);
    var chain := Disk(Reached(plan, events));
    CompletionMeans(plan, events, |chain|);
    CountersAreFolds(plan, chain);
    RecoveryLeavesATrace(plan, chain);
    var prefix := chain[..|chain| - 1];
    PhasesStep(plan, chain, |chain| - 1);
    assert Last(prefix) == chain[|chain| - 2].content;
    WindowsMeasured(plan, chain, {PostRecovery});
    WindowsMeasured(plan, chain, STABILITY);
  }

  /** Before any recovery there is neither recovery nor post-recovery; afterwards no steady load. */
  lemma {:induction false} RecoveryLeavesATrace(plan: Plan, chain: seq<Checkpoint>)
    requires ValidChain(plan, chain)
    requires forall i :: 0 < i < |chain| ==> chain[i].content.phase != Baseline
    ensures Count(chain, {Recovery}) > 0 && chain != [] ==>
              match Last(chain).phase
              case Baseline | SteadyLoad => false
              case PostRecovery => Count(chain, {PostRecovery}) > 0
              case Complete => Count(chain, {PostRecovery}) > 0
              case _ => true
    ensures Count(chain, {PostRecovery}) > 0 ==> Count(chain, {Recovery}) > 0
    decreases |chain|
  {
    if chain != [] {
      var prefix := chain[..|chain| - 1];
      RecoveryLeavesATrace(plan, prefix);
      PhasesStep(plan, chain, |chain| - 1);
      if prefix != [] { assert Last(prefix) == chain[|chain| - 2].content; }
    }
  }

  /** On a completed qualification the analysis fails exactly for a window that starts before the first timestamp, an
      oversized rate, or no steady-load window: the median cannot be zero. */
  lemma AnalysisOfCompleted(plan: Plan, events: seq<Event>)
    requires ValidPlan(plan) && Contiguous(Reached(plan, events).files) && IsComplete(Reached(plan, events))
    ensures var chain := Disk(Reached(plan, events));
      && ValidChain(plan, chain) && Reported(plan, chain) != []
      && (FaultOf(plan, chain).Some? <==>
            DatesUnderflow(chain) || !RatesFit(Reported(plan, chain)) || Count(chain, {SteadyLoad}) == 0)
      && FaultOf(plan, chain) != Some(DivisionByZero)
  {
    hide ValidPlan, ValidChain, BuildReport, Reported, Reached, RatesFit, Median, Least, DatesUnderflow;
    var chain := Disk(Reached(plan, events));
    CompletionCounted(plan, events);
    CompletionHasPostRecovery(plan, events);
    RatesPositive(plan, chain);
    WindowsMeasured(plan, chain, {SteadyLoad});
  }
}
