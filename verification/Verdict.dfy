/** The report's verdict and the analysis' errors, in the numbers of the chain. */
module Verdict {
  import opened Checkpoints
  import opened Options
  import opened ChainLaws
  import opened ChainContract
  import opened Throughput
  import opened Report
  import opened Sorting

  // ---------------------------------------------------------------------------
  // The verdict

  /** Every load window did some work, and none is further below the median rate than the plan allows. */
  predicate Steady(plan: Plan, rates: seq<int>) {
    rates != [] && (forall i :: 0 <= i < |rates| ==> rates[i] > 0) && !FallsShort(rates, plan.maximumDegradationBp)
  }

  /** A finished qualification: complete, without failures, and with enough windows, interruptions, load and recovered
      time, little enough of it spent sampling, at a steady rate. */
  ghost predicate Qualifies(plan: Plan, chain: seq<Checkpoint>)
    requires chain != [] && ValidChain(plan, chain)
  {
    && Last(chain).phase == Complete
    && (forall i :: 0 <= i < |chain| ==> chain[i].content.failures == NO_FAILURES)
    && Count(chain, LOADED) >= plan.minimumWindows
    && Count(chain, {Interruption}) >= plan.minimumRecoveries
    && Sum(chain, Of(LOADED, DURATION)) >= plan.minimumStabilityMs
    && Sum(chain, Of({PostRecovery}, DURATION)) >= plan.minimumPostRecoveryMs
    && Sum(chain, Of(MEASURED, OVERHEAD)) * 10_000 <= plan.maximumOverheadBp * Sum(chain, Of(LOADED, DURATION))
    && Steady(plan, Report.Reported(plan, chain))
  }

  lemma {:induction false} FailuresAdd(chain: seq<Checkpoint>, f: Content -> int)
    requires forall i :: 0 <= i < |chain| ==> f(chain[i].content) >= 0
    ensures Sum(chain, f) >= 0
    ensures Sum(chain, f) == 0 <==> forall i :: 0 <= i < |chain| ==> f(chain[i].content) == 0
    decreases |chain|
  {
    if chain != [] {
      var prefix := chain[..|chain| - 1];
      assert forall i :: 0 <= i < |prefix| ==> prefix[i] == chain[i];
      FailuresAdd(prefix, f);
    }
  }

  /** The counters are clean exactly when every record is without failures. */
  lemma CleanExactly(plan: Plan, chain: seq<Checkpoint>)
    requires ValidPlan(plan) && chain != [] && ValidChain(plan, chain)
    ensures Clean(Last(chain).counters) <==> forall i :: 0 <= i < |chain| ==> chain[i].content.failures == NO_FAILURES
  {
    LastTallied(plan, chain);
    forall i | 0 <= i < |chain| ensures SafeFailures(chain[i].content.failures) { ValidPrefix(plan, chain, i); }
    hide ValidChain, ValidPlan;
    FailuresAdd(chain, CONTAINMENT);
    FailuresAdd(chain, DUPLICATE);
    FailuresAdd(chain, INTEGRITY);
    FailuresAdd(chain, BREACHES);
    assert forall i :: 0 <= i < |chain| ==>
      (chain[i].content.failures == NO_FAILURES <==>
         CONTAINMENT(chain[i].content) == DUPLICATE(chain[i].content) == INTEGRITY(chain[i].content)
         == BREACHES(chain[i].content) == 0);
  }

  lemma LastTallied(plan: Plan, chain: seq<Checkpoint>)
    requires ValidPlan(plan) && chain != [] && ValidChain(plan, chain)
    ensures Tallied(Last(chain).counters, chain)
  {
    hide ValidChain, ValidPlan;
    ValidExactly(plan, chain);
    assert chain[..|chain| - 1 + 1] == chain;
  }

  /** Load windows last, so there is time to divide by once there is one. */
  lemma {:induction false} LoadLasts(plan: Plan, chain: seq<Checkpoint>)
    requires ValidChain(plan, chain)
    ensures Sum(chain, Of(LOADED, DURATION)) >= Count(chain, LOADED)
    decreases |chain|
  {
    if chain != [] { LoadLasts(plan, chain[..|chain| - 1]); }
  }

  lemma SteadyExactly(plan: Plan, rates: seq<int>)
    requires ValidPlan(plan) && rates != [] && forall i :: 0 <= i < |rates| ==> rates[i] >= 0
    ensures Steady(plan, rates) <==>
            Least(rates) > 0 && BasisPoints(Median(rates) - Least(rates), Median(rates)) <= plan.maximumDegradationBp
  {
    IntegerStatistics(rates);
    LeastFallsShort(rates, plan.maximumDegradationBp);
    hide Median, Least, BasisPoints, FallsShort, ValidPlan;
    if Median(rates) > 0 { ShareAtMost(Median(rates) - Least(rates), Median(rates), plan.maximumDegradationBp); }
    var j :| 0 <= j < |rates| && rates[j] == Least(rates);
  }

  /** The rates of a report that passes: steady in the code's arithmetic. */
  predicate RatesPass(plan: Plan, rates: seq<int>) {
    rates != [] && Least(rates) > 0
    && BasisPoints(if Median(rates) > Least(rates) then Median(rates) - Least(rates) else 0, Median(rates))
       <= plan.maximumDegradationBp
  }

  lemma StatusIs(plan: Plan, chain: seq<Checkpoint>)
    requires ValidPlan(plan) && chain != [] && ValidChain(plan, chain) && RatesFit(Report.Reported(plan, chain))
    ensures var report := BuildReport(plan, chain);
      var n := Last(chain).counters;
      var completed := Last(chain).phase.Complete? && n.completions == 1;
      && report.Some?
      && (report.value.status.Passed? <==>
            && completed && Clean(n) && report.value.checks.measurementCoverage
            && n.postRecoveryMs >= plan.minimumPostRecoveryMs
            && n.interruptions >= plan.minimumRecoveries && n.resumes == n.interruptions
            && BasisPoints(n.overheadMs, n.stabilityMs) <= plan.maximumOverheadBp
            && n.stabilityMs >= plan.minimumStabilityMs && n.windows >= plan.minimumWindows
            && RatesPass(plan, Report.Reported(plan, chain)))
      && (report.value.status.InProgress? <==>
            !completed && !(n.containment > 0 || n.duplicate > 0 || n.integrity > 0 || n.breaches > 0))
  {
    hide ValidChain, Report.Reported, RatesFit, Median, Least, BasisPoints, Summarised;
  }

  lemma RatesPassExactly(plan: Plan, chain: seq<Checkpoint>)
    requires ValidPlan(plan) && chain != [] && ValidChain(plan, chain)
    ensures RatesPass(plan, Report.Reported(plan, chain)) <==> Steady(plan, Report.Reported(plan, chain))
  {
    hide ValidChain;
    ReportedSafe(plan, chain);
    var rates := Report.Reported(plan, chain);
    hide Report.Reported;
    if rates != [] {
      RunningBounds(rates);
      SteadyExactly(plan, rates);
      hide Median, Least, BasisPoints, Steady;
      if Median(rates) == Least(rates) { assert Median(rates) - Least(rates) == 0; }
    }
  }

  lemma OverheadExactly(plan: Plan, n: Counters)
    requires n.stabilityMs > 0
    ensures BasisPoints(n.overheadMs, n.stabilityMs) <= plan.maximumOverheadBp <==>
            n.overheadMs * 10_000 <= plan.maximumOverheadBp * n.stabilityMs
  {
    ShareAtMost(n.overheadMs, n.stabilityMs, plan.maximumOverheadBp);
  }

  lemma SafeCounts(plan: Plan, chain: seq<Checkpoint>)
    requires chain != [] && ValidChain(plan, chain)
    ensures SafeCounters(Last(chain).counters)
  {
  }

  /** A report passes exactly the chains that qualify, is in progress while no failure is recorded and nothing has
      completed, and fails the others. */
  lemma VerdictExactly(plan: Plan, chain: seq<Checkpoint>)
    requires ValidPlan(plan) && chain != [] && ValidChain(plan, chain) && RatesFit(Report.Reported(plan, chain))
    ensures BuildReport(plan, chain).Some?
    ensures BuildReport(plan, chain).value.status.Passed? <==> Qualifies(plan, chain)
    ensures BuildReport(plan, chain).value.status.InProgress? <==>
            && Last(chain).phase != Complete
            && forall i :: 0 <= i < |chain| ==> chain[i].content.failures == NO_FAILURES
  {
    var n := Last(chain).counters;
    CleanExactly(plan, chain);
    LastTallied(plan, chain);
    LoadLasts(plan, chain);
    ResumesFollowInterruptions(plan, chain);
    SafeCounts(plan, chain);
    StatusIs(plan, chain);
    CoverageAlwaysPasses(plan, chain);
    RatesPassExactly(plan, chain);
    hide ValidChain, BuildReport, Report.Reported, RatesPass, Steady, Sum, Count, BasisPoints;
    if n.windows >= plan.minimumWindows { OverheadExactly(plan, n); }
  }

  /** Median and minimum of some rates, and how far the least falls short of the median: the least limit that holds. */
  predicate RateFigures(rates: seq<int>, median: int, minimum: int, degradation: int, limit: int)
    requires rates != []
  {
    && IsMedian(rates, median)
    && minimum in rates && (forall i :: 0 <= i < |rates| ==> minimum <= rates[i])
    && (if median == 0 then degradation == 0 else degradation <= limit <==> !FallsShort(rates, limit))
  }

  /** The share of load time spent sampling: the least limit that holds. */
  ghost predicate OverheadFigure(chain: seq<Checkpoint>, overhead: int, limit: int) {
    overhead <= limit <==>
      Sum(chain, Of(MEASURED, OVERHEAD)) * 10_000 <= limit * Sum(chain, Of(LOADED, DURATION))
  }

  /** The numbers of a report, each zero without load. */
  lemma NumbersExactly(plan: Plan, chain: seq<Checkpoint>, limit: int)
    requires ValidPlan(plan) && chain != [] && ValidChain(plan, chain) && RatesFit(Report.Reported(plan, chain))
    ensures BuildReport(plan, chain).Some?
    ensures var (rates, r) := (Report.Reported(plan, chain), BuildReport(plan, chain).value);
      if rates == [] then r.median == r.minimum == r.degradation == r.overhead == 0
      else RateFigures(rates, r.median, r.minimum, r.degradation, limit) && OverheadFigure(chain, r.overhead, limit)
  {
    hide ValidChain, BuildReport, ValidPlan, Report.Reported, RateFigures, OverheadFigure, Median, Least;
    NumbersAre(plan, chain);
    LoadTime(plan, chain);
    OverheadNumber(plan, chain, limit);
    if Report.Reported(plan, chain) != [] {
      hide BasisPoints;
      RateNumbers(Report.Reported(plan, chain), limit);
    }
  }

  lemma LoadTime(plan: Plan, chain: seq<Checkpoint>)
    requires ValidPlan(plan) && chain != [] && ValidChain(plan, chain)
    ensures Report.Reported(plan, chain) == [] <==> Last(chain).counters.stabilityMs == 0
    ensures Last(chain).counters.stabilityMs >= 0
  {
    LastTallied(plan, chain);
    LoadLasts(plan, chain);
    WindowsMeasured(plan, chain, STABILITY);
    hide ValidChain, Sum, Count, WindowsIn;
    if Count(chain, LOADED) == 0 { NoLoadTime(chain); }
  }

  lemma OverheadNumber(plan: Plan, chain: seq<Checkpoint>, limit: int)
    requires ValidPlan(plan) && chain != [] && ValidChain(plan, chain)
    ensures var n := Last(chain).counters;
      n.stabilityMs > 0 ==> OverheadFigure(chain, BasisPoints(n.overheadMs, n.stabilityMs), limit)
  {
    LastTallied(plan, chain);
    hide ValidChain, ValidPlan, Sum, BasisPoints;
    var n := Last(chain).counters;
    if n.stabilityMs > 0 { ShareAtMost(n.overheadMs, n.stabilityMs, limit); }
  }

  lemma RateNumbers(rates: seq<int>, limit: int)
    requires rates != [] && 0 <= Least(rates)
    ensures RateFigures(
      rates, Median(rates), Least(rates), BasisPoints(Median(rates) - Least(rates), Median(rates)), limit)
  {
    MedianHalves(rates, Median(rates));
    IntegerStatistics(rates);
    LeastFallsShort(rates, limit);
    var (m, n) := (Median(rates), Least(rates));
    hide Median, Least, FallsShort, IsMedian;
    if m > 0 {
      hide BasisPoints;
      ShareAtMost(m - n, m, limit);
    }
  }

  lemma NumbersAre(plan: Plan, chain: seq<Checkpoint>)
    requires ValidPlan(plan) && chain != [] && ValidChain(plan, chain) && RatesFit(Report.Reported(plan, chain))
    ensures BuildReport(plan, chain).Some?
    ensures var (rates, r, n) :=
        (Report.Reported(plan, chain), BuildReport(plan, chain).value, Last(chain).counters);
      && (rates == [] ==> r.median == r.minimum == r.degradation == 0)
      && (rates != [] ==>
            && r.median == Median(rates) && r.minimum == Least(rates) && 0 <= Least(rates)
            && r.degradation == BasisPoints(Median(rates) - Least(rates), Median(rates)))
      && r.overhead == BasisPoints(n.overheadMs, n.stabilityMs)
  {
    hide ValidChain, Summarised;
    ReportedSafe(plan, chain);
    var rates := Report.Reported(plan, chain);
    if rates != [] { RunningBounds(rates); }
  }

  lemma {:induction false} NoLoadTime(chain: seq<Checkpoint>)
    requires Count(chain, LOADED) == 0
    ensures Sum(chain, Of(LOADED, DURATION)) == 0
    decreases |chain|
  {
    if chain != [] { NoLoadTime(chain[..|chain| - 1]); }
  }

  // ---------------------------------------------------------------------------
  // The errors of the analysis

  predicate LoadRecord(c: Content) { c.phase in {SteadyLoad, PostRecovery} && c.window.Some? }

  /** A load record whose window began before the first date. */
  predicate BeginsTooEarly(c: Content) { LoadRecord(c) && c.window.value.durationMs > c.observedAt }

  /** A load record with more work in its time than a safe integer can say. */
  predicate TooFast(c: Content) {
    LoadRecord(c) && c.window.value.completedWork * 1_000_000 > SAFE_INTEGER_MAX * c.window.value.durationMs
  }

  predicate Has(chain: seq<Checkpoint>, p: Content -> bool) { exists i :: 0 <= i < |chain| && p(chain[i].content) }

  function InPhase(phase: Phase): Content -> bool { (c: Content) => c.phase == phase }

  const IDLE: Window -> bool := (w: Window) => w.completedWork == 0

  /** At least half of the load windows did no work. */
  ghost predicate MostlyIdle(chain: seq<Checkpoint>) {
    2 * CountOf(WindowsIn(chain, STABILITY), IDLE) >= |WindowsIn(chain, STABILITY)|
  }

  lemma {:induction false} WindowOf(chain: seq<Checkpoint>, w: Window)
    ensures w in WindowsIn(chain, STABILITY) <==>
            exists i :: 0 <= i < |chain| && LoadRecord(chain[i].content) && chain[i].content.window.value == w
    decreases |chain|
  {
    if chain != [] {
      var prefix := chain[..|chain| - 1];
      WindowOf(prefix, w);
      assert forall i :: 0 <= i < |prefix| ==> prefix[i] == chain[i];
      if w in WindowsIn(prefix, STABILITY) {
        var i :| 0 <= i < |prefix| && LoadRecord(prefix[i].content) && prefix[i].content.window.value == w;
        assert LoadRecord(chain[i].content);
      }
    }
  }

  lemma {:induction false} CountPositive(chain: seq<Checkpoint>, phase: Phase)
    ensures Count(chain, {phase}) > 0 <==> Has(chain, InPhase(phase))
    decreases |chain|
  {
    if chain != [] {
      var prefix := chain[..|chain| - 1];
      CountPositive(prefix, phase);
      assert forall i :: 0 <= i < |prefix| ==> prefix[i] == chain[i];
      if Has(prefix, InPhase(phase)) {
        var i :| 0 <= i < |prefix| && InPhase(phase)(prefix[i].content);
        assert InPhase(phase)(chain[i].content);
      }
    }
  }

  lemma RatesFitExactly(plan: Plan, chain: seq<Checkpoint>)
    requires ValidChain(plan, chain)
    ensures RatesFit(Report.Reported(plan, chain)) <==> !Has(chain, TooFast)
  {
    hide ValidChain;
    WindowsMeasured(plan, chain, STABILITY);
    var (ws, rates) := (WindowsIn(chain, STABILITY), Report.Reported(plan, chain));
    forall i | 0 <= i < |ws|
      ensures rates[i] > SAFE_INTEGER_MAX <==> ws[i].completedWork * 1_000_000 > SAFE_INTEGER_MAX * ws[i].durationMs
    {
      RateIsLeast(ws[i], SAFE_INTEGER_MAX);
    }
    if !RatesFit(rates) {
      var i :| 0 <= i < |rates| && rates[i] > SAFE_INTEGER_MAX;
      WindowOf(chain, ws[i]);
    }
    if Has(chain, TooFast) {
      var k :| 0 <= k < |chain| && TooFast(chain[k].content);
      WindowOf(chain, chain[k].content.window.value);
      var i :| 0 <= i < |ws| && ws[i] == chain[k].content.window.value;
    }
  }

  lemma {:induction false} CountIdle(ws: seq<Window>)
    requires forall w :: w in ws ==> Measured(w)
    ensures CountOf(ReportedRates(ws), x => x <= 0) == CountOf(ws, IDLE)
  {
    if ws != [] {
      assert ReportedRates(ws)[1..] == ReportedRates(ws[1..]);
      RateIsLeast(ws[0], 0);
      CountIdle(ws[1..]);
    }
  }

  lemma {:induction false} CountedIsThere(rates: seq<int>)
    requires CountOf(rates, x => x <= 0) > 0
    ensures exists i :: 0 <= i < |rates| && rates[i] <= 0
  {
    if rates[0] > 0 {
      CountedIsThere(rates[1..]);
      var i :| 0 <= i < |rates| - 1 && rates[1..][i] <= 0;
      assert rates[i + 1] <= 0;
    }
  }

  lemma ZeroMedianExactly(plan: Plan, chain: seq<Checkpoint>)
    requires ValidChain(plan, chain) && Report.Reported(plan, chain) != []
    ensures Median(Report.Reported(plan, chain)) == 0 <==> MostlyIdle(chain)
  {
    hide ValidChain;
    WindowsMeasured(plan, chain, STABILITY);
    var (ws, rates) := (WindowsIn(chain, STABILITY), Report.Reported(plan, chain));
    forall i | 0 <= i < |ws| ensures rates[i] >= 0 { RateNonNegative(ws[i]); }
    CountIdle(ws);
    MedianHalves(rates, 0);
    CountNone(rates, x => x < 0);
    if CountOf(rates, x => x <= 0) > 0 { CountedIsThere(rates); }
  }

  lemma NoLoadExactly(plan: Plan, chain: seq<Checkpoint>)
    requires ValidChain(plan, chain)
    ensures Report.Reported(plan, chain) == [] <==>
            !Has(chain, InPhase(SteadyLoad)) && !Has(chain, InPhase(PostRecovery))
    ensures WindowsIn(chain, {SteadyLoad}) == [] <==> !Has(chain, InPhase(SteadyLoad))
    ensures WindowsIn(chain, {PostRecovery}) == [] <==> !Has(chain, InPhase(PostRecovery))
  {
    hide ValidChain;
    WindowsMeasured(plan, chain, STABILITY);
    WindowsMeasured(plan, chain, {SteadyLoad});
    WindowsMeasured(plan, chain, {PostRecovery});
    CountPositive(chain, SteadyLoad);
    CountPositive(chain, PostRecovery);
    CountBoth(chain);
  }

  lemma {:induction false} CountBoth(chain: seq<Checkpoint>)
    ensures Count(chain, STABILITY) == Count(chain, {SteadyLoad}) + Count(chain, {PostRecovery})
    decreases |chain|
  {
    if chain != [] { CountBoth(chain[..|chain| - 1]); }
  }

  /** Which error the analysis of an accepted chain ends in, from its records: the first of these that applies. */
  lemma FaultsExactly(plan: Plan, chain: seq<Checkpoint>)
    requires ValidChain(plan, chain)
    ensures var (steady, recovered) := (Has(chain, InPhase(SteadyLoad)), Has(chain, InPhase(PostRecovery)));
      && (FaultOf(plan, chain) == Some(DateOutOfRange) <==> Has(chain, BeginsTooEarly))
      && (FaultOf(plan, chain) == Some(RateTooLarge) <==> !Has(chain, BeginsTooEarly) && Has(chain, TooFast))
      && (FaultOf(plan, chain) == Some(DivisionByZero) <==>
            && !Has(chain, BeginsTooEarly) && !Has(chain, TooFast)
            && (steady || recovered) && MostlyIdle(chain))
      && (FaultOf(plan, chain).None? <==>
            && !Has(chain, BeginsTooEarly) && !Has(chain, TooFast)
            && steady && recovered && !MostlyIdle(chain))
  {
    NoLoadExactly(plan, chain);
    RatesFitExactly(plan, chain);
    EarlyExactly(plan, chain);
    hide ValidChain, Report.Reported, RatesFit, Has, DatesUnderflow, MostlyIdle, Median, WindowsIn;
    if Report.Reported(plan, chain) != [] { ZeroMedianExactly(plan, chain); }
  }

  lemma EarlyExactly(plan: Plan, chain: seq<Checkpoint>)
    requires ValidChain(plan, chain)
    ensures DatesUnderflow(chain) <==> Has(chain, BeginsTooEarly)
    ensures Has(chain, BeginsTooEarly) ==> Has(chain, InPhase(SteadyLoad)) || Has(chain, InPhase(PostRecovery))
  {
    if DatesUnderflow(chain) {
      var i :| 0 <= i < |chain| && StartsTooEarly(chain[i].content);
      assert BeginsTooEarly(chain[i].content);
    }
    if Has(chain, BeginsTooEarly) {
      var i :| 0 <= i < |chain| && BeginsTooEarly(chain[i].content);
      assert StartsTooEarly(chain[i].content);
      assert InPhase(chain[i].content.phase)(chain[i].content);
    }
  }
}
