/** Chains that the validator accepts, whichever program wrote them, and what report and analysis make of them. */
module Exhibits {
  import opened Checkpoints
  import opened Options
  import opened ChainLaws
  import opened Runner
  import opened Schedules
  import opened Throughput
  import opened Report
  import opened Sorting

  // ---------------------------------------------------------------------------
  // Writing an accepted record

  function WriterOf(chain: seq<Checkpoint>, phase: Phase): Identity {
    var id := FreshId(chain);
    if chain == [] then Identity(0, 0, id, 1, "") else
    var last := Last(chain);
    Identity(
      last.qualification, last.logicalExecution, if phase.Recovery? then id else last.attempt,
      if phase.Recovery? then last.session + 1 else last.session, last.workload)
  }

  /** The next record at the end of the calendar, without failures. */
  function NextRecord(plan: Plan, chain: seq<Checkpoint>, phase: Phase, window: Option<Window>): Checkpoint {
    var turn := Turn(FreshId(chain), FreshId(chain), 0, 0, LATEST, CalmWork(plan));
    Build(plan, chain, WriterOf(chain, phase), phase, window, NO_FAILURES, turn)
  }

  /** A window of so many units of work in so many milliseconds, at readings that breach nothing. */
  function Tallied(plan: Plan, work: int, ms: int): Window { Window(work, ms, 0, CalmSummaries(plan)) }

  predicate Plain(plan: Plan, window: Option<Window>) {
    window.Some? ==>
      var w := window.value;
      w == Tallied(plan, w.completedWork, w.durationMs) && 1 <= w.durationMs <= LATEST && Safe(w.completedWork)
  }

  lemma PlainWindowOk(plan: Plan, c: Content)
    requires ValidPlan(plan) && Plain(plan, c.window) && (c.window.Some? <==> IsWindowPhase(c.phase))
    requires c.failures == NO_FAILURES
    ensures WindowOk(plan, c)
  {
    CalmSummariesOk(plan);
  }

  lemma WriterIsKnown(plan: Plan, chain: seq<Checkpoint>, phase: Phase, window: Option<Window>)
    requires ValidChain(plan, chain)
    ensures IdentityOk(plan, chain, NextRecord(plan, chain, phase, window).content)
  {
    forall q | q in chain ensures q.content.checkpointId != FreshId(chain) { FreshIsFresh(chain, q); }
    if chain != [] { OneIdentity(plan, chain); }
  }

  lemma WriterHasSession(plan: Plan, chain: seq<Checkpoint>, phase: Phase, window: Option<Window>)
    requires ValidChain(plan, chain) && |chain| < SAFE_INTEGER_MAX && (chain == [] ==> phase.Baseline?)
    ensures SessionOk(chain, NextRecord(plan, chain, phase, window).content)
  {
    forall q | q in chain ensures q.content.attempt != FreshId(chain) { FreshIsFresh(chain, q); }
    if chain != [] { LastSession(plan, chain); }
  }

  predicate Follows(chain: seq<Checkpoint>, phase: Phase) {
    if chain == [] then phase.Baseline? else phase in AllowedAfter(Last(chain).phase)
  }

  lemma WriterIsInOrder(plan: Plan, chain: seq<Checkpoint>, phase: Phase, window: Option<Window>)
    requires ValidChain(plan, chain) && |chain| < SAFE_INTEGER_MAX && Follows(chain, phase)
    ensures OrderOk(chain, NextRecord(plan, chain, phase, window).content)
  {
    if chain != [] { ValidPrefix(plan, chain, |chain| - 1); }
  }

  const MODEST: int := 2_000_000_000_000

  /** The counters of k records with at most so much work and so many milliseconds each. */
  predicate Modest(n: Counters, k: int) {
    && 0 <= n.completedWork <= k * MODEST && 0 <= n.stabilityMs <= k * MODEST && 0 <= n.postRecoveryMs <= k * MODEST
    && 0 <= n.windows <= k && 0 <= n.interruptions <= k && 0 <= n.resumes <= k && 0 <= n.completions <= k
    && n.containment == n.duplicate == n.integrity == n.breaches == n.overheadMs == 0
  }

  lemma ModestOn(plan: Plan, before: Counters, k: int, phase: Phase, window: Option<Window>)
    requires Modest(before, k) && 0 <= k <= 100 && Plain(plan, window)
    requires window.Some? ==> window.value.durationMs <= MODEST && window.value.completedWork <= MODEST
    ensures var n := Advanced(before, phase, window, NO_FAILURES); Modest(n, k + 1) && SafeCounters(n)
  {
  }

  ghost predicate Grown(plan: Plan, chain: seq<Checkpoint>) {
    && ValidChain(plan, chain) && |chain| <= 100 && Modest(CountersBefore(chain), |chain|) && !DatesUnderflow(chain)
  }

  /** The validator accepts the record if its window is plain and the counters are modest. */
  lemma Grow(plan: Plan, chain: seq<Checkpoint>, phase: Phase, window: Option<Window>) returns (longer: seq<Checkpoint>)
    requires ValidPlan(plan) && Grown(plan, chain) && |chain| < 100 && Follows(chain, phase)
    requires Plain(plan, window) && (window.Some? <==> IsWindowPhase(phase))
    requires window.Some? ==> window.value.durationMs <= MODEST && window.value.completedWork <= MODEST
    ensures Grown(plan, longer) && |longer| == |chain| + 1 && Last(longer).phase == phase
    ensures WindowsIn(longer, STABILITY) == WindowsIn(chain, STABILITY) + Added(phase, window, STABILITY)
    ensures WindowsIn(longer, {SteadyLoad}) == WindowsIn(chain, {SteadyLoad}) + Added(phase, window, {SteadyLoad})
    ensures WindowsIn(longer, {PostRecovery}) == WindowsIn(chain, {PostRecovery}) + Added(phase, window, {PostRecovery})
  {
    var c := NextRecord(plan, chain, phase, window);
    longer := chain + [c];
    assert c.content.phase == phase && c.content.window == window && c.content.observedAt == LATEST;
    RecordAccepted(plan, chain, phase, window);
    hide ValidPlan, ValidChain, NextRecord, Modest, Plain;
    assert CountersBefore(longer) == c.content.counters;
    DatesStay(chain, c);
    WindowsGrow(chain, c, STABILITY);
    WindowsGrow(chain, c, {SteadyLoad});
    WindowsGrow(chain, c, {PostRecovery});
  }

  function Added(phase: Phase, window: Option<Window>, phases: set<Phase>): seq<Window> {
    if phase in phases && window.Some? then [window.value] else []
  }

  lemma RecordAccepted(plan: Plan, chain: seq<Checkpoint>, phase: Phase, window: Option<Window>)
    requires ValidPlan(plan) && Grown(plan, chain) && |chain| < 100 && Follows(chain, phase)
    requires Plain(plan, window) && (window.Some? <==> IsWindowPhase(phase))
    requires window.Some? ==> window.value.durationMs <= MODEST && window.value.completedWork <= MODEST
    ensures var c := NextRecord(plan, chain, phase, window);
      ValidChain(plan, chain + [c]) && Modest(c.content.counters, |chain| + 1) && !StartsTooEarly(c.content)
  {
    var c := NextRecord(plan, chain, phase, window);
    WriterIsKnown(plan, chain, phase, window);
    WriterHasSession(plan, chain, phase, window);
    WriterIsInOrder(plan, chain, phase, window);
    PlainWindowOk(plan, c.content);
    ModestOn(plan, CountersBefore(chain), |chain|, phase, window);
    AdvancedIsPlus(CountersBefore(chain), c.content);
    GuardsAreRedundant(plan, chain, c);
    ValidExtend(plan, chain, c);
  }

  lemma DatesStay(chain: seq<Checkpoint>, c: Checkpoint)
    requires !DatesUnderflow(chain) && !StartsTooEarly(c.content)
    ensures !DatesUnderflow(chain + [c])
  {
    forall i | 0 <= i < |chain + [c]| ensures !StartsTooEarly((chain + [c])[i].content) {
      if i < |chain| { assert !StartsTooEarly(chain[i].content); }
    }
  }

  lemma WindowsGrow(chain: seq<Checkpoint>, c: Checkpoint, phases: set<Phase>)
    ensures WindowsIn(chain + [c], phases) ==
              WindowsIn(chain, phases) + Added(c.content.phase, c.content.window, phases)
  {
    assert (chain + [c])[..|chain|] == chain;
  }

  // ---------------------------------------------------------------------------
  // A zero median

  lemma NothingGrown(plan: Plan)
    ensures Grown(plan, [])
  {
  }

  /** A chain with a window in which no work was done is accepted, and the analysis divides by zero on it. No completion
      of the runner is such a chain: see Report.AnalysisOfCompleted. */
  lemma ZeroMedianIsAccepted(plan: Plan) returns (chain: seq<Checkpoint>)
    requires ValidPlan(plan)
    ensures ValidChain(plan, chain) && FaultOf(plan, chain) == Some(DivisionByZero)
  {
    NothingGrown(plan);
    var idle := Tallied(plan, 0, 1);
    ZeroRate(idle);
    hide ValidPlan, ValidChain, Modest;
    var first := Grow(plan, [], Baseline, Some(idle));
    chain := Grow(plan, first, SteadyLoad, Some(idle));
    assert WindowsIn(chain, STABILITY) == [idle];
    OnlyRate(plan, chain, idle);
  }

  lemma OnlyRate(plan: Plan, chain: seq<Checkpoint>, w: Window)
    requires Grown(plan, chain) && WindowsIn(chain, STABILITY) == [w] && Measured(w) && Throughput.Reported(w) == 0
    ensures FaultOf(plan, chain) == Some(DivisionByZero)
  {
    hide ValidChain, Modest;
    var rates := Report.Reported(plan, chain);
    assert rates == [0];
    IntegerStatistics(rates);
  }

  lemma ZeroRate(w: Window)
    requires w.completedWork == 0 && w.durationMs == 1
    ensures Measured(w) && Throughput.Reported(w) == 0
  {
  }

  // ---------------------------------------------------------------------------
  // A lost basis point

  const SLOW: int := 109951163
  const FAST: int := 1099511630001

  /** On some accepted chain the analysis returns, and its independent degradation is not the reported one. */
  lemma AnalysisDisagrees(plan: Plan) returns (chain: seq<Checkpoint>)
    requires ValidPlan(plan)
    ensures chain != [] && ValidChain(plan, chain) && FaultOf(plan, chain).None? && BuildReport(plan, chain).Some?
    ensures BuildReport(plan, chain).value.degradation == 10_000
    ensures SafeRates(Report.Reported(plan, chain)) && Report.Reported(plan, chain) != []
    ensures Running(Report.Reported(plan, chain)) == 9999
  {
    NothingGrown(plan);
    var (idle, slow, fast) := (Tallied(plan, 0, 1), Tallied(plan, SLOW, 1_000_000), Tallied(plan, FAST, 1_000_000));
    hide ValidPlan, ValidChain, Modest;
    chain := Grow(plan, [], Baseline, Some(idle));
    chain := Grow(plan, chain, SteadyLoad, Some(slow));
    chain := Grow(plan, chain, Interruption, None);
    chain := Grow(plan, chain, Recovery, None);
    chain := Grow(plan, chain, PostRecovery, Some(fast));
    chain := Grow(plan, chain, PostRecovery, Some(fast));
    assert WindowsIn(chain, STABILITY) == [slow, fast, fast];
    PlainRate(slow);
    PlainRate(fast);
    LostOn(plan, chain, slow, fast);
  }

  lemma PlainRate(w: Window)
    requires w.completedWork >= 0 && w.durationMs == 1_000_000
    ensures Measured(w) && Throughput.Reported(w) == w.completedWork
  {
  }

  lemma LowerOfThree(x: real, y: real)
    requires x <= y
    ensures LowerMedian([x, y, y]) == y && Minimum([x, y, y]) == x
  {
    hide Sort;
    SortOfOrdered([x, y, y], AtMost);
  }

  /** Lower median and minimum of a slow and two fast rates. */
  lemma SlowAndFast(slow: int, fast: int)
    requires slow <= fast
    ensures Median([slow, fast, fast]) == fast && Least([slow, fast, fast]) == slow
  {
    hide LowerMedian, Minimum, Sort;
    assert Reals([slow, fast, fast]) == [slow as real, fast as real, fast as real];
    LowerOfThree(slow as real, fast as real);
  }

  lemma LostOn(plan: Plan, chain: seq<Checkpoint>, slow: Window, fast: Window)
    requires ValidPlan(plan) && Grown(plan, chain) && chain != [] && WindowsIn(chain, STABILITY) == [slow, fast, fast]
    requires WindowsIn(chain, {SteadyLoad}) != [] && WindowsIn(chain, {PostRecovery}) != []
    requires Measured(slow) && Throughput.Reported(slow) == SLOW && Measured(fast) && Throughput.Reported(fast) == FAST
    ensures FaultOf(plan, chain).None? && BuildReport(plan, chain).Some?
    ensures BuildReport(plan, chain).value.degradation == 10_000
    ensures SafeRates(Report.Reported(plan, chain)) && Report.Reported(plan, chain) != []
    ensures Running(Report.Reported(plan, chain)) == 9999
  {
    hide ValidPlan, ValidChain, Modest, BuildReport, Median, Least, BasisPoints, FloatDegradation;
    var rates := Report.Reported(plan, chain);
    assert rates == [SLOW, FAST, FAST];
    SlowAndFast(SLOW, FAST);
    ReportedSafe(plan, chain);
    ReportNumbers(plan, chain);
    FloatLosesABasisPoint();
  }
}
