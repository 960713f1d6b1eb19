/** Schedules that reach what the other modules warn of. */
module Witnesses {
  import opened Checkpoints
  import opened Options
  import opened ChainLaws
  import opened Runner
  import opened Protocol
  import opened Completion
  import opened Schedules
  import opened Loading
  import opened Liveness
  import opened Throughput
  import opened Report
  import Binary64
  import Rounding

  // ---------------------------------------------------------------------------
  // A recovered session that has measured nothing yet and needs no further pause

  lemma BaselineAlone(plan: Plan) returns (events: seq<Event>, w: World)
    requires ValidPlan(plan) && HasRoom(plan)
    ensures w == Reached(plan, events) && Idle(plan, w, 0) && !Last(Disk(w)).phase.Interruption?
    ensures Windows(w) == Interruptions(w) == 0 && IdleStart(Disk(w)) && OnlyBy(events, 0)
    ensures |Disk(w)| == 1 && Slack(Disk(w), 2 * plan.minimumRecoveries + plan.minimumWindows + 1)
    ensures 1 + 2 * (plan.minimumRecoveries - 1) <= MAX_LOADABLE
  {
    var k := 2 * plan.minimumRecoveries + plan.minimumWindows + 2;
    assert Slack(Disk(EMPTY), k);
    var first, started := FirstSession(plan, EMPTY);
    w := CrashStep(plan, started, 0);
    AtIdle(plan, started, w, 0, SteadyLoad);
    events := first + [Crash(0)];
    RunAppend(plan, EMPTY, first, [Crash(0)]);
    RunOne(plan, started, Crash(0));
  }

  /** After its first recovery a chain measures only post-recovery windows. */
  lemma RecoveringPhase(plan: Plan, w: World, id: nat)
    requires At(plan, w, id, Working(PostRecovery)) && Disk(w) != [] && Windows(w) < plan.minimumWindows
    ensures Recovered(Last(Disk(w)))
  {
  }

  lemma SameStart(plan: Plan, w: World, es: seq<Event>)
    requires ValidPlan(plan) && Formed(w) && Inv(plan, w) && Disk(w) != [] && IdleStart(Disk(w))
    ensures Inv(plan, Run(plan, w, es)) && Disk(w) <= Disk(Run(plan, w, es)) && IdleStart(Disk(Run(plan, w, es)))
  {
    RunKeeps(plan, w, es);
  }

  lemma BothBy(a: seq<Event>, b: seq<Event>, id: nat)
    requires OnlyBy(a, id) && OnlyBy(b, id)
    ensures OnlyBy(a + b, id)
  {
  }

  /** One session publishes its baseline and is lost; later ones recover and are lost until there are enough
      interruptions. */
  lemma ReadyToMeasure(plan: Plan) returns (events: seq<Event>, w: World)
    requires ValidPlan(plan) && HasRoom(plan)
    ensures w == Reached(plan, events) && At(plan, w, 0, Working(PostRecovery)) && Disk(w) != []
    ensures Windows(w) == 0 && Interruptions(w) >= plan.minimumRecoveries && Recovered(Last(Disk(w)))
    ensures IdleStart(Disk(w)) && Slack(Disk(w), plan.minimumWindows + 1)
    ensures forall other :: other in w.procs ==> other == 0
  {
    assert plan.minimumRecoveries >= 1 && plan.minimumWindows >= 2;
    hide ValidPlan, DiskOk, ProcOk, Coherent, Next, OnlyBy;
    var first, w1 := BaselineAlone(plan);
    var second, w2 := Reenter(plan, w1, 0);
    assert LoadsEarly(plan, w2);
    var third, next;
    third, w, next := Raise(plan, w2, 0, PostRecovery);
    events := first + second + third;
    RunAppend(plan, EMPTY, first, second);
    RunAppend(plan, EMPTY, first + second, third);
    SameStart(plan, w1, second);
    SameStart(plan, w2, third);
    RecoveringPhase(plan, w, 0);
    BothBy(first, second, 0);
    BothBy(first + second, third, 0);
    OnlyByLeaves(plan, EMPTY, events, 0);
  }

  // ---------------------------------------------------------------------------
  // A late crash can happen

  /** Under every plan with room some schedule reaches a state that can still complete and in which the next crash is
      fatal. */
  lemma LateCrashHappens(plan: Plan)
    requires ValidPlan(plan) && HasRoom(plan)
    ensures exists events ::
              AboutToComplete(plan, Reached(plan, events), 0) && !Hopeless(plan, Reached(plan, events))
  {
    var events, w := ReadyToMeasure(plan);
    var measured, w' := MeasureFrom(plan, w, 0, PostRecovery);
    RunAppend(plan, EMPTY, events, measured);
    OnlyByLeaves(plan, w, measured, 0);
    AllMeasured(plan, w');
    NotYetHopeless(plan, w');
    assert AboutToComplete(plan, Reached(plan, events + measured), 0);
  }

  lemma NotYetHopeless(plan: Plan, w: World)
    requires At(plan, w, 0, Working(PostRecovery)) && AboutToComplete(plan, w, 0)
    ensures !Hopeless(plan, w)
  {
  }

  lemma AllMeasured(plan: Plan, w: World)
    requires At(plan, w, 0, Working(PostRecovery)) && Disk(w) != [] && Windows(w) == plan.minimumWindows
    requires forall other :: other in w.procs ==> other == 0
    ensures AboutToComplete(plan, w, 0)
  {
  }

  // ---------------------------------------------------------------------------
  // Sessions whose windows are all alike

  /** Passes that all complete, at readings that breach nothing. */
  predicate Steady(plan: Plan, work: Work) {
    && work.passes != [] && EndOf(work.passes).Ran? && work.overheadMs == 0
    && work.summaries == CalmSummaries(plan)
  }

  /** All windows of the plan like this one can be counted. */
  predicate Affordable(plan: Plan, w: Window) {
    plan.minimumWindows * w.durationMs <= SAFE_INTEGER_MAX && plan.minimumWindows * w.completedWork <= SAFE_INTEGER_MAX
  }

  function SteadyTurn(plan: Plan, chain: seq<Checkpoint>, work: Work): Turn
    requires chain != []
  {
    var ms := WorkloadWindow(plan, work).durationMs;
    CalmTurn(plan, chain).(
      now := if Last(chain).observedAt < ms <= LATEST then ms else Last(chain).observedAt,
      work := work)
  }

  lemma SteadyWindow(plan: Plan, work: Work)
    requires ValidPlan(plan) && Steady(plan, work)
    ensures var w := WorkloadWindow(plan, work);
      w == Window(|work.passes|, plan.targetMs + work.ms, 0, CalmSummaries(plan)) && w.completedWork >= 1
      && w.durationMs >= plan.targetMs >= 1
    ensures WorkloadFailures(plan, WorkloadWindow(plan, work), EndOf(work.passes)) == NO_FAILURES
  {
    AllPassesDone(work.passes);
    CalmSummariesOk(plan);
  }

  predicate EvenWindow(c: Content, w: Window) {
    IsStability(c.phase) ==> c.window == Some(w) && (w.durationMs <= LATEST ==> w.durationMs <= c.observedAt)
  }

  ghost predicate Even(chain: seq<Checkpoint>, w: Window) {
    forall i :: 0 <= i < |chain| ==> EvenWindow(chain[i].content, w)
  }

  /** The counters of a chain whose windows are all like w. */
  predicate Loaded(n: Counters, w: Window) {
    && 0 <= n.windows
    && n.stabilityMs == n.postRecoveryMs == n.windows * w.durationMs
    && n.completedWork == n.windows * w.completedWork && n.overheadMs == 0
  }

  /** Without windows nothing beyond the baseline has been measured. */
  lemma {:induction false} NothingMeasured(plan: Plan, chain: seq<Checkpoint>, w: Window)
    requires DiskOk(plan, chain) && IdleStart(chain) && Last(chain).counters.windows == 0
    ensures Loaded(Last(chain).counters, w) && Even(chain, w)
    decreases |chain|
  {
    var (prefix, c) := (chain[..|chain| - 1], chain[|chain| - 1]);
    assert chain == prefix + [c];
    hide ValidChain, RecordOk, Loaded, Plus, Contribution, SafeCounters;
    CountersStep(plan, prefix, c);
    if prefix != [] {
      assert DiskOk(plan, prefix) && IdleStart(prefix);
      assert chain[|chain| - 1].content.phase != Baseline;
      WindowInPhase(plan, chain);
      NothingAdded(CountersBefore(prefix), c.content, w);
      NothingMeasured(plan, prefix, w);
    } else {
      PhasesStep(plan, chain, 0);
      NothingFirst(c.content, w);
    }
  }

  lemma WindowInPhase(plan: Plan, chain: seq<Checkpoint>)
    requires ValidChain(plan, chain) && chain != []
    ensures IsWindowPhase(Last(chain).phase) ==> Last(chain).window.Some?
    ensures |chain| > 1 ==> Last(chain[..|chain| - 1]).counters.windows >= 0
  {
    if |chain| > 1 { ValidPrefix(plan, chain, |chain| - 2); }
  }

  lemma NothingFirst(c: Content, w: Window)
    requires c.counters == Plus(NO_COUNTS, Contribution(c)) && c.phase.Baseline?
    requires c.counters.completedWork == c.counters.overheadMs == 0
    ensures Loaded(c.counters, w) && EvenWindow(c, w)
  {
  }

  lemma NothingAdded(before: Counters, c: Content, w: Window)
    requires c.counters == Plus(before, Contribution(c)) && c.counters.windows == 0 && before.windows >= 0
    requires !c.phase.Baseline? && SafeCounters(c.counters) && (IsWindowPhase(c.phase) ==> c.window.Some?)
    ensures before.windows == 0 && EvenWindow(c, w)
    ensures Loaded(before, w) ==> Loaded(c.counters, w)
  {
  }

  /** The record of a steady window. */
  lemma SteadyProposal(plan: Plan, p: Proc, work: Work) returns (c: Checkpoint)
    requires ValidPlan(plan) && Steady(plan, work) && Coherent(plan, p) && p.mode == Working(PostRecovery)
    requires p.chain != []
    requires Last(p.chain).counters.windows < plan.minimumWindows
    ensures c == Proposal(plan, p, SteadyTurn(plan, p.chain, work))
    ensures c.content.phase == PostRecovery && c.content.failures == NO_FAILURES && c.content.workload == p.workload
    ensures c.content.window == Some(WorkloadWindow(plan, work))
    ensures c.content.observedAt == SteadyTurn(plan, p.chain, work).now
    ensures c.content.counters == Plus(CountersBefore(p.chain), Contribution(c.content))
  {
    SteadyWindow(plan, work);
    hide WorkloadWindow, WorkloadFailures, ValidPlan;
    c := Proposal(plan, p, SteadyTurn(plan, p.chain, work));
    AdvancedIsPlus(CountersBefore(p.chain), c.content);
  }

  lemma SplitProduct(m: int, n: int, each: int)
    ensures (m + n) * each == m * each + n * each
  {
  }

  /** n windows alike, one more alike, and all of them. */
  lemma Alike(n: int, all: int, each: int, least: int)
    requires 0 <= n < all && 0 <= least <= each && each >= 1
    ensures (n + 1) * each == n * each + each
    ensures 0 <= n * each && (n + 1) * each <= all * each
    ensures n * each + (all - n) * least <= all * each
  {
    SplitProduct(n, 1, each);
    SplitProduct(n, all - n, each);
    Rounding.MulAtLeast(each, 0, n);
    Rounding.MulAtLeast(each, n + 1, all);
    Rounding.MulAtLeast(all - n, least, each);
  }

  lemma SteadyCounters(plan: Plan, before: Counters, c: Content, w: Window)
    requires Affordable(plan, w) && Loaded(before, w) && before.windows < plan.minimumWindows <= SAFE_INTEGER_MAX
    requires SafeCounters(before) && w.durationMs >= plan.targetMs >= 1 && w.completedWork >= 1 && w.overheadMs == 0
    requires c.phase == PostRecovery && c.failures == NO_FAILURES && c.window == Some(w)
    requires c.counters == Plus(before, Contribution(c))
    ensures Loaded(c.counters, w) && SafeCounters(c.counters)
  {
    Alike(before.windows, plan.minimumWindows, w.durationMs, plan.targetMs);
    Alike(before.windows, plan.minimumWindows, w.completedWork, 1);
    hide Affordable;
    assert Affordable(plan, w);
    assert c.counters.windows == before.windows + 1;
    assert c.counters.stabilityMs == before.stabilityMs + w.durationMs;
    assert c.counters.completedWork == before.completedWork + w.completedWork;
  }

  lemma AffordableLasts(plan: Plan, n: Counters, w: Window)
    requires Affordable(plan, w) && Loaded(n, w) && n.windows <= plan.minimumWindows
    requires w.durationMs >= plan.targetMs >= 1 && w.completedWork >= 1
    ensures Lasts(plan, n)
  {
    if n.windows < plan.minimumWindows {
      Alike(n.windows, plan.minimumWindows, w.durationMs, plan.targetMs);
      Alike(n.windows, plan.minimumWindows, w.completedWork, 1);
    }
  }

  /** A chain whose windows are alike, with room for the rest. */
  ghost predicate UnderLoad(plan: Plan, world: World, w: Window) {
    && At(plan, world, 0, Working(PostRecovery)) && Disk(world) != []
    && Interruptions(world) >= plan.minimumRecoveries && Windows(world) <= plan.minimumWindows
    && Slack(Disk(world), plan.minimumWindows - Windows(world) + 1)
    && Loaded(Last(Disk(world)).counters, w) && Even(Disk(world), w)
  }

  lemma SteadyStep(plan: Plan, world: World, work: Work) returns (e: Event, world': World)
    requires ValidPlan(plan) && Steady(plan, work)
    requires var w := WorkloadWindow(plan, work); Affordable(plan, w) && UnderLoad(plan, world, w)
    requires Contiguous(world.files) && Windows(world) < plan.minimumWindows
    ensures world' == Next(plan, world, e) && Contiguous(world'.files) && Windows(world') == Windows(world) + 1
    ensures UnderLoad(plan, world', WorkloadWindow(plan, work))
  {
    var turn := SteadyTurn(plan, Disk(world), work);
    var w := WorkloadWindow(plan, work);
    SteadyWindow(plan, work);
    AtChain(plan, world, 0, Working(PostRecovery));
    var c := SteadyProposal(plan, world.procs[0], work);
    SteadyAccepted(plan, world, work, c);
    hide WorkloadWindow, Affordable, Loaded, Even, EvenWindow;
    world' := PublishFresh(plan, world, 0, Working(PostRecovery), turn, c);
    e := Publish(0, turn);
    assert CountersBefore(Disk(world')) == c.content.counters;
    AffordableLasts(plan, c.content.counters, w);
    WindowLands(plan, world, world', 0, PostRecovery, c);
    EvenMore(Disk(world), c, w);
  }

  lemma EvenMore(chain: seq<Checkpoint>, c: Checkpoint, w: Window)
    requires Even(chain, w) && EvenWindow(c.content, w)
    ensures Even(chain + [c], w)
  {
  }

  lemma SteadyWindowOk(plan: Plan, c: Content)
    requires ValidPlan(plan) && IsStability(c.phase) && c.failures == NO_FAILURES && c.window.Some?
    requires c.window.value.summaries == CalmSummaries(plan) && 1 <= c.window.value.durationMs <= SAFE_INTEGER_MAX
    requires 0 <= c.window.value.completedWork <= SAFE_INTEGER_MAX && c.window.value.overheadMs == 0
    ensures WindowOk(plan, c)
  {
    CalmSummariesOk(plan);
  }

  lemma OneOfThem(all: int, each: int)
    requires all >= 1 && each >= 0
    ensures each <= all * each
  {
    assert (all - 1) * each >= 0;
  }

  lemma SteadyAccepted(plan: Plan, world: World, work: Work, c: Checkpoint)
    requires ValidPlan(plan) && Steady(plan, work)
    requires var w := WorkloadWindow(plan, work); Affordable(plan, w) && UnderLoad(plan, world, w)
    requires Windows(world) < plan.minimumWindows && ValidChain(plan, Disk(world))
    requires c == Proposal(plan, world.procs[0], SteadyTurn(plan, Disk(world), work))
    requires c.content.phase == PostRecovery && c.content.failures == NO_FAILURES
    requires c.content.window == Some(WorkloadWindow(plan, work))
    requires c.content.observedAt == SteadyTurn(plan, Disk(world), work).now
    requires c.content.counters == Plus(CountersBefore(Disk(world)), Contribution(c.content))
    ensures ValidChain(plan, Disk(world) + [c])
    ensures Loaded(c.content.counters, WorkloadWindow(plan, work)) && EvenWindow(c.content, WorkloadWindow(plan, work))
  {
    var (chain, w) := (Disk(world), WorkloadWindow(plan, work));
    SteadyWindow(plan, work);
    NonNegative(plan, chain);
    SmallCounters(plan, chain);
    LastTimestamp(plan, chain);
    OneOfThem(plan.minimumWindows, w.durationMs);
    OneOfThem(plan.minimumWindows, w.completedWork);
    assert FreshTurn(SteadyTurn(plan, chain, work), chain);
    hide WorkloadWindow, Steady, Loaded, Even;
    SteadyCounters(plan, Last(chain).counters, c.content, w);
    SteadyWindowOk(plan, c.content);
    FreshAccepted(plan, world.procs[0], SteadyTurn(plan, chain, work));
  }

  lemma {:induction false} LoadAll(plan: Plan, world: World, work: Work) returns (es: seq<Event>, world': World)
    requires ValidPlan(plan) && Steady(plan, work)
    requires var w := WorkloadWindow(plan, work); Affordable(plan, w) && UnderLoad(plan, world, w)
    ensures world' == Run(plan, world, es) && UnderLoad(plan, world', WorkloadWindow(plan, work))
    ensures Windows(world') == plan.minimumWindows
    decreases plan.minimumWindows - Windows(world)
  {
    hide DiskOk, ProcOk, Coherent, Loaded, Even, Next, ValidPlan, WorkloadWindow, Steady, Affordable;
    if Windows(world) == plan.minimumWindows {
      es, world' := [], world;
      Standing(plan, world);
    } else {
      var e, world1 := SteadyStep(plan, world, work);
      var rest;
      rest, world' := LoadAll(plan, world1, work);
      es := [e] + rest;
      Prepend(plan, world, e, rest);
    }
  }

  /** A run that completes with all windows alike and no steady load. */
  ghost predicate LoadedCompletion(plan: Plan, events: seq<Event>, w: Window) {
    var world := Reached(plan, events);
    && Contiguous(world.files) && IsComplete(world)
    && Count(Disk(world), {SteadyLoad}) == 0
    && Even(Disk(world), w)
    && var n := Last(Disk(world)).counters;
       n.overheadMs == 0 && n.stabilityMs == n.postRecoveryMs == plan.minimumWindows * w.durationMs
  }

  lemma CompletionKeepsCounts(plan: Plan, world: World, w: Window, c: Content)
    requires UnderLoad(plan, world, w) && Windows(world) == plan.minimumWindows >= 1
    requires c.phase.Complete? && Calm(plan, c) && c.counters == Plus(CountersBefore(Disk(world)), Contribution(c))
    ensures c.counters.overheadMs == 0
    ensures c.counters.stabilityMs == c.counters.postRecoveryMs == plan.minimumWindows * w.durationMs
    ensures EvenWindow(c, w)
  {
    hide At, Even;
  }

  lemma CompletionAdds(plan: Plan, world: World, w: Window) returns (e: Event, world': World)
    requires ValidPlan(plan) && UnderLoad(plan, world, w) && Windows(world) == plan.minimumWindows
    ensures world' == Next(plan, world, e) && Contiguous(world'.files) && IsComplete(world') && Even(Disk(world'), w)
    ensures var n := Last(Disk(world')).counters;
      n.overheadMs == 0 && n.stabilityMs == n.postRecoveryMs == plan.minimumWindows * w.durationMs
  {
    assert plan.minimumWindows >= 1;
    e := Calmly(plan, world, 0);
    var c;
    world', c := PublishCalm(plan, world, 0, Working(PostRecovery));
    assert world.procs[0].chain == Disk(world) && NextPhase(plan, world.procs[0]).Complete?;
    hide ValidPlan, DiskOk, ProcOk, Coherent, Next, After, Even, Calm, WindowOk;
    CompletionKeepsCounts(plan, world, w, c.content);
    EvenMore(Disk(world), c, w);
  }

  /** Measure every window of a recovered session alike and complete. */
  lemma CompleteLoaded(plan: Plan, work: Work) returns (events: seq<Event>)
    requires ValidPlan(plan) && HasRoom(plan) && Steady(plan, work) && Affordable(plan, WorkloadWindow(plan, work))
    ensures LoadedCompletion(plan, events, WorkloadWindow(plan, work))
  {
    var w := WorkloadWindow(plan, work);
    var before, world := ReadyToMeasure(plan);
    Unloaded(plan, world, w);
    hide WorkloadWindow, Steady, Affordable;
    var measured, world1 := LoadAll(plan, world, work);
    var e, world2 := CompletionAdds(plan, world1, w);
    RunOne(plan, world1, e);
    RunAppend(plan, world, measured, [e]);
    RunAppend(plan, EMPTY, before, measured + [e]);
    events := before + (measured + [e]);
    RunKeeps(plan, EMPTY, before);
    RunKeeps(plan, world, measured + [e]);
    RunKeeps(plan, EMPTY, events);
    NoSteadyLoad(plan, Disk(world), Disk(world2));
  }

  lemma Unloaded(plan: Plan, world: World, w: Window)
    requires At(plan, world, 0, Working(PostRecovery)) && Disk(world) != [] && plan.minimumWindows >= 0
    requires Windows(world) == 0 && Interruptions(world) >= plan.minimumRecoveries
    requires IdleStart(Disk(world)) && Slack(Disk(world), plan.minimumWindows + 1)
    ensures UnderLoad(plan, world, w)
  {
    NothingMeasured(plan, Disk(world), w);
  }

  lemma NoSteadyLoad(plan: Plan, before: seq<Checkpoint>, after: seq<Checkpoint>)
    requires DiskOk(plan, after) && before <= after && before != []
    requires Recovered(Last(before)) && Last(before).counters.windows == 0
    ensures Count(after, {SteadyLoad}) == 0
  {
    var k := |before|;
    assert after[..k] == before;
    ValidPrefix(plan, after, k);
    CountersAreFolds(plan, before);
    CountWithin(before, {SteadyLoad}, {SteadyLoad, PostRecovery});
    SteadyStops(plan, after, k);
  }

  lemma {:induction false} CountWithin(chain: seq<Checkpoint>, a: set<Phase>, b: set<Phase>)
    requires a <= b
    ensures Count(chain, a) <= Count(chain, b)
    decreases |chain|
  {
    if chain != [] { CountWithin(chain[..|chain| - 1], a, b); }
  }

  // ---------------------------------------------------------------------------
  // What report and analysis make of them

  lemma {:induction false} EvenWindows(chain: seq<Checkpoint>, w: Window)
    requires Even(chain, w)
    ensures forall i :: 0 <= i < |WindowsIn(chain, STABILITY)| ==> WindowsIn(chain, STABILITY)[i] == w
    decreases |chain|
  {
    if chain != [] {
      EvenWindows(chain[..|chain| - 1], w);
      assert EvenWindow(chain[|chain| - 1].content, w);
    }
  }

  lemma EvenRates(plan: Plan, chain: seq<Checkpoint>, w: Window)
    requires ValidChain(plan, chain) && Even(chain, w) && Measured(w)
    ensures forall i :: 0 <= i < |Report.Reported(plan, chain)| ==>
              Report.Reported(plan, chain)[i] == Throughput.Reported(w)
  {
    EvenWindows(chain, w);
    WindowsMeasured(plan, chain, STABILITY);
  }

  lemma RateAtMost(w: Window)
    requires w.durationMs >= 1 && w.completedWork == 1
    ensures Measured(w) && 0 <= Throughput.Reported(w) <= 1_000_000
  {
    RateNonNegative(w);
    AtMostWork(w.durationMs, Throughput.Reported(w), 1_000_000);
  }

  lemma EvenStatistics(rates: seq<int>, rate: int)
    requires rates != [] && forall i :: 0 <= i < |rates| ==> rates[i] == rate
    ensures Median(rates) == Least(rates) == rate
  {
    IntegerStatistics(rates);
    var i :| 0 <= i < |rates| && rates[i] == Median(rates);
    var j :| 0 <= j < |rates| && rates[j] == Least(rates);
  }

  ghost predicate PassesYetRaises(plan: Plan, events: seq<Event>) {
    var w := Reached(plan, events);
    && Contiguous(w.files) && IsComplete(w) && Count(Disk(w), {SteadyLoad}) == 0
    && ValidChain(plan, Disk(w)) && FaultOf(plan, Disk(w)) == Some(EmptyMedian)
    && BuildReport(plan, Disk(w)).Some? && BuildReport(plan, Disk(w)).value.status.Passed?
  }

  lemma NoFaultOfDates(chain: seq<Checkpoint>, w: Window)
    requires Even(chain, w) && w.durationMs <= LATEST
    ensures !DatesUnderflow(chain)
  {
    forall i | 0 <= i < |chain| ensures !StartsTooEarly(chain[i].content) {
      assert EvenWindow(chain[i].content, w);
    }
  }

  /** The report of a completion whose windows are alike, with one unit of work each. */
  lemma EvenReport(plan: Plan, events: seq<Event>, w: Window)
    requires ValidPlan(plan) && LoadedCompletion(plan, events, w) && w.durationMs >= 1 && w.completedWork == 1
    ensures var report := BuildReport(plan, Disk(Reached(plan, events)));
      && report.Some? && report.value.degradation == report.value.overhead == 0
      && (report.value.checks.stabilityDuration <==> plan.minimumWindows * w.durationMs >= plan.minimumStabilityMs)
      && report.value.checks.samplingOverhead && report.value.checks.throughputStability
      && (plan.minimumWindows * w.durationMs >= plan.minimumStabilityMs ==> report.value.status.Passed?)
  {
    var chain := Disk(Reached(plan, events));
    RunKeeps(plan, EMPTY, events);
    CompletionHasPostRecovery(plan, events);
    CompletedReport(plan, events);
    RateAtMost(w);
    EvenRates(plan, chain, w);
    EvenStatistics(Report.Reported(plan, chain), Throughput.Reported(w));
    NothingLost(plan.minimumWindows * w.durationMs);
    NothingLost(Throughput.Reported(w));
  }

  lemma NothingLost(ms: int)
    ensures BasisPoints(0, ms) == 0
  {
    if ms > 0 { Binary64.CeilIs(0, ms); }
  }

  lemma LoadedPasses(plan: Plan, events: seq<Event>, w: Window)
    requires ValidPlan(plan) && LoadedCompletion(plan, events, w) && 1 <= w.durationMs <= LATEST && w.completedWork == 1
    requires plan.minimumWindows * w.durationMs >= plan.minimumStabilityMs
    ensures PassesYetRaises(plan, events)
  {
    var chain := Disk(Reached(plan, events));
    RunKeeps(plan, EMPTY, events);
    AnalysisOfCompleted(plan, events);
    EvenReport(plan, events, w);
    EvenRates(plan, chain, w);
    RateAtMost(w);
    NoFaultOfDates(chain, w);
    WindowsMeasured(plan, chain, {SteadyLoad});
  }

  /** The milliseconds of windows long enough for the stability duration. */
  function LongEnough(plan: Plan): int
    requires plan.minimumWindows > 0
  {
    AtLeast(Binary64.CeilDiv(plan.minimumStabilityMs, plan.minimumWindows), plan.targetMs)
  }

  /** One pass a window, of so many milliseconds. */
  function OnePass(plan: Plan, ms: nat): Work { Work([Ran], ms, 0, CalmSummaries(plan)) }

  lemma OnePassIs(plan: Plan, ms: nat)
    requires ValidPlan(plan)
    ensures Steady(plan, OnePass(plan, ms))
    ensures WorkloadWindow(plan, OnePass(plan, ms)) == Window(1, plan.targetMs + ms, 0, CalmSummaries(plan))
  {
    SteadyWindow(plan, OnePass(plan, ms));
  }

  /** The analysis raises on qualifications that the report passes: for every plan with room, and with windows inside
      the calendar, some completed run without a steady-load window is one. */
  lemma AnalysisRaisesOnPassedRuns(plan: Plan)
    requires ValidPlan(plan) && HasRoom(plan)
    requires LongEnough(plan) <= LATEST && plan.minimumWindows * LongEnough(plan) <= SAFE_INTEGER_MAX
    ensures exists events :: PassesYetRaises(plan, events)
  {
    var (all, each) := (plan.minimumWindows, LongEnough(plan));
    var work := OnePass(plan, each - plan.targetMs);
    OnePassIs(plan, each - plan.targetMs);
    Rounding.MulAtLeast(all, Binary64.CeilDiv(plan.minimumStabilityMs, all), each);
    hide OnePass;
    var events := CompleteLoaded(plan, work);
    LoadedPasses(plan, events, WorkloadWindow(plan, work));
  }

  ghost predicate StabilityChecked(plan: Plan, events: seq<Event>) {
    var w := Reached(plan, events);
    Contiguous(w.files) && IsComplete(w) ==>
      var report := BuildReport(plan, Disk(w));
      report.Some? ==> report.value.checks.stabilityDuration
  }

  /** Under a plan that can complete at all, the stability-duration check holds on every reachable completion if and
      only if the target times of the windows add up to the stability duration. */
  lemma StabilityDurationExactly(plan: Plan)
    requires ValidPlan(plan) && HasRoom(plan)
    ensures (forall events :: StabilityChecked(plan, events)) <==>
              plan.minimumWindows * plan.targetMs >= plan.minimumStabilityMs
  {
    if plan.minimumWindows * plan.targetMs >= plan.minimumStabilityMs {
      forall events ensures StabilityChecked(plan, events) {
        var w := Reached(plan, events);
        if Contiguous(w.files) && IsComplete(w) { CompletedReport(plan, events); }
      }
    } else {
      var work := OnePass(plan, 0);
      OnePassIs(plan, 0);
      hide OnePass;
      var events := CompleteLoaded(plan, work);
      EvenReport(plan, events, WorkloadWindow(plan, work));
      assert !StabilityChecked(plan, events);
    }
  }
}
