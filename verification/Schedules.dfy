/** Schedules that do complete: the exact complement of the hopeless states, and the undisturbed schedule. */
module Schedules {
  import opened Checkpoints
  import opened Options
  import opened ChainLaws
  import opened Runner
  import opened Protocol
  import opened Completion

  // ---------------------------------------------------------------------------
  // A turn that no check refuses

  function Governing(bs: seq<Boundary>, name: string): int {
    if bs == [] then 0 else if bs[0].measurement == name then bs[0].value else Governing(bs[1..], name)
  }

  lemma {:induction false} GoverningValue(bs: seq<Boundary>, b: Boundary)
    requires DistinctBoundaries(bs) && b in bs
    ensures Governing(bs, b.measurement) == b.value
  {
    if bs[0] != b {
      var k :| 0 < k < |bs| && bs[k] == b;
      assert bs[1..][k - 1] == b;
      GoverningValue(bs[1..], b);
    }
  }

  lemma {:induction false} GoverningRange(bs: seq<Boundary>, name: string)
    requires forall b :: b in bs ==> 0 <= b.value <= SAFE_INTEGER_MAX
    ensures 0 <= Governing(bs, name) <= SAFE_INTEGER_MAX
  {
    if bs != [] {
      assert bs[0] in bs;
      GoverningRange(bs[1..], name);
    }
  }

  function CalmSummary(plan: Plan, p: Policy): Summary {
    var v := Governing(plan.boundaries, p.measurement);
    Summary(p.measurement, p.unit, 1, Observed(v, v, v))
  }

  function CalmSummaries(plan: Plan): seq<Summary> {
    seq(|plan.policies|, i requires 0 <= i < |plan.policies| => CalmSummary(plan, plan.policies[i]))
  }

  /** Readings exactly on their boundaries satisfy every measurement check and breach nothing. */
  lemma CalmSummariesOk(plan: Plan)
    requires ValidPlan(plan)
    ensures SummariesOk(plan, CalmSummaries(plan)) && !Breached(plan, CalmSummaries(plan))
  {
    var ss := CalmSummaries(plan);
    forall i | 0 <= i < |ss| ensures Covered(plan, ss[i]) {
      GoverningRange(plan.boundaries, plan.policies[i].measurement);
      assert plan.policies[i] in plan.policies && ReadingOk(plan.policies[i], ss[i]);
    }
    forall p | p in plan.policies ensures Accounted(ss, p.measurement) {
      var i :| 0 <= i < |plan.policies| && plan.policies[i] == p;
      assert ss[i] in ss;
    }
    forall s, b | s in ss && b in plan.boundaries && b.measurement == s.measurement ensures !Violates(b, s) {
      GoverningValue(plan.boundaries, b);
    }
  }

  function FreshId(chain: seq<Checkpoint>): Id
    decreases |chain|
  {
    if chain == [] then 0 else
    var below := FreshId(chain[..|chain| - 1]);
    below + Last(chain).checkpointId + Last(chain).attempt + 1
  }

  lemma {:induction false} FreshIsFresh(chain: seq<Checkpoint>, q: Checkpoint)
    requires q in chain
    ensures q.content.checkpointId < FreshId(chain) && q.content.attempt < FreshId(chain)
    decreases |chain|
  {
    if chain[|chain| - 1] != q {
      FreshIsFresh(chain[..|chain| - 1], q);
    }
  }

  /** One pass that completes and takes no longer than the target. */
  function CalmWork(plan: Plan): Work { Work([Ran], 0, 0, CalmSummaries(plan)) }

  /** The window it makes in a phase: a millisecond for the idle baseline, the target time with one unit of work for a
      load window. */
  function CalmWindow(plan: Plan, phase: Phase): Window {
    if phase.Baseline? then Window(0, 1, 0, CalmSummaries(plan)) else Window(1, plan.targetMs, 0, CalmSummaries(plan))
  }

  lemma CalmWorkMakes(plan: Plan)
    requires ValidPlan(plan)
    ensures IdleWindow(CalmWork(plan)) == CalmWindow(plan, Baseline) && EndOf(CalmWork(plan).passes) == Ran
    ensures WorkloadWindow(plan, CalmWork(plan)) == CalmWindow(plan, SteadyLoad) == CalmWindow(plan, PostRecovery)
  {
    AllPassesDone(CalmWork(plan).passes);
  }

  function CalmTurn(plan: Plan, chain: seq<Checkpoint>): Turn {
    Turn(FreshId(chain), FreshId(chain), 0, 0, if chain == [] then 0 else Last(chain).observedAt, CalmWork(plan))
  }

  // ---------------------------------------------------------------------------
  // When the proposal of a current process is accepted

  /** The mode of a process agrees with the chain it holds. */
  predicate Consistent(plan: Plan, p: Proc) {
    && CanPropose(p)
    && (p.chain != [] ==>
          && p.workload == Last(p.chain).workload
          && var phase := Last(p.chain).phase;
             match p.mode
             case Fresh => true
             case Resuming => !phase.Interruption? && !phase.Complete?
             case Recovering => phase.Interruption?
             case Pausing => IsStability(phase)
             case Working(w) =>
               && IsStability(w)
               && (Last(p.chain).counters.windows < plan.minimumWindows ==>
                     phase == w || (phase.Baseline? && w.SteadyLoad?) || (phase.Recovery? && w.PostRecovery?)))
  }

  /** And it is not about to complete right after a recovery. */
  predicate Coherent(plan: Plan, p: Proc) {
    && Consistent(plan, p)
    && (p.mode.Working? && Last(p.chain).counters.windows >= plan.minimumWindows ==> IsStability(Last(p.chain).phase))
  }

  /** Sequence numbers for k more records. */
  predicate Slack(chain: seq<Checkpoint>, k: int) { |chain| + k <= SAFE_INTEGER_MAX }

  /** The missing windows can be counted, at the target time and one unit of work each. */
  predicate Lasts(plan: Plan, n: Counters) {
    && n.stabilityMs + (plan.minimumWindows - n.windows) * plan.targetMs <= SAFE_INTEGER_MAX
    && n.completedWork + (plan.minimumWindows - n.windows) <= SAFE_INTEGER_MAX
  }

  lemma OneMoreTarget(windows: int, target: int)
    ensures windows * target == (windows - 1) * target + target
    ensures windows >= 1 && target >= 0 ==> windows * target >= target
  {
    if windows >= 1 && target >= 0 { assert (windows - 1) * target >= 0; }
  }

  lemma RoomForOne(plan: Plan, n: Counters)
    requires Lasts(plan, n) && n.windows < plan.minimumWindows && plan.targetMs >= 1
    ensures n.stabilityMs + plan.targetMs <= SAFE_INTEGER_MAX && n.completedWork + 1 <= SAFE_INTEGER_MAX
  {
    OneMoreTarget(plan.minimumWindows - n.windows, plan.targetMs);
  }

  predicate Measurable(plan: Plan, chain: seq<Checkpoint>) { Lasts(plan, CountersBefore(chain)) }

  lemma {:induction false} SmallCounters(plan: Plan, chain: seq<Checkpoint>)
    requires chain != [] && ValidChain(plan, chain)
    ensures var c := Last(chain);
      && c.counters.windows <= |chain| && c.counters.interruptions <= |chain| && c.counters.resumes <= |chain|
      && c.session <= |chain| && c.counters.postRecoveryMs <= c.counters.stabilityMs
    decreases |chain|
  {
    var prefix := chain[..|chain| - 1];
    if prefix != [] { SmallCounters(plan, prefix); }
  }

  lemma OneIdentity(plan: Plan, chain: seq<Checkpoint>)
    requires chain != [] && ValidChain(plan, chain)
    ensures var c := Last(chain);
      && c.qualification == chain[0].content.qualification
      && c.logicalExecution == chain[0].content.logicalExecution
      && c.workload == chain[0].content.workload
  {
  }

  /** A turn whose identifiers are new to the chain and whose time is not before its last record. */
  predicate FreshTurn(turn: Turn, chain: seq<Checkpoint>) {
    && turn.checkpointId == turn.attempt == FreshId(chain)
    && 0 <= turn.now <= LATEST && (chain != [] ==> Last(chain).observedAt <= turn.now)
  }

  lemma FreshIdentity(plan: Plan, p: Proc, turn: Turn)
    requires Coherent(plan, p) && ValidChain(plan, p.chain) && FreshTurn(turn, p.chain)
    ensures IdentityOk(plan, p.chain, Proposal(plan, p, turn).content)
  {
    var c := Proposal(plan, p, turn).content;
    assert c.checkpointId == FreshId(p.chain) && c.planDigest == plan.digest && c.workload == p.workload;
    forall q | q in p.chain ensures q.content.checkpointId != FreshId(p.chain) {
      FreshIsFresh(p.chain, q);
    }
    if p.chain != [] { OneIdentity(plan, p.chain); }
  }

  lemma LastSession(plan: Plan, chain: seq<Checkpoint>)
    requires chain != [] && ValidChain(plan, chain)
    ensures 1 <= Last(chain).session <= |chain|
  {
    SmallCounters(plan, chain);
    ValidPrefix(plan, chain, |chain| - 1);
  }

  lemma FreshSession(plan: Plan, p: Proc, turn: Turn)
    requires Coherent(plan, p) && |p.chain| + 1 <= SAFE_INTEGER_MAX && ValidChain(plan, p.chain)
    requires FreshTurn(turn, p.chain)
    ensures SessionOk(p.chain, Proposal(plan, p, turn).content)
  {
    assert CanPropose(p) && turn.attempt == FreshId(p.chain);
    hide ValidChain, FreshTurn, FreshId, Coherent, Advanced;
    forall q | q in p.chain ensures q.content.attempt != FreshId(p.chain) {
      FreshIsFresh(p.chain, q);
    }
    if p.chain != [] { LastSession(plan, p.chain); }
  }

  lemma FreshOrder(plan: Plan, p: Proc, turn: Turn)
    requires Coherent(plan, p) && |p.chain| + 1 <= SAFE_INTEGER_MAX && FreshTurn(turn, p.chain)
    requires p.chain != [] ==> !Last(p.chain).phase.Complete?
    ensures OrderOk(p.chain, Proposal(plan, p, turn).content)
  {
  }

  lemma LastTimestamp(plan: Plan, chain: seq<Checkpoint>)
    requires ValidChain(plan, chain)
    ensures FreshTurn(CalmTurn(plan, chain), chain)
  {
    if chain != [] { ValidPrefix(plan, chain, |chain| - 1); }
  }

  /** The producer's counter arithmetic is the validator's, for every record whose window matches its phase. */
  lemma AdvancedIsPlus(before: Counters, c: Content)
    requires c.window.Some? <==> IsWindowPhase(c.phase)
    ensures Advanced(before, c.phase, c.window, c.failures) == Plus(before, Contribution(c))
  {
  }

  predicate Calm(plan: Plan, c: Content) {
    && c.failures == NO_FAILURES
    && c.window == if IsWindowPhase(c.phase) then Some(CalmWindow(plan, c.phase)) else None
  }

  lemma CalmContent(plan: Plan, p: Proc)
    requires ValidPlan(plan) && Coherent(plan, p)
    ensures var c := Proposal(plan, p, CalmTurn(plan, p.chain)).content;
      Calm(plan, c) && c.counters == Advanced(CountersBefore(p.chain), c.phase, c.window, c.failures)
  {
    CalmWorkMakes(plan);
    CalmSummariesOk(plan);
  }

  lemma CalmWindowOk(plan: Plan, c: Content)
    requires ValidPlan(plan) && Calm(plan, c) && (IsStability(c.phase) ==> plan.targetMs <= SAFE_INTEGER_MAX)
    ensures WindowOk(plan, c)
  {
    CalmSummariesOk(plan);
  }

  lemma CalmStaysSafe(plan: Plan, before: Counters, c: Content)
    requires Calm(plan, c) && c.counters == Plus(before, Contribution(c)) && SafeCounters(before) && plan.targetMs >= 1
    requires before.windows < SAFE_INTEGER_MAX && before.interruptions < SAFE_INTEGER_MAX
    requires before.resumes < SAFE_INTEGER_MAX
    requires before.completions == 0 && before.postRecoveryMs <= before.stabilityMs
    requires IsStability(c.phase) ==>
               before.stabilityMs + plan.targetMs <= SAFE_INTEGER_MAX && before.completedWork + 1 <= SAFE_INTEGER_MAX
    ensures SafeCounters(c.counters)
  {
  }

  lemma LastCounters(plan: Plan, chain: seq<Checkpoint>)
    requires chain != [] && ValidChain(plan, chain) && Slack(chain, 1) && !Last(chain).phase.Complete?
    ensures var n := Last(chain).counters;
      && SafeCounters(n) && n.completions == 0 && n.postRecoveryMs <= n.stabilityMs
      && n.windows < SAFE_INTEGER_MAX && n.interruptions < SAFE_INTEGER_MAX && n.resumes < SAFE_INTEGER_MAX
  {
    SmallCounters(plan, chain);
    ResumesFollowInterruptions(plan, chain);
    ValidPrefix(plan, chain, |chain| - 1);
  }

  lemma CalmCounters(plan: Plan, chain: seq<Checkpoint>, c: Content)
    requires ValidPlan(plan) && Slack(chain, 1) && Measurable(plan, chain) && ValidChain(plan, chain) && Calm(plan, c)
    requires IsStability(c.phase) ==> CountersBefore(chain).windows < plan.minimumWindows
    requires chain != [] ==> !Last(chain).phase.Complete?
    requires c.counters == Plus(CountersBefore(chain), Contribution(c))
    ensures WindowOk(plan, c) && SafeCounters(c.counters)
  {
    assert plan.targetMs >= 1;
    hide ValidPlan, Lasts, Calm, Plus, Contribution, WindowOk, ValidChain;
    if chain != [] { LastCounters(plan, chain); }
    if IsStability(c.phase) { RoomForOne(plan, CountersBefore(chain)); }
    CalmWindowOk(plan, c);
    CalmStaysSafe(plan, CountersBefore(chain), c);
  }

  /** A fresh turn is accepted when its record is clean, its window passes and its counters stay safe. */
  lemma FreshAccepted(plan: Plan, p: Proc, turn: Turn)
    requires ValidPlan(plan) && Coherent(plan, p) && |p.chain| + 1 <= SAFE_INTEGER_MAX && ValidChain(plan, p.chain)
    requires p.chain != [] ==> !Last(p.chain).phase.Complete?
    requires FreshTurn(turn, p.chain)
    requires var c := Proposal(plan, p, turn).content;
      && c.failures == NO_FAILURES && WindowOk(plan, c) && SafeCounters(c.counters)
      && c.counters == Plus(CountersBefore(p.chain), Contribution(c))
    ensures ValidChain(plan, p.chain + [Proposal(plan, p, turn)])
  {
    var c := Proposal(plan, p, turn);
    FreshOrder(plan, p, turn);
    FreshIdentity(plan, p, turn);
    FreshSession(plan, p, turn);
    GuardsAreRedundant(plan, p.chain, c);
    ValidExtend(plan, p.chain, c);
  }

  lemma CalmAccepted(plan: Plan, p: Proc)
    requires ValidPlan(plan) && Coherent(plan, p) && Slack(p.chain, 1) && ValidChain(plan, p.chain)
    requires Measurable(plan, p.chain)
    requires p.chain != [] ==> !Last(p.chain).phase.Complete?
    ensures ValidChain(plan, p.chain + [Proposal(plan, p, CalmTurn(plan, p.chain))])
  {
    var c := Proposal(plan, p, CalmTurn(plan, p.chain));
    LastTimestamp(plan, p.chain);
    CalmContent(plan, p);
    AdvancedIsPlus(CountersBefore(p.chain), c.content);
    CalmCounters(plan, p.chain, c.content);
    FreshAccepted(plan, p, CalmTurn(plan, p.chain));
  }

  // ---------------------------------------------------------------------------
  // Driving one current process

  /** A live process holds the whole clean, unfinished chain and stands at the given mode. */
  ghost predicate At(plan: Plan, w: World, id: nat, mode: Mode) {
    && Formed(w) && Inv(plan, w)
    && id in w.procs && w.procs[id].chain == Disk(w) && w.procs[id].mode == mode
    && Coherent(plan, w.procs[id])
    && (Disk(w) != [] ==> Clean(Last(Disk(w)).counters) && !Last(Disk(w)).phase.Complete?)
    && Measurable(plan, Disk(w))
  }

  ghost function Calmly(plan: Plan, w: World, id: nat): Event
    requires Contiguous(w.files)
  {
    Publish(id, CalmTurn(plan, Disk(w)))
  }

  function NextPhase(plan: Plan, p: Proc): Phase
    requires CanPropose(p)
  {
    match p.mode
    case Fresh => Baseline
    case Resuming => Interruption
    case Recovering => Recovery
    case Pausing => Interruption
    case Working(w) => if Last(p.chain).counters.windows < plan.minimumWindows then w else Complete
  }

  lemma CalmProposal(plan: Plan, p: Proc) returns (c: Checkpoint)
    requires ValidPlan(plan) && Coherent(plan, p) && Slack(p.chain, 1) && ValidChain(plan, p.chain)
    requires Measurable(plan, p.chain) && (p.chain != [] ==> !Last(p.chain).phase.Complete?)
    ensures c == Proposal(plan, p, CalmTurn(plan, p.chain))
    ensures ValidChain(plan, p.chain + [c])
    ensures Calm(plan, c.content) && WindowOk(plan, c.content) && c.content.phase == NextPhase(plan, p)
    ensures c.content.counters == Plus(CountersBefore(p.chain), Contribution(c.content))
    ensures c.content.workload == p.workload
  {
    c := Proposal(plan, p, CalmTurn(plan, p.chain));
    CalmAccepted(plan, p);
    CalmContent(plan, p);
    AdvancedIsPlus(CountersBefore(p.chain), c.content);
    ValidExtend(plan, p.chain, c);
  }

  lemma AtChain(plan: Plan, w: World, id: nat, mode: Mode)
    requires At(plan, w, id, mode)
    ensures ValidChain(plan, Disk(w)) && |Disk(w)| + 1 !in w.files
  {
  }

  /** A current process publishes an acceptable proposal and moves on. */
  lemma PublishFresh(plan: Plan, w: World, id: nat, mode: Mode, turn: Turn, c: Checkpoint) returns (w': World)
    requires ValidPlan(plan) && At(plan, w, id, mode)
    requires c == Proposal(plan, w.procs[id], turn) && ValidChain(plan, Disk(w) + [c])
    ensures w' == Next(plan, w, Publish(id, turn)) && Formed(w')
    ensures Inv(plan, w') && Disk(w') == Disk(w) + [c] && Last(Disk(w')) == c.content
    ensures match After(plan, w.procs[id], c)
            case Continue(p) => w'.procs == w.procs[id := p]
            case Exit(_) => w'.procs == w.procs - {id}
  {
    hide ValidPlan, Proposal, ValidChain, Coherent, DiskOk, ProcOk, Next, Attempt, Settle, After, Load, Last;
    AtChain(plan, w, id, mode);
    w' := Next(plan, w, Publish(id, turn));
    NextPublish(plan, w, id, turn, c);
    NextKeeps(plan, w, Publish(id, turn));
    NewDisk(w, w', |Disk(w)| + 1, c);
  }

  lemma PublishCalm(plan: Plan, w: World, id: nat, mode: Mode) returns (w': World, c: Checkpoint)
    requires ValidPlan(plan) && At(plan, w, id, mode) && Slack(Disk(w), 1)
    ensures w' == Next(plan, w, Calmly(plan, w, id)) && Formed(w')
    ensures Inv(plan, w') && Disk(w') == Disk(w) + [c] && Last(Disk(w')) == c.content
    ensures Calm(plan, c.content) && WindowOk(plan, c.content) && c.content.phase == NextPhase(plan, w.procs[id])
    ensures c.content.counters == Plus(CountersBefore(Disk(w)), Contribution(c.content))
    ensures c.content.workload == w.procs[id].workload
    ensures match After(plan, w.procs[id], c)
            case Continue(p) => w'.procs == w.procs[id := p]
            case Exit(_) => w'.procs == w.procs - {id}
  {
    hide ValidPlan, Calm, WindowOk, Proposal, NextPhase, ValidChain, Coherent, DiskOk, ProcOk, Next, After, Last;
    AtChain(plan, w, id, mode);
    c := CalmProposal(plan, w.procs[id]);
    w' := PublishFresh(plan, w, id, mode, CalmTurn(plan, Disk(w)), c);
  }

  lemma NewDisk(w: World, w': World, k: int, c: Checkpoint)
    requires Contiguous(w.files) && k == |w.files| + 1 && w'.files == w.files[k := c]
    ensures Contiguous(w'.files) && Disk(w') == Disk(w) + [c] && Last(Disk(w')) == c.content
  {
    Appended(w.files, c);
  }

  ghost function Windows(w: World): int
    requires Contiguous(w.files)
  {
    CountersBefore(Disk(w)).windows
  }

  ghost function Interruptions(w: World): int
    requires Contiguous(w.files)
  {
    CountersBefore(Disk(w)).interruptions
  }

  /** A calm record uses up one sequence number, and for a window its target time and a unit of work. */
  lemma OneRecord(plan: Plan, w: World, w': World, c: Checkpoint)
    requires Contiguous(w.files) && Contiguous(w'.files) && Disk(w') == Disk(w) + [c] && Last(Disk(w')) == c.content
    requires Calm(plan, c.content) && c.content.counters == Plus(CountersBefore(Disk(w)), Contribution(c.content))
    ensures |Disk(w')| == |Disk(w)| + 1 && (Measurable(plan, Disk(w)) ==> Measurable(plan, Disk(w')))
  {
    hide Lasts, Calm, Plus, Contribution;
    assert CountersBefore(Disk(w')) == c.content.counters;
    if Measurable(plan, Disk(w)) { LastsOn(plan, CountersBefore(Disk(w)), c.content); }
  }

  lemma LastsOn(plan: Plan, before: Counters, c: Content)
    requires Calm(plan, c) && c.counters == Plus(before, Contribution(c)) && Lasts(plan, before)
    ensures Lasts(plan, c.counters)
  {
    var windows := plan.minimumWindows - before.windows;
    OneMoreTarget(windows, plan.targetMs);
    if IsStability(c.phase) {
      assert plan.minimumWindows - c.counters.windows == windows - 1;
    } else {
      assert plan.minimumWindows - c.counters.windows == windows;
    }
  }

  /** Where a process stands after a clean window. */
  function AfterWindow(plan: Plan, phase: Phase, n: Counters): Mode {
    if n.interruptions < plan.minimumRecoveries && n.windows >= InterruptionWindow(plan) then Pausing
    else Working(phase)
  }

  lemma CleanWindow(plan: Plan, p: Proc, phase: Phase, c: Checkpoint)
    requires Coherent(plan, p) && p.mode == Working(phase) && p.chain != [] && Clean(Last(p.chain).counters)
    requires Last(p.chain).counters.windows < plan.minimumWindows
    requires c.content.phase == phase && c.content.window.Some? && c.content.failures == NO_FAILURES
    requires c.content.workload == p.workload
    requires c.content.counters == Plus(Last(p.chain).counters, Contribution(c.content))
    ensures c.content.counters.windows == Last(p.chain).counters.windows + 1 && Clean(c.content.counters)
    ensures c.content.counters.interruptions == Last(p.chain).counters.interruptions
    ensures var next := Proc(AfterWindow(plan, phase, c.content.counters), p.chain + [c], p.workload);
      After(plan, p, c) == Continue(next) && Coherent(plan, next)
  {
    assert Last(p.chain + [c]) == c.content;
  }

  /** A clean window, whatever it measured, moves a current process on. */
  lemma WindowLands(plan: Plan, w: World, w': World, id: nat, phase: Phase, c: Checkpoint)
    requires At(plan, w, id, Working(phase)) && Disk(w) != [] && Windows(w) < plan.minimumWindows
    requires Formed(w') && Inv(plan, w') && Disk(w') == Disk(w) + [c] && Last(Disk(w')) == c.content
    requires c.content.phase == phase && c.content.window.Some? && c.content.failures == NO_FAILURES
    requires c.content.workload == w.procs[id].workload
    requires c.content.counters == Plus(CountersBefore(Disk(w)), Contribution(c.content))
    requires Measurable(plan, Disk(w'))
    requires match After(plan, w.procs[id], c)
             case Continue(p) => w'.procs == w.procs[id := p]
             case Exit(_) => w'.procs == w.procs - {id}
    ensures Windows(w') == Windows(w) + 1 && Interruptions(w') == Interruptions(w)
    ensures Disk(w') != [] && IsStability(Last(Disk(w')).phase)
    ensures At(plan, w', id, AfterWindow(plan, phase, c.content.counters))
  {
    AtPhase(plan, w, id, phase);
    hide After, Coherent, DiskOk, ProcOk, Contribution, Plus;
    CleanWindow(plan, w.procs[id], phase, c);
  }

  lemma AtPhase(plan: Plan, w: World, id: nat, phase: Phase)
    requires At(plan, w, id, Working(phase)) && Disk(w) != []
    ensures IsStability(phase)
  {
  }

  lemma CalmWindowStep(plan: Plan, w: World, id: nat, phase: Phase) returns (w': World)
    requires ValidPlan(plan) && At(plan, w, id, Working(phase)) && Slack(Disk(w), 1)
    requires Disk(w) != [] && Windows(w) < plan.minimumWindows
    ensures w' == Next(plan, w, Calmly(plan, w, id))
    ensures Inv(plan, w') && |Disk(w')| == |Disk(w)| + 1
    ensures Windows(w') == Windows(w) + 1 && Interruptions(w') == Interruptions(w)
    ensures Disk(w') != [] && IsStability(Last(Disk(w')).phase)
    ensures At(plan, w', id,
      if Interruptions(w) < plan.minimumRecoveries && Windows(w') >= InterruptionWindow(plan) then Pausing
      else Working(phase))
  {
    AtPhase(plan, w, id, phase);
    var c;
    w', c := PublishCalm(plan, w, id, Working(phase));
    hide After, Coherent, DiskOk, ProcOk, WindowOk, ValidPlan, Measurable;
    OneRecord(plan, w, w', c);
    WindowLands(plan, w, w', id, phase, c);
  }

  lemma CalmCompletion(plan: Plan, w: World, id: nat, phase: Phase) returns (w': World)
    requires ValidPlan(plan) && At(plan, w, id, Working(phase)) && Slack(Disk(w), 1)
    requires Disk(w) != [] && Windows(w) >= plan.minimumWindows
    ensures w' == Next(plan, w, Calmly(plan, w, id))
    ensures Contiguous(w'.files) && IsComplete(w')
  {
    var c;
    w', c := PublishCalm(plan, w, id, Working(phase));
  }

  lemma BaselineCounts(c: Content)
    requires c.phase.Baseline? && c.failures == NO_FAILURES && c.counters == Plus(NO_COUNTS, Contribution(c))
    ensures Clean(c.counters) && c.counters.windows == c.counters.interruptions == 0 && c.counters.stabilityMs == 0
  {
  }

  lemma BaselineWork(plan: Plan, c: Content)
    requires c.phase.Baseline? && Calm(plan, c) && c.counters == Plus(NO_COUNTS, Contribution(c))
    ensures c.counters.completedWork == 0 && c.counters.overheadMs == 0
  {
  }

  lemma BaselineAfter(plan: Plan, p: Proc, c: Checkpoint)
    requires plan.minimumWindows > 0 && p.mode.Fresh? && c.content.phase.Baseline?
    requires Clean(c.content.counters) && c.content.counters.windows == 0 && c.content.workload == p.workload
    ensures After(plan, p, c) == Continue(Proc(Working(SteadyLoad), p.chain + [c], p.workload))
    ensures Coherent(plan, Proc(Working(SteadyLoad), p.chain + [c], p.workload))
  {
    assert Last(p.chain + [c]) == c.content;
  }

  /** The baseline of the chain measured no work and no overhead. */
  predicate IdleStart(chain: seq<Checkpoint>) {
    chain != [] && chain[0].content.counters.completedWork == 0 && chain[0].content.counters.overheadMs == 0
  }

  lemma CalmBaseline(plan: Plan, w: World, id: nat) returns (w': World)
    requires ValidPlan(plan) && At(plan, w, id, Fresh) && Slack(Disk(w), 1)
    ensures w' == Next(plan, w, Calmly(plan, w, id))
    ensures Inv(plan, w') && |Disk(w')| == |Disk(w)| + 1 && Disk(w') != []
    ensures Windows(w') == Interruptions(w') == 0 && Last(Disk(w')).phase == Baseline && IdleStart(Disk(w'))
    ensures At(plan, w', id, Working(SteadyLoad))
  {
    assert plan.minimumWindows > 0;
    hide DiskOk, ProcOk, WindowOk, ValidPlan, Measurable;
    var c;
    w', c := PublishCalm(plan, w, id, Fresh);
    BaselineCounts(c.content);
    assert Disk(w') == [c];
    BaselineWork(plan, c.content);
    OneRecord(plan, w, w', c);
    BaselineLands(plan, w, w', id, c);
  }

  lemma BaselineLands(plan: Plan, w: World, w': World, id: nat, c: Checkpoint)
    requires plan.minimumWindows > 0 && At(plan, w, id, Fresh)
    requires Formed(w') && Inv(plan, w') && Disk(w') == Disk(w) + [c] && Last(Disk(w')) == c.content
    requires c.content.phase.Baseline? && c.content.workload == w.procs[id].workload
    requires Clean(c.content.counters) && c.content.counters.windows == 0 && Measurable(plan, Disk(w'))
    requires match After(plan, w.procs[id], c)
             case Continue(p) => w'.procs == w.procs[id := p]
             case Exit(_) => w'.procs == w.procs - {id}
    ensures At(plan, w', id, Working(SteadyLoad))
  {
    hide After, Coherent, DiskOk, ProcOk;
    BaselineAfter(plan, w.procs[id], c);
  }

  lemma CalmInterruption(plan: Plan, w: World, id: nat, mode: Mode) returns (w': World)
    requires ValidPlan(plan) && At(plan, w, id, mode) && Slack(Disk(w), 1) && (mode.Resuming? || mode.Pausing?)
    ensures w' == Next(plan, w, Calmly(plan, w, id)) && Formed(w')
    ensures Inv(plan, w') && |Disk(w')| == |Disk(w)| + 1 && Disk(w') != []
    ensures Windows(w') == Windows(w) && Interruptions(w') == Interruptions(w) + 1
    ensures Last(Disk(w')).phase == Interruption && Clean(Last(Disk(w')).counters)
    ensures mode.Resuming? ==> At(plan, w', id, Recovering)
    ensures mode.Pausing? ==> id !in w'.procs && Measurable(plan, Disk(w'))
  {
    hide DiskOk, ProcOk, WindowOk, ValidPlan, Measurable;
    var c;
    w', c := PublishCalm(plan, w, id, mode);
    OneRecord(plan, w, w', c);
  }

  lemma CalmRecovery(plan: Plan, w: World, id: nat) returns (w': World)
    requires ValidPlan(plan) && At(plan, w, id, Recovering) && Slack(Disk(w), 1) && Windows(w) < plan.minimumWindows
    ensures w' == Next(plan, w, Calmly(plan, w, id))
    ensures Inv(plan, w') && |Disk(w')| == |Disk(w)| + 1 && Disk(w') != []
    ensures Windows(w') == Windows(w) && Interruptions(w') == Interruptions(w)
    ensures Last(Disk(w')).phase == Recovery
    ensures At(plan, w', id, Working(PostRecovery))
  {
    hide DiskOk, ProcOk, WindowOk, ValidPlan, Measurable;
    var c;
    w', c := PublishCalm(plan, w, id, Recovering);
    OneRecord(plan, w, w', c);
  }
}
