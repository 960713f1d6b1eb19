/** The resumable runner: one process that loads a checkpoint root and appends to it.

  The pure half of this module says what one append does to a process and to the files;
  the class half is the program, whose main loop is proved to do exactly that.
*/
module Runner {
  import opened Checkpoints
  import opened Options

  /** How one pass of the workload ended. */
  datatype Outcome = Ran | TimedOut | ExitedNonZero

  /** What one window meets: how the passes end that begin before its target time, the milliseconds beyond the target
      (or, if a pass fails, in all), the sampler's time and its summaries. */
  datatype Work = Work(passes: seq<Outcome>, ms: nat, overheadMs: nat, summaries: seq<Summary>)

  /** What the environment supplies to one append: fresh identifiers, the clock, a window to measure. */
  datatype Turn = Turn(
    checkpointId: Id, attempt: Id, qualification: Id, logicalExecution: Id, now: int, work: Work)

  datatype Identity = Identity(qualification: Id, logicalExecution: Id, attempt: Id, session: int, workload: string)

  /** Where the program stands between two appends. */
  datatype Mode = Fresh | Resuming | Recovering | Working(phase: Phase) | Pausing

  datatype Proc = Proc(mode: Mode, chain: seq<Checkpoint>, workload: string)

  datatype Verdict = Refused | AlreadyComplete | FailClosed | Paused | Completed | Killed

  datatype Progress = Continue(proc: Proc) | Exit(verdict: Verdict)

  type Files = map<int, Checkpoint>

  /** Up to here names sort by number: see CheckpointNames.SortedByNumber. */
  const MAX_LOADABLE := 999_999

  // ---------------------------------------------------------------------------
  // Files

  ghost predicate Contiguous(files: Files) {
    forall k :: k in files <==> 1 <= k <= |files|
  }

  ghost function ChainOf(files: Files): (chain: seq<Checkpoint>)
    requires Contiguous(files)
    ensures |chain| == |files|
    ensures forall k :: 0 <= k < |chain| ==> chain[k] == files[k + 1]
  {
    seq(|files|, i requires 0 <= i < |files| => files[i + 1])
  }

  /** Names are checkpoint-000001.json, checkpoint-000002.json and so on; from the millionth on they no longer sort in
      order. */
  ghost predicate Loadable(plan: Plan, files: Files) {
    && files != map[]
    && Contiguous(files)
    && |files| <= MAX_LOADABLE
    && ValidPlan(plan)
    && ValidChain(plan, ChainOf(files))
  }

  // ---------------------------------------------------------------------------
  // One append

  function InterruptionWindow(plan: Plan): int {
    var half := plan.minimumWindows / 2;
    if half > 1 then half else 1
  }

  /** The producer's counter arithmetic. */
  function Advanced(before: Counters, phase: Phase, window: Option<Window>, f: Failures): Counters {
    var failed := before.(
      containment := before.containment + f.containment, duplicate := before.duplicate + f.duplicate,
      integrity := before.integrity + f.integrity, breaches := before.breaches + f.breaches);
    var worked := if window.None? then failed else failed.(
      completedWork := failed.completedWork + window.value.completedWork,
      overheadMs := failed.overheadMs + window.value.overheadMs);
    var steady := if window.None? || !IsStability(phase) then worked else worked.(
      stabilityMs := worked.stabilityMs + window.value.durationMs, windows := worked.windows + 1);
    var posted := if window.None? || !phase.PostRecovery? then steady else steady.(
      postRecoveryMs := steady.postRecoveryMs + window.value.durationMs);
    match phase
    case Interruption => posted.(interruptions := posted.interruptions + 1)
    case Recovery => posted.(resumes := posted.resumes + 1)
    case Complete => posted.(completions := posted.completions + 1)
    case _ => posted
  }

  function Build(
    plan: Plan, chain: seq<Checkpoint>, who: Identity, phase: Phase, window: Option<Window>, f: Failures,
    turn: Turn): Checkpoint
  {
    var previous := if chain == [] then None else Some(chain[|chain| - 1].digest);
    var content := Content(
      who.attempt, turn.checkpointId, Advanced(CountersBefore(chain), phase, window, f), f,
      who.logicalExecution, turn.now, phase, plan.digest, previous, who.qualification,
      |chain| + 1, who.session, window, who.workload);
    Checkpoint(content, Sha256(content))
  }

  /** Passes completed before the first that fails. */
  function PassesDone(passes: seq<Outcome>): nat {
    if passes == [] || !passes[0].Ran? then 0 else 1 + PassesDone(passes[1..])
  }

  /** How the passes end: with the first failure, if any. */
  function EndOf(passes: seq<Outcome>): Outcome {
    if passes == [] then Ran else if passes[0].Ran? then EndOf(passes[1..]) else passes[0]
  }

  /** The idle baseline counts no work. */
  function IdleWindow(work: Work): Window {
    Window(0, if work.ms == 0 then 1 else work.ms, work.overheadMs, work.summaries)
  }

  /** A load window: it ends with the first failing pass, or once the target time has passed; without a pass nothing is
      sampled. */
  function WorkloadWindow(plan: Plan, work: Work): Window {
    var ms := if EndOf(work.passes).Ran? then plan.targetMs + work.ms else work.ms;
    Window(
      PassesDone(work.passes), if ms < 1 then 1 else ms, work.overheadMs,
      if work.passes == [] then Unsampled(plan) else work.summaries)
  }

  function BaselineFailures(plan: Plan, w: Window): Failures {
    NO_FAILURES.(breaches := if Breached(plan, w.summaries) then 1 else 0)
  }

  function WorkloadFailures(plan: Plan, w: Window, o: Outcome): Failures {
    Failures(
      if o.TimedOut? then 1 else 0, 0, if o.ExitedNonZero? then 1 else 0,
      if Breached(plan, w.summaries) then 1 else 0)
  }

  /** A load window counts the passes before the first failure, and the failure; without one it lasts from the target
      time on. */
  lemma {:induction false} FirstFailureDecides(plan: Plan, work: Work, k: nat)
    requires plan.targetMs >= 1 && k <= |work.passes| && forall i :: 0 <= i < k ==> work.passes[i].Ran?
    requires k < |work.passes| ==> !work.passes[k].Ran?
    ensures var w := WorkloadWindow(plan, work);
      var f := WorkloadFailures(plan, w, EndOf(work.passes));
      && w.completedWork == k && w.overheadMs == work.overheadMs
      && w.durationMs ==
         (if k == |work.passes| then plan.targetMs + work.ms else if work.ms > 0 then work.ms else 1)
      && f.containment == (if k < |work.passes| && work.passes[k].TimedOut? then 1 else 0)
      && f.integrity == (if k < |work.passes| && work.passes[k].ExitedNonZero? then 1 else 0)
      && f.duplicate == 0
      && (f.breaches == 0 <==> !Breached(plan, w.summaries))
      && (work.passes != [] ==> w.summaries == work.summaries)
    decreases k
  {
    if k > 0 { FirstFailureDecides(plan, work.(passes := work.passes[1..]), k - 1); }
  }

  predicate CanPropose(p: Proc) { p.mode.Fresh? <==> p.chain == [] }

  function Who(p: Proc, turn: Turn): Identity
    requires CanPropose(p)
  {
    if p.mode.Fresh? then Identity(turn.qualification, turn.logicalExecution, turn.attempt, 1, p.workload)
    else
      var last := Last(p.chain);
      if p.mode.Recovering?
      then Identity(last.qualification, last.logicalExecution, turn.attempt, last.session + 1, p.workload)
      else Identity(last.qualification, last.logicalExecution, last.attempt, last.session, p.workload)
  }

  /** The record a process tries to publish next. */
  function Proposal(plan: Plan, p: Proc, turn: Turn): Checkpoint
    requires CanPropose(p)
  {
    var who := Who(p, turn);
    match p.mode
    case Fresh =>
      var window := IdleWindow(turn.work);
      Build(plan, [], who, Baseline, Some(window), BaselineFailures(plan, window), turn)
    case Resuming => Build(plan, p.chain, who, Interruption, None, NO_FAILURES, turn)
    case Recovering => Build(plan, p.chain, who, Recovery, None, NO_FAILURES, turn)
    case Pausing => Build(plan, p.chain, who, Interruption, None, NO_FAILURES, turn)
    case Working(phase) =>
      if Last(p.chain).counters.windows < plan.minimumWindows
      then
        var window := WorkloadWindow(plan, turn.work);
        Build(plan, p.chain, who, phase, Some(window), WorkloadFailures(plan, window, EndOf(turn.work.passes)), turn)
      else Build(plan, p.chain, who, Complete, None, NO_FAILURES, turn)
  }

  /** Where the process stands once its record is published. */
  function After(plan: Plan, p: Proc, c: Checkpoint): (r: Progress)
    ensures r.Continue? ==> CanPropose(r.proc)
  {
    var counters := c.content.counters;
    var next := p.(chain := p.chain + [c]);
    match p.mode
    case Fresh => if Clean(counters) then Continue(next.(mode := Working(SteadyLoad))) else Exit(FailClosed)
    case Resuming => Continue(next.(mode := Recovering))
    case Recovering => Continue(next.(mode := Working(PostRecovery)))
    case Pausing => Exit(Paused)
    case Working(phase) =>
      if c.content.phase.Complete? then Exit(Completed)
      else if !Clean(counters) then Exit(FailClosed)
      else if counters.interruptions < plan.minimumRecoveries && counters.windows >= InterruptionWindow(plan)
      then Continue(next.(mode := Pausing))
      else Continue(next)
  }

  /** A record carries the turn's identifier and time and the process's workload; a first record opens a qualification
      of the turn's naming, a recovery a session of the turn's attempt, and every other record continues its session. */
  lemma RecordContinues(plan: Plan, p: Proc, turn: Turn)
    requires CanPropose(p) && (p.mode.Working? ==> IsStability(p.mode.phase))
    ensures var c := Proposal(plan, p, turn).content;
      && c.checkpointId == turn.checkpointId && c.observedAt == turn.now && c.workload == p.workload
      && (p.chain == [] ==>
            && c.phase == Baseline && c.session == 1
            && c.window == Some(Window(0, if turn.work.ms > 0 then turn.work.ms else 1, turn.work.overheadMs,
                                       turn.work.summaries))
            && (c.qualification, c.logicalExecution, c.attempt) ==
               (turn.qualification, turn.logicalExecution, turn.attempt))
      && (p.chain != [] ==>
            var last := Last(p.chain);
            && c.qualification == last.qualification && c.logicalExecution == last.logicalExecution
            && (c.attempt, c.session) ==
               if c.phase == Recovery then (turn.attempt, last.session + 1) else (last.attempt, last.session))
  {
  }

  /** What becomes of a session once its record is published, told from the record: it ends with a completion, with a
      measured window after which a failure is counted, or with the interruption that it makes itself; it goes on to
      load after a baseline or a recovery, to a recovery after closing its predecessor, and otherwise as before. */
  lemma RecordDecides(plan: Plan, p: Proc, turn: Turn)
    requires CanPropose(p) && (p.mode.Working? ==> IsStability(p.mode.phase))
    ensures var c := Proposal(plan, p, turn);
      match After(plan, p, c)
      case Exit(verdict) =>
        && (verdict == Completed <==> c.content.phase == Complete)
        && (verdict == Paused <==> c.content.phase == Interruption)
        && (verdict == FailClosed <==> IsWindowPhase(c.content.phase))
        && (verdict == FailClosed ==> !Clean(c.content.counters))
        && verdict in {Completed, Paused, FailClosed}
      case Continue(q) =>
        && q.chain == p.chain + [c] && q.workload == p.workload
        && (IsWindowPhase(c.content.phase) ==> Clean(c.content.counters))
        && (c.content.phase == Baseline ==> q.mode == Working(SteadyLoad))
        && (c.content.phase == Recovery ==> q.mode == Working(PostRecovery))
        && (c.content.phase == Interruption ==> q.mode == Recovering)
        && (IsStability(c.content.phase) ==> q.mode in {Working(c.content.phase), Pausing})
        && c.content.phase != Complete
  {
  }

  /** After a clean window the session pauses exactly when interruptions are still due and the windows measured are half
      of the planned ones, or within one window of half. */
  lemma PausesHalfway(plan: Plan, p: Proc, c: Checkpoint)
    requires ValidPlan(plan) && p.mode.Working? && !c.content.phase.Complete? && Clean(c.content.counters)
    ensures var (next, n) := (After(plan, p, c), c.content.counters);
      && next.Continue? && next.proc.chain == p.chain + [c]
      && (next.proc.mode.Pausing? <==>
            n.interruptions < plan.minimumRecoveries && 2 * n.windows + 1 >= plan.minimumWindows)
      && (!next.proc.mode.Pausing? ==> next.proc.mode == p.mode)
  {
  }

  /** The validator accepts the record and no file stands at its index. */
  predicate Accepted(plan: Plan, chain: seq<Checkpoint>, c: Checkpoint, files: Files) {
    ValidPlan(plan) && ValidChain(plan, chain + [c]) && |chain| + 1 !in files
  }

  function Settle(plan: Plan, p: Proc, c: Checkpoint, files: Files): (r: (Progress, Files))
    ensures r.0.Continue? ==> CanPropose(r.0.proc)
  {
    if Accepted(plan, p.chain, c, files) then (After(plan, p, c), files[|p.chain| + 1 := c])
    else (Exit(Refused), files)
  }

  function Attempt(plan: Plan, p: Proc, files: Files, turn: Turn): (r: (Progress, Files))
    requires CanPropose(p)
    ensures r.0.Continue? ==> CanPropose(r.0.proc)
  {
    Settle(plan, p, Proposal(plan, p, turn), files)
  }

  // ---------------------------------------------------------------------------
  // One session

  ghost function Load(plan: Plan, files: Files, workload: string): Progress {
    if files == map[] then Continue(Proc(Fresh, [], workload))
    else if !Loadable(plan, files) then Exit(Refused)
    else
      var chain := ChainOf(files);
      if Last(chain).workload != workload then Exit(Refused)
      else if Last(chain).phase.Complete? then Exit(AlreadyComplete)
      else Continue(Proc(if Last(chain).phase.Interruption? then Recovering else Resuming, chain, workload))
  }

  /** Which chains a session takes up, and how: any of another workload, or that it cannot load, is refused; one that is
      complete is left alone; one that ends in an interruption is recovered, and any other is interrupted first. */
  lemma LoadExactly(plan: Plan, files: Files, workload: string)
    requires files != map[]
    ensures var loaded := Load(plan, files, workload);
      && (loaded == Exit(Refused) <==> !Loadable(plan, files) || files[|files|].content.workload != workload)
      && (loaded == Exit(AlreadyComplete) <==>
            && Loadable(plan, files) && files[|files|].content.workload == workload
            && files[|files|].content.phase == Complete)
      && (loaded.Continue? ==>
            && loaded.proc.chain == ChainOf(files) && loaded.proc.workload == workload
            && (loaded.proc.mode == Recovering <==> files[|files|].content.phase == Interruption)
            && loaded.proc.mode in {Recovering, Resuming})
      && (loaded.Exit? ==> loaded.verdict in {Refused, AlreadyComplete})
  {
    if Loadable(plan, files) { assert Last(ChainOf(files)) == files[|files|].content; }
  }

  /** One append opportunity: first other processes publish, then this one tries. */
  datatype Slot = Slot(others: Files, turn: Turn)

  ghost function Session(plan: Plan, progress: Progress, files: Files, slots: seq<Slot>): (Verdict, Files)
    requires progress.Continue? ==> CanPropose(progress.proc)
    decreases |slots|
  {
    match progress
    case Exit(verdict) => (verdict, files)
    case Continue(p) =>
      if slots == [] then (Killed, files)
      else
        var (next, written) := Attempt(plan, p, slots[0].others + files, slots[0].turn);
        Session(plan, next, written, slots[1..])
  }

  lemma OneSlot(plan: Plan, p: Proc, c: Checkpoint, files: Files, slots: seq<Slot>)
    requires CanPropose(p) && slots != [] && c == Proposal(plan, p, slots[0].turn)
    ensures var disk := slots[0].others + files;
      Session(plan, Continue(p), files, slots) ==
      if Accepted(plan, p.chain, c, disk) then Session(plan, After(plan, p, c), disk[|p.chain| + 1 := c], slots[1..])
      else (Refused, disk)
  {
  }

  // ---------------------------------------------------------------------------
  // The program

  class CheckpointRoot {
    var files: Files

    constructor ()
      ensures files == map[]
    {
      files := map[];
    }

    /** Publication by link: refused when the name is taken, and never overwriting. */
    method WriteNew(sequence: int, c: Checkpoint) returns (published: bool)
      modifies this
      ensures published <==> sequence !in old(files)
      ensures files == if published then old(files)[sequence := c] else old(files)
    {
      if sequence in files { return false; }
      files := files[sequence := c];
      return true;
    }

    /** Other processes publish; existing files stay as they are. */
    method Concurrently(others: Files)
      modifies this
      ensures files == others + old(files)
    {
      files := others + files;
    }

    method LoadCheckpointChain(plan: Plan) returns (chain: Option<seq<Checkpoint>>)
      ensures chain.Some? <==> Loadable(plan, files)
      ensures chain.Some? ==> chain.value == ChainOf(files)
    {
      if files == map[] || |files| > MAX_LOADABLE { return None; }
      var loaded: seq<Checkpoint> := [];
      for offset := 1 to |files| + 1
        invariant |loaded| == offset - 1
        invariant forall k :: 1 <= k < offset ==> k in files && loaded[k - 1] == files[k]
      {
        if offset !in files { return None; }
        loaded := loaded + [files[offset]];
      }
      OnlyThese(files);
      assert loaded == ChainOf(files);
      var ok := ValidateCheckpointChain(plan, loaded);
      return if ok then Some(loaded) else None;
    }
  }

  ghost function Range(n: nat): (r: set<int>)
    ensures |r| == n
    ensures forall k :: k in r <==> 1 <= k <= n
  {
    if n == 0 then {} else Range(n - 1) + {n}
  }

  /** A directory of n files that holds the names 1 to n holds no other name. */
  lemma OnlyThese(files: Files)
    requires forall k :: 1 <= k <= |files| ==> k in files
    ensures Contiguous(files)
  {
    var range := Range(|files|);
    assert range <= files.Keys;
    SameSize(range, files.Keys);
  }

  lemma {:induction false} SameSize<T>(a: set<T>, b: set<T>)
    requires a <= b && |a| == |b|
    ensures a == b
  {
    assert b == a + (b - a);
  }

  class Process {
    const plan: Plan
    const root: CheckpointRoot
    const workload: string
    var chain: seq<Checkpoint>

    constructor (plan: Plan, root: CheckpointRoot, workload: string)
      ensures this.plan == plan && this.root == root && this.workload == workload && chain == []
    {
      this.plan, this.root, this.workload := plan, root, workload;
      chain := [];
    }

    method Accumulate(phase: Phase, window: Option<Window>, failures: Failures) returns (counters: Counters)
      ensures counters == Advanced(CountersBefore(chain), phase, window, failures)
    {
      counters := if chain == [] then NO_COUNTS else Last(chain).counters;
      counters := counters.(
        containment := counters.containment + failures.containment,
        duplicate := counters.duplicate + failures.duplicate,
        integrity := counters.integrity + failures.integrity,
        breaches := counters.breaches + failures.breaches);
      if window.Some? {
        counters := counters.(
          completedWork := counters.completedWork + window.value.completedWork,
          overheadMs := counters.overheadMs + window.value.overheadMs);
        if IsStability(phase) {
          counters := counters.(
            stabilityMs := counters.stabilityMs + window.value.durationMs,
            windows := counters.windows + 1);
          if phase.PostRecovery? {
            counters := counters.(postRecoveryMs := counters.postRecoveryMs + window.value.durationMs);
          }
        }
      }
      if phase.Interruption? {
        counters := counters.(interruptions := counters.interruptions + 1);
      } else if phase.Recovery? {
        counters := counters.(resumes := counters.resumes + 1);
      } else if phase.Complete? {
        counters := counters.(completions := counters.completions + 1);
      }
    }

    /** Compute the record, validate the extended chain, link the file, extend the private chain. */
    method AppendCheckpoint(who: Identity, phase: Phase, window: Option<Window>, failures: Failures, turn: Turn)
      returns (appended: bool)
      modifies this, root
      ensures appended <==>
                Accepted(plan, old(chain), Build(plan, old(chain), who, phase, window, failures, turn), old(root.files))
      ensures chain ==
              if appended then old(chain) + [Build(plan, old(chain), who, phase, window, failures, turn)]
              else old(chain)
      ensures root.files ==
              if appended then old(root.files)[|old(chain)| + 1 :=
                Build(plan, old(chain), who, phase, window, failures, turn)]
              else old(root.files)
    {
      var counters := Accumulate(phase, window, failures);
      var sequence := |chain| + 1;
      var content := Content(
        who.attempt, turn.checkpointId, counters, failures, who.logicalExecution, turn.now, phase,
        plan.digest, if chain == [] then None else Some(chain[|chain| - 1].digest), who.qualification,
        sequence, who.session, window, who.workload);
      var checkpoint := Checkpoint(content, Sha256(content));
      assert checkpoint == Build(plan, chain, who, phase, window, failures, turn);
      var valid := ValidateCheckpointChain(plan, chain + [checkpoint]);
      if !valid { return false; }
      appended := root.WriteNew(sequence, checkpoint);
      if appended {
        chain := chain + [checkpoint];
      }
    }

    ghost function Here(mode: Mode): Progress
      reads this
    {
      Continue(Proc(mode, chain, workload))
    }

    predicate Identifies(who: Identity)
      reads this
    {
      chain != [] && who == Identity(
        Last(chain).qualification, Last(chain).logicalExecution, Last(chain).attempt, Last(chain).session, workload)
    }

    /** First session: measure the idle baseline and publish it. */
    method Begin(slots: seq<Slot>) returns (stopped: Option<Verdict>, who: Identity)
      requires ValidPlan(plan) && chain == []
      modifies this, root
      ensures stopped.Some? ==>
                (stopped.value, root.files) == Session(plan, old(Here(Fresh)), old(root.files), slots)
      ensures stopped.None? ==> slots != [] && Identifies(who)
      ensures stopped.None? ==>
                Session(plan, Here(Working(SteadyLoad)), root.files, slots[1..])
                == Session(plan, old(Here(Fresh)), old(root.files), slots)
    {
      assert DistinctBoundaries(plan.boundaries);
      hide ValidPlan, DistinctBoundaries, ValidChain, Breached, Advanced;
      who := Identity(0, 0, 0, 0, workload);
      if |slots| == 0 { return Some(Killed), who; }
      var turn := slots[0].turn;
      root.Concurrently(slots[0].others);
      who := Identity(turn.qualification, turn.logicalExecution, turn.attempt, 1, workload);
      var window := IdleWindow(turn.work);
      var breach := ResourceBoundaryBreach(plan, window.summaries);
      ghost var c := Build(plan, chain, who, Baseline, Some(window), BaselineFailures(plan, window), turn);
      assert c.content.qualification == who.qualification && c.content.logicalExecution == who.logicalExecution;
      assert c.content.attempt == who.attempt && c.content.session == who.session;
      OneSlot(plan, Proc(Fresh, chain, workload), c, old(root.files), slots);
      hide Build, Accepted;
      var appended := AppendCheckpoint(who, Baseline, Some(window), NO_FAILURES.(breaches := breach), turn);
      if !appended { return Some(Refused), who; }
      if !Clean(Last(chain).counters) { return Some(FailClosed), who; }
      stopped := None;
    }

    method Interrupt(mode: Mode, who: Identity, slots: seq<Slot>) returns (stopped: Option<Verdict>)
      requires mode.Resuming? || mode.Pausing?
      requires Identifies(who)
      modifies this, root
      ensures stopped.Some? ==>
                (stopped.value, root.files) == Session(plan, old(Here(mode)), old(root.files), slots)
      ensures stopped.None? ==> mode.Resuming? && slots != [] && Identifies(who)
      ensures stopped.None? ==>
                Session(plan, Here(Recovering), root.files, slots[1..])
                == Session(plan, old(Here(mode)), old(root.files), slots)
    {
      if |slots| == 0 { return Some(Killed); }
      root.Concurrently(slots[0].others);
      OneSlot(plan, Proc(mode, chain, workload),
              Build(plan, chain, who, Interruption, None, NO_FAILURES, slots[0].turn),
              old(root.files), slots);
      var interrupted := AppendCheckpoint(who, Interruption, None, NO_FAILURES, slots[0].turn);
      if !interrupted { return Some(Refused); }
      return if mode.Pausing? then Some(Paused) else None;
    }

    method Recover(slots: seq<Slot>) returns (stopped: Option<Verdict>, who: Identity)
      requires chain != []
      modifies this, root
      ensures stopped.Some? ==>
                (stopped.value, root.files) == Session(plan, old(Here(Recovering)), old(root.files), slots)
      ensures stopped.None? ==> slots != [] && Identifies(who)
      ensures stopped.None? ==>
                Session(plan, Here(Working(PostRecovery)), root.files, slots[1..])
                == Session(plan, old(Here(Recovering)), old(root.files), slots)
    {
      var final := Last(chain);
      who := Identity(final.qualification, final.logicalExecution, final.attempt, final.session, workload);
      if |slots| == 0 { return Some(Killed), who; }
      who := who.(attempt := slots[0].turn.attempt, session := final.session + 1);
      root.Concurrently(slots[0].others);
      OneSlot(plan, Proc(Recovering, chain, workload),
              Build(plan, chain, who, Recovery, None, NO_FAILURES, slots[0].turn),
              old(root.files), slots);
      var recovered := AppendCheckpoint(who, Recovery, None, NO_FAILURES, slots[0].turn);
      return if recovered then None else Some(Refused), who;
    }

    /** The passes of one load window, up to the first that fails, and the window they make. */
    method MeasureWork(work: Work) returns (window: Window, failures: Failures)
      requires ValidPlan(plan)
      ensures window == WorkloadWindow(plan, work)
      ensures failures == WorkloadFailures(plan, window, EndOf(work.passes))
    {
      failures := NO_FAILURES;
      var completed, ended := 0, Ran;
      while ended.Ran? && completed < |work.passes|
        invariant completed <= |work.passes|
        invariant ended.Ran? ==> PassesDone(work.passes) == completed + PassesDone(work.passes[completed..])
        invariant ended.Ran? ==> EndOf(work.passes) == EndOf(work.passes[completed..])
        invariant ended.Ran? ==> failures == NO_FAILURES
        invariant !ended.Ran? ==> PassesDone(work.passes) == completed && EndOf(work.passes) == ended
        invariant !ended.Ran? ==>
                    failures == if ended.TimedOut? then NO_FAILURES.(containment := 1) else NO_FAILURES.(integrity := 1)
        decreases |work.passes| - completed, if ended.Ran? then 1 else 0
      {
        ended := work.passes[completed];
        if ended.TimedOut? {
          failures := failures.(containment := 1);
        } else if ended.ExitedNonZero? {
          failures := failures.(integrity := 1);
        } else {
          completed := completed + 1;
        }
      }
      var ms := if ended.Ran? then plan.targetMs + work.ms else work.ms;
      var summaries := if work.passes == [] then Unsampled(plan) else work.summaries;
      window := Window(completed, if ms < 1 then 1 else ms, work.overheadMs, summaries);
      var breach := ResourceBoundaryBreach(plan, window.summaries);
      failures := failures.(breaches := breach);
    }

    /** One measured window; stops the session when any failure has ever been counted. */
    method MeasureWindow(phase: Phase, who: Identity, slots: seq<Slot>) returns (stopped: Option<Verdict>, pause: bool)
      requires ValidPlan(plan) && IsStability(phase) && Identifies(who)
      requires Last(chain).counters.windows < plan.minimumWindows
      modifies this, root
      ensures stopped.Some? ==>
                (stopped.value, root.files) == Session(plan, old(Here(Working(phase))), old(root.files), slots)
      ensures stopped.None? ==> slots != [] && Identifies(who)
      ensures stopped.None? ==>
                Session(plan, Here(if pause then Pausing else Working(phase)), root.files, slots[1..])
                == Session(plan, old(Here(Working(phase))), old(root.files), slots)
    {
      pause := false;
      if |slots| == 0 { return Some(Killed), pause; }
      var turn := slots[0].turn;
      root.Concurrently(slots[0].others);
      var window, failures := MeasureWork(turn.work);
      OneSlot(plan, Proc(Working(phase), chain, workload),
              Build(plan, chain, who, phase, Some(window), failures, turn), old(root.files), slots);
      var appended := AppendCheckpoint(who, phase, Some(window), failures, turn);
      if !appended { return Some(Refused), pause; }
      var counters := Last(chain).counters;
      if !Clean(counters) { return Some(FailClosed), pause; }
      pause := counters.interruptions < plan.minimumRecoveries && counters.windows >= InterruptionWindow(plan);
      stopped := None;
    }

    method Finish(phase: Phase, who: Identity, slots: seq<Slot>) returns (verdict: Verdict)
      requires Identifies(who) && Last(chain).counters.windows >= plan.minimumWindows
      modifies this, root
      ensures (verdict, root.files) == Session(plan, old(Here(Working(phase))), old(root.files), slots)
    {
      if |slots| == 0 { return Killed; }
      root.Concurrently(slots[0].others);
      OneSlot(plan, Proc(Working(phase), chain, workload),
              Build(plan, chain, who, Complete, None, NO_FAILURES, slots[0].turn),
              old(root.files), slots);
      var completed := AppendCheckpoint(who, Complete, None, NO_FAILURES, slots[0].turn);
      return if completed then Completed else Refused;
    }

    /** Load, resume or start, run windows, interrupt once when due, complete. Running out of slots is being killed. */
    method RunSession(slots: seq<Slot>) returns (verdict: Verdict)
      requires ValidPlan(plan)
      modifies this, root
      ensures (verdict, root.files) ==
              Session(plan, Load(plan, old(root.files), workload), old(root.files), slots)
    {
      ghost var goal := Session(plan, Load(plan, root.files, workload), root.files, slots);
      var rest := slots;
      chain := [];
      if root.files != map[] {
        var loaded := root.LoadCheckpointChain(plan);
        if loaded.None? { return Refused; }
        chain := loaded.value;
      }
      if chain != [] && Last(chain).workload != workload { return Refused; }
      if chain != [] && Last(chain).phase.Complete? { return AlreadyComplete; }
      var phase, stopped, who := SteadyLoad, None, Identity(0, 0, 0, 0, workload);
      if chain == [] {
        stopped, who := Begin(rest);
        if stopped.Some? { return stopped.value; }
      } else {
        if !Last(chain).phase.Interruption? {
          who := Identity(
            Last(chain).qualification, Last(chain).logicalExecution, Last(chain).attempt,
            Last(chain).session, workload);
          stopped := Interrupt(Resuming, who, rest);
          if stopped.Some? { return stopped.value; }
          rest := rest[1..];
        }
        stopped, who := Recover(rest);
        if stopped.Some? { return stopped.value; }
        phase := PostRecovery;
      }
      rest := rest[1..];
      while Last(chain).counters.windows < plan.minimumWindows
        invariant Identifies(who) && IsStability(phase)
        invariant Session(plan, Here(Working(phase)), root.files, rest) == goal
        decreases |rest|
      {
        var pause;
        stopped, pause := MeasureWindow(phase, who, rest);
        if stopped.Some? { return stopped.value; }
        rest := rest[1..];
        if pause {
          stopped := Interrupt(Pausing, who, rest);
          return stopped.value;
        }
      }
      verdict := Finish(phase, who, rest);
    }
  }
}
