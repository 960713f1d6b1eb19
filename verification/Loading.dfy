/** Sessions must load the chain before its names stop sorting by number: when that is too late for every schedule. */
module Loading {
  import opened Checkpoints
  import opened ChainLaws
  import opened Runner
  import opened Protocol
  import opened Completion
  import opened Schedules

  // ---------------------------------------------------------------------------
  // Every process of a reachable state is consistent with its chain

  ghost predicate Tame(plan: Plan, w: World) {
    forall id :: id in w.procs ==> Consistent(plan, w.procs[id])
  }

  lemma ProposalIs(plan: Plan, p: Proc, turn: Turn)
    requires CanPropose(p)
    ensures Proposal(plan, p, turn).content.phase == NextPhase(plan, p)
    ensures Proposal(plan, p, turn).content.workload == p.workload
  {
  }

  lemma ConsistentAfter(plan: Plan, p: Proc, c: Checkpoint)
    requires ValidPlan(plan) && Consistent(plan, p) && ValidChain(plan, p.chain + [c])
    requires c.content.phase == NextPhase(plan, p) && c.content.workload == p.workload
    ensures After(plan, p, c).Continue? ==> Consistent(plan, After(plan, p, c).proc)
  {
    CountersStep(plan, p.chain, c);
  }

  lemma TamePublish(plan: Plan, w: World, e: Event)
    requires ValidPlan(plan) && Formed(w) && Inv(plan, w) && Tame(plan, w) && Publishes(plan, w, e)
    ensures Tame(plan, Next(plan, w, e))
  {
    var p := w.procs[e.id];
    ProposalIs(plan, p, e.turn);
    ConsistentAfter(plan, p, Proposal(plan, p, e.turn));
    NextPublish(plan, w, e.id, e.turn, Proposal(plan, p, e.turn));
  }

  lemma TameNext(plan: Plan, w: World, e: Event)
    requires ValidPlan(plan) && Formed(w) && Inv(plan, w) && Tame(plan, w)
    ensures Tame(plan, Next(plan, w, e))
  {
    if Publishes(plan, w, e) {
      TamePublish(plan, w, e);
    } else if e.Start? && Load(plan, w.files, e.workload).Continue? {
      LoadOk(plan, w.files, e.workload);
    }
  }

  lemma {:induction false} ReachedTame(plan: Plan, events: seq<Event>)
    requires ValidPlan(plan)
    ensures Tame(plan, Reached(plan, events)) && Inv(plan, Reached(plan, events))
    decreases |events|
  {
    RunKeeps(plan, EMPTY, events);
    if events != [] {
      var before := events[..|events| - 1];
      ReachedTame(plan, before);
      TameNext(plan, Reached(plan, before), events[|events| - 1]);
    }
  }

  // ---------------------------------------------------------------------------
  // The last load of a completing continuation

  ghost predicate Holds(w: World, id: nat)
    requires Contiguous(w.files)
  {
    id in w.procs && w.procs[id].chain == Disk(w)
  }

  ghost predicate Measures(w: World, id: nat)
    requires Contiguous(w.files)
  {
    Holds(w, id) && w.procs[id].mode.Working?
  }

  /** A live session holds the whole chain and is measuring, or about to complete. */
  ghost predicate Measuring(w: World)
    requires Contiguous(w.files)
  {
    exists id :: Measures(w, id)
  }

  ghost predicate Stays(w: World, id: nat)
    requires Contiguous(w.files)
  {
    Holds(w, id) && !w.procs[id].mode.Pausing?
  }

  /** A live session holds the whole chain and does not end with its next record. */
  ghost predicate Held(w: World)
    requires Contiguous(w.files)
  {
    exists id :: Stays(w, id)
  }

  ghost predicate Closes(w: World, id: nat)
    requires Contiguous(w.files)
  {
    Holds(w, id) && w.procs[id].mode.Resuming?
  }

  /** A live session holds the whole chain and is about to close its predecessor and recover. */
  ghost predicate Closing(w: World)
    requires Contiguous(w.files)
  {
    exists id :: Closes(w, id)
  }

  /** Every missing interruption but a live closing one takes a new session, and so does going on when no session is
      live: the last of these sessions can still load the chain. */
  predicate SessionsLoad(plan: Plan, chain: seq<Checkpoint>, held: bool, closing: bool) {
    var missing := plan.minimumRecoveries - CountersBefore(chain).interruptions;
    var closed := if chain != [] && Last(chain).phase.Interruption? then 1 else 0;
    if chain == [] then 2 * missing - 1 <= MAX_LOADABLE
    else if missing >= 2 || (missing == 1 && closed == 1) then |chain| + closed + 2 * (missing - 1) <= MAX_LOADABLE
    else |chain| <= MAX_LOADABLE || (if missing == 1 then closing else held)
  }

  ghost predicate LoadsFit(plan: Plan, w: World)
    requires Contiguous(w.files)
  {
    IsComplete(w) || SessionsLoad(plan, Disk(w), Held(w), Closing(w))
  }

  predicate GoesOn(next: Progress) { next.Continue? && !next.proc.mode.Pausing? }

  predicate GoesOnClosing(next: Progress) { next.Continue? && next.proc.mode.Resuming? }

  /** What one more record does to a chain that can no longer be loaded often enough. */
  lemma TooLateGrows(plan: Plan, p: Proc, c: Checkpoint)
    requires ValidPlan(plan) && DiskOk(plan, p.chain) && ProcOk(plan, p, p.chain) && Consistent(plan, p)
    requires ValidChain(plan, p.chain + [c]) && Fits(plan, p, c.content) && c.content.phase == NextPhase(plan, p)
    requires !SessionsLoad(plan, p.chain, !p.mode.Pausing?, p.mode.Resuming?)
    requires p.chain != [] ==> !Last(p.chain).phase.Complete?
    ensures !c.content.phase.Complete?
    ensures !SessionsLoad(plan, p.chain + [c], GoesOn(After(plan, p, c)), GoesOnClosing(After(plan, p, c)))
  {
    CountersStep(plan, p.chain, c);
    PublishKeepsDisk(plan, p, c);
    var longer := p.chain + [c];
    assert RecordOk(plan, longer[|p.chain|].content);
    assert CountersBefore(longer) == c.content.counters;
  }

  lemma OnlyPublisherHolds(plan: Plan, w: World, e: Event, id: nat)
    requires ValidPlan(plan) && Formed(w) && Inv(plan, w) && Publishes(plan, w, e)
    requires Contiguous(Next(plan, w, e).files) && Holds(Next(plan, w, e), id)
    ensures id == e.id
  {
    NextEffect(plan, w, e);
    NextPublish(plan, w, e.id, e.turn, Proposal(plan, w.procs[e.id], e.turn));
    hide Next, ValidPlan, ValidChain, DiskOk, Contiguous, ChainOf, Accepted;
  }

  /** Only the publisher can still hold the whole chain. */
  lemma HeldAfter(plan: Plan, w: World, e: Event)
    requires ValidPlan(plan) && Formed(w) && Inv(plan, w) && Publishes(plan, w, e) && Contiguous(Next(plan, w, e).files)
    ensures var next := After(plan, w.procs[e.id], Proposal(plan, w.procs[e.id], e.turn));
      && (Held(Next(plan, w, e)) ==> GoesOn(next))
      && (Closing(Next(plan, w, e)) ==> GoesOnClosing(next))
  {
    var w' := Next(plan, w, e);
    NextPublish(plan, w, e.id, e.turn, Proposal(plan, w.procs[e.id], e.turn));
    if Held(w') {
      var id :| Stays(w', id);
      OnlyPublisherHolds(plan, w, e, id);
    }
    if Closing(w') {
      var id :| Closes(w', id);
      OnlyPublisherHolds(plan, w, e, id);
    }
  }

  lemma TooLatePublish(plan: Plan, w: World, e: Event)
    requires ValidPlan(plan) && Formed(w) && Inv(plan, w) && Tame(plan, w) && Publishes(plan, w, e)
    requires !LoadsFit(plan, w)
    ensures Contiguous(Next(plan, w, e).files) && !LoadsFit(plan, Next(plan, w, e))
  {
    NextEffect(plan, w, e);
    var (p, c, w') := (w.procs[e.id], Proposal(plan, w.procs[e.id], e.turn), Next(plan, w, e));
    assert !p.mode.Pausing? ==> Stays(w, e.id);
    assert p.mode.Resuming? ==> Closes(w, e.id);
    ProposalFits(plan, p, e.turn);
    ProposalIs(plan, p, e.turn);
    hide SessionsLoad, DiskOk, ProcOk, Consistent, ValidChain, ValidPlan, Fits, Proposal, NextPhase, After, Next;
    LessHelp(plan, Disk(w), Held(w), Closing(w), !p.mode.Pausing?, p.mode.Resuming?);
    TooLateGrows(plan, p, c);
    HeldAfter(plan, w, e);
    LessHelp(plan, Disk(w'), GoesOn(After(plan, p, c)), GoesOnClosing(After(plan, p, c)), Held(w'), Closing(w'));
  }

  /** Fewer live sessions do not help. */
  lemma LessHelp(plan: Plan, chain: seq<Checkpoint>, held: bool, closing: bool, held': bool, closing': bool)
    requires !SessionsLoad(plan, chain, held, closing) && (held' ==> held) && (closing' ==> closing)
    ensures !SessionsLoad(plan, chain, held', closing')
  {
  }

  /** Neither do more of them, if loading takes part in it. */
  lemma LoadedHelpsNot(plan: Plan, chain: seq<Checkpoint>, held: bool, closing: bool, held': bool, closing': bool)
    requires !SessionsLoad(plan, chain, held, closing) && |chain| <= MAX_LOADABLE
    ensures !SessionsLoad(plan, chain, held', closing')
  {
  }

  lemma TooLateStays(plan: Plan, w: World, e: Event)
    requires ValidPlan(plan) && Formed(w) && Inv(plan, w) && Tame(plan, w) && !LoadsFit(plan, w)
    ensures Contiguous(Next(plan, w, e).files) && !LoadsFit(plan, Next(plan, w, e))
  {
    NextEffect(plan, w, e);
    if Publishes(plan, w, e) {
      TooLatePublish(plan, w, e);
    } else {
      var w' := Next(plan, w, e);
      hide SessionsLoad, DiskOk, ProcOk, ValidChain, ValidPlan, Consistent, Held, Closing, Publishes;
      if |Disk(w)| <= MAX_LOADABLE {
        LoadedHelpsNot(plan, Disk(w), Held(w), Closing(w), Held(w'), Closing(w'));
      } else {
        NothingLoaded(plan, w, e);
        LessHelp(plan, Disk(w), Held(w), Closing(w), Held(w'), Closing(w'));
      }
    }
  }

  lemma NothingLoaded(plan: Plan, w: World, e: Event)
    requires ValidPlan(plan) && Formed(w) && Inv(plan, w) && !Publishes(plan, w, e) && |Disk(w)| > MAX_LOADABLE
    ensures Next(plan, w, e).files == w.files
    ensures Held(Next(plan, w, e)) ==> Held(w)
    ensures Closing(Next(plan, w, e)) ==> Closing(w)
  {
    NextEffect(plan, w, e);
    var w' := Next(plan, w, e);
    FewerProcs(plan, w, e);
    if Held(w') {
      var id :| Stays(w', id);
      assert Stays(w, id);
    }
    if Closing(w') {
      var id :| Closes(w', id);
      assert Closes(w, id);
    }
  }

  lemma FewerProcs(plan: Plan, w: World, e: Event)
    requires Formed(w) && Contiguous(w.files) && !Publishes(plan, w, e) && |Disk(w)| > MAX_LOADABLE
    ensures forall id :: id in Next(plan, w, e).procs ==> id in w.procs && Next(plan, w, e).procs[id] == w.procs[id]
  {
  }

  /** Once it is too late no schedule completes. */
  lemma {:induction false} TooLateForever(plan: Plan, w: World, later: seq<Event>)
    requires ValidPlan(plan) && Formed(w) && Inv(plan, w) && Tame(plan, w) && !LoadsFit(plan, w)
    ensures Contiguous(Run(plan, w, later).files) && !LoadsFit(plan, Run(plan, w, later))
    ensures Inv(plan, Run(plan, w, later)) && Tame(plan, Run(plan, w, later))
    decreases |later|
  {
    hide LoadsFit, Tame;
    if later != [] {
      var (before, e) := (later[..|later| - 1], later[|later| - 1]);
      TooLateForever(plan, w, before);
      RunKeeps(plan, w, before);
      TooLateStays(plan, Run(plan, w, before), e);
      NextKeeps(plan, Run(plan, w, before), e);
      TameNext(plan, Run(plan, w, before), e);
    }
  }

  // ---------------------------------------------------------------------------
  // The records of a completing continuation

  function AtLeast(n: int, bound: int): int { if n < bound then bound else n }

  /** Records that a completing continuation takes: none once complete; the missing windows and the completion for a
      live session that misses no interruption; and otherwise a new session's recovery, the missing windows, two for
      every missing interruption, and the completion. */
  function Need(plan: Plan, chain: seq<Checkpoint>, measuring: bool): int {
    var windows := plan.minimumWindows - CountersBefore(chain).windows + 1;
    var missing := plan.minimumRecoveries - CountersBefore(chain).interruptions;
    if chain == [] then windows + 2 * missing + 1
    else if Last(chain).phase.Complete? then 0
    else if missing <= 0 && measuring then windows
    else if Last(chain).phase.Interruption? then windows + 1 + 2 * AtLeast(missing, 0)
    else windows + 2 * AtLeast(missing, 1)
  }

  /** The sequence numbers, the milliseconds and the work that they take are safe integers. */
  predicate Countable(plan: Plan, chain: seq<Checkpoint>, measuring: bool) {
    Slack(chain, Need(plan, chain, measuring)) && Measurable(plan, chain)
  }

  ghost predicate RecordsFit(plan: Plan, w: World)
    requires Contiguous(w.files)
  {
    IsComplete(w) || Countable(plan, Disk(w), Measuring(w))
  }

  /** A window that is worked adds its target time and a unit of work at least. */
  lemma WorkedCounts(plan: Plan, before: Counters, c: Content)
    requires c.counters == Plus(before, Contribution(c)) && !Lasts(plan, before)
    requires IsStability(c.phase) ==> c.window.Some? && Worked(plan, c.window.value)
    requires c.window.Some? ==> c.window.value.completedWork >= 0
    ensures !Lasts(plan, c.counters)
  {
    var windows := plan.minimumWindows - before.windows;
    OneMoreTarget(windows, plan.targetMs);
    if IsStability(c.phase) {
      assert plan.minimumWindows - c.counters.windows == windows - 1;
    } else {
      assert plan.minimumWindows - c.counters.windows == windows;
    }
  }

  /** All windows measured, and safe counters: nothing is missing. */
  lemma NothingMissing(plan: Plan, n: Counters)
    requires n.windows == plan.minimumWindows && SafeCounters(n)
    ensures Lasts(plan, n)
  {
  }

  lemma CleanRecord(before: Counters, c: Content)
    requires c.counters == Plus(before, Contribution(c)) && SafeFailures(c.failures) && SafeCounters(before)
    requires Clean(c.counters)
    ensures c.failures == NO_FAILURES
  {
  }

  /** A clean record leaves too few milliseconds, or too little work, for the missing windows. */
  lemma LastsNoMore(plan: Plan, p: Proc, c: Checkpoint)
    requires ValidPlan(plan) && DiskOk(plan, p.chain) && ProcOk(plan, p, p.chain) && ValidChain(plan, p.chain + [c])
    requires Fits(plan, p, c.content) && !Measurable(plan, p.chain)
    ensures !c.content.phase.Complete?
    ensures !Measurable(plan, p.chain + [c]) || !Clean(c.content.counters)
  {
    CountersStep(plan, p.chain, c);
    ValidExtend(plan, p.chain, c);
    PublishKeepsDisk(plan, p, c);
    var longer := p.chain + [c];
    assert RecordOk(plan, longer[|p.chain|].content) && WindowOk(plan, c.content);
    hide ValidPlan, DiskOk, ProcOk, ValidChain, Fits, Plus, Contribution, Lasts, OrderOk, IdentityOk, SessionOk;
    assert CountersBefore(longer) == c.content.counters;
    if Clean(c.content.counters) {
      CleanRecord(CountersBefore(p.chain), c.content);
      WorkedCounts(plan, CountersBefore(p.chain), c.content);
      if c.content.phase.Complete? { NothingMissing(plan, c.content.counters); }
    }
  }

  predicate GoesOnMeasuring(next: Progress) { next.Continue? && next.proc.mode.Working? }

  /** No record lowers the number of records at completion. */
  lemma NeedsNoFewer(plan: Plan, p: Proc, c: Checkpoint)
    requires ValidPlan(plan) && DiskOk(plan, p.chain) && ProcOk(plan, p, p.chain) && Consistent(plan, p)
    requires ValidChain(plan, p.chain + [c]) && Fits(plan, p, c.content) && c.content.phase == NextPhase(plan, p)
    requires !Slack(p.chain, Need(plan, p.chain, p.mode.Working?))
    requires p.chain != [] ==> !Last(p.chain).phase.Complete?
    ensures !c.content.phase.Complete?
    ensures var on := GoesOnMeasuring(After(plan, p, c)); !Slack(p.chain + [c], Need(plan, p.chain + [c], on))
  {
    CountersStep(plan, p.chain, c);
    PublishKeepsDisk(plan, p, c);
    var longer := p.chain + [c];
    assert RecordOk(plan, longer[|p.chain|].content);
    assert CountersBefore(longer) == c.content.counters;
    ValidExtend(plan, p.chain, c);
  }

  lemma TooManyGrows(plan: Plan, p: Proc, c: Checkpoint)
    requires ValidPlan(plan) && DiskOk(plan, p.chain) && ProcOk(plan, p, p.chain) && Consistent(plan, p)
    requires ValidChain(plan, p.chain + [c]) && Fits(plan, p, c.content) && c.content.phase == NextPhase(plan, p)
    requires !Countable(plan, p.chain, p.mode.Working?)
    requires p.chain != [] ==> !Last(p.chain).phase.Complete?
    ensures !c.content.phase.Complete?
    ensures !Countable(plan, p.chain + [c], GoesOnMeasuring(After(plan, p, c))) || !Clean(c.content.counters)
  {
    hide Measurable, Slack, Need, After, DiskOk, ProcOk, Consistent, ValidChain, ValidPlan, Fits, NextPhase, Clean;
    if !Measurable(plan, p.chain) { LastsNoMore(plan, p, c); } else { NeedsNoFewer(plan, p, c); }
  }

  lemma NotMeasured(plan: Plan, chain: seq<Checkpoint>, measuring: bool, measuring': bool)
    requires !Countable(plan, chain, measuring) && (measuring' ==> measuring)
    ensures !Countable(plan, chain, measuring')
  {
  }

  /** Only the publisher can still be measuring. */
  lemma MeasuringAfter(plan: Plan, w: World, e: Event)
    requires ValidPlan(plan) && Formed(w) && Inv(plan, w) && Publishes(plan, w, e)
    requires Contiguous(Next(plan, w, e).files) && Measuring(Next(plan, w, e))
    ensures GoesOnMeasuring(After(plan, w.procs[e.id], Proposal(plan, w.procs[e.id], e.turn)))
  {
    var id :| Measures(Next(plan, w, e), id);
    OnlyPublisherHolds(plan, w, e, id);
    NextPublish(plan, w, e.id, e.turn, Proposal(plan, w.procs[e.id], e.turn));
  }

  lemma TooManyPublish(plan: Plan, w: World, e: Event)
    requires ValidPlan(plan) && Formed(w) && Inv(plan, w) && Tame(plan, w) && Publishes(plan, w, e)
    requires !RecordsFit(plan, w)
    ensures Contiguous(Next(plan, w, e).files)
    ensures Hopeless(plan, Next(plan, w, e)) || !RecordsFit(plan, Next(plan, w, e))
  {
    NextEffect(plan, w, e);
    var (p, c, w') := (w.procs[e.id], Proposal(plan, w.procs[e.id], e.turn), Next(plan, w, e));
    assert p.mode.Working? ==> Measures(w, e.id);
    ProposalFits(plan, p, e.turn);
    ProposalIs(plan, p, e.turn);
    assert Disk(w') == Disk(w) + [c] && Last(Disk(w')) == c.content;
    hide Countable, DiskOk, ProcOk, Consistent, ValidChain, ValidPlan, Fits, Proposal, NextPhase, After, Next, Clean;
    NotMeasured(plan, Disk(w), Measuring(w), p.mode.Working?);
    TooManyGrows(plan, p, c);
    if Clean(c.content.counters) {
      if Measuring(w') { MeasuringAfter(plan, w, e); }
      NotMeasured(plan, Disk(w'), GoesOnMeasuring(After(plan, p, c)), Measuring(w'));
    }
  }

  lemma TooManyStays(plan: Plan, w: World, e: Event)
    requires ValidPlan(plan) && Formed(w) && Inv(plan, w) && Tame(plan, w)
    requires (Hopeless(plan, w) || !RecordsFit(plan, w))
    ensures Contiguous(Next(plan, w, e).files)
    ensures Hopeless(plan, Next(plan, w, e)) || !RecordsFit(plan, Next(plan, w, e))
  {
    hide Hopeless, Countable, DiskOk, ProcOk, ValidChain, ValidPlan;
    if Hopeless(plan, w) {
      HopelessStays(plan, w, e);
    } else if Publishes(plan, w, e) {
      TooManyPublish(plan, w, e);
    } else {
      NoneBeginsMeasuring(plan, w, e);
      NotMeasured(plan, Disk(w), Measuring(w), Measuring(Next(plan, w, e)));
    }
  }

  lemma NoneBeginsMeasuring(plan: Plan, w: World, e: Event)
    requires Formed(w) && Inv(plan, w) && !Publishes(plan, w, e)
    ensures Next(plan, w, e).files == w.files && (Measuring(Next(plan, w, e)) ==> Measuring(w))
  {
    NextEffect(plan, w, e);
    if Measuring(Next(plan, w, e)) {
      var id :| Measures(Next(plan, w, e), id);
      assert Measures(w, id);
    }
  }

  /** Once the records cannot be counted no schedule completes. */
  lemma {:induction false} TooManyForever(plan: Plan, w: World, later: seq<Event>)
    requires ValidPlan(plan) && Formed(w) && Inv(plan, w) && Tame(plan, w)
    requires (Hopeless(plan, w) || !RecordsFit(plan, w))
    ensures var w' := Run(plan, w, later);
      && Contiguous(w'.files) && (Hopeless(plan, w') || !RecordsFit(plan, w')) && !IsComplete(w')
      && Inv(plan, w') && Tame(plan, w')
    decreases |later|
  {
    if later == [] {
      NotYet(plan, w);
    } else {
      hide RecordsFit, Tame, Hopeless, IsComplete;
      var (before, e) := (later[..|later| - 1], later[|later| - 1]);
      TooManyForever(plan, w, before);
      RunKeeps(plan, w, before);
      TooManyStays(plan, Run(plan, w, before), e);
      NextKeeps(plan, Run(plan, w, before), e);
      TameNext(plan, Run(plan, w, before), e);
      NotYet(plan, Run(plan, w, later));
    }
  }

  lemma NotYet(plan: Plan, w: World)
    requires Contiguous(w.files) && (Hopeless(plan, w) || !RecordsFit(plan, w))
    ensures !IsComplete(w)
  {
  }

  // ---------------------------------------------------------------------------
  // Undisturbed schedules

  /** Every record is the baseline, a window, an interruption, a recovery or the completion. */
  lemma {:induction false} LengthIs(plan: Plan, chain: seq<Checkpoint>)
    requires chain != [] && DiskOk(plan, chain)
    ensures var n := Last(chain).counters; |chain| == 1 + n.windows + n.interruptions + n.resumes + n.completions
    decreases |chain|
  {
    var (prefix, c) := (chain[..|chain| - 1], chain[|chain| - 1]);
    assert chain == prefix + [c];
    CountersStep(plan, prefix, c);
    if prefix != [] {
      LengthIs(plan, prefix);
      assert chain[|chain| - 1].content.phase != Baseline;
    } else {
      ValidExtend(plan, prefix, c);
    }
  }

  /** The length of the chain when the last of an undisturbed run's sessions loads it. */
  function LastLoad(plan: Plan): int { InterruptionWindow(plan) + 3 * plan.minimumRecoveries - 1 }

  predicate Short(plan: Plan, p: Proc) {
    p.mode.Recovering? && p.chain != [] ==> Last(p.chain).counters.interruptions < plan.minimumRecoveries
  }

  /** Fewer recoveries than planned, and none of the missing ones under way. */
  ghost predicate Overdue(plan: Plan, w: World)
    requires Contiguous(w.files)
  {
    && (Disk(w) != [] ==> Last(Disk(w)).counters.resumes < plan.minimumRecoveries)
    && (forall id :: id in w.procs ==> Short(plan, w.procs[id]))
  }

  lemma OverduePublish(plan: Plan, p: Proc, c: Checkpoint)
    requires ValidPlan(plan) && Consistent(plan, p) && SelfPaced(plan, p) && Short(plan, p) && Fits(plan, p, c.content)
    requires ValidChain(plan, p.chain + [c])
    requires p.chain != [] ==> Last(p.chain).counters.resumes < plan.minimumRecoveries
    ensures c.content.counters.resumes < plan.minimumRecoveries
    ensures After(plan, p, c).Continue? ==> Short(plan, After(plan, p, c).proc)
  {
    CountersStep(plan, p.chain, c);
    if p.chain != [] { ResumesFollowInterruptions(plan, p.chain); }
  }

  /** A chain that an undisturbed run has interrupted often enough is at least that long. */
  lemma LoadsLate(plan: Plan, chain: seq<Checkpoint>)
    requires ValidPlan(plan) && chain != [] && DiskOk(plan, chain) && Last(chain).phase.Interruption?
    requires FewInterruptions(plan, Last(chain)) && Last(chain).counters.interruptions >= plan.minimumRecoveries
    ensures |chain| >= LastLoad(plan)
  {
    LengthIs(plan, chain);
    ResumesFollowInterruptions(plan, chain);
  }

  lemma OverduePublication(plan: Plan, w: World, e: Event)
    requires ValidPlan(plan) && Formed(w) && Inv(plan, w) && Tame(plan, w) && Paced(plan, w) && Overdue(plan, w)
    requires Publishes(plan, w, e)
    ensures Contiguous(Next(plan, w, e).files) && Overdue(plan, Next(plan, w, e))
  {
    NextEffect(plan, w, e);
    var (p, c) := (w.procs[e.id], Proposal(plan, w.procs[e.id], e.turn));
    ProposalFits(plan, p, e.turn);
    hide ValidPlan, DiskOk, ProcOk, Consistent, ValidChain, Fits, Proposal;
    OverduePublish(plan, p, c);
    NextPublish(plan, w, e.id, e.turn, c);
  }

  lemma OverdueStays(plan: Plan, w: World, e: Event)
    requires ValidPlan(plan) && LastLoad(plan) > MAX_LOADABLE
    requires Formed(w) && Inv(plan, w) && Tame(plan, w) && Paced(plan, w) && Overdue(plan, w)
    requires !e.Crash? && (e.Start? ==> Quiet(w))
    ensures Contiguous(Next(plan, w, e).files) && Overdue(plan, Next(plan, w, e))
  {
    if Publishes(plan, w, e) {
      OverduePublication(plan, w, e);
    } else {
      NextEffect(plan, w, e);
      hide LastLoad, ProcOk, Consistent, ValidChain, FewInterruptions;
      if e.Start? && Load(plan, w.files, e.workload).Continue? {
        LoadOk(plan, w.files, e.workload);
        if Disk(w) != [] && Last(Disk(w)).counters.interruptions >= plan.minimumRecoveries { LoadsLate(plan, Disk(w)); }
      }
    }
  }

  lemma {:induction false} UndisturbedOverdue(plan: Plan, events: seq<Event>)
    requires ValidPlan(plan) && LastLoad(plan) > MAX_LOADABLE && Undisturbed(plan, EMPTY, events)
    ensures Contiguous(Reached(plan, events).files) && Overdue(plan, Reached(plan, events))
    decreases |events|
  {
    hide Overdue, Paced, Tame, LastLoad;
    if events != [] {
      var before := events[..|events| - 1];
      UndisturbedOverdue(plan, before);
      UndisturbedPaced(plan, before);
      ReachedTame(plan, before);
      OverdueStays(plan, Reached(plan, before), events[|events| - 1]);
    } else {
      NothingOverdue(plan);
    }
  }

  lemma NothingOverdue(plan: Plan)
    ensures Contiguous(EMPTY.files) && Overdue(plan, EMPTY)
  {
  }

  lemma WorkedAdds(plan: Plan, before: Counters, c: Content)
    requires c.counters == Plus(before, Contribution(c)) && before.windows * plan.targetMs <= before.stabilityMs
    requires before.windows <= before.completedWork && (c.window.Some? ==> c.window.value.completedWork >= 0)
    requires IsStability(c.phase) ==> c.window.Some? && Worked(plan, c.window.value)
    ensures c.counters.windows * plan.targetMs <= c.counters.stabilityMs
    ensures c.counters.windows <= c.counters.completedWork
  {
    OneMoreTarget(before.windows + 1, plan.targetMs);
    if IsStability(c.phase) {
      assert c.counters.windows == before.windows + 1;
    } else {
      assert c.counters.windows == before.windows;
    }
  }

  /** Without a failure every window has lasted its target time and completed a pass. */
  lemma {:induction false} CleanChainWorked(plan: Plan, chain: seq<Checkpoint>)
    requires DiskOk(plan, chain) && (chain != [] ==> Clean(Last(chain).counters))
    ensures var n := CountersBefore(chain); n.windows * plan.targetMs <= n.stabilityMs && n.windows <= n.completedWork
    decreases |chain|
  {
    if chain != [] {
      var (prefix, c) := (chain[..|chain| - 1], chain[|chain| - 1]);
      assert chain == prefix + [c];
      CountersStep(plan, prefix, c);
      ValidExtend(plan, prefix, c);
      assert RecordOk(plan, chain[|chain| - 1].content) && WindowOk(plan, c.content);
      assert DiskOk(plan, prefix);
      hide DiskOk, ValidChain, Plus, Contribution;
      CleanRecord(CountersBefore(prefix), c.content);
      CleanBefore(CountersBefore(prefix), c.content);
      CleanChainWorked(plan, prefix);
      WorkedAdds(plan, CountersBefore(prefix), c.content);
    }
  }

  lemma CleanBefore(before: Counters, c: Content)
    requires c.counters == Plus(before, Contribution(c)) && SafeFailures(c.failures) && SafeCounters(before)
    requires Clean(c.counters)
    ensures Clean(before)
  {
  }

  /** A completion has the baseline, the windows, the planned interruptions and recoveries, and itself below it. */
  lemma CompletedLength(plan: Plan, events: seq<Event>)
    requires ValidPlan(plan) && Contiguous(Reached(plan, events).files) && IsComplete(Reached(plan, events))
    ensures plan.minimumWindows + 2 * plan.minimumRecoveries + 2 <= |Disk(Reached(plan, events))| <= SAFE_INTEGER_MAX
    ensures plan.minimumWindows * plan.targetMs <=
              Last(Disk(Reached(plan, events))).counters.stabilityMs <= SAFE_INTEGER_MAX
  {
    var w := Reached(plan, events);
    RunKeeps(plan, EMPTY, events);
    CompletionMeans(plan, events, |w.files|);
    LengthIs(plan, Disk(w));
    CleanChainWorked(plan, Disk(w));
    ValidPrefix(plan, Disk(w), |w.files| - 1);
  }

  /** A plan whose last session would come too late to load the chain needs a disturbance to complete, and one with too
      many records cannot complete at all. */
  lemma UndisturbedLoads(plan: Plan, events: seq<Event>)
    requires ValidPlan(plan) && Undisturbed(plan, EMPTY, events)
    requires Contiguous(Reached(plan, events).files) && IsComplete(Reached(plan, events))
    ensures LastLoad(plan) <= MAX_LOADABLE && plan.minimumWindows + 2 * plan.minimumRecoveries + 2 <= SAFE_INTEGER_MAX
    ensures plan.minimumWindows * plan.targetMs <= SAFE_INTEGER_MAX
  {
    CompletedLength(plan, events);
    if LastLoad(plan) > MAX_LOADABLE {
      UndisturbedOverdue(plan, events);
      CompletionMeans(plan, events, |Reached(plan, events).files|);
    }
  }
}
