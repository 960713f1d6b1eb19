/** When a qualification can still complete: the states from which no schedule ever does, and undisturbed schedules. */
module Completion {
  import opened Checkpoints
  import opened ChainLaws
  import opened Runner
  import opened Protocol

  ghost function Disk(w: World): seq<Checkpoint>
    requires Contiguous(w.files)
  {
    ChainOf(w.files)
  }

  ghost predicate IsComplete(w: World)
    requires Contiguous(w.files)
  {
    Disk(w) != [] && Last(Disk(w)).phase.Complete?
  }

  // ---------------------------------------------------------------------------
  // States without a future

  /** All windows are measured, but the session that measured the last one has been closed. */
  predicate Spent(plan: Plan, chain: seq<Checkpoint>) {
    chain != [] && Last(chain).counters.windows >= plan.minimumWindows
    && (Last(chain).phase.Interruption? || Last(chain).phase.Recovery?)
  }

  /** All windows are measured, and no live process is about to append the completion. */
  ghost predicate Abandoned(plan: Plan, w: World)
    requires Contiguous(w.files)
  {
    && Disk(w) != []
    && Last(Disk(w)).counters.windows >= plan.minimumWindows
    && IsStability(Last(Disk(w)).phase)
    && (forall id :: id in w.procs && w.procs[id].chain == Disk(w) ==> !w.procs[id].mode.Working?)
  }

  ghost predicate Hopeless(plan: Plan, w: World)
    requires Contiguous(w.files)
  {
    && Disk(w) != []
    && !Last(Disk(w)).phase.Complete?
    && (Spent(plan, Disk(w)) || Abandoned(plan, w) || !Clean(Last(Disk(w)).counters))
  }

  lemma CountersStep(plan: Plan, chain: seq<Checkpoint>, c: Checkpoint)
    requires ValidChain(plan, chain + [c])
    ensures ValidChain(plan, chain)
    ensures c.content.counters == Plus(CountersBefore(chain), Contribution(c.content))
    ensures SafeCounters(c.content.counters) && SafeFailures(c.content.failures)
    ensures chain != [] ==> c.content.phase in AllowedAfter(Last(chain).phase) && SafeCounters(Last(chain).counters)
    ensures Last(chain + [c]) == c.content
  {
    ValidExtend(plan, chain, c);
    if chain != [] {
      ValidPrefix(plan, chain, |chain| - 1);
    }
  }

  /** What one more record does to a hopeless chain. */
  lemma HopelessGrows(plan: Plan, p: Proc, c: Checkpoint)
    requires ValidPlan(plan) && DiskOk(plan, p.chain) && ProcOk(plan, p, p.chain) && Fits(plan, p, c.content)
    requires ValidChain(plan, p.chain + [c])
    requires p.chain != []
    requires
      || Spent(plan, p.chain)
      || !Clean(Last(p.chain).counters)
      || (Last(p.chain).counters.windows >= plan.minimumWindows && IsStability(Last(p.chain).phase) && !p.mode.Working?)
    ensures !c.content.phase.Complete?
    ensures Spent(plan, p.chain + [c]) || !Clean(c.content.counters)
  {
    CountersStep(plan, p.chain, c);
    PublishKeepsDisk(plan, p, c);
    var longer := p.chain + [c];
    assert RecordOk(plan, longer[|p.chain|].content);
  }

  lemma HopelessPublish(plan: Plan, w: World, e: Event)
    requires ValidPlan(plan) && Formed(w) && Inv(plan, w) && Hopeless(plan, w) && Publishes(plan, w, e)
    ensures Contiguous(Next(plan, w, e).files) && Hopeless(plan, Next(plan, w, e))
  {
    NextEffect(plan, w, e);
    var p := w.procs[e.id];
    ProposalFits(plan, p, e.turn);
    HopelessGrows(plan, p, Proposal(plan, p, e.turn));
  }

  lemma HopelessStays(plan: Plan, w: World, e: Event)
    requires ValidPlan(plan) && Formed(w) && Inv(plan, w) && Hopeless(plan, w)
    ensures Contiguous(Next(plan, w, e).files) && Hopeless(plan, Next(plan, w, e))
  {
    NextEffect(plan, w, e);
    if Publishes(plan, w, e) {
      HopelessPublish(plan, w, e);
    } else if e.Start? && e.id !in w.procs {
      if Load(plan, w.files, e.workload).Continue? { LoadOk(plan, w.files, e.workload); }
    }
  }

  /** From a hopeless state no schedule whatever completes the qualification. */
  lemma {:induction false} HopelessForever(plan: Plan, w: World, later: seq<Event>)
    requires ValidPlan(plan) && Formed(w) && Inv(plan, w) && Hopeless(plan, w)
    ensures Contiguous(Run(plan, w, later).files) && Hopeless(plan, Run(plan, w, later))
    ensures !IsComplete(Run(plan, w, later))
    decreases |later|
  {
    if later != [] {
      var before := later[..|later| - 1];
      HopelessForever(plan, w, before);
      RunKeeps(plan, w, before);
      HopelessStays(plan, Run(plan, w, before), later[|later| - 1]);
    }
  }

  /** All windows are published, the completion is not, and no other process than `id` could publish it. */
  ghost predicate AboutToComplete(plan: Plan, w: World, id: nat) {
    && Contiguous(w.files) && Disk(w) != []
    && IsStability(Last(Disk(w)).phase) && Last(Disk(w)).counters.windows == plan.minimumWindows
    && (forall other :: other in w.procs && other != id ==> w.procs[other].chain != Disk(w))
  }

  /** Losing the session between its last window and the completion record loses the qualification. */
  lemma LateCrashIsFatal(plan: Plan, events: seq<Event>, id: nat, later: seq<Event>)
    requires ValidPlan(plan) && AboutToComplete(plan, Reached(plan, events), id)
    ensures Contiguous(Reached(plan, events + [Crash(id)] + later).files)
    ensures !IsComplete(Reached(plan, events + [Crash(id)] + later))
  {
    var w := Reached(plan, events);
    RunKeeps(plan, EMPTY, events);
    ReachedStep(plan, events, Crash(id));
    NextKeeps(plan, w, Crash(id));
    RunAppend(plan, EMPTY, events + [Crash(id)], later);
    HopelessForever(plan, Reached(plan, events + [Crash(id)]), later);
  }

  // ---------------------------------------------------------------------------
  // Undisturbed schedules: sessions end only by their own controlled interruption

  ghost predicate Quiet(w: World) {
    Contiguous(w.files) && (Disk(w) == [] || Last(Disk(w)).phase.Interruption?)
  }

  /** No crash, and a session starts only on an empty root or after a recorded interruption. */
  ghost predicate Undisturbed(plan: Plan, w: World, events: seq<Event>)
    requires Formed(w)
    decreases |events|
  {
    events == [] ||
    var before := events[..|events| - 1];
    var e := events[|events| - 1];
    && Undisturbed(plan, w, before)
    && !e.Crash?
    && (e.Start? ==> Quiet(Run(plan, w, before)))
  }

  /** How many windows up to the n-th may each be followed by a controlled interruption. */
  function Pauses(plan: Plan, n: int): int {
    if n < InterruptionWindow(plan) then 0 else n - InterruptionWindow(plan) + 1
  }

  predicate FewInterruptions(plan: Plan, c: Content) {
    var measured := IsStability(c.phase) || c.phase.Complete?;
    c.counters.interruptions <= Pauses(plan, if measured then c.counters.windows - 1 else c.counters.windows)
  }

  predicate SelfPaced(plan: Plan, p: Proc) {
    && !p.mode.Resuming?
    && (p.mode.Pausing? ==>
          && p.chain != []
          && IsStability(Last(p.chain).phase)
          && Last(p.chain).counters.windows >= InterruptionWindow(plan))
  }

  ghost predicate Paced(plan: Plan, w: World)
    requires Contiguous(w.files)
  {
    && (Disk(w) != [] ==> FewInterruptions(plan, Last(Disk(w))))
    && (forall id :: id in w.procs ==> SelfPaced(plan, w.procs[id]))
  }

  lemma PacedPublish(plan: Plan, p: Proc, c: Checkpoint)
    requires ValidPlan(plan) && CanPropose(p) && SelfPaced(plan, p) && Fits(plan, p, c.content)
    requires ValidChain(plan, p.chain + [c])
    requires p.chain != [] ==> FewInterruptions(plan, Last(p.chain))
    ensures FewInterruptions(plan, c.content)
    ensures After(plan, p, c).Continue? ==> SelfPaced(plan, After(plan, p, c).proc)
  {
    CountersStep(plan, p.chain, c);
  }

  lemma PacedPublication(plan: Plan, w: World, e: Event)
    requires ValidPlan(plan) && Formed(w) && Inv(plan, w) && Paced(plan, w) && Publishes(plan, w, e)
    ensures Contiguous(Next(plan, w, e).files) && Paced(plan, Next(plan, w, e))
  {
    NextEffect(plan, w, e);
    var p := w.procs[e.id];
    ProposalFits(plan, p, e.turn);
    PacedPublish(plan, p, Proposal(plan, p, e.turn));
  }

  lemma PacedStays(plan: Plan, w: World, e: Event)
    requires ValidPlan(plan) && Formed(w) && Inv(plan, w) && Paced(plan, w)
    requires !e.Crash? && (e.Start? ==> Quiet(w))
    ensures Contiguous(Next(plan, w, e).files) && Paced(plan, Next(plan, w, e))
  {
    NextEffect(plan, w, e);
    if Publishes(plan, w, e) {
      PacedPublication(plan, w, e);
    } else if e.Start? && Load(plan, w.files, e.workload).Continue? {
      LoadOk(plan, w.files, e.workload);
    }
  }

  lemma {:induction false} UndisturbedPaced(plan: Plan, events: seq<Event>)
    requires ValidPlan(plan) && Undisturbed(plan, EMPTY, events)
    ensures Contiguous(Reached(plan, events).files) && Paced(plan, Reached(plan, events))
    decreases |events|
  {
    if events != [] {
      var before := events[..|events| - 1];
      UndisturbedPaced(plan, before);
      RunKeeps(plan, EMPTY, before);
      PacedStays(plan, Reached(plan, before), events[|events| - 1]);
    }
  }

  /** A plan whose recoveries do not fit between its interruption window and its last window needs a disturbance to
      complete. */
  lemma UndisturbedNeedsRoom(plan: Plan, events: seq<Event>)
    requires ValidPlan(plan) && Undisturbed(plan, EMPTY, events)
    requires Contiguous(Reached(plan, events).files) && IsComplete(Reached(plan, events))
    ensures plan.minimumRecoveries <= plan.minimumWindows - InterruptionWindow(plan)
  {
    var w := Reached(plan, events);
    RunKeeps(plan, EMPTY, events);
    UndisturbedPaced(plan, events);
    CompletionMeans(plan, events, |w.files|);
  }
}
