/** Every state that is not hopeless can complete, and when an undisturbed one can. */
module Liveness {
  import opened Checkpoints
  import opened ChainLaws
  import opened Runner
  import opened Protocol
  import opened Completion
  import opened Schedules
  import opened Loading

  // ---------------------------------------------------------------------------
  // Composing runs

  lemma RunOne(plan: Plan, w: World, e: Event)
    requires Formed(w)
    ensures Run(plan, w, [e]) == Next(plan, w, e)
  {
    assert [e][..0] == [];
    assert Run(plan, w, []) == w;
  }

  lemma {:induction false} UndisturbedAppend(plan: Plan, w: World, a: seq<Event>, b: seq<Event>)
    requires Formed(w) && Undisturbed(plan, w, a) && Undisturbed(plan, Run(plan, w, a), b)
    ensures Undisturbed(plan, w, a + b)
    decreases |b|
  {
    hide Next, Quiet;
    if b == [] {
      assert a + b == a;
    } else {
      var n := |b| - 1;
      var c := a + b;
      assert c[..|c| - 1] == a + b[..n] && c[|c| - 1] == b[n];
      UndisturbedAppend(plan, w, a, b[..n]);
      RunAppend(plan, w, a, b[..n]);
    }
  }

  lemma UndisturbedOne(plan: Plan, w: World, e: Event)
    requires Formed(w) && !e.Crash? && (e.Start? ==> Quiet(w))
    ensures Undisturbed(plan, w, [e])
  {
    assert [e][..0] == [];
    assert Undisturbed(plan, w, []);
    assert Run(plan, w, []) == w;
  }

  lemma Prepend(plan: Plan, w: World, e: Event, rest: seq<Event>)
    requires Formed(w)
    ensures Run(plan, w, [e] + rest) == Run(plan, Next(plan, w, e), rest)
    ensures !e.Crash? && (e.Start? ==> Quiet(w)) && Undisturbed(plan, Next(plan, w, e), rest) ==>
              Undisturbed(plan, w, [e] + rest)
  {
    RunOne(plan, w, e);
    RunAppend(plan, w, [e], rest);
    if !e.Crash? && (e.Start? ==> Quiet(w)) && Undisturbed(plan, Next(plan, w, e), rest) {
      UndisturbedOne(plan, w, e);
      UndisturbedAppend(plan, w, [e], rest);
    }
  }

  // ---------------------------------------------------------------------------
  // Pieces of schedules

  ghost predicate Idle(plan: Plan, w: World, id: nat) {
    && Formed(w) && Inv(plan, w) && id !in w.procs
    && Disk(w) != [] && Clean(Last(Disk(w)).counters) && !Last(Disk(w)).phase.Complete?
    && Measurable(plan, Disk(w))
  }

  lemma StartCalm(plan: Plan, w: World, id: nat) returns (e: Event, w': World)
    requires ValidPlan(plan) && Idle(plan, w, id) && |Disk(w)| <= MAX_LOADABLE
    ensures e == Start(id, Last(Disk(w)).workload) && w' == Next(plan, w, e)
    ensures w'.files == w.files
    ensures At(plan, w', id, if Last(Disk(w)).phase.Interruption? then Recovering else Resuming)
  {
    e := Start(id, Last(Disk(w)).workload);
    w' := Next(plan, w, e);
    NextKeeps(plan, w, e);
  }

  ghost predicate OnlyBy(es: seq<Event>, id: nat) { forall i :: 0 <= i < |es| ==> es[i].id == id }

  lemma OneMoreBy(e: Event, es: seq<Event>, id: nat)
    requires e.id == id && OnlyBy(es, id)
    ensures OnlyBy([e] + es, id)
  {
  }

  lemma OneBy(e: Event, id: nat)
    requires e.id == id
    ensures OnlyBy([e], id)
  {
  }

  /** Events of one process leave no other process behind. */
  lemma {:induction false} OnlyByLeaves(plan: Plan, w: World, es: seq<Event>, id: nat)
    requires Formed(w) && OnlyBy(es, id)
    ensures forall other :: other in Run(plan, w, es).procs && other != id ==> other in w.procs
    decreases |es|
  {
    if es != [] {
      OnlyByLeaves(plan, w, es[..|es| - 1], id);
      NextLeaves(plan, Run(plan, w, es[..|es| - 1]), es[|es| - 1]);
    }
  }

  lemma NextLeaves(plan: Plan, w: World, e: Event)
    requires Formed(w)
    ensures forall other :: other in Next(plan, w, e).procs && other != e.id ==> other in w.procs
  {
  }

  /** Close the open session if there is one and recover into the next. */
  lemma Reenter(plan: Plan, w: World, id: nat) returns (es: seq<Event>, w': World)
    requires ValidPlan(plan) && Idle(plan, w, id) && Slack(Disk(w), 2) && Windows(w) < plan.minimumWindows
    requires |Disk(w)| <= MAX_LOADABLE
    ensures w' == Run(plan, w, es) && Formed(w')
    ensures At(plan, w', id, Working(PostRecovery)) && Disk(w') != []
    ensures |Disk(w')| == |Disk(w)| + (if Last(Disk(w)).phase.Interruption? then 1 else 2)
    ensures Windows(w') == Windows(w)
    ensures Interruptions(w') == Interruptions(w) + (if Last(Disk(w)).phase.Interruption? then 0 else 1)
    ensures Last(Disk(w)).phase.Interruption? ==> Undisturbed(plan, w, es)
    ensures OnlyBy(es, id)
  {
    hide ValidPlan, DiskOk, ProcOk, Coherent, Next, Undisturbed, OnlyBy;
    var e, w1 := StartCalm(plan, w, id);
    var f := Calmly(plan, w1, id);
    if Last(Disk(w)).phase.Interruption? {
      w' := CalmRecovery(plan, w1, id);
      RunOne(plan, w1, f);
      UndisturbedOne(plan, w1, f);
      Prepend(plan, w, e, [f]);
      OneBy(f, id);
      OneMoreBy(e, [f], id);
      es := [e] + [f];
    } else {
      var w2 := CalmInterruption(plan, w1, id, Resuming);
      w' := CalmRecovery(plan, w2, id);
      var g := Calmly(plan, w2, id);
      RunOne(plan, w2, g);
      Prepend(plan, w1, f, [g]);
      Prepend(plan, w, e, [f] + [g]);
      OneBy(g, id);
      OneMoreBy(f, [g], id);
      OneMoreBy(e, [f] + [g], id);
      es := [e] + ([f] + [g]);
    }
  }

  /** With enough interruptions recorded, the windows follow without a pause. */
  lemma {:induction false} MeasureFrom(plan: Plan, w: World, id: nat, phase: Phase) returns (es: seq<Event>, w': World)
    requires ValidPlan(plan) && At(plan, w, id, Working(phase)) && Disk(w) != []
    requires Interruptions(w) >= plan.minimumRecoveries
    requires Windows(w) <= plan.minimumWindows && Slack(Disk(w), plan.minimumWindows - Windows(w) + 1)
    ensures w' == Run(plan, w, es) && At(plan, w', id, Working(phase)) && Disk(w') != []
    ensures Windows(w') == plan.minimumWindows && Slack(Disk(w'), 1)
    ensures Undisturbed(plan, w, es) && OnlyBy(es, id)
    decreases plan.minimumWindows - Windows(w)
  {
    hide ValidPlan, DiskOk, ProcOk, Coherent, Undisturbed, Next;
    if Windows(w) == plan.minimumWindows {
      es, w' := [], w;
      Standing(plan, w);
    } else {
      var e := Calmly(plan, w, id);
      assert Slack(Disk(w), 1);
      var w1 := CalmWindowStep(plan, w, id, phase);
      var rest;
      rest, w' := MeasureFrom(plan, w1, id, phase);
      es := [e] + rest;
      Prepend(plan, w, e, rest);
    }
  }

  lemma Standing(plan: Plan, w: World)
    requires Formed(w)
    ensures Run(plan, w, []) == w && Undisturbed(plan, w, [])
  {
  }

  /** And then the completion. */
  lemma FinishFrom(plan: Plan, w: World, id: nat, phase: Phase) returns (es: seq<Event>)
    requires ValidPlan(plan) && At(plan, w, id, Working(phase)) && Disk(w) != []
    requires Interruptions(w) >= plan.minimumRecoveries
    requires Windows(w) <= plan.minimumWindows && Slack(Disk(w), plan.minimumWindows - Windows(w) + 1)
    ensures Contiguous(Run(plan, w, es).files) && IsComplete(Run(plan, w, es))
    ensures Undisturbed(plan, w, es)
  {
    hide ValidPlan, DiskOk, ProcOk, Coherent, Undisturbed, Next;
    var measured, w1 := MeasureFrom(plan, w, id, phase);
    var w2 := CalmCompletion(plan, w1, id, phase);
    var e := Calmly(plan, w1, id);
    RunOne(plan, w1, e);
    UndisturbedOne(plan, w1, e);
    RunAppend(plan, w, measured, [e]);
    UndisturbedAppend(plan, w, measured, [e]);
    es := measured + [e];
  }

  lemma CrashStep(plan: Plan, w: World, id: nat) returns (w': World)
    requires ValidPlan(plan) && Formed(w) && Inv(plan, w)
    ensures w' == Next(plan, w, Crash(id)) && Formed(w') && Inv(plan, w')
    ensures w'.files == w.files && id !in w'.procs
  {
    w' := Next(plan, w, Crash(id));
    NextKeeps(plan, w, Crash(id));
  }

  /** The last of the sessions that close and recover until there are enough interruptions can still load the chain. */
  ghost predicate LoadsEarly(plan: Plan, w: World)
    requires Contiguous(w.files)
  {
    Interruptions(w) < plan.minimumRecoveries ==>
      |Disk(w)| + 2 * (plan.minimumRecoveries - Interruptions(w) - 1) <= MAX_LOADABLE
  }

  /** Crashing and recovering adds interruptions until there are enough. */
  lemma {:induction false} Raise(plan: Plan, w: World, id: nat, phase: Phase)
    returns (es: seq<Event>, w': World, next: Phase)
    requires ValidPlan(plan) && At(plan, w, id, Working(phase)) && Disk(w) != [] && Windows(w) < plan.minimumWindows
    requires Interruptions(w) >= 0 && LoadsEarly(plan, w)
    requires Slack(Disk(w), 2 * plan.minimumRecoveries - 2 * Interruptions(w) + plan.minimumWindows - Windows(w) + 1)
             || Interruptions(w) >= plan.minimumRecoveries
    requires Slack(Disk(w), plan.minimumWindows - Windows(w) + 1)
    ensures w' == Run(plan, w, es) && At(plan, w', id, Working(next)) && Disk(w') != []
    ensures Interruptions(w') >= plan.minimumRecoveries && Windows(w') == Windows(w)
    ensures Slack(Disk(w'), plan.minimumWindows - Windows(w') + 1)
    ensures next == phase || next == PostRecovery
    ensures OnlyBy(es, id)
    decreases plan.minimumRecoveries - Interruptions(w)
  {
    hide ValidPlan, DiskOk, ProcOk, Coherent, Undisturbed, Next;
    if Interruptions(w) >= plan.minimumRecoveries {
      es, w', next := [], w, phase;
      Standing(plan, w);
    } else {
      var w1 := CrashStep(plan, w, id);
      AtIdle(plan, w, w1, id, phase);
      assert Slack(Disk(w1), 2);
      var mid, w2 := Reenter(plan, w1, id);
      var rest;
      rest, w', next := Raise(plan, w2, id, PostRecovery);
      RunAppend(plan, w1, mid, rest);
      es := [Crash(id)] + (mid + rest);
      Prepend(plan, w, Crash(id), mid + rest);
    }
  }

  lemma AtIdle(plan: Plan, w: World, w1: World, id: nat, phase: Phase)
    requires At(plan, w, id, Working(phase)) && Disk(w) != [] && Windows(w) < plan.minimumWindows
    requires Formed(w1) && Inv(plan, w1) && w1.files == w.files && id !in w1.procs
    ensures Idle(plan, w1, id) && Disk(w1) == Disk(w) && !Last(Disk(w1)).phase.Interruption?
  {
  }

  lemma RaiseAndFinish(plan: Plan, w: World, id: nat, phase: Phase) returns (es: seq<Event>)
    requires ValidPlan(plan) && At(plan, w, id, Working(phase)) && Disk(w) != [] && Windows(w) < plan.minimumWindows
    requires Interruptions(w) >= 0 && LoadsEarly(plan, w)
    requires Slack(Disk(w), 2 * plan.minimumRecoveries - 2 * Interruptions(w) + plan.minimumWindows - Windows(w) + 1)
             || Interruptions(w) >= plan.minimumRecoveries
    requires Slack(Disk(w), plan.minimumWindows - Windows(w) + 1)
    ensures Contiguous(Run(plan, w, es).files) && IsComplete(Run(plan, w, es))
  {
    hide ValidPlan, DiskOk, ProcOk, Coherent, Next;
    var raised, w1, next := Raise(plan, w, id, phase);
    var finished := FinishFrom(plan, w1, id, next);
    RunAppend(plan, w, raised, finished);
    es := raised + finished;
  }

  // ---------------------------------------------------------------------------
  // Completability is exactly not being hopeless

  ghost predicate CompletesAfter(plan: Plan, events: seq<Event>, later: seq<Event>) {
    var w := Reached(plan, events + later);
    Contiguous(w.files) && IsComplete(w)
  }

  lemma FirstSession(plan: Plan, w: World) returns (es: seq<Event>, w': World)
    requires ValidPlan(plan) && Formed(w) && Inv(plan, w) && Disk(w) == [] && 0 !in w.procs && Measurable(plan, Disk(w))
    ensures w' == Run(plan, w, es) && Formed(w') && Undisturbed(plan, w, es) && OnlyBy(es, 0)
    ensures At(plan, w', 0, Working(SteadyLoad)) && Disk(w') != [] && |Disk(w')| == |Disk(w)| + 1
    ensures Windows(w') == Interruptions(w') == 0 && IdleStart(Disk(w'))
  {
    var e := Start(0, "");
    var w1 := StartEmpty(plan, w);
    hide ValidPlan, DiskOk, ProcOk, Coherent, Next, Undisturbed, At, Quiet, OnlyBy;
    w' := CalmBaseline(plan, w1, 0);
    var f := Calmly(plan, w1, 0);
    RunOne(plan, w1, f);
    UndisturbedOne(plan, w1, f);
    Prepend(plan, w, e, [f]);
    OneBy(f, 0);
    OneMoreBy(e, [f], 0);
    es := [e] + [f];
  }

  lemma StartEmpty(plan: Plan, w: World) returns (w1: World)
    requires ValidPlan(plan) && Formed(w) && Inv(plan, w) && Disk(w) == [] && 0 !in w.procs && Measurable(plan, Disk(w))
    ensures w1 == Next(plan, w, Start(0, "")) && w1.files == w.files
    ensures At(plan, w1, 0, Fresh) && Slack(Disk(w1), 1) && Quiet(w)
  {
    assert w.files == map[];
    w1 := Next(plan, w, Start(0, ""));
    NextKeeps(plan, w, Start(0, ""));
  }

  lemma BaselineHasNoWindows(plan: Plan, chain: seq<Checkpoint>)
    requires DiskOk(plan, chain) && chain != [] && Last(chain).phase.Baseline?
    ensures Last(chain).counters.windows == 0
  {
    ValidPrefix(plan, chain, 0);
    assert chain[|chain| - 1].content.phase.Baseline?;
  }

  lemma MeasurerIsAt(plan: Plan, w: World, id: nat)
    requires ValidPlan(plan) && Formed(w) && Inv(plan, w) && Tame(plan, w)
    requires Disk(w) != [] && Clean(Last(Disk(w)).counters) && !Last(Disk(w)).phase.Complete?
    requires Windows(w) >= plan.minimumWindows ==> IsStability(Last(Disk(w)).phase)
    requires Measures(w, id) && Measurable(plan, Disk(w))
    ensures At(plan, w, id, w.procs[id].mode)
  {
  }

  lemma FinisherLives(plan: Plan, w: World)
    requires ValidPlan(plan) && Formed(w) && Inv(plan, w) && !Hopeless(plan, w)
    requires Disk(w) != [] && !Last(Disk(w)).phase.Complete? && Windows(w) >= plan.minimumWindows
    ensures IsStability(Last(Disk(w)).phase) && Measuring(w)
  {
    if Last(Disk(w)).phase.Baseline? { BaselineHasNoWindows(plan, Disk(w)); }
    assert !Abandoned(plan, w);
    var id :| id in w.procs && w.procs[id].chain == Disk(w) && w.procs[id].mode.Working?;
    assert Measures(w, id);
  }

  lemma CompleteNow(plan: Plan, w: World) returns (later: seq<Event>)
    requires ValidPlan(plan) && Formed(w) && Inv(plan, w) && Tame(plan, w) && !Hopeless(plan, w)
    requires Disk(w) != [] && !Last(Disk(w)).phase.Complete? && Windows(w) >= plan.minimumWindows && RecordsFit(plan, w)
    ensures Contiguous(Run(plan, w, later).files) && IsComplete(Run(plan, w, later))
  {
    FinisherLives(plan, w);
    assert Slack(Disk(w), 1) && Measurable(plan, Disk(w));
    hide ValidPlan, DiskOk, ProcOk, Coherent, Next;
    var id :| Measures(w, id);
    MeasurerIsAt(plan, w, id);
    var w' := CalmCompletion(plan, w, id, w.procs[id].mode.phase);
    later := [Calmly(plan, w, id)];
    RunOne(plan, w, later[0]);
  }

  /** A session that has loaded an interruption recovers and goes on. */
  lemma RecoverAndFinish(plan: Plan, w: World, id: nat) returns (later: seq<Event>)
    requires ValidPlan(plan) && At(plan, w, id, Recovering) && Disk(w) != []
    requires Windows(w) < plan.minimumWindows && Interruptions(w) >= plan.minimumRecoveries
    requires Slack(Disk(w), plan.minimumWindows - Windows(w) + 2)
    ensures Contiguous(Run(plan, w, later).files) && IsComplete(Run(plan, w, later))
  {
    assert Slack(Disk(w), 1);
    hide ValidPlan, DiskOk, ProcOk, Coherent, Next;
    var w1 := CalmRecovery(plan, w, id);
    var rest := FinishFrom(plan, w1, id, PostRecovery);
    later := [Calmly(plan, w, id)] + rest;
    Prepend(plan, w, Calmly(plan, w, id), rest);
  }

  /** A session that has loaded anything else closes it first. */
  lemma CloseAndFinish(plan: Plan, w: World, id: nat) returns (later: seq<Event>)
    requires ValidPlan(plan) && At(plan, w, id, Resuming) && Disk(w) != []
    requires Windows(w) < plan.minimumWindows && Interruptions(w) + 1 >= plan.minimumRecoveries
    requires Slack(Disk(w), plan.minimumWindows - Windows(w) + 3)
    ensures Contiguous(Run(plan, w, later).files) && IsComplete(Run(plan, w, later))
  {
    assert Slack(Disk(w), 1);
    hide ValidPlan, DiskOk, ProcOk, Coherent, Next;
    var w1 := CalmInterruption(plan, w, id, Resuming);
    var rest := RecoverAndFinish(plan, w1, id);
    later := [Calmly(plan, w, id)] + rest;
    Prepend(plan, w, Calmly(plan, w, id), rest);
  }

  ghost predicate Open(plan: Plan, w: World) {
    && ValidPlan(plan) && Formed(w) && Inv(plan, w) && Tame(plan, w)
    && Disk(w) != [] && Clean(Last(Disk(w)).counters) && !Last(Disk(w)).phase.Complete?
    && Windows(w) < plan.minimumWindows && Measurable(plan, Disk(w))
  }

  lemma HolderIsAt(plan: Plan, w: World, id: nat)
    requires Open(plan, w) && Holds(w, id)
    ensures At(plan, w, id, w.procs[id].mode) && !w.procs[id].mode.Fresh?
    ensures w.procs[id].mode.Resuming? ==> !Last(Disk(w)).phase.Interruption?
    ensures w.procs[id].mode.Recovering? ==> Last(Disk(w)).phase.Interruption?
  {
  }

  /** Too late for another load, but a live session needs none. */
  lemma GoOn(plan: Plan, w: World) returns (later: seq<Event>)
    requires Open(plan, w) && RecordsFit(plan, w) && LoadsFit(plan, w) && |Disk(w)| > MAX_LOADABLE
    ensures Contiguous(Run(plan, w, later).files) && IsComplete(Run(plan, w, later))
  {
    if Interruptions(w) < plan.minimumRecoveries {
      var id :| Closes(w, id);
      HolderIsAt(plan, w, id);
      later := CloseAndFinish(plan, w, id);
    } else {
      var id :| Stays(w, id);
      HolderIsAt(plan, w, id);
      match w.procs[id].mode
      case Resuming =>
        if Measuring(w) { later := Measure(plan, w); } else { later := CloseAndFinish(plan, w, id); }
      case Recovering =>
        if Measuring(w) { later := Measure(plan, w); } else { later := RecoverAndFinish(plan, w, id); }
      case Working(_) =>
        assert Measures(w, id);
        later := Measure(plan, w);
    }
  }

  lemma Measure(plan: Plan, w: World) returns (later: seq<Event>)
    requires Open(plan, w) && Interruptions(w) >= plan.minimumRecoveries && Measuring(w)
    requires Slack(Disk(w), plan.minimumWindows - Windows(w) + 1)
    ensures Contiguous(Run(plan, w, later).files) && IsComplete(Run(plan, w, later))
  {
    var id :| Measures(w, id);
    HolderIsAt(plan, w, id);
    later := FinishFrom(plan, w, id, w.procs[id].mode.phase);
  }

  lemma CanComplete(plan: Plan, w: World) returns (later: seq<Event>)
    requires ValidPlan(plan) && Formed(w) && Inv(plan, w) && Tame(plan, w)
    requires !Hopeless(plan, w) && LoadsFit(plan, w) && RecordsFit(plan, w)
    ensures Contiguous(Run(plan, w, later).files) && IsComplete(Run(plan, w, later))
  {
    if IsComplete(w) {
      later := [];
    } else if Disk(w) == [] {
      later := StartAndFinish(plan, w);
    } else if Windows(w) >= plan.minimumWindows {
      later := CompleteNow(plan, w);
    } else if Interruptions(w) >= plan.minimumRecoveries && Measuring(w) {
      later := Measure(plan, w);
    } else if |Disk(w)| <= MAX_LOADABLE {
      later := ResumeAndFinish(plan, w);
    } else {
      later := GoOn(plan, w);
    }
  }

  lemma StartAndFinish(plan: Plan, w: World) returns (later: seq<Event>)
    requires ValidPlan(plan) && Formed(w) && Inv(plan, w) && Disk(w) == []
    requires RecordsFit(plan, w) && LoadsFit(plan, w)
    ensures Contiguous(Run(plan, w, later).files) && IsComplete(Run(plan, w, later))
  {
    var w1 := CrashStep(plan, w, 0);
    var first, w2 := FirstSession(plan, w1);
    assert Slack(Disk(w2), 2 * plan.minimumRecoveries + plan.minimumWindows + 1);
    assert LoadsEarly(plan, w2);
    hide Inv, Undisturbed, Run;
    var rest := RaiseAndFinish(plan, w2, 0, SteadyLoad);
    RunAppend(plan, w1, first, rest);
    later := [Crash(0)] + (first + rest);
    Prepend(plan, w, Crash(0), first + rest);
  }

  lemma ResumeAndFinish(plan: Plan, w: World) returns (later: seq<Event>)
    requires Open(plan, w) && RecordsFit(plan, w) && LoadsFit(plan, w) && |Disk(w)| <= MAX_LOADABLE
    requires !(Interruptions(w) >= plan.minimumRecoveries && Measuring(w))
    ensures Contiguous(Run(plan, w, later).files) && IsComplete(Run(plan, w, later))
  {
    NonNegative(plan, Disk(w));
    var w1 := CrashStep(plan, w, 0);
    assert Slack(Disk(w1), 2);
    var mid, w2 := Reenter(plan, w1, 0);
    assert Slack(Disk(w2), plan.minimumWindows - Windows(w2) + 1);
    assert Interruptions(w2) < plan.minimumRecoveries ==>
             Slack(Disk(w2), 2 * plan.minimumRecoveries - 2 * Interruptions(w2)
                      + plan.minimumWindows - Windows(w2) + 1);
    assert LoadsEarly(plan, w2);
    hide Inv, Undisturbed, Run;
    var rest := RaiseAndFinish(plan, w2, 0, PostRecovery);
    RunAppend(plan, w1, mid, rest);
    later := [Crash(0)] + (mid + rest);
    Prepend(plan, w, Crash(0), mid + rest);
  }

  lemma NonNegative(plan: Plan, chain: seq<Checkpoint>)
    requires ValidChain(plan, chain) && chain != []
    ensures SafeCounters(Last(chain).counters)
  {
    ValidPrefix(plan, chain, |chain| - 1);
  }

  /** Some continuation completes the qualification if and only if the state is not hopeless, the sessions it still
      takes can load the chain, and the records it still takes can be counted. */
  lemma CompletableExactly(plan: Plan, events: seq<Event>)
    requires ValidPlan(plan) && Contiguous(Reached(plan, events).files)
    ensures var w := Reached(plan, events);
      (exists later :: CompletesAfter(plan, events, later)) <==>
      !Hopeless(plan, w) && LoadsFit(plan, w) && RecordsFit(plan, w)
  {
    var w := Reached(plan, events);
    ReachedTame(plan, events);
    hide Hopeless, LoadsFit, RecordsFit;
    if !Hopeless(plan, w) && LoadsFit(plan, w) && RecordsFit(plan, w) {
      var later := CanComplete(plan, w);
      RunAppend(plan, EMPTY, events, later);
      assert CompletesAfter(plan, events, later);
    } else {
      forall later ensures !CompletesAfter(plan, events, later) {
        RunAppend(plan, EMPTY, events, later);
        NeverCompletes(plan, w, later);
      }
    }
  }

  lemma NeverCompletes(plan: Plan, w: World, later: seq<Event>)
    requires ValidPlan(plan) && Formed(w) && Inv(plan, w) && Tame(plan, w)
    requires Hopeless(plan, w) || !LoadsFit(plan, w) || !RecordsFit(plan, w)
    ensures Contiguous(Run(plan, w, later).files) && !IsComplete(Run(plan, w, later))
  {
    if Hopeless(plan, w) {
      HopelessForever(plan, w, later);
    } else if !LoadsFit(plan, w) {
      TooLateForever(plan, w, later);
    } else {
      TooManyForever(plan, w, later);
    }
  }

  /** The sessions of a run with as few windows as possible before its last interruption can load the chain, and its
      records can be numbered, and its windows can last. */
  predicate HasRoom(plan: Plan) {
    && 2 * plan.minimumRecoveries - 1 <= MAX_LOADABLE
    && plan.minimumWindows + 2 * plan.minimumRecoveries + 2 <= SAFE_INTEGER_MAX
    && plan.minimumWindows * plan.targetMs <= SAFE_INTEGER_MAX
  }

  /** Some run completes the plan if and only if it has room. */
  lemma PlanCompletable(plan: Plan)
    requires ValidPlan(plan)
    ensures (exists events :: CompletesAfter(plan, [], events)) <==> HasRoom(plan)
  {
    RoomAtFirst(plan);
    CompletableExactly(plan, []);
  }

  lemma RoomAtFirst(plan: Plan)
    requires ValidPlan(plan)
    ensures Reached(plan, []) == EMPTY && Contiguous(EMPTY.files) && !Hopeless(plan, EMPTY)
    ensures LoadsFit(plan, EMPTY) && RecordsFit(plan, EMPTY) <==> HasRoom(plan)
  {
  }

  // ---------------------------------------------------------------------------
  // Undisturbed completion

  function Paused(plan: Plan, n: int): int {
    if Pauses(plan, n) < plan.minimumRecoveries then Pauses(plan, n) else plan.minimumRecoveries
  }

  /** How an undisturbed run stands between two interruptions. */
  ghost predicate OnPace(plan: Plan, w: World)
    requires Contiguous(w.files)
  {
    && plan.minimumRecoveries <= plan.minimumWindows - InterruptionWindow(plan) && LastLoad(plan) <= MAX_LOADABLE
    && Disk(w) != [] && |Disk(w)| == 1 + Windows(w) + 2 * Interruptions(w)
    && Slack(Disk(w), plan.minimumWindows - Windows(w) + 2 * (plan.minimumRecoveries - Interruptions(w)) + 1)
  }

  lemma {:induction false} PaceFrom(plan: Plan, w: World, id: nat, phase: Phase) returns (es: seq<Event>)
    requires ValidPlan(plan) && At(plan, w, id, Working(phase)) && OnPace(plan, w)
    requires Windows(w) <= plan.minimumWindows && Interruptions(w) == Paused(plan, Windows(w))
    ensures Contiguous(Run(plan, w, es).files) && IsComplete(Run(plan, w, es))
    ensures Undisturbed(plan, w, es)
    decreases plan.minimumWindows - Windows(w), 0
  {
    hide ValidPlan, DiskOk, ProcOk, Coherent, Undisturbed, Next;
    var e := Calmly(plan, w, id);
    if Windows(w) == plan.minimumWindows {
      es := FinishFrom(plan, w, id, phase);
    } else {
      var w1 := CalmWindowStep(plan, w, id, phase);
      assert Slack(Disk(w1), plan.minimumWindows - Windows(w1) + 2 * (plan.minimumRecoveries - Interruptions(w1)) + 1);
      var rest;
      if Interruptions(w) < plan.minimumRecoveries && Windows(w1) >= InterruptionWindow(plan) {
        rest := PauseAndGoOn(plan, w1, id);
      } else {
        rest := PaceFrom(plan, w1, id, phase);
      }
      es := [e] + rest;
      Prepend(plan, w, e, rest);
    }
  }

  /** The pause between two windows ends within the loadable lengths, and leaves the run on pace. */
  lemma PauseLoads(plan: Plan, w: World)
    requires ValidPlan(plan) && Contiguous(w.files) && OnPace(plan, w)
    requires Windows(w) == Interruptions(w) + InterruptionWindow(plan) && Interruptions(w) < plan.minimumRecoveries
    requires Windows(w) <= plan.minimumWindows
    ensures |Disk(w)| + 1 <= MAX_LOADABLE && Slack(Disk(w), 3)
  {
  }

  lemma PauseKeepsPace(plan: Plan, w: World, w': World)
    requires Contiguous(w.files) && Contiguous(w'.files) && OnPace(plan, w) && Disk(w') != []
    requires Windows(w) == Interruptions(w) + InterruptionWindow(plan) && 0 <= Interruptions(w) < plan.minimumRecoveries
    requires |Disk(w')| == |Disk(w)| + 2 && Windows(w') == Windows(w) && Interruptions(w') == Interruptions(w) + 1
    ensures OnPace(plan, w') && Interruptions(w') == Paused(plan, Windows(w'))
  {
  }

  lemma {:induction false} PauseAndGoOn(plan: Plan, w: World, id: nat) returns (es: seq<Event>)
    requires ValidPlan(plan) && At(plan, w, id, Pausing) && OnPace(plan, w)
    requires Windows(w) < plan.minimumWindows && Windows(w) == Interruptions(w) + InterruptionWindow(plan)
    requires Interruptions(w) < plan.minimumRecoveries
    ensures Contiguous(Run(plan, w, es).files) && IsComplete(Run(plan, w, es))
    ensures Undisturbed(plan, w, es)
    decreases plan.minimumWindows - Windows(w), 1
  {
    var e := Calmly(plan, w, id);
    PauseLoads(plan, w);
    NonNegative(plan, Disk(w));
    hide ValidPlan, DiskOk, ProcOk, Coherent, Undisturbed, Next, OnPace, Paused, InterruptionWindow;
    var w1 := CalmInterruption(plan, w, id, Pausing);
    var mid, w2 := Reenter(plan, w1, id);
    PauseKeepsPace(plan, w, w2);
    var rest := PaceFrom(plan, w2, id, PostRecovery);
    RunAppend(plan, w1, mid, rest);
    UndisturbedAppend(plan, w1, mid, rest);
    es := [e] + (mid + rest);
    Prepend(plan, w, e, mid + rest);
  }

  ghost predicate CompletesUndisturbed(plan: Plan, events: seq<Event>) {
    && Undisturbed(plan, EMPTY, events)
    && Contiguous(Reached(plan, events).files)
    && IsComplete(Reached(plan, events))
  }

  /** The recoveries fit between half of the windows and the last one, the session after the last of them can still load
      the chain, the records can be numbered, and the windows can last. */
  predicate Paceable(plan: Plan) {
    && plan.minimumRecoveries <= (plan.minimumWindows + 1) / 2
    && plan.minimumWindows / 2 + 3 * plan.minimumRecoveries - 1 <= MAX_LOADABLE
    && plan.minimumWindows + 2 * plan.minimumRecoveries + 2 <= SAFE_INTEGER_MAX
    && plan.minimumWindows * plan.targetMs <= SAFE_INTEGER_MAX
  }

  /** A plan can be completed without any disturbance exactly when it is paceable. */
  lemma UndisturbedExactly(plan: Plan)
    requires ValidPlan(plan)
    ensures (exists events :: CompletesUndisturbed(plan, events)) <==> Paceable(plan)
  {
    if Paceable(plan) {
      var events := PacedRun(plan);
      assert CompletesUndisturbed(plan, events);
    }
    forall events | CompletesUndisturbed(plan, events) ensures Paceable(plan) {
      UndisturbedNeedsRoom(plan, events);
      UndisturbedLoads(plan, events);
    }
  }

  lemma PacedRun(plan: Plan) returns (events: seq<Event>)
    requires ValidPlan(plan) && Paceable(plan)
    ensures CompletesUndisturbed(plan, events)
  {
    EmptyLasts(plan);
    var first, w := FirstSession(plan, EMPTY);
    StartsOnPace(plan, w);
    hide ValidPlan, DiskOk, ProcOk, Coherent, Next, Undisturbed, OnPace, At, Paceable;
    var rest := PaceFrom(plan, w, 0, SteadyLoad);
    RunAppend(plan, EMPTY, first, rest);
    UndisturbedAppend(plan, EMPTY, first, rest);
    events := first + rest;
  }

  lemma EmptyLasts(plan: Plan)
    requires plan.minimumWindows * plan.targetMs <= SAFE_INTEGER_MAX && plan.minimumWindows <= SAFE_INTEGER_MAX
    ensures Contiguous(EMPTY.files) && Disk(EMPTY) == [] && Measurable(plan, Disk(EMPTY))
  {
  }

  lemma StartsOnPace(plan: Plan, w: World)
    requires ValidPlan(plan) && Paceable(plan) && Contiguous(w.files) && Disk(w) != [] && |Disk(w)| == |Disk(EMPTY)| + 1
    requires Windows(w) == Interruptions(w) == 0
    ensures OnPace(plan, w) && Windows(w) <= plan.minimumWindows && Interruptions(w) == Paused(plan, Windows(w))
  {
    var k := plan.minimumWindows + 2 * plan.minimumRecoveries + 2;
    assert Slack(Disk(EMPTY), k);
  }
}
