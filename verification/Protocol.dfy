/** Any number of runner processes over one checkpoint root, crashing and restarting at will. */
module Protocol {
  import opened Checkpoints
  import opened Options
  import opened ChainLaws
  import opened Runner

  datatype World = World(files: Files, procs: map<nat, Proc>)

  datatype Event =
    | Start(id: nat, workload: string)
    | Publish(id: nat, turn: Turn)
    | Crash(id: nat)

  ghost predicate Formed(w: World) {
    forall id :: id in w.procs ==> CanPropose(w.procs[id])
  }

  const EMPTY := World(map[], map[])

  ghost function Next(plan: Plan, w: World, e: Event): (w': World)
    requires Formed(w)
    ensures Formed(w')
  {
    match e
    case Start(id, workload) =>
      if id in w.procs then w
      else
        (match Load(plan, w.files, workload)
         case Continue(p) => w.(procs := w.procs[id := p])
         case Exit(_) => w)
    case Publish(id, turn) =>
      if id !in w.procs then w
      else
        var (progress, files) := Attempt(plan, w.procs[id], w.files, turn);
        (match progress
         case Continue(p) => World(files, w.procs[id := p])
         case Exit(_) => World(files, w.procs - {id}))
    case Crash(id) => w.(procs := w.procs - {id})
  }

  ghost function Run(plan: Plan, w: World, events: seq<Event>): (w': World)
    requires Formed(w)
    ensures Formed(w')
    decreases |events|
  {
    if events == [] then w
    else Next(plan, Run(plan, w, events[..|events| - 1]), events[|events| - 1])
  }

  ghost function Reached(plan: Plan, events: seq<Event>): World {
    Run(plan, EMPTY, events)
  }

  // ---------------------------------------------------------------------------
  // Invariant

  /** A window of at least the target time in which at least one pass completed. */
  predicate Worked(plan: Plan, w: Window) { w.durationMs >= plan.targetMs && w.completedWork >= 1 }

  /** What the loop of a window without a failed pass leaves. */
  predicate Looped(plan: Plan, w: Window) {
    w.durationMs >= plan.targetMs && (w.completedWork >= 1 || w.summaries == Unsampled(plan))
  }

  /** What holds of every published record. */
  predicate RecordOk(plan: Plan, c: Content) {
    && c.counters.windows <= plan.minimumWindows
    && (IsStability(c.phase) && c.failures == NO_FAILURES ==> c.window.Some? && Worked(plan, c.window.value))
    && (c.phase.Complete? ==>
          && Clean(c.counters)
          && c.counters.windows == plan.minimumWindows
          && c.counters.interruptions >= plan.minimumRecoveries)
  }

  ghost predicate DiskOk(plan: Plan, chain: seq<Checkpoint>) {
    && ValidChain(plan, chain)
    && (forall i :: 0 <= i < |chain| ==> RecordOk(plan, chain[i].content))
    && (forall i :: 0 < i < |chain| ==> chain[i].content.phase != Baseline)
  }

  ghost predicate ProcOk(plan: Plan, p: Proc, chain: seq<Checkpoint>) {
    && CanPropose(p)
    && p.chain <= chain
    && (p.mode.Working? ==>
          && IsStability(p.mode.phase)
          && (IsStability(Last(p.chain).phase) ==>
                && Clean(Last(p.chain).counters)
                && (Last(p.chain).counters.interruptions >= plan.minimumRecoveries
                    || Last(p.chain).counters.windows < InterruptionWindow(plan))))
  }

  ghost predicate Inv(plan: Plan, w: World) {
    && Contiguous(w.files)
    && DiskOk(plan, ChainOf(w.files))
    && (forall id :: id in w.procs ==> ProcOk(plan, w.procs[id], ChainOf(w.files)))
  }

  lemma Appended(files: Files, c: Checkpoint)
    requires Contiguous(files)
    ensures Contiguous(files[|files| + 1 := c])
    ensures ChainOf(files[|files| + 1 := c]) == ChainOf(files) + [c]
  {
    var next := files[|files| + 1 := c];
    assert next.Keys == files.Keys + {|files| + 1};
    assert |next| == |next.Keys|;
  }

  /** A publication that succeeds is made by a process whose private chain is the whole disk. */
  lemma PublisherIsCurrent(files: Files, chain: seq<Checkpoint>)
    requires Contiguous(files) && chain <= ChainOf(files) && |chain| + 1 !in files
    ensures chain == ChainOf(files) && |chain| == |files|
  {
  }

  /** Which proposals a process makes: the baseline only first, windows only while they are short, completion only
      after. */
  predicate Fits(plan: Plan, p: Proc, c: Content)
    requires CanPropose(p)
  {
    && (c.phase.Baseline? <==> p.mode.Fresh?)
    && (IsStability(c.phase) ==> p.mode.Working? && Last(p.chain).counters.windows < plan.minimumWindows)
    && (c.phase.Complete? ==>
          p.mode.Working? && c.failures == NO_FAILURES && Last(p.chain).counters.windows >= plan.minimumWindows)
    && (c.phase.Recovery? <==> p.mode.Recovering?)
    && (c.phase.Interruption? ==> p.mode.Resuming? || p.mode.Pausing?)
    && (IsStability(c.phase) && c.failures == NO_FAILURES ==> c.window.Some? && Looped(plan, c.window.value))
  }

  lemma {:induction false} AllPassesDone(passes: seq<Outcome>)
    requires EndOf(passes).Ran?
    ensures PassesDone(passes) == |passes|
  {
    if passes != [] { AllPassesDone(passes[1..]); }
  }

  /** A load window that counts no failure has run to its target, and completed a pass if it began one. */
  lemma WindowLooped(plan: Plan, work: Work)
    requires WorkloadFailures(plan, WorkloadWindow(plan, work), EndOf(work.passes)) == NO_FAILURES
    ensures Looped(plan, WorkloadWindow(plan, work))
  {
    AllPassesDone(work.passes);
  }

  lemma ProposalFits(plan: Plan, p: Proc, turn: Turn)
    requires CanPropose(p) && (p.mode.Working? ==> IsStability(p.mode.phase))
    ensures Fits(plan, p, Proposal(plan, p, turn).content)
    ensures p.mode.Working? && Last(p.chain).counters.windows < plan.minimumWindows ==>
              Proposal(plan, p, turn).content.phase == p.mode.phase
  {
    var c := Proposal(plan, p, turn).content;
    if IsStability(c.phase) && c.failures == NO_FAILURES { WindowLooped(plan, turn.work); }
  }

  /** The validator refuses a window without samples: some measurement is required. */
  lemma UnsampledRefused(plan: Plan)
    requires ValidPlan(plan)
    ensures !SummariesOk(plan, Unsampled(plan))
  {
    var p :| p in plan.policies && p.required;
    var i :| 0 <= i < |plan.policies| && plan.policies[i] == p;
    var s := Unsampled(plan)[i];
    assert s in Unsampled(plan);
    assert forall q :: q in plan.policies && q.measurement == p.measurement ==> q == p;
    assert !Covered(plan, s);
  }

  lemma RecordFits(plan: Plan, p: Proc, c: Content)
    requires ValidPlan(plan) && ProcOk(plan, p, p.chain) && Fits(plan, p, c) && OrderOk(p.chain, c)
    requires p.chain != [] ==> RecordOk(plan, Last(p.chain))
    requires c.counters == Plus(CountersBefore(p.chain), Contribution(c)) && WindowOk(plan, c)
    ensures RecordOk(plan, c)
  {
    UnsampledRefused(plan);
  }

  lemma PublishKeepsDisk(plan: Plan, p: Proc, c: Checkpoint)
    requires ValidPlan(plan) && DiskOk(plan, p.chain) && ProcOk(plan, p, p.chain)
    requires Fits(plan, p, c.content) && ValidChain(plan, p.chain + [c])
    ensures DiskOk(plan, p.chain + [c])
  {
    ValidExtend(plan, p.chain, c);
    assert OrderOk(p.chain, c.content) && c.content.counters == Plus(CountersBefore(p.chain), Contribution(c.content));
    assert WindowOk(plan, c.content);
    hide RecordOk, ValidChain, MayFollow, ValidPlan, OrderOk, WindowOk, Plus, Contribution;
    RecordFits(plan, p, c.content);
  }

  lemma PublishKeepsProc(plan: Plan, p: Proc, c: Checkpoint)
    requires ValidPlan(plan) && ProcOk(plan, p, p.chain) && Fits(plan, p, c.content)
    ensures After(plan, p, c).Continue? ==> ProcOk(plan, After(plan, p, c).proc, p.chain + [c])
  {
    assert Last(p.chain + [c]) == c.content;
  }

  ghost predicate Publishes(plan: Plan, w: World, e: Event)
    requires Formed(w)
  {
    && e.Publish? && e.id in w.procs
    && Accepted(plan, w.procs[e.id].chain, Proposal(plan, w.procs[e.id], e.turn), w.files)
  }

  lemma ProcOkGrows(plan: Plan, p: Proc, chain: seq<Checkpoint>, c: Checkpoint)
    requires ProcOk(plan, p, chain)
    ensures ProcOk(plan, p, chain + [c])
  {
  }

  /** One event: either the files stay, or a current process extends the chain by its proposal. */
  lemma NextEffect(plan: Plan, w: World, e: Event)
    requires Formed(w) && Contiguous(w.files)
    requires forall id :: id in w.procs ==> w.procs[id].chain <= ChainOf(w.files)
    ensures !Publishes(plan, w, e) ==> Next(plan, w, e).files == w.files
    ensures Publishes(plan, w, e) ==> ValidPlan(plan) && w.procs[e.id].chain == ChainOf(w.files)
    ensures Publishes(plan, w, e) ==> Contiguous(Next(plan, w, e).files)
    ensures Publishes(plan, w, e) ==>
              ChainOf(Next(plan, w, e).files) == ChainOf(w.files) + [Proposal(plan, w.procs[e.id], e.turn)]
  {
    if e.Publish? && e.id in w.procs {
      SettleEffect(plan, w.procs[e.id], Proposal(plan, w.procs[e.id], e.turn), w.files);
    }
  }

  lemma SettleEffect(plan: Plan, p: Proc, c: Checkpoint, files: Files)
    requires Contiguous(files) && p.chain <= ChainOf(files)
    ensures !Accepted(plan, p.chain, c, files) ==> Settle(plan, p, c, files) == (Exit(Refused), files)
    ensures Accepted(plan, p.chain, c, files) ==>
              && ValidPlan(plan) && p.chain == ChainOf(files)
              && Settle(plan, p, c, files).0 == After(plan, p, c)
              && Contiguous(Settle(plan, p, c, files).1)
              && ChainOf(Settle(plan, p, c, files).1) == ChainOf(files) + [c]
  {
    hide ValidPlan, ValidChain, After;
    if Accepted(plan, p.chain, c, files) {
      PublisherIsCurrent(files, p.chain);
      hide Contiguous, ChainOf;
      Appended(files, c);
    }
  }

  lemma NextPublish(plan: Plan, w: World, id: nat, turn: Turn, c: Checkpoint)
    requires Formed(w) && id in w.procs && c == Proposal(plan, w.procs[id], turn)
    requires Accepted(plan, w.procs[id].chain, c, w.files)
    ensures var w' := Next(plan, w, Publish(id, turn));
      && w'.files == w.files[|w.procs[id].chain| + 1 := c]
      && match After(plan, w.procs[id], c)
         case Continue(p) => w'.procs == w.procs[id := p]
         case Exit(_) => w'.procs == w.procs - {id}
  {
  }

  lemma LoadOk(plan: Plan, files: Files, workload: string)
    requires Contiguous(files) && Load(plan, files, workload).Continue?
    ensures ProcOk(plan, Load(plan, files, workload).proc, ChainOf(files))
    ensures Load(plan, files, workload).proc.chain == ChainOf(files)
  {
  }

  lemma ProcsKeep(
    plan: Plan, chain: seq<Checkpoint>, c: Checkpoint, id: nat, progress: Progress,
    before: map<nat, Proc>, after: map<nat, Proc>)
    requires forall i :: i in before ==> ProcOk(plan, before[i], chain)
    requires after == if progress.Continue? then before[id := progress.proc] else before - {id}
    requires progress.Continue? ==> ProcOk(plan, progress.proc, chain + [c])
    ensures forall i :: i in after ==> ProcOk(plan, after[i], chain + [c])
  {
    forall i | i in after ensures ProcOk(plan, after[i], chain + [c]) {
      if i != id { ProcOkGrows(plan, before[i], chain, c); }
    }
  }

  lemma PublishKeeps(plan: Plan, w: World, e: Event)
    requires ValidPlan(plan) && Formed(w) && Inv(plan, w) && Publishes(plan, w, e)
    ensures Inv(plan, Next(plan, w, e))
  {
    NextEffect(plan, w, e);
    var p := w.procs[e.id];
    var c := Proposal(plan, p, e.turn);
    ProposalFits(plan, p, e.turn);
    PublishKeepsDisk(plan, p, c);
    PublishKeepsProc(plan, p, c);
    NextPublish(plan, w, e.id, e.turn, c);
    hide DiskOk, ProcOk, ValidPlan, Proposal, After, Fits, Next;
    ProcsKeep(plan, p.chain, c, e.id, After(plan, p, c), w.procs, Next(plan, w, e).procs);
  }

  lemma NextKeeps(plan: Plan, w: World, e: Event)
    requires ValidPlan(plan) && Formed(w) && Inv(plan, w)
    ensures Inv(plan, Next(plan, w, e))
    ensures ChainOf(w.files) <= ChainOf(Next(plan, w, e).files)
  {
    NextEffect(plan, w, e);
    if Publishes(plan, w, e) {
      PublishKeeps(plan, w, e);
    } else if e.Start? && Load(plan, w.files, e.workload).Continue? {
      LoadOk(plan, w.files, e.workload);
    }
  }

  lemma {:induction false} RunKeeps(plan: Plan, w: World, events: seq<Event>)
    requires ValidPlan(plan) && Formed(w) && Inv(plan, w)
    ensures Inv(plan, Run(plan, w, events))
    ensures ChainOf(w.files) <= ChainOf(Run(plan, w, events).files)
    decreases |events|
  {
    if events != [] {
      var before := events[..|events| - 1];
      RunKeeps(plan, w, before);
      NextKeeps(plan, Run(plan, w, before), events[|events| - 1]);
    }
  }

  lemma {:induction false} RunAppend(plan: Plan, w: World, a: seq<Event>, b: seq<Event>)
    requires Formed(w)
    ensures Run(plan, w, a + b) == Run(plan, Run(plan, w, a), b)
    decreases |b|
  {
    if b == [] {
      assert a + b == a;
    } else {
      RunAppend(plan, w, a, b[..|b| - 1]);
      assert (a + b)[..|a + b| - 1] == a + b[..|b| - 1];
    }
  }

  // ---------------------------------------------------------------------------
  // Main results over every schedule

  ghost predicate Sound(plan: Plan, w: World) {
    && Contiguous(w.files)
    && ValidChain(plan, ChainOf(w.files))
    && (forall id :: id in w.procs ==> w.procs[id].chain <= ChainOf(w.files))
    && (forall k :: 1 < k <= |w.files| ==> w.files[k].content.previous == Some(w.files[k - 1].digest))
    && (forall k :: 1 <= k <= |w.files| ==>
          w.files[k].digest == Sha256(w.files[k].content) && w.files[k].content.sequence == k)
  }

  /** Whatever the processes do and wherever they crash, the files form one valid hash chain and every private chain is
      a prefix of it. */
  lemma OneChain(plan: Plan, events: seq<Event>)
    requires ValidPlan(plan)
    ensures Sound(plan, Reached(plan, events))
  {
    RunKeeps(plan, EMPTY, events);
    var w := Reached(plan, events);
    var chain := ChainOf(w.files);
    forall k | 1 <= k <= |w.files|
      ensures w.files[k].digest == Sha256(w.files[k].content) && w.files[k].content.sequence == k
      ensures 1 < k ==> w.files[k].content.previous == Some(w.files[k - 1].digest)
    {
      ValidPrefix(plan, chain, k - 1);
      assert chain[k - 1] == w.files[k];
      if k > 1 { assert chain[k - 2] == w.files[k - 1]; }
    }
  }

  lemma PrefixFiles(a: Files, b: Files, k: int)
    requires Contiguous(a) && Contiguous(b) && ChainOf(a) <= ChainOf(b) && k in a
    ensures k in b && b[k] == a[k]
  {
    assert ChainOf(a)[k - 1] == ChainOf(b)[k - 1];
  }

  /** Published records are never changed or removed. */
  lemma PublishedStays(plan: Plan, events: seq<Event>, later: seq<Event>, k: int)
    requires ValidPlan(plan) && k in Reached(plan, events).files
    ensures k in Reached(plan, events + later).files
    ensures Reached(plan, events + later).files[k] == Reached(plan, events).files[k]
  {
    RunKeeps(plan, EMPTY, events);
    RunAppend(plan, EMPTY, events, later);
    RunKeeps(plan, Reached(plan, events), later);
    PrefixFiles(Reached(plan, events).files, Reached(plan, events + later).files, k);
  }

  ghost predicate NoStart(events: seq<Event>, id: nat) {
    forall e :: e in events ==> !(e.Start? && e.id == id)
  }

  ghost predicate Stale(w: World, id: nat) {
    id in w.procs ==> |w.procs[id].chain| < |w.files|
  }

  lemma NextStale(plan: Plan, w: World, e: Event, id: nat)
    requires ValidPlan(plan) && Formed(w) && Inv(plan, w) && Stale(w, id) && !(e.Start? && e.id == id)
    ensures Stale(Next(plan, w, e), id)
    ensures e.Publish? && e.id == id ==> Next(plan, w, e).files == w.files
  {
    NextEffect(plan, w, e);
    if Publishes(plan, w, e) {
      assert |Next(plan, w, e).files| == |w.files| + 1;
      assert e.id != id;
    }
  }

  lemma ReachedStep(plan: Plan, events: seq<Event>, e: Event)
    ensures Reached(plan, events + [e]) == Next(plan, Reached(plan, events), e)
  {
    assert (events + [e])[..|events|] == events;
  }

  lemma StaleStep(plan: Plan, events: seq<Event>, e: Event, id: nat)
    requires ValidPlan(plan) && Stale(Reached(plan, events), id) && !(e.Start? && e.id == id)
    ensures Stale(Reached(plan, events + [e]), id)
    ensures e.Publish? && e.id == id ==> Reached(plan, events + [e]).files == Reached(plan, events).files
  {
    ReachedStep(plan, events, e);
    RunKeeps(plan, EMPTY, events);
    hide Next, Stale, Inv, ValidPlan;
    NextStale(plan, Reached(plan, events), e, id);
  }

  /** A process that has been appended past stays behind, and never publishes again in that session. */
  lemma {:induction false} StaleStays(plan: Plan, events: seq<Event>, later: seq<Event>, id: nat)
    requires ValidPlan(plan) && Stale(Reached(plan, events), id) && NoStart(later, id)
    ensures Stale(Reached(plan, events + later), id)
    decreases |later|
  {
    hide Reached, Stale, ValidPlan;
    if later == [] {
      assert events + later == events;
    } else {
      var before := events + later[..|later| - 1];
      StaleStays(plan, events, later[..|later| - 1], id);
      assert before + [later[|later| - 1]] == events + later;
      StaleStep(plan, before, later[|later| - 1], id);
    }
  }

  lemma StaleNeverPublishes(plan: Plan, events: seq<Event>, later: seq<Event>, turn: Turn, id: nat)
    requires ValidPlan(plan) && Stale(Reached(plan, events), id) && NoStart(later, id)
    ensures Reached(plan, events + later + [Publish(id, turn)]).files == Reached(plan, events + later).files
  {
    StaleStays(plan, events, later, id);
    StaleStep(plan, events + later, Publish(id, turn), id);
  }

  /** Phases of every reachable chain, and nothing after a completion. */
  lemma ReachedWord(plan: Plan, events: seq<Event>)
    requires ValidPlan(plan)
    ensures Contiguous(Reached(plan, events).files)
    ensures ChainWord(Phases(ChainOf(Reached(plan, events).files)))
  {
    RunKeeps(plan, EMPTY, events);
    var chain := ChainOf(Reached(plan, events).files);
    if chain != [] { PhasesStep(plan, chain, 0); }
    var ps := Phases(chain);
    forall i | 0 < i < |ps| ensures ps[i] in AllowedAfter(ps[i - 1]) {
      PhasesStep(plan, chain, i);
    }
    AdjacentWord(Phases(chain));
  }

  /** A completed chain has no failure, exactly the planned windows, every interruption resumed, and enough of them. */
  lemma CompletionMeans(plan: Plan, events: seq<Event>, k: int)
    requires ValidPlan(plan) && k in Reached(plan, events).files
    requires Reached(plan, events).files[k].content.phase.Complete?
    ensures var n := Reached(plan, events).files[k].content.counters;
      && Clean(n)
      && n.windows == plan.minimumWindows
      && n.interruptions == n.resumes >= plan.minimumRecoveries
      && n.completions == 1
    ensures k == |Reached(plan, events).files|
  {
    RunKeeps(plan, EMPTY, events);
    var files := Reached(plan, events).files;
    var chain := ChainOf(files);
    assert chain[k - 1] == files[k];
    ValidPrefix(plan, chain, k);
    ResumesFollowInterruptions(plan, chain[..k]);
    if k < |chain| { NotYetComplete(plan, chain, k - 1); }
  }
}
