/** What the chain contract alone implies about every accepted chain. */
module ChainLaws {
  import opened Checkpoints

  ghost function Fold(chain: seq<Checkpoint>): Counters
    decreases |chain|
  {
    if chain == [] then NO_COUNTS
    else Plus(Fold(chain[..|chain| - 1]), Contribution(Last(chain)))
  }

  ghost function Count(chain: seq<Checkpoint>, phases: set<Phase>): nat
    decreases |chain|
  {
    if chain == [] then 0
    else Count(chain[..|chain| - 1], phases) + if Last(chain).phase in phases then 1 else 0
  }

  /** Every counter is the fold of the contributions, the event counters count events, and sessions count recoveries. */
  lemma {:induction false} CountersAreFolds(plan: Plan, chain: seq<Checkpoint>)
    requires chain != [] && ValidChain(plan, chain)
    ensures Last(chain).counters == Fold(chain)
    ensures Last(chain).counters.windows == Count(chain, {SteadyLoad, PostRecovery})
    ensures Last(chain).counters.interruptions == Count(chain, {Interruption})
    ensures Last(chain).counters.resumes == Count(chain, {Recovery})
    ensures Last(chain).counters.completions == Count(chain, {Complete})
    ensures Last(chain).session == 1 + Count(chain, {Recovery})
    decreases |chain|
  {
    var prefix := chain[..|chain| - 1];
    if prefix != [] { CountersAreFolds(plan, prefix); }
  }

  /** Resumes lag interruptions by one exactly while the last record is an interruption. */
  lemma {:induction false} ResumesFollowInterruptions(plan: Plan, chain: seq<Checkpoint>)
    requires chain != [] && ValidChain(plan, chain)
    ensures Last(chain).counters.interruptions ==
            Last(chain).counters.resumes + (if Last(chain).phase.Interruption? then 1 else 0)
    ensures Last(chain).counters.completions == if Last(chain).phase.Complete? then 1 else 0
    decreases |chain|
  {
    var prefix := chain[..|chain| - 1];
    if prefix != [] { ResumesFollowInterruptions(plan, prefix); }
  }

  /** The validator's two final guards, resumes within interruptions and one completion, are implied by its other
      checks. */
  lemma GuardsAreRedundant(plan: Plan, prefix: seq<Checkpoint>, c: Checkpoint)
    requires ValidChain(plan, prefix)
    requires c.digest == Sha256(c.content) && OrderOk(prefix, c.content) && IdentityOk(plan, prefix, c.content)
    requires SessionOk(prefix, c.content) && WindowOk(plan, c.content)
    requires SafeCounters(c.content.counters) && SafeFailures(c.content.failures)
    requires c.content.counters == Plus(CountersBefore(prefix), Contribution(c.content))
    ensures MayFollow(plan, prefix, c)
  {
    if prefix != [] { ResumesFollowInterruptions(plan, prefix); }
  }

  // ---------------------------------------------------------------------------
  // The language of phases

  /** Windows of one session, then the end of the chain, a completion after at least one window, or an interruption
      that ends the chain or is followed by a recovery and the windows of the next session. */
  predicate SessionWord(ps: seq<Phase>, window: Phase, measured: bool)
    decreases |ps|
  {
    if ps == [] then true
    else if ps[0] == window then SessionWord(ps[1..], window, true)
    else if ps[0] == Complete then measured && |ps| == 1
    else ps[0] == Interruption && (|ps| == 1 || (ps[1] == Recovery && SessionWord(ps[2..], PostRecovery, false)))
  }

  predicate ChainWord(ps: seq<Phase>) {
    ps == [] || (ps[0] == Baseline && SessionWord(ps[1..], SteadyLoad, false))
  }

  function Phases(chain: seq<Checkpoint>): (ps: seq<Phase>)
    ensures |ps| == |chain| && forall i :: 0 <= i < |ps| ==> ps[i] == chain[i].content.phase
  {
    seq(|chain|, i requires 0 <= i < |chain| => chain[i].content.phase)
  }

  predicate Adjacent(ps: seq<Phase>) {
    forall i :: 0 < i < |ps| ==> ps[i] in AllowedAfter(ps[i - 1]) && ps[i] != Baseline
  }

  lemma OnlyTheLastCompletes(ps: seq<Phase>, k: nat)
    requires k + 1 < |ps| && Adjacent(ps)
    ensures ps[k] != Complete
  {
    var next := k + 1;
    assert ps[next] in AllowedAfter(ps[next - 1]);
  }

  lemma {:induction false} AdjacentSession(ps: seq<Phase>, k: nat, window: Phase, measured: bool)
    requires 0 < k <= |ps| && Adjacent(ps)
    requires match ps[k - 1]
             case Baseline => window == SteadyLoad && !measured
             case Recovery => window == PostRecovery && !measured
             case SteadyLoad => window == SteadyLoad && measured
             case PostRecovery => window == PostRecovery && measured
             case _ => false
    ensures SessionWord(ps[k..], window, measured)
    decreases |ps| - k
  {
    if k < |ps| {
      assert ps[k..][1..] == ps[k + 1..];
      if ps[k] == window {
        AdjacentSession(ps, k + 1, window, true);
      } else if ps[k] == Interruption && k + 1 < |ps| {
        assert ps[k + 1] == ps[k..][1] && ps[k..][2..] == ps[k + 2..];
        AdjacentSession(ps, k + 2, PostRecovery, false);
      } else if k + 1 < |ps| {
        OnlyTheLastCompletes(ps, k);
      }
    }
  }

  lemma AdjacentWord(ps: seq<Phase>)
    requires Adjacent(ps) && (ps != [] ==> ps[0] == Baseline)
    ensures ChainWord(ps)
  {
    if ps != [] { AdjacentSession(ps, 1, SteadyLoad, false); }
  }

  lemma NotYetComplete(plan: Plan, chain: seq<Checkpoint>, k: nat)
    requires ValidChain(plan, chain) && k + 1 < |chain|
    ensures !chain[k].content.phase.Complete?
  {
    PhasesStep(plan, chain, k + 1);
  }

  lemma PhasesStep(plan: Plan, chain: seq<Checkpoint>, i: nat)
    requires ValidChain(plan, chain) && i < |chain|
    ensures i == 0 ==> chain[0].content.phase == Baseline
    ensures i > 0 ==> chain[i].content.phase in AllowedAfter(chain[i - 1].content.phase)
  {
    ValidPrefix(plan, chain, i);
    if i > 0 { assert Last(chain[..i]) == chain[i - 1].content; }
  }
}
