/** The chain contract said of whole chains: what the validator's one pass over the records comes to. */
module ChainContract {
  import opened Checkpoints
  import opened ChainLaws
  import opened Options
  import opened Runner
  import opened Sorting

  // ---------------------------------------------------------------------------
  // Plans

  /** The largest integer below which all are doubles, and the last millisecond of the year 9999. */
  lemma Constants()
    ensures SAFE_INTEGER_MAX == 0x20_0000_0000_0000 - 1
    ensures LATEST + 1 == (9999 * 365 + 9999 / 4 - 9999 / 100 + 9999 / 400) * 24 * 60 * 60 * 1000
  {
  }

  predicate OutOfRange(v: int, least: int, most: int) { v < least || v > most }

  /** What makes a plan unfit: a measurement or a boundary named twice, a boundary of no measurement, none that is
      required, or a number outside its range. */
  ghost predicate Unfit(plan: Plan) {
    || (exists i, j :: 0 <= i < j < |plan.policies| && plan.policies[i].measurement == plan.policies[j].measurement)
    || (exists i, j ::
          0 <= i < j < |plan.boundaries| && plan.boundaries[i].measurement == plan.boundaries[j].measurement)
    || (exists b :: b in plan.boundaries
          && (b.measurement !in PolicyNames(plan) || OutOfRange(b.value, 0, 9007199254740991)))
    || (forall p :: p in plan.policies ==> !p.required)
    || OutOfRange(plan.minimumWindows, 2, 9007199254740991)
    || OutOfRange(plan.minimumRecoveries, 1, 9007199254740991)
    || OutOfRange(plan.minimumPostRecoveryMs, 1, plan.minimumStabilityMs)
    || OutOfRange(plan.minimumStabilityMs, plan.minimumWindows, 9007199254740991)
    || OutOfRange(plan.maximumOverheadBp, 0, 10_000) || OutOfRange(plan.maximumDegradationBp, 0, 10_000)
    || plan.targetMs < 1
  }

  lemma PlanExactly(plan: Plan)
    ensures ValidPlan(plan) <==> !Unfit(plan)
  {
    forall name ensures Governs(plan, name) <==> name in PolicyNames(plan) {
      if Governs(plan, name) {
        var p :| p in plan.policies && p.measurement == name;
        var i :| 0 <= i < |plan.policies| && plan.policies[i] == p;
        assert PolicyNames(plan)[i] == name;
      }
      if name in PolicyNames(plan) {
        var i :| 0 <= i < |plan.policies| && PolicyNames(plan)[i] == name;
        assert plan.policies[i] in plan.policies;
      }
    }
  }

  // ---------------------------------------------------------------------------
  // Identity and order

  /** Records are numbered from one, hashed, and linked to their predecessors by digest. */
  predicate Linked(chain: seq<Checkpoint>) {
    |chain| <= SAFE_INTEGER_MAX && forall i :: 0 <= i < |chain| ==> LinkedAt(chain, i)
  }

  predicate LinkedAt(chain: seq<Checkpoint>, i: int)
    requires 0 <= i < |chain|
  {
    && chain[i].digest == Sha256(chain[i].content)
    && chain[i].content.sequence == i + 1
    && chain[i].content.previous == if i == 0 then None else Some(chain[i - 1].digest)
  }

  /** All records belong to one plan, one qualification of one logical execution, and one workload. */
  predicate OneQualification(plan: Plan, chain: seq<Checkpoint>) {
    forall i :: 0 <= i < |chain| ==>
      var (c, first) := (chain[i].content, chain[0].content);
      && c.planDigest == plan.digest
      && c.qualification == first.qualification && c.logicalExecution == first.logicalExecution
      && c.workload == first.workload
  }

  /** No checkpoint identifier occurs twice. */
  predicate Unrepeated(chain: seq<Checkpoint>) {
    forall i, j :: 0 <= i < j < |chain| ==> chain[i].content.checkpointId != chain[j].content.checkpointId
  }

  /** Timestamps are dates, and never run backwards. */
  predicate Chronological(chain: seq<Checkpoint>) {
    && (forall i :: 0 <= i < |chain| ==> 0 <= chain[i].content.observedAt <= LATEST)
    && (forall i, j :: 0 <= i < j < |chain| ==> chain[i].content.observedAt <= chain[j].content.observedAt)
  }

  lemma LinkedStep(chain: seq<Checkpoint>, c: Checkpoint)
    ensures Linked(chain + [c]) <==>
            && Linked(chain) && c.digest == Sha256(c.content) && c.content.sequence == |chain| + 1 <= SAFE_INTEGER_MAX
            && c.content.previous == if chain == [] then None else Some(chain[|chain| - 1].digest)
  {
    var longer := chain + [c];
    forall i | 0 <= i < |chain| ensures LinkedAt(longer, i) <==> LinkedAt(chain, i) {
      assert longer[i] == chain[i] && (i > 0 ==> longer[i - 1] == chain[i - 1]);
    }
    assert LinkedAt(longer, |chain|) <==>
      && c.digest == Sha256(c.content) && c.content.sequence == |chain| + 1
      && c.content.previous == if chain == [] then None else Some(chain[|chain| - 1].digest);
    hide LinkedAt;
  }

  lemma OneQualificationStep(plan: Plan, chain: seq<Checkpoint>, c: Checkpoint)
    ensures OneQualification(plan, chain + [c]) <==>
            && OneQualification(plan, chain) && c.content.planDigest == plan.digest
            && (chain != [] ==>
                  && c.content.qualification == chain[0].content.qualification
                  && c.content.logicalExecution == chain[0].content.logicalExecution
                  && c.content.workload == chain[0].content.workload)
  {
    var longer := chain + [c];
    assert longer[|chain|] == c && forall i :: 0 <= i < |chain| ==> longer[i] == chain[i];
  }

  lemma UnrepeatedStep(chain: seq<Checkpoint>, c: Checkpoint)
    ensures Unrepeated(chain + [c]) <==>
            Unrepeated(chain) && forall q :: q in chain ==> q.content.checkpointId != c.content.checkpointId
  {
    var longer := chain + [c];
    assert longer[|chain|] == c && forall i :: 0 <= i < |chain| ==> longer[i] == chain[i];
  }

  lemma ChronologicalStep(chain: seq<Checkpoint>, c: Checkpoint)
    ensures Chronological(chain + [c]) <==>
            && Chronological(chain) && 0 <= c.content.observedAt <= LATEST
            && (chain != [] ==> Last(chain).observedAt <= c.content.observedAt)
  {
    var longer := chain + [c];
    assert longer[|chain|] == c && forall i :: 0 <= i < |chain| ==> longer[i] == chain[i];
  }

  // ---------------------------------------------------------------------------
  // Sessions

  /** Sessions count the recoveries so far, and two records have the same attempt exactly when they have the same
      session. */
  ghost predicate Sessions(chain: seq<Checkpoint>) {
    && (forall i :: 0 <= i < |chain| ==> chain[i].content.session == SessionAt(chain, i) <= SAFE_INTEGER_MAX)
    && (forall i, j :: 0 <= i < |chain| && 0 <= j < |chain| ==>
          (chain[i].content.attempt == chain[j].content.attempt <==>
             chain[i].content.session == chain[j].content.session))
  }

  ghost function SessionAt(chain: seq<Checkpoint>, i: int): int
    requires 0 <= i < |chain|
  {
    1 + Count(chain[..i + 1], {Recovery})
  }

  lemma {:induction false} CountGrows(chain: seq<Checkpoint>, i: nat, j: nat, phases: set<Phase>)
    requires i <= j <= |chain|
    ensures Count(chain[..i], phases) <= Count(chain[..j], phases)
    decreases j
  {
    if i < j {
      CountGrows(chain, i, j - 1, phases);
      assert chain[..j][..j - 1] == chain[..j - 1];
    }
  }

  lemma SessionAtPrefix(chain: seq<Checkpoint>, c: Checkpoint, i: int)
    requires 0 <= i < |chain|
    ensures SessionAt(chain + [c], i) == SessionAt(chain, i)
  {
    assert (chain + [c])[..i + 1] == chain[..i + 1];
  }

  /** The session of one more record: the last one's, or the next. */
  lemma SessionAtEnd(chain: seq<Checkpoint>, c: Checkpoint)
    requires chain == [] ==> c.content.phase == Baseline
    ensures SessionAt(chain + [c], |chain|) ==
            if chain == [] then 1
            else SessionAt(chain, |chain| - 1) + if c.content.phase == Recovery then 1 else 0
  {
    var longer := chain + [c];
    assert longer[..|chain| + 1] == longer && longer[..|chain|] == chain && chain[..|chain|] == chain;
  }

  lemma SessionsStep(chain: seq<Checkpoint>, c: Checkpoint)
    requires chain == [] ==> c.content.phase == Baseline
    ensures Sessions(chain + [c]) <==> Sessions(chain) && SessionOk(chain, c.content)
  {
    hide Count;
    var longer := chain + [c];
    assert longer[|chain|] == c;
    forall i | 0 <= i < |chain| ensures longer[i] == chain[i] && SessionAt(longer, i) == SessionAt(chain, i) {
      SessionAtPrefix(chain, c, i);
    }
    SessionAtEnd(chain, c);
    hide SessionAt;
    if Sessions(longer) {
      SessionsShrink(chain, c);
      LastSessionOk(chain, c);
    }
    if Sessions(chain) && SessionOk(chain, c.content) { SessionsGrow(chain, c); }
  }

  lemma SessionsShrink(chain: seq<Checkpoint>, c: Checkpoint)
    requires Sessions(chain + [c])
    requires forall i :: 0 <= i < |chain| ==> SessionAt(chain + [c], i) == SessionAt(chain, i)
    ensures Sessions(chain)
  {
    hide SessionAt;
    var longer := chain + [c];
    assert forall i :: 0 <= i < |chain| ==> longer[i] == chain[i];
  }

  lemma SessionsRise(chain: seq<Checkpoint>, i: nat)
    requires Sessions(chain) && i < |chain|
    ensures 1 <= chain[i].content.session <= Last(chain).session
  {
    hide Count;
    CountGrows(chain, i + 1, |chain|, {Recovery});
    assert chain[..|chain|] == chain[..|chain| - 1 + 1];
  }

  lemma LastSessionOk(chain: seq<Checkpoint>, c: Checkpoint)
    requires Sessions(chain + [c]) && Sessions(chain) && (chain == [] ==> c.content.phase == Baseline)
    requires SessionAt(chain + [c], |chain|) ==
             if chain == [] then 1
             else SessionAt(chain, |chain| - 1) + if c.content.phase == Recovery then 1 else 0
    ensures SessionOk(chain, c.content)
  {
    hide SessionAt;
    var longer := chain + [c];
    assert longer[|chain|] == c;
    forall i | 0 <= i < |chain|
      ensures 1 <= chain[i].content.session <= Last(chain).session
      ensures chain[i].content.attempt == c.content.attempt <==> chain[i].content.session == c.content.session
    {
      SessionsRise(chain, i);
      assert longer[i] == chain[i];
    }
  }

  lemma SessionsGrow(chain: seq<Checkpoint>, c: Checkpoint)
    requires Sessions(chain) && SessionOk(chain, c.content) && (chain == [] ==> c.content.phase == Baseline)
    requires forall i :: 0 <= i < |chain| ==> SessionAt(chain + [c], i) == SessionAt(chain, i)
    requires SessionAt(chain + [c], |chain|) ==
             if chain == [] then 1
             else SessionAt(chain, |chain| - 1) + if c.content.phase == Recovery then 1 else 0
    ensures Sessions(chain + [c])
  {
    hide SessionAt;
    var longer := chain + [c];
    assert longer[|chain|] == c;
    forall i | 0 <= i < |chain|
      ensures chain[i].content.session <= Last(chain).session
      ensures chain[i].content.attempt == c.content.attempt <==> chain[i].content.session == c.content.session
    {
      SessionsRise(chain, i);
      assert chain[i] in chain;
    }
  }

  // ---------------------------------------------------------------------------
  // Phases

  /** Baselines, then the windows and interruptions that ChainLaws.SessionWord describes. */
  ghost predicate ContractWord(ps: seq<Phase>) {
    exists k :: BaselinesThenSession(ps, k)
  }

  predicate BaselinesThenSession(ps: seq<Phase>, k: int) {
    && 0 < k <= |ps|
    && (forall i :: 0 <= i < k ==> ps[i] == Baseline)
    && SessionWord(ps[k..], SteadyLoad, false)
  }

  predicate Stepwise(ps: seq<Phase>) {
    ps != [] && ps[0] == Baseline && forall i :: 0 < i < |ps| ==> ps[i] in AllowedAfter(ps[i - 1])
  }

  lemma {:induction false} LastBaseline(ps: seq<Phase>, k: nat) returns (n: nat)
    requires Stepwise(ps) && 0 < k <= |ps| && forall i :: 0 <= i < k ==> ps[i] == Baseline
    ensures 0 < n <= |ps| && (forall i :: 0 <= i < n ==> ps[i] == Baseline)
    ensures n < |ps| ==> ps[n] != Baseline
    decreases |ps| - k
  {
    if k < |ps| && ps[k] == Baseline { n := LastBaseline(ps, k + 1); } else { n := k; }
  }

  lemma {:induction false} NoMoreBaselines(ps: seq<Phase>, n: nat, i: nat)
    requires Stepwise(ps) && 0 < n <= i < |ps| && ps[n] != Baseline
    ensures ps[i] != Baseline
  {
    if i > n { NoMoreBaselines(ps, n, i - 1); }
  }

  lemma {:induction false} SessionSteps(ps: seq<Phase>, window: Phase, measured: bool, before: Phase)
    requires SessionWord(ps, window, measured)
    requires match before
             case Baseline => window == SteadyLoad && !measured
             case Recovery => window == PostRecovery && !measured
             case SteadyLoad => window == SteadyLoad && measured
             case PostRecovery => window == PostRecovery && measured
             case _ => false
    ensures forall i :: 0 <= i < |ps| ==> ps[i] in AllowedAfter(Before(ps, i, before))
    decreases |ps|
  {
    if ps != [] {
      assert ps[0] in AllowedAfter(before);
      if ps[0] == window {
        SessionSteps(ps[1..], window, true, window);
        forall i | 0 < i < |ps| ensures ps[i] in AllowedAfter(Before(ps, i, before)) {
          assert ps[i] == ps[1..][i - 1] && Before(ps, i, before) == Before(ps[1..], i - 1, window);
        }
      } else if ps[0] == Interruption && |ps| > 1 {
        SessionSteps(ps[2..], PostRecovery, false, Recovery);
        forall i | 1 < i < |ps| ensures ps[i] in AllowedAfter(Before(ps, i, before)) {
          assert ps[i] == ps[2..][i - 2] && Before(ps, i, before) == Before(ps[2..], i - 2, Recovery);
        }
      }
    }
  }

  function Before(ps: seq<Phase>, i: int, before: Phase): Phase
    requires 0 <= i < |ps|
  {
    if i == 0 then before else ps[i - 1]
  }

  /** The transition table and the grammar describe the same words. */
  lemma WordsExactly(ps: seq<Phase>)
    ensures Stepwise(ps) <==> ContractWord(ps)
  {
    if Stepwise(ps) {
      var k := LastBaseline(ps, 1);
      var tail := ps[k - 1..];
      forall i | 0 < i < |tail| ensures tail[i] in AllowedAfter(tail[i - 1]) && tail[i] != Baseline {
        assert tail[i] == ps[k - 1 + i];
        NoMoreBaselines(ps, k, k - 1 + i);
      }
      AdjacentSession(tail, 1, SteadyLoad, false);
      assert tail[1..] == ps[k..];
      assert BaselinesThenSession(ps, k);
    }
    if ContractWord(ps) {
      var k :| BaselinesThenSession(ps, k);
      SessionSteps(ps[k..], SteadyLoad, false, Baseline);
      forall i | 0 < i < |ps| ensures ps[i] in AllowedAfter(ps[i - 1]) {
        if i >= k { assert ps[i] == ps[k..][i - k] && ps[i - 1] == Before(ps[k..], i - k, Baseline); }
      }
    }
  }

  lemma WordStep(chain: seq<Checkpoint>, c: Checkpoint)
    ensures ContractWord(Phases(chain + [c])) <==>
            if chain == [] then c.content.phase == Baseline
            else ContractWord(Phases(chain)) && c.content.phase in AllowedAfter(Last(chain).phase)
  {
    hide ContractWord;
    var (ps, qs) := (Phases(chain), Phases(chain + [c]));
    WordsExactly(ps);
    WordsExactly(qs);
    assert qs == ps + [c.content.phase];
    StepwiseStep(ps, c.content.phase);
  }

  lemma StepwiseStep(ps: seq<Phase>, p: Phase)
    ensures Stepwise(ps + [p]) <==>
            if ps == [] then p == Baseline else Stepwise(ps) && p in AllowedAfter(ps[|ps| - 1])
  {
    var qs := ps + [p];
    if ps != [] && Stepwise(qs) {
      forall i | 0 < i < |ps| ensures ps[i] in AllowedAfter(ps[i - 1]) {
        assert qs[i] == ps[i] && qs[i - 1] == ps[i - 1];
      }
      assert qs[|ps|] in AllowedAfter(qs[|ps| - 1]);
    }
  }

  // ---------------------------------------------------------------------------
  // Measurements

  /** What a summary may say of a measurement. */
  predicate Reads(p: Policy, s: Summary) {
    && s.unit == p.unit && 0 <= s.samples <= SAFE_INTEGER_MAX
    && (s.reading.Unavailable? <==> s.samples == 0)
    && (p.required ==> s.samples > 0)
    && (s.reading.Unavailable? ==> 1 <= |s.reading.diagnostic| <= 512)
    && (s.reading.Observed? ==>
          0 <= s.reading.minimum <= s.reading.last <= s.reading.maximum <= SAFE_INTEGER_MAX)
  }

  function PolicyNames(plan: Plan): (names: seq<string>)
    ensures |names| == |plan.policies| && forall i :: 0 <= i < |names| ==> names[i] == plan.policies[i].measurement
  {
    seq(|plan.policies|, i requires 0 <= i < |plan.policies| => plan.policies[i].measurement)
  }

  function SummaryNames(ss: seq<Summary>): (names: seq<string>)
    ensures |names| == |ss| && forall i :: 0 <= i < |names| ==> names[i] == ss[i].measurement
  {
    seq(|ss|, i requires 0 <= i < |ss| => ss[i].measurement)
  }

  /** The summaries are those of the plan's measurements, in some order. */
  predicate Summarise(plan: Plan, ss: seq<Summary>) {
    && multiset(SummaryNames(ss)) == multiset(PolicyNames(plan))
    && forall p, s :: p in plan.policies && s in ss && p.measurement == s.measurement ==> Reads(p, s)
  }

  /** No observed extreme is on the wrong side of a boundary. */
  predicate WithinBoundaries(plan: Plan, ss: seq<Summary>) {
    forall b, s :: b in plan.boundaries && s in ss && s.measurement == b.measurement && s.reading.Observed? ==>
      && (b.isMinimum ==> b.value <= s.reading.minimum)
      && (!b.isMinimum ==> s.reading.maximum <= b.value)
  }

  /** Baseline and load windows are measured, other records are not; a breach is reported exactly when there is one. */
  predicate MeasuredWell(plan: Plan, c: Content) {
    && (c.window.Some? <==> c.phase in {Baseline, SteadyLoad, PostRecovery})
    && (c.window.Some? ==>
          var w := c.window.value;
          && 0 <= w.overheadMs <= w.durationMs && 1 <= w.durationMs <= SAFE_INTEGER_MAX
          && 0 <= w.completedWork <= SAFE_INTEGER_MAX
          && Summarise(plan, w.summaries))
    && c.failures.breaches ==
       if c.window.Some? && !WithinBoundaries(plan, c.window.value.summaries) then 1 else 0
  }

  lemma SameNames(a: seq<string>, b: seq<string>)
    requires Distinct(b)
    ensures multiset(a) == multiset(b) <==> Distinct(a) && forall n :: n in a <==> n in b
  {
    if multiset(a) == multiset(b) {
      PermutationDistinct(b, a);
      SameMembers(a, b);
    }
    if Distinct(a) && forall n :: n in a <==> n in b {
      forall n ensures multiset(a)[n] == multiset(b)[n] {
        Once(a, n);
        Once(b, n);
        assert n in a <==> multiset(a)[n] >= 1;
        assert n in b <==> multiset(b)[n] >= 1;
      }
    }
  }

  lemma SummariesExactly(plan: Plan, ss: seq<Summary>)
    requires DistinctPolicies(plan.policies) && plan.policies != []
    ensures SummariesOk(plan, ss) <==> Summarise(plan, ss)
  {
    var (a, b) := (SummaryNames(ss), PolicyNames(plan));
    SameNames(a, b);
    if SummariesOk(plan, ss) { WellSummarised(plan, ss); }
    if Summarise(plan, ss) { Covers(plan, ss); }
  }

  lemma WellSummarised(plan: Plan, ss: seq<Summary>)
    requires DistinctPolicies(plan.policies) && SummariesOk(plan, ss)
    ensures Distinct(SummaryNames(ss)) && forall n :: n in SummaryNames(ss) <==> n in PolicyNames(plan)
    ensures forall p, s :: p in plan.policies && s in ss && p.measurement == s.measurement ==> Reads(p, s)
  {
    var (a, b) := (SummaryNames(ss), PolicyNames(plan));
    forall n | n in a ensures n in b {
      var i :| 0 <= i < |ss| && a[i] == n;
      assert Covered(plan, ss[i]);
      var p :| p in plan.policies && p.measurement == n;
      var j :| 0 <= j < |b| && plan.policies[j] == p;
      assert b[j] == n;
    }
    forall n | n in b ensures n in a {
      var j :| 0 <= j < |b| && b[j] == n;
      assert plan.policies[j] in plan.policies && Accounted(ss, n);
      var s :| s in ss && s.measurement == n;
      var i :| 0 <= i < |ss| && ss[i] == s;
      assert a[i] == n;
    }
    forall p, s | p in plan.policies && s in ss && p.measurement == s.measurement ensures Reads(p, s) {
      assert Covered(plan, s);
    }
  }

  lemma Covers(plan: Plan, ss: seq<Summary>)
    requires plan.policies != [] && Summarise(plan, ss) && Distinct(SummaryNames(ss))
    requires forall n :: n in SummaryNames(ss) <==> n in PolicyNames(plan)
    ensures SummariesOk(plan, ss)
  {
    var (a, b) := (SummaryNames(ss), PolicyNames(plan));
    assert b[0] in a;
    forall s | s in ss ensures Covered(plan, s) {
      var i :| 0 <= i < |ss| && ss[i] == s;
      assert a[i] in b;
      var j :| 0 <= j < |b| && b[j] == s.measurement;
      assert plan.policies[j] in plan.policies && ReadingOk(plan.policies[j], s);
    }
    forall p | p in plan.policies ensures Accounted(ss, p.measurement) {
      var j :| 0 <= j < |b| && plan.policies[j] == p;
      assert b[j] in a;
      var i :| 0 <= i < |ss| && a[i] == p.measurement;
      assert ss[i] in ss;
    }
    assert forall i, j :: 0 <= i < j < |ss| ==> a[i] != a[j];
  }

  lemma MeasuredExactly(plan: Plan, c: Content)
    requires ValidPlan(plan)
    ensures WindowOk(plan, c) <==> MeasuredWell(plan, c)
  {
    hide SummariesOk, Summarise;
    if c.window.Some? {
      var ss := c.window.value.summaries;
      SummariesExactly(plan, ss);
      assert Breached(plan, ss) <==> !WithinBoundaries(plan, ss);
    }
  }

  // ---------------------------------------------------------------------------
  // Counters

  /** A sum over the records. */
  ghost function Sum(chain: seq<Checkpoint>, f: Content -> int): int
    decreases |chain|
  {
    if chain == [] then 0 else Sum(chain[..|chain| - 1], f) + f(Last(chain))
  }

  const DURATION: Window -> int := (w: Window) => w.durationMs
  const OVERHEAD: Window -> int := (w: Window) => w.overheadMs
  const WORK: Window -> int := (w: Window) => w.completedWork

  /** A figure of the windows of some phases. */
  function Of(phases: set<Phase>, f: Window -> int): Content -> int {
    (c: Content) => if c.phase in phases && c.window.Some? then f(c.window.value) else 0
  }

  const CONTAINMENT: Content -> int := (c: Content) => c.failures.containment
  const DUPLICATE: Content -> int := (c: Content) => c.failures.duplicate
  const INTEGRITY: Content -> int := (c: Content) => c.failures.integrity
  const BREACHES: Content -> int := (c: Content) => c.failures.breaches

  const MEASURED: set<Phase> := {Baseline, SteadyLoad, PostRecovery}
  const LOADED: set<Phase> := {SteadyLoad, PostRecovery}

  /** The counters after a chain: sums over its windows and failures, and the numbers of its events. */
  ghost predicate Tallied(n: Counters, chain: seq<Checkpoint>) {
    && n.completedWork == Sum(chain, Of(MEASURED, WORK)) && n.overheadMs == Sum(chain, Of(MEASURED, OVERHEAD))
    && n.stabilityMs == Sum(chain, Of(LOADED, DURATION)) && n.postRecoveryMs == Sum(chain, Of({PostRecovery}, DURATION))
    && n.containment == Sum(chain, CONTAINMENT) && n.duplicate == Sum(chain, DUPLICATE)
    && n.integrity == Sum(chain, INTEGRITY) && n.breaches == Sum(chain, BREACHES)
    && n.windows == Count(chain, LOADED) && n.interruptions == Count(chain, {Interruption})
    && n.resumes == Count(chain, {Recovery}) && n.completions == Count(chain, {Complete})
  }

  lemma SumStep(chain: seq<Checkpoint>, c: Checkpoint, f: Content -> int)
    ensures Sum(chain + [c], f) == Sum(chain, f) + f(c.content)
  {
    assert (chain + [c])[..|chain|] == chain;
  }

  lemma CountStep(chain: seq<Checkpoint>, c: Checkpoint, phases: set<Phase>)
    ensures Count(chain + [c], phases) == Count(chain, phases) + if c.content.phase in phases then 1 else 0
  {
    assert (chain + [c])[..|chain|] == chain;
  }

  lemma TalliedStep(before: Counters, chain: seq<Checkpoint>, c: Checkpoint)
    requires Tallied(before, chain) && (c.content.window.Some? <==> c.content.phase in MEASURED)
    ensures Tallied(c.content.counters, chain + [c]) <==> c.content.counters == Plus(before, Contribution(c.content))
  {
    SumStep(chain, c, Of(MEASURED, WORK));
    SumStep(chain, c, Of(MEASURED, OVERHEAD));
    SumStep(chain, c, Of(LOADED, DURATION));
    SumStep(chain, c, Of({PostRecovery}, DURATION));
    SumStep(chain, c, CONTAINMENT);
    SumStep(chain, c, DUPLICATE);
    SumStep(chain, c, INTEGRITY);
    SumStep(chain, c, BREACHES);
    CountStep(chain, c, LOADED);
    CountStep(chain, c, {Interruption});
    CountStep(chain, c, {Recovery});
    CountStep(chain, c, {Complete});
    hide Sum, Count;
    WindowFigures(c.content);
  }

  lemma WindowFigures(c: Content)
    requires c.window.Some? <==> c.phase in MEASURED
    ensures var n := Contribution(c);
      && n.completedWork == Of(MEASURED, WORK)(c) && n.overheadMs == Of(MEASURED, OVERHEAD)(c)
      && n.stabilityMs == Of(LOADED, DURATION)(c) && n.postRecoveryMs == Of({PostRecovery}, DURATION)(c)
      && n.containment == CONTAINMENT(c) && n.duplicate == DUPLICATE(c)
      && n.integrity == INTEGRITY(c) && n.breaches == BREACHES(c)
      && n.windows == (if c.phase in LOADED then 1 else 0)
  {
  }

  // ---------------------------------------------------------------------------
  // The contract

  predicate AllMeasured(plan: Plan, chain: seq<Checkpoint>) {
    forall i :: 0 <= i < |chain| ==> MeasuredWell(plan, chain[i].content)
  }

  /** All the numbers of a record's counters and failures. */
  function Figures(n: Counters, f: Failures): set<int> {
    {n.completedWork, n.containment, n.duplicate, n.integrity, n.interruptions, n.completions, n.postRecoveryMs,
     n.breaches, n.overheadMs, n.stabilityMs, n.windows, n.resumes,
     f.containment, f.duplicate, f.integrity, f.breaches}
  }

  predicate Countable(figures: set<int>) { forall v :: v in figures ==> 0 <= v <= 9007199254740991 }

  lemma CountableExactly(n: Counters, f: Failures)
    ensures Countable(Figures(n, f)) <==> SafeCounters(n) && SafeFailures(f)
  {
  }

  ghost predicate AllTallied(chain: seq<Checkpoint>) {
    forall i :: 0 <= i < |chain| ==>
      && Tallied(chain[i].content.counters, chain[..i + 1])
      && Countable(Figures(chain[i].content.counters, chain[i].content.failures))
  }

  ghost predicate InOrder(plan: Plan, chain: seq<Checkpoint>) {
    && Linked(chain) && OneQualification(plan, chain) && Unrepeated(chain) && Chronological(chain)
    && (chain != [] ==> ContractWord(Phases(chain)))
  }

  ghost predicate Lawful(plan: Plan, chain: seq<Checkpoint>) {
    InOrder(plan, chain) && Sessions(chain) && AllMeasured(plan, chain) && AllTallied(chain)
  }

  lemma InOrderStep(plan: Plan, chain: seq<Checkpoint>, c: Checkpoint)
    ensures InOrder(plan, chain + [c]) <==>
            && InOrder(plan, chain) && c.digest == Sha256(c.content)
            && OrderOk(chain, c.content) && IdentityOk(plan, chain, c.content)
  {
    hide Linked, OneQualification, Unrepeated, Chronological, ContractWord;
    LinkedStep(chain, c);
    OneQualificationStep(plan, chain, c);
    UnrepeatedStep(chain, c);
    ChronologicalStep(chain, c);
    WordStep(chain, c);
  }

  lemma AllMeasuredStep(plan: Plan, chain: seq<Checkpoint>, c: Checkpoint)
    ensures AllMeasured(plan, chain + [c]) <==> AllMeasured(plan, chain) && MeasuredWell(plan, c.content)
  {
    hide MeasuredWell;
    var longer := chain + [c];
    assert longer[|chain|] == c && forall i :: 0 <= i < |chain| ==> longer[i] == chain[i];
  }

  lemma AllTalliedStep(chain: seq<Checkpoint>, c: Checkpoint)
    ensures AllTallied(chain + [c]) <==>
            && AllTallied(chain) && Tallied(c.content.counters, chain + [c])
            && SafeCounters(c.content.counters) && SafeFailures(c.content.failures)
  {
    CountableExactly(c.content.counters, c.content.failures);
    hide Tallied, Figures, Countable, SafeCounters, SafeFailures;
    var longer := chain + [c];
    assert longer[|chain|] == c && longer[..|chain| + 1] == longer;
    forall i | 0 <= i < |chain| ensures longer[i] == chain[i] && longer[..i + 1] == chain[..i + 1] { }
  }

  /** The counters of the last record are the tally of the chain; without a record nothing is counted. */
  lemma TalliedBefore(chain: seq<Checkpoint>)
    requires AllTallied(chain)
    ensures Tallied(CountersBefore(chain), chain)
  {
    if chain != [] { assert chain[..|chain| - 1 + 1] == chain; }
  }

  lemma MeasuredPhase(plan: Plan, c: Content)
    requires MeasuredWell(plan, c)
    ensures c.window.Some? <==> c.phase in MEASURED
  {
  }

  /** Everything but the two guards of the counters. */
  predicate Continues(plan: Plan, chain: seq<Checkpoint>, c: Checkpoint) {
    && c.digest == Sha256(c.content) && OrderOk(chain, c.content) && IdentityOk(plan, chain, c.content)
    && SessionOk(chain, c.content) && WindowOk(plan, c.content)
    && SafeCounters(c.content.counters) && SafeFailures(c.content.failures)
    && c.content.counters == Plus(CountersBefore(chain), Contribution(c.content))
  }

  lemma LawfulStep(plan: Plan, chain: seq<Checkpoint>, c: Checkpoint)
    requires ValidPlan(plan) && Lawful(plan, chain)
    ensures Lawful(plan, chain + [c]) <==> Continues(plan, chain, c)
  {
    InOrderStep(plan, chain, c);
    AllMeasuredStep(plan, chain, c);
    AllTalliedStep(chain, c);
    TalliedBefore(chain);
    MeasuredExactly(plan, c.content);
    hide InOrder, Sessions, AllMeasured, AllTallied, Tallied, IdentityOk;
    hide ValidPlan, SessionOk, WindowOk, MeasuredWell, Plus, Contribution, SafeCounters, SafeFailures;
    if chain == [] ==> c.content.phase == Baseline { SessionsStep(chain, c); }
    if MeasuredWell(plan, c.content) {
      MeasuredPhase(plan, c.content);
      TalliedStep(CountersBefore(chain), chain, c);
    }
  }

  lemma LawfulPrefix(plan: Plan, chain: seq<Checkpoint>, c: Checkpoint)
    requires Lawful(plan, chain + [c])
    ensures Lawful(plan, chain)
  {
    hide InOrder, Sessions, AllMeasured, AllTallied;
    InOrderStep(plan, chain, c);
    AllMeasuredStep(plan, chain, c);
    AllTalliedStep(chain, c);
    if chain == [] { OneBaseline(plan, chain, c); }
    SessionsStep(chain, c);
  }

  lemma OneBaseline(plan: Plan, chain: seq<Checkpoint>, c: Checkpoint)
    requires InOrder(plan, chain + [c]) && chain == []
    ensures c.content.phase == Baseline
  {
    WordStep(chain, c);
  }

  /** The validator's chain contract, record by record, is the whole-chain contract: neither asks for more. */
  lemma {:induction false} ValidExactly(plan: Plan, chain: seq<Checkpoint>)
    requires ValidPlan(plan)
    ensures ValidChain(plan, chain) <==> Lawful(plan, chain)
    decreases |chain|
  {
    if chain != [] {
      var (prefix, c) := (chain[..|chain| - 1], chain[|chain| - 1]);
      assert chain == prefix + [c];
      ValidExactly(plan, prefix);
      ValidExtend(plan, prefix, c);
      if Lawful(plan, chain) { LawfulPrefix(plan, prefix, c); }
      if Lawful(plan, prefix) {
        LawfulStep(plan, prefix, c);
        if Continues(plan, prefix, c) { GuardsAreRedundant(plan, prefix, c); }
      }
    }
  }

  /** In an accepted chain two records have the same attempt if and only if they have the same session. */
  lemma SameAttemptSameSession(plan: Plan, chain: seq<Checkpoint>, i: nat, j: nat)
    requires ValidPlan(plan) && ValidChain(plan, chain) && i < |chain| && j < |chain|
    ensures chain[i].content.attempt == chain[j].content.attempt <==>
            chain[i].content.session == chain[j].content.session
  {
    hide ValidChain, ValidPlan;
    ValidExactly(plan, chain);
  }

  /** A session loads exactly the directories that hold the files 1 to n, for an n from one to 999999, of a fit plan and
      a lawful chain. */
  lemma LoadableExactly(plan: Plan, files: Files)
    ensures Loadable(plan, files) <==>
            && 0 < |files| < 1_000_000 && (forall k :: k in files <==> 1 <= k <= |files|)
            && !Unfit(plan) && Lawful(plan, ChainOf(files))
  {
    PlanExactly(plan);
    hide ValidPlan, Unfit, ValidChain, Lawful;
    if Contiguous(files) && ValidPlan(plan) { ValidExactly(plan, ChainOf(files)); }
    if |files| == 0 { assert files == map[]; }
  }
}
