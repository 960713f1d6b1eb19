/** Checkpoint records of the sustained operating envelope and their validator.

  A checkpoint digest is modelled as an ideal hash: `Sha256` is a constructor, so it is
  injective by construction and a digest determines the content it was taken of.
*/
module Checkpoints {

  import opened Options

  const SAFE_INTEGER_MAX: int := 9007199254740991

  /** The last timestamp, in milliseconds since the first: 9999-12-31T23:59:59.999Z since 0001-01-01T00:00:00Z. */
  const LATEST: int := 315537897599999

  /** Operational identifiers; only equality matters. */
  type Id = nat

  datatype Phase = Baseline | SteadyLoad | Interruption | Recovery | PostRecovery | Complete

  datatype Counters = Counters(
    completedWork: int, containment: int, duplicate: int, integrity: int, interruptions: int,
    completions: int, postRecoveryMs: int, breaches: int, overheadMs: int, stabilityMs: int,
    windows: int, resumes: int)

  datatype Failures = Failures(containment: int, duplicate: int, integrity: int, breaches: int)

  const NO_COUNTS := Counters(0, 0, 0, 0, 0, 0, 0, 0, 0, 0, 0, 0)
  const NO_FAILURES := Failures(0, 0, 0, 0)

  datatype Reading =
    | Observed(minimum: int, maximum: int, last: int)
    | Unavailable(diagnostic: string)

  datatype Summary = Summary(measurement: string, unit: string, samples: int, reading: Reading)

  datatype Window = Window(completedWork: int, durationMs: int, overheadMs: int, summaries: seq<Summary>)

  datatype Policy = Policy(measurement: string, required: bool, unit: string)

  datatype Boundary = Boundary(measurement: string, isMinimum: bool, value: int)

  /** `targetMs` is no field of the record but what the others make of it: the whole milliseconds that the loop of a
      load window lasts at least, which is Workload.TargetMs of the stability duration and the windows. */
  datatype Plan = Plan(
    digest: string, policies: seq<Policy>, boundaries: seq<Boundary>,
    minimumWindows: int, minimumRecoveries: int,
    minimumStabilityMs: int, minimumPostRecoveryMs: int,
    maximumOverheadBp: int, maximumDegradationBp: int, targetMs: int)

  datatype Digest = Sha256(content: Content)

  datatype Content = Content(
    attempt: Id, checkpointId: Id, counters: Counters, failures: Failures, logicalExecution: Id,
    observedAt: int, phase: Phase, planDigest: string, previous: Option<Digest>,
    qualification: Id, sequence: int, session: int, window: Option<Window>, workload: string)

  datatype Checkpoint = Checkpoint(content: Content, digest: Digest)

  function Last(chain: seq<Checkpoint>): Content
    requires chain != []
  {
    chain[|chain| - 1].content
  }

  predicate IsWindowPhase(p: Phase) { p.Baseline? || p.SteadyLoad? || p.PostRecovery? }

  predicate IsStability(p: Phase) { p.SteadyLoad? || p.PostRecovery? }

  function AllowedAfter(p: Phase): set<Phase> {
    match p
    case Baseline => {Baseline, SteadyLoad, Interruption}
    case SteadyLoad => {SteadyLoad, Interruption, Complete}
    case Interruption => {Recovery}
    case Recovery => {PostRecovery, Interruption}
    case PostRecovery => {PostRecovery, Interruption, Complete}
    case Complete => {}
  }

  // ---------------------------------------------------------------------------
  // Plans

  predicate DistinctPolicies(ps: seq<Policy>) {
    forall i, j :: 0 <= i < j < |ps| ==> ps[i].measurement != ps[j].measurement
  }

  predicate DistinctBoundaries(bs: seq<Boundary>) {
    forall i, j :: 0 <= i < j < |bs| ==> bs[i].measurement != bs[j].measurement
  }

  predicate Governs(plan: Plan, name: string) {
    exists p :: p in plan.policies && p.measurement == name
  }

  /** The part of plan validation that the checkpoint logic relies on. */
  predicate ValidPlan(plan: Plan) {
    && plan.policies != []
    && DistinctPolicies(plan.policies)
    && DistinctBoundaries(plan.boundaries)
    && (forall b :: b in plan.boundaries ==> Governs(plan, b.measurement) && 0 <= b.value <= SAFE_INTEGER_MAX)
    && 2 <= plan.minimumWindows <= SAFE_INTEGER_MAX
    && 1 <= plan.minimumRecoveries <= SAFE_INTEGER_MAX
    && 1 <= plan.minimumPostRecoveryMs <= plan.minimumStabilityMs <= SAFE_INTEGER_MAX
    && plan.minimumWindows <= plan.minimumStabilityMs
    && 1 <= plan.targetMs
    && (exists p :: p in plan.policies && p.required)
    && 0 <= plan.maximumOverheadBp <= 10_000
    && 0 <= plan.maximumDegradationBp <= 10_000
  }

  // ---------------------------------------------------------------------------
  // Measurement summaries and resource boundaries

  predicate ReadingOk(p: Policy, s: Summary) {
    && s.unit == p.unit
    && 0 <= s.samples <= SAFE_INTEGER_MAX
    && match s.reading
       case Observed(lo, hi, last) => s.samples >= 1 && 0 <= lo <= last <= hi <= SAFE_INTEGER_MAX
       case Unavailable(text) => s.samples == 0 && 0 < |text| <= 512 && !p.required
  }

  predicate SummariesOk(plan: Plan, ss: seq<Summary>) {
    && ss != []
    && DistinctSummaries(ss)
    && (forall s :: s in ss ==> Covered(plan, s))
    && (forall p :: p in plan.policies ==> Accounted(ss, p.measurement))
  }

  predicate Covered(plan: Plan, s: Summary) {
    exists p :: p in plan.policies && p.measurement == s.measurement && ReadingOk(p, s)
  }

  predicate Accounted(ss: seq<Summary>, name: string) {
    exists s :: s in ss && s.measurement == name
  }

  function UnsampledBy(p: Policy): Summary { Summary(p.measurement, p.unit, 0, Unavailable("")) }

  /** The summaries of a sampler that never sampled. */
  function Unsampled(plan: Plan): seq<Summary> {
    seq(|plan.policies|, i requires 0 <= i < |plan.policies| => UnsampledBy(plan.policies[i]))
  }

  predicate Violates(b: Boundary, s: Summary) {
    && s.reading.Observed?
    && (if b.isMinimum then s.reading.minimum < b.value else s.reading.maximum > b.value)
  }

  /** Some governed measurement was observed outside its boundary. */
  predicate Breached(plan: Plan, ss: seq<Summary>) {
    exists s, b :: s in ss && b in plan.boundaries && b.measurement == s.measurement && Violates(b, s)
  }

  // ---------------------------------------------------------------------------
  // Counters

  function Plus(a: Counters, b: Counters): Counters {
    Counters(
      a.completedWork + b.completedWork, a.containment + b.containment, a.duplicate + b.duplicate,
      a.integrity + b.integrity, a.interruptions + b.interruptions, a.completions + b.completions,
      a.postRecoveryMs + b.postRecoveryMs, a.breaches + b.breaches, a.overheadMs + b.overheadMs,
      a.stabilityMs + b.stabilityMs, a.windows + b.windows, a.resumes + b.resumes)
  }

  /** What one checkpoint contributes to the cumulative counters. */
  function Contribution(c: Content): Counters {
    var w := if IsWindowPhase(c.phase) then c.window else None;
    var stable := w.Some? && IsStability(c.phase);
    Counters(
      if w.Some? then w.value.completedWork else 0,
      c.failures.containment, c.failures.duplicate, c.failures.integrity,
      if c.phase.Interruption? then 1 else 0,
      if c.phase.Complete? then 1 else 0,
      if stable && c.phase.PostRecovery? then w.value.durationMs else 0,
      c.failures.breaches,
      if w.Some? then w.value.overheadMs else 0,
      if stable then w.value.durationMs else 0,
      if stable then 1 else 0,
      if c.phase.Recovery? then 1 else 0)
  }

  predicate Safe(v: int) { 0 <= v <= SAFE_INTEGER_MAX }

  predicate SafeCounters(c: Counters) {
    && Safe(c.completedWork) && Safe(c.containment) && Safe(c.duplicate) && Safe(c.integrity)
    && Safe(c.interruptions) && Safe(c.completions) && Safe(c.postRecoveryMs) && Safe(c.breaches)
    && Safe(c.overheadMs) && Safe(c.stabilityMs) && Safe(c.windows) && Safe(c.resumes)
  }

  predicate SafeFailures(f: Failures) {
    Safe(f.containment) && Safe(f.duplicate) && Safe(f.integrity) && Safe(f.breaches)
  }

  predicate Clean(c: Counters) {
    c.containment == 0 && c.duplicate == 0 && c.integrity == 0 && c.breaches == 0
  }

  // ---------------------------------------------------------------------------
  // The chain contract: which checkpoint may follow a chain

  predicate WindowOk(plan: Plan, c: Content) {
    if IsWindowPhase(c.phase) then
      && c.window.Some?
      && 1 <= c.window.value.durationMs <= SAFE_INTEGER_MAX
      && Safe(c.window.value.completedWork)
      && Safe(c.window.value.overheadMs)
      && c.window.value.overheadMs <= c.window.value.durationMs
      && SummariesOk(plan, c.window.value.summaries)
      && c.failures.breaches == (if Breached(plan, c.window.value.summaries) then 1 else 0)
    else
      c.window.None? && c.failures.breaches == 0
  }

  function CountersBefore(prefix: seq<Checkpoint>): Counters {
    if prefix == [] then NO_COUNTS else Last(prefix).counters
  }

  predicate CountersOk(prefix: seq<Checkpoint>, c: Content) {
    && SafeCounters(c.counters)
    && SafeFailures(c.failures)
    && c.counters == Plus(CountersBefore(prefix), Contribution(c))
    && c.counters.resumes <= c.counters.interruptions
    && c.counters.completions <= 1
  }

  predicate IdentityOk(plan: Plan, prefix: seq<Checkpoint>, c: Content) {
    && c.planDigest == plan.digest
    && (forall q :: q in prefix ==> q.content.checkpointId != c.checkpointId)
    && (prefix != [] ==>
          && c.qualification == prefix[0].content.qualification
          && c.logicalExecution == prefix[0].content.logicalExecution
          && c.workload == prefix[0].content.workload)
  }

  predicate OrderOk(prefix: seq<Checkpoint>, c: Content) {
    && c.sequence == |prefix| + 1 <= SAFE_INTEGER_MAX
    && c.previous == (if prefix == [] then None else Some(prefix[|prefix| - 1].digest))
    && 0 <= c.observedAt <= LATEST
    && (prefix != [] ==> Last(prefix).observedAt <= c.observedAt)
    && (if prefix == [] then c.phase == Baseline else c.phase in AllowedAfter(Last(prefix).phase))
  }

  predicate SessionOk(prefix: seq<Checkpoint>, c: Content) {
    && 1 <= c.session <= SAFE_INTEGER_MAX
    && if prefix == [] then c.session == 1
       else if c.phase == Recovery then
         && c.session == Last(prefix).session + 1
         && (forall q :: q in prefix ==> q.content.attempt != c.attempt)
       else
         c.session == Last(prefix).session && c.attempt == Last(prefix).attempt
  }

  predicate MayFollow(plan: Plan, prefix: seq<Checkpoint>, c: Checkpoint) {
    && c.digest == Sha256(c.content)
    && OrderOk(prefix, c.content)
    && IdentityOk(plan, prefix, c.content)
    && SessionOk(prefix, c.content)
    && WindowOk(plan, c.content)
    && CountersOk(prefix, c.content)
  }

  predicate ValidChain(plan: Plan, chain: seq<Checkpoint>)
    decreases |chain|
  {
    chain == [] ||
    var prefix := chain[..|chain| - 1];
    ValidChain(plan, prefix) && MayFollow(plan, prefix, chain[|chain| - 1])
  }

  lemma ValidExtend(plan: Plan, chain: seq<Checkpoint>, c: Checkpoint)
    ensures ValidChain(plan, chain + [c]) <==> ValidChain(plan, chain) && MayFollow(plan, chain, c)
  {
    assert (chain + [c])[..|chain|] == chain;
  }

  lemma {:induction false} ValidPrefix(plan: Plan, chain: seq<Checkpoint>, k: nat)
    requires ValidChain(plan, chain) && k <= |chain|
    ensures ValidChain(plan, chain[..k])
    ensures k < |chain| ==> MayFollow(plan, chain[..k], chain[k])
    decreases |chain|
  {
    if k == |chain| {
      assert chain[..k] == chain;
    } else if k < |chain| - 1 {
      var prefix := chain[..|chain| - 1];
      ValidPrefix(plan, prefix, k);
      assert prefix[..k] == chain[..k];
    }
  }

  /** The last digest commits to the whole chain: no two valid chains share it. */
  lemma {:induction false} DigestPinsChain(plan: Plan, a: seq<Checkpoint>, b: seq<Checkpoint>)
    requires a != [] && b != [] && ValidChain(plan, a) && ValidChain(plan, b)
    requires a[|a| - 1].digest == b[|b| - 1].digest
    ensures a == b
    decreases |a|
  {
    if |a| > 1 {
      var p, q := a[..|a| - 1], b[..|b| - 1];
      DigestPinsChain(plan, p, q);
      assert a == p + [a[|a| - 1]] && b == q + [b[|b| - 1]];
    }
  }

  // ---------------------------------------------------------------------------
  // The validator, in its own loops

  /** First policy with the given name, as the dictionary lookup finds it. */
  method FindPolicy(plan: Plan, name: string) returns (found: Option<Policy>)
    ensures found.Some? ==> found.value in plan.policies && found.value.measurement == name
    ensures found.None? ==> !Governs(plan, name)
  {
    found := None;
    var i := 0;
    while i < |plan.policies|
      invariant 0 <= i <= |plan.policies|
      invariant forall j :: 0 <= j < i ==> plan.policies[j].measurement != name
    {
      if plan.policies[i].measurement == name {
        return Some(plan.policies[i]);
      }
      i := i + 1;
    }
  }

  /** `byName` indexes exactly the summaries, which therefore have distinct names. */
  predicate Indexes(ss: seq<Summary>, byName: map<string, Summary>) {
    && (forall n :: n in byName ==> byName[n] in ss && byName[n].measurement == n)
    && (forall s :: s in ss ==> s.measurement in byName && byName[s.measurement] == s)
  }

  predicate DistinctSummaries(ss: seq<Summary>) {
    forall i, j :: 0 <= i < j < |ss| ==> ss[i].measurement != ss[j].measurement
  }

  method IndexSummaries(plan: Plan, ss: seq<Summary>) returns (ok: bool, byName: map<string, Summary>)
    requires DistinctPolicies(plan.policies)
    ensures ok <==> DistinctSummaries(ss) && forall s :: s in ss ==> Covered(plan, s)
    ensures ok ==> Indexes(ss, byName)
  {
    byName := map[];
    for i := 0 to |ss|
      invariant DistinctSummaries(ss[..i])
      invariant forall s :: s in ss[..i] ==> Covered(plan, s)
      invariant Indexes(ss[..i], byName)
    {
      var s := ss[i];
      assert ss[..i + 1] == ss[..i] + [s];
      var policy := FindPolicy(plan, s.measurement);
      if s.measurement in byName {
        var j :| 0 <= j < i && ss[..i][j] == byName[s.measurement];
        assert ss[j].measurement == ss[i].measurement;
        return false, byName;
      }
      if policy.None? || !ReadingOk(policy.value, s) {
        OnePolicy(plan, s, policy);
        return false, byName;
      }
      byName := byName[s.measurement := s];
    }
    assert ss[..|ss|] == ss;
    ok := true;
  }

  lemma OnePolicy(plan: Plan, s: Summary, found: Option<Policy>)
    requires DistinctPolicies(plan.policies)
    requires found.Some? ==> found.value in plan.policies && found.value.measurement == s.measurement
    requires found.None? ==> !Governs(plan, s.measurement)
    requires found.None? || !ReadingOk(found.value, s)
    ensures !Covered(plan, s)
  {
  }

  method MeasurementSummaries(plan: Plan, ss: seq<Summary>)
    returns (ok: bool, byName: map<string, Summary>)
    requires DistinctPolicies(plan.policies)
    ensures ok <==> SummariesOk(plan, ss)
    ensures ok ==> Indexes(ss, byName)
  {
    byName := map[];
    if ss == [] { return false, byName; }
    ok, byName := IndexSummaries(plan, ss);
    if !ok { return; }
    for i := 0 to |plan.policies|
      invariant forall j :: 0 <= j < i ==> Accounted(ss, plan.policies[j].measurement)
    {
      if plan.policies[i].measurement !in byName {
        assert plan.policies[i] in plan.policies;
        return false, byName;
      }
    }
    ok := true;
  }

  /** The validator's recomputation of a resource breach: by boundary. */
  method BoundaryBreached(plan: Plan, ss: seq<Summary>, byName: map<string, Summary>) returns (breached: bool)
    requires Indexes(ss, byName)
    requires forall b :: b in plan.boundaries ==> b.measurement in byName
    ensures breached <==> Breached(plan, ss)
  {
    breached := false;
    for i := 0 to |plan.boundaries|
      invariant breached <==>
                  exists j :: 0 <= j < i && Violates(plan.boundaries[j], byName[plan.boundaries[j].measurement])
    {
      var b := plan.boundaries[i];
      var s := byName[b.measurement];
      if s.reading.Observed? {
        if b.isMinimum {
          breached := s.reading.minimum < b.value || breached;
        } else {
          breached := s.reading.maximum > b.value || breached;
        }
      }
    }
  }

  /** The producer's computation of the same breach: by summary, stopping at the first one. */
  method ResourceBoundaryBreach(plan: Plan, ss: seq<Summary>) returns (breach: int)
    requires DistinctBoundaries(plan.boundaries)
    ensures breach == if Breached(plan, ss) then 1 else 0
  {
    for i := 0 to |ss|
      invariant forall j, b :: 0 <= j < i && b in plan.boundaries && b.measurement == ss[j].measurement ==>
                  !Violates(b, ss[j])
    {
      var boundary: Option<Boundary> := None;
      for k := 0 to |plan.boundaries|
        invariant boundary.Some? ==>
                    boundary.value in plan.boundaries && boundary.value.measurement == ss[i].measurement
        invariant forall m :: 0 <= m < k && plan.boundaries[m].measurement == ss[i].measurement ==>
                    boundary == Some(plan.boundaries[m])
      {
        if plan.boundaries[k].measurement == ss[i].measurement {
          boundary := Some(plan.boundaries[k]);
        }
      }
      if boundary.Some? && ss[i].reading.Observed? {
        if (boundary.value.isMinimum && ss[i].reading.minimum < boundary.value.value) ||
           (!boundary.value.isMinimum && ss[i].reading.maximum > boundary.value.value) {
          assert Violates(boundary.value, ss[i]);
          return 1;
        }
      }
    }
    return 0;
  }

  method ValidateWindow(plan: Plan, c: Content) returns (ok: bool)
    requires ValidPlan(plan)
    ensures ok <==> WindowOk(plan, c)
  {
    if !IsWindowPhase(c.phase) {
      return c.window.None? && c.failures.breaches == 0;
    }
    if c.window.None? { return false; }
    var w := c.window.value;
    if !(1 <= w.durationMs <= SAFE_INTEGER_MAX) || !Safe(w.completedWork) || !Safe(w.overheadMs)
         || w.overheadMs > w.durationMs {
      return false;
    }
    var covered, byName := MeasurementSummaries(plan, w.summaries);
    if !covered { return false; }
    forall b | b in plan.boundaries ensures b.measurement in byName {
      var p :| p in plan.policies && p.measurement == b.measurement;
      assert Accounted(w.summaries, p.measurement);
    }
    var breached := BoundaryBreached(plan, w.summaries, byName);
    return c.failures.breaches == if breached then 1 else 0;
  }

  function CheckpointIds(chain: seq<Checkpoint>): set<Id> {
    set q | q in chain :: q.content.checkpointId
  }

  function AttemptIds(chain: seq<Checkpoint>): set<Id> {
    set q | q in chain :: q.content.attempt
  }

  method CheckOrder(ghost prefix: seq<Checkpoint>, position: nat, previous: Option<Checkpoint>, c: Content)
    returns (ok: bool)
    requires position == |prefix|
    requires previous == if prefix == [] then None else Some(prefix[|prefix| - 1])
    ensures ok <==> OrderOk(prefix, c)
  {
    if c.sequence != position + 1 || c.sequence > SAFE_INTEGER_MAX { return false; }
    if c.previous != (if previous.None? then None else Some(previous.value.digest)) { return false; }
    if !(0 <= c.observedAt <= LATEST) { return false; }
    if previous.Some? && c.observedAt < previous.value.content.observedAt { return false; }
    if previous.None? {
      return c.phase == Baseline;
    }
    return c.phase in AllowedAfter(previous.value.content.phase);
  }

  method CheckIdentity(plan: Plan, ghost prefix: seq<Checkpoint>, first: Content, checkpointIds: set<Id>, c: Content)
    returns (ok: bool)
    requires checkpointIds == CheckpointIds(prefix)
    requires first == if prefix == [] then c else prefix[0].content
    ensures ok <==> IdentityOk(plan, prefix, c)
  {
    if c.checkpointId in checkpointIds { return false; }
    if c.qualification != first.qualification || c.logicalExecution != first.logicalExecution
         || c.workload != first.workload {
      return false;
    }
    return c.planDigest == plan.digest;
  }

  method CheckSession(
    ghost prefix: seq<Checkpoint>, previous: Option<Checkpoint>, attemptIds: set<Id>, c: Content)
    returns (ok: bool)
    requires previous == if prefix == [] then None else Some(prefix[|prefix| - 1])
    requires attemptIds == AttemptIds(prefix)
    ensures ok <==> SessionOk(prefix, c)
  {
    if !(1 <= c.session <= SAFE_INTEGER_MAX) { return false; }
    if previous.None? { return c.session == 1; }
    var before := previous.value.content;
    if c.phase == Recovery {
      if c.session != before.session + 1 || c.attempt == before.attempt { return false; }
      return c.attempt !in attemptIds;
    }
    return c.session == before.session && c.attempt == before.attempt;
  }

  method CheckCounters(ghost prefix: seq<Checkpoint>, previousCounters: Counters, c: Content) returns (ok: bool)
    requires previousCounters == CountersBefore(prefix)
    ensures ok <==> CountersOk(prefix, c)
  {
    if !SafeCounters(c.counters) || !SafeFailures(c.failures) { return false; }
    if c.counters != Plus(previousCounters, Contribution(c)) { return false; }
    return c.counters.resumes <= c.counters.interruptions && c.counters.completions <= 1;
  }

  method ValidateRecord(
    plan: Plan, ghost prefix: seq<Checkpoint>, position: nat, previous: Option<Checkpoint>, first: Content,
    checkpointIds: set<Id>, attemptIds: set<Id>, c: Checkpoint) returns (ok: bool)
    requires ValidPlan(plan) && position == |prefix|
    requires previous == if prefix == [] then None else Some(prefix[|prefix| - 1])
    requires first == if prefix == [] then c.content else prefix[0].content
    requires checkpointIds == CheckpointIds(prefix) && attemptIds == AttemptIds(prefix)
    ensures ok <==> MayFollow(plan, prefix, c)
  {
    var ordered := CheckOrder(prefix, position, previous, c.content);
    var identified := CheckIdentity(plan, prefix, first, checkpointIds, c.content);
    var inSession := CheckSession(prefix, previous, attemptIds, c.content);
    var measured := ValidateWindow(plan, c.content);
    var before := if previous.None? then NO_COUNTS else previous.value.content.counters;
    var reconciled := CheckCounters(prefix, before, c.content);
    return c.digest == Sha256(c.content) && ordered && identified && inSession && measured && reconciled;
  }

  /** One pass over the records, carrying the previous record and the identities seen so far. */
  method ValidateCheckpointChain(plan: Plan, chain: seq<Checkpoint>) returns (ok: bool)
    ensures ok <==> ValidPlan(plan) && chain != [] && ValidChain(plan, chain)
  {
    if !ValidPlan(plan) || chain == [] { return false; }
    var checkpointIds: set<Id> := {};
    var attemptIds: set<Id> := {};
    for i := 0 to |chain|
      invariant ValidChain(plan, chain[..i])
      invariant checkpointIds == CheckpointIds(chain[..i]) && attemptIds == AttemptIds(chain[..i])
    {
      var c := chain[i].content;
      ghost var prefix := chain[..i];
      var previous := if i == 0 then None else Some(chain[i - 1]);
      var ok := ValidateRecord(plan, prefix, i, previous, chain[0].content, checkpointIds, attemptIds, chain[i]);
      Judged(plan, chain, i);
      if !ok { return false; }
      Grown(prefix, chain[i]);
      checkpointIds := checkpointIds + {c.checkpointId};
      if i == 0 || c.phase == Recovery {
        attemptIds := attemptIds + {c.attempt};
      }
      assert chain[..i + 1] == prefix + [chain[i]];
    }
    assert chain[..|chain|] == chain;
    return true;
  }

  lemma Judged(plan: Plan, chain: seq<Checkpoint>, i: nat)
    requires i < |chain| && ValidChain(plan, chain[..i])
    ensures MayFollow(plan, chain[..i], chain[i]) ==> ValidChain(plan, chain[..i + 1])
    ensures !MayFollow(plan, chain[..i], chain[i]) ==> !ValidChain(plan, chain)
  {
    assert chain[..i + 1] == chain[..i] + [chain[i]];
    ValidExtend(plan, chain[..i], chain[i]);
    if ValidChain(plan, chain) { ValidPrefix(plan, chain, i); }
  }

  /** The identity sets after one more record; a record that continues its session brings no new attempt. */
  lemma Grown(prefix: seq<Checkpoint>, c: Checkpoint)
    ensures CheckpointIds(prefix + [c]) == CheckpointIds(prefix) + {c.content.checkpointId}
    ensures AttemptIds(prefix + [c]) == AttemptIds(prefix) + {c.content.attempt}
    ensures prefix != [] && SessionOk(prefix, c.content) && c.content.phase != Recovery ==>
              AttemptIds(prefix + [c]) == AttemptIds(prefix)
  {
    var next := prefix + [c];
    assert next[|prefix|] == c;
    assert forall q :: q in prefix ==> q in next;
    if prefix != [] { assert prefix[|prefix| - 1] in prefix; }
  }
}
