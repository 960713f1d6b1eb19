/** The window sampler: what is recorded, how it is summarised, and what a reported breach says about the samples. */
module Sampler {
  import opened Checkpoints
  import opened Options

  datatype Measurement =
    | CpuUtilization | EnvironmentCacheSize | ExecutionScratchSize | PersistentDiskAvailable | ProcessorTemperature
    | RamWorkingSet | ResultSpoolSize

  /** The sampler's dictionary: each known measurement and its values so far. */
  type Samples = map<Measurement, seq<int>>

  predicate Total(samples: Samples) { forall m: Measurement :: m in samples }

  /** The dictionary key a policy's measurement name is looked up under. */
  function KeyOf(name: string): Option<Measurement> {
    match name
    case "cpu-utilization" => Some(CpuUtilization)
    case "environment-cache-size" => Some(EnvironmentCacheSize)
    case "execution-scratch-size" => Some(ExecutionScratchSize)
    case "persistent-disk-available" => Some(PersistentDiskAvailable)
    case "processor-temperature" => Some(ProcessorTemperature)
    case "ram-working-set" => Some(RamWorkingSet)
    case "result-spool-size" => Some(ResultSpoolSize)
    case _ => None
  }

  function Lookup(samples: Samples, name: string): Option<seq<int>>
    requires Total(samples)
  {
    match KeyOf(name)
    case Some(m) => Some(samples[m])
    case None => None
  }

  /** One reading of the machine. */
  datatype Probe = Probe(
    cpuTotal: int, cpuIdle: int, residentBytes: int, cacheBytes: int, scratchBytes: int, spoolBytes: int,
    diskFree: int, temperature: Option<int>, startedNs: int, endedNs: int)

  const NO_TEMPERATURE := "processor temperature telemetry is unavailable from the Linux guest"

  function Utilization(totalDelta: int, idleDelta: int): (u: int)
    requires totalDelta > 0
    ensures 0 <= u <= 10_000
  {
    var raw := (totalDelta - idleDelta) * 10_000 / totalDelta;
    var capped := if raw < 10_000 then raw else 10_000;
    if capped > 0 then capped else 0
  }

  /** A later sample is in the percentage scale exactly; the clamp only bites when the idle time moves against the
      total. */
  lemma UtilizationIsTheRatio(totalDelta: int, idleDelta: int)
    requires totalDelta > 0
    ensures 0 <= idleDelta <= totalDelta ==>
              totalDelta * Utilization(totalDelta, idleDelta) <= (totalDelta - idleDelta) * 10_000
              < totalDelta * (Utilization(totalDelta, idleDelta) + 1)
    ensures idleDelta < 0 ==> Utilization(totalDelta, idleDelta) == 10_000
    ensures idleDelta > totalDelta ==> Utilization(totalDelta, idleDelta) == 0
  {
    var a := (totalDelta - idleDelta) * 10_000;
    DivisionBounds(a, totalDelta);
    if 0 <= idleDelta <= totalDelta {
      QuotientBelow(a, totalDelta, 10_000);
      QuotientAbove(a, totalDelta, 0);
    } else if idleDelta < 0 {
      QuotientAbove(a, totalDelta, 10_000);
    } else {
      QuotientBelow(a, totalDelta, 0);
    }
  }

  lemma DivisionBounds(a: int, d: int)
    requires d > 0
    ensures d * (a / d) <= a < d * (a / d + 1)
  {
  }

  lemma QuotientBelow(a: int, d: int, n: int)
    requires d > 0 && a <= d * n
    ensures a / d <= n
  {
    DivisionBounds(a, d);
    if a / d >= n + 1 { Grows(d, n + 1, a / d); }
  }

  lemma QuotientAbove(a: int, d: int, n: int)
    requires d > 0 && a >= d * n
    ensures a / d >= n
  {
    DivisionBounds(a, d);
    if a / d + 1 <= n { Grows(d, a / d + 1, n); }
  }

  lemma Grows(d: int, m: int, n: int)
    requires d > 0 && m <= n
    ensures d * m <= d * n
  {
  }

  function Recorded(samples: Samples, m: Measurement, value: int): (r: Samples)
    requires Total(samples)
    ensures Total(r)
  {
    samples[m := samples[m] + [value]]
  }

  const NO_SAMPLES: Samples := map[
    CpuUtilization := [], EnvironmentCacheSize := [], ExecutionScratchSize := [], PersistentDiskAvailable := [],
    ProcessorTemperature := [], RamWorkingSet := [], ResultSpoolSize := []]

  lemma NoSamplesYet()
    ensures Total(NO_SAMPLES) && forall m: Measurement :: NO_SAMPLES[m] == []
  {
    forall m: Measurement ensures m in NO_SAMPLES && NO_SAMPLES[m] == [] {
      match m {
        case CpuUtilization =>
        case EnvironmentCacheSize =>
        case ExecutionScratchSize =>
        case PersistentDiskAvailable =>
        case ProcessorTemperature =>
        case RamWorkingSet =>
        case ResultSpoolSize =>
      }
    }
  }

  class WindowSampler {
    var samples: Samples
    var previousCpu: Option<(int, int)>
    var temperatureDiagnostic: string
    var overheadNs: int

    constructor ()
      ensures Total(samples) && forall m: Measurement :: samples[m] == []
      ensures previousCpu == None && temperatureDiagnostic == "" && overheadNs == 0
    {
      samples := NO_SAMPLES;
      previousCpu, temperatureDiagnostic, overheadNs := None, "", 0;
      NoSamplesYet();
    }

    /** One sampling step: every measurement grows by its reading; processor time needs a positive difference to an
        earlier reading and temperature a sensor. */
    method Sample(p: Probe)
      requires Total(samples)
      modifies this
      ensures Total(samples)
      ensures samples == Extended(old(samples), p, old(previousCpu))
      ensures previousCpu == Some((p.cpuTotal, p.cpuIdle))
      ensures temperatureDiagnostic == if p.temperature.None? then NO_TEMPERATURE else old(temperatureDiagnostic)
      ensures overheadNs == old(overheadNs) + p.endedNs - p.startedNs
    {
      hide Utilization, Recorded;
      if previousCpu.Some? {
        var totalDelta := p.cpuTotal - previousCpu.value.0;
        var idleDelta := p.cpuIdle - previousCpu.value.1;
        if totalDelta > 0 {
          samples := Recorded(samples, CpuUtilization, Utilization(totalDelta, idleDelta));
        }
      }
      previousCpu := Some((p.cpuTotal, p.cpuIdle));
      samples := Recorded(samples, RamWorkingSet, p.residentBytes);
      samples := Recorded(samples, EnvironmentCacheSize, p.cacheBytes);
      samples := Recorded(samples, ExecutionScratchSize, p.scratchBytes);
      samples := Recorded(samples, ResultSpoolSize, p.spoolBytes);
      samples := Recorded(samples, PersistentDiskAvailable, p.diskFree);
      if p.temperature.None? {
        temperatureDiagnostic := NO_TEMPERATURE;
      } else {
        samples := Recorded(samples, ProcessorTemperature, p.temperature.value);
      }
      overheadNs := overheadNs + p.endedNs - p.startedNs;
    }

    /** None where the code raises: a policy names a measurement the sampler does not know. */
    method Summaries(plan: Plan) returns (ss: Option<seq<Summary>>)
      requires Total(samples)
      ensures ss.None? <==> exists p :: p in plan.policies && KeyOf(p.measurement).None?
      ensures ss.Some? ==> AllSummarised(plan, samples, temperatureDiagnostic, ss.value)
    {
      var result: seq<Summary> := [];
      for i := 0 to |plan.policies|
        invariant |result| == i
        invariant forall j :: 0 <= j < i ==> Summarises(result[j], plan.policies[j], samples, temperatureDiagnostic)
      {
        var policy := plan.policies[i];
        var found := Lookup(samples, policy.measurement);
        if found.None? { return None; }
        var values := found.value;
        if values == [] {
          result := result + [Summary(policy.measurement, policy.unit, 0, Unavailable(temperatureDiagnostic))];
        } else {
          var least, most := Extremes(values);
          result := result +
            [Summary(policy.measurement, policy.unit, |values|, Observed(least, most, values[|values| - 1]))];
        }
      }
      ss := Some(result);
    }
  }

  /** What one step adds to a measurement. */
  function Observations(p: Probe, previous: Option<(int, int)>, m: Measurement): seq<int> {
    match m
    case CpuUtilization =>
      if previous.Some? && p.cpuTotal - previous.value.0 > 0
      then [Utilization(p.cpuTotal - previous.value.0, p.cpuIdle - previous.value.1)] else []
    case RamWorkingSet => [p.residentBytes]
    case EnvironmentCacheSize => [p.cacheBytes]
    case ExecutionScratchSize => [p.scratchBytes]
    case ResultSpoolSize => [p.spoolBytes]
    case PersistentDiskAvailable => [p.diskFree]
    case ProcessorTemperature => if p.temperature.Some? then [p.temperature.value] else []
  }

  /** The dictionary after one step. */
  function Extended(samples: Samples, p: Probe, previous: Option<(int, int)>): (r: Samples)
    requires Total(samples)
    ensures Total(r)
  {
    var timed :=
      if previous.Some? && p.cpuTotal - previous.value.0 > 0
      then Recorded(samples, CpuUtilization, Utilization(p.cpuTotal - previous.value.0, p.cpuIdle - previous.value.1))
      else samples;
    var sized := Recorded(
      Recorded(
        Recorded(
          Recorded(
            Recorded(timed, RamWorkingSet, p.residentBytes), EnvironmentCacheSize, p.cacheBytes),
          ExecutionScratchSize, p.scratchBytes),
        ResultSpoolSize, p.spoolBytes),
      PersistentDiskAvailable, p.diskFree);
    if p.temperature.None? then sized else Recorded(sized, ProcessorTemperature, p.temperature.value)
  }

  /** Each measurement grows by its own observations and by nothing else. */
  lemma ExtendedAt(samples: Samples, p: Probe, previous: Option<(int, int)>, m: Measurement)
    requires Total(samples)
    ensures Extended(samples, p, previous)[m] == samples[m] + Observations(p, previous, m)
  {
    hide Utilization;
  }

  method Extremes(values: seq<int>) returns (least: int, most: int)
    requires values != []
    ensures IsLeast(least, values) && IsMost(most, values)
  {
    least, most := values[0], values[0];
    for i := 1 to |values|
      invariant IsLeast(least, values[..i]) && IsMost(most, values[..i])
    {
      if values[i] < least { least := values[i]; }
      if values[i] > most { most := values[i]; }
    }
    assert values[..|values|] == values;
  }

  predicate IsLeast(v: int, values: seq<int>) {
    (exists i :: 0 <= i < |values| && values[i] == v) && forall i :: 0 <= i < |values| ==> v <= values[i]
  }

  predicate IsMost(v: int, values: seq<int>) {
    (exists i :: 0 <= i < |values| && values[i] == v) && forall i :: 0 <= i < |values| ==> values[i] <= v
  }

  predicate SummarisesValues(s: Summary, p: Policy, values: seq<int>, diagnostic: string) {
    && s.measurement == p.measurement && s.unit == p.unit && s.samples == |values|
    && match s.reading
       case Observed(lo, hi, last) =>
         values != [] && IsLeast(lo, values) && IsMost(hi, values) && last == values[|values| - 1]
       case Unavailable(text) => values == [] && text == diagnostic
  }

  predicate Summarises(s: Summary, p: Policy, samples: Samples, diagnostic: string)
    requires Total(samples)
  {
    var values := Lookup(samples, p.measurement);
    values.Some? && SummarisesValues(s, p, values.value, diagnostic)
  }

  /** One summary per policy, in its order, each of the values recorded under the policy's measurement. */
  ghost predicate AllSummarised(plan: Plan, samples: Samples, diagnostic: string, ss: seq<Summary>)
    requires Total(samples)
  {
    |ss| == |plan.policies| && forall i :: 0 <= i < |ss| ==> Summarises(ss[i], plan.policies[i], samples, diagnostic)
  }

  // ---------------------------------------------------------------------------
  // From names to the machine

  predicate Reports(s: Summary, value: int) { s.reading.Observed? && s.reading.last == value }

  /** After a sampling step the summary of each known name has the step's reading of that name as its last value:
      utilization is the busy share of the time since the step before, in basis points. */
  lemma ReportsTheReading(
    plan: Plan, before: Samples, p: Probe, previous: Option<(int, int)>, diagnostic: string, ss: seq<Summary>, k: nat)
    requires Total(before) && k < |ss| && AllSummarised(plan, Extended(before, p, previous), diagnostic, ss)
    ensures var name := plan.policies[k].measurement;
      && (name == "environment-cache-size" ==> Reports(ss[k], p.cacheBytes))
      && (name == "execution-scratch-size" ==> Reports(ss[k], p.scratchBytes))
      && (name == "result-spool-size" ==> Reports(ss[k], p.spoolBytes))
      && (name == "ram-working-set" ==> Reports(ss[k], p.residentBytes))
      && (name == "persistent-disk-available" ==> Reports(ss[k], p.diskFree))
      && (name == "processor-temperature" && p.temperature.Some? ==> Reports(ss[k], p.temperature.value))
      && (name == "cpu-utilization" && previous.Some? ==>
            var (total, idle) := (p.cpuTotal - previous.value.0, p.cpuIdle - previous.value.1);
            total > 0 && 0 <= idle <= total ==> Reports(ss[k], (total - idle) * 10_000 / total))
  {
    var name := plan.policies[k].measurement;
    if previous.Some? {
      var (total, idle) := (p.cpuTotal - previous.value.0, p.cpuIdle - previous.value.1);
      if total > 0 && 0 <= idle <= total { BusyShare(total, idle); }
    }
    hide Extended, Utilization, KeyOf;
    if KeyOf(name).Some? { LastReading(plan, before, p, previous, diagnostic, ss, k); }
  }

  /** If the step reads anything under the policy's name, the summary reports it last. */
  lemma LastReading(
    plan: Plan, before: Samples, p: Probe, previous: Option<(int, int)>, diagnostic: string, ss: seq<Summary>, k: nat)
    requires Total(before) && k < |ss| && AllSummarised(plan, Extended(before, p, previous), diagnostic, ss)
    requires KeyOf(plan.policies[k].measurement).Some?
    ensures var reading := ReadingOf(p, previous, plan.policies[k].measurement);
      reading != [] ==> Reports(ss[k], reading[|reading| - 1])
  {
    hide Extended, KeyOf, ReadingOf;
    SameReading(before, p, previous, plan.policies[k].measurement);
    assert Summarises(ss[k], plan.policies[k], Extended(before, p, previous), diagnostic);
  }

  lemma BusyShare(total: int, idle: int)
    requires 0 <= idle <= total && total > 0
    ensures Utilization(total, idle) == (total - idle) * 10_000 / total
  {
    QuotientBelow((total - idle) * 10_000, total, 10_000);
    QuotientAbove((total - idle) * 10_000, total, 0);
  }

  /** The dictionary after a run of sampling steps. */
  ghost function Sampled(probes: seq<Probe>): (samples: Samples)
    ensures Total(samples)
  {
    if probes == [] then
      NoSamplesYet();
      NO_SAMPLES
    else
      Extended(Sampled(probes[..|probes| - 1]), probes[|probes| - 1], Before(probes[..|probes| - 1]))
  }

  /** The processor times of the last step. */
  function Before(probes: seq<Probe>): Option<(int, int)> {
    if probes == [] then None else Some((probes[|probes| - 1].cpuTotal, probes[|probes| - 1].cpuIdle))
  }

  /** What a step reads under a name: nothing without a sensor, and no processor time without an earlier step. */
  function ReadingOf(p: Probe, previous: Option<(int, int)>, name: string): seq<int> {
    match name
    case "environment-cache-size" => [p.cacheBytes]
    case "execution-scratch-size" => [p.scratchBytes]
    case "result-spool-size" => [p.spoolBytes]
    case "ram-working-set" => [p.residentBytes]
    case "persistent-disk-available" => [p.diskFree]
    case "processor-temperature" => if p.temperature.Some? then [p.temperature.value] else []
    case _ =>
      if previous.Some? && p.cpuTotal > previous.value.0
      then [Utilization(p.cpuTotal - previous.value.0, p.cpuIdle - previous.value.1)] else []
  }

  function Series(probes: seq<Probe>, name: string): seq<int> {
    if probes == [] then [] else
    var prefix := probes[..|probes| - 1];
    Series(prefix, name) + ReadingOf(probes[|probes| - 1], Before(prefix), name)
  }

  const NAMES: set<string> := {
    "cpu-utilization", "environment-cache-size", "execution-scratch-size", "persistent-disk-available",
    "processor-temperature", "ram-working-set", "result-spool-size"}

  /** Over any run of steps a name is looked up if and only if it is one of the seven, and then gives the readings of
      that name, in order. */
  lemma {:induction false} LookupIsTheSeries(probes: seq<Probe>, name: string)
    ensures Lookup(Sampled(probes), name) == if name in NAMES then Some(Series(probes, name)) else None
    decreases |probes|
  {
    NamesAreKeys(name);
    if probes == [] {
      NoSamplesYet();
    } else if name in NAMES {
      var (prefix, p) := (probes[..|probes| - 1], probes[|probes| - 1]);
      hide Extended, KeyOf, ReadingOf, NAMES;
      LookupIsTheSeries(prefix, name);
      SameReading(Sampled(prefix), p, Before(prefix), name);
    }
  }

  lemma NamesAreKeys(name: string)
    ensures name in NAMES <==> KeyOf(name).Some?
  {
  }

  lemma SameReading(before: Samples, p: Probe, previous: Option<(int, int)>, name: string)
    requires Total(before) && KeyOf(name).Some?
    ensures Extended(before, p, previous)[KeyOf(name).value] ==
            before[KeyOf(name).value] + ReadingOf(p, previous, name)
  {
    ExtendedAt(before, p, previous, KeyOf(name).value);
    hide Extended, Utilization;
  }

  /** Without a sampling step every measurement is unavailable, with an empty diagnostic. */
  lemma NeverSampled(plan: Plan, ss: seq<Summary>)
    requires Total(NO_SAMPLES) && AllSummarised(plan, NO_SAMPLES, "", ss)
    ensures ss == Unsampled(plan)
  {
    NoSamplesYet();
    hide KeyOf;
    forall i | 0 <= i < |ss| ensures ss[i] == UnsampledBy(plan.policies[i]) {
      NoneOf(plan.policies[i], ss[i]);
    }
  }

  lemma NoneOf(p: Policy, s: Summary)
    requires Total(NO_SAMPLES) && Summarises(s, p, NO_SAMPLES, "")
    ensures s == UnsampledBy(p)
  {
    NoSamplesYet();
    hide KeyOf;
  }

  predicate Beyond(b: Boundary, value: int) { if b.isMinimum then value < b.value else value > b.value }

  predicate SomeBeyond(b: Boundary, values: seq<int>) { exists i :: 0 <= i < |values| && Beyond(b, values[i]) }

  /** Some recorded sample of the policy's measurement lies beyond the boundary of that measurement. */
  predicate PolicyBeyond(p: Policy, b: Boundary, samples: Samples)
    requires Total(samples)
  {
    b.measurement == p.measurement && Lookup(samples, p.measurement).Some?
    && SomeBeyond(b, Lookup(samples, p.measurement).value)
  }

  ghost predicate SampleBeyond(plan: Plan, samples: Samples)
    requires Total(samples)
  {
    exists p, b :: p in plan.policies && b in plan.boundaries && PolicyBeyond(p, b, samples)
  }

  /** Minimum and maximum decide whether any value lies beyond a boundary. */
  lemma ExtremesDecide(s: Summary, p: Policy, b: Boundary, values: seq<int>, diagnostic: string)
    requires SummarisesValues(s, p, values, diagnostic)
    ensures Violates(b, s) <==> SomeBeyond(b, values)
  {
    if s.reading.Observed? {
      var v := if b.isMinimum then s.reading.minimum else s.reading.maximum;
      var i :| 0 <= i < |values| && values[i] == v;
      assert Violates(b, s) ==> Beyond(b, values[i]);
    }
  }

  /** The breach of the summaries is a breach by a sample: minima and maxima lose nothing. */
  lemma BreachIsASample(plan: Plan, samples: Samples, diagnostic: string, ss: seq<Summary>)
    requires Total(samples) && AllSummarised(plan, samples, diagnostic, ss)
    ensures Breached(plan, ss) <==> SampleBeyond(plan, samples)
  {
    hide Violates, SomeBeyond, Lookup;
    if Breached(plan, ss) {
      var s, b :| s in ss && b in plan.boundaries && b.measurement == s.measurement && Violates(b, s);
      var k :| 0 <= k < |ss| && ss[k] == s;
      var p := plan.policies[k];
      ExtremesDecide(s, p, b, Lookup(samples, p.measurement).value, diagnostic);
      assert p in plan.policies && PolicyBeyond(p, b, samples);
    }
    if SampleBeyond(plan, samples) {
      var p, b :| p in plan.policies && b in plan.boundaries && PolicyBeyond(p, b, samples);
      var k :| 0 <= k < |plan.policies| && plan.policies[k] == p;
      ExtremesDecide(ss[k], p, b, Lookup(samples, p.measurement).value, diagnostic);
      assert ss[k] in ss && Violates(b, ss[k]);
    }
  }

  /** What the checkpoint contract asks of the values of a measurement. */
  predicate Acceptable(p: Policy, values: seq<int>, diagnostic: string) {
    if values == [] then !p.required && 0 < |diagnostic| <= 512
    else |values| <= SAFE_INTEGER_MAX && forall i :: 0 <= i < |values| ==> Safe(values[i])
  }

  ghost predicate AllAcceptable(plan: Plan, samples: Samples, diagnostic: string)
    requires Total(samples)
  {
    forall k :: 0 <= k < |plan.policies| ==>
      var values := Lookup(samples, plan.policies[k].measurement);
      values.Some? && Acceptable(plan.policies[k], values.value, diagnostic)
  }

  lemma ReadingAcceptable(p: Policy, values: seq<int>, diagnostic: string, s: Summary)
    requires SummarisesValues(s, p, values, diagnostic)
    ensures ReadingOk(p, s) <==> Acceptable(p, values, diagnostic)
  {
    if values != [] {
      var i :| 0 <= i < |values| && values[i] == s.reading.minimum;
      var j :| 0 <= j < |values| && values[j] == s.reading.maximum;
      assert values[|values| - 1] == s.reading.last;
    }
  }

  lemma AcceptedReadings(plan: Plan, samples: Samples, diagnostic: string, ss: seq<Summary>)
    requires Total(samples) && AllSummarised(plan, samples, diagnostic, ss)
    ensures AllAcceptable(plan, samples, diagnostic) <==>
              forall k :: 0 <= k < |ss| ==> ReadingOk(plan.policies[k], ss[k])
  {
    hide ReadingOk, Acceptable, SummarisesValues, Lookup;
    forall k | 0 <= k < |ss|
      ensures ReadingOk(plan.policies[k], ss[k]) <==>
              Acceptable(plan.policies[k], Lookup(samples, plan.policies[k].measurement).value, diagnostic)
    {
      ReadingAcceptable(plan.policies[k], Lookup(samples, plan.policies[k].measurement).value, diagnostic, ss[k]);
    }
  }

  lemma NamesAgree(plan: Plan, samples: Samples, diagnostic: string, ss: seq<Summary>)
    requires Total(samples) && AllSummarised(plan, samples, diagnostic, ss)
    ensures forall k :: 0 <= k < |ss| ==> ss[k].measurement == plan.policies[k].measurement
  {
  }

  lemma CoveredExactly(plan: Plan, ss: seq<Summary>)
    requires plan.policies != [] && DistinctPolicies(plan.policies) && |ss| == |plan.policies|
    requires forall k :: 0 <= k < |ss| ==> ss[k].measurement == plan.policies[k].measurement
    ensures SummariesOk(plan, ss) <==> forall k :: 0 <= k < |ss| ==> ReadingOk(plan.policies[k], ss[k])
  {
    hide ReadingOk;
    forall k | 0 <= k < |ss| ensures Covered(plan, ss[k]) <==> ReadingOk(plan.policies[k], ss[k]) {
      assert plan.policies[k] in plan.policies;
    }
    forall k | 0 <= k < |ss| ensures Accounted(ss, plan.policies[k].measurement) {
      assert ss[k] in ss;
    }
    assert forall k :: 0 <= k < |ss| ==> ss[k] in ss;
  }

  /** The summaries satisfy the checkpoint contract exactly when every measurement without samples is optional and has a
      usable diagnostic, and every sample is a safe natural number. */
  lemma SummariesAcceptable(plan: Plan, samples: Samples, diagnostic: string, ss: seq<Summary>)
    requires Total(samples) && AllSummarised(plan, samples, diagnostic, ss)
    requires plan.policies != [] && DistinctPolicies(plan.policies)
    ensures SummariesOk(plan, ss) <==> AllAcceptable(plan, samples, diagnostic)
  {
    NamesAgree(plan, samples, diagnostic, ss);
    AcceptedReadings(plan, samples, diagnostic, ss);
    CoveredExactly(plan, ss);
  }
}
