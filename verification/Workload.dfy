/** The clock of a load window: how long its loop runs, in the doubles the code computes with. */
module Workload {
  import opened Binary64
  import opened Rounding
  import opened Checkpoints
  import opened Runner

  const MANY_SECONDS: real := 1152921504606846976.0

  /** A reading of the monotonic clock since the window started. */
  type Seconds = s: real | 0.0 <= s <= MANY_SECONDS witness 0.0

  /** max(1, int(seconds * 1000)). A product below one gives one whether or not it is rounded up to it. */
  function Milliseconds(x: Seconds): (ms: int)
    ensures ms >= 1
  {
    if x * 1000.0 < 1.0 then 1 else
    Within(x * 1000.0);
    var ms := ToDouble(x * 1000.0).Floor;
    if ms < 1 then 1 else ms
  }

  predicate Targetable(duration: int, windows: int) {
    1 <= windows <= duration <= SAFE_INTEGER_MAX
  }

  lemma QuotientRange(a: int, b: int)
    requires Targetable(a, b)
    ensures Dividable(a, b) && InRange(TrueDivide(a, b) / 1000.0) && 0.0 <= TrueDivide(a, b) / 1000.0 <= TWO_53 as real
    ensures 1.0 <= TrueDivide(a, b) <= TWO_53 as real
  {
    var q := QuotientOf(a, b);
    AtLeastOneUnit(a, b, q);
    One();
    hide ToDouble, Pow2;
    ToDoubleMonotone(1.0, q);
    RelativeError(q);
    Within(TrueDivide(a, b) / 1000.0);
  }

  lemma AtLeastOneUnit(a: int, b: int, q: real)
    requires Targetable(a, b) && q * b as real == a as real
    ensures 1.0 <= q <= SAFE_INTEGER_MAX as real
  {
    GrownFactor(q, b as real, a as real);
    assert SAFE_INTEGER_MAX as real <= SAFE_INTEGER_MAX as real * b as real by {
      IntegerProduct(SAFE_INTEGER_MAX, b);
    }
    CancelLe(q, SAFE_INTEGER_MAX as real, b as real);
  }

  lemma One()
    ensures InRange(1.0) && ToDouble(1.0) == 1.0
  {
    Within(1.0);
    var e := BinadeOf(1.0);
    IntegerExact(1, e);
  }

  /** minimum_stability_duration_ms / minimum_stability_window_count / 1000. */
  function TargetSeconds(duration: int, windows: int): (x: Seconds)
    requires Targetable(duration, windows)
  {
    QuotientRange(duration, windows);
    var x := TrueDivide(duration, windows) / 1000.0;
    TargetBound(x);
    ToDouble(x)
  }

  lemma TargetBound(q: real)
    requires InRange(q) && 0.0 <= q <= TWO_53 as real
    ensures 0.0 <= ToDouble(q) <= MANY_SECONDS
  {
    hide ToDouble, InRange;
    RelativeError(q);
  }

  /** The whole milliseconds that a window reports at least if no pass fails. */
  function TargetMs(duration: int, windows: int): (ms: int)
    requires Targetable(duration, windows)
    ensures ms >= 1
  {
    Milliseconds(TargetSeconds(duration, windows))
  }

  lemma LaterIsLonger(x: Seconds, y: Seconds)
    requires x <= y
    ensures Milliseconds(x) <= Milliseconds(y)
  {
    hide ToDouble, InRange, Pow2;
    if x * 1000.0 >= 1.0 {
      Within(x * 1000.0);
      Within(y * 1000.0);
      ToDoubleMonotone(x * 1000.0, y * 1000.0);
    }
  }

  // ---------------------------------------------------------------------------
  // The loop

  /** The readings of one clock, in order. */
  ghost predicate Rising(heads: seq<Seconds>) { forall i, j :: 0 <= i <= j < |heads| ==> heads[i] <= heads[j] }

  /** The passes that a loop with this target begins, of those that the environment would let it run: up to the first
      that fails or the first reading not before the target. */
  ghost predicate Begun(target: Seconds, heads: seq<Seconds>, ends: seq<Outcome>, passes: seq<Outcome>)
    requires |heads| == |ends| + 1
  {
    && passes <= ends
    && (forall i :: 0 <= i < |passes| ==> heads[i] < target)
    && (forall i :: 0 <= i < |passes| - 1 ==> passes[i].Ran?)
    && ((passes != [] && !passes[|passes| - 1].Ran?) || heads[|passes|] >= target)
  }

  lemma {:induction false} EndIsLast(passes: seq<Outcome>)
    requires forall i :: 0 <= i < |passes| - 1 ==> passes[i].Ran?
    ensures EndOf(passes) == if passes == [] then Ran else passes[|passes| - 1]
  {
    if passes != [] && passes[0].Ran? { EndIsLast(passes[1..]); }
  }

  /** One load window against the clock: heads are the readings before each pass, ends how the passes end, finish the
      reading after the loop. It is the window of some work, with the passes the loop began, and a window without a
      failure lasts at least the target milliseconds. */
  method MeasureWindow(
    plan: Plan, heads: seq<Seconds>, ends: seq<Outcome>, finish: Seconds, overheadMs: nat, sampled: seq<Summary>)
    returns (window: Window, work: Work)
    requires Targetable(plan.minimumStabilityMs, plan.minimumWindows)
    requires plan.targetMs == TargetMs(plan.minimumStabilityMs, plan.minimumWindows)
    requires |heads| == |ends| + 1 && Rising(heads + [finish])
    requires heads[|ends|] >= TargetSeconds(plan.minimumStabilityMs, plan.minimumWindows)
    ensures Begun(TargetSeconds(plan.minimumStabilityMs, plan.minimumWindows), heads, ends, work.passes)
    ensures window == WorkloadWindow(plan, work)
    ensures window.durationMs == Milliseconds(finish) && window.overheadMs == overheadMs
    ensures window.summaries == if work.passes == [] then Unsampled(plan) else sampled
  {
    hide TargetSeconds, TargetMs, Milliseconds;
    var target := TargetSeconds(plan.minimumStabilityMs, plan.minimumWindows);
    var completed, begun, ended := 0, 0, Ran;
    while ended.Ran? && heads[begun] < target
      invariant begun <= |ends| && completed == (if ended.Ran? then begun else begun - 1) >= 0
      invariant ended.Ran? <==> begun == 0 || ends[begun - 1].Ran?
      invariant forall i :: 0 <= i < completed ==> ends[i].Ran?
      invariant forall i :: 0 <= i < begun ==> heads[i] < target
      invariant begun > 0 ==> ended == ends[begun - 1]
      decreases |ends| - begun
    {
      ended := ends[begun];
      begun := begun + 1;
      if ended.Ran? { completed := completed + 1; }
    }
    var elapsed := Milliseconds(finish);
    window := Window(completed, elapsed, overheadMs, if begun == 0 then Unsampled(plan) else sampled);
    var passes := ends[..begun];
    EndIsLast(passes);
    if ended.Ran? { TargetReached(plan, heads, begun, finish); }
    work := Work(passes, if ended.Ran? then elapsed - plan.targetMs else elapsed, overheadMs, sampled);
    CompletedPasses(passes, completed);
  }

  lemma TargetReached(plan: Plan, heads: seq<Seconds>, begun: nat, finish: Seconds)
    requires Targetable(plan.minimumStabilityMs, plan.minimumWindows)
    requires plan.targetMs == TargetMs(plan.minimumStabilityMs, plan.minimumWindows)
    requires begun < |heads| && Rising(heads + [finish])
    requires heads[begun] >= TargetSeconds(plan.minimumStabilityMs, plan.minimumWindows)
    ensures Milliseconds(finish) >= plan.targetMs
  {
    hide TargetSeconds, Milliseconds;
    var all := heads + [finish];
    assert all[begun] <= all[|heads|];
    LaterIsLonger(TargetSeconds(plan.minimumStabilityMs, plan.minimumWindows), finish);
  }

  lemma {:induction false} CompletedPasses(passes: seq<Outcome>, completed: nat)
    requires completed <= |passes| && (forall i :: 0 <= i < completed ==> passes[i].Ran?)
    requires completed == |passes| || (completed == |passes| - 1 && !passes[completed].Ran?)
    ensures PassesDone(passes) == completed
  {
    if completed > 0 { CompletedPasses(passes[1..], completed - 1); }
  }

  // ---------------------------------------------------------------------------
  // What the target comes to

  /** Up to 2^50 milliseconds a window, the target is the whole quotient give or take one. */
  lemma TargetNear(duration: int, windows: int)
    requires Targetable(duration, windows) && duration / windows < 1125899906842624
    ensures duration / windows - 1 <= TargetMs(duration, windows) <= duration / windows + 1
  {
    hide ToDouble, InRange, TrueDivide, Milliseconds, Pow2;
    QuotientRange(duration, windows);
    var q := QuotientOf(duration, windows);
    var k := WholePart(duration, windows, q);
    var a := ToDouble(q);
    RelativeError(q);
    RelativeError(a / 1000.0);
    NearTarget(q, a, TargetSeconds(duration, windows), k);
  }

  lemma WholePart(duration: int, windows: int, q: real) returns (k: int)
    requires Targetable(duration, windows) && q * windows as real == duration as real
    ensures k == duration / windows >= 1 && k as real <= q < k as real + 1.0
  {
    k := duration / windows;
    assert duration == k * windows + duration % windows;
    QuotientBetween(q, k, duration % windows, windows);
    AtLeastOneUnit(duration, windows, q);
  }

  lemma NearTarget(q: real, a: real, x: Seconds, k: int)
    requires 1 <= k < 1125899906842624 && k as real <= q < k as real + 1.0
    requires -q <= TWO_53 as real * (a - q) <= q
    requires -(a / 1000.0) <= TWO_53 as real * (x - a / 1000.0) <= a / 1000.0
    ensures k - 1 <= Milliseconds(x) <= k + 1
  {
    hide ToDouble, InRange, Pow2;
    var p := x * 1000.0;
    if p >= 1.0 {
      Within(p);
      RelativeError(p);
    }
  }

  /** Dividing evenly does not help: two windows of a plan for 2002 milliseconds may last 1000 milliseconds each. */
  lemma EvenTargetFallsShort()
    ensures Targetable(2002, 2) && TargetMs(2002, 2) == 1000
  {
    hide ToDouble, InRange, Pow2, TrueDivide, ToGrid, Milliseconds;
    QuotientRange(2002, 2);
    var q := QuotientOf(2002, 2);
    assert q == 1001.0;
    var e := BinadeOf(q);
    IntegerExact(1001, e);
    SecondsOf1001();
    MillisecondsOf1001();
  }

  const SHORT_SECONDS: real := 4508103226997866.0 / 4503599627370496.0

  /** In steps of u, t to a unit, q is nearest to m. */
  ghost predicate NearStep(q: real, u: real, t: real, m: int) {
    u > 0.0 && u * t == 1.0 && -1.0 < 2.0 * (q * t - m as real) < 1.0
  }

  lemma OnSteps(q: real, u: real, t: real, m: int)
    requires NearStep(q, u, t, m)
    ensures ToGrid(q, u) * t == m as real
  {
    hide NearestInteger;
    Quotient(q, t, u);
    var x := q / u;
    NearestWithin(x, m);
    Associate(m as real, u, t);
    SameProduct(ToGrid(q, u), m as real * u, t);
  }

  lemma AtExponent(q: real, e: int, t: real, m: int) returns (v: real)
    requires InRange(q) && Pow2(e) <= q < Pow2(e + 1) && NearStep(q, Pow2(e - 52), t, m)
    ensures v == ToDouble(q) && v * t == m as real
  {
    hide Pow2, ToDouble, InRange, ToGrid, NearStep;
    ExponentAt(q, e);
    DoubleIs(q, e);
    v := ToGrid(q, Pow2(e - 52));
    OnSteps(q, Pow2(e - 52), t, m);
  }

  lemma SecondsOf1001()
    ensures InRange(1.001) && ToDouble(1.001) == SHORT_SECONDS
  {
    Within(1.001);
    PowerZeroAndOne();
    PowerIsPow2(52);
    PowerValues();
    hide Pow2, Power;
    var v := AtExponent(1.001, 0, 4503599627370496.0, 4508103226997866);
  }

  lemma PowerZeroAndOne()
    ensures Pow2(0) == 1.0 && Pow2(1) == 2.0
  {
  }

  lemma MillisecondsOf1001()
    ensures 0.0 <= SHORT_SECONDS <= MANY_SECONDS && Milliseconds(SHORT_SECONDS) == 1000
  {
    var p := SHORT_SECONDS * 1000.0;
    Within(p);
    FortyThree();
    hide Pow2, ToDouble, InRange;
    var v := AtExponent(p, 9, 8796093022208.0, 8804889115230207);
  }

  lemma FortyThree()
    ensures Pow2(-43) * 8796093022208.0 == 1.0 && Pow2(9) == 512.0 && Pow2(10) == 1024.0
  {
    PowerIsPow2(43);
    PowerIsPow2(9);
    PowerIsPow2(10);
    PowerValues();
    PowerSum(40, 3);
    assert Power(3) == 8 && Power(9) == 512 && Power(10) == 1024;
  }
}
