# Verified models of the conformance control plane

This project models the state-changing and arithmetic core of the repository in Dafny and proves what it keeps over every run
or every input. Each module follows one source file or one concern; methods carry the source's loops and in-place updates and
are proved against functions and predicates, and the lemmas state what those imply.

**The sustained operating envelope.** `Checkpoints` holds the checkpoint records, the chain contract and its validator;
`Runner` the resumable program over a checkpoint root; `Sampler` the window sampler. `Protocol` lets any number of runner
processes start, publish and crash in any order over one root, and `Refinement` shows that a session of the program,
interleaved with rivals, is a run of that protocol. `ChainLaws`, `Completion`, `Schedules`, `Loading` and `Liveness` say what
accepted chains look like and exactly which states and plans can still complete. `ChainContract` says of whole chains what the
validator checks record by record. `Report`, `Verdict`, `Throughput` and `Binary64` treat the report, the independent
analysis, its order statistics and its one floating-point division; `CheckpointNames` the names the loader sorts; `Witnesses`
builds the runs that reach what the others warn of, `Exhibits` accepted chains that need not come from the runner.

What a session meets in a load window is a `Work`: how the passes of its loop end, and how long the window lasts beyond its
target time. `Workload` is that loop against a clock of doubles, and yields the target: `Plan.targetMs`, no field of the plan
record, stands for `Workload.TargetMs` of the plan's stability duration and window count, and every result holds for whatever
it is. So a window without a failure lasts at least that long and completes a pass, or was never sampled and is refused.

Some facts about the code that its text does not show:

- A qualification whose last window is published but whose session ends before the completion record can never complete: the
  next session must append a recovery, and the contract allows no completion after a recovery (`Completion.LateCrashIsFatal`;
  `Witnesses.LateCrashHappens` reaches such a state).
- A reachable state can still complete exactly when no failure is counted, its last window has not been abandoned like this,
  the sessions it still takes can load the chain before the millionth file, and its records, work and target times can be
  counted in safe integers (`Liveness.CompletableExactly`).
- Without a crash a plan completes if and only if its R recoveries are at most half of its W windows, rounded up, its last
  session loads W / 2 + 3 R - 1 records, at most 999999, and its records and target times can be counted
  (`Liveness.UndisturbedExactly`); plans with more recoveries need crashes to complete.
- The analysis raises on a completed qualification that measured no steady-load window, and the report passes some of those
  (`Report.AnalysisOfCompleted`, `Witnesses.AnalysisRaisesOnPassedRuns`). It never divides by zero on one, as each of its
  windows completed a pass; it does on some chains that the validator accepts (`Exhibits.ZeroMedianIsAccepted`).
- The stability duration of a plan that can complete is met by every completion iff its windows' target times add up to it
  (`Witnesses.StabilityDurationExactly`). Dividing evenly is not enough: rounding in seconds makes the target time of two
  windows for 2002 milliseconds 1000 (`Workload.EvenTargetFallsShort`).
- The analysis' float degradation is one basis point too low exactly when the fraction of basis points is at most half a unit
  in the last place of its floor (`Throughput.FloatExactly`); there is an accepted chain on which the analysis then
  contradicts the report (`Exhibits.AnalysisDisagrees`).

**Promotion and certification.** `Promotion` models a clone and a remote whose branches others move between any two commands;
`Certification` the manifest, its closure roots and what an accepted envelope says about two commits. The check that the
envelope changes only its manifest reads the names of a diff; git's rename detection hides a removed file whose place the
manifest takes, so the trees agree elsewhere exactly when no file was removed (`Certification.OnlyTheManifestChanged`).

**The denominator compiler.** `Apportionment` is largest-remainder apportionment, in the code's decimals of 28 digits, which
`Decimal28` models; `Rounding` is what they share with doubles. The code keeps the promise of largest remainders on the exact
quotas while every product of total and weight has at most 28 digits and a unit in the last of the 28 digits of its quotient
is less than one part in the sum of weights (`Apportionment.KeepsThePromise`), so whenever the products are below 10^27
(`Apportionment.SmallIsPrecise`); below 10^28 it need not (`Apportionment.DigitsRunOut`). Among equal exact fractions its
order is not that of the names but that of the last kept digits (`Apportionment.TiesFollowDigits`), and a total beyond 28
digits need not be spent (`Apportionment.LargeTotalsLeak`). `Obligations` is the derivation of obligations, the two forms of
applicability and the coordinate counters. The direct test accepts coordinates whose emitted predicate can never hold exactly
when a search-iteration obligation fell back to compiling (`Obligations.AcceptedEvaluates`). That takes a feature without any
search operation for which search iteration is not prohibited, such as a compile-only one; the shipped tables have none, as
their only group without a search operation is of class replacement (tools/semantics/compile_semantic_baseline.py:547-550).

**Campaign reconciliation.** `Reconciliation` is the partition loop with deduplicated bytes, `Shard` the two-route execution
of a shard, which uses every answer once exactly when its identifiers are distinct or it never returns
(`Shard.UsesAllExactly`), `Census` the census bounds in the same decimals, `Identifiers` the version 7 layout. `Sorting`,
`Sums` and `Options` are shared.

Hashes are ideal: a digest is the content it was taken of, so equal digests mean equal contents. The clock, fresh identifiers,
the ends of passes, the remote and the files of other processes are parameters of the methods that use them; every error of the
code is a refusal. The samples behind a load window are a parameter of its `Work`; what the sampler makes of samples is proved
in `Sampler`. Two remarks follow from ideal hashes alone: equal closure roots come from equal collections of entries
(`Certification.RootCommits`), and one root fixes source, payload and artifact bytes (`Certification.RootPinsCertificate`).

## Model

| member | source | states |
|---|---|---|
| `Checkpoints.ValidateCheckpointChain` | control-plane/python/regex_conformance_control_plane/operating_envelope.py:468-666 | the one-pass validator with its running identity sets accepts exactly the nonempty chains of a valid plan in which every record may follow its predecessors |
| `Checkpoints.MeasurementSummaries` | control-plane/python/regex_conformance_control_plane/operating_envelope.py:384-425 | accepted iff there is exactly one well-formed summary per policy measurement and no other |
| `Checkpoints.ValidateWindow` | control-plane/python/regex_conformance_control_plane/operating_envelope.py:597-642 | window present exactly in window phases, bounded, fully summarised, and the claimed breach is the measured one |
| `Checkpoints.CheckSession` | control-plane/python/regex_conformance_control_plane/operating_envelope.py:577-589 | session and attempt change only at a recovery, to the next number and an attempt never used before |
| `Checkpoints.CheckCounters` | control-plane/python/regex_conformance_control_plane/operating_envelope.py:643-657 | counters are the previous ones plus this record's contribution and meet the two final guards |
| `Checkpoints.BoundaryBreached` | control-plane/python/regex_conformance_control_plane/operating_envelope.py:617-629 | the validator's pass over boundaries finds a breach iff some observed measurement lies outside its boundary |
| `Checkpoints.ResourceBoundaryBreach` | tools/control_plane/run_sustained_operating_envelope.py:415-429 | the producer's pass over summaries, stopping early, returns 1 for the same condition |
| `Checkpoints.DigestPinsChain` | control-plane/python/regex_conformance_control_plane/operating_envelope.py:557-563 | two valid chains whose last digests agree are equal |
| `ChainContract.ValidExactly` | control-plane/python/regex_conformance_control_plane/operating_envelope.py:540-657 | a chain is accepted if and only if, as a whole, it is numbered, hashed and linked, of one qualification, without a repeated identifier, chronological, one attempt to a session and one session to a recovery, a word of the phase grammar, measured as planned, and every counter is the sum or number it stands for |
| `ChainContract.PlanExactly` | control-plane/python/regex_conformance_control_plane/operating_envelope.py:133-253 | a plan is valid iff nothing in it is named twice, every boundary has a measurement, some measurement is required, and each number lies in its range |
| `ChainContract.SameAttemptSameSession` | control-plane/python/regex_conformance_control_plane/operating_envelope.py:577-589 | two records of an accepted chain have the same attempt iff they have the same session, however far apart |
| `ChainContract.WordsExactly` | control-plane/python/regex_conformance_control_plane/operating_envelope.py:486-493 | the transition table and the phase grammar, with its repeatable baseline, describe the same words |
| `ChainContract.MeasuredExactly` | control-plane/python/regex_conformance_control_plane/operating_envelope.py:597-642 | the window checks accept exactly windows in window phases whose summaries are those of the policies in some order, and whose breach count is 1 iff an observed extreme is on the wrong side of a boundary |
| `ChainLaws.CountersAreFolds` | control-plane/python/regex_conformance_control_plane/operating_envelope.py:643-653 | every counter of a valid chain is the fold of all contributions; event counters count events; the session index is one plus the recoveries |
| `ChainLaws.ResumesFollowInterruptions` | control-plane/python/regex_conformance_control_plane/operating_envelope.py:486-493 | interruptions exceed resumes by one exactly while the chain ends in an interruption; completions count the final record |
| `ChainLaws.GuardsAreRedundant` | control-plane/python/regex_conformance_control_plane/operating_envelope.py:654-657 | the guards on resumes and completions are implied by the other checks |
| `ChainLaws.AdjacentWord` | control-plane/python/regex_conformance_control_plane/operating_envelope.py:486-493 | pairwise transitions give the phase grammar: baseline, windows, interruption and recovery cycles, at most a final completion |
| `Runner.CheckpointRoot.WriteNew` | tools/control_plane/run_sustained_operating_envelope.py:85-106 | publishes iff the name is free and never overwrites |
| `Runner.CheckpointRoot.LoadCheckpointChain` | control-plane/python/regex_conformance_control_plane/operating_envelope.py:669-679 | loads exactly contiguous, canonically named, valid chains that are short enough for names to sort by number |
| `ChainContract.LoadableExactly` | control-plane/python/regex_conformance_control_plane/operating_envelope.py:669-679 | a directory loads iff it holds the files 1 to n, n from one to 999999, of a fit plan and a lawful chain |
| `Runner.Process.AppendCheckpoint` | tools/control_plane/run_sustained_operating_envelope.py:432-494 | memory and disk grow by the same record, or neither changes; it happens iff the extended chain is valid and the name is free |
| `Runner.Process.Accumulate` | tools/control_plane/run_sustained_operating_envelope.py:446-465 | the producer's counter updates, field by field |
| `Schedules.AdvancedIsPlus` | tools/control_plane/run_sustained_operating_envelope.py:446-465 | the producer's counter arithmetic equals the validator's contribution for every record whose window matches its phase |
| `Runner.Process.MeasureWindow` | tools/control_plane/run_sustained_operating_envelope.py:687-718 | one loop iteration is one step of the session, including the fail-closed exit and the decision to pause |
| `Runner.PausesHalfway` | tools/control_plane/run_sustained_operating_envelope.py:686-706 | after a clean window the session pauses iff interruptions are due and twice the windows plus one reach the planned windows |
| `Runner.RecordContinues` | tools/control_plane/run_sustained_operating_envelope.py:619-684 | which qualification, attempt, session, time and window a record carries: a first record opens a qualification, a recovery a session, others go on |
| `Runner.RecordDecides` | tools/control_plane/run_sustained_operating_envelope.py:657-729 | the published record alone decides how the session ends or goes on |
| `Runner.LoadExactly` | tools/control_plane/run_sustained_operating_envelope.py:619-660 | which files a session takes up, refuses or leaves alone, from the last file |
| `Runner.Process.RunSession` | tools/control_plane/run_sustained_operating_envelope.py:619-729 | the whole program leaves the verdict and the files of the session function, whatever other processes publish in between |
| `Runner.Process.MeasureWork` | tools/control_plane/run_sustained_operating_envelope.py:364-412 | the passes of one load window up to the first that fails: completed passes, duration from the target time on, summaries, and the failure counted |
| `Runner.FirstFailureDecides` | tools/control_plane/run_sustained_operating_envelope.py:373-412 | the first failing pass decides work, duration and which failure is counted; without one the window lasts from the target time on |
| `Workload.MeasureWindow` | tools/control_plane/run_sustained_operating_envelope.py:364-412 | the loop against a rising clock begins the passes up to the first failure or the target, and its window is that of some work: without a failure it lasts at least the target time |
| `Workload.TargetNear` | tools/control_plane/run_sustained_operating_envelope.py:370-372 | up to 2^50 ms a window the target time, divided and scaled in doubles, is the whole quotient give or take one |
| `Workload.EvenTargetFallsShort` | tools/control_plane/run_sustained_operating_envelope.py:370-400 | the witness that an even division can lose a millisecond a window |
| `Refinement.SessionIsARun` | tools/control_plane/run_sustained_operating_envelope.py:619-729 | a session of the program, once loaded, interleaved with rival processes is a run of the protocol |
| `Refinement.ProgramIsARun` | tools/control_plane/run_sustained_operating_envelope.py:619-729 | from its load on, the whole program in any state of the protocol leaves the files of a protocol run that begins with its start, and is killed iff its process is still there |
| `Protocol.OneChain` | tools/control_plane/run_sustained_operating_envelope.py:446-494 | over every schedule of starts, publications and crashes the files are contiguous, form one valid hash chain, and every live private chain is a prefix of it |
| `Protocol.PublishedStays` | tools/control_plane/run_sustained_operating_envelope.py:85-106 | no later event changes or removes a published record |
| `Protocol.StaleNeverPublishes` | tools/control_plane/run_sustained_operating_envelope.py:85-106 | a process that has been appended past never publishes again, unless it is restarted |
| `Protocol.ReachedWord` | tools/control_plane/run_sustained_operating_envelope.py:657-729 | the phases of every reachable chain lie in the grammar, with nothing after a completion |
| `Protocol.CompletionMeans` | tools/control_plane/run_sustained_operating_envelope.py:686-729 | a reachable completion has no failure, exactly the planned windows, every interruption resumed, at least the planned number of them, and is the last record |
| `Completion.HopelessForever` | tools/control_plane/run_sustained_operating_envelope.py:657-729 | from a state with a counted failure, or with all windows but no session able to append the completion, no schedule completes |
| `Completion.LateCrashIsFatal` | tools/control_plane/run_sustained_operating_envelope.py:661-729 | losing the only up-to-date session after the last window makes completion impossible |
| `Witnesses.LateCrashHappens` | tools/control_plane/run_sustained_operating_envelope.py:657-718 | under every plan that can complete at all some schedule reaches a state that is not yet hopeless and in which that crash is fatal |
| `CheckpointNames.SortedByNumber` | control-plane/python/regex_conformance_control_plane/operating_envelope.py:673-678 | sorted by name, files 1 to n stand in numeric order iff n is below a million |
| `Liveness.CompletableExactly` | tools/control_plane/run_sustained_operating_envelope.py:657-729 | in every reachable state, some continuation completes if and only if the state is not hopeless, the sessions it still takes can load the chain, and the records it still takes, with their windows at the target time, can be counted |
| `Liveness.PlanCompletable` | tools/control_plane/run_sustained_operating_envelope.py:657-729 | a plan can complete at all if and only if 2 R - 1 records can be loaded, W + 2 R + 2 numbered and W target times counted, for R recoveries and W windows |
| `Loading.TooLateForever` | control-plane/python/regex_conformance_control_plane/operating_envelope.py:669-679 | once the sessions still needed cannot load the chain, no schedule completes |
| `Loading.TooManyForever` | control-plane/python/regex_conformance_control_plane/operating_envelope.py:643-653 | once the records still needed, their work or their target times cannot be counted, no schedule completes |
| `Liveness.UndisturbedExactly` | tools/control_plane/run_sustained_operating_envelope.py:686-729 | a plan completes without any crash if and only if its recoveries are at most half of its windows rounded up, half of the windows rounded down and three loads a recovery less one can be loaded, and the records and target times can be counted |
| `Sampler.WindowSampler.Sample` | tools/control_plane/run_sustained_operating_envelope.py:263-292 | one step turns dictionary, previous processor times, diagnostic and overhead into the specified next state |
| `Sampler.ExtendedAt` | tools/control_plane/run_sustained_operating_envelope.py:263-292 | each measurement grows by its own observation and nothing else |
| `Sampler.ReportsTheReading` | tools/control_plane/run_sustained_operating_envelope.py:263-325 | after a step the summary of each of the seven names has that step's reading of the name as its last value |
| `Sampler.LookupIsTheSeries` | tools/control_plane/run_sustained_operating_envelope.py:263-307 | over any run of steps the seven names, and no others, are known, and each gives its own readings in order |
| `Sampler.UtilizationIsTheRatio` | tools/control_plane/run_sustained_operating_envelope.py:266-273 | the clamped utilisation is the floor of the busy ratio, and the clamp acts only on inconsistent idle times |
| `Sampler.WindowSampler.Summaries` | tools/control_plane/run_sustained_operating_envelope.py:294-325 | exact minimum, maximum, last and count per policy; an error iff a policy names an unknown measurement |
| `Sampler.NeverSampled` | tools/control_plane/run_sustained_operating_envelope.py:294-325 | without a sampling step every measurement is summarised as unavailable, which is what a load window without a pass reports |
| `Sampler.BreachIsASample` | tools/control_plane/run_sustained_operating_envelope.py:294-325 | the summaries are in breach iff some recorded sample of a named measurement is beyond its boundary |
| `Sampler.SummariesAcceptable` | tools/control_plane/run_sustained_operating_envelope.py:294-325 | the validator accepts the sampler's summaries iff measurements without samples are optional with a usable diagnostic and samples are safe naturals |
| `Binary64.CeilOfTrueDivide` | tools/control_plane/analyze_sustained_throughput.py:199-201 | for a numerator below 2^53 the ceiling of the rounded quotient is the exact integer ceiling |
| `Binary64.CeilExactly` | tools/control_plane/analyze_sustained_throughput.py:199-201 | for quotients below 2^52 the rounded ceiling is the exact one iff the quotient is whole, below one, or its fraction exceeds half a unit in the last place of its floor; otherwise it is one less |
| `Throughput.FloatExactly` | tools/control_plane/analyze_sustained_throughput.py:176-191 | float and integer degradation agree iff reference and minimum meet that condition, and otherwise the float is one basis point low |
| `Throughput.FloatIsExact` | tools/control_plane/analyze_sustained_throughput.py:176-191 | they agree for every reference below 2^40 |
| `Throughput.FloatLosesABasisPoint` | tools/control_plane/analyze_sustained_throughput.py:176-191 | the witness: a reference just above 2^40 where they differ |
| `Throughput.IntegerDegradation` | control-plane/python/regex_conformance_control_plane/operating_envelope.py:682-704 | on integer rates the report's ratio is the analysis' exact degradation |
| `Throughput.DegradationAtMost` | tools/control_plane/analyze_sustained_throughput.py:42-52 | the exact degradation is the least whole number of basis points that the shortfall does not exceed |
| `Throughput.SortCommutes` | tools/control_plane/analyze_sustained_throughput.py:54-56 | a monotone map commutes with sorting |
| `Throughput.LowerMedianHalves` | tools/control_plane/analyze_sustained_throughput.py:54-56 | the lower median is the one value of the list with fewer than half below it and at least half not above it |
| `Throughput.MedianHalves` | control-plane/python/regex_conformance_control_plane/operating_envelope.py:702 | the same of the report's integer rates |
| `Throughput.ReportedStatistics` | tools/control_plane/analyze_sustained_throughput.py:135-161 | median and minimum of the rounded-up rates are the rounded-up median and minimum of the exact rates |
| `Throughput.ReportedDegradation` | tools/control_plane/analyze_sustained_throughput.py:42-62 | the degradation of the reported rates is within 10^4/(1000 m) + 1 basis points of the exact one, m the median rate |
| `Throughput.FirstCrossing` | tools/control_plane/analyze_sustained_throughput.py:176-191 | returns the first prefix over the threshold with its degradation, or none iff no prefix is over it |
| `Throughput.CrossingExactly` | tools/control_plane/analyze_sustained_throughput.py:176-191 | for rates below 2^40 the crossing is the first prefix in which some rate falls short of the median by more than the limit, in exact products, and its degradation is the least limit that this prefix keeps |
| `Report.CoverageAlwaysPasses` | control-plane/python/regex_conformance_control_plane/operating_envelope.py:707-745 | the measurement-coverage check holds for every chain the report accepts |
| `Report.CompletedReport` | control-plane/python/regex_conformance_control_plane/operating_envelope.py:730-760 | for every reachable completion five of the nine checks hold, and stability duration too if the windows' target times add up to it; throughput stability is the degradation alone; the verdict is the other four |
| `Verdict.VerdictExactly` | control-plane/python/regex_conformance_control_plane/operating_envelope.py:682-757 | an accepted chain passes iff it is complete, no record has a failure, its windows, interruptions, load and recovered time reach the plan, overhead and shortfall below the median stay within it as products, and every load window did work; it is in progress iff nothing failed or completed |
| `Verdict.NumbersExactly` | control-plane/python/regex_conformance_control_plane/operating_envelope.py:682-705 | the report's median, minimum, degradation and overhead, counted over the rates and as the least limits that the products keep; all zero without load |
| `Verdict.FaultsExactly` | tools/control_plane/analyze_sustained_throughput.py:131-212 | which error the analysis of an accepted chain raises, from its records: a window begun too early, a rate too fast, most windows idle, or a phase missing |
| `Report.RatesPositive` | tools/control_plane/run_sustained_operating_envelope.py:373-400 | on a published chain without failures every reported rate is positive, and so are median and minimum |
| `Report.Analyse` | tools/control_plane/analyze_sustained_throughput.py:131-212 | which error the analysis raises if any; otherwise crossing and degradations, and reproduction of the report's degradation iff the float condition holds |
| `Report.ReportedSafe` | tools/control_plane/analyze_sustained_throughput.py:158-161 | every rate of an accepted chain is within the range the arithmetic is modelled for |
| `Report.AnalysisOfCompleted` | tools/control_plane/analyze_sustained_throughput.py:135-212 | on a reachable completion it fails exactly for a window that starts before the first date, an oversized rate or no steady-load window, and never divides by zero |
| `Witnesses.AnalysisRaisesOnPassedRuns` | tools/control_plane/analyze_sustained_throughput.py:202-212 | for every plan with room some completion, of windows as long as the program makes them, passes the report and makes the analysis raise for want of a steady-load window |
| `Witnesses.StabilityDurationExactly` | control-plane/python/regex_conformance_control_plane/operating_envelope.py:745-746 | for a plan that can complete, the stability-duration check holds on every reachable completion iff the target times of its windows add up to the stability duration |
| `Exhibits.ZeroMedianIsAccepted` | tools/control_plane/analyze_sustained_throughput.py:199-201 | some accepted chain, not of the runner, makes the analysis divide by zero |
| `Exhibits.AnalysisDisagrees` | tools/control_plane/analyze_sustained_throughput.py:176-212 | on some accepted chain the analysis returns an independent degradation of 9999 where the report has 10000 |
| `Certification.RootIgnoresOrder` | tools/ci/local_certification.py:138-141 | all orders of a list give one closure root exactly when entries of one role and path are equal |
| `Certification.RootOrders` | tools/ci/local_certification.py:138-141 | the roots hash entries by role and then path, and results by identifier |
| `Certification.VerifyManifest` | tools/ci/local_certification.py:357-484 | accepts exactly the manifests that satisfy every modelled check, and returns their payload |
| `Certification.AcceptedExactly` | tools/ci/local_certification.py:357-484 | a payload is accepted iff it has none of the listed defects, entry by entry and test by test: one failed test refuses it |
| `Certification.DiffExactly` | tools/ci/local_certification.py:476-481 | the diff names only the manifest iff the trees differ and are equal without it, or without it and one similar removed file |
| `Certification.ArtifactsAreCertified` | tools/ci/local_certification.py:373-377 | every artifact an accepted envelope binds has the bound bytes in the certified source commit too, and none binds the manifest |
| `Certification.OnlyTheManifestChanged` | tools/ci/local_certification.py:476-481 | source and envelope trees agree on every other path iff no file of the source is missing from the envelope |
| `Certification.RenamesHideARemoval` | tools/ci/local_certification.py:479-481 | whatever the two trees share and the payload binds in it, an envelope whose manifest takes the place of a similar file is accepted by every modelled check although its tree lost that file |
| `Promotion.Clone.BuildPlan` | tools/ci/promotion_policy.py:69-134 | a plan is returned iff the planning conditions hold, and planning pushes nothing and keeps local branches |
| `Promotion.PlannedCommit` | tools/ci/promotion_policy.py:91-122 | the planned commit's only parent is the certified source, itself on top of the remote branch; bound artifacts are the same in both |
| `Promotion.PlanExactly` | tools/ci/promotion_policy.py:69-134 | a plan is accepted iff the worktree is clean on a codex/ branch at the verified commit, its envelope has no defect, and at least one step down single parents leads to the remote main |
| `Promotion.PlannedRange` | tools/ci/promotion_policy.py:118-122 | for every accepted plan the promoted range is a nonempty line of single-parent commits that leads from the envelope down to the remote branch |
| `Promotion.NoMergesIsAWalk` | tools/ci/promotion_policy.py:118-122 | a range on top of its target is free of merges iff single parents lead from its end down to the target |
| `Promotion.RangeIsALine` | tools/ci/promotion_policy.py:118-122 | a promoted range without merges is a line of commits on top of the target |
| `Promotion.Clone.Promote` | tools/ci/promotion_policy.py:137-167 | exact success condition over every interleaving; success means local, tracking and observed branch are the commit; at most one remote write, a fast-forward to it; local branches only move forward |
| `Promotion.ClearsExactly` | tools/ci/promotion_policy.py:137-167 | the condition of success in the refs of clone and remote, step by step: which commits main stood at before, during and after the push |
| `Promotion.OnePush` | tools/ci/promotion_policy.py:161-167 | what may have been written is one push of the planned commit to the planned branch, over nothing or an ancestor |
| `Promotion.LocalHistoryKept` | tools/ci/promotion_policy.py:148-156 | whatever promotion does to the clone, no local history is lost and no other local branch moves, comes or goes |
| `Promotion.NothingBecomesUnreachable` | tools/ci/promotion_policy.py:161-167 | what was reachable from the remote branch when the push landed is reachable from the promoted commit |
| `Promotion.UndisturbedPromotion` | tools/ci/promotion_policy.py:137-167 | with an idle remote a planned promotion succeeds iff local main, if any, is behind the planned base |
| `Promotion.RivalsWin` | tools/ci/promotion_policy.py:147-161 | a promotion that returns saw only ancestors of its commit on the remote branch up to its push |
| `Apportionment.LargestRemainder` | tools/semantics/compile_semantic_baseline.py:1557-1566 | for every dictionary order and all inputs: an error iff a nonempty dictionary sums to zero, else exactly what the code's order and slice hand out; the promise of largest remainders whenever every quotient is precise |
| `Apportionment.Unique` | tools/semantics/compile_semantic_baseline.py:1557-1566 | what the code hands out is one allocation on all inputs, so dictionary order cannot matter |
| `Apportionment.KeepsThePromise` | tools/semantics/compile_semantic_baseline.py:1559-1565 | while products have at most 28 digits and the steps of their quotients are less than a part in the denominator: counts sum to the total, each is the floor of the exact quota or one more, extras go to the largest exact fractions |
| `Apportionment.SmallIsPrecise` | tools/semantics/compile_semantic_baseline.py:1559-1560 | products below 10^27 meet that condition whatever the weights |
| `Apportionment.TiesFollowDigits` | tools/semantics/compile_semantic_baseline.py:1559-1563 | the witness that equal exact fractions are ordered by their kept digits and not by name |
| `Apportionment.DigitsRunOut` | tools/semantics/compile_semantic_baseline.py:1559-1565 | the witness that exact products alone, below 10^28, do not keep the promise: a larger exact fraction goes without the unit |
| `Apportionment.LargeTotalsLeak` | tools/semantics/compile_semantic_baseline.py:1559-1565 | the witness that a total of 30 digits is not spent |
| `Decimal28.QuotientKeeps` | tools/semantics/compile_semantic_baseline.py:1559-1560 | a quotient whose last of 28 digits is finer than a d-th keeps its whole part when rounded, and its fraction is within half a d-th of the exact one |
| `Decimal28.FractionsFollowRemainders` | tools/semantics/compile_semantic_baseline.py:1562 | there larger exact remainders have larger rounded fractions |
| `Apportionment.QuotaRule` | tools/semantics/compile_semantic_baseline.py:1557-1566 | under the promise every count is the floor or ceiling of the exact quota; an integral quota is met exactly |
| `Apportionment.WeightMonotone` | tools/semantics/compile_semantic_baseline.py:1557-1566 | under the promise a larger weight never gets fewer units |
| `Apportionment.LeastDeviation` | tools/semantics/compile_semantic_baseline.py:1557-1566 | under the promise no integer allocation of the total, negative counts included, has a smaller sum of absolute deviations from quota |
| `Obligations.BuildObligations` | tools/semantics/compile_semantic_baseline.py:1307-1328 | the nested loops yield the obligation list of the features, in order |
| `Obligations.BuiltAreDerived` | tools/semantics/compile_semantic_baseline.py:1307-1328 | every built obligation is the derivation of one of the features |
| `Obligations.AllAreBuilt` | tools/semantics/compile_semantic_baseline.py:1307-1328 | every feature's every facet and case is built |
| `Obligations.BuiltLength` | tools/semantics/compile_semantic_baseline.py:1307-1328 | as many obligations as features times cases |
| `Obligations.BuiltDistinct` | tools/semantics/compile_semantic_baseline.py:1307-1328 | with distinct feature identifiers and distinct cases no obligation is built twice |
| `Obligations.ApplicableExactly` | tools/semantics/compile_semantic_baseline.py:1623-1640 | the coordinates that are counted are an obligation of the list, one of its operations and an archetype it applies to |
| `Obligations.OnlyProhibitedHaveNoOperation` | tools/semantics/compile_semantic_baseline.py:1266-1314 | an obligation has no operation, and a literally false predicate, exactly when it is prohibited |
| `Obligations.RuleExactly` | tools/semantics/compile_semantic_baseline.py:1285-1304 | on any profile and vector the emitted predicate holds iff the operation is offered and a conditional facet has its own fact: capability, operation set, comparator, named interaction or open state |
| `Obligations.StatusesByFeature` | tools/semantics/compile_semantic_baseline.py:1232-1263 | which classes, categories and features make a facet prohibited, informative or mandatory |
| `Obligations.OperationsByFacet` | tools/semantics/compile_semantic_baseline.py:1266-1282 | operation by operation, what a facet exercises: supported operations it is about, two fixed sets, and compiling where nothing else is left |
| `Obligations.SetsByOperation` | tools/semantics/compile_semantic_baseline.py:992-995 | the four operation sets, operation by operation |
| `Obligations.AppliesIsThePredicate` | tools/semantics/compile_semantic_baseline.py:1232-1304 | the direct test, outside the fallback, is the emitted predicate under open facts together with family and capability limits; nothing informative or prohibited is accepted |
| `Obligations.AcceptedEvaluates` | tools/semantics/compile_semantic_baseline.py:1598-1620 | an accepted coordinate satisfies its emitted predicate exactly when it is not a search-iteration fallback |
| `Obligations.FallbackNeverEvaluates` | tools/semantics/compile_semantic_baseline.py:1266-1304 | the fallback's predicate is false for all facts |
| `Obligations.FallbackIsAccepted` | tools/semantics/compile_semantic_baseline.py:1598-1620 | a compile-only feature, which the tables do not have, reaches the fallback on any archetype that compiles, and the direct test accepts it |
| `Obligations.CoordinateUnits` | tools/semantics/compile_semantic_baseline.py:1623-1640 | unit, facet and category counters each sum to the number of applicable triples, and per archetype the facet counts sum to its units |
| `Reconciliation.Deduplicate` | tools/campaigns/finalize_million_local_artifacts.py:181-202 | succeeds iff no key stands for two contents, and then holds exactly the items seen |
| `Reconciliation.Reconcile` | tools/campaigns/finalize_million_local_artifacts.py:128-238 | ready iff indexes are exact, every partition reconciles, contents are consistent and the totals are admitted; the reported totals |
| `Reconciliation.ReconcilesExactly` | tools/campaigns/finalize_million_local_artifacts.py:139-215 | a partition reconciles iff both reports agree with the plan number by number, attempts beyond the plan are infrastructure failures, and the staged manifest and objects are as described and account for count, bytes and descriptors |
| `Reconciliation.AdmissionExactly` | tools/campaigns/finalize_million_local_artifacts.py:218-237 | for partitions that reconcile, admission is the plan's totals and one byte bound; the attempt check and the hard cap never decide |
| `Reconciliation.Accounting` | tools/campaigns/finalize_million_local_artifacts.py:181-227 | published bytes are unique bytes plus the size of every key once per further copy |
| `Reconciliation.ReconciledTotals` | tools/campaigns/finalize_million_local_artifacts.py:218-237 | attempts minus executions equal infrastructure failures for all accepted partitions; admission keeps canary, unique bytes and reserve below the soft stop |
| `Reconciliation.OrderDoesNotMatter` | tools/campaigns/finalize_million_local_artifacts.py:139-202 | the deduplicated objects depend only on which items there are |
| `Reconciliation.DiscoveryOrderIsIrrelevant` | tools/campaigns/finalize_million_local_artifacts.py:128-134 | once sorted indexes are exact, the order in which preparations and executions are discovered cannot matter |
| `Shard.Invoke` | tools/campaigns/run_100k_qualification.py:311-404 | returns iff responses and isolated answers correlate; then one result per execution in shard order; the coverage check never fires |
| `Shard.OneMoreExecution` | tools/campaigns/run_100k_qualification.py:312-324 | how appending one execution changes the two routes: isolated under Python up to one second, batched at the end otherwise unless an isolated one has its identifier |
| `Shard.EveryAnswerUsedOnce` | tools/campaigns/run_100k_qualification.py:312-404 | with distinct identifiers the results are exactly the batched responses and isolated answers, each once, each under its own identifier |
| `Shard.UsesAllExactly` | tools/campaigns/run_100k_qualification.py:312-404 | over all answers, every normal return uses each response and isolated answer once iff identifiers are distinct or two isolated executions share one |
| `Shard.RepeatedIdLosesAResponse` | tools/campaigns/run_100k_qualification.py:365-404 | the witness: a repeated identifier returns normally and drops a response |
| `Census.VerifyReport` | tools/campaigns/verify_known_universe_census.py:85-117 | the loop over the cases accepts iff the expected bound and all twelve case fields match the rounded decimals |
| `Census.AcceptedExactly` | tools/campaigns/verify_known_universe_census.py:85-117 | for products of at most 27 digits, and 24 for the bounds, a census is accepted iff the expected bound is the geometric mean to the nearest integer and all twelve case fields are the exact shares to the nearest integer |
| `Census.ScaledIsNearest` | tools/campaigns/verify_known_universe_census.py:37-114 | below 10^27 a case field is accepted iff it is the exact quotient to the nearest integer, halves upward |
| `Decimal28.HalfUpOfRoot` | tools/campaigns/verify_known_universe_census.py:37-88 | below 10^24 rounding a square root to 28 digits first does not change its rounding to an integer |
| `Census.ExpectedBound` | tools/campaigns/verify_known_universe_census.py:37-88 | for products below 10^24 the expected bound lies between the outer bounds and is their geometric mean to the nearest integer |
| `Census.CasesAreOrdered` | tools/campaigns/verify_known_universe_census.py:90-117 | current profiles and release lines do not decrease from case to case |
| `Identifiers.Layout` | tools/control_plane/run_sustained_operating_envelope.py:109-119 | version 7 and variant 10 per section 5.7 of RFC 9562, and both inputs are recovered from the integer |
| `Identifiers.Ordered` | tools/control_plane/run_sustained_operating_envelope.py:109-119 | identifiers order by timestamp and are injective in both inputs |

## Left out

- Witnesses.AnalysisRaisesOnPassedRuns: asks for windows that fit the calendar and can be summed; longer ones make the analysis raise for another reason, or cannot be counted.
- Workload.MeasureWindow: differences of clock readings are exact until they are scaled, passes end by an outcome rather than by processes and signals, and the baseline's duration is not tied to the plan.
- Runner.Process.MeasureWindow: the summaries behind a window that ran a pass are an input of its work, not tied to a run of the sampler.
- Checkpoints.ValidateCheckpointChain: leaves out record shape, classification, identifier and timestamp syntax, and the plan checks the chain logic does not rely on; timestamps are whole UTC milliseconds.
- Runner.CheckpointRoot.LoadCheckpointChain: files are keyed by number, other file names and the canonical form of their contents are left out.
- Runner.Process.RunSession: the workload binding is an input and the final report write is not modelled.
- Throughput.FirstCrossing: covers rates below 2^79, which every rate of an accepted chain is (`Report.ReportedSafe`).
- Binary64.CeilOfTrueDivide: models quotients between 2^-80 and 2^80, which these rates stay within; overflow and subnormal results are not modelled.
- Apportionment.KeepsThePromise: its condition is sufficient, and products below 10^28 alone are not (`Apportionment.DigitsRunOut`); which inputs beyond it keep the promise depends on the digits each quotient loses and is not characterised.
- Apportionment.LargestRemainder: totals and weights are natural numbers, which the census and planning counts are; exponents beyond the decimal context's range are not modelled.
- Certification.OnlyTheManifestChanged: file modes are not part of a tree here.
- Certification.VerifyManifest: leaves out the aggregate counts, the catalogue text searches and the optional report bindings, which compare fixed fields of further files.
- Promotion.Clone.BuildPlan: reads a clean worktree as the tree of its commit; detached heads and malformed identifiers are refused before the modelled steps.
- Obligations.BuildObligations: yields obligations in the order the loops build them; the code then sorts them by identifier.
- Sampler.WindowSampler.Summaries: lists measurements in policy order where the code lists them by name; nothing downstream depends on it.
- Census.VerifyReport: the schema, digests and ledger counts are left out, as is the storage forecast (tools/campaigns/verify_known_universe_census.py:117-160): its decimal fields are products with an already rounded factor, and its object count is the ceiling of a product of doubles whose factor is itself a decimal rounded to a double, so it is rounded twice and can exceed or fall below the exact ceiling.
- Reconciliation.Reconcile: the structural check of each pack, the parent campaign and the execution report's digest are left out, as are canonical JSON and schemas; the plan compiler's partitions are inputs.
- Shard.Invoke: processes, frames and handshake fields are left out; a response is its identifier and an opaque body.
- Checkpoint loading is one atomic snapshot of the directory, and a checkpoint's format, classification and timestamps' syntax are not modelled.
- Vector requirements and the logical-execution parts of the denominator compiler: the first select the executable obligations one by one, the second multiply counts by fixed rates; neither feeds back into what is modelled.
- Recovery-effect rows and rolling medians of the analysis: per-row lookups with no law beyond their definition.
- Process supervision, signals, the file system beyond create-if-absent, git's object transfer and the large literal tables.
