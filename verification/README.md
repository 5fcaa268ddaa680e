# Verified model of the local decision runtime

A Dafny 4.11 model of the local typed-decision runtime (`decision_runtime/`) and of two ownership
algorithms from `scripts/`, with proofs of what those programs promise. `dafny verify dfyconfig.toml` checks
everything.

The runtime answers typed questions (choice, boolean, score) by a temperature-scaled softmax over the allowed
options. One child process does the inference behind a private socket; an HTTP server admits one inference at
a time; an offline pipeline labels, calibrates and qualifies the scores. The model has three parts.

**The inference protocol.** `Framing` is the length-prefixed wire format. `Protocol` is a transition system
of parent, child, two byte queues and every fault; its central result is exact pairing: whatever a call ever
gets back was computed by the child for that very call. `Isolated` is the parent's code as a class whose
methods are proved to take only steps of that system, beside a child that may do whatever the system lets it
(`Isolated.EveryChildStep`). Messages are real-valued, so only those a codec declares as `wire` are encodable; the
others fail before anything is sent. For any finite list of messages a faithful codec exists
(`Protocol.FaithfulCodecExists`), and with a faithful codec every call can complete (`Protocol.CallCompletes`).
`Metrics` is the counter object, `Server` the interleaving of handlers, lock, counters, shutdown and exit code.

**The statistical evidence.** `Softmax`, `Contracts`, `Engine` and `OptionOrder` model one decision; `Decisions` says
what it means in terms of scores, options and thresholds alone. `Optimizer` and `Calibration` model the temperature
fit, `Binomial` and `GroupRisk` the exact risk bound, `Median` that its bracket is unconditional, `JointRisk` what
several such bounds guarantee together. `Dataset`, `Annotations`, `EvaluationMetrics`, `Reliability`, `Reports`,
`Recomputation`, `Experiment`, `Qualification`, `Verdicts` and `Development` model the chain from labels to a verdict:
what each producer writes is accepted by the next strict validator exactly under the stated conditions, and replay
reproduces what was recorded. `Qualification.UnsafeRarelyPasses` joins the two halves: the chance of a passing verdict
for too high a true risk. It speaks of fixed accepted groups and of which of them fail; `UnsafeFamily` is an unsafe
family beside a safe one that meets its hypotheses.

**Owned resources.** `FileSystem` is a small file system with inodes and descriptors, and what ownership records say
about it. `Ownership` models exclusive file creation, installation and rollback, with an exception at any point and
a further one inside a `finally` block; `ProcessTable` is the closure of a process tree.

Conventions. Arithmetic is over the reals. `exp` and `log` are parameters about which three laws are assumed
(`Elementary.Analysis.Lawful`: exp(x+y) = exp(x)exp(y), exp(x) >= 1+x, log is a right inverse of exp on the
positive numbers); everything else about them is derived. A SHA-256 fingerprint is modelled as an injective
function, concretely as the content it is computed from, so comparing digests is comparing contents. Times
are ticks of one clock. Backend replies, their durations, fragmentation, cancellation, scheduling, failure
points and the other process's progress are arbitrary.

## What the proofs found

- The last guard of `fit_temperature`, that the loss did not increase, cannot fire in exact arithmetic
  (`Calibration.FitTemperature`).
- Reversing the options always keeps probability and margin, but keeps the selection exactly when the leading
  score is unique (`OptionOrder.ReversalKeepsDecision`).
- The class key `family:label` identifies a class when no family name contains a colon. Identifiers may
  contain one, and then two classes can share a key (`EvaluationMetrics.ClassKeysCollide`,
  `EvaluationMetrics.ClassesCanCollide`).
- A retirement record implies exit code 75 except in one window: an interrupt between keeping the profile and
  returning leaves a record with exit code 130 (`Server.ShutdownIsSafe`, `Server.RecordWithoutCode75`). The final
  `return 0` of the command is out of reach while serving.
- Rollback stops at the first file it refuses, so a foreign change to one file can leave later, unchanged
  files of the same run in place; it removes every file it still owns exactly when no refused record precedes
  an owned one (`FileSystem.RollbackIsCompleteIff`, `Ownership.RollbackCanLeaveOwnFiles`).
- A failed installation without foreign changes gives the old names back if and only if three things hold
  (`Ownership.Recoverable`, `Ownership.Installer.Run`): no exception fell between creating a file and publishing its
  record; no second one skipped the refresh of a recorded ctime after bytes had been written (rollback then refuses
  this run's own file); and rollback was not cut short, which any exception in its service phase does. Descriptors
  can leak as well, at exactly the points of `Ownership.Leaks`. `Ownership.NamesThatStay` has a run for each case.
- A review pool whose id has 92 to 100 characters is accepted for review but its reviews can never be
  finalized (`Annotations.LongPoolIds`, `Annotations.LongPoolExists`).
- A plan frozen with an out-of-range policy object does not validate (`Experiment.FrozenPlanValidates`, with such a
  plan in `Experiment.BadPolicyFreezes`).
- The starting rate of the bound search is never excluded at a confidence of one half or more, which the criteria
  demand, so the search always has a bracket (`Median.RateIsNotExcluded`).

## Model

| member | source | states |
|---|---|---|
| `Softmax.Probabilities` | decision_runtime/contracts.py:194-207 | succeeds exactly for a vector of the right positive length and a positive temperature, otherwise `invalid_scores` |
| `Softmax.ProbabilitiesAreADistribution` | decision_runtime/contracts.py:202-205 | the result sums to 1 and every entry is positive |
| `Softmax.ProbabilitiesKeepOrder` | decision_runtime/contracts.py:203 | probabilities compare exactly as the logits do, ties included, at any positive temperature |
| `Decisions.ProbabilitiesAreShares` | decision_runtime/contracts.py:202-205 | entry i is exp(z_i/t) divided by the sum of all exp(z_k/t), whatever shift the code takes out first |
| `Decisions.RankingLeads` | decision_runtime/engine.py:70-73 | some option leads, as the first with the largest score, with the best of the others as runner-up |
| `Decisions.EvaluateSays` | decision_runtime/engine.py:68-94 | an answered request selects that option; it is accepted if and only if the option does not abstain, its softmax share reaches the minimum and its lead over the runner-up the margin; an accepted choice carries the id, a boolean its flag, a score the mean level; anything else carries no value |
| `Decisions.EvaluateFails` | decision_runtime/engine.py:57-69 | any other request fails, with the code of the first thing that is wrong: scope, cancellation, the backend, late cancellation, scores |
| `Decisions.DecideSays` | decision_runtime/engine.py:40-62 | the decision names its request, input digest, model, policy and calibration; a request that does not parse is `invalid_request` and names none |
| `Decisions.ScoreWithinLevels` | decision_runtime/engine.py:87 | an accepted score lies between the lowest and the highest level |
| `Contracts.ParseRequest` | decision_runtime/contracts.py:106-145 | the option loop accepts exactly the well-formed requests and returns the typed request |
| `Contracts.ParseToDict` | decision_runtime/contracts.py:147-152 | `from_dict` undoes `to_dict` on every request |
| `Contracts.ParseReversed` | decision_runtime/evaluation.py:160 | reversing the wire options keeps validity and reverses the parsed options, nothing else |
| `Contracts.InputShaIsTheInput` | decision_runtime/contracts.py:154-167 | two requests share an input digest if and only if they agree in everything except the id |
| `Contracts.SortByIdSorts` | decision_runtime/contracts.py:174 | the sort by id is an ordered permutation |
| `Contracts.SchemaShaIsOrderFree` | decision_runtime/contracts.py:169-175 | two requests share a schema digest if and only if question, kind and version agree and the options are a permutation |
| `Engine.RankingRanks` | decision_runtime/engine.py:70 | the stable reverse sort lists every index once, larger keys first, equal keys in index order |
| `Engine.CalibrationKeepsSelection` | decision_runtime/engine.py:68-80 | in scope, fitting a temperature changes neither the failure nor the selected option, ties included |
| `Engine.HotterIsLessSure` | decision_runtime/engine.py:69-73 | raising the temperature never raises the leading probability or the margin |
| `Engine.HotterNeverAccepts` | decision_runtime/engine.py:68-80 | so it never turns an abstention into an acceptance |
| `OptionOrder.ProbabilitiesReversed` | decision_runtime/contracts.py:194-205 | reversed logits give reversed probabilities |
| `OptionOrder.ReversalKeepsDecision` | decision_runtime/engine.py:68-94 | reversal keeps failure, probability and margin; it keeps the selection if and only if the leading score is unique, and then status and typed value too |
| `Optimizer.SlopeMonotone` | decision_runtime/calibration.py:36 | the slope of a convex objective never decreases, which the bisection relies on |
| `Optimizer.Minimise` | decision_runtime/calibration.py:37-52 | every exit satisfies its condition: negligible slope at 1, a one-signed slope at a clamp, or the middle of a sign-change bracket of width 19.95/2^80 |
| `Optimizer.ExitIsOptimal` | decision_runtime/calibration.py:37-53 | every exit is within 1e-10 of optimal on [0.05, 20] when the slope is bounded by 2e6 |
| `Optimizer.ResultBracketsOptimum` | decision_runtime/calibration.py:45-52 | unless the search stopped at 1 or at an end, the slope is negative below and not negative above the bracket of half width 19.95/2^81 around the result, and for every b the bracket has a point at least as good |
| `Optimizer.InsideIsNearAMinimiser` | decision_runtime/calibration.py:45-52 | a point at least as good as any given one lies within 19.95/2^81 of the returned beta |
| `Calibration.LossTangent` | decision_runtime/calibration.py:27-34 | the mean NLL lies above each of its tangents in beta, for every example set |
| `Calibration.SlopeBounds` | decision_runtime/calibration.py:33-34 | for logits within 1e6 the gradient stays within 2e6 |
| `Calibration.MeanLossIsGoldLoss` | decision_runtime/calibration.py:27-34 | the objective at beta is the mean negative log of the probability `probabilities` gives the gold option at temperature 1/beta |
| `Calibration.FitTemperature` | decision_runtime/calibration.py:15-58 | succeeds exactly on nonempty sets without defects, reports the first defect, never the increased-loss guard; temperature in [0.05, 20], loss within 1e-10 of every other temperature in range; `atBound` exactly at 0.05 and 20, and the inverse temperature is an exit of the search |
| `Calibration.FitBracketsOptimum` | decision_runtime/calibration.py:45-58 | for the fitted mean NLL: a temperature other than 1 and the ends is within half a bracket, in beta, of where the slope changes sign, and for every beta that bracket has a point at least as good |
| `Binomial.CdfStrictlyDecreasing` | decision_runtime/qualification.py:29-39 | for fewer failures than trials the CDF strictly decreases in p |
| `Binomial.PmfClosedForm` | decision_runtime/qualification.py:25-33 | the probability defined by conditioning on one trial is C(n,k) p^k (1-p)^(n-k) |
| `Binomial.LogCdfCompares` | decision_runtime/qualification.py:25-36 | comparing the log-space sum with log alpha is comparing the CDF with alpha |
| `Binomial.ZeroFailures` | decision_runtime/qualification.py:22-23 | the closed form solves (1-u)^n = 1-confidence and lies in (0, 1) |
| `Binomial.Bisect` | decision_runtime/qualification.py:24-40 | keeps CDF(hi) <= alpha and is sharp to (1-rate)/2^80 |
| `Binomial.BinomialUpper` | decision_runtime/qualification.py:15-40 | refuses invalid inputs; every bound returned is conservative and, from the bisection, sharp |
| `Binomial.RootIsBracketed` | decision_runtime/qualification.py:27-40 | any exact root above the observed rate lies within (1-rate)/2^80 below the bound |
| `Binomial.CutIsBracketed` | decision_runtime/qualification.py:27-40 | from the bound on no rate is compatible with the data; unless the observed rate is itself excluded, every rate up to the last bracket is (`Median` removes the condition) |
| `Binomial.BoundIsConservative` | decision_runtime/qualification.py:15-40 | a rate under which so few failures are likelier than the error probability lies below the bound |
| `Binomial.Coverage` | decision_runtime/qualification.py:16 | whatever the true rate, the bound misses it with probability at most 1-confidence |
| `Binomial.Bonferroni` | decision_runtime/qualification.py:112-113 | with the split confidence, the miss probabilities of the overall and the family bounds add up to at most 1-confidence |
| `JointRisk.UnsafeClearsRarely` | decision_runtime/qualification.py:112-125 | when few failures among the groups behind one bound are no likelier than at a risk above the maximum, the bound clears the maximum with probability at most one minus its confidence; nothing is asked of the other groups |
| `JointRisk.AnyMissIsUnlikely` | decision_runtime/qualification.py:112-144 | with the split confidence, the chance that the overall or any family bound misses is at most 1-confidence, whatever the dependence between them |
| `JointRisk.AnyUnsafeClearsRarely` | decision_runtime/qualification.py:112-144 | the chance that some bound clears the maximum although its true risk exceeds it is at most 1-confidence |
| `JointRisk.IndependentTail` | decision_runtime/qualification.py:25-33 | among independent groups of risk r or more, each with a risk of its own, few failures are no likelier than the binomial distribution at r says, and exactly as likely when every risk is r |
| `JointRisk.IndependentIsSure` | decision_runtime/qualification.py:25-33 | the chances over which groups fail add up to one |
| `JointRisk.IndependentIsJoint` | decision_runtime/qualification.py:112-138 | independent groups meet these hypotheses for any parts at once, overlapping ones included: all groups together beside the families they fall into |
| `JointRisk.OverallIsSum` | decision_runtime/qualification.py:114-138 | when no group is in two families, the overall failures are the sum over the families |
| `Median.RateIsNotExcluded` | decision_runtime/qualification.py:27-40 | if each of n groups fails with probability k/n, 0 < k < n, at most k failures are likelier than not: the search starts at a rate that is not excluded |
| `Median.BoundIsBracketed` | decision_runtime/qualification.py:27-40 | so at any confidence from one half on the rates from the bound on are excluded and all rates below it by more than (1-rate)/2^80 are not |
| `GroupRisk.RiskOf` | decision_runtime/qualification.py:73-80 | counts distinct accepted groups and those with any accepted error, and bounds exactly those counts, tightly from a confidence of one half on |
| `Framing.FrameRoundTrip` | decision_runtime/isolated.py:45-86 | reading a frame yields the payload and leaves what follows untouched |
| `Framing.PrefixNeeds` | decision_runtime/isolated.py:66-84 | a proper prefix is neither complete nor malformed and asks for no byte beyond the frame |
| `Framing.FramesAreSelfDelimiting` | decision_runtime/isolated.py:49 | streams that agree start with the same message |
| `Protocol.StepInv` | decision_runtime/isolated.py:108-120 | every step of parent or child keeps the invariant |
| `Protocol.ReceivedIsOwnReply` | decision_runtime/isolated.py:222-237 | a completely received reply decodes and is the child's answer to the current request |
| `Protocol.ExactPairing` | decision_runtime/isolated.py:208-254 | in every state of every run: free lock and available process mean both queues are empty, and every delivery is the child's computation for that call |
| `Protocol.RetirementIsFinal` | decision_runtime/isolated.py:182-200 | after any stop nothing is dispatched or delivered again and the first reason stays |
| `Protocol.FaithfulCodecExists` | decision_runtime/isolated.py:45-86 | any finite list of messages has a codec that returns each of them; fewer than 256^d messages need at most d bytes each, so they fit whenever d is within the frame limit |
| `Protocol.CallCompletes` | decision_runtime/isolated.py:208-254 | from any idle, available state with empty queues, any encodable request can be answered with any acceptable reply in twelve steps |
| `Protocol.UsableAfterwards` | decision_runtime/isolated.py:226-252 | a call leaves the process usable exactly when its own reply arrived whole and was acceptable scores or a reportable error other than `backend_error`; otherwise the cause recorded is that of the step |
| `Isolated.IsolatedBackend.Patience` | decision_runtime/isolated.py:34-42 | the next blocking time is within the deadline, a 20 ms poll or the whole rest |
| `Isolated.IsolatedBackend.Send` | decision_runtime/isolated.py:45-63 | takes only protocol steps under any fragmentation; sends everything or reports a fault; timed-out rounds bounded by the time left |
| `Isolated.IsolatedBackend.ReadUpTo` | decision_runtime/isolated.py:67-80 | reads to exactly the goal, never beyond, within the same bound on rounds |
| `Isolated.IsolatedBackend.Receive` | decision_runtime/isolated.py:66-86 | returns with a complete frame or a fault, rounds bounded |
| `Isolated.IsolatedBackend.Stop` | decision_runtime/isolated.py:182-200 | the new state is the old one retired, keeping the first reason |
| `Isolated.IsolatedBackend.Conclude` | decision_runtime/isolated.py:226-252 | scores or error returned are the child's reply to this call |
| `Isolated.IsolatedBackend.Converse` | decision_runtime/isolated.py:217-252 | a dispatched call is cancelled, late or cut off, each only when that happened and with its own code and stop reason; otherwise the reply was complete before the deadline and decides the result |
| `Isolated.IsolatedBackend.Score` | decision_runtime/isolated.py:208-254 | refines the protocol; success returns what the child computed for this very request, in time and uncancelled; after a dispatch `inference_timeout`, `inference_cancelled` and `backend_error` stop the process exactly with their own reasons, for a reached deadline, a cancellation, a broken connection or an unusable reply; without one, for a request that cannot be sent, a cancellation that leaves the process available, or a process that is gone; the lock is restored |
| `Isolated.NeverMalformed` | decision_runtime/isolated.py:81-83 | what the child writes never announces a bad length |
| `Isolated.IsolatedBackend.constructor` | decision_runtime/isolated.py:137-164 | after the greeting the backend is valid, available and idle with nothing dispatched |
| `Isolated.IsolatedBackend.Close` | decision_runtime/isolated.py:256-258 | retires, with reason `closed` only when it was still available |
| `Isolated.TimeoutLeavesLess` | decision_runtime/isolated.py:54-59 | each timed-out poll uses up one of the remaining rounds |
| `Metrics.DecisionMetrics.Begin` | decision_runtime/metrics.py:46-48 | one more in progress, nothing else |
| `Metrics.DecisionMetrics.Finish` | decision_runtime/metrics.py:50-63 | records exactly one observation in outcome, class and buckets; refuses only a bad duration or a missing start |
| `Metrics.OutcomesAddUp` | decision_runtime/metrics.py:10-33 | outcome counts sum to finished requests and each class count to its outcomes |
| `Metrics.BucketsAreCumulative` | decision_runtime/metrics.py:61-63 | bucket counts grow with the bound and never exceed the class count (+Inf) |
| `Metrics.ComputedMeansDecided` | decision_runtime/metrics.py:16-33 | the class `computed` counts exactly the responses that carry a decision, `ok` exactly the accepted and `abstain` exactly the abstaining ones |
| `Server.StepInv` | decision_runtime/server.py:104-146 | every interleaved step keeps the invariant |
| `Server.OneInsideAndAllCounted` | decision_runtime/server.py:104-146 | at most one handler inside the engine; the lock names exactly that handler and is free exactly when none is inside; the gauge counts active handlers, one observation per finished handler, `finish` finds its start |
| `Server.ShutdownIsSafe` | decision_runtime/__main__.py:202-222 | shutdown starts once and only after the backend was seen dead; exit 75 and the record come only after all handlers finished and the backend is closed; record and code 75 agree except in one interrupt window; the only other code is 130 |
| `Server.BusyMeansOccupied` | decision_runtime/server.py:138-139 | a request is turned away as busy only while another handler is inside the engine |
| `Server.InterruptInTheWindow` | decision_runtime/__main__.py:207-222 | from a kept profile an interrupt leads to a record with exit code 130 |
| `Server.RecordWithoutCode75` | decision_runtime/__main__.py:207-222 | a concrete run that does so |
| `Dataset.ValidateDataset` | decision_runtime/evaluation.py:23-62 | the registry loop accepts exactly the datasets that are well formed, with distinct ids, and put no shared group, normalized state or source in two splits |
| `Dataset.AnyClashMeansLeak` | decision_runtime/evaluation.py:58-61 | a registry clash is exactly an earlier related case in another split |
| `Dataset.AcceptanceIsOrderFree` | decision_runtime/evaluation.py:35-62 | acceptance does not depend on the order of the cases |
| `Annotations.ValidatePool` | decision_runtime/annotations.py:22-41 | accepts exactly the well-formed pools with distinct ids |
| `Annotations.ReviewLabels` | decision_runtime/annotations.py:56-82 | succeeds exactly when the review belongs to the pool and labels each expected case once, bound to its input; returns the labels by id |
| `Annotations.CheckReviews` | decision_runtime/annotations.py:88-105 | accepts exactly complete reviews by distinct reviewers with one seed, adjudicated by a third exactly on the disputed cases |
| `Annotations.FinalizeReviews` | decision_runtime/annotations.py:85-133 | returns a dataset exactly when the reviews are complete and it validates; its id is the pool id with `.reviewed`, and each case is that of the pool, in the split of its group, with the common label where the reviewers agree and the adjudicator's elsewhere, and with their own records |
| `Annotations.OneLabelEach` | decision_runtime/annotations.py:56-82 | a reviewer labels a case once |
| `Annotations.FinalizedIsExpertReviewed` | decision_runtime/qualification.py:43-70 | in a finalized dataset exactly the real-source cases satisfy `expert_reviewed`, and each group lies in one split |
| `Annotations.SwapChangesNothing` | decision_runtime/annotations.py:90-125 | swapping the two reviews changes neither acceptance nor any label, split or review status |
| `Annotations.LongPoolIds` | decision_runtime/annotations.py:126 | the derived dataset id is valid if and only if the pool id has at most 91 characters |
| `Annotations.LongPoolExists` | decision_runtime/annotations.py:126 | a well-formed pool whose id has 92 characters |
| `EvaluationMetrics.TallyRow` | decision_runtime/evaluation.py:90-95 | the label loop of one scored row changes each class by exactly that row's contribution: one support, and one true positive, or one miss there and one false positive elsewhere |
| `EvaluationMetrics.FillBins` | decision_runtime/evaluation.py:81-95 | each of the ten bins holds exactly its points in order, each class its exact counts over all rows |
| `EvaluationMetrics.MetricsOf` | decision_runtime/evaluation.py:72-122 | attempted = scored + errors, scored = accepted + abstained, bins sum to scored, summed tp = correct, summed fp = summed fn = scored - correct, tp + fn = support per class; calibration error and macro F1 are the stated means and lie in [0, 1] |
| `EvaluationMetrics.F1` | decision_runtime/evaluation.py:106-107 | defined exactly when the class occurs, then in [0, 1] |
| `EvaluationMetrics.F1IsHarmonicMean` | decision_runtime/evaluation.py:106-107 | it is the harmonic mean of precision and recall |
| `EvaluationMetrics.MacroF1` | decision_runtime/evaluation.py:104-109 | the mean F1 over exactly the classes that occur |
| `Reliability.CalibrationErrorIs` | decision_runtime/evaluation.py:88-103 | the bins are the tenths of the unit interval, the last one closed, and the calibration error times the scored rows is the sum over them of the distance between summed confidence and correct answers |
| `EvaluationMetrics.ClassKeysDiffer` | decision_runtime/evaluation.py:89-91 | without colons in family names keys identify classes |
| `EvaluationMetrics.ClassKeysCollide` | decision_runtime/evaluation.py:89-91 | exactly when two classes share a key |
| `EvaluationMetrics.ClassesCanCollide` | decision_runtime/evaluation.py:89-91 | two distinct classes that do |
| `EvaluationMetrics.PercentileIsNearestRank` | decision_runtime/evaluation.py:65-69 | at least a share q of the values do not exceed the percentile, and fewer than q, or none, lie below it |
| `Reports.EvaluateSplit` | decision_runtime/evaluation.py:148-189 | runs exactly for a valid dataset and a nonempty split; the report holds each case of the split in order with the answers of its own calls; the metrics conserve |
| `Reports.SplitKeepsOrder` | decision_runtime/evaluation.py:150 | a split keeps the order of the dataset and takes nothing twice |
| `Reports.ComputedFacts` | decision_runtime/engine.py:69-94 | a computed result lists the options in order with their logits, selects one of them and has a probability in [0, 1] |
| `Reports.AgreementDetectsTies` | decision_runtime/evaluation.py:159-164 | for a backend whose scores follow the options, the order-agreement flag is true if and only if the leading score is unique, and missing if and only if the decision failed |
| `Reports.ScoringRows` | decision_runtime/calibration_workflow.py:128-181 | accepts exactly the admissible reports and pairs each row with its own case |
| `Reports.AdmittedIsPermutation` | decision_runtime/calibration_workflow.py:138-181 | the cases read back are the cases of the split, each exactly once |
| `Reports.EvaluationIsAdmitted` | decision_runtime/calibration_workflow.py:128-181 | a report of `evaluate` is admitted if and only if the engine was uncalibrated with a nonempty identity and policy in range and every call had its token count and duration in range |
| `Reports.ReplayReproduces` | decision_runtime/evaluation.py:125-145 | replaying recorded logits reproduces every recorded outcome in both orders |
| `Recomputation.GoodRowMeans` | decision_runtime/calibration_workflow.py:147-178 | a row is admitted for a case exactly when it carries its family, group, label and gold option, and each of its results is raw, uncalibrated evidence for that case in that option order |
| `Recomputation.ReplayRecomputes` | decision_runtime/evaluation.py:125-145 | a replay keeps a recorded failure and the time; recorded logits are decided anew by the textbook softmax at the temperature in use, for the recorded option ids in the recorded order |
| `Recomputation.ReplayOutOfScope` | decision_runtime/evaluation.py:125-145 | outside the calibrated scope it fails with `calibration_out_of_scope` |
| `Recomputation.BoundToOneInput` | decision_runtime/calibration_workflow.py:150-166 | evidence admitted for two cases was made for one input |
| `Recomputation.BoundToOneOrder` | decision_runtime/calibration_workflow.py:150-166 | a result recorded in one option order is never evidence for the other |
| `Reports.ReplayIsWellScored` | decision_runtime/evaluation.py:125-145 | any replay of a valid case meets what the metrics rely on |
| `Reports.FittingKeepsCorrectness` | decision_runtime/qualification.py:105-108 | on admitted evidence in scope, baseline and calibrated replay select the same option, are correct together and fail together |
| `Reports.ScopeIgnoresReversal` | decision_runtime/contracts.py:173-174 | both option orders of a case share one calibration scope |
| `Experiment.FreezePlan` | decision_runtime/calibration_workflow.py:58-80 | freezes exactly valid datasets with both splits and every holdout schema seen in calibration |
| `Experiment.FrozenPlanValidates` | decision_runtime/calibration_workflow.py:83-99 | a frozen plan validates against its own dataset and no other, if and only if its policy is in range |
| `Experiment.BadPolicyFreezes` | decision_runtime/calibration_workflow.py:58-80 | a dataset, policy, criteria and model that freeze into a plan which does not validate |
| `Experiment.FitCalibration` | decision_runtime/calibration_workflow.py:184-207 | fits exactly when plan, evidence, groups and logits allow; the artifact names its evidence and the whole calibration split, and the temperature it carries, which is the one applied later, is within 1e-10 of every other supported temperature on the recorded logits |
| `Experiment.PermutedIds` | decision_runtime/calibration_workflow.py:205 | the sorted ids do not depend on the order of the rows |
| `Experiment.FitOpensHoldout` | decision_runtime/evaluation_guard.py:10-51 | what the fit produced lets the holdout evaluation of the same profiled plan start |
| `Experiment.CalibrationRunFits` | decision_runtime/calibration_workflow.py:184-199 | a calibration run under the frozen profile can be fitted if and only if its calls were proper, all computed and in range, with two cases and two groups |
| `Experiment.HoldoutRunQualifies` | decision_runtime/qualification.py:84-102 | after freeze and fit, a holdout run under the frozen profile passes every evidence check if and only if each call was proper |
| `Experiment.HoldoutInScope` | decision_runtime/calibration_workflow.py:70-72 | every holdout case of a frozen plan, in either order, is in the calibrated scope |
| `Experiment.CalibratedMatchesBaseline` | decision_runtime/qualification.py:104-109 | baseline and calibrated replays agree on selection, correctness and failure on every holdout row, in both orders |
| `Experiment.FitAndHoldoutAreSeparate` | decision_runtime/qualification.py:96-101 | no case the calibration was fitted on shares group, state or source with a qualified holdout case |
| `Qualification.Gates` | decision_runtime/qualification.py:112-147 | the verdict is the conjunction of the gates, each risk figure is a bound for its own counts at the split confidence and tight |
| `Qualification.Qualify` | decision_runtime/qualification.py:83-158 | judges exactly when every provenance check holds; row i of the baseline and of the adjusted replay comes from the result recorded in the given order, row i of the reversed one from the reversed result, at temperature 1 and at that of the artifact; then gates |
| `Verdicts.PassesIff` | decision_runtime/qualification.py:112-147 | a verdict passes if and only if the profile was frozen, experts reviewed every case, each order is scored throughout, accurate and covered by its counted rows, and all groups and each family have enough groups and a low enough bound |
| `Verdicts.EvidenceIsOneChain` | decision_runtime/qualification.py:84-102 | plan, fit and holdout run follow each other in time over one dataset, policy and model; no qualified row was fitted on; a frozen profile computed every result of both orders |
| `Qualification.VariantsAddNoGroups` | decision_runtime/qualification.py:112-114 | reversed replays add no sample: the groups counted are groups of the holdout |
| `Qualification.VerdictComparesFairly` | decision_runtime/qualification.py:104-109 | under a frozen plan baseline and calibrated rows have identical correctness flags |
| `Qualification.FiguresAreTight` | decision_runtime/qualification.py:112-114 | every risk figure of a verdict with some but not only failures excludes the rates from it on, and no rate below it by more than the resolution of the search |
| `Qualification.UnsafeRarelyPasses` | decision_runtime/qualification.py:112-147 | over fixed accepted groups: if few failures behind the overall bound or behind one family bound are no likelier than at a risk above the maximum of the plan, a verdict passes with probability at most (1-confidence)/(families+1), however the other groups fail |
| `Qualification.UnsafeFamilyRarelyPasses` | decision_runtime/qualification.py:112-147 | for independent groups with risks of their own, one family whose groups all exceed the maximum is enough, however safe the others are |
| `UnsafeFamily.HypothesesAreMet` | decision_runtime/qualification.py:112-147 | two families with risks 0.95 and 0.01 meet every hypothesis, the overall count is the sum of theirs, and a draw of positive probability passes |
| `UnsafeFamily.PassIsUnlikely` | decision_runtime/qualification.py:112-147 | for them the chance of a pass is at most a third of the error |
| `Development.RowOrderDoesNotMatter` | decision_runtime/development.py:187-192 | the order in which a report lists its cases changes no aligned replay |
| `Development.PairUp` | decision_runtime/development.py:155-165 | every pair is failed or in exactly one of the four cells, which sum to the scored pairs; disagreements never exceed them |
| `Development.SwapPairing` | decision_runtime/development.py:155-165 | exchanging two candidates exchanges the one-sided cells and nothing else |
| `Development.LeftTotal` | decision_runtime/development.py:160-161 | a candidate's correct scored pairs are the shared and its own one-sided ones |
| `Development.Candidates` | decision_runtime/development.py:178-193 | accepts exactly admissible reports under one policy by distinct models; replays each in dataset order |
| `Development.CompareDevelopment` | decision_runtime/development.py:168-229 | compares exactly the comparable candidates; row i in either order comes from what the report recorded for the i-th development case in that order; every two candidates are paired, case by case |
| `Ownership.Installer.ExclusiveFile` | scripts/manage-decision-resident-deployment.py:180-195 | for an exception at any point, and a further one inside the `finally` block: what is left follows from where they strike and what the writes accept; untouched, an empty unrecorded file, or a published record over a prefix of its bytes that matches exactly unless the ctime refresh was skipped after a write; which descriptors stay open |
| `Ownership.Installer.FillPublished` | scripts/manage-decision-resident-deployment.py:184-195 | from publication on: the write loop, the refreshed ctime, the closed descriptor, the final comparison |
| `Ownership.Installer.WriteAll` | scripts/manage-decision-resident-deployment.py:185-188 | partial writes leave a prefix; completion leaves all bytes; completes exactly when every write makes progress |
| `Ownership.Installer.RemoveOwnedFile` | scripts/manage-decision-resident-deployment.py:198-207 | removes exactly a file that is unchanged, with its descriptor; otherwise changes nothing |
| `Ownership.Installer.RemoveCreated` | scripts/manage-decision-resident-deployment.py:278-291 | removes exactly the files before the first refused record, or before the point at which rollback is cut short, and nothing else |
| `Ownership.Installer.CloseCreated` | scripts/manage-decision-resident-deployment.py:175-177 | closes each held descriptor exactly once and loses no named file |
| `Ownership.Installer.Adopt` | scripts/manage-decision-resident-deployment.py:165-172 | records any existing file as it is, holding it open |
| `Ownership.Installer.Install` | scripts/manage-decision-resident-deployment.py:340-360 | whatever fails, the world is the old one plus exactly the recorded files and the extra ones the failing point leaves |
| `Ownership.Installer.Run` | scripts/manage-decision-resident-deployment.py:338-379 | succeeds exactly when every file and every step succeeds, with every file in place and no descriptor open; after a failure the old names are back if and only if the failure is `Recoverable`, the old descriptors if and only if it does not leak, and with both the old files; no earlier name is ever lost or redirected |
| `Ownership.RunOne` | scripts/manage-decision-resident-deployment.py:338-379 | the run over one file with its failure spelled out |
| `Ownership.NamesThatStay` | scripts/manage-decision-resident-deployment.py:180-194 | runs whose names stay behind: a stale ctime, an unpublished file, and a rollback stopped in its service phase |
| `FileSystem.RemovalIsExact` | scripts/manage-decision-resident-deployment.py:206-207 | unlinking and closing frees this inode and no other |
| `FileSystem.OnlyOwnFilesMatch` | scripts/manage-decision-resident-deployment.py:202-205 | after arbitrary interference a record matches if and only if its path still names the held inode and the file is unchanged |
| `FileSystem.RollbackIsCompleteIff` | scripts/manage-decision-resident-deployment.py:291 | rollback removes every file it still owns if and only if no refused record precedes an owned one |
| `Ownership.RollbackCanLeaveOwnFiles` | scripts/manage-decision-resident-deployment.py:291 | an installation of two files after which interference with the first keeps rollback from the second |
| `ProcessTable.Inventory` | scripts/profile-embedding-rag.py:62-70 | terminates on every table and returns exactly the processes that reach the parent, the least closed set |
| `ProcessTable.LeastClosed` | scripts/profile-embedding-rag.py:66-69 | a closed set of descendants is the least closed set |

## Left out

- IEEE rounding, overflow and underflow, `fsum`, `log1p` and `expm1` accuracy, and non-finite inputs: all
  arithmetic is over the reals. Ties between probabilities that only rounding creates are not modelled.
- `Optimizer.InsideIsNearAMinimiser`: speaks of any minimiser there is; that one exists needs the completeness of
  the reals, which Dafny's `real` does not offer. `Optimizer.ResultBracketsOptimum` needs no such point.
- `Binomial.RootIsBracketed`: speaks of any exact root there is, for the same reason; `Binomial.CutIsBracketed` needs
  none.
- `Reports.EvaluateSplit`: does not model the per-family metrics, the timing summary and the option-order
  summary of the report; the row-level agreement flag is modelled.
- `EvaluationMetrics.MetricsOf`: does not model the NLL and Brier averages and the latency figures.
- `EvaluationMetrics.PercentileIsNearestRank`: states the value before rounding to three digits.
- `Qualification.UnsafeFamilyRarelyPasses`: compares groups of unequal risk at a risk that none of them falls below; a
  comparison at their average risk is not proved, nor is a random choice of which groups are accepted.
- `Ownership.Installer.RemoveOwnedFile`: treats the check and the unlink as one step; a change by another
  process between the two is not modelled.
- `Ownership.Installer.Run`: models the registration of services only as steps that may fail, and the service phase
  of rollback only as a point at which it may be cut short; launchctl and process inspection are not part of this
  model, nor are an interrupt inside `close_file_record` or the final closing loop, and a third interrupt.
- `Ownership.Installer.RemoveCreated`: a file of the run that another process has given a second hard link keeps its
  content after the unlink; the ctime the unlink gives that link is not modelled.
- `Server.ShutdownIsSafe`: models an interrupt only in the main thread, and the profile digest computation as
  one step.
- `Isolated.IsolatedBackend.Score`: does not model an interrupt raised inside the call, after which the lock
  is released without a stop; startup and its handshake are also left out, runs begin after the greeting.
- `Experiment.FreezePlan`: does not model split counts, the size limit of a profile, fingerprint-version
  lists, and the refusal of development-only datasets.
- JSON parsing and its field-set and type checks, canonical encoding beyond the round trip that the protocol
  assumes, time zones, and error messages: a refusal is one result, whatever its text.
- Unicode: whitespace is the four ASCII blanks, the normalisation of a state is an arbitrary function, and
  the group assignment by hash is an arbitrary function of seed and group. Negative zero does not exist.
- HTTP headers, sockets, the peer watcher, model loading and scoring, tokenizers, plists, Docker and
  Prometheus: input and output. A backend is an arbitrary source of scores and failures.
- `Development.CompareDevelopment`: does not model the diagnostic tags, confusion tables and label coverage of the
  comparison; `prepare_development` (the import of an assistant approval) is a chain of equality checks and is
  left out.
- `prepare_review`: builds the blind form that `Annotations.ReviewLabels` reads back.
