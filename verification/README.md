# Verification of the Grid-Mind tool stack

This project models the deterministic logic around the solvers and the language model of `gridmind_mini` and
proves what it keeps over every run. Power-flow and dynamic solvers, the model, the tool registry, regular
expressions and the random generator appear as arbitrary functions, so the theorems hold for every behaviour
of theirs; numbers are exact reals.

What each module covers:

- `Capacity` — memoised bisection over an accept/reject oracle. The in-loop monotonicity fallback is shown to be
  unreachable, the bracket exact, and the number of assessments known. `Round9` is the real memo key; the
  search itself is proved for any monotone key.
- `Network` — the adjacency map built from three equipment tables and the bounded breadth-first search over it.
- `Agent`, `Grounding` — one user turn as a protocol: gates, tool rounds, policy guard, tool messages, numeric
  grounding of the final text.
- `Contingencies`, `Cia`, `Emt`, `Integrated` — before/after comparisons, staged gating and recommendations,
  composed end to end up to what an accepted capacity sample means.
- `Trajectories`, `Stability` — down-sampling with half-even rounding, merged series, threshold classification.
- `Memory`, `Prompting` — the append-only study log, its ledger, bounded recalls, and the merge into the prompt.
- `JsonPaths`, `JointBenchmark`, `JointChecks`, `JointGenerator` — the scenario generator against the real
  decision function and against its own checker.
- `Prelude`, `Text`, `Rounding`, `GridModel`, `Stages` — shared vocabulary: filters, stable sorting, strings,
  rounding, solver findings, statuses.

Code that updates variables in loops or fields is modelled by methods and classes and proved against functions;
the properties are proved about those functions.

Findings, next to lemmas that say when the code does meet the expectation:

- With both search bounds under one memo key the reported maximum is never evaluated (`MergedEndsReportUnsampled`).
- A CIA approval does not mean that the EMT stage passed (`ApprovedEmtOutcome`, `ApprovalToleratesEmt`).
- A report or study compared with itself blames a finding that is worse than the last one with its key, which two rows
  without a readable index can produce (`SelfComparisonExact`, `RepeatedKeyBlamesItself`, `RepeatedSignatureBlamesItself`).
  The solvers of the repository index every row; such rows need another solver, or a direct call of the inspector.
- Merging two generator models drops the rows beyond the shorter one, and with them any excess there
  (`MergingHidesExcess`, `MergingHidesSpeedExcess`, `MergedDropsTail`).
- A project of size zero fails the EMT screen that a larger one passes (`ScreenAntitone`, `ZeroSizeFails`).
- A borderline M1 or M2 hides a later rejection (`BorderlineM1ImprovesExactly`, `BorderlineM2ImprovesExactly`).
- A record with a blank required field is written and then makes every later load fail (`BlankRecordPoisonsLog`).
- Repeated records count against the prompt limit before they are removed (`RepeatsStarvePrompt`, `StarvedPromptExample`).
- The generator's label function differs from the real decision in three families of M2 and EMT outcomes that the
  generator itself never draws (`LabelAgreesExactly`); the template's branch for unsupported dynamic cases cannot be taken
  (`NeverUnsupported`), and neither can the id suffix loop (`GenerateScenarios`).

## Model

| member | source | states |
|---|---|---|
| `Capacity.Run` | Code/gridmind_mini/capacity.py:37-242 | For every behaviour of the assessment, exceptions included, and the memo key `round(mw, 9)`: invalid bounds raise; an exception of the run is one the assessment raised between the bounds, and a run that ends evaluated nothing that raises; its report says which of the five statuses arises from the outcomes at the two ends, has bounds that bracket every sample and are attained, exact halving, the limiting summary of the first rejected sample as its explanation, and fallback only at iteration 0 with the contradiction of the two ends; with tolerance >= 2e-9 every iteration took one fresh sample (k iterations, k + 2 assessments) |
| `Capacity.RunOnGrid` | Code/gridmind_mini/capacity.py:37-242 | Over the assessment itself the search raises exactly for an unsupported connection type, for invalid bounds, or when the baseline solves and the connection cannot be attached; the best approved sample is a size the network takes, the upper bound one it does not, and the reported maximum is that sample unless both ends share a key; k iterations took k + 2 assessments |
| `Capacity.Search` | Code/gridmind_mini/capacity.py:37-242 | The same for any monotone memo key; with a key separating points half a tolerance apart, iterations = samples - 2 |
| `Capacity.Memo.Evaluate` | Code/gridmind_mini/capacity.py:95-119 | A known key returns the stored sample and changes nothing; a new key raises exactly if the assessment does, storing nothing, and otherwise appends exactly one fresh sample under its key |
| `Capacity.HitIsBound` | Code/gridmind_mini/capacity.py:186-218 | During bisection a cached midpoint can only be one of the two bounds, the one with the same outcome |
| `Capacity.BisectingIsMonotone` | Code/gridmind_mini/capacity.py:186-211 | In every state of the loop the samples are monotone, so the monitor inside the loop has nothing to report |
| `Capacity.BisectRound` | Code/gridmind_mini/capacity.py:186-218 | One pass keeps the bracket, halves it once per fresh sample, and never reaches the fallback in the loop |
| `Capacity.Bisect` | Code/gridmind_mini/capacity.py:186-242 | The loop ends bounded or at its limit, with the greatest accepted and least rejected sample as bounds and a width of exactly (max - min) / 2^(fresh samples) |
| `Capacity.MonotonicityContradictions` | Code/gridmind_mini/capacity.py:411-428 | Returns one pair per rejected sample with an accepted one above it; empty exactly when no rejected sample lies below an accepted one |
| `Capacity.ContradictionsWitnessed` | Code/gridmind_mini/capacity.py:411-428 | Each reported pair is a rejected sample and the least accepted sample above it, with their recommendations |
| `Capacity.EveryContradictionListed` | Code/gridmind_mini/capacity.py:411-428 | And every rejected sample with an accepted one above it has its pair, with both recommendations |
| `Capacity.EndsContradict` | Code/gridmind_mini/capacity.py:122-140 | Over the two ends alone, the lower rejected and the upper accepted, the list is just that pair; it is the one a fallback reports |
| `Capacity.RejectionMeaning` | Code/gridmind_mini/capacity.py:311-363 | A sample records its report; its limiting summary, given exactly when it is not accepted, is the baseline error, the first stage that failed, is borderline, not implemented or not run, or without one the verdict |
| `Capacity.RejectedSampleMeaning` | Code/gridmind_mini/capacity.py:311-363 | Over the assessment itself: a size the network does not take is explained by the diverged baseline, by the steady-state stage where the project's own power flow diverges or some finding was not there before, and by the N-1 stage otherwise |
| `Capacity.FallbackScanResult` | Code/gridmind_mini/capacity.py:262-308 | The scan evaluates exactly the evenly spaced points; best is the greatest accepted sample, first rejected the least rejected one above it |
| `Capacity.ScanSpacing` | Code/gridmind_mini/capacity.py:262-268 | Neighbouring scan points are (max - min) / (coarse_scan_points - 1) apart |
| `Capacity.FallbackConclusion` | Code/gridmind_mini/capacity.py:130-140 | After the scan max_mw is the best approved sample and no rejected sample lies above it |
| `Capacity.FallbackScanCost` | Code/gridmind_mini/capacity.py:262-268 | With pairwise distinct keys the scan takes coarse_scan_points - 2 fresh evaluations |
| `Capacity.LimitOnlyIfTooWide` | Code/gridmind_mini/capacity.py:186-221 | `iteration_limit` arises exactly when tolerance * 2^max_iterations < max - min, `bounded` exactly when the halvings made reach the tolerance |
| `Capacity.StopsAtLeastHalving` | Code/gridmind_mini/capacity.py:186-218 | No smaller number of halvings reaches the tolerance |
| `Capacity.LimitIsBracketed` | Code/gridmind_mini/capacity.py:142-242 | If acceptance is downward closed between the lower bound and any size from the upper one on, then in that range everything up to the best approved sample is acceptable and nothing from the upper bound on is, the two are within tolerance when `bounded`, and there is no fallback |
| `Capacity.LimitOnGrid` | Code/gridmind_mini/capacity.py:142-242 | The same read off the network: if in the range every size below one the network takes is taken too, the reported bounds bracket the sizes it takes |
| `Capacity.LimitedGridTakes` | Code/gridmind_mini/capacity.py:311-329 | A network that meets that premise: one line overloaded by projects above a limit takes exactly the sizes from 0 to the limit |
| `Capacity.LimitIsFound` | Code/gridmind_mini/capacity.py:142-242 | On that network every run with the limit between its bounds bisects and brackets the limit, within tolerance when `bounded` |
| `Capacity.MergedEndsReportUnsampled` | Code/gridmind_mini/capacity.py:165-184 | `max_bound_approved` rests on a sample at max_mw exactly when the two ends have different keys or are equal; otherwise the reported maximum was never evaluated |
| `Capacity.MergedEndsExample` | Code/gridmind_mini/capacity.py:96 | 0 and 4e-10 are two ends under one key |
| `Capacity.Round9Key` | Code/gridmind_mini/capacity.py:96 | `round(x, 9)` is monotone and separates points more than half of any tolerance >= 2e-9 apart |
| `Capacity.AcceptedSampleMeaning` | Code/gridmind_mini/capacity.py:311-329 | A sample is accepted exactly when the connection can be attached, both power flows converge, every finding was there before, and (if N-1 is on) every outage that fails with the project failed the same way without it |
| `Prelude.LimitItems` | Code/gridmind_mini/capacity.py:495-501 | Listed entries are a prefix, and listed plus truncated is the total |
| `Rounding.RoundHalfEvenUnique` | Code/gridmind_mini/capacity.py:96 | The rounding function is the only one within one half of its argument that takes ties to even numbers |
| `Rounding.Round9CollidesAtOneNano` | Code/gridmind_mini/capacity.py:96 | Points exactly 1e-9 apart may share a memo key |
| `Network.Graph.AddEdge` | Code/gridmind_mini/real_case_dossier.py:686-690 | Joins the two buses both ways unless one is missing (equal buses are joined to themselves); every other adjacency is unchanged |
| `Network.Graph.AddWinding` | Code/gridmind_mini/real_case_dossier.py:677-682 | Joins exactly the pairs of different buses of a three-winding transformer |
| `Network.NetworkEdges` | Code/gridmind_mini/real_case_dossier.py:670-683 | Two buses are adjacent exactly when some row of the three tables links them |
| `Network.BfsBuses` | Code/gridmind_mini/real_case_dossier.py:693-705 | The queue search terminates and returns the ball of the given radius (0 for a negative depth), whatever the order of neighbours |
| `Network.BallIsJoinedWithin` | Code/gridmind_mini/real_case_dossier.py:693-705 | The ball holds exactly the ends of paths of at most that many edges |
| `Network.BallMonotone` | Code/gridmind_mini/real_case_dossier.py:693-705 | A larger depth only adds buses |
| `Network.JoinedWithinSymmetric` | Code/gridmind_mini/real_case_dossier.py:686-705 | On a symmetric graph being within reach is mutual |
| `Network.RowsTouching` | Code/gridmind_mini/real_case_dossier.py:717-727 | The rows with an end among the buses, in table order, cut to max_rows |
| `Network.WindingsTouching` | Code/gridmind_mini/real_case_dossier.py:730-751 | The three-winding rows with any bus among the buses, in table order, cut to max_rows |
| `Network.TouchingMeaning` | Code/gridmind_mini/real_case_dossier.py:708-751 | A branch or two-winding row touches the buses with either end, a three-winding row with any of its three, a bus row with its own number; a missing end touches nothing |
| `Network.CutMeaning` | Code/gridmind_mini/real_case_dossier.py:708-751 | A list cut to max_rows holds selected rows only, and short of the cut all of them |
| `Network.InspectNeighbourhood` | Code/gridmind_mini/real_case_dossier.py:216-256 | Errors exactly for unusable arguments; otherwise depth is clamped to 3, a bus is listed exactly when equipment leads there from the start (and back) within that depth, the bus rows and the three tables are those of the listed buses, and the top loading is that of the listed branches |
| `Network.MaxLoading` | Code/gridmind_mini/real_case_dossier.py:754-760 | The greatest loading of the rows that have one, None if none has |
| `Agent.RunTurn` | Code/gridmind_mini/agent.py:155-276 | A blank message is refused; else a gate that speaks decides the turn without any model or registry call; else the result is one of the round loop. On every exit the output is the checked form of the final text: if that text makes an unsafe numeric claim, the output has the warning or a successful record names a grounding-capable tool, and nothing else is added |
| `Agent.RunRounds` | Code/gridmind_mini/agent.py:194-276 | For every model and registry: the transcript is the prompt, then rounds of one assistant message with k >= 1 calls and k tool messages, then a call-free assistant message exactly if completed; each model call sees the transcript so far; model calls = llm_rounds <= maximum; records, invoked tools and registry calls are those of the rounds; the final text is the trimmed last answer (the report when blank) or the fixed text with the report, and grounding and output are computed from it |
| `Agent.ExecuteCalls` | Code/gridmind_mini/agent.py:234-250 | One record per call with its id, name and arguments, each answering its call in the state left by the calls let through before it; invoked names are those of the ok records; the calls executed are those the branch with the registry handled, so refused ones are not |
| `Agent.ToolMessagesAnswer` | Code/gridmind_mini/llm.py:394-418 | Tool message i carries the id and name of call i and the (possibly truncated) payload of record i, within the size limit |
| `Agent.TruncationLaws` | Code/gridmind_mini/llm.py:405-412 | A content is cut to exactly the limit, left alone below it, and otherwise a prefix followed by the marker |
| `Agent.GuardIsRespected` | Code/gridmind_mini/agent.py:423-478 | Every record of a turn: a call the guard refuses leaves the policy's result, not ok, and never reaches the registry; any other is the registry's next call and leaves the `ok` and the result the registry gave for it after the calls let through before it, and its name counts as invoked if that was ok |
| `Agent.InvokedToolsSucceeded` | Code/gridmind_mini/agent.py:234-242 | A name counts as invoked only if the registry executed a call of that name and answered it with ok |
| `Agent.MessagesOfTurn` | Code/gridmind_mini/agent.py:206-276 | The messages of a turn place by place: the prompt, then per round the model's message and one message per call, in order; a completed turn ends with the model's answer |
| `Agent.LoopTextMeaning` | Code/gridmind_mini/agent.py:206-276 | An answer with ink in it is never replaced, a blank one exactly by a configured report; after the last round the fixed text stands, with the report if configured |
| `Agent.GatesMeaning` | Code/gridmind_mini/agent.py:167-192 | Which gate speaks and what it says: a forced route, then the limitation, then the readiness question; none exactly when all are silent |
| `Agent.RecordsAreConserved` | Code/gridmind_mini/agent.py:234-241 | Records of a turn = registry calls + refusals |
| `Agent.GatesGrounded` | Code/gridmind_mini/agent.py:278-421 | Every gate result answers before any model call, has at most the forced record, lists its name exactly if ok, and is grounded |
| `Grounding.FindNumericClaims` | Code/gridmind_mini/anti_hallucination.py:848-880 | The two scanning loops and the sort compute the claim list |
| `Grounding.MatchOfClaim` | Code/gridmind_mini/anti_hallucination.py:848-880 | Every claim reports a listed match of one of the two patterns: its span, the text there, its number and unit, and whether the safety test passes it |
| `Grounding.ClaimOfMatch` | Code/gridmind_mini/anti_hallucination.py:848-880 | Every listed match is reported, and there are as many claims as listed matches |
| `Grounding.PassedOverOnlyForEarlier` | Code/gridmind_mini/anti_hallucination.py:853-873 | Which matches are listed: one is passed over only for an earlier listed one that it overlaps |
| `Grounding.ListedApart` | Code/gridmind_mini/anti_hallucination.py:853-873 | No two listed matches overlap |
| `Grounding.ClaimsDisjoint` | Code/gridmind_mini/anti_hallucination.py:848-880 | Claims come in order of position and do not overlap |
| `Grounding.ClaimsCoverMatches` | Code/gridmind_mini/anti_hallucination.py:848-880 | Every match of either pattern overlaps a listed claim |
| `Grounding.GroundedOutput` | Code/gridmind_mini/anti_hallucination.py:883-917 | The warning is appended exactly if some listed match fails the safety test and no capable tool was invoked; the unsafe claims are then named and the output contains the warning, otherwise the text is unchanged |
| `Cia.CompareViolationReports` | Code/gridmind_mini/cia.py:344-392 | The loop, the sort and the counts compute the comparison the following rows are about |
| `Cia.CompareLists` | Code/gridmind_mini/cia.py:344-413 | An entry is listed exactly for a post finding that is new, more severe, newly over its limit or worse by more than the threshold than the last baseline finding with its key |
| `Cia.DescribeMeaning` | Code/gridmind_mini/cia.py:351-413 | What an entry says: new exactly without a baseline finding of its key; otherwise compared with the last such one, with the growth of the margin, as more severe, newly over its limit, or only further along |
| `Cia.CompareListsWorstFirst` | Code/gridmind_mini/cia.py:649-656 | Hard entries before borderline ones, larger margins before smaller ones |
| `Cia.CompareBlames` | Code/gridmind_mini/cia.py:344-392 | Hard and borderline counts add up to the list, the hard count is positive exactly if a hard finding is blamed, the list is empty exactly if everything was there before |
| `Cia.ComparePartition` | Code/gridmind_mini/cia.py:344-392 | Blamed and tolerated findings partition the post findings with multiplicity; the list is sorted worst first |
| `Cia.CompareCounts` | Code/gridmind_mini/cia.py:344-413 | New, worsened and tolerated findings add up; the new ones are those without a baseline finding of their key |
| `Cia.CompareWithSelf` | Code/gridmind_mini/cia.py:344-413 | With distinct keys and a non-negative threshold a report compared with itself blames nothing |
| `Cia.SelfComparisonExact` | Code/gridmind_mini/cia.py:344-413 | A report compared with itself blames nothing exactly when no finding is worse than the last one with its key |
| `Cia.RepeatedKeyBlamesItself` | Code/gridmind_mini/cia.py:351-354 | Two bus rows without a readable index, the worse one first, make a report that blames itself |
| `Cia.CompareThresholdMonotone` | Code/gridmind_mini/cia.py:395-413 | Raising the threshold only shrinks the blamed multiset |
| `Cia.RecommendStages` | Code/gridmind_mini/cia.py:496-518 | The loops over the stages compute the recommendation, its reason codes and completeness |
| `Cia.RecommendApproves` | Code/gridmind_mini/cia.py:496-518 | Approve exactly when the steady stage neither failed nor is borderline and no later stage failed or is not implemented |
| `Cia.RecommendMeaning` | Code/gridmind_mini/cia.py:496-518 | Reject exactly when the steady or a later stage failed; borderline exactly when none did and a stage is not implemented or the steady one is borderline; incomplete exactly for a stage that is not implemented |
| `Cia.RecommendReasons` | Code/gridmind_mini/cia.py:496-518 | The reasons are those of the steady stage and, unless it failed, of the failed stages, or else of the ones not implemented |
| `Cia.SteadyStageCodes` | Code/gridmind_mini/cia.py:446-493 | The steady stage names hard and borderline findings caused, or none, and those that were there before |
| `Cia.RunStages` | Code/gridmind_mini/cia.py:209-281 | The four stages of a run that solves, read off the network: each one's status and whether it passed |
| `Cia.VerdictIsExact` | Code/gridmind_mini/cia.py:111-281 | End to end: reject exactly when the project's power flow diverges, a hard finding was not there before, an outage fails in a way that was not there before, or an unblocked EMT screen fails; borderline exactly when none holds and some finding was not there before or a transient study is asked for; `complete` exactly without an unblocked transient study, or after a divergence without any stage asked for |
| `Cia.DivergedReport` | Code/gridmind_mini/cia.py:283-341 | After a divergence with the project: the failed steady stage, and exactly the stages asked for, none run |
| `Cia.ApprovalIsExact` | Code/gridmind_mini/cia.py:111-281 | A run raises exactly when the baseline solves and the connection cannot be attached; it approves exactly when both power flows converge, every finding was there before, every outage that fails with the project failed the same way without it (if on), and the requested dynamic stages allow it |
| `Cia.OnlyBaselineFails` | Code/gridmind_mini/cia.py:111-207 | A report without recommendation arises exactly when the baseline power flow fails, an exception exactly when the connection cannot be attached to a solved baseline |
| `Cia.ApprovedStagesClean` | Code/gridmind_mini/cia.py:209-281 | An approved report is complete and lists no failed, blocked or unimplemented stage |
| `Cia.ApprovedEmtOutcome` | Code/gridmind_mini/cia.py:521-586 | In an approved run the EMT stage of a power-electronic project passed exactly if the strength covers 3.25 times the size; it is borderline from 3 times on and unavailable without a usable strength |
| `Cia.ApprovalToleratesEmt` | Code/gridmind_mini/cia.py:496-549 | On one network every strength from 3 times the size on, and none at all, is approved; the EMT stage is then unavailable, borderline or passed |
| `Contingencies.RunOne` | Code/gridmind_mini/contingency.py:79-135 | An outage passes exactly when its power flow converges without hard finding under the emergency limits; its failures carry that outage |
| `Contingencies.RunOneCounts` | Code/gridmind_mini/contingency.py:79-135 | Listed failures = hard count, plus one if the outage did not converge |
| `Contingencies.RunOneFailures` | Code/gridmind_mini/contingency.py:79-135 | The failures of an outage are its non-convergence, or exactly its hard findings under the emergency limits |
| `Contingencies.RunOneWorstFirst` | Code/gridmind_mini/contingency.py:79-135 | They are listed by falling margin |
| `Contingencies.RunOneStatus` | Code/gridmind_mini/contingency.py:79-135 | Fail exactly for divergence or a hard finding, borderline exactly for borderline findings only, pass exactly without any; the counts are those of the emergency report |
| `Contingencies.StudySummary` | Code/gridmind_mini/contingency.py:29-77 | A study evaluates the first max_contingencies outages (all when negative) in order; its four counts are the evaluated outages that pass, fail, have borderline findings only, and diverge; listed failures = hard findings + non-converged outages |
| `Contingencies.CompareContingencyStudies` | Code/gridmind_mini/contingency.py:138-189 | The nested loops compute the comparison the following rows are about |
| `Contingencies.CompareItems` | Code/gridmind_mini/contingency.py:154-173 | One pass over an outage's items lists the blamed and the materially worse ones, in order |
| `Contingencies.CompareBlamesExactly` | Code/gridmind_mini/contingency.py:146-176 | A change is listed exactly for an item whose signature is new, or that is materially worse and the flag is set |
| `Contingencies.DescribeMeaning` | Code/gridmind_mini/contingency.py:280-306 | What an entry says: new exactly without a baseline failure of its signature; otherwise the last such one, and the growth of the margin where both have one |
| `Contingencies.CompareListsWorsenings` | Code/gridmind_mini/contingency.py:154-173 | A worsening is listed exactly for an item whose margin exceeds that of the last baseline item with its signature by more than the threshold |
| `Contingencies.NotGrownNotListed` | Code/gridmind_mini/contingency.py:163-173 | With a non-negative threshold an item whose margin did not grow is never listed as a worsening, nor blamed |
| `Contingencies.CompareFailureCount` | Code/gridmind_mini/contingency.py:177-189 | The failure count is 0 exactly when no item is blamed |
| `Contingencies.ComparePartition` | Code/gridmind_mini/contingency.py:138-189 | New, worsened and tolerated items add up; failures = new, plus worsenings iff the flag is set |
| `Contingencies.CompareListsNonConvergenceFirst` | Code/gridmind_mini/contingency.py:332-342 | Non-convergence is listed before limit violations |
| `Contingencies.CompareWithSelf` | Code/gridmind_mini/contingency.py:138-189 | With distinct signatures and a non-negative threshold a study compared with itself blames nothing |
| `Contingencies.SelfComparisonExact` | Code/gridmind_mini/contingency.py:138-189 | A study compared with itself counts nothing as new, and a worsening exactly when some failure exceeds the last one with its signature by more than the threshold |
| `Contingencies.RepeatedSignatureBlamesItself` | Code/gridmind_mini/contingency.py:146-170 | Two hard findings of one outage on elements without a readable index make a study that blames itself under the flag |
| `Contingencies.CompareThresholdMonotone` | Code/gridmind_mini/contingency.py:138-189 | Raising the threshold only shrinks both lists and leaves the new failures alone |
| `Contingencies.Vocabulary` | Code/gridmind_mini/violations.py:160-345 | The element and violation names the inspector emits, and the outage names of the solver, hold no separator and are told apart by their text |
| `Contingencies.SignatureInjective` | Code/gridmind_mini/contingency.py:309-322 | Two signatures agree exactly when outage and finding agree, for everything the solver and the inspector emit; non-convergence never equals a finding |
| `Contingencies.SignatureCollides` | Code/gridmind_mini/contingency.py:309-318 | The fixed vocabulary is what keeps signatures apart: on free text the same construction collides |
| `Contingencies.JoinBySignatureIsJoinByKey` | Code/gridmind_mini/contingency.py:146-161 | The string-keyed join blames what the tuple-keyed join of the steady-state comparison would |
| `Contingencies.StudyFailuresMeaning` | Code/gridmind_mini/contingency.py:29-135 | A study's failures are exactly the ways in which its evaluated outages fail: divergence or a hard finding under the emergency limits |
| `Contingencies.NoFailureCounted` | Code/gridmind_mini/contingency.py:138-189 | The comparison counts no failure exactly when every way an evaluated outage fails with the project was there before, and under the flag has a margin at most the threshold above that of the last baseline failure of that outage and finding |
| `Contingencies.PreexistingIsFailedBefore` | Code/gridmind_mini/contingency.py:146-161 | A failure has a baseline counterpart exactly when its outage was evaluated without the project and diverged too, or had a hard finding with the same key |
| `Contingencies.ContingencyStageMeaning` | Code/gridmind_mini/contingency.py:192-230 | The N-1 stage fails exactly when some evaluated outage fails in a way not pardoned like that, and passes otherwise |
| `Contingencies.ContingencyStageCodes` | Code/gridmind_mini/contingency.py:192-230 | The reasons of the N-1 stage: new failures, worsenings, or none |
| `Emt.ScreenMeaning` | Code/gridmind_mini/emt.py:58-196 | Skipped exactly for a non-IBR project; passes, is borderline or fails exactly as the strength compares with the size times threshold and margin; fails without a size; raises exactly where the connection cannot be attached or no usable strength is to be had |
| `Emt.ScreenReport` | Code/gridmind_mini/emt.py:58-196 | The ratio is reported exactly where the project is screened, times the size it is the strength; the connection counts as applied exactly for a power-electronic project with a size; one reason, that of the status |
| `GridModel.ElectronicTypes` | Code/gridmind_mini/cia.py:434-435 | Of the connection types only loads and synchronous machines are not power-electronic by themselves |
| `Emt.ScreenAntitone` | Code/gridmind_mini/emt.py:112-196 | At one strength, more active or reactive power makes the project larger and does not improve the outcome exactly if the smaller project has a size or the larger one fails: a project of size zero fails, so any power that passes improves on it |
| `Emt.RunAntitone` | Code/gridmind_mini/emt.py:58-196 | The same of the whole screen, for two projects that meet the same strength |
| `Integrated.VerdictOfStatuses` | Code/gridmind_mini/integrated_assessment.py:664-719 | Approve exactly if M1 passes and each enabled stage passed (EMT may be skipped) or was unavailable and not required; incomplete exactly for an M1 error or a first decisive stage that is required and missing |
| `Integrated.TransientOutcome` | Code/gridmind_mini/integrated_assessment.py:285-366 | The transient stage of a request with what the simulation answers: passed = ok and stable; borderline = borderline stability, ok or not; failed = ok and neither; otherwise, or without a disturbance, unavailable |
| `Integrated.EmtOutcome` | Code/gridmind_mini/integrated_assessment.py:368-435 | The EMT stage of a request on its case: passed or skipped, borderline, failed or unavailable, by strength, size, thresholds and whether the project can be attached and solved |
| `Integrated.TransientFields` | Code/gridmind_mini/integrated_assessment.py:285-366 | When the transient stage counts as passed, open, required and modelled with the connection |
| `Integrated.EmtFields` | Code/gridmind_mini/integrated_assessment.py:368-435 | The same for the EMT stage |
| `Integrated.ApprovalIsExact` | Code/gridmind_mini/integrated_assessment.py:152-435 | End to end, with the EMT screen on the case its request names: approve exactly if case data is there, the network accepts the project, and the transient and EMT stages allow it; an exception exactly for a connection that cannot be attached outside strict alignment |
| `Integrated.RejectionIsExact` | Code/gridmind_mini/integrated_assessment.py:152-435 | End to end: reject exactly if case data is there and the baseline or the project's power flow diverges, a hard finding or an outage is to blame on the project, or the network accepts it and the first later stage that decides fails |
| `Integrated.IncompleteIsExact` | Code/gridmind_mini/integrated_assessment.py:152-435 | End to end: incomplete exactly for missing case data, a connection that cannot be attached, a failed baseline, or a first decisive stage that is required and missing |
| `Integrated.ReasonsCarried` | Code/gridmind_mini/integrated_assessment.py:664-678 | The verdict carries every stage's reasons in order, marked with the stage |
| `Integrated.EmtMonotone` | Code/gridmind_mini/integrated_assessment.py:664-719 | Worsening only the EMT outcome never improves the verdict |
| `Integrated.BorderlineM1ImprovesExactly` | Code/gridmind_mini/integrated_assessment.py:680-719 | Not so for M1: a borderline M1 beats a passing one exactly where a later stage would have rejected |
| `Integrated.BorderlineM2ImprovesExactly` | Code/gridmind_mini/integrated_assessment.py:687-719 | Nor for M2: a borderline M2 beats a passing one exactly where the EMT screen fails |
| `Trajectories.SampleIndices` | Code/gridmind_mini/dynamic.py:1393-1407 | Indices are strictly increasing and in range, exactly min(length, max_samples) many, from 0 to length - 1, rounded half to even, with gaps of at most the step plus one; so removing duplicates removes nothing |
| `Trajectories.IndexGap` | Code/gridmind_mini/dynamic.py:1402-1407 | Neighbouring rounded indices differ by at least one and at most the step plus one |
| `Trajectories.IndexRange` | Code/gridmind_mini/dynamic.py:1402-1407 | The first rounded index is 0, the last length - 1, all lie between |
| `Trajectories.IndexNearest` | Code/gridmind_mini/dynamic.py:1402-1407 | Each index is the whole number nearest to i (length - 1) / (max_samples - 1), the even one of two |
| `Trajectories.FirstTimeVectorMeaning` | Code/gridmind_mini/dynamic.py:1369-1373 | Times come from the first series that has any: angle, then speed, then voltage |
| `Trajectories.CompactTrajectories` | Code/gridmind_mini/dynamic.py:1062-1083 | Kept plus truncated is the raw count in every case; times and rows are those at the sampled indices |
| `Trajectories.PayloadAligned` | Code/gridmind_mini/dynamic.py:1376-1384 | A series as long as the time vector contributes one row per kept time point |
| `Stability.StabilityMeaning` | Code/gridmind_mini/dynamic.py:1086-1146 | Fail exactly if the simulation did not converge or some value breaks a limit; pass exactly if it converged, all data is there and every value keeps its limit |
| `Stability.MetricsMeaning` | Code/gridmind_mini/dynamic.py:1086-1126 | The metrics are there exactly with data, and within any limit exactly if every sample is |
| `Stability.FinalSpreadMeaning` | Code/gridmind_mini/dynamic.py:1086-1126 | The final spread is the largest difference in the last row of angles |
| `Stability.ReasonsMeaning` | Code/gridmind_mini/dynamic.py:1086-1146 | Which reason codes are given: a series without data, one beyond its threshold, no convergence, or all within |
| `Stability.SpreadIsLargestDifference` | Code/gridmind_mini/dynamic.py:1451-1459 | A row's spread is within a limit exactly if every difference in it is |
| `Stability.PassOnSubTrace` | Code/gridmind_mini/dynamic.py:1086-1146 | A passing trace passes on any selection of its rows exactly if every series keeps data |
| `Stability.PassOnPrefix` | Code/gridmind_mini/dynamic.py:1086-1146 | In particular on every prefix |
| `Stability.PassOnSamples` | Code/gridmind_mini/dynamic.py:1062-1146 | In particular on the sampled rows |
| `Stability.SamplesKeepFirstRow` | Code/gridmind_mini/dynamic.py:1376-1407 | Sampling from index 0 keeps the first row of every series that has one |
| `Stability.PassWhenSampled` | Code/gridmind_mini/dynamic.py:1062-1146 | So a passing trace whose series start with data passes when sampled |
| `Stability.PassWhenDisplayed` | Code/gridmind_mini/dynamic.py:1376-1384 | And passes as displayed, rounded to nine decimals, once spreads are allowed 1e-9 and single values half of that more |
| `Stability.RelaxingNeverWorsens` | Code/gridmind_mini/dynamic.py:1129-1146 | Relaxing the thresholds never worsens the classification |
| `Stability.MergedTimeSeries` | Code/gridmind_mini/dynamic.py:1350-1366 | The loop joins the present parts side by side in order, over the rows all of them have; None exactly if no part has rows |
| `Stability.PresentInOrder` | Code/gridmind_mini/dynamic.py:1350-1354 | The parts are the series with rows, in the order given |
| `Stability.MergedColumnPlaces` | Code/gridmind_mini/dynamic.py:1355-1366 | Every merged value stands under the column it came from |
| `Stability.MergedSpreadDominates` | Code/gridmind_mini/dynamic.py:1350-1366 | Over the common rows the merged spread is at least each part's |
| `Stability.MergedSpreadExact` | Code/gridmind_mini/dynamic.py:1350-1366 | The merged spread dominates a part's exactly if it dominates that of the rows the merge drops |
| `Stability.MergedHidesOnlyTheTail` | Code/gridmind_mini/dynamic.py:1350-1366 | Where the merged series keeps a limit, a part keeps it exactly if its dropped rows do; always when the row counts are equal |
| `Stability.MergingHidesExcess` | Code/gridmind_mini/dynamic.py:1086-1146 | When the merged trace does not fail, judging by a part's own angles fails exactly if the part exceeds the threshold in a dropped row |
| `Stability.MergingHidesSpeedExcess` | Code/gridmind_mini/dynamic.py:1086-1146 | The same for generator speeds, which are merged alike |
| `Stability.MergedDropsTail` | Code/gridmind_mini/dynamic.py:1355-1366 | A merge of two series with a spread of 0 although one of them spreads to 9 |
| `Memory.StudyMemoryStore.AppendRecord` | Code/gridmind_mini/memory.py:101-105 | The log grows by exactly that record; the ledger becomes the projection of the new log, or stays and an error is raised when the log cannot be read |
| `Memory.StudyMemoryStore.LoadRecords` | Code/gridmind_mini/memory.py:107-123 | The loop returns the records of the log or the first unreadable line |
| `Memory.LoadedMeaning` | Code/gridmind_mini/memory.py:107-123 | Loading succeeds exactly when every line is readable, gives the trimmed payloads in order, and otherwise names the first bad line |
| `Memory.AppendRoundTrip` | Code/gridmind_mini/memory.py:56-72 | An appended record is read back as itself exactly when its text fields are trimmed |
| `Memory.AppendsReadBack` | Code/gridmind_mini/memory.py:101-123 | After any run of appends of trimmed records, loading returns them in order |
| `Memory.BlankRecordPoisonsLog` | Code/gridmind_mini/memory.py:101-123 | One appended record with a blank required field makes every later load fail |
| `Memory.StudyMemoryStore.RegenerateLedger` | Code/gridmind_mini/memory.py:224-255 | The ledger is the header and one row per record, newest first |
| `Memory.RowHasItsCells` | Code/gridmind_mini/memory.py:240-254 | Any fields make a row that, cut at pipes not preceded by a backslash (GFM section 4.10, Tables), gives exactly their padded cells between two empty ends |
| `Memory.CellRoundTrip` | Code/gridmind_mini/memory.py:511-512 | Dropping the backslashes before pipes gives a cell's text back, line breaks as blanks |
| `Memory.LedgerRowReadsBack` | Code/gridmind_mini/memory.py:239-254 | A ledger row has exactly eight cells: time, tool, case, bus, type, size, status and summary, each giving back its text |
| `Memory.LedgerShows` | Code/gridmind_mini/memory.py:224-255 | The ledger lists every record once, newest first, those of one moment in the order of the log |
| `Memory.FlattenMeaning` | Code/gridmind_mini/memory.py:511-512 | Reading back changes nothing but line breaks, each to one blank |
| `Memory.RecallIsNewest` | Code/gridmind_mini/memory.py:125-154 | A recall has min(limit, matches) entries (all for a negative limit), newest first, and no omitted match is strictly newer than a listed one |
| `Memory.RecallTimestamps` | Code/gridmind_mini/memory.py:410-417 | On the timestamps: none listed is newer than one before it, none left out newer than one listed |
| `Text.LexMeaning` | Code/gridmind_mini/memory.py:410-417 | Timestamps compare as strings: a prefix comes first, otherwise the smaller character at the first difference decides |
| `Memory.MatchMeaning` | Code/gridmind_mini/memory.py:125-154 | What a recall asks of a record's fields: the trimmed, folded case path, and the bus number |
| `Memory.SearchMeaning` | Code/gridmind_mini/memory.py:156-180 | A search looks for every term in the folded tool, case, type, status, summary and data, and compares the case if given |
| `Memory.CapacityRunMeaning` | Code/gridmind_mini/memory.py:182-208 | A capacity recall asks for the capacity tool, and for the case, bus and type that are given |
| `Memory.RecallMembers` | Code/gridmind_mini/memory.py:125-208 | Only matching records are returned, and all of them while the list is short of its limit |
| `Memory.RecallTiesKeepOrder` | Code/gridmind_mini/memory.py:410-417 | Matches with the same timestamp keep the order of the log and are cut from the end |
| `Memory.AppendedIsRecalled` | Code/gridmind_mini/memory.py:101-127 | A trimmed record appended with the latest timestamp heads the recent list |
| `Memory.StudyMemoryStore.Recent` | Code/gridmind_mini/memory.py:125-127 | The recall of everything, or the log's error |
| `Memory.StudyMemoryStore.RecallBus` | Code/gridmind_mini/memory.py:129-145 | The recall of records on the case and bus, an error for a blank case path, or the log's error |
| `Memory.StudyMemoryStore.RecallCase` | Code/gridmind_mini/memory.py:147-154 | The recall of records on the case, with the same errors |
| `Memory.StudyMemoryStore.Search` | Code/gridmind_mini/memory.py:156-180 | The recall of records mentioning every word of the query, on the case if given; nothing without words |
| `Text.WordsMeaning` | Code/gridmind_mini/memory.py:168 | The words of a query are its stretches without blanks: none empty, none with a blank, nothing but blanks lost |
| `Text.WordsSplitAtBlanks` | Code/gridmind_mini/memory.py:168 | A text without blanks is one word, and words end exactly at blanks |
| `Text.StripMeaning` | Code/gridmind_mini/memory.py:56-72 | Trimming cuts all blanks from both ends and nothing else |
| `Memory.StudyMemoryStore.RecallMaxCapacity` | Code/gridmind_mini/memory.py:182-208 | The recall of capacity runs passing every given filter, with errors for blank filters |
| `Prompting.DedupeRecords` | Code/gridmind_mini/prompting.py:344-352 | The loop with its seen set keeps the records whose id no earlier one carries |
| `Prompting.DedupeMeaning` | Code/gridmind_mini/prompting.py:344-352 | Every id appears exactly once |
| `Prompting.DedupeKeepsFirst` | Code/gridmind_mini/prompting.py:344-352 | Each id is represented by its first occurrence |
| `Prompting.DedupeGrows` | Code/gridmind_mini/prompting.py:344-352 | Further tiers only add at the end, so first occurrences keep their order |
| `Prompting.SelectRelevantMemory` | Code/gridmind_mini/prompting.py:188-225 | The four tiers, each asked only while the list is short, merged and cut; errors of the limit, the arguments or the log end it |
| `Prompting.GatheredMeaning` | Code/gridmind_mini/prompting.py:200-223 | Over a readable log the selection succeeds exactly when the hints pass the checks of the recalls asked, and then merges the tiers |
| `Prompting.BusTierMeaning` | Code/gridmind_mini/prompting.py:200-210 | The bus tier holds records on the hinted case and bus, all of them while short of the limit |
| `Prompting.CaseTierMeaning` | Code/gridmind_mini/prompting.py:211-214 | The case tier holds records on the hinted case, all of them while short of the limit |
| `Prompting.CapacityTierMeaning` | Code/gridmind_mini/prompting.py:215-221 | The capacity tier holds capacity runs with the hinted case, bus and type, all of them while short of the limit |
| `Prompting.RecentTierMeaning` | Code/gridmind_mini/prompting.py:222-223 | The last tier holds any records, all of them while short of the limit |
| `Prompting.SelectionIsDuplicateFree` | Code/gridmind_mini/prompting.py:225 | With unique ids: at most limit records of the log, each once |
| `Prompting.BusRecordsComeFirst` | Code/gridmind_mini/prompting.py:200-225 | With unique ids the bus records come first and none is displaced |
| `Prompting.CaseFillsPrompt` | Code/gridmind_mini/prompting.py:200-225 | With a known case at least min(limit, records of the case) entries |
| `Prompting.RecentFillsPrompt` | Code/gridmind_mini/prompting.py:222-225 | If the earlier tiers list fewer than limit entries, exactly min(limit, all records) entries |
| `Prompting.RepeatsStarvePrompt` | Code/gridmind_mini/prompting.py:200-225 | How many records are shown, exactly: with b, n and c matches of the bus, case and capacity tier, only the n records of the case if (b, n < limit <= b + n) or (b + n, c < limit <= b + n + c), and min(limit, all records) otherwise; so the prompt falls short exactly then, if the log has records of other cases |
| `Prompting.StarvedPromptExample` | Code/gridmind_mini/prompting.py:200-225 | Two records, one of the case and on the bus, limit 2: one is shown |
| `Prompting.TiersKeepOrder` | Code/gridmind_mini/prompting.py:200-225 | The tiers asked first head the selection up to its cut: bus, then case, then capacity, then recent |
| `JointBenchmark.LabelAgreesExactly` | Code/gridmind_mini/joint_benchmark.py:1536-1550 | The label function agrees with the real decision for every M2 and EMT outcome except exactly three families: an advisory M2 failure not masked by an EMT failure, a required M2 stage without outcome not masked by a borderline EMT screen, and a required EMT stage without outcome where M2 passed or has none and is not required |
| `JointGenerator.LabelIsTheDecision` | Code/gridmind_mini/joint_benchmark.py:1307-1425 | For every draw the frozen label is the real decision on a passing M1, a passing M2 and the template's EMT status |
| `JointGenerator.LabelIsTheVerdict` | Code/gridmind_mini/joint_benchmark.py:1307-1425 | End to end: where the network accepts the project, the transient study passes and the grid answers as the template assumes, the integrated assessment returns the label |
| `JointGenerator.TemplateComputesTheLabelledStatus` | Code/gridmind_mini/joint_benchmark.py:2255-2346 | The template computes for itself the status the label was made from |
| `JointGenerator.ScreenAgrees` | Code/gridmind_mini/joint_benchmark.py:1517-1533 | The generated EMT status is what the real screen returns on a grid with the tabled strengths |
| `JointGenerator.GeneratedStatusAntitone` | Code/gridmind_mini/joint_benchmark.py:1517-1533 | More power in P or Q does not improve the generated status exactly if the smaller project has a size or the larger one fails |
| `JointGenerator.ZeroSizeFails` | Code/gridmind_mini/joint_benchmark.py:1525-1526 | At bus 5 a solar project of 0 MW fails and one of 1 MW passes |
| `JointGenerator.UniqueGeneratedId` | Code/gridmind_mini/joint_benchmark.py:1553-1573 | The loop terminates with the first candidate not in use |
| `JointGenerator.BaseIdsDiffer` | Code/gridmind_mini/joint_benchmark.py:1563-1566 | Within one run the index alone keeps ids apart, whatever was drawn |
| `JointGenerator.GenerateScenarios` | Code/gridmind_mini/joint_benchmark.py:1204-1241 | An error exactly for a bad count or profile; otherwise scenario i is the one drawn for i under its plain id, so the suffix loop never runs |
| `JointGenerator.DrawnSpec` | Code/gridmind_mini/joint_benchmark.py:1351-1363 | A scenario has an EMT part exactly in the two EMT profiles, or in the mixed one when drawn; the part is enabled, required only of power-electronic projects, at a threshold of 3 outside the hard profile |
| `JointGenerator.DrawnRequest` | Code/gridmind_mini/joint_benchmark.py:1315-1349 | What else a scenario takes from its draw, with the fault cleared at the drawn time to the nearest thousandth |
| `JointGenerator.GeneratedIdsDiffer` | Code/gridmind_mini/joint_benchmark.py:1227-1241 | The ids of a run are pairwise different |
| `JointGenerator.NeverUnsupported` | Code/gridmind_mini/joint_benchmark.py:3096-3114 | No case name is normalised to the unsupported one, so the template's unsupported branch is never taken |
| `JointGenerator.GeneratedPassOwnChecks` | Code/gridmind_mini/joint_benchmark.py:2597-2667 | Every generated scenario passes all its own argument, result and comparison checks |
| `JointChecks.OwnChecksExact` | Code/gridmind_mini/joint_benchmark.py:1797-1971 | A scenario's template passes its own checks exactly when a successful M2 has a supported dynamic case and an EMT block, if any, says it is enabled |
| `JointChecks.ArgumentsExact` | Code/gridmind_mini/joint_benchmark.py:2597-2625 | The argument checks pass exactly when an EMT block, if any, states `enabled`, which has no default |
| `JointChecks.PassingArguments` | Code/gridmind_mini/joint_benchmark.py:2597-2625 | Arguments that pass a scenario's checks ask for its project: the same bus, type and flag, size and reactive power up to 1e-9 |
| `JointChecks.PassingResults` | Code/gridmind_mini/joint_benchmark.py:2628-2667 | A result that passes names its stages, EMT included when asked for; a successful transient stage has modelled the connection; a strict scenario fixes the EMT status |
| `JointChecks.PassingComparisons` | Code/gridmind_mini/joint_benchmark.py:2628-2667 | Comparisons that pass have found their value in both results: recommendation, completeness and the statuses of the stages |
| `JointChecks.TemplateMeaning` | Code/gridmind_mini/joint_benchmark.py:1974-2133 | The template shows the label, completeness and statuses of its scenario |
| `JointChecks.OracleArgumentChecks` | Code/gridmind_mini/joint_benchmark.py:2597-2625 | The tool alignment verdict, if a tool is expected, then one per expected argument, in order; all are positive exactly if everything passes |
| `JointChecks.OraclePathChecks` | Code/gridmind_mini/joint_benchmark.py:2628-2667 | One verdict per expected result and per comparison, in order; all are positive exactly if everything passes |
| `JsonPaths.ResolvePath` | Code/gridmind_mini/joint_benchmark.py:2958-2976 | The loop follows a path through objects and lists, or finds nothing |
| `JsonPaths.ResolveStops` | Code/gridmind_mini/joint_benchmark.py:2958-2976 | A path that leads nowhere leads nowhere however it goes on |
| `JsonPaths.MatchesItself` | Code/gridmind_mini/joint_benchmark.py:3016-3034 | Every value matches itself along every path; under an explicit tolerance exactly numbers do, and case names and public sources on their paths |
| `JsonPaths.NumberMatches` | Code/gridmind_mini/joint_benchmark.py:3029-3033 | A number matches exactly numbers within 1e-9, or the tolerance given; truth values never do |
| `JsonPaths.ExactMatches` | Code/gridmind_mini/joint_benchmark.py:3016-3034 | Any other value matches exactly by equality, where truth values count as 0 and 1; any value exactly by not being null; the public source by its three texts |
| `JsonPaths.CaseNameMatches` | Code/gridmind_mini/joint_benchmark.py:3025-3026 | Case names match exactly up to normalisation |
| `JsonPaths.ClearingTimeMeaning` | Code/gridmind_mini/joint_benchmark.py:3037-3075 | Clearing times after the fault start match within 1e-9; one not after it may also be a duration |
| `JsonPaths.LeftOutFlag` | Code/gridmind_mini/joint_benchmark.py:2998-3003 | A transient flag left out passes as true |
| `JsonPaths.LeftOutLimit` | Code/gridmind_mini/joint_benchmark.py:2998-3003 | A threshold or margin left out of an EMT block passes as 3 or 0.25 |
| `JsonPaths.LeftOutCase` | Code/gridmind_mini/joint_benchmark.py:2987-2989 | A dynamic case left out passes as the case of the request |

## Left out

- Foreign numeric code: pandapower, ANDES, PSS/E and numpy calls, and what they raise themselves; attaching a connection fails for a negative size, an unknown type or an unusable bus, and a solver is a deterministic function of the connection and the outage. Apparent power is an oracle `hypot`, constrained to be the root of the squares only where a lemma needs it.
- Floating-point rounding error, overflow, NaN and infinities: everything is stated over exact reals.
- The normalisation of request fields: a connection type arrives trimmed and in lower case, as the request parser leaves it.
- Argument type checks (`isinstance` of numbers, strings, booleans): the model's arguments are typed; range checks are modelled.
- JSON and CSV text: records and JSON values are datatypes. A file line is a blank line, a record, or unreadable; `Path`, directory creation and encodings are not part of this model.
- Regular expressions and keyword lists: patterns are functions returning spans, gate decisions and the policy guard are functions returning their outcome, and the warning text and the set of grounding-capable tools are parameters.
- Prompt text, tool catalogues, model listing, HTTP, and parsing of tool calls out of model text: the model is a function from the transcript to a content and a list of calls.
- Exceptions that end a turn (an error of the LLM client, or a registry error of a kind the agent does not catch) are not modelled; a caught one counts as a result that is not ok.
- Report extras: warnings, limitations, linkage notes, backend names, and the cut of report lists by max_violations and max_failed_contingencies; `Prelude.LimitItems` states the law of such a cut once.
- `_run_pflow_with_retries`, the conversion of tool results into study records, curated benchmark scenarios, the scoring of agent answers, and the simpler benchmarks: they would add only easy members.
- The clock and record ids: timestamps and ids are data of a record.
- Orders that do not matter: the neighbours of a bus are taken in arbitrary order during the search, which covers the ascending one.
- Capacity.Search: the assessment is a function of the MW value, so two assessments of one value agree.
- Grounding.FindNumericClaims: a claim does not carry its context window and the wording of the reason it is safe for, which are inputs and outputs of the safety oracle.
- Memory.StudyMemoryStore.Search: case folding is a parameter, because it is library behaviour.
- Memory.CellRoundTrip: line breaks come back as blanks, because the code does not keep them.
- Contingencies.SignatureInjective: it and the end-to-end theorems built on it assume an injective text form of the rounded limit, which `repr` of a float is.
- JsonPaths.ResolvePath: path parts are a closed set of names and list positions, because the text of a dotted path is split by a library call.
- JointGenerator.GenerateScenarios: draws are unrestricted values, so the lists the source draws from are not part of the model; user messages, tags and expected output words are left out.
- JointChecks.OwnChecksExact: extra expected results a curated scenario may pass in are not part of the model.
