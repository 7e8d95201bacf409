# Verified model of the sentHire screening core

This Dafny project models how sentHire screens applications, and proves what its documentation promises of
it. It covers the screening run as a protocol over a database row and unreliable messages, the way from rule
verdicts and model judgments to a score and a rank, the predicate language and the compiler in front of it,
selection and voting for deep analysis, and three self-contained algorithms: employment arithmetic, fixed-window
throttling, and iCalendar folding.

`dafny verify dfyconfig.toml` checks everything. Code that updates state in place is a class or a method with
loops; each such method is tied to a function of the old state, and the laws are proved about that function.

## Layout

| files | contents |
|---|---|
| `RunModel`, `RunHealth`, `RunSteps` | one run as a state machine: every task delivery, recovery, executions |
| `RunSafety`, `RunProgress` | what every execution keeps, and why recovery always gets a run to its end |
| `RunHistory`, `RunUnaided` | what each stored row tells about the run that wrote it; runs that need no recovery |
| `ScreeningTasks` | the tasks as they update a run in place, tied to the state machine |
| `Predicates`, `PredicateLaws`, `PredicateMeaning` | the three-valued language, its laws, what each construct says |
| `Spec`, `Deterministic`, `Anchors`, `Assemble`, `Scoring` | requirements, rule stage, ladders, merging, scorer |
| `ScoringLaws`, `PipelineLaws` | laws of the scorer, and laws across the stages |
| `ScoringMeaning`, `StageMeaning` | what verdicts are worth, and what each stage leaves on file for them |
| `Ranking`, `Evaluations`, `EvaluationLaws` | rows, the two ranking sites, human corrections |
| `RunResults` | the run protocol and its rows side by side: what a complete run has to show |
| `Compiler`, `CompilerLaws` | assembling a specification from a template and drafts |
| `Selection`, `SelectionLaws`, `Voting`, `VotingLaws` | deep-analysis selection, vote folding |
| `Derived`, `DerivedLaws` | intervals, totals and gaps over months |
| `Throttle`, `ThrottleLaws`, `Calendar`, `CalendarLaws` | rate limiting; content lines and escaping |
| `Applications`, `Wrappers`, `Integers`, `Sets`, `Sorting`, `Sums`, `Rounding` | shared vocabulary |

## How the model reads the program

- Messages of a run are a set that only grows: a message in it may be delivered at any later time, any number
  of times, or never. A step is one task delivery; `screen_application` is two, its check and its insert. Flags
  named `dies` stop a worker between two of its commits.
- Floats are reals, and `round` is rounding to the nearest multiple with ties to the even one. Times are
  integers: microseconds for the throttle, months for employment.
- A profile keeps the sections that predicates walk, and of its record lists what the registry reads. Number
  parsing, case folding and lower-casing are parameters. JSON booleans are numbers, as in Python comparisons.
- Judgments enter as arbitrary maps. Where a law needs it, it says so: the four verdict kinds of the judgment
  schema, confidences in [0, 1], ladders in [0, 1], non-negative weights, unique requirement ids.
- In voting, whether the quotes of a judgment are supported is an arbitrary predicate. In evaluations, whether a
  profile carries manipulation findings is a flag.
- Application ids are ordered like their text.

## Where the code is not what its documentation says

- `screening/assemble.py:4-9` gives both halves of a hybrid gate a veto. That holds for hard requirements
  (`PipelineLaws.EitherHalfFailsHard`). For disqualifiers and penalties "met" is the mildest severity, so both
  halves must agree (`PipelineLaws.BothHalvesMustDisqualify`, `PipelineLaws.BothHalvesMustPenalise`): a rule that
  cannot read its field lifts what a judge found (`PipelineLaws.DoubtLiftsDisqualifier`). The other way round a
  run is safe: a candidate the rules knocked out never passes (`PipelineLaws.KnockedOutNeverPasses`).
- `docs/03-data-model.md:401` and `docs/06-scoring-and-explainability.md:77` promise a mandatory review flag for a
  triggered disqualifier. The scorer raises it for the verdict kind `disqualified`, which no rule and no judge
  returns, so it is never raised (`PipelineLaws.DisqualifierNeverFlagged`).
- A human correction rebuilds the result from the scorer alone and so drops review flags raised elsewhere
  (`EvaluationLaws.CorrectionForgetsFlags`).
- `domain/ranking.py:1-7` has one ranking for both sites. `rerank_run` confirms `score_run` exactly when no row with
  a passing gate was stored as anything but passed (`EvaluationLaws.SitesAgreeExactly`). Unique requirement ids
  guarantee that (`EvaluationLaws.ActsAreSound`); without them it can fail (`EvaluationLaws.DuplicateIdsMislead`),
  and compilation makes ids unique exactly when the kept template ids are (`CompilerLaws.DraftsAddNoClash`).
- Drafted conditions without a value leave the rule without a warning (`CompilerLaws.ConditionsKept`,
  `CompilerLaws.ReportedExactly`, `CompilerLaws.ConditionLostSilently`), and a template's bonus cap is lost unless
  it is the default one (`CompilerLaws.BonusCapIsDefault`).
- The waiting time a refusal advises can be up to a second too short (`ThrottleLaws.RetryAdvice`).

## Model

| member | source | states |
|---|---|---|
| RunSafety.RunIsSafe | src/senthire/workers/tasks/screen.py:193-345 | From a fresh run, after any sequence of steps with messages lost, repeated or reordered and workers dying between commits: past screening there is exactly one row per profiled eligible application; a run in scoring or complete has every selected application at stage deep; every row at stage deep carries a deep result or the failure flag, unless it was copied at stage deep without either; and a run fails only over an exhausted batch wait |
| RunSafety.RunMarks | src/senthire/workers/tasks/screen.py:593-617 | Over any run, a row that reaches stage deep in it, other than by being copied there, carries a deep result or the failure flag |
| RunSafety.StepInv | src/senthire/workers/tasks/screen.py:326-345 | Every single task delivery, and recovery, keeps the inductive invariant behind that: population, deep phase, failure cause, row count, batches in flight |
| RunSafety.CountedAll | src/senthire/workers/tasks/screen.py:340-345 | Comparing the number of rows with the funnel total is the same as asking whether every application of the population has its row |
| RunSafety.EdgeWonOnce | src/senthire/workers/tasks/screen.py:326-337 | A phase change happens once: after a step has left a status, no continuation of the run ever shows that status again |
| RunSafety.RunKeepsRows | src/senthire/workers/tasks/screen.py:593-617 | Over any continuation no row is lost, a row at stage deep never changes again, and any other row only ever becomes its own deep version |
| RunProgress.ReissuedIsProductive | src/senthire/services/run_health.py:121-215 | Every message recovery re-issues is worth sending: completing any one of them strictly decreases the measure of phases, missing work and wait budget left |
| RunProgress.StepProgress | src/senthire/workers/tasks/screen.py:326-345 | No step of any kind undoes progress: each leaves the measure alone or decreases it |
| RunProgress.RoundIsProgress | src/senthire/services/run_health.py:106-215 | From every reachable unfinished state, recovery followed by anything in which one re-issued message is delivered to its end strictly decreases the measure |
| RunProgress.RoundExists | src/senthire/services/run_health.py:106-215 | Such a round is possible from every reachable unfinished state, even when every message sent before is lost |
| RunProgress.RecoveryConverges | src/senthire/services/run_health.py:106-215 | A run that keeps being recovered ends: complete, or failed by having polled a batch past the wait budget |
| RunHistory.FlagsTellTheTruth | src/senthire/workers/tasks/screen.py:720-772 | Over any execution, a row the run took to stage deep carries the failure flag exactly when the delivery that took it there reported a failure, and a deep result exactly when it did not; a deep row the run did not take there was there before or was copied as it is |
| RunHistory.DeepDeliveryMarks | src/senthire/workers/tasks/screen.py:720-772 | One deep delivery changes no row but its own, leaves a row that is deep already alone, and marks the row as failed exactly when the analysis failed |
| RunHistory.DeepPollMarks | src/senthire/workers/tasks/screen.py:891-913 | A finished deep poll takes exactly the rows asked for that are not deep yet to stage deep, flagged exactly for the applications whose individual result failed |
| RunHistory.LightPollStores | src/senthire/workers/tasks/screen.py:862-888 | A finished light poll leaves every stored row as it is and adds a light row, without a deep result, for everybody else in the batch |
| RunHistory.KnockoutsStored | src/senthire/workers/tasks/screen.py:272-318 | The economy-mode start stores copied rows as they are, clean knockouts as such, and nobody else |
| RunHistory.LightBatchAsks | src/senthire/workers/tasks/screen.py:272-318 | The light batch asks for exactly those in the population who are neither copied nor knocked out, and goes on record with no poll yet |
| RunHistory.StartFansOut | src/senthire/workers/tasks/screen.py:193-267 | The interactive start stores exactly the copied rows and asks for exactly everybody else in the population |
| RunHistory.CheckAdmits | src/senthire/workers/tasks/screen.py:439-453 | Screening one application goes on to its insert exactly in the two open phases and without a stored row, and changes nothing else |
| RunHistory.ScreeningStores | src/senthire/workers/tasks/screen.py:464-482 | The insert adds its own row at the stage reached, without a deep result, unless there is one, and touches no other |
| RunHistory.DeepFansOut | src/senthire/workers/tasks/screen.py:489-540 | Interactive deep analysis is asked for exactly those selected |
| RunHistory.DeepBatchAsks | src/senthire/workers/tasks/screen.py:544-586 | The deep batch asks for exactly those selected that have a row below stage deep, and goes on record with no poll yet |
| RunHistory.GivesUpExactly | src/senthire/workers/tasks/screen.py:799-824 | An unfinished poll is counted once, and the run fails with it exactly when the polls counted have used up the wait budget |
| RunUnaided.SelectedAreAnalysed | src/senthire/workers/tasks/screen.py:489-617 | Everybody the selection named is at stage deep whenever the run is later found scoring or complete, whatever was lost, repeated or recovered in between |
| RunUnaided.DrivingIsProductive | src/senthire/workers/tasks/screen.py:193-841 | In every reachable unfinished state there are messages any of which, delivered to its end, strictly decreases the measure |
| RunUnaided.HealthyRunDrivesItself | src/senthire/workers/tasks/screen.py:193-841 | A run whose workers survive their deliveries needs no recovery: in every state it reaches unfinished, such a message is there and has been sent already |
| ScreeningTasks.ScreeningRun.StartRun | src/senthire/workers/tasks/screen.py:193-267 | run_start in place performs exactly the modelled transition: copied rows, funnel total, phase, and one message per application or one batch |
| ScreeningTasks.ScreeningRun.StartLightBatch | src/senthire/workers/tasks/screen.py:272-318 | The economy-mode start stores clean knockouts at once and submits everybody else as one batch |
| ScreeningTasks.ScreeningRun.CheckApplication | src/senthire/workers/tasks/screen.py:439-453 | First half of screen_application: nothing happens outside screening and selecting or for a stored application |
| ScreeningTasks.ScreeningRun.CommitApplication | src/senthire/workers/tasks/screen.py:464-482 | Second half: the insert, or the uniqueness constraint keeping the first row, then the completion check |
| ScreeningTasks.ScreeningRun.Finalize | src/senthire/workers/tasks/screen.py:489-540 | finalize_run records the selection, claims the next phase through the guarded update, and dispatches deep work; it may stop at either commit |
| ScreeningTasks.ScreeningRun.StartDeepBatch | src/senthire/workers/tasks/screen.py:544-586 | The deep batch asks for exactly the selected stored rows that are not deep yet; with none the run goes to scoring |
| ScreeningTasks.ScreeningRun.DeepenApplication | src/senthire/workers/tasks/screen.py:720-772 | deep_application changes at most its own row, once, and then checks the phase |
| ScreeningTasks.ScreeningRun.Poll | src/senthire/workers/tasks/screen.py:783-841 | poll_batch drains a finished batch, counts an unfinished poll, and fails the run exactly when the polls have used up the wait |
| ScreeningTasks.ScreeningRun.DrainDeepBatch | src/senthire/workers/tasks/screen.py:891-913 | Draining in any result order touches exactly the rows answered for that are not deep yet |
| ScreeningTasks.ScreeningRun.RecoverRun | src/senthire/services/run_health.py:106-215 | recover enqueues exactly the messages its phase is missing and checks a phase that is missing none |
| PredicateLaws.EvaluateReports | src/senthire/domain/predicates.py:49-65 | Evaluation raises exactly the first fault of the predicate read left to right, and no profile has a say in it |
| PredicateLaws.ValidOnceValidEverywhere | src/senthire/compiler/compiler.py:174-183 | A predicate accepted on the empty profile raises on no profile at all, and one refused there is refused everywhere with the same error |
| PredicateLaws.NewFactsKeepDecisions | src/senthire/domain/predicates.py:134-155 | For predicates without exists, filling in fields the profile left out never changes a pass or a fail |
| PredicateLaws.ExistsFlips | src/senthire/domain/predicates.py:152-155 | With exists it can: stating the field turns a fail into a pass |
| PredicateLaws.RelaxNeverLowers | src/senthire/domain/predicates.py:174-186 | With non-negative thresholds and tolerance, relaxing never lowers a result in the order fail, unknown, pass |
| PredicateLaws.BorderlineMonotone | src/senthire/domain/predicates.py:158-171 | With non-negative thresholds, a near miss within one tolerance is one within every larger tolerance |
| PredicateLaws.RelaxLiftsExactly | src/senthire/domain/predicates.py:174-186 | For every ordering operator and positive tolerance: relaxing lowers the result for no number whatever exactly when the threshold is not negative |
| PredicateLaws.RelaxLiftsStoredExactly | src/senthire/domain/predicates.py:174-186 | On numbers that are never negative, as stored months, counts and ranks are, it lowers a result exactly for a lower bound below zero relaxed by its whole size or more |
| PredicateMeaning.AllMeaning | src/senthire/domain/predicates.py:134-139 | For a rule without fault, `all` passes exactly when every part passes and fails exactly when some part fails |
| PredicateMeaning.AnyMeaning | src/senthire/domain/predicates.py:140-144 | For a rule without fault, `any` passes exactly when some part passes and fails exactly when every part fails |
| PredicateMeaning.NotMeaning | src/senthire/domain/predicates.py:145-147 | `not` passes exactly when its part fails and fails exactly when it passes |
| PredicateMeaning.AbsentField | src/senthire/domain/predicates.py:149-155 | A field nobody stated fails an existence test and is unknown to every other test |
| PredicateMeaning.NumberTests | src/senthire/domain/predicates.py:103-131 | On numbers, each comparison passes exactly when the relation it names holds and fails otherwise |
| PredicateMeaning.TextTests | src/senthire/domain/predicates.py:99-131 | On text, equality and inequality compare after folding, and text never equals a number |
| PredicateMeaning.OrderNeedsNumbers | src/senthire/domain/predicates.py:103-131 | Anything but numbers and text is in no order: the comparison is unknown |
| PredicateMeaning.TextOrder | src/senthire/domain/predicates.py:103-131 | Text is ordered like the number it reads as, and is unknown to an ordering when it reads as none |
| PredicateMeaning.MembershipTests | src/senthire/domain/predicates.py:103-131 | `in` passes exactly when the value is one of those listed, up to folding, and `not_in` exactly when it is not |
| PredicateMeaning.LettersAreMembers | src/senthire/domain/predicates.py:103-131 | Against a text, `in` asks whether the value is one of its letters |
| PredicateMeaning.NamesAreMembers | src/senthire/domain/predicates.py:103-131 | Against an object, `in` asks whether the value is one of its names |
| PredicateMeaning.NoMembership | src/senthire/domain/predicates.py:103-131 | A list or object asked for, or a number or null asked, makes membership unknown |
| PredicateMeaning.ContainsTests | src/senthire/domain/predicates.py:103-131 | `contains` passes exactly when some wanted value is among those held, up to folding |
| PredicateMeaning.FirstWantedDecides | src/senthire/domain/predicates.py:103-131 | Wanted values are tried in order: the first that is there makes `contains` pass, a list or object met before makes it unknown, and without either it fails |
| PredicateMeaning.NoContents | src/senthire/domain/predicates.py:103-131 | A list or object among the values held makes `contains` unknown |
| PredicateMeaning.OneIsAList | src/senthire/domain/predicates.py:103-131 | A single value held or wanted is treated like a list of it |
| PredicateMeaning.NearMissMeaning | src/senthire/domain/predicates.py:158-171 | A near miss is exactly a failure that the rule relaxed by the tolerance would let pass |
| PredicateMeaning.NearMissWindow | src/senthire/domain/predicates.py:158-186 | For a bound on a number the near misses are exactly the numbers between the bound and the bound relaxed, open and closed ends included |
| PredicateMeaning.LanguageMeaning | src/senthire/domain/predicates.py:51-62 | The first entry of a language decides by its level; without an entry, or without a known level, the language is not stated |
| PredicateMeaning.LevelsOrdered | src/senthire/domain/profile.py:176 | The six language levels rank in order from 1, a native speaker with the highest, and no other level is known |
| PredicateMeaning.RecordLists | src/senthire/domain/predicates.py:73-87 | The record lists give exactly the names stated in them, and count as not stated when there is none |
| PredicateMeaning.SectionField | src/senthire/domain/predicates.py:89-96 | Every other two-part field of the registry is read from its section under its name, empty values counting as not stated |
| PredicateMeaning.ComputedFields | src/senthire/domain/predicates.py:67-72 | The degree asked for under education is the derived one, and employment gaps are counted when they are stated at all |
| Predicates.ResolveByWalking | src/senthire/domain/predicates.py:89-96 | The loop over the path finds what structural descent finds, and treats empty values as not stated |
| Deterministic.RunDeterministicStage | src/senthire/screening/deterministic.py:44-86 | The loop computes verdicts, decision and reasons of all requirements in order, or the error of the first rule that raises |
| Deterministic.StageIsDecided | src/senthire/screening/deterministic.py:52-86 | With unique ids: exactly the requirements with a rule have a verdict; the candidate is knocked out, or a near miss, exactly when some verdict says so; and the reasons name exactly the requirements that knock out |
| Deterministic.StageIsRuled | src/senthire/screening/deterministic.py:58-72 | Rule verdicts are met, not met or unknown, are certain and come from the rule stage; met scores 1, not met 0, and unknown nothing |
| StageMeaning.RuleOnFile | src/senthire/screening/deterministic.py:52-72 | With unique ids every requirement with a rule has on file what the rule says: met exactly when it passes, not met exactly when it fails or its field is missing under missing-means-fail, unknown otherwise, with its near miss and its scores |
| StageMeaning.KnockoutMeaning | src/senthire/screening/deterministic.py:73-86 | A candidate is knocked out exactly when a disqualifying rule passes or a hard rule fails without being a near miss |
| Anchors.Snap | src/senthire/domain/anchors.py:49-65 | The scan over the sorted ladder computes the snapped score, and nothing for nothing |
| Anchors.SnapIsNearest | src/senthire/domain/anchors.py:49-65 | The snapped score is a rung, no rung is nearer, and of two equally near ones it is the lower |
| Anchors.SnapIdempotent | src/senthire/domain/anchors.py:49-65 | Snapping twice is snapping once |
| Anchors.SnapMonotone | src/senthire/domain/anchors.py:49-65 | A higher judged number never lands on a lower rung |
| Anchors.SnapIgnoresOrder | src/senthire/domain/anchors.py:58-65 | The order of the ladder and repeated rungs do not matter |
| Anchors.TiesGoDown | src/senthire/domain/anchors.py:52-54 | A number exactly between two neighbouring rungs goes to the lower one |
| Assemble.MergeVerdicts | src/senthire/screening/assemble.py:37-62 | The loop builds the merge of rule verdicts with deep-over-light judgments |
| Assemble.MergeMeaning | src/senthire/screening/assemble.py:46-62 | With unique ids every requirement gets exactly its own outcome, and nothing else is in the merge |
| StageMeaning.MergedMeaning | src/senthire/screening/assemble.py:37-93 | A rule-only requirement keeps the rule's verdict; a judged one takes the judgment, snapped; a hybrid gate takes the worse kind with its worth on the judge's envelope; another hybrid takes the judgment unless it is unknown |
| StageMeaning.OutcomeOnFile | src/senthire/screening/assemble.py:37-62 | With unique ids the merge holds for every requirement exactly that |
| StageMeaning.RungsMeaning | src/senthire/domain/anchors.py:20-46 | A requirement's rungs are those of its own ladder, and the quarters from 0 to 1 when it has none |
| PipelineLaws.RuleFailureStands | src/senthire/screening/assemble.py:85-91 | A failed hard rule still fails the gate after merging, if and only if no judgment says disqualified |
| PipelineLaws.EitherHalfFailsHard | src/senthire/screening/assemble.py:85-91 | A hard requirement with two halves fails exactly when either half says not met, or either is unknown under missing-means-fail |
| PipelineLaws.BothHalvesMustDisqualify | src/senthire/screening/assemble.py:85-91 | A disqualifier with two halves fails the gate exactly when both halves say it applies, whatever the docstring says of a veto for either |
| PipelineLaws.BothHalvesMustPenalise | src/senthire/screening/assemble.py:85-91 | A penalty with two halves is taken exactly when both halves say it applies |
| PipelineLaws.DoubtLiftsDisqualifier | src/senthire/screening/assemble.py:4-9 | A run in which a light judge finds a disqualifier, its rule cannot read the field, and the merged gate passes |
| PipelineLaws.NoModelLiftsRuleFailure | src/senthire/screening/assemble.py:37-93 | If the rule stage says not met on a hard rule, cleanly or nearly, then for all light and deep judgments the schema allows the gate fails and names that requirement |
| PipelineLaws.KnockedOutNeverPasses | src/senthire/workers/tasks/screen.py:371-393 | Nobody the rules knocked out or flagged as a near miss passes the gate, whatever the admitted judgments say |
| PipelineLaws.DisqualifierNeverFlagged | src/senthire/domain/scoring.py:105-111 | For all profiles and judgments the schema allows, the review reason for a triggered disqualifier is never raised |
| PipelineLaws.AnchoredIsNormal | src/senthire/screening/assemble.py:65-75 | Whatever numbers the judges return, after anchoring on ladders within [0, 1] every merged score is in [0, 1] |
| PipelineLaws.ArbitraryJudgmentsAreBounded | src/senthire/screening/assemble.py:65-75 | So arbitrary judged scores give a base score in [0, 100] |
| PipelineLaws.MergedAgain | src/senthire/screening/assemble.py:65-93 | Anchoring and the hybrid combination absorb their own result, for every requirement type and evaluator |
| PipelineLaws.RemergeIsStable | src/senthire/workers/tasks/screen.py:634-644 | Merging the stored light verdicts again with the same rule stage and an empty deep output gives the same whole score result |
| Scoring.Score | src/senthire/domain/scoring.py:87-132 | The scorer, loop by loop, computes the specified result, down to the requirements nothing is known about |
| ScoringMeaning.BetterKindNeverLowers | src/senthire/domain/scoring.py:17-23 | Replacing a scoreless verdict by a better kind, not met by partially met or either by met, never lowers the final score, on anything but a penalty |
| ScoringMeaning.BetterKindRaisesTotal | src/senthire/domain/scoring.py:163-193 | On a scored requirement with weight it raises the weighted total of its category by at least a quarter of that weight, and leaves the total weight alone |
| ScoringMeaning.BetterKindRaisesAverage | src/senthire/domain/scoring.py:163-193 | With more than 1/2500 of the category's weight that strictly raises the category's score as stored, rounded to four decimals |
| ScoringMeaning.UnanimousBase | src/senthire/domain/scoring.py:163-201 | When every scored verdict is certain and of one kind, the base score is 100 for met, 50 for partially met and 0 for not met |
| ScoringMeaning.AdjustedMeaning | src/senthire/domain/scoring.py:48-52 | A graded score overrides the kind; a rule's counts in full, anybody else's is damped by the confidence, 0.7 when none is given |
| ScoringMeaning.DampedMeaning | src/senthire/domain/scoring.py:176-179 | Full confidence counts in full, none at all counts half, and in between the damping is even |
| ScoringMeaning.CategoryIsMean | src/senthire/domain/scoring.py:181-193 | A category's score is the rounded weighted mean of its scored requirements' contributions, the one level around which they balance, and carries the weight the job gives it |
| ScoringMeaning.BaseIsMean | src/senthire/domain/scoring.py:196-201 | The base score is the mean of the category scores by the job's weights, in percent, and 0 when no category counts |
| ScoringMeaning.ConfidenceIsMean | src/senthire/domain/scoring.py:98-103 | The confidence of a result is the rounded mean over the hard and scored requirements that have a verdict, and none without any |
| ScoringMeaning.FinalIsRounded | src/senthire/domain/scoring.py:90-96 | The final score is the base score with its bonuses and penalties in tenths, to the nearest and ties to the even, kept within 0 and 100 |
| ScoringMeaning.BandMeaning | src/senthire/domain/scoring.py:28-119 | The bands follow the final score over all specifications and verdicts: monotone, with floors at exactly 80, 65 and 50 |
| ScoringMeaning.ReviewMeaning | src/senthire/domain/scoring.py:105-111 | A review is asked for exactly for a confidence below 0.6, for a hard requirement that got by unverified, and for a disqualified verdict |
| ScoringMeaning.UnverifiedMeaning | src/senthire/domain/scoring.py:135-156 | A hard requirement is unverified exactly when it does not fail and is unknown or only inferred |
| ScoringMeaning.OnlyGatesFail | src/senthire/domain/scoring.py:135-156 | Only hard requirements and disqualifiers ever fail the gate |
| ScoringMeaning.MissingMeaning | src/senthire/domain/scoring.py:113-117 | Information is missing about exactly those requirements of the job whose verdict is unknown |
| ScoringMeaning.MetPenaltyCosts | src/senthire/domain/scoring.py:204-220 | Finding a penalty met lowers the sum of adjustments by exactly its points, five when it names none |
| ScoringMeaning.BonusWorth | src/senthire/domain/scoring.py:221-229 | A bonus is worth its points when met, half of them when partially met, and nothing otherwise |
| ScoringMeaning.AdjustmentsMeaning | src/senthire/domain/scoring.py:204-229 | The adjustments list every met penalty with its points, and otherwise only bonuses earned, within what each is worth |
| Scoring.GateMeaning | src/senthire/domain/scoring.py:135-156 | The gate passes exactly when no requirement fails it, and names exactly those that do |
| Scoring.FillBuckets | src/senthire/domain/scoring.py:163-180 | Bucketing by category keeps, per category, the sums and the ids of exactly the requirements that count |
| Scoring.CategoriesContents | src/senthire/domain/scoring.py:182-193 | A category is averaged exactly when it is named and has known positive weight |
| ScoringLaws.GreedyBonusIsCappedSum | src/senthire/domain/scoring.py:204-229 | The greedy capped loop awards exactly min(max(0, cap), sum of the positive bonuses), whatever the order |
| ScoringLaws.FinalClosedForm | src/senthire/domain/scoring.py:87-96 | The final score is the clamped rounding of base plus capped bonuses minus penalties |
| ScoringLaws.ScoreBounded | src/senthire/domain/scoring.py:163-201 | With non-negative weights and scores and confidences in [0, 1], base and final score lie in [0, 100], through both averages and both roundings |
| ScoringLaws.RaisingNeverLowers | src/senthire/domain/scoring.py:163-201 | Raising the score or the confidence of one already scored verdict never lowers the final score |
| ScoringLaws.MissingIsNotNegative | src/senthire/domain/scoring.py:135-229 | A scored, bonus or penalty requirement nothing is known about gives the same categories, base score, final score and gate as deleting it, also when its whole category vanishes |
| ScoringLaws.MissingHardRequirement | src/senthire/domain/scoring.py:147-155 | An unknown hard requirement fails an otherwise passing gate exactly when its policy says missing means failing |
| ScoringLaws.OrderDoesNotMatter | src/senthire/domain/scoring.py:87-132 | Permuting the requirements changes neither base nor final score, band, confidence or gate decision |
| ScoringLaws.WeightScaleDoesNotMatter | src/senthire/domain/scoring.py:196-201 | Multiplying all category weights by one positive factor leaves the base score alone |
| ScoringLaws.ScoreAlike | src/senthire/domain/scoring.py:87-132 | The scorer never looks at the score of a verdict whose requirement is not scored |
| Ranking.SortedPosition | src/senthire/domain/ranking.py:10-12 | In the sorted list a candidate stands behind exactly the candidates with a better key |
| Ranking.RanksFollowKeys | src/senthire/domain/ranking.py:10-12 | One candidate ranks before another exactly when its key comes first |
| Ranking.EveryRankHeld | src/senthire/domain/ranking.py:10-12 | Every rank from 1 to the number of passing candidates is held |
| Ranking.EquivalenceGroups | src/senthire/domain/ranking.py:24-41 | The loop numbers groups along the ranking as specified |
| Ranking.SharedGroup | src/senthire/domain/ranking.py:24-41 | Two candidates share a group exactly when no two neighbours between them are a point apart, and numbers never go down |
| Ranking.CloseScoresShareGroup | src/senthire/domain/ranking.py:15-21 | In a ranking, candidates less than a point apart always share a group |
| Evaluations.Evaluations.PersistLight | src/senthire/workers/tasks/screen.py:348-428 | Stores the merged, scored row of one application, and only if it has none yet |
| Evaluations.Evaluations.PersistDeep | src/senthire/workers/tasks/screen.py:620-684 | Replaces verdicts, score and hard result of one row by the re-merge of its stored light verdicts with the deep ones |
| Evaluations.Evaluations.PersistDeepFailure | src/senthire/workers/tasks/screen.py:607-617 | A permanent failure changes nothing but the flag and the stage |
| Evaluations.Evaluations.ScoreRun | src/senthire/workers/tasks/screen.py:917-966 | score_run leaves exactly the rescored evaluation rows ranked by the gate |
| Evaluations.Evaluations.RerankRun | src/senthire/services/overrides.py:115-126 | rerank_run leaves exactly the rows ranked by the stored hard result |
| Evaluations.Evaluations.CorrectVerdict | src/senthire/services/overrides.py:33-112 | A refused correction changes nothing and says why; an accepted one is recorded, rescored with the human verdict in place, and re-ranked |
| Evaluations.Evaluations.CopyForward | src/senthire/workers/tasks/screen.py:226-243 | A row of an earlier run of the same specification is taken over, unranked |
| StageMeaning.LightOnFile | src/senthire/workers/tasks/screen.py:348-428 | With unique ids a light row holds for every requirement what its evaluator makes of the rule and of the judge's answer, which counts unless there is none or the rules knocked the candidate out cleanly |
| StageMeaning.LightResultMeaning | src/senthire/workers/tasks/screen.py:371-428 | A light row is borderline exactly when the rules saw a near miss and passed exactly when its gate passes; its score, confidence and review flags are the scorer's for the verdicts it holds, and failure and manipulation are flagged exactly when they happened |
| StageMeaning.DeepOnFile | src/senthire/workers/tasks/screen.py:620-684 | With unique ids a deep row holds for every requirement what its evaluator makes of the rule and of the deep judgment, and where that is silent of the light judgment on file |
| StageMeaning.DeepNotMetFails | src/senthire/workers/tasks/screen.py:620-684 | A deep judge who finds a hard requirement not met fails the candidate, whatever was on file |
| StageMeaning.DeepPassesOrFails | src/senthire/workers/tasks/screen.py:620-684 | A deep row passes or fails, is never borderline, shows the scorer's score, confidence and review flags for the verdicts it holds, and flags disagreement and manipulation exactly when they happened |
| StageMeaning.DeepFailureMeaning | src/senthire/workers/tasks/screen.py:607-617 | A deep analysis that failed leaves verdicts, result, score, confidence, rank and band as they were |
| StageMeaning.CopyMeaning | src/senthire/workers/tasks/screen.py:226-243 | A row taken over from an earlier run keeps all but its rank and band |
| StageMeaning.ScoringKeepsFile | src/senthire/workers/tasks/screen.py:917-1010 | Scoring a run keeps the verdicts on file and drops no flag |
| StageMeaning.CorrectionOnFile | src/senthire/services/overrides.py:33-112 | After an accepted correction the requirement's verdict is the person's, certain and scored by its kind; every other verdict, and every other row's, is unchanged |
| StageMeaning.RefusedMeaning | src/senthire/services/overrides.py:43-52 | A correction is refused exactly for a kind no person may give and for a requirement the job does not have |
| EvaluationLaws.LightRowSound | src/senthire/workers/tasks/screen.py:371-393 | Light screening stores "pass" exactly when the gate passes; a stored near miss always has a failing gate |
| EvaluationLaws.RerankAfterScoreRunIsNoOp | src/senthire/services/overrides.py:115-126 | Right after score_run, rerank_run changes nothing |
| EvaluationLaws.SitesAgreeExactly | src/senthire/services/overrides.py:115-126 | For all rows: rerank_run leaves what score_run left exactly when no row with a passing gate was stored as anything but passed |
| EvaluationLaws.ActsAreSound | src/senthire/workers/tasks/screen.py:226-243 | At every moment of every run over unique ids, through screening, copies of rows that earlier runs held, deep analysis, scoring and corrections, a stored pass means a passing gate and the reverse |
| EvaluationLaws.SettledIsScored | src/senthire/workers/tasks/screen.py:929-966 | A settled run is a fixed point of score_run |
| EvaluationLaws.CorrectionsSettle | src/senthire/services/overrides.py:33-126 | After any sequence of corrections every stored score, confidence, band and hard result is the scorer's for the verdicts on file |
| EvaluationLaws.OneRanking | src/senthire/services/overrides.py:33-126 | From an empty run through any screening writes, copies from earlier runs, scoring passes and corrections, then score_run and any corrections: passing candidates hold ranks 1 to n in key order, all others are unranked and rejected, and neither ranking site would change anything |
| RunResults.CompleteRunIsRanked | src/senthire/workers/tasks/screen.py:917-966 | However messages are lost, repeated or reordered: when a run is complete every profiled eligible application has its one row, ranked in key order or rejected, everybody selected has been through stage deep, and neither ranking site would change anything |
| EvaluationLaws.DuplicateIdsMislead | src/senthire/screening/deterministic.py:58-85 | Two requirements under one id for which a candidate is stored as failed although the gate passes, and rerank_run undoes what score_run ranked |
| EvaluationLaws.CorrectionForgetsFlags | src/senthire/services/overrides.py:79-98 | A correction keeps the review flags raised outside the scorer exactly when there were none |
| Compiler.BuildPredicate | src/senthire/compiler/compiler.py:230-244 | The loop builds the predicate of the usable conditions |
| Compiler.AssembleSpec | src/senthire/compiler/compiler.py:114-157 | The loops build the assembled specification and its warnings, or stop at the first draft the schema refuses |
| Compiler.Rename | src/senthire/compiler/compiler.py:136-142 | The rename loop ends, at the least free suffix |
| Compiler.FirstFreeMeaning | src/senthire/compiler/compiler.py:136-142 | The suffix found is free and every smaller one is taken |
| Compiler.SuffixesDiffer | src/senthire/compiler/compiler.py:139-142 | Different numbers give different names, so the taken names run out |
| CompilerLaws.SuffixReads | src/senthire/compiler/compiler.py:139-145 | A suffix is an underscore and the number in decimal digits |
| CompilerLaws.ConditionsKept | src/senthire/compiler/compiler.py:232-239 | A rule keeps all conditions of its draft exactly when each has a value or is an existence test |
| CompilerLaws.ReportedExactly | src/senthire/compiler/compiler.py:166-183 | A warning speaks of a draft's conditions exactly when no rule at all comes of them |
| CompilerLaws.NothingReported | src/senthire/compiler/compiler.py:166-183 | A deterministic draft with a sound rule gives no warning, whatever conditions the rule has lost |
| CompilerLaws.ConditionLostSilently | src/senthire/compiler/compiler.py:230-244 | A draft with two conditions of which only the first becomes the rule, without any warning |
| CompilerLaws.BonusCapIsDefault | src/senthire/compiler/compiler.py:146-156 | The template's bonus cap reaches the compiled specification exactly when it is the default one |
| CompilerLaws.ConvertIsFaithful | src/senthire/compiler/compiler.py:160-227 | A draft keeps id, category, type, policy and bonus; it is at most downgraded to semantic, always with a warning; its rule raises on no profile and its ladder has at least two rungs in [0, 1] |
| CompilerLaws.LeavesMeaning | src/senthire/compiler/compiler.py:230-244 | The rule tests exactly what the usable drafted conditions ask: each its own field, by its own operator, against the value drafted for it |
| CompilerLaws.RuleMeaning | src/senthire/compiler/compiler.py:230-244 | A rule drafted as all of its conditions passes a profile exactly when each does, one drafted as any exactly when some does |
| CompilerLaws.WeightsMeaning | src/senthire/compiler/compiler.py:114-157 | A template's category weights are kept unless it has none, and then the documented defaults hold |
| CompilerLaws.ConvertFails | src/senthire/compiler/compiler.py:186-201 | A draft is refused exactly when a ladder that would be used has a rung outside [0, 1] |
| CompilerLaws.RefusalNames | src/senthire/compiler/compiler.py:160-227 | A refused draft names its first rung outside [0, 1] |
| CompilerLaws.WarningsMeaning | src/senthire/compiler/compiler.py:160-227 | A converted draft is reported for having no condition with a value, for the first fault of its rule, for a missing rubric and for a ladder of one rung exactly when each is so and matters |
| CompilerLaws.KeptInOrder | src/senthire/compiler/compiler.py:125-130 | What is kept of the template is a subsequence of it |
| CompilerLaws.KeptAtMeaning | src/senthire/compiler/compiler.py:125-130 | That subsequence is exactly the requirements no draft absorbs |
| CompilerLaws.DraftsInOrder | src/senthire/compiler/compiler.py:132-144 | Behind the kept requirements stands every draft, in order, under its own id when free and the least free suffix otherwise |
| CompilerLaws.DraftsAddNoClash | src/senthire/compiler/compiler.py:132-144 | The ids come out unique exactly when the kept template ids were |
| CompilerLaws.StageReports | src/senthire/screening/deterministic.py:44-52 | Whether the rule stage raises depends on the specification alone |
| CompilerLaws.CompiledIsFit | src/senthire/compiler/compiler.py:114-183 | A compiled specification over a sound template part has unique ids and sound ladders, and its rule stage raises for no profile |
| CompilerLaws.SoundTemplateIsFit | src/senthire/compiler/compiler.py:114-157 | So a sound template with unique ids compiles into such a specification, whatever the drafts |
| Selection.SelectForDeep | src/senthire/screening/selection.py:31-95 | The sorts and loops compute the specified selection with its reasons |
| SelectionLaws.WholeBandSelected | src/senthire/screening/selection.py:68-70 | The whole decision band is selected, whatever the cap |
| SelectionLaws.BandIsTheTop | src/senthire/screening/selection.py:52-70 | Nobody who passes and is left out of a full band scores higher than anybody in it |
| SelectionLaws.SelectionIsCapped | src/senthire/screening/selection.py:41-51 | At most max(cap, band) are selected, nobody twice |
| SelectionLaws.OnlyBandOrUnsure | src/senthire/screening/selection.py:72-93 | Everybody selected is in the band or has a reason to be unsure about |
| SelectionLaws.QueueIsServedInOrder | src/senthire/screening/selection.py:85-93 | Somebody unsure is left out only when the cap is reached, and then everyone admitted from the queue has a strictly smaller (severity, -score, id) key |
| SelectionLaws.EverySelectedExplained | src/senthire/screening/selection.py:49-51 | Every selected candidate carries exactly the reasons that apply to it |
| SelectionLaws.UncertaintyMeaning | src/senthire/screening/selection.py:72-95 | A candidate is queued for near miss, unverified gate or hesitation exactly when it applies: a light verdict on something weighty held with less than the threshold confidence, in the last case; near misses come first and hesitation last |
| SelectionLaws.ShareMeaning | src/senthire/screening/selection.py:19-28 | A hard requirement weighs everything; what is neither hard nor scored, or not in the job, weighs nothing |
| SelectionLaws.SharesInProportion | src/senthire/screening/selection.py:19-28 | Scored requirements of a category share its weight in proportion to their own weights |
| SelectionLaws.SharesAddUp | src/senthire/screening/selection.py:19-28 | The shares of a category's scored requirements add up to the category's weight |
| Voting.DeepVote | src/senthire/screening/voting.py:87-147 | The vote fails exactly when the first pass does; otherwise completed plus failed passes equal the requested ones and every named requirement gets the fold of its pool |
| Voting.NamedMeaning | src/senthire/screening/voting.py:123-127 | A requirement is named once, and exactly when some pass judged it |
| VotingLaws.FirstComeOrder | src/senthire/screening/voting.py:121-127 | Requirements are reported in the order in which the completed passes first came to them |
| VotingLaws.UnflaggedMeans | src/senthire/screening/voting.py:56-84 | Nobody is asked to review exactly when a strict majority of the supported votes agrees and met does not stand against not met |
| VotingLaws.FlagIgnoresOrder | src/senthire/screening/voting.py:52-84 | The review flag does not depend on the order of the votes |
| VotingLaws.MajorityIgnoresOrder | src/senthire/screening/voting.py:73-84 | With a strict majority, verdict, score and confidence do not depend on the order of the votes |
| VotingLaws.ChoiceMeaning | src/senthire/screening/voting.py:76-84 | The chosen judgment carries the majority verdict, the low median of the majority's scores, and their mean confidence tempered by the agreement |
| VotingLaws.PooledMeaning | src/senthire/screening/voting.py:123-130 | The votes on a requirement are exactly what the completed passes said about it |
| VotingLaws.PoolMeaning | src/senthire/screening/voting.py:52-60 | Of these, exactly abstentions and those whose quotes are in the document count |
| VotingLaws.FallbackMeaning | src/senthire/screening/voting.py:52-75 | Votes that do not count are reported; with none left, or no majority, the first judgment stands flagged; otherwise the agreement is the majority's part of the votes that count |
| VotingLaws.MedianMeaning | src/senthire/screening/voting.py:76-84 | The score chosen is one of those given, has fewer than half of them below it, and at least half not above it |
| VotingLaws.ConfidenceShared | src/senthire/screening/voting.py:76-84 | The confidence under a majority is the majority's total confidence spread over the whole pool |
| VotingLaws.BallotIgnoresOrder | src/senthire/screening/voting.py:122-138 | Reordering whole passes names and flags the same requirements and settles majorities alike |
| Derived.MergeIntervals | src/senthire/domain/derived.py:89-98 | The loop that overwrites the last interval computes the merge |
| Derived.ComputeEmployment | src/senthire/domain/derived.py:71-122 | Totals, gaps and the longest gap as specified, from the roles as stated |
| DerivedLaws.MergingIsExact | src/senthire/domain/derived.py:89-98 | Merged intervals are sorted, disjoint and not adjacent and cover exactly the months of the input |
| DerivedLaws.TotalIsMonthsWorked | src/senthire/domain/derived.py:110-110 | Total experience is the number of months in which at least one role was held |
| DerivedLaws.MoreRolesNeverLess | src/senthire/domain/derived.py:105-110 | More roles never make for less experience, in whatever order they are listed |
| DerivedLaws.GapsAreFreeRuns | src/senthire/domain/derived.py:112-122 | The gaps of merged intervals are exactly their maximal uncovered runs of at least three months |
| DerivedLaws.CareerGaps | src/senthire/domain/derived.py:112-122 | A gap is reported exactly when no role covers its months, roles cover the months on either side, and it lasts at least three months |
| DerivedLaws.LongestIsGap | src/senthire/domain/derived.py:112-122 | The longest gap is one of the gaps, no gap is longer, and without gaps it is 0 |
| DerivedLaws.CurrentRoleCounts | src/senthire/domain/derived.py:71-86 | A single current role counts every month from its start to today |
| DerivedLaws.WorkedAndFree | src/senthire/domain/derived.py:62-68 | Interval lengths and distances between neighbours together make up the whole span |
| DerivedLaws.CareerAddsUp | src/senthire/domain/derived.py:62-68 | Total experience and the months in which no role was held add up to the span of the career |
| DerivedLaws.FreeMonthsAreFree | src/senthire/domain/derived.py:112-114 | The distances between merged intervals add up to exactly the months in which no role was held |
| Throttle.AuthThrottle.Hit | src/senthire/services/throttle.py:67-98 | Counts one event in the scope's own window, changes no other scope, and allows exactly within the limit |
| Throttle.AuthThrottle.Peek | src/senthire/services/throttle.py:101-123 | Answers without changing anything |
| Throttle.AuthThrottle.Clear | src/senthire/services/throttle.py:126-127 | Forgets one scope and no other |
| ThrottleLaws.WindowIsBounded | src/senthire/services/throttle.py:67-98 | With a clock that never goes back, each window admits at most the limit |
| ThrottleLaws.StretchIsBounded | src/senthire/services/throttle.py:67-98 | Any half-open stretch of one window's length admits at most 2 * limit - 1 events, and none when the limit is 0 |
| ThrottleLaws.StretchBoundIsMet | src/senthire/services/throttle.py:67-98 | A history that reaches that bound |
| ThrottleLaws.LockedUntilWindowEnds | src/senthire/services/throttle.py:101-123 | Once the limit is counted, whatever else is tried, peek refuses until the window ends and allows from then on |
| ThrottleLaws.PeekForetellsHit | src/senthire/services/throttle.py:101-123 | Peek says what a hit at the same moment would say exactly when a window is running or the limit is positive; it counts one less than that hit would, and advises nothing when no window is running |
| ThrottleLaws.RetryAdvice | src/senthire/services/throttle.py:62-64 | Waiting as long as a refusal advises is enough exactly when less than a second or a whole number of seconds remains |
| ThrottleLaws.ScopesApart | src/senthire/services/throttle.py:67-127 | A scope's counter depends only on its own events since it was last cleared |
| Calendar.Fold | src/senthire/services/calendar.py:48-59 | The nested loops over octets give the greedy folding by whole characters |
| Calendar.FindCut | src/senthire/services/calendar.py:53-55 | Stepping back over continuation octets stops where the longest run of whole characters ends, at least 18 characters on |
| Calendar.DecodeEncodes | src/senthire/services/calendar.py:51-58 | Decoding undoes encoding |
| Calendar.EncodeDecodes | src/senthire/services/calendar.py:56-58 | Only somebody's encoding decodes |
| CalendarLaws.LinesFit | src/senthire/services/calendar.py:48-59 | Every physical line is at most 73 octets of whole characters and all but the first start with a space |
| CalendarLaws.LinesAreFull | src/senthire/services/calendar.py:52-57 | A line is cut only where the next character would not have fitted |
| CalendarLaws.FoldRoundTrip | src/senthire/services/calendar.py:48-59 | Unfolding a folded line gives it back, for every line without a line feed |
| CalendarLaws.EscapingIsOneMap | src/senthire/services/calendar.py:42-45 | The chained replacements equal one simultaneous character map |
| CalendarLaws.EscapeRoundTrip | src/senthire/services/calendar.py:42-45 | Escaping can be undone and leaves no line feed |
| CalendarLaws.TextSurvives | src/senthire/services/calendar.py:97-104 | Any text at all put on a property line is read back after folding and unfolding |

## Left out

- Evidence, labels, narrative, reasoning texts, rejection reasons and cost figures of result documents: no decision in the model depends on them.
- Quote verification, text normalisation and title vocabularies: they rest on data files and Unicode tables; the model takes their outcomes as parameters.
- Float rounding error, NaN and infinities, and the database's own float columns: the model computes over reals.
- Stall detection and clocks (`is_stalled`, `last_activity_at`): recovery is modelled as possible at any time.
- Applications uploaded during a run, erasure, and overlapping read and write halves of `run_start`, `finalize_run`, `deep_application` and `score_run`: each of these is one step here.
- A crash between recording the last affordable poll and failing the run: the next poll records one more and fails it.
- RunSafety.RunIsSafe: a row copied at stage deep keeps the mark it came with, which can be none, because a correction in the earlier run may have dropped the failure flag (`EvaluationLaws.CorrectionForgetsFlags`).
- RunProgress.RoundIsProgress: assumes a positive poll interval, without which an unfinished batch is polled for ever.
- EvaluationLaws.OneRanking: a copied row comes from an earlier run of the same specification, as the query for it demands by version; editing a specification under its version is not modelled.
- RunResults.CompleteRunIsRanked: corrections while a run is still going are covered by EvaluationLaws.OneRanking, not here; and the rule stage must not raise, which compiled specifications guarantee (`CompilerLaws.CompiledIsFit`).
- Evaluations.Evaluations.ScoreRun: the normalised requirement rows, the application status "screened", the cost figures and the funnel's closing counts are written beside the evaluation rows and not modelled.
- Compiler.AssembleSpec: the compliance block, which copies the model's flags and whether one of them blocks, is not modelled.
- Predicates: values that are neither JSON nor hashable in Python's sense, and profile sections of the wrong shape.
- Voting: temperatures, usage records, the narrative of the first pass, and the setting that decides how many passes a candidate gets.
- Seniority, tenure averages, job changes and education rank of derived fields, and parsing of stated dates: one-line folds beside the interval arithmetic.
- `discrimination_report` and rung labels: reporting over the same ladders.
- Hashing of throttle scopes, client addresses, HTTP refusals, and limits or windows that change between calls for one scope.
- Parsing of meeting times, the fixed lines of an invitation, and lone surrogates, which UTF-8 cannot encode.
- Web interface, routes, migrations, mail, storage, billing and model calls.
