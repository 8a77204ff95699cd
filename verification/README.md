# Debt-collection training simulator: verified model

The simulator scores recorded negotiation calls against a published rubric, keeps the rubrics in a
versioned ledger, and turns uploaded documents into call scripts. This project models the parts where
one module relies on what another established, and proves what they promise together.

- **Evaluation chain.** `StandardValidator` (publication), `ObservationValidator` (grounding of a model's
  observation in rubric and transcript), `ScoreCalculator`, `Recommendations`, `Coaching`, `LearningPlan`,
  `ReportPayload` and `ReportAssembler` are the services, written as the loops they are and proved against
  specification functions. `ScoringTheorems`, `RecommendationTheorems`, `PipelineTheorems`, `PayloadTheorems`,
  `ReportTheorems` and `AssemblyTheorems` are the results that cross them: every branch that later stages cannot
  afford is unreachable on validated data, rounding never loses a cent, grouping loses nothing, and the exact
  conditions under which the identity, coaching and plan validators, and in the end the whole report assembler,
  accept an evaluation. `EvaluationEngine` is the bounded retry loop around an arbitrary provider.
- **Version ledger.** `Ledger` gives every committed transaction of the lifecycle service and of the
  rubric seeder as a step (an aborted one leaves the tables alone); `StandardService` is the mutable
  tables with the code of both writers; `LedgerTheorems` is what every interleaving keeps, including that
  seeding twice is seeding once; `LedgerRuns` holds concrete runs.
- **Uploads.** `Uploads`, `UploadService` and `UploadTheorems` do the same for upload, conversion, retry,
  rejection and the registry's changes of scripts, reassignment to other scenarios included.
- **PDF walk.** `PdfSecurity` is the depth-first walk with its visited set and two limits on any object
  graph. It is proved to reach everything unless a reference leads to another reference, and exactly what
  a passing walk is worth otherwise is proved too.
- **In-memory structures.** `EventStore` and `RateLimiter` keep a ghost copy of everything that ever
  happened and are proved to agree with it.

`Rubric`, `Text` and `Sorting` hold the shared data model and the order, string and sorting facts.

Unicode case folding, content hashing, text redaction, parsing of a script contract and the provider are
function parameters; results hold for all of them, with hashing assumed injective where content is compared
by hash and folding assumed to keep non-empty text non-empty for the uniqueness checks on technique names.
The premises of the cross-module results can be met: `Counterexamples` gives concrete trusted evaluations of
publishable content, in sessions long enough to be evaluated. `Decimal` amounts are `real`; JSON objects that
fail to parse are one error.

## False of the code

Some statements one would expect are false of the code. Each has a concrete run or input, and the exact
condition under which it does hold.

- Publishing A, then B, then A again is refused by the content-hash constraint
  (`LedgerRuns.RepublishOldContentAborts`). After the seeder has moved the pointer back, new content is
  refused too, since admin publication counts from the pointer and not from the largest number
  (`LedgerRuns.PublishAfterSeedMovedBackAborts`). The exact condition of both is
  `LedgerTheorems.PublishAbortsExactly`.
- Seed publication does not always leave a standard published: a reopened draft whose pointer already
  matches stays a draft (`LedgerRuns.SeedAfterReopenStaysDraft`, exact condition
  `LedgerTheorems.SeedLeavesPublished`).
- A PDF that the walk passes may hold a reachable script: dereferencing happens once, so what lies behind a
  reference to a reference is not seen (`PdfSecurity.HiddenPasses`). A passing walk does vouch for a document
  where no reachable reference leads to a reference (`PassingIsClean`); and it vouches for every document it
  cannot tell apart from the given one exactly when it left no reference unfollowed (`PassingVouchesExactly`).
- Recommendation identities can repeat, coaching can name a criterion of a block twice, and a learning-plan
  item can lack its criterion; the report's validators refuse all three (`Counterexamples`, exact conditions
  `PayloadTheorems.PayloadAcceptedExactly`, `ReportTheorems.CoachingAcceptedExactly`,
  `PayloadTheorems.PlanAcceptedExactly`, and `ReportTheorems.ReportValidExactly` for the three together).
- The report assembler does not know a plan criterion that comes from a violation not also listed as failed
  (`Counterexamples.ViolationNotListed`, exact condition `ReportTheorems.PlanKnownExactly`).
- The evaluation of a session that is too short, or that the model calls not applicable, is stored with scored
  fields under the too-short flag, which the assembler refuses: no report can ever be made of it
  (`AssemblyTheorems.ShortSessionNeverReported`, exact condition `AssembledExactly`).
- A trusted quotation need not be found by the assembler: excerpts are accepted up to whitespace and looked up as
  they are, and entries are evaluated by position and looked up by stored number
  (`Counterexamples.QuotedReportedIfFaithful`, exact conditions `AssemblyTheorems.AssembledExactly` and, for
  entries stored as 0, 1, 2 and so on, `VerbatimExactly`).
- Rate-limiter cleanup forgets requests that still count when a window exceeds one hour
  (`RateLimiter.CleanupForgetsLongWindows`, exact condition `CleanupHarmlessExactly`); no window configured
  in the source does.
- A published upload can be rejected after a failed extraction retry (`UploadTheorems.PublishedMayBeRejected`,
  exact condition `PublishedRejectedExactly`), although the endpoint means to refuse published uploads.
- Retrying a failed scan can never succeed, because the file of a failed scan is removed before its row is
  stored (`UploadTheorems.ScanRetryNeverRuns`).
- A scenario that was converted can be converted again, and a linked script can belong to another scenario than
  its upload: the script only has to be reassigned (`UploadTheorems.ScenarioConvertedTwice`, exact conditions
  `FreedExactly`, `FreeableExactly` and `LinkMovesExactly`). A soft-deleted script on the other hand blocks its
  scenario for ever (`UploadTheorems.DeletedScriptBlocks`).

## Model

| member | source | states |
|---|---|---|
| `StandardValidator.ValidateStandard` | app/services/negotiation_standard_validator.py:87-117 | the reported issues are exactly the defects of the content, and it is valid if and only if it is publishable |
| `StandardValidator.NoDefectIsPublishable` | app/services/negotiation_standard_validator.py:32-117 | no issue can be raised if and only if blocks exist, weights total 100, ids, categories and orders are unique up to case, criterion and violation ids are jointly unique and every penalty names a violation of its own block |
| `StandardValidator.PublishableExactly` | app/services/negotiation_standard_validator.py:32-117 | the publish condition over blocks, behaviours, violations and penalties themselves: each list of names up to case, the weights and the penalties |
| `StandardValidator.CheckUnique` | app/services/negotiation_standard_validator.py:17-29 | reports every position whose folded value occurred earlier, and no other |
| `StandardValidator.ValidateBlocks` | app/services/negotiation_standard_validator.py:32-84 | collects exactly the relational defects of the blocks |
| `StandardValidator.CheckPenalties` | app/services/negotiation_standard_validator.py:59-67 | reports exactly the penalties of a block that name no violation of that block |
| `StandardValidator.CheckReused` | app/services/negotiation_standard_validator.py:74-83 | reports exactly the violations whose id is also a criterion id, anywhere in the rubric |
| `StandardValidator.PublishableBlocksDistinct` | app/services/negotiation_standard_validator.py:69-71 | blocks of publishable content have distinct ids and distinct display orders |
| `ObservationValidator.TranscriptIndex` | app/services/rubric_observation_validator.py:62-79 | the index holds the last entry of every sequence number, and exactly the repeated positions are reported |
| `ObservationValidator.IndexedMeaning` | app/services/rubric_observation_validator.py:62-79 | the entry found under a number is the last that carries it, and an entry without a number carries its position |
| `ObservationValidator.ValidateObservation` | app/services/rubric_observation_validator.py:82-279 | accepts if and only if the observation is trusted; otherwise reports exactly the defects |
| `ObservationValidator.NoDefectIsGrounded` | app/services/rubric_observation_validator.py:101-279 | no issue can be raised if and only if the quantified grounding predicate holds: coverage, transcript match, declared criteria, evidenced findings, supported failures and declared techniques |
| `ObservationValidator.GroundedPlainly` | app/services/rubric_observation_validator.py:101-279 | grounded means: one category for each block and no other, each grounded, and techniques named in the rubric that cite numbers of the transcript |
| `ObservationValidator.CategoryGroundedPlainly` | app/services/rubric_observation_validator.py:119-238 | what is asked of the evidence, the findings, the failed criteria and the inputs of one category, in terms of the lists themselves: the speaker quoted, the words of the excerpt inside those of the turn |
| `Text.NormalizeKeepsWords` | app/services/rubric_observation_validator.py:29-31 | normalizing keeps the words, so texts normalize alike exactly when their words are the same |
| `Text.WordsSplit` | app/services/rubric_observation_validator.py:29-31 | whitespace separates words |
| `Text.OneWord` | app/services/rubric_observation_validator.py:29-31 | text without whitespace is one word |
| `ObservationValidator.CollectIssues` | app/services/rubric_observation_validator.py:101-274 | the collected issues are exactly the defects |
| `ObservationValidator.CheckCoverage` | app/services/rubric_observation_validator.py:104-117 | reports exactly the repeated, missing and unknown categories |
| `ObservationValidator.CheckEvidence` | app/services/rubric_observation_validator.py:318-353 | reports exactly the evidence whose turn, speaker or excerpt does not match the transcript |
| `ObservationValidator.CheckSequences` | app/services/rubric_observation_validator.py:282-295 | reports exactly the positions a finding cites outside the evidence of its category |
| `ObservationValidator.CheckStrengths` | app/services/rubric_observation_validator.py:132-146 | reports exactly the defects of the strengths and collects the positions cited for each declared criterion |
| `ObservationValidator.CheckViolations` | app/services/rubric_observation_validator.py:147-167 | reports exactly the defects of the violations and adds their positions for declared violations |
| `ObservationValidator.CheckInputs` | app/services/rubric_observation_validator.py:178-229 | reports for each recommendation input the first rule it breaks, and nothing else |
| `ObservationValidator.CheckSupport` | app/services/rubric_observation_validator.py:230-238 | reports exactly the failed criteria with neither a finding nor a declared input, at their first position |
| `ObservationValidator.CategoryExact` | app/services/rubric_observation_validator.py:119-238 | a category has no defect if and only if its evidence, findings, failures and inputs are grounded |
| `ObservationValidator.CoverageExact` | app/services/rubric_observation_validator.py:104-117 | no coverage issue if and only if the categories are the blocks of the rubric, each once |
| `ObservationValidator.TechniquesExact` | app/services/rubric_observation_validator.py:240-273 | no technique issue if and only if every technique is declared and cites transcript turns |
| `Rubric.BlockMapMeaning` | app/services/rubric_score_calculator.py:50 | of the blocks sharing an id, the last one is found under it |
| `ScoreCalculator.MoneyExact` | app/services/rubric_score_calculator.py:16-18 | half-up rounding leaves every whole number of cents alone |
| `ScoreCalculator.MoneyHalfUp` | app/services/rubric_score_calculator.py:16-18 | the nearest whole cent, and the upper one of two |
| `ScoreCalculator.CalculateRubricScore` | app/services/rubric_score_calculator.py:30-105 | refuses a foreign snapshot and weights other than 100, and otherwise returns the canonical score |
| `ScoreCalculator.ScoreAll` | app/services/rubric_score_calculator.py:57-88 | the loop computes the score of every ordered category and the sum of the contributions |
| `ScoreCalculator.ScoreObservation` | app/services/rubric_score_calculator.py:58-88 | one category: no points and no pass without a raw score; otherwise what is left is the raw score less the penalties and never below 0, it contributes its weighted share to the cent, at most the capped penalties are lost, and it passes exactly when what is left reaches the passing score; all other fields are those of block and observation |
| `ScoreCalculator.PenaltiesLower` | app/services/rubric_score_calculator.py:21-27 | penalties never raise a score, never make it negative, deduct at most their caps, and nothing without a penalised violation |
| `ScoreCalculator.OnePenalty` | app/services/rubric_score_calculator.py:21-27 | a penalty deducts its deduction for every finding about its violation, up to its maximum |
| `ScoreCalculator.PenaltiesAdd` | app/services/rubric_score_calculator.py:24-27 | the penalties of a block add up |
| `ScoreCalculator.FewerOccurrences` | app/services/rubric_score_calculator.py:23 | removing findings from a list lowers every violation count or leaves it |
| `ScoreCalculator.SameOccurrences` | app/services/rubric_score_calculator.py:23 | the order of the findings does not change the counts |
| `ScoringTheorems.ContributionExact` | app/services/rubric_score_calculator.py:68 | rounding never changes a contribution |
| `ScoringTheorems.ScoredMeaning` | app/services/rubric_score_calculator.py:57-88 | every scored category is one observation under the block of its id: penalties, what is left, contribution and pass, number by number |
| `ScoringTheorems.ScoredFields` | app/services/rubric_score_calculator.py:96-105 | status, summary and techniques are those of the observation, the passing score that of the rubric, with one category each and no recommendation yet |
| `ScoringTheorems.CategoriesInDisplayOrder` | app/services/rubric_score_calculator.py:53-56 | categories stand by display order of their blocks, smallest first, and by id within one |
| `ScoringTheorems.TotalIsExact` | app/services/rubric_score_calculator.py:52-90 | the weighted total is the exact sum of penalised score times weight over 100; rounding changes nothing |
| `ScoringTheorems.CategoriesPermuteBlocks` | app/services/rubric_observation_validator.py:104-117 | the categories of a trusted observation are a permutation of the blocks |
| `ScoringTheorems.TotalInRange` | app/schemas/rubric_evaluation.py:230-247 | the total of a trusted observation of publishable content lies between 0 and 100 |
| `ScoringTheorems.PassingTotal` | app/services/rubric_score_calculator.py:69-95 | when every block passes, the total is at least the weighted mean of the passing scores |
| `ScoringTheorems.PenalizedBounds` | app/services/rubric_score_calculator.py:21-27 | a penalised score lies between 0 and 100 and does not exceed the raw score |
| `ScoringTheorems.ScoredMeetsSchema` | app/schemas/rubric_evaluation.py:205-247 | every field of a computed result meets the bounds of the output schema |
| `ScoringTheorems.OrderIndependent` | app/services/rubric_score_calculator.py:53-56 | the whole result is the same when only the order of the categories differs |
| `ScoringTheorems.ArrivalOrderIrrelevant` | app/services/rubric_score_calculator.py:21-95 | no score, contribution, total or pass depends on the order in which categories, or the violations within one, arrive |
| `Sorting.SortByPairwise` | app/services/rubric_score_calculator.py:53-56 | sorting by a key puts corresponding elements of two corresponding lists at the same places |
| `Text.StrLeMeaning` | app/services/rubric_score_calculator.py:53-56 | texts are compared by code point: a beginning comes first, and otherwise the first difference decides |
| `ScoringTheorems.PassedMeaning` | app/services/rubric_score_calculator.py:91-95 | a result passes if and only if it was evaluated, reaches the overall score and every category passes |
| `ScoringTheorems.CategoryMonotone` | app/services/rubric_score_calculator.py:21-27 | a raw score at least as high with no violation counted more often never lowers a penalised score nor fails a pass |
| `ScoringTheorems.ScoringMonotone` | app/services/rubric_score_calculator.py:53-95 | with raw scores at least as high and no violation counted more often, no score and no total is lower and no pass fails |
| `ScoringTheorems.RemovingViolations` | app/services/rubric_score_calculator.py:21-95 | raising raw scores or dropping findings from the violation lists never lowers a score or the total and never turns a pass into a fail |
| `Recommendations.SafeText` | app/services/evaluation_compatibility.py:136-139 | the text is bounded and never empty, whatever redaction returns |
| `Recommendations.SafeTextMeaning` | app/services/evaluation_compatibility.py:136-139 | the text is the redacted one up to its 10000th character without the whitespace around it, and the fallback exactly if nothing is left |
| `Recommendations.CollectFindings` | app/services/evaluation_compatibility.py:169-180 | the two dictionaries hold the cited positions and the last explanation of each criterion |
| `Recommendations.LastExplanationMeaning` | app/services/evaluation_compatibility.py:171-182 | the explanation kept for a criterion is that of the last finding about it |
| `Recommendations.LastCriterionMeaning` | app/services/evaluation_compatibility.py:170 | of two declarations with one id the later counts |
| `Recommendations.FirstEvidenceMeaning` | app/services/evaluation_compatibility.py:222-229 | the source is the first evidence at the position |
| `Recommendations.SelectInputs` | app/services/evaluation_compatibility.py:182-202 | the inputs used are the explicit ones, or else those synthesised from violations and failed criteria |
| `Recommendations.CheckedCandidate` | app/services/evaluation_compatibility.py:205-270 | an input yields its candidate, or the first grounding rule it breaks |
| `Recommendations.BuildRubricRecommendations` | app/services/evaluation_compatibility.py:146-282 | succeeds if and only if every input of the result is linked, with the ranked list; an error names a rule that is really broken |
| `RecommendationTheorems.GroundedInputLinked` | app/services/evaluation_compatibility.py:183-220 | every input of a grounded category, explicit or synthesised, is linked and has its evidence in the category |
| `RecommendationTheorems.BuilderIsTotal` | app/services/evaluation_compatibility.py:166-259 | the builder accepts every result scored from a trusted observation: no unknown block, no empty minimum, no error |
| `RecommendationTheorems.LinkedExactly` | app/services/evaluation_compatibility.py:206-220 | a category is linked if and only if its inputs name declared criteria and cite places that the findings about the criterion cite, or any evidence for a failed criterion without findings |
| `RecommendationTheorems.InputRecommended` | app/services/evaluation_compatibility.py:205-259 | every input yields a recommendation for its block, criterion and place |
| `RecommendationTheorems.RecommendationSays` | app/services/evaluation_compatibility.py:221-259 | the response names criterion, description, need and guidance, the advice guidance and evidence instructions, and the explanation is the last one given or else the need |
| `RecommendationTheorems.TiesKeepOrder` | app/services/evaluation_compatibility.py:261-282 | recommendations of equal rank stay in the order in which their inputs were read |
| `RecommendationTheorems.RecommendationOrigin` | app/services/evaluation_compatibility.py:183-282 | every recommendation was made for an input of one category of the result |
| `RecommendationTheorems.RecommendationsGrounded` | app/services/evaluation_compatibility.py:221-259 | every recommendation quotes an observed evidence at its position and fits the output schema |
| `Coaching.GroupByPartitions` | app/services/coaching_engine.py:225-229 | grouping splits the list: distinct non-empty groups, each holding the recommendations of its block in order |
| `Coaching.FlattenGroupBy` | app/services/coaching_engine.py:246 | flattening the groups of a list whose blocks are contiguous gives the list back |
| `Coaching.NothingLost` | app/services/coaching_engine.py:225-246 | grouping and flattening keeps every recommendation of any list, as often as it was there |
| `Coaching.ReportMeaning` | app/services/coaching_engine.py:231-255 | the report counts the recommendations, has no mistakes exactly if there are none, and shows its blocks by display order and id |
| `Coaching.ReportBlocks` | app/services/coaching_engine.py:231-240 | a block is shown exactly if something is recommended in it, with all of that in order, under the name and order of the first |
| `Coaching.EnrichMeaning` | app/services/coaching_engine.py:183-211 | enrichment keeps what is there and fills what is missing from the block, the version, or else the ids |
| `Coaching.GenerateRubricReport` | app/services/coaching_engine.py:213-255 | the report holds the enriched, grouped recommendations of a linked result |
| `PipelineTheorems.EvaluationHolds` | app/services/evaluation_engine.py:443-472 | validation and scoring establish everything later stages rely on |
| `PipelineTheorems.CandidatesContiguous` | app/services/evaluation_compatibility.py:272-281 | ranking keeps the recommendations of each block together |
| `PipelineTheorems.MostUrgentFirst` | app/services/evaluation_compatibility.py:261-282 | an earlier recommendation is for a block at least as far below its passing score; on a tie, with at least the penalties; then displayed no later; then by block id, criterion and place |
| `PipelineTheorems.PlanMostUrgentFirst` | app/services/learning_plan_generator.py:111-119 | the same of the items of the plan |
| `PipelineTheorems.CoachingFaithful` | app/services/coaching_engine.py:180-254 | enrichment is the identity on the ranked list, grouping then flattening returns it, the groups partition it and the count is its length |
| `PipelineTheorems.PlanAgreesWithRanking` | app/services/learning_plan_generator.py:111-119 | the plan and the recommendation list, ranked by separate code, order their common blocks the same way |
| `LearningPlan.GenerateRubricPlan` | app/services/learning_plan_generator.py:94-147 | the loops produce the items of the ranked categories in order |
| `LearningPlan.CriterionItem` | app/services/learning_plan_generator.py:120-172 | an item for a criterion carries the penalised score of its category and a focus that names the criterion and its instructions |
| `LearningPlan.BlockItem` | app/services/learning_plan_generator.py:120-172 | an item without a criterion names its category and the instructions of its block |
| `ReportTheorems.PlanPractises` | app/services/learning_plan_generator.py:120-141 | the plan holds an item exactly for each failed or violated criterion, and for each failed block without any |
| `LearningPlan.AllPassingMeaning` | app/services/learning_plan_generator.py:122-145 | `all_passing` holds if and only if every block passed without failed criterion or violation |
| `LearningPlan.ItemOrder` | app/services/learning_plan_generator.py:120-141 | items follow the category ranking, and the sorted criteria within a category |
| `LearningPlan.SortedSetStrict` | app/services/learning_plan_generator.py:122-124 | the criteria of a category are strictly increasing |
| `PayloadTheorems.UnnamedTargets` | app/services/learning_plan_generator.py:122-141 | a category yields an item without criterion if and only if it failed and has neither failed criteria nor violations |
| `ReportPayload.ValidatePayload` | app/schemas/session_report.py:405-463 | accepts if and only if every identity and reference check on the canonical result passes; an error names a failing check |
| `ReportPayload.ValidatePlan` | app/schemas/session_report.py:380-388 | accepts items if and only if each names both a block and a criterion or neither, and no pair repeats |
| `ReportPayload.CheckBlock` | app/schemas/session_report.py:326-344 | accepts a block if and only if its recommendations are its own and name no criterion twice; the evidence check never decides |
| `ReportPayload.ValidateCoaching` | app/schemas/session_report.py:323-344 | accepts the blocks if and only if they are distinct and each block accepted; an error names what fails |
| `ReportPayload.AssemblePlan` | app/services/session_report_assembler.py:546-582 | the assembler accepts a stored plan if and only if the section does, every scenario is the session's, no named pair is blank, and every named criterion is among the failed criteria of its block |
| `ReportPayload.PlanAssembledPlainly` | app/services/session_report_assembler.py:546-582 | when no block repeats, a plan is accepted if and only if its items are for the session's scenario, name both block and criterion or neither, no blank and no pair twice, and every criterion failed in its block's category |
| `ReportPayload.FiledExactly` | app/services/session_report_assembler.py:546-582 | of a plan of the chain only its identities, its criteria and its scenario can be at fault |
| `PayloadTheorems.ReferencesResolve` | app/schemas/session_report.py:412-454 | no reference check can fail on what validator, calculator and recommendation builder produce |
| `PayloadTheorems.SynthesisedInputs` | app/services/evaluation_compatibility.py:184-202 | synthesised inputs share criterion and position if and only if the category is ambiguous: two violations share both, a failed criterion with a finding is listed twice, or a violation listed as failed cites its earliest place |
| `PayloadTheorems.PayloadAcceptedExactly` | app/schemas/session_report.py:412-463 | the identity checks pass on an evaluation if and only if its observation repeats no failed criterion, evidence or recommendation |
| `PayloadTheorems.PlanAcceptedExactly` | app/schemas/session_report.py:380-388 | the plan section is accepted if and only if no failed block lacks both failed criteria and violations |
| `ReportTheorems.NamesByBlock` | app/schemas/session_report.py:333-336 | a list recommends no criterion of a block twice if and only if no block of it does |
| `ReportTheorems.CoachedExactly` | app/services/coaching_engine.py:225-240 | the coaching made of any recommendation list is accepted if and only if the list recommends no criterion of a block twice |
| `ReportTheorems.NamesOfInputs` | app/services/evaluation_compatibility.py:183-202 | the inputs of a category name a criterion twice if and only if two explicit inputs, two violations, a violation that is also a failed criterion, or a failed criterion with a finding that is listed twice do |
| `ReportTheorems.CoachingAcceptedExactly` | app/schemas/session_report.py:323-344 | the coaching section of an evaluation is accepted if and only if every category names each criterion once |
| `ReportTheorems.ReportValidExactly` | app/schemas/session_report.py:309-463 | the identity, coaching and plan validators together accept an evaluation if and only if no category repeats a failed criterion, evidence or named criterion and no failing block goes without one |
| `ReportTheorems.PlanKnownExactly` | app/services/session_report_assembler.py:547-579 | the assembler knows every criterion of the plan if and only if every violation was also listed as a failed criterion |
| `ReportTheorems.ViolationsNeedInputs` | app/services/session_report_assembler.py:434-580 | a session with a violation is reported only if its category came with explicit recommendation inputs |
| `ReportAssembler.TranscriptIndex` | app/services/session_report_assembler.py:131-175 | the stored rows are indexed if and only if they are valid and share neither ids nor sequence numbers |
| `ReportAssembler.IndexMeaning` | app/services/session_report_assembler.py:175 | with distinct numbers the index finds exactly the stored rows, each under its number |
| `ReportAssembler.ValidateCanonicalReferences` | app/services/session_report_assembler.py:228-285 | accepts if and only if all identities are distinct and every reference finds its entry, its speaker and its words |
| `ReportAssembler.CheckCategories` | app/services/session_report_assembler.py:235-265 | categories are accepted if and only if block ids are distinct, each category's references and identities hold, and no explicit input repeats across categories |
| `ReportAssembler.BuildEvaluation` | app/services/session_report_assembler.py:338-402 | the mode of the evaluation section, or a refusal, exactly as its flag, its scored fields and its references decide |
| `ReportAssembler.BuildCoaching` | app/services/session_report_assembler.py:464-486 | accepts if and only if blocks are distinct, name no criterion twice, hold only their own recommendations, and every source is found |
| `ReportAssembler.PayloadAddsNothing` | app/schemas/session_report.py:412-454 | the payload's own identity checks cannot fail once the assembler's have passed |
| `ReportAssembler.SectionAddsNothing` | app/schemas/session_report.py:323-344 | nor can those of the coaching section |
| `ReportAssembler.AssembleReport` | app/services/session_report_assembler.py:609-625 | a report is assembled in a mode if and only if the rows are sound, the evaluation is shown in that mode, and coaching and plan are accepted |
| `AssemblyTheorems.OneOwner` | app/services/negotiation_standard_validator.py:69-83 | publishable content declares no criterion in two blocks |
| `AssemblyTheorems.ExplicitDistinct` | app/services/session_report_assembler.py:260-265 | explicit inputs can repeat only inside a category, although the assembler compares them without their blocks |
| `AssemblyTheorems.CanonicalRefersExactly` | app/services/session_report_assembler.py:228-285 | the references of an evaluated session hold if and only if nothing is repeated, every quotation stands verbatim in its entry and every technique cites stored entries |
| `AssemblyTheorems.CoachingRefersExactly` | app/services/session_report_assembler.py:464-486 | once quotations are verbatim, the assembler's coaching checks are those of the section |
| `AssemblyTheorems.ReportedRows` | app/services/session_report_assembler.py:131-175 | a report has rows with distinct ids and numbers, texts that are not blank, and known speakers |
| `AssemblyTheorems.ReportedMeans` | app/services/session_report_assembler.py:192-285 | in a report every quotation and source stands, with its speaker, in the stored entry of its number, every number cited is stored, and no block and no failed criterion of a category repeats |
| `AssemblyTheorems.ReportedCoaching` | app/services/session_report_assembler.py:464-486 | coaching is accepted if and only if blocks are distinct, name no criterion twice, hold their own recommendations, and every source stands in the stored entries |
| `AssemblyTheorems.PlanAssembledExactly` | app/services/session_report_assembler.py:546-582 | the stored plan is assembled if and only if the section accepts it and every violation was listed as failed |
| `AssemblyTheorems.AssembledExactly` | app/services/session_report_assembler.py:609-625 | an evaluation of the chain is reported if and only if it was evaluated, the rows are sound, nothing is repeated, no criterion is coached twice, every failing block names a criterion, every violation is listed as failed and every quotation is verbatim |
| `AssemblyTheorems.VerbatimExactly` | app/services/evaluation_pipeline.py:123-126 | when entries are stored as 0, 1, 2 and so on, references and speakers always agree and only the raw containment of each excerpt is left to ask |
| `AssemblyTheorems.ShortSessionNeverReported` | app/services/session_report_assembler.py:338-351 | the evaluation of a short session is refused in every mode, whatever rows are stored |
| `Counterexamples.QuotedReportedIfFaithful` | app/services/session_report_assembler.py:192-207 | a concrete passing session is reported if its entry is stored as quoted, and refused with a second space in it or under another number |
| `Counterexamples.CriterionCoachedTwice` | app/schemas/session_report.py:333-336 | a concrete trusted evaluation passes every identity check and its coaching section is refused |
| `Counterexamples.ViolationNotListed` | app/services/session_report_assembler.py:575-579 | a concrete trusted evaluation passes every validator and the assembler refuses its plan |
| `Counterexamples.ViolationRecommendedTwice` | app/services/evaluation_compatibility.py:184-202 | a concrete trusted evaluation whose violation is also a failed criterion is refused by the report |
| `Counterexamples.UnexplainedFailure` | app/services/learning_plan_generator.py:125-141 | a concrete trusted evaluation that fails without finding produces a plan the report refuses |
| `EvaluationEngine.Deduplicate` | app/services/evaluation_engine.py:76-87 | keeps exactly the first entry of every name and every unnamed entry, in order, and counts the rest |
| `EvaluationEngine.FirstPositionsMeaning` | app/services/evaluation_engine.py:78-86 | the kept positions are increasing and are exactly the first occurrences |
| `EvaluationEngine.KeptExactly` | app/services/evaluation_engine.py:59-88 | an entry is kept if and only if it is malformed or unnamed, or no entry before it has its name up to case and surrounding blanks |
| `EvaluationEngine.DeduplicatedMeaning` | app/services/evaluation_engine.py:59-88 | each list is deduplicated by the names of its own entries, and nothing else of the response changes |
| `EvaluationEngine.ParseMeaning` | app/schemas/rubric_evaluation.py:98-170 | parsing needs both lists without malformed entries, strips the names and keeps everything else |
| `EvaluationEngine.TooShortMeaning` | app/services/evaluation_engine.py:623-637 | a session is too short if and only if fewer than four of its turns are the agent's |
| `EvaluationEngine.KeptNamesDistinct` | app/services/evaluation_engine.py:76-87 | no two kept entries share a name |
| `EvaluationEngine.DeduplicateTechniqueLists` | app/services/evaluation_engine.py:59-88 | both lists are deduplicated in place; missing lists and malformed entries stay for validation |
| `EvaluationEngine.UniquenessChecksPass` | app/schemas/rubric_evaluation.py:187-199 | after deduplication the two uniqueness checks on technique names cannot fail |
| `EvaluationEngine.ShortSessionTrusted` | app/services/evaluation_engine.py:349-373 | the empty observation of a short session is accepted if and only if the rubric has blocks with distinct ids and the transcript repeats no sequence number |
| `EvaluationEngine.ShortSessionUsable` | app/services/evaluation_engine.py:349-373 | on publishable content and a well-numbered transcript a short session is always scored |
| `EvaluationEngine.ShortSessionScored` | app/services/evaluation_engine.py:349-378 | whatever is produced for a short session is not applicable, has no points and is not a pass |
| `EvaluationEngine.HandleResponse` | app/services/evaluation_engine.py:430-472 | one response is accepted if and only if it is complete, readable, trusted and scorable; otherwise the problem is that of the first stage it fails, with exactly the defects or the repeated sequence numbers |
| `EvaluationEngine.EvaluateRubric` | app/services/evaluation_engine.py:326-498 | whatever the provider answers: at most three calls, each answer logged is the provider's for that attempt, budget and feedback; every retry follows an unusable answer, is told the problem it earned and doubles the budget, up to its cap, only if that answer was cut off; a result comes exactly from a usable last answer and is the score of its observation; giving up names the problem of the third answer |
| `EvaluationEngine.BudgetsBounded` | app/services/evaluation_engine.py:476-481 | in every run of calls budgets never decrease and stay between 4096 and 8192 |
| `EvaluationEngine.BudgetNumbers` | app/services/evaluation_engine.py:476-481 | a call is for 8192 tokens if an answer before it was cut off, and for 4096 otherwise |
| `StandardService.Tables.CreateStandard` | app/services/negotiation_standard_service.py:84-119 | inserts a draft with the given name, description and content, the first revision, no identity and no version, exactly for a campaign that exists and has none; otherwise changes nothing |
| `StandardService.Tables.UpdateDraft` | app/services/negotiation_standard_service.py:127-155 | commits exactly on a draft whose revision is the expected one: given fields replace the old, the rest of the row and everything else stays, and the revision grows by one |
| `StandardService.Tables.DeleteDraft` | app/services/negotiation_standard_service.py:158-189 | removes exactly a draft that no version belongs to, and nothing else |
| `StandardService.Tables.PublishStandard` | app/services/negotiation_standard_service.py:201-278 | a returned version holds the draft's content, and the standard is published and points at it; the revision grows exactly if status or pointer changed; versions are only appended, at most one; every other outcome changes nothing, and each refusal has its exact condition |
| `StandardService.Tables.ReopenDraft` | app/services/negotiation_standard_service.py:281-302 | returns exactly a published or archived standard to draft, with the next revision and everything else kept |
| `StandardService.Tables.ArchiveStandard` | app/services/negotiation_standard_service.py:305-318 | archives a standard with the next revision and everything else kept; a second time changes nothing |
| `StandardService.Tables.GetOrCreateSeedStandard` | scripts/seed_rubrics.py:177-243 | finds or inserts the standard of a definition, or reports exactly the ownership conflicts |
| `StandardService.Tables.GetOrCreateSeedVersion` | scripts/seed_rubrics.py:297-360 | returns the version with this content, inserting the next number if there is none |
| `StandardService.Tables.PublishSeedStandard` | scripts/seed_rubrics.py:363-407 | validates, finds or inserts the version and moves the pointer unless it is already there; says whether it did, and a refusal changes nothing |
| `StandardService.Tables.SeedDefinition` | scripts/seed_rubrics.py:458-527 | one definition commits as a whole or is rolled back as a whole; a committed one returns a version with its content, which a published standard points at, and changes no other standard |
| `StandardService.Tables.SeedRubrics` | scripts/seed_rubrics.py:458-527 | the loop is the sequence of independent definition transactions, and each outcome is that of its definition on the tables the earlier ones left |
| `Ledger.OnlyNextNumberCommits` | app/models/negotiation_standard.py:119-125 | a version that passes both uniqueness constraints and is numbered as publication numbers it carries the next unused number |
| `Ledger.SeedInsertFits` | scripts/seed_rubrics.py:326-360 | the version the seeder inserts never meets a constraint in a sound ledger |
| `Ledger.PublishKeepsInv` | app/services/negotiation_standard_service.py:201-278 | publication keeps the ledger sound, committed or aborted |
| `Ledger.SeedKeepsInv` | scripts/seed_rubrics.py:458-527 | seeding a definition keeps the ledger sound |
| `Ledger.ApplyKeepsInv` | app/services/negotiation_standard_service.py:84-318 | every transaction of either writer keeps the ledger sound |
| `LedgerTheorems.VersionsNumberedInOrder` | app/services/negotiation_standard_service.py:216-268 | over every interleaving each standard's version numbers are exactly 1..n, in order, and no content repeats |
| `LedgerTheorems.VersionsAppendOnly` | app/models/negotiation_standard.py:92-125 | over every run a version id resolves to the same snapshot for ever |
| `LedgerTheorems.PointerNeverLost` | app/services/negotiation_standard_service.py:158-318 | a set pointer never becomes null and its standard is never deleted |
| `LedgerTheorems.PublishedPointsAtOwnVersion` | app/models/negotiation_standard.py:131-150 | a published standard points at a version of its own whose content passed validation |
| `LedgerTheorems.UpdateCommitsOnce` | app/services/negotiation_standard_service.py:127-155 | of all updates of a standard carrying one expected revision, at most one commits, whatever happens in between |
| `LedgerTheorems.PublishAbortsExactly` | app/services/negotiation_standard_service.py:218-268 | admin publication aborts on a constraint if and only if the version it compares with differs from the draft and either is not the newest version or some other version already has the content of the draft |
| `LedgerRuns.RepublishOldContentAborts` | app/services/negotiation_standard_service.py:252-264 | from an empty ledger, publishing A, then B, then A again aborts |
| `LedgerRuns.PublishAfterSeedMovedBackAborts` | app/services/negotiation_standard_service.py:218-264 | from an empty ledger, seeding A, B and A again puts the pointer on version 1 of 2, and publishing new content then aborts on number 2 |
| `LedgerRuns.SeedAfterReopenStaysDraft` | scripts/seed_rubrics.py:401-402 | from an empty ledger, seeding, reopening and seeding again succeeds and leaves a draft |
| `LedgerTheorems.SeedLeavesPublished` | scripts/seed_rubrics.py:401-407 | a published definition leaves its standard published, except exactly a reopened draft that already pointed at its version |
| `LedgerTheorems.IdentityExactly` | scripts/seed_rubrics.py:189-190 | two definitions are one rubric if and only if their sources have one safe name and the words of their names are the same up to case |
| `LedgerTheorems.SafeSourceMeaning` | scripts/seed_rubrics.py:769-772 | the safe name is the words of the source cut at 120 characters, or "unknown" |
| `LedgerTheorems.SeedSucceedsExactly` | scripts/seed_rubrics.py:177-407 | a definition succeeds if and only if its campaign exists, no other standard was seeded as the same rubric, its campaign's own was if it has one, and to be published that is not archived and the content may be |
| `LedgerTheorems.SeedMeaning` | scripts/seed_rubrics.py:177-407 | what a success leaves: the row it creates, the version it adds exactly if none has the content, the pointer it moves exactly if it must, and nothing else |
| `LedgerRuns.TwoRubricsOfOneSource` | scripts/seed_rubrics.py:458-527 | one source that names two rubrics for two campaigns creates and publishes both |
| `LedgerTheorems.FailureRepeats` | scripts/seed_rubrics.py:191-226 | a definition refused once is refused again, whatever has been seeded since |
| `LedgerTheorems.SuccessRepeats` | scripts/seed_rubrics.py:458-493 | a definition that succeeded once creates nothing again |
| `LedgerTheorems.SeedingIsIdempotent` | scripts/seed_rubrics.py:458-527 | seeding the same list again creates no standard and no version and leaves every pointer and status where it was, even with repeated identities, conflicts and failures |
| `PdfSecurity.Inspector.Inspect` | app/services/pdf_security.py:113-183 | along any chain to the object: without rejection everything newly visited is reachable and explored or a reference met behind a reference; a rejection has a cause on a chain |
| `PdfSecurity.Inspector.InspectChildren` | app/services/pdf_security.py:147-183 | without rejection a direct object is clean and all its successors were visited |
| `PdfSecurity.InspectSound` | app/services/pdf_security.py:113-183 | the same of the walk function, by induction over its calls |
| `PdfSecurity.WalkSound` | app/services/pdf_security.py:185-217 | a passing walk visited every root and explored everything it visited except references met behind references; a rejection has a cause; at most 10001 calls on any graph, cyclic or not |
| `PdfSecurity.NothingLeftBehind` | app/services/pdf_security.py:113-217 | a passing walk that left no reference unfollowed met every reachable object and found it clean |
| `PdfSecurity.PassingIsClean` | app/services/pdf_security.py:113-217 | where no reachable reference leads to a reference, passing means that no reachable object has a dangerous key or attachment subtype |
| `PdfSecurity.KeyReasons` | app/services/pdf_security.py:23-26 | which of the 17 keys stands for which reason, and no other key for any |
| `PdfSecurity.RootsMeaning` | app/services/pdf_security.py:183-215 | the walk starts from the dictionaries among the first 2000 pages and from a catalog with entries |
| `PdfSecurity.CleanHasNoForbidden` | app/services/pdf_security.py:97-171 | where everything reachable is clean, no reachable dictionary has a forbidden key or shows an attached file |
| `PdfSecurity.WalkAlike` | app/services/pdf_security.py:128-145 | the walk goes the same way on every document that differs only behind references it did not follow |
| `PdfSecurity.PassingVouchesExactly` | app/services/pdf_security.py:128-145 | passing vouches for every document the walk cannot tell apart if and only if no reference was left unfollowed |
| `PdfSecurity.HiddenPasses` | app/services/pdf_security.py:128-183 | a concrete document with a script behind two references passes |
| `PdfSecurity.InspectPdfObjects` | app/services/pdf_security.py:81-217 | the walk as computed: passing without unfollowed references means every reachable object is clean; a rejection has a cause |
| `PdfSecurity.ValidatePdfSecurity` | app/services/pdf_security.py:34-78 | accepts exactly the readable, unencrypted documents of at most 2000 pages that the walk passes, with the reason of the first failing check otherwise; where no reachable reference leads to a reference, an accepted document shows none of the 17 forbidden keys and no attached file in any reachable dictionary |
| `EventStore.Store.NextSeq` | app/services/event_store.py:30-41 | the number is larger than every number ever stored |
| `EventStore.Store.Append` | app/services/event_store.py:43-56 | the history gains the event, whatever its number; the buffer loses exactly the due entries at its front and stays a suffix of the history; with a clock that never went back, exactly the entries past their time to live are lost |
| `EventStore.Store.GetAfter` | app/services/event_store.py:58-77 | with events appended in order, an answer is exactly the events of the complete history numbered above `last`; resynchronisation is asked for exactly when `last` precedes the oldest kept |
| `EventStore.Store.Emit` | app/services/event_broadcaster.py:53-64 | numbering and storing as one step keep the history in order and the buffer a suffix of it |
| `EventStore.SuffixHasAll` | app/services/event_store.py:69-77 | a suffix of an increasing history misses nothing above a number it reaches back to |
| `EventStore.AfterMeaning` | app/services/event_store.py:77 | an answer holds exactly the larger-numbered events, in order |
| `EventStore.DropDueIsTail` | app/services/event_store.py:52-54 | with a clock that never goes back, eviction from the front drops exactly the due entries |
| `EventStore.OnlyDueIsLost` | app/services/event_store.py:49-56 | over any run of appends with a clock that never goes back, an entry is lost if and only if its time to live has passed at the last append; the latest entry stays |
| `RateLimiter.Limiter.IsRateLimited` | app/services/rate_limiter.py:26-50 | refuses exactly if at least the limit of stored requests is inside the window, stores what is inside and, if not refused, the new one; other keys stay as they are |
| `RateLimiter.Limiter.Cleanup` | app/services/rate_limiter.py:52-63 | keeps exactly the keys with a request at most 3600 seconds old, with all their requests |
| `RateLimiter.DecisionsMatchLog` | app/services/rate_limiter.py:26-63 | every decision equals the one made on the unpruned log, and cleanup changes none while no usable window exceeds an hour |
| `RateLimiter.CleanupHarmlessExactly` | app/services/rate_limiter.py:52-63 | cleanup changes no decision of any run if and only if no key that can be allowed anything has a window longer than 3600 seconds |
| `RateLimiter.CleanupForgetsLongWindows` | app/services/rate_limiter.py:52-63 | with a two-hour window cleanup lets a request through that the log refuses |
| `RateLimiter.LimitHolds` | app/services/rate_limiter.py:37-50 | in every run every interval of window length, open on the left or on the right, holds at most the limit of allowed requests |
| `UploadService.Tables.PersistUpload` | app/api/uploads.py:421-447 | stores a clean, extracted, completed, unlinked row with the content and its file, or nothing |
| `UploadService.Tables.PersistFailedScan` | app/api/uploads.py:96-155 | stores a failed row without content and file, infected exactly if there is a signature and then with it, or nothing |
| `UploadService.Tables.CheckEligibility` | app/services/conversion_service.py:332-372 | passes exactly the clean, extracted, completed uploads with content and scenario |
| `UploadService.Tables.ConvertUploadToScriptDraft` | app/services/conversion_service.py:134-329 | the flush, link and commit statements leave both the draft and its link or, after a rollback at any of them, neither; both exactly for an eligible, unlinked upload whose scenario exists and is free |
| `UploadService.Tables.RetryReview` | app/api/review.py:242-326 | refuses infected, deleted, rejected and published uploads for every target; a conversion goes through exactly for an eligible, unlinked upload with a free scenario and then adds the draft and its link; a scan retry changes nothing; an extraction replaces the content |
| `UploadService.Tables.RetryConversion` | app/api/review.py:329-428 | a conversion adds one script and changes one link, anything else changes nothing, and the tables stay sound |
| `UploadService.Tables.RetryScan` | app/api/review.py:431-522 | touches only scan, signature, status and file of an upload whose scan failed and whose file is kept, and in sound tables nothing at all |
| `UploadService.Tables.RetryExtraction` | app/api/review.py:525-604 | replaces the content exactly when a clean upload with its file extracts and commits; scan, link, scenario and all other rows never change |
| `UploadService.Tables.RejectReview` | app/api/review.py:616-713 | refuses a published upload, leaves a rejected one alone, and otherwise rejects with the reason and removes the file if it can, or changes nothing if the commit fails |
| `Uploads.ConvertKeepsInv` | app/services/conversion_service.py:134-329 | conversion keeps scripts unique per scenario and links unique per script |
| `Uploads.ApplyKeepsInv` | app/api/review.py:242-713 | every request keeps content, completed extraction, links and kept files on clean scans only |
| `UploadTheorems.RunIsLater` | app/api/review.py:268-604 | over every run the scan verdict is final (so infected is absorbing), rejected is absorbing, a link is written once and a soft-deleted script never changes again |
| `UploadTheorems.CleanForEver` | app/services/conversion_service.py:336-357 | a linked script, stored content or completed extraction implies a clean scan after every continuation of every run |
| `UploadTheorems.ScanRetryNeverRuns` | app/api/review.py:431-455 | in every run a scan retry changes nothing: an upload whose scan failed has no file left |
| `UploadTheorems.ConversionIsAtomic` | app/services/conversion_service.py:232-311 | the conversion transaction, as specified, adds exactly one draft of the right scenario and content with its link, or nothing |
| `UploadTheorems.ConvertsExactly` | app/services/conversion_service.py:153-311 | a conversion goes through if and only if the upload is eligible and unlinked, the scenario exists, the content converts and no script, deleted or not, holds the scenario |
| `UploadTheorems.OneScriptPerScenario` | app/models/script.py:42 | at every moment of every run a scenario holds at most one script, soft-deleted ones included |
| `UploadTheorems.TakenBlocks` | app/services/conversion_service.py:184-258 | while a scenario has a script, no conversion, draft or reassignment to it commits |
| `UploadTheorems.DeletedScriptBlocks` | app/services/script_registry.py:328-357 | a soft-deleted script holds its scenario in every continuation of every run |
| `UploadTheorems.FreedExactly` | app/api/scripts.py:178-206 | a step frees a held scenario if and only if it is a committed reassignment of its live script to another existing scenario that no script holds |
| `UploadTheorems.FreedInRun` | app/api/scripts.py:178-206 | a run that frees a held scenario contains such a reassignment |
| `UploadTheorems.FreeableExactly` | app/api/scripts.py:178-206 | some continuation frees a held scenario if and only if its script is live |
| `UploadTheorems.LinkMovesExactly` | app/api/scripts.py:178-206 | a linked script leaves the scenario of its upload if and only if it is reassigned |
| `UploadTheorems.ScenarioConvertedTwice` | app/api/scripts.py:178-206 | a run from empty tables converts two uploads of one scenario, the first one's script having been reassigned in between |
| `UploadService.Tables.AssignScript` | app/api/scripts.py:178-206 | moves a live script to an existing scenario that no other script holds, and otherwise changes nothing |
| `UploadTheorems.OneUploadPerScript` | app/services/conversion_service.py:278-279 | no two uploads are linked to the same script in any run |
| `UploadTheorems.InPublishedExactly` | app/services/review_service.py:68-125 | an upload counts as published if and only if it is not rejected, its extraction is complete and its script is live and published |
| `UploadTheorems.ReviewMeaning` | app/services/review_service.py:68-125 | what each visible status means, in terms of the fields of upload and script |
| `UploadTheorems.RetriedConversion` | app/api/review.py:329-428 | exactly when retrying a conversion converts, and that it adds one draft with the converted content and its link |
| `UploadTheorems.PublishedNotRetried` | app/api/review.py:300-308 | a published upload is refused for every target |
| `UploadTheorems.RetriedExtraction` | app/api/review.py:525-604 | exactly when a retried extraction replaces the content, and what a failed one changes |
| `UploadTheorems.RegistryMeaning` | app/services/script_registry.py:164-357 | what editing, publishing, unpublishing and deleting do to a live script, and nothing to a deleted one |
| `UploadTheorems.DraftAndExpiry` | app/services/script_registry.py:29-77 | a draft is created exactly if its scenario is free |
| `UploadTheorems.PublishedRejectedExactly` | app/api/review.py:641-668 | an upload whose script is live and published can be rejected if and only if a later extraction retry failed |
| `UploadTheorems.RejectsExactly` | app/api/review.py:641-668 | a rejection takes effect exactly on uploads that are not rejected and whose scan or extraction failed or whose script is missing or a live draft; otherwise nothing changes |
| `UploadTheorems.PublishedMayBeRejected` | app/api/review.py:556-668 | a run from empty tables: upload, conversion, failed extraction retry, publication and rejection end with a rejected upload whose script is live and published |
| `UploadTheorems.RejectedAfterPublication` | app/api/review.py:556-668 | from any upload in review whose file is kept, the last three of these requests have that end |

## Left out

- Message texts and the final sorting of reported issues by path: issues are compared as a set of coded positions.
- FastAPI routing, HTTP codes, audit logs, sockets, speech, mail and sign-in: plumbing around libraries.
- Prompts and model calls: the provider is an arbitrary function of attempt, budget and feedback, and a missing provider is not modelled.
- Persistence of an evaluation, a coaching report and a plan: they are stored as computed, together; a report of missing or partly stored artifacts is not modelled.
- SQL and locking: a transaction is one step, so waiting and deadlock are not modelled; a row's script is read in the same step as the upload, although `retry_review` and `publish_review` do not lock it.
- Columns nothing decides on: timestamps, audit users, file metadata, `updated_by`, upload expiry times.
- Seed counters, run status and source loading: only the per-definition transactions are modelled.
- The fallback after a seeder uniqueness race: `Ledger.SeedInsertFits` shows that it is never reached while steps are atomic.
- The dynamic test seeder and the listing operations on versions.
- ReportPayload.ValidatePayload: does not model the checks that a legacy evaluation excludes a canonical one and that an empty transcript has no entries, because the assembler never builds such sections, nor the scenario of plan items, which `ReportPayload.AssemblePlan` has checked before.
- ReportPayload.ValidatePlan: does not model the reason codes of unavailable sections, because the plan of the chain is always available.
- ReportPayload.ValidateCoaching: does not model modes and reason codes, because rubric coaching is always canonical and available.
- ReportAssembler.BuildEvaluation: does not model what a legacy section demands, because no evaluation of the chain gets there.
- ReportAssembler.AssembleReport: does not model pinned versions, session identities and summary times, because the pipeline copies them.
- The non-rubric coaching, plan and scoring paths, and the legacy review rendering.
- PDF parsing: object identity is stable for the whole walk and every object mentioned exists; Python's recursion limit is not reached at depth 50.
- Delivery and role filtering of events; the store's lock, since numbering and appending are one step.
- Editing and publication of a linked draft through the review endpoints: publication, unpublication, editing and soft deletion of scripts may happen at any time, without the review's extra guards, so the results hold for both paths.
- Whitespace removal by the schema parser is that of `str.strip`; its treatment of rare separators may differ.
