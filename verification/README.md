# Verified model of the PC build recommender's governance core

This project models, in Dafny, the parts of the recommender that decide what counts as evidence,
and proves what they promise:

* **One-shot test access** (`Evaluation*.dfy`). Registering, opening, completing and publishing a
  sealed ranking evaluation over write-once files. Any number of processes interleave at every
  file-system effect, and crash anywhere, also in the middle of a write.
  `EvaluationRecords` holds the documents, `EvaluationProtocol` the state machine,
  `EvaluationSafety` its invariant, `EvaluationTheorems` the safety results over whole runs,
  `EvaluationProgress` termination, `EvaluationDeterminism` recovery with repeatable scoring,
  `EvaluationChronology` the clock, and `EvaluationLedger` the ledger methods as a class.
* **Label lineage** (`LabelSnapshot.dfy`, `LabelTheorems.dfy`, `RankingTraining.dfy`,
  `SwappedContexts.dfy`, `PlainCodec.dfy`, `SwapWitness.dfy`, `SnapshotBinding.dfy`,
  `FrozenSplit.dfy`). Appending grades to a committed snapshot, taking them off again in the
  verifier, the trainer's comparison, and the label-free binding of an evaluation to its files.
* **Source releases** (`JsonlReader.dfy`, `SourceRelease.dfy`, `ReleasePublication.dfy`,
  `ReleaseRace.dfy`, `EncoderBundle.dfy`). The chunked reader, the collection with its deadlines,
  content-addressed publication and verification, and packaging a tree that changes meanwhile.
* **Blender cohorts** (`BlenderJoin.dfy`, `BlenderOrder.dfy`, `BlenderCohorts.dfy`,
  `OrderStatistics.dfy`, `StrictOrders.dfy`). The join loop with its memo cache, batches and
  counters, cohort selection, and the median queries.
* **Annotation pooling** (`CandidatePool.dfy`), **quality baselines** (`QualityBaseline.dfy`,
  `QualityHistory.dfy`), **migrations** (`Migrations.dfy`) and the **environment file**
  (`EnvironmentFile.dfy`).

`dafny verify dfyconfig.toml` checks everything.

## Assumptions

Hash functions are parameters, assumed injective where a lemma says so. JSON texts are parameters
with the properties that a lemma names: they read back, and a prefix of a record text reads only
once its closing brace is there. What is said of the JSON of a ranking snapshot is said of values
that canonical JSON can write: fractions are held by their text, and the parser yields such values.
`open` with `O_CREAT|O_EXCL` and `rename` are atomic, and `rename` fails onto a directory that is
not empty (POSIX.1-2017, `open()` and `rename()`). Rates, thresholds and scores are exact reals.

## Where the code promises less than one might expect

* A crash that cuts off only the final newline of a record leaves a text that still parses, so a
  retry adopts it. The theorems speak of readable records; a shorter prefix blocks.
* `verify_ranking_evaluation_bundle` refuses a decision that did not pass, and timestamps out of
  order, only after the rename. Such an evaluation is sealed and visible although the command
  fails; `RestartConverges` and `PublishedVerifies` give the exact condition.
* The labelled line of a row may exceed the 8 MiB line limit although the committed line did not;
  the verifier then refuses what materialisation just wrote (`MaterializedVerifies`).
* The trainer names a query by the id inside its context and the snapshot by the id of the row,
  and nothing compares the two. `AcceptedExactly` says which rows pass, `AcceptedAreMaterialized`
  when they have the grades of their own queries, and `SwappedContextsPass` which commitments let
  others pass.
* The last-write family map depends on the order of the records when a product of a GPU base
  family lacks an integral memory size (`EntriesAgreeExactly`, `OrderCanMatter`).
* The baseline loader reads the first 1000 snapshot names only, and the directories of the batch under
  test and of other variants are among them. A passing report beyond them is not a baseline
  (`LoadedIsBaselineExactly`, `CrowdedScanMissesPass`).
* A quality report counts every rejection and the manifest beside it the listed ones, which some
  parsers cap at 1000, while the loader wants the two equal. A passing batch with one rejection more is
  nobody's baseline, and the next batch may lose nearly all records unnoticed
  (`PassingImportIsBaseline`, `TruncatedListHidesCollapse`).
* Importing a snapshot again overwrites its quality report, and an import that stops early may leave a
  manifest that no longer fits. If that report was the baseline, the bar falls back to an older one
  (`FailingImportKeepsBaseline`, `JudgedAgainstLatest`). So a batch is compared with the last one that
  passed exactly while that report is in force (`JudgedAgainstLastPass`).
* A source file called like the provenance file is overwritten in the packaged encoder bundle
  (`SourceSurvivesExactly`).
* A release manifest longer than the control-file limit is published and then fails its own
  verification (`ReleasePublication.PublishedVerifies`); a second publisher of the same evidence is
  refused (`LosersAdopt`).

## Model

| member | source | states |
|---|---|---|
| EvaluationRecords.IntentDetermined | training/ranking_evaluation_gate.py:425-513 | two valid intents with the same intent digest are the same intent, cohort included |
| EvaluationRecords.SealedVerifies | packages/core/src/pc_build_recommender/ranking/evaluation_bundle.py:344-585 | a bundle sealed from linked records verifies if and only if its timestamps are in order and the decision passed for its intent and report |
| EvaluationRecords.BundleDetermines | training/ranking_evaluation_gate.py:1092-1118 | equal bundles were sealed from the same intent, events and outputs |
| EvaluationRecords.ManifestPins | packages/core/src/pc_build_recommender/ranking/evaluation_bundle.py:344-585 | two verified bundles with the same manifest digest agree in every other byte |
| EvaluationSafety.ApplyKeeps | training/ranking_evaluation_gate.py:137-159 | every step of every process, and every crash, keeps the invariant of files, events, bundles and program points, and only adds to what is on record |
| EvaluationSafety.RunKeeps | training/ranking_evaluation_gate.py:736-962 | the invariant holds after every interleaving of any number of processes, and records and bundles only grow along a run |
| EvaluationTheorems.LookNeedsAccess | training/evaluate_ranking.py:103-113 | a process that has parsed labels or scored has a readable access record of its own intent on a readable registration of that intent |
| EvaluationTheorems.OneIntentPerCohort | training/ranking_evaluation_gate.py:759-857 | in every reachable state at most one intent of a cohort was registered, accessed, completed, published or scored, or had a process that finished registering it, partly written records included |
| EvaluationTheorems.CohortOwnerStable | training/ranking_evaluation_gate.py:759-796 | the intent that a cohort was registered or opened for never changes along a run |
| EvaluationTheorems.PublishedIsSealed | training/ranking_evaluation_gate.py:1019-1149 | a visible bundle holds exactly the bytes sealed from the registration, access and completion of its intent and from the outputs the completion names |
| EvaluationTheorems.CompletionFollowsAccess | training/ranking_evaluation_gate.py:859-939 | a completion file, even a partly written one, has a readable access and registration of the same intent and holds the digests of exactly those events |
| EvaluationTheorems.RecordNeverChanges | training/ranking_evaluation_gate.py:137-159 | a readable record, timestamp included, reads the same after every continuation |
| EvaluationTheorems.BundleNeverChanges | training/ranking_evaluation_gate.py:1120-1149 | a bundle directory keeps every byte from the moment it is visible |
| EvaluationTheorems.OneOutcome | training/ranking_evaluation_gate.py:859-939 | all bundles of one intent are equal byte for byte, whatever output roots were used and however often scoring was repeated |
| EvaluationTheorems.OutputDetermined | training/ranking_evaluation_gate.py:900-939 | a completion record admits exactly one report and decision |
| EvaluationTheorems.SecondOutcomeFails | training/ranking_evaluation_gate.py:900-939 | with a completion on record, a run that carries another report or decision never finishes |
| EvaluationTheorems.OrphanStaysForever | training/ranking_evaluation_gate.py:154-159 | a record file whose creator is gone stays as it was left after every continuation |
| EvaluationTheorems.PartialRegistrationBlocks | training/ranking_evaluation_gate.py:154-159 | an unreadable registration left by a crash blocks its cohort for good: no intent of it is ever opened and no process ever registers one |
| EvaluationTheorems.PartialAccessBlocks | training/ranking_evaluation_gate.py:154-159 | an unreadable access record left by a crash blocks its intent for good: it is never scored, completed or published |
| EvaluationTheorems.PartialCompletionBlocks | training/ranking_evaluation_gate.py:154-159 | an unreadable completion record left by a crash ends its intent for good: no run gets past the completion and nothing is published |
| EvaluationProgress.StepGetsCloser | training/evaluate_ranking.py:77-197 | every step of a running process brings it strictly closer to its end, whatever the other processes do: nobody waits for anybody |
| EvaluationDeterminism.OneOutcomeAlong | training/ranking_evaluation_gate.py:859-939 | along every interleaving in which each scoring of an intent returned one outcome, a readable completion of the intent is for that outcome and every process past scoring carries it |
| EvaluationDeterminism.RestartConverges | training/evaluate_ranking.py:77-197 | after any run with crashes in which every scoring of the intent returned one outcome, if the cohort is registered to the intent and none of its records is partly written, a new evaluator left alone seals the one bundle of that outcome, and succeeds if and only if timestamps are in order and the decision passed |
| EvaluationProgress.RegisterAgain | training/ranking_evaluation_gate.py:965-977 | registering the same intent again succeeds at any later time and keeps the first registration |
| EvaluationChronology.PublishedVerifies | packages/core/src/pc_build_recommender/ranking/evaluation_bundle.py:344-585 | under a clock that never goes back every visible bundle is in chronological order, so it verifies if and only if its decision passed |
| EvaluationLedger.LedgerDirectory.WriteOnce | training/ranking_evaluation_gate.py:137-159 | exclusive creation writes the whole text; an existing file is never changed and is adopted only when its bytes are equal |
| EvaluationLedger.LedgerDirectory.Record | training/ranking_evaluation_gate.py:759-796 | the common ledger method: an existing record is loaded and compared and never changed, a missing one is created with the new event |
| EvaluationLedger.LedgerDirectory.Preregister | training/ranking_evaluation_gate.py:759-796 | succeeds exactly when the cohort is free or its readable registration names this intent; the state after the call is the registration written at most once |
| EvaluationLedger.RegisteredExactly | training/ranking_evaluation_gate.py:798-814 | in every reachable state the check succeeds exactly when the registration of the cohort is readable and carries the digest of this intent; comparing that digest suffices for cohort and model |
| EvaluationLedger.LedgerDirectory.ClaimAccess | training/ranking_evaluation_gate.py:816-857 | fails without touching the files unless registered; otherwise records the access once and admits exact retries only |
| EvaluationLedger.LedgerDirectory.RecordCompletion | training/ranking_evaluation_gate.py:859-939 | records the digests of the registration, the access and the outputs once, and admits exact retries only |
| EvaluationLedger.LedgerDirectory.PreregisterIntent | training/ranking_evaluation_gate.py:965-977 | writes the intent file once, then claims its cohort; a different intent file stops the call before the cohort is claimed |
| EvaluationLedger.RecordIsProtocolRun | training/ranking_evaluation_gate.py:759-796 | an uninterrupted ledger call leads to the same files and verdict as the step-by-step protocol of a process that nobody disturbs, however its write calls cut the text |
| EvaluationLedger.RetryKeepsFirst | training/ranking_evaluation_gate.py:816-857 | an admitted claim repeated at any other time is admitted again and leaves the first record as it was |
| EvaluationLedger.OtherCompletionRefused | training/ranking_evaluation_gate.py:900-939 | after one completion was admitted, a completion with any other identity is refused |
| SnapshotBinding.BoundAccessIsNotWasted | training/ranking_evaluation_gate.py:686-733 | an intent made from a successful binding cannot fail a lineage or ranker check later, as long as file hashes and ranker identity match and the full verification passes |
| LabelSnapshot.LabelCandidates | training/materialize_ranking_snapshot.py:557-567 | appends the adjudicated grade to every candidate in order, and fails exactly when a product id as written has no grade |
| LabelSnapshot.LabelQuery | training/materialize_ranking_snapshot.py:493-573 | labels one row exactly when its identity, commitment and candidates agree across rows, evidence and grades |
| LabelSnapshot.MaterializeRows | training/materialize_ranking_snapshot.py:463-574 | succeeds exactly when all universes agree and every query can be labelled, and then returns one labelled row for each query in order |
| LabelSnapshot.UngradeCandidates | training/materialize_ranking_snapshot.py:676-690 | strips the grades exactly when every candidate is an object with an integer grade between 0 and 4 |
| LabelSnapshot.VerifyRows | training/materialize_ranking_snapshot.py:650-703 | accepts exactly the files whose lines are within the limit, parse, have distinct query ids equal to the committed ones, and whose ungraded rows hash to the commitment |
| LabelTheorems.CommittedHasNoGrade | training/materialize_ranking_snapshot.py:141-152 | the recursive key check leaves no candidate of a committed row with a grade |
| LabelTheorems.UnlabelLabel | training/materialize_ranking_snapshot.py:557-573 | labelling a committed row and stripping the labels gives the row back |
| LabelTheorems.ReadEncoded | training/materialize_ranking_snapshot.py:891-891 | reading written rows back gives them in order if and only if every line is within the limit |
| LabelTheorems.MaterializedVerifies | training/materialize_ranking_snapshot.py:598-703 | a materialised file is accepted if and only if no labelled line exceeds the line limit of the verifier |
| LabelTheorems.AcceptedAreCommitted | training/materialize_ranking_snapshot.py:650-703 | with a hash that tells written values apart, the rows of an accepted file are exactly the committed ones, each once, with the same candidates in the same order and one grade in 0..4 each |
| PlainCodec.PlainIsSound | training/materialize_ranking_snapshot.py:650-703 | a concrete JSON writer, parser and hash meet every assumption made about the texts of a ranking snapshot |
| RankingTraining.GradesDetermineRow | training/train_ranking.py:160-193 | a row is determined by its committed row and the adjudicated grades it was compared with |
| RankingTraining.AcceptedExactly | training/train_ranking.py:117-197 | the rows of a file pass the verifier and the trainer if and only if the committed contexts name every adjudicated query once and fit its candidates and category, there are at least three rows, and every row is the committed one labelled with the grades of the query its context names |
| RankingTraining.OwnGradesExactly | training/train_ranking.py:160-197 | those are the grades of the row's own query if and only if the two queries were graded alike, candidate by candidate |
| RankingTraining.AcceptedAreMaterialized | training/train_ranking.py:160-197 | the accepted rows are exactly the materialised rows, in any order, if and only if every context names a query that was graded like the row's own, in particular when it names its own |
| RankingTraining.MaterializedTrainsExactly | training/train_ranking.py:117-197 | the materialised rows agree with the adjudicated grades if and only if the contexts fit and name queries graded alike and there are at least three rows |
| RankingTraining.ByContextPasses | training/materialize_ranking_snapshot.py:598-703 | whenever the contexts fit, the file of the rows labelled by their contexts passes the verifier if and only if its lines are within the limit |
| SwappedContexts.SwappedContextsPass | training/train_ranking.py:117-157 | for every labelable commitment of at least three queries in which two queries with the same candidates are named by each other's contexts, a file passes verifier and trainer in which their rows have each other's grades; the own grades are there if and only if both were graded alike |
| SwapWitness.SwapHappens | training/train_ranking.py:117-197 | for a concrete JSON codec any three ids give such a commitment in which the first row is taken with the grade of the second query and not with its own |
| FrozenSplit.SplitQueries | training/train_ranking.py:290-309 | succeeds exactly when splits and query ids match, no part is empty and training has two grades, and then returns for each split its queries in order |
| FrozenSplit.PartsAreAll | training/train_ranking.py:290-309 | every query lands in exactly one split |
| CandidatePool.NextFresh | scripts/capture_relevance_annotation_candidates.py:425-429 | finds the first hit from the cursor on that is not selected yet |
| CandidatePool.Deduplicate | scripts/capture_relevance_annotation_candidates.py:413-418 | keeps the first occurrence of every fused candidate |
| CandidatePool.TakeTurn | scripts/capture_relevance_annotation_candidates.py:424-438 | one turn moves only the cursor of its source, past selected hits, and adds its first fresh hit or finds the source exhausted |
| CandidatePool.AddInTurns | scripts/capture_relevance_annotation_candidates.py:420-442 | terminates with the prefix of the unbounded round robin that fits the maximum; a source leads only when the other has nothing left |
| CandidatePool.SelectPooled | scripts/capture_relevance_annotation_candidates.py:395-454 | fails exactly for a maximum below one or below the fused list; otherwise returns the prefix of the unbounded pool with matching statistics and fairness |
| CandidatePool.TurnsComplete | scripts/capture_relevance_annotation_candidates.py:420-442 | the unbounded turns add distinct new hits and leave no hit of either source out |
| CandidatePool.PoolIsSound | scripts/capture_relevance_annotation_candidates.py:395-454 | the pool starts with the de-duplicated fused list, has no duplicates, stays within the maximum, holds every hit when below it, and is a prefix of the pool for any larger maximum |
| JsonlReader.InspectFile | pipelines/source_release.py:600-673 | for every chunking succeeds exactly on unchanged acceptable contents, with the digest, size, capture and line count of the whole; validator calls are the lines in order with numbers 1..n, or a prefix of them on failure |
| JsonlReader.AbsorbLines | pipelines/source_release.py:632-658 | one chunk advances the line state as if everything had been read at once, or reports an error only for contents that are not acceptable |
| JsonlReader.DrainLines | pipelines/source_release.py:639-655 | drains every complete line of the pending bytes in order |
| JsonlReader.LinesOfJoin | pipelines/source_release.py:632-665 | splitting is the inverse of joining lines by newlines |
| JsonlReader.LinesAppend | pipelines/source_release.py:632-665 | reading on from an unfinished line gives the same lines as reading everything at once |
| JsonlReader.AcceptableIsJoined | pipelines/source_release.py:600-673 | a content is acceptable if and only if it is some list of validated non-empty lines within the limits, each ended by one newline |
| SourceRelease.AcceptedTimesAreAnInterval | pipelines/source_release.py:1530-1545 | the clock checks of policy, rights, registry and snapshot hold together exactly between one opening and one closing moment |
| SourceRelease.ClosesByEveryDeadline | pipelines/source_release.py:1530-1545 | the interval closes no later than the policy, key, consent and retention deadlines that are set |
| SourceRelease.CollectFactors | pipelines/source_release.py:1439-1695 | the collection, which looks at the clock in every step, yields what the bytes say exactly while the evidence is open, and the payload never depends on the clock |
| SourceRelease.CollectionIgnoresClock | pipelines/source_release.py:1439-1695 | two accepted collections over the same bytes give the same manifest, and so does every moment between them |
| ReleasePublication.ReleaseRoot.Settle | pipelines/source_release.py:1705-1768 | an existing directory is adopted exactly when it holds the expected files, each within the control-file limit, and is never rewritten |
| ReleasePublication.ReleaseRoot.Publish | pipelines/source_release.py:1718-1793 | without accepted evidence nothing changes; otherwise the one directory of the manifest holds the collected files and the result is that of verifying them |
| ReleasePublication.PublishedVerifies | pipelines/source_release.py:1796-1861 | with unchanged external bytes and registry a published release verifies exactly during its window, with the manifest it was published with, provided the manifest fits the control-file limit |
| ReleasePublication.PinFixesRelease | pipelines/source_release.py:1796-1861 | a verified manifest pin fixes the manifest, all control files and the contents of the three external files |
| ReleasePublication.VerifiedIsGrounded | pipelines/source_release.py:1796-1861 | a release that verifies holds the current registry, lies in its window, and every accepted record passed the validator of the signed policy under its line number |
| ReleaseRace.PlaceDeterminesBundle | pipelines/source_release.py:1735-1743 | the directory name determines every file in it |
| ReleaseRace.VisibleIsComplete | pipelines/source_release.py:1742-1768 | with any number of publishers and crashes a directory holds all its files from the moment it appears and keeps them |
| ReleaseRace.LosersAdopt | pipelines/source_release.py:1705-1765 | with any number of publishers and crashes the loser of a race adopts identical bytes if and only if its manifest is within the control-file limit; nobody is refused for another reason |
| EncoderBundle.NeverVisibleIncomplete | scripts/package_semantic_encoder_bundle.py:232-303 | in every reachable state every visible directory is complete, lies under the digest of its contents and was finished by a publisher |
| EncoderBundle.NeverReplaced | scripts/package_semantic_encoder_bundle.py:245-303 | a visible directory never changes afterwards |
| EncoderBundle.PublishedIsPinned | scripts/package_semantic_encoder_bundle.py:232-245 | however the source changes during inspection and copying, a finished directory is the pinned tree with the provenance file written over it |
| EncoderBundle.SourceSurvivesExactly | scripts/package_semantic_encoder_bundle.py:242-243 | the pinned files survive unchanged if and only if none has the name of the provenance file, or it already has that text |
| EncoderBundle.LoserAdopts | scripts/package_semantic_encoder_bundle.py:246-288 | a publisher that finds its directory already there, before or at the rename, adopts it |
| OrderStatistics.QueryIsMedian | training/prepare_blender_performance.py:549-573 | LIMIT and OFFSET on any sorted arrangement give the mean of the two middle order statistics, defined by counting, for odd and even sizes |
| OrderStatistics.MedianUnique | training/prepare_blender_performance.py:549-573 | the counting definition admits one median |
| OrderStatistics.MedianOfMultiset | training/prepare_blender_performance.py:549-573 | the median does not depend on the order of the rows |
| OrderStatistics.MedianSplits | training/prepare_blender_performance.py:549-573 | at least half of the scores lie on either side of the median, which lies between the bounds of the scores |
| OrderStatistics.MedianPositive | training/prepare_blender_performance.py:1058-1085 | the median of positive scores lies between the smallest and the largest and is positive |
| OrderStatistics.DeviationOfMultiset | training/prepare_blender_performance.py:576-601 | the deviation query depends on the scores of the group only |
| OrderStatistics.DeviationCovers | training/prepare_blender_performance.py:576-601 | the deviation query gives the median of the absolute deviations, which at least half of the scores respect |
| OrderStatistics.TargetOrder | training/prepare_blender_performance.py:1078-1085 | targets keep the order of higher-is-better medians and strictly reverse that of lower-is-better ones |
| BlenderJoin.KeyDecides | training/prepare_blender_performance.py:876-893 | the family depends on nothing that the cache key drops |
| BlenderJoin.FindFamily | training/prepare_blender_performance.py:876-893 | the cached lookup returns what a fresh family computation returns for this observation, and counts a rejection once for each key |
| BlenderJoin.JoinRecord | training/prepare_blender_performance.py:849-936 | one pass of the loop ends a record as the cache-free definition says and adds exactly that to the counters |
| BlenderJoin.Buffer | training/prepare_blender_performance.py:926-957 | batched inserts lose and duplicate no row |
| BlenderJoin.JoinAll | training/prepare_blender_performance.py:845-964 | the loop stores exactly the joined rows in order, keeps the last family entries, counts every outcome, and aborts exactly when a joined record lacks a field |
| BlenderOrder.Conservation | training/prepare_blender_performance.py:848-957 | every observation seen ends in exactly one terminal counter or in the store |
| BlenderOrder.StoredExactly | training/prepare_blender_performance.py:849-936 | the store holds exactly the rows of the records that pass every check, each with the family found and the values measured |
| BlenderOrder.OrderChangesNothing | training/prepare_blender_performance.py:845-964 | shuffling the records changes no counter, no stored row and not whether the join aborts |
| BlenderOrder.VariantsRejectedExactly | training/prepare_blender_performance.py:653-686 | a GPU family is ambiguous exactly when the size is not named and two products differ in it, and conflicts exactly when no product has the named size |
| BlenderOrder.FamilyMapIsOrderFree | training/prepare_blender_performance.py:925-925 | the last-write family map is the same for every order if and only if the joined records of each family agree on its entry |
| BlenderOrder.EntriesAgreeExactly | training/prepare_blender_performance.py:653-708 | an observation that names the memory size and one that does not agree on the entry of their family if and only if every product of the base family carries an integral size |
| BlenderOrder.SameFamilySameEntry | training/prepare_blender_performance.py:653-708 | with integral memory sizes two keys that lead to the same family lead to the same entry |
| BlenderOrder.OrderCanMatter | training/prepare_blender_performance.py:925-925 | two records and a product without a memory size for which the order of the records decides the family map |
| BlenderCohorts.CandidateCohortsIs | training/prepare_blender_performance.py:520-546 | the candidate list holds one summary for each cohort, with the counts of its rows, in the required order |
| BlenderCohorts.CandidateListUnique | training/prepare_blender_performance.py:520-546 | the candidate list depends on the stored rows only, not on their order |
| BlenderCohorts.CandidatesPartitionRows | training/prepare_blender_performance.py:520-546 | the joined observations of the candidate cohorts add up to the stored rows |
| BlenderCohorts.SummaryOrder | training/prepare_blender_performance.py:520-546 | leakage groups are at most hardware identities, which are at most joined observations |
| BlenderCohorts.SelectedIsListed | training/prepare_blender_performance.py:966-1020 | the selected cohort is a listed one, has enough products and matches the pin |
| BlenderCohorts.SelectedIsLargest | training/prepare_blender_performance.py:1005-1013 | without a pin the selected cohort is a largest one by leakage groups, then hardware identities, then observations |
| BlenderCohorts.Prepare | training/prepare_blender_performance.py:812-1238 | fails exactly with the error of the first failing stage, and otherwise returns one aggregated row for each family of the selected cohort, in the order of the family names |
| BlenderCohorts.CohortFamilyListIs | training/prepare_blender_performance.py:1041-1049 | the listed families are exactly those of the cohort, each once, in the order of their names, as many as its hardware identities |
| BlenderCohorts.OutputDescribesGroup | training/prepare_blender_performance.py:1046-1148 | an output row gives the count, the median and median deviation by counting, the target on the common scale, and exactly the observed sources and hardware names of its group |
| BlenderCohorts.PreparedAddsUp | training/prepare_blender_performance.py:1041-1148 | the output rows count every observation of the selected cohort once, and candidates, store and counter agree |
| BlenderCohorts.SuccessIsOrderFree | training/prepare_blender_performance.py:812-1020 | every order of the records succeeds or fails alike, with the same error |
| BlenderCohorts.PreparationIsOrderFree | training/prepare_blender_performance.py:812-1238 | with integral memory sizes every order of the records gives the same counters, candidates, selection and list of output rows |
| QualityBaseline.NoShortfall | pipelines/checks/quality.py:281-284 | the rounded-up minimum is met exactly when the fraction is kept in exact arithmetic |
| QualityBaseline.RegressionErrors | pipelines/checks/quality.py:270-357 | the checks find nothing exactly when the batch keeps accepted count, listings, covered types, covered categories and rejection rate within the policy |
| QualityBaseline.Evaluate | pipelines/checks/quality.py:360-534 | a batch passes exactly when it is structurally sound, within the rejection threshold and without regression |
| QualityBaseline.LoadBaseline | pipelines/checks/quality.py:178-267 | returns a newest usable report among the scanned snapshots, or nothing exactly when none is usable |
| QualityBaseline.LoadFromArchive | pipelines/checks/quality.py:178-267 | the loader finds the newest valid passing report of another snapshot among the names that the scan reaches, counted by rank in name order |
| QualityBaseline.LoadedIsBaselineExactly | pipelines/checks/quality.py:213-267 | with distinct times the loader finds the baseline of the whole archive if and only if there is none or the scan reaches its name |
| QualityBaseline.CrowdedScanMissesPass | pipelines/checks/quality.py:213-219 | whatever the scan limit, as many report-less directories under smaller names hide a passing report from the loader |
| QualityBaseline.PassingImportIsBaseline | pipelines/checks/quality.py:178-267 | a passing import is what the loader finds for every other snapshot if and only if the scan reaches it, all its rejections are listed and both its files are within the size limit; with more rejections than a parser lists it never is |
| QualityBaseline.FailingImportKeepsBaseline | pipelines/checks/quality.py:178-267 | an import that fails or whose report cannot be loaded leaves what the loader finds alone if and only if it did not overwrite that report and its directory did not push the report out of the scan |
| QualityHistory.JudgedAgainstLatest | pipelines/assets/ingestion.py:22-43 | over any sequence of imports, re-imports, abandoned imports and directories of other variants a batch is judged against the newest report in force: passed, not overwritten, vouched for by its last manifest, and reached by the scan |
| QualityHistory.JudgedAgainstLastPass | pipelines/assets/ingestion.py:22-43 | over any such sequence a batch is judged against the last batch that passed if and only if that report is in force for it |
| QualityHistory.WrittenOnceInForce | pipelines/checks/quality.py:213-263 | a pass that lists all its rejections in files of bounded size, whose files were written once, is in force while the directories of all variants fit the scan |
| QualityHistory.TruncatedListHidesCollapse | pipelines/checks/quality.py:250-265 | a history of two imports: 45000 accepted and 1001 rejected records with 1000 rejections listed pass, and the next batch passes with 10 records, judged against nothing |
| QualityHistory.PassingFormChain | pipelines/checks/quality.py:537-558 | as long as the last pass is in force at every import, the passing batches of such a sequence form a chain of comparisons |
| QualityHistory.ChainDrift | pipelines/checks/quality.py:281-357 | n steps along a chain keep the n-th power of the accepted fraction and raise the rejection rate by at most n times the limit |
| QualityHistory.CategoryDrift | pipelines/checks/quality.py:325-345 | a category that stays well covered keeps the n-th power of the category fraction |
| QualityHistory.DefaultDrift | pipelines/checks/quality.py:38-45 | under the default policy the n-th passing batch keeps 0.7 to the power n of the accepted records of the first one and exceeds its rejection rate by at most 0.15 n, while every pass lists all its rejections, is written once and all directories fit the scan |
| Migrations.RecordedIsPrefix | scripts/run_supabase_migrations.py:103-132 | at every moment of any interleaving the recorded migrations are a prefix of the sorted files, the schema is that prefix applied in order, and no file was committed twice |
| Migrations.FinishedMeansAll | scripts/run_supabase_migrations.py:118-132 | a run that finishes leaves every file applied |
| Migrations.RunAgainFinishes | scripts/run_supabase_migrations.py:103-132 | after any failures a new run left alone applies the rest of the files, if they apply at all and no open transaction holds a record |
| Migrations.Connection.Apply | scripts/run_supabase_migrations.py:118-132 | SQL and record are committed together or not at all |
| Migrations.Connection.Migrate | scripts/run_supabase_migrations.py:103-132 | one run extends the applied prefix and stops early only at a file that fails |
| EnvironmentFile.ParseEnv | scripts/validate_production_env.py:143-167 | the line loop computes the ordered dictionary and the errors with their line numbers |
| EnvironmentFile.LinesAreEntriesOrErrors | scripts/validate_production_env.py:143-167 | lines that are neither blank nor comments are entries or errors, one each |
| EnvironmentFile.KeysAreOffered | scripts/validate_production_env.py:143-167 | the dictionary has exactly the valid keys that some line assigns |
| EnvironmentFile.FirstOfferWins | scripts/validate_production_env.py:159-166 | the value of a key is that of the first line that assigns it |
| EnvironmentFile.ReadPrinted | scripts/create_production_contract_fixture.py:207-211 | a printed line reads back as its key and its trimmed value |
| EnvironmentFile.ReadExported | scripts/validate_production_env.py:150-151 | an export prefix changes nothing |
| EnvironmentFile.ReadQuoted | scripts/validate_production_env.py:164-165 | in matching quotes every value survives, spaces at its ends included |
| EnvironmentFile.RoundTrip | scripts/create_production_contract_fixture.py:207-211 | parsing the printed file gives the same ordered dictionary without errors if and only if keys fit the pattern without repeats and values are single-line, trimmed and not wrapped in matching quotes |

## Left out

- Ed25519 signatures, the Awin adapter, YAML loading and data-use rights: they are given functions of the bytes; only their time limits are modelled.
- SHA-256 and canonical JSON: parameters with stated properties; digest syntax and field-by-field schema checks are not modelled.
- Links, junctions, inode comparison, permissions and fsync: only exclusive creation, partial writes and atomic renames are kept.
- Field-format checks of an intent (resample bounds, seed type, promotion policy) and the runtime binding to the evaluator source: they compare values with constants.
- Several ledger or intent roots: one ledger root is modelled; output roots are many.
- Scoring, rankings, NDCG, bootstrap and promotion rules: an evaluation is whatever output a process scores, and repeats may differ unless a lemma says otherwise.
- The feature matrix and candidate hashes inside a pre-label row, the number of annotators, and the version checks of judgments and split: one given predicate each.
- Field checks of the ranker's context and candidate records beyond ids and categories: given predicates of the JSON; the trainer reads lines in text mode, where a bare carriage return also ends a line, and the model does not.
- Regular expressions over hardware names, and the text form of a family: families are structured values, so two families never share a name by accident.
- Aggregation of product attributes and hardware generations: given functions of the selected products.
- SQLite and PostgreSQL: a table is a sequence of rows or a set of keys, a transaction commits or rolls back as a whole; SQL files that cannot run in a transaction are not modelled.
- Creating the migrations table, the pgvector extension and the final report of a migration run: one statement each, before and after the loop.
- Output details of Blender preparation: manifest texts, workload names, product ids, dataset role and promotion blockers.
- The catalogue index counters and the memory limits of the match store: easy members.
- Imports of one source that run at the same time: their histories are one import after the other.
- Structural checks of a quality batch record by record: one defect count stands for them.
- Universal-newline translation when a text file is read: the parser model starts from the decoded text.
- Lower-level details of `os.replace` for encoder bundles: an empty directory at the destination is not modelled.
- ReleasePublication.ReleaseRoot.Publish: stages and renames in one step; the interleaved steps are those of ReleaseRace.
- EvaluationLedger.RecordIsProtocolRun: covers one ledger call that nobody disturbs; interleaved calls are the subject of the state machine.
