# Verification model of the evidence-review pipeline

The evidence-review pipeline is offline, and it claims to be fail-closed, immutable, deterministic and
crash-recoverable.  This project models the code behind those claims and proves what holds of it, over
all inputs, all runs and all crash points.

| files | what they model |
|---|---|
| `RunDisk`, `RunPlans`, `RunDirectory` | a run directory as create-only artifacts and an append-only journal; each entry point as the sequence of primitive writes it makes, and the class whose methods make them |
| `RunSafety`, `RunLegality*`, `RunTelemetry`, `RunTheorems`, `RunEntryPoints` | the run invariant, the write discipline, and what follows for every run with crashes |
| `RunRecovery`, `RunHandover`, `RunProgress`, `RunOutcomes`, `RunAnswers`, `RunSubmission`, `RunWitness`, `RunLosses` | exactly which interrupted runs can still be handed over or finished, and with which outputs; what each state answers; witnesses |
| `LineageStore`, `LineageMatching`, `LineageGraph`, `LineageRelations`, `LineageLayers`, `LineageReasons`, `LineagePlanner`, `LineageConflicts`, `LineageEquivalence` | the evidence database as tables of rows, the planner that compares a legacy with a canonical graph, and what its verdicts mean |
| `LineageMigration`, `LineageOwnership`, `LineageSoundness`, `LineageTheorems`, `LineageExample` | deletion on a copy, and exactly when a READY plan can be applied |
| `LineagePublication`, `LineageAliases`, `LineageApply` | the alias file, publication by hard links under injected exceptions, and the migration end to end |
| `ClauseText`, `ClauseMaterializer`, `ClauseRuns`, `ClauseKeys`, `ClauseLinks`, `ClauseIdentifiers` | the element-by-element clause derivation and its links |
| `IssueGraph`, `QuestionPlan`, `QuestionPlanMeaning`, `QuestionPlanLaws`, `UserExpansions` | question plans: dependency search, decoding, encoding, extension |
| `PageTiles` | cutting a page image into tiles and loading them back |
| `ConfidenceScore`, `ConfidencePath`, `FinalDecision`, `FinalPacket` | the weighted score, its path through a run, and the packet decision |
| `PathResolution`, `TrustedFiles` | documentation paths, and the component walk over a tree with links |
| `MarkdownCode`, `MarkdownLinks`, `MarkdownFences`, `MarkdownHeadings` | code spans, links, fences and heading anchors |

Code that changes things step by step is a class or a method with loops, proved against functions of the
old state; the properties are lemmas about those functions, and no lemma relies on automatic induction.
SHA-256 is a constructor, hence injective.
Track A and Track B validation, packet derivation, text normalization and regular expressions are
parameters: deterministic functions about which nothing is assumed beyond what a statement's requirements
say, such as that normalization is idempotent.

## Findings

Proving a property sometimes showed where it fails.  Each failure is stated exactly.

- **Interrupted finalization.**  `docs/CODEX_WORKFLOW.md:255` says that interrupted restartable outputs
  are cleaned only when they can be safely regenerated.  `track-b-validation.json` is such an output, it
  could be regenerated from the validated Track B, but it is not in `FINALIZATION_DERIVED`
  (`src/evidence_review/workflow/artifact_ownership.py:20-26`), so a run that dies inside its write is
  never finished (`RunWitness.TornValidationIsFatal`).  So is one that dies inside a metric event before
  packet and page are complete, since every retry parses all metric events
  (`src/evidence_review/observability/run_metrics.py:116-133`, `RunLosses.TornMetricIsFatal`), one whose
  journal file was torn (`RunLosses.TornEventIsFatal`), and one whose run-local Track B was replaced by
  another document (`RunLosses.ReplacedTrackBIsFatal`).  `RunRecovery.RecoveryIff` proves that a run in
  FINALIZING whose outputs name this run is finished by a retry in all other cases.
- **Interrupted preparation.**  A preparation killed after its first write and before
  `next-action-track-a.json` is never completed: preparing again does not write that file
  (`src/evidence_review/review_question.py:697-702`, `RunOutcomes.KilledPreparationIsFatal`).  The same
  holds for a kill among the first seven journal events (`RunOutcomes.CutShortForEver`).
  `RunOutcomes.RunCanFinishIff` states for every reachable state, and every acceptable pair of outputs,
  whether the run can still finish with that pair.
- **READY plans that cannot be applied.**  A plan can be READY although a legacy document has a revision
  that the manifest does not declare, or although a document is legacy in one mapping and canonical in
  another.  The first fails at deletion, the second at verification, and over the modelled tables nothing
  else fails (`LineageTheorems.MigrationPasses`, with `LineageExample.ReadyButUndeclared` and
  `LineageExample.ReadyButChained`).  Since a mapping names one source hash and the schema
  (`src/evidence_review/evidence/schema_v2.sql:16-23`) keeps the sources of a document's revisions
  different, a legacy document with two revisions never migrates
  (`LineageTheorems.TwoRevisionsNeverMigrate`).
- **Retrieval records.**  They carry no foreign keys, so a record that names a row of a legacy document
  but another document survives and refers to a removed row (`LineageExample.StrayRecordDangles`); that
  is the only way (`LineageTheorems.RecordsIntactIff`).
- **Publication.**  A failed publication leaves an output behind exactly when the failing link took effect
  before it raised, or a withdrawal failed (`LineagePublication.Directory.PublishAtomically`, with both
  faults in `LineagePublication.PublishWithLeftover`).
- **Clause identifiers.**  An identifier is a digest of revision, structural key and text, so two equal
  clauses of one article share it and `next_sibling` runs in a cycle (`ClauseIdentifiers.RepeatedArticle`);
  without such a pair it never does (`ClauseIdentifiers.AcyclicIff`).
- **Coverage display.**  From a denominator of 20000 on, a ratio can be shown as 1.0000 while its state is
  FAILED (`ConfidencePath.RatioMismatch`); below, never (`ConfidencePath.RatioMatchesState`).
- **Fences.**  Section 4.5 of CommonMark forbids backticks in the info string of a backtick fence; the
  opening pattern takes any.  The two agree on a line exactly when no fence of that kind opens
  (`MarkdownFences.OpenersAgree`, with `MarkdownFences.TickedLineOpens`), and on the regions of a document
  exactly when every such line lies inside a region of the standard (`MarkdownFences.RegionsAgree`, with
  `MarkdownFences.TickedDocument`).  Closing fences agree with the standard
  (`MarkdownFences.ClosersAgree`).
- **Heading anchors.**  Duplicate suffixes keep headings of one base apart
  (`MarkdownHeadings.UniqueWithinBase`), but a suffixed anchor can be the own anchor of another heading
  (`MarkdownHeadings.SharedAnchor`); `MarkdownHeadings.DistinctIff` says exactly when.

## Model

| member | source | states |
|---|---|---|
| `RunTheorems.PlanLegal` | src/evidence_review/review_question.py:618-829 | From every state satisfying the run invariant, everything any call of the protocol writes, unlinks or appends obeys the write discipline `Legal`, action after action. |
| `RunTheorems.StepSafe` | src/evidence_review/review_question.py:618-829 | One call, completed or cut short after any write or inside it, keeps the invariant and never takes back what the journal or a frozen artifact holds. |
| `RunTheorems.RunSafe` | src/evidence_review/review_question.py:618-829 | Every disk that any sequence of calls and crashes can leave satisfies the invariant. |
| `RunTheorems.RunLater` | src/evidence_review/review_question.py:354-435 | Over any continuation of any run the journal only grows, published artifacts keep their bytes, a torn metric event stays and freezes the final artifacts, and of a run that is ready only the telemetry changes. |
| `RunTheorems.AcceptedIsExpected` | src/evidence_review/review_question.py:495-538 | A packet the runtime accepts is the one derived from the run-local Track A and the Track B document recorded on entering FINALIZING; both were validated. |
| `RunTheorems.CrashSafety` | src/evidence_review/review_question.py:495-538 | Over every run with a crash after (or inside) any single write: an accepted packet is the derivation from the validated run-local Track A and the validated run-local Track B whose identity the FINALIZING event recorded, both of this run. |
| `RunTheorems.OnePacketPerRun` | src/evidence_review/review_question.py:748-829 | Two packets accepted at two moments of one run are the same packet, whatever was submitted in between. |
| `RunTheorems.JournalAndHandoff` | src/evidence_review/review_question.py:354-399 | In every reachable state the journal is a gapless chained prefix of the fixed ten states; from WAITING_TRACK_B on, validated Track A, the Track B bundle, the next action and the validation record exist and the event is bound to that Track A; READY_FOR_REVIEW is bound to the stored packet. |
| `RunTheorems.PreparationDigests` | src/evidence_review/review_question.py:385-399 | In every reachable journal the first three events carry the digest of the request, the next four that of the Track A bundle as it stands in the run directory. |
| `RunTheorems.PublishedTrackANeverChanges` | src/evidence_review/review_run.py:191-220 | Once the run-local Track A file exists its bytes stay for ever; after the handoff so do its three derived files; of a ready run only the telemetry changes. |
| `RunRecovery.ResumeAndRetryDone` | src/evidence_review/review_question.py:541-605 | From a recoverable state resubmitting the recorded Track B (or the run-local file when it is already valid) finishes with the expected packet and ten events. |
| `RunRecovery.RecoveryIff` | src/evidence_review/review_question.py:748-829 | From every state a run can reach after FINALIZING was journalled: the retry with the original Track B reaches READY_FOR_REVIEW with the expected packet if and only if both recorded tracks name this run, the journal loads, no metric event is torn or packet and page are already complete and acceptable, `track-b-validation.json` is not a torn file, and the run-local Track B is torn, absent or the recorded one; otherwise no continuation ever reaches it. |
| `RunRecovery.HopelessForEver` | src/evidence_review/review_question.py:541-571 | A run that is not recoverable stays at nine events and unrecoverable through every continuation. |
| `RunRecovery.HopelessHasNoPacket` | src/evidence_review/review_question.py:495-538 | Such a run, as long as its journal loads, offers no acceptable packet. |
| `RunRecovery.OtherTrackBNeverYields` | src/evidence_review/review_question.py:574-605 | After FINALIZING no submission, of whatever document, yields a packet other than the one of the recorded Track B. |
| `RunRecovery.OtherTrackBRefused` | src/evidence_review/review_question.py:596-605 | Unless the run is already finalized, submitting another document, or an external file when the run-local one is already valid, is refused before anything is written. |
| `RunWitness.UninterruptedRunIsReady` | src/evidence_review/review_question.py:618-829 | Prepare, Track A and Track B without interruption do reach READY_FOR_REVIEW with the derived packet: the safety statements are not vacuous. |
| `RunWitness.TornValidationIsFatal` | src/evidence_review/review_run.py:824-869 | A concrete run that dies inside the write of `track-b-validation.json` never becomes ready again under any continuation. |
| `RunLosses.TornEventIsFatal` | src/evidence_review/workflow/events.py:466-525 | A concrete run that dies inside its last write, the event READY_FOR_REVIEW, never becomes ready: the journal no longer loads. |
| `RunLosses.ReplacedTrackBIsFatal` | src/evidence_review/review_question.py:541-571 | A concrete run that dies right after the event FINALIZING and then finds another document as run-local Track B never becomes ready. |
| `RunLosses.TornMetricIsFatal` | src/evidence_review/observability/run_metrics.py:116-188 | A concrete run that dies inside the metric event after its packet never becomes ready: journal, Track B and its validation record are intact, but every retry parses all metric events first and nothing removes a torn one. |
| `RunHandover.TrackASubmissionIff` | src/evidence_review/review_question.py:713-745 | From every reachable state that waits for Track A: submitting a valid Track A reaches WAITING_TRACK_B with the whole handoff if and only if journal and telemetry load and the run-local Track A is absent, is what is submitted byte for byte, or is itself the submission; torn or missing sidecars never stand in the way. |
| `RunProgress.OpenRunsFinish` | src/evidence_review/review_question.py:618-829 | From every reachable state that is open for an acceptable pair of outputs at most four undisturbed calls finish the run with that pair. |
| `RunOutcomes.RunCanFinishIff` | src/evidence_review/review_question.py:618-829 | For every reachable state and every acceptable pair of outputs: some continuation, crashes included, finishes the run with that pair if and only if the state is open for it. Before FINALIZING that means: the preparation was not cut short, journal and telemetry load, and no other output is in the way; from then on the recorded Track B and the condition of recovery decide. |
| `RunOutcomes.CutShortForEver` | src/evidence_review/review_question.py:385-435 | A run whose preparation was killed before `next-action-track-a.json` existed, or among its first seven journal events, stays so under every continuation: resuming is refused, and preparing again never writes that file. |
| `RunOutcomes.KilledPreparationIsFatal` | src/evidence_review/review_question.py:666-702 | Killing the preparation at any point between its first write and that file leaves a run that is never handed over to Track B. |
| `RunAnswers.ResumeAnswers` | src/evidence_review/review_question.py:385-435 | What resuming answers and writes, for every reachable state with the seven preparation events, by journal length, evidence, accepted packet and whether the page can be shown. |
| `RunAnswers.PrepareAnswers` | src/evidence_review/review_question.py:618-710 | Preparing such a run again adds exactly its four metric events and answers like resuming; with a torn metric event it is refused before it writes. |
| `RunAnswers.FinishedRunAnswers` | src/evidence_review/review_question.py:748-768 | A finished run, with its evidence and a page that can be shown: every further Track B submission, of whatever document, is answered with its packet and writes nothing; preparing it again is answered with the same packet and adds at most metric events; Track A is refused. |
| `RunAnswers.OtherTrackRefused` | src/evidence_review/review_question.py:713-768 | A track the run does not wait for is refused without a write to the journal or to an artifact. |
| `RunSubmission.TrackBAnswers` | src/evidence_review/review_question.py:748-829 | Every answer to a Track B submission in every state that waits for it: refused without a write for another evidence database, a torn journal or torn telemetry; refused after its two metric events when the document is not valid; otherwise FINALIZING is journalled and the run is finished with the derived packet, unless another document is at the run-local path, a track names another run, no packet is derived or the page cannot be shown. |
| `RunDirectoryState.RunDirectory.PrepareReviewQuestion` | src/evidence_review/review_question.py:618-710 | The step-by-step method makes exactly the planned writes; every write keeps the run invariant at each point where the call can be killed and takes nothing published back; a call that is not refused leaves a run that waits or can be retried, or a ready run with the expected packet; a finished run is answered with its packet and gains nothing but metric events. |
| `RunDirectoryState.RunDirectory.SubmitQuestionTrackA` | src/evidence_review/review_question.py:713-745 | The same, and a submission that is not refused leaves a run waiting for Track B with its whole handoff: validated Track A, bundle, action and validation record. |
| `RunDirectoryState.RunDirectory.SubmitQuestionTrackB` | src/evidence_review/review_question.py:748-829 | The same, and a packet is handed out only when the run is ready, stores that packet, and the packet is the one derived from the validated Track A and the recorded Track B; a finished run is left as it is and hands its packet out again. |
| `RunEntryPoints.TrackBEnds` | src/evidence_review/review_question.py:748-829 | On the planned writes: a returned packet is the verified packet of the ready run that the call leaves. |
| `RunEntryPoints.ReadyIsExpected` | src/evidence_review/review_question.py:495-538 | A ready run with a verified packet has all ten events, and its packet is the expected one. |
| `LineageMatching.MatchPayloadRows` | src/evidence_review/evidence/lineage_graph.py:284-339 | The greedy loop computes a closed form: a legacy row is mapped iff its payload has exactly one canonical carrier and no earlier legacy row took it; otherwise it is reported as missing or ambiguous. |
| `LineageMatching.GreedyIsExact` | src/evidence_review/evidence/lineage_graph.py:284-339 | Nothing is unresolved iff every legacy payload occurs exactly once among the legacy rows and exactly once among the canonical rows. |
| `LineageMatching.MappedAndUnresolvedPartition` | src/evidence_review/evidence/lineage_graph.py:284-339 | Each legacy row is either mapped or unresolved, never both. |
| `LineageMatching.MatchingIsInjective` | src/evidence_review/evidence/lineage_graph.py:284-339 | Two mappings never share a canonical row. |
| `LineageMatching.ExactMatchingIsTotal` | src/evidence_review/evidence/lineage_graph.py:284-339 | When nothing is unresolved every legacy row is mapped, to a row of equal payload. |
| `LineageMatching.ExactMatchingIgnoresOrder` | src/evidence_review/evidence/lineage_graph.py:284-339 | When nothing is unresolved the mapping does not depend on the order of the rows. |
| `LineageGraph.MatchClauses` | src/evidence_review/evidence/lineage_graph.py:342-382 | Clause matching with a reviewed-value conflict in place of the plain reason where one applies. |
| `LineageGraph.ConflictsKeepReports` | src/evidence_review/evidence/lineage_graph.py:369-382 | Replacing reasons neither loses nor invents an unresolved clause. |
| `LineageGraph.ClausesExact` | src/evidence_review/evidence/lineage_graph.py:342-382 | Clause matching resolves everything exactly when payload matching does. |
| `LineageConflicts.ConflictIff` | src/evidence_review/evidence/lineage_graph.py:342-382 | A reviewed-value conflict is reported exactly for a legacy clause without an equal payload left for it, one canonical clause of its title and text, and a difference in normalized text or review status; it names that clause. |
| `LineageRelations.MatchRelation` | src/evidence_review/evidence/lineage_graph.py:565-743 | Links, review flags and retrieval records: each selected row is mapped iff exactly one row has its references translated by the identifier map and its payload. |
| `LineageRelations.RelationMatching` | src/evidence_review/evidence/lineage_graph.py:565-743 | Nothing unresolved iff every selected row has one counterpart, and then every selected row is mapped; every mapping joins a selected row and its counterpart. |
| `LineageRelations.RelationsPlanned` | src/evidence_review/evidence/lineage_graph.py:846-866 | The same for the three tables together. |
| `LineageReasons.LayerExplained` | src/evidence_review/evidence/lineage_graph.py:284-382 | Every reason a layer reports is true of the rows: no carrier (or one that a duplicate took), several carriers, or a carrier of another reviewed value. |
| `LineageReasons.RelationsExplained` | src/evidence_review/evidence/lineage_graph.py:565-743 | Every unresolved relation row is selected and has not exactly one counterpart. |
| `LineagePlanner.Planner.PlanPage` | src/evidence_review/evidence/lineage_graph.py:492-543 | Adds nothing unresolved iff the two pages have the same geometry and exactly matching contents; then the page and its contents are mapped. Whatever it reports is true of the two pages. |
| `LineagePlanner.Planner.PlanPages` | src/evidence_review/evidence/lineage_graph.py:492-543 | The same over all page numbers of a pair of revisions, in any order. |
| `LineagePlanner.Planner.PlanRevision` | src/evidence_review/evidence/lineage_graph.py:398-562 | Adds nothing unresolved iff the revisions are equivalent, header, page set, pages and clauses; then everything under the legacy revision is mapped. Each reported reason is true. |
| `LineagePlanner.Planner.PlanDocument` | src/evidence_review/evidence/lineage_graph.py:786-834 | The same for a document and its declared revisions. |
| `LineagePlanner.Planner.PlanMigration` | src/evidence_review/evidence/lineage_graph.py:746-870 | The plan is READY iff the whole graph is equivalent and the relations are exact under the identifier map; whenever the graph is equivalent, READY or not, that map is the one of the graph's mappings and every legacy row is mapped; a READY plan certifies its mappings; every mapping pairs rows under a declared pair of documents; every reason of a BLOCKED plan is true of the database. |
| `LineageEquivalence.EquivalentMeans` | src/evidence_review/evidence/lineage_graph.py:385-543 | Graph equivalence row by row, over keyed tables with one page per number: equal titles; revisions under their documents with the declared source hash, one size and one page count; the same page numbers with equal width and height; and every element, table, visual and clause alone with its payload and matched by exactly one of equal payload. |
| `LineageMigration.Database.DeleteOne` | src/evidence_review/evidence/lineage_migration.py:167-176 | Deletes a present, unreferenced row, or fails and changes nothing. |
| `LineageMigration.Database.DeleteLegacyGraph` | src/evidence_review/evidence/lineage_migration.py:179-221 | Deleting table by table succeeds iff every mapped row is present once and whatever refers to it is mapped too; then exactly the mapped rows are gone and each counter is the number of its table's mappings. |
| `LineageMigration.Database.VerifyMappingState` | src/evidence_review/evidence/lineage_migration.py:224-240 | Passes iff every legacy row is absent and every canonical row present. |
| `LineageMigration.Database.Migrate` | src/evidence_review/evidence/lineage_migration.py:420-437 | Succeeds iff the deletion and the verification do; otherwise the copy is as before. |
| `LineageOwnership.GraphPair` | src/evidence_review/evidence/lineage_graph.py:398-562 | A mapping of an equivalent document joins a row of the legacy document and a row of the canonical one. |
| `LineageSoundness.MappedOnce` | src/evidence_review/evidence/lineage_migration.py:157-176 | A READY plan maps no legacy row twice. |
| `LineageTheorems.LegacyRowMapped` | src/evidence_review/evidence/lineage_graph.py:398-562 | Once all revisions are declared, every row of a legacy document is mapped. |
| `LineageTheorems.UndeclaredBlocks` | src/evidence_review/evidence/lineage_migration.py:179-221 | An undeclared revision of a legacy document makes the deletion fail. |
| `LineageTheorems.ChainBlocks` | src/evidence_review/evidence/lineage_migration.py:224-240 | A document both legacy and canonical makes the verification fail. |
| `LineageTheorems.MigrationPasses` | src/evidence_review/evidence/lineage_migration.py:179-240 | For a READY plan over a well-formed database, deletion and verification pass if and only if every revision of a legacy document is declared and no document is both legacy and canonical. |
| `LineageTheorems.LegacyIsRemoved` | src/evidence_review/evidence/lineage_migration.py:179-221 | A row of the graph is removed iff it belongs to a legacy document; all others survive. |
| `LineageTheorems.NoDanglingReference` | src/evidence_review/evidence/lineage_migration.py:179-240 | No surviving row refers to a removed row of the graph and no surviving row of the graph is keyed by one; the same of retrieval records that follow the documents whose rows they name. |
| `LineageTheorems.RecordsIntactIff` | src/evidence_review/evidence/lineage_migration.py:179-240 | Retrieval records carry no foreign keys: the surviving ones name nothing removed iff every record that names a row of a legacy document names a legacy document. |
| `LineageTheorems.ConsistentRecordsFollow` | src/evidence_review/evidence/lineage_graph.py:691-743 | Records that name a document, one of its revisions and one of its pages meet that condition. |
| `LineageTheorems.ForeignKeysKept` | src/evidence_review/evidence/lineage_migration.py:270-279 | The migrated copy satisfies its foreign keys. |
| `LineageTheorems.CountsAddUp` | src/evidence_review/evidence/lineage_migration.py:148-154 | Per table, rows before are rows after plus rows counted as removed. |
| `LineageTheorems.TwoRevisionsNeverMigrate` | src/evidence_review/evidence/lineage_migration.py:179-221 | A legacy document with two revisions of different sources never migrates, although its plan may be READY: a mapping names one source hash. |
| `LineageExample.SmallMigrationPasses` | src/evidence_review/evidence/lineage_migration.py:179-240 | A two-document database whose plan is READY and that migrates. |
| `LineageExample.ReadyButUndeclared` | src/evidence_review/evidence/lineage_migration.py:179-240 | The same database with a second legacy revision: the plan is READY and the deletion fails. |
| `LineageExample.ReadyButChained` | src/evidence_review/evidence/lineage_migration.py:224-240 | Three documents, one of them canonical for the first and legacy for the third: the plan is READY, the deletion passes and the verification fails. |
| `LineageExample.StrayRecordDangles` | src/evidence_review/evidence/lineage_migration.py:179-240 | A retrieval record of the canonical document that names the legacy revision survives the migration and refers to a removed row. |
| `LineagePublication.Directory.Link` | src/evidence_review/evidence/lineage_migration.py:365-381 | A hard link never replaces an existing path; an injected exception comes before or after its effect. |
| `LineagePublication.Directory.LinkAll` | src/evidence_review/evidence/lineage_migration.py:365-381 | Outputs are linked in order up to the first that exists or fails. |
| `LineagePublication.Directory.PublishAtomically` | src/evidence_review/evidence/lineage_migration.py:365-381 | With an exception possible at every link and unlink: success iff no output existed and no call raised; then all outputs hold the temporary contents and no temporary is left; after a failure none of the new outputs exists iff the failing link took no effect and every withdrawal went through. Pre-existing paths are never replaced or removed. |
| `LineagePublication.Directory.PublishOrDiscard` | src/evidence_review/evidence/lineage_migration.py:471-480 | The same with the clean-up of the temporaries around it. |
| `LineagePublication.PublishWithLeftover` | src/evidence_review/evidence/lineage_migration.py:365-381 | A directory without outputs and two faults, a first link that raises after its effect and a refused withdrawal: with either, publication fails and an output stays. |
| `LineageAliases.AliasEntries` | src/evidence_review/evidence/lineage_migration.py:282-303 | The loops build the alias list: one entry per declared pair of revisions, legacy identifiers first, sorted. |
| `LineageAliases.AliasesLeadOver` | src/evidence_review/evidence/lineage_migration.py:282-303 | Over the database a migrated run publishes, the legacy identifiers of every alias are gone and its canonical identifiers present. |
| `LineageApply.ApplyLegacyLineageMigration` | src/evidence_review/evidence/lineage_migration.py:384-489 | End to end: existing outputs, a blocked plan, a failed deletion, a failed publication and success, each exactly characterised; whenever the graph is equivalent the identifier map is that of its mappings; the reasons of a blocked plan are true; on success the published database is that of the surviving rows, the alias file lists each declared pair of revisions once, in order, legacy identifiers leading to canonical ones, and the report counts the rows before, after and removed; nothing that existed before, the source included, is changed. |
| `ClauseText.SplitParagraphs` | src/evidence_review/evidence/clause_materialization.py:77-87 | The loop over marker matches computes the paragraphs: the text cut at its markers, each slice without the space at its end. |
| `ClauseText.PartsPartition` | src/evidence_review/evidence/clause_materialization.py:77-87 | The slices joined are exactly the text from its first marker on; each slice holds one marker, at its start; there are none iff there is no marker. |
| `ClauseText.PartsAreTrimmedSlices` | src/evidence_review/evidence/clause_materialization.py:77-87 | Each paragraph is its slice without the space at the end and keeps the slice's marker and number. |
| `ClauseText.SplitOfJoined` | src/evidence_review/evidence/clause_materialization.py:77-87 | Cutting undoes joining: the cut is the only one. |
| `ClauseMaterializer.Materializer.ConsiderRow` | src/evidence_review/evidence/clause_materialization.py:107-338 | One turn of the element loop on six mutable variables and the builder list is one step of the state machine. |
| `ClauseMaterializer.Materializer.Derive` | src/evidence_review/evidence/clause_materialization.py:107-338 | The whole loop is the run of the state machine over the non-blank elements. |
| `ClauseMaterializer.KeptRows` | src/evidence_review/evidence/clause_materialization.py:162-168 | The elements considered are exactly those with a revision, an identifier and a text, in order. |
| `ClauseRuns.StepKeeps` | src/evidence_review/evidence/clause_materialization.py:107-338 | A step keeps the mode invariant, starts clauses from its row or extends the last one, and recognises text exactly from a structural marker on. |
| `ClauseRuns.ModesExclude` | src/evidence_review/evidence/clause_materialization.py:107-338 | Article mode and operation mode are never active together. |
| `ClauseRuns.EveryClauseIsARun` | src/evidence_review/evidence/clause_materialization.py:107-369 | Each clause is made of a contiguous run of elements of one revision, its sources being theirs, and clauses come in document order. |
| `ClauseRuns.Coverage` | src/evidence_review/evidence/clause_materialization.py:107-338 | A non-blank element is part of some clause iff a structural marker stands at or before it in its revision and it is not a bare article heading. |
| `ClauseRuns.RunsAreDisjoint` | src/evidence_review/evidence/clause_materialization.py:107-338 | Two clauses share an element only as paragraphs split from it. |
| `ClauseRuns.SourceIdsMean` | src/evidence_review/evidence/clause_materialization.py:333-338 | The sources of a clause are the identifiers of its elements, each once, in the order they first occur. |
| `ClauseKeys.ArticleOver` | src/evidence_review/evidence/clause_materialization.py:169-251 | The article an element stands in, from the elements alone: that of the nearest heading before it in its revision, ended by an appendix, another article or an operation mark without paragraphs. |
| `ClauseKeys.NumberOver` | src/evidence_review/evidence/clause_materialization.py:272-323 | The number an item stands under: the last number mark behind the root and behind the last alpha-dot item. |
| `ClauseKeys.RunIsTold` | src/evidence_review/evidence/clause_materialization.py:107-338 | At every element the loop's variables hold exactly what the elements before it say: article and heading, root, alpha mark, number mark. |
| `ClauseKeys.ClausesFromRows` | src/evidence_review/evidence/clause_materialization.py:107-338 | Every clause from the elements alone: it begins at the element, with the key, title, article and first text, that the nearest headings and items give, in order; it is made of the following elements up to the next that begins a clause, is a bare heading or belongs to another revision. |
| `ClauseLinks.DeriveLinks` | src/evidence_review/evidence/clause_materialization.py:371-456 | The links are exactly the source, sibling and citation links that should exist. |
| `ClauseLinks.DeriveLegalClauses` | src/evidence_review/evidence/clause_materialization.py:98-461 | The clauses are exactly those that begin at the kept elements, in order, each with the key, title, article, joined text and sources the elements give; the links are the expected ones. |
| `ClauseLinks.JoinedIsSpaced` | src/evidence_review/evidence/clause_materialization.py:341-347 | The texts of a clause are joined by single spaces. |
| `ClauseLinks.PreviousIsInverse` | src/evidence_review/evidence/clause_materialization.py:383-408 | previous_sibling is exactly the inverse of next_sibling. |
| `ClauseLinks.SiblingsFormAPath` | src/evidence_review/evidence/clause_materialization.py:383-408 | Over positions: within a revision and article, following next_sibling from a clause reaches every later one. |
| `ClauseIdentifiers.DerivedAreIdentified` | src/evidence_review/evidence/clause_materialization.py:107-369 | Clauses of one identifier belong to one article, or to none. |
| `ClauseIdentifiers.NextLinkIsDerived` | src/evidence_review/evidence/clause_materialization.py:391-399 | The links between identifiers are exactly the derived next_sibling links. |
| `ClauseIdentifiers.AcyclicIff` | src/evidence_review/evidence/clause_materialization.py:391-408 | Over identifiers, next_sibling has no cycle iff no two clauses of one article share structural key and text. |
| `ClauseIdentifiers.OneNextOnePrevious` | src/evidence_review/evidence/clause_materialization.py:391-408 | Under that condition an identifier has at most one next and at most one previous sibling. |
| `ClauseIdentifiers.RepeatedArticle` | src/evidence_review/evidence/clause_materialization.py:341-399 | Two elements repeating one article yield two clauses of one identifier, linked as next sibling of itself. |
| `ClauseLinks.EndpointsEmitted` | src/evidence_review/evidence/clause_materialization.py:371-456 | Every endpoint is an emitted clause or a source element of one. |
| `ClauseLinks.CitationsJoinDifferentNodes` | src/evidence_review/evidence/clause_materialization.py:410-456 | No citation joins an identifier to itself, and none leaves its article. |
| `IssueGraph.Search.Visit` | src/evidence_review/contracts/question_plan.py:367-382 | Depth-first search with termination over the issues not being visited: success finishes the issue in dependency order, failure exhibits a cycle. |
| `IssueGraph.RankedIsAcyclic` | src/evidence_review/contracts/question_plan.py:367-382 | A complete finishing order leaves no room for a cycle. |
| `IssueGraph.ValidateIssueGraph` | src/evidence_review/contracts/question_plan.py:357-382 | Accepts exactly the plans with no self-dependency, no unknown dependency and no cycle, for any finite graph; a refusal names a real offender. |
| `QuestionPlanMeaning.DecodeQuestionPlan` | src/evidence_review/contracts/question_plan.py:457-617 | Accepts exactly the documents that fit the question field by field: format, version, all question bindings, the fields each version knows, literals, bounds, unique identifiers and requests, known and acyclic dependencies, required roles, anchors, citations and numbers. The plan then says what the document says, normalized; version 1 lands on version 2 with role RULE throughout. |
| `QuestionPlanMeaning.GraphCheck` | src/evidence_review/contracts/question_plan.py:357-382 | The dependency checks accept exactly when every dependency names an issue and no chain of issues comes back to its start. |
| `QuestionPlanLaws.DecodedIsNormal` | src/evidence_review/contracts/question_plan.py:168-343 | Every decoded plan is in normal form; version 1 lands on version 2. |
| `QuestionPlanLaws.ShapeOfDocument` | src/evidence_review/contracts/question_plan.py:620-675 | The document of a plan in normal form spells out that plan. |
| `QuestionPlanLaws.DocumentRoundTrip` | src/evidence_review/contracts/question_plan.py:457-675 | Decoding the document of any decoded plan gives that same plan, against the original question and against its normalized form. |
| `UserExpansions.PlanWithUserExpansions` | src/evidence_review/user_expansions.py:26-68 | Refused exactly when a text is empty, an identifier is taken or the plan would exceed its bound; otherwise exactly one request is put in front for each text that nothing covered before. |
| `UserExpansions.AdditionsAreUnique` | src/evidence_review/user_expansions.py:38-63 | Identifiers and (text, kind) pairs stay unique through the additions. |
| `UserExpansions.Primary` | src/evidence_review/user_expansions.py:35-38 | The primary request is the first one for a rule, or the first one when there is none. |
| `UserExpansions.AdditionsInOrder` | src/evidence_review/user_expansions.py:38-63 | The additions are, in order, one for each text that no request has under the primary kind and no earlier text repeats, with the identifier of its position and text and all else from the primary request. |
| `UserExpansions.EffectiveMeans` | src/evidence_review/user_expansions.py:26-68 | The effective plan is coherent, covers every text for the primary request, and its document decodes to it unchanged. |
| `PageTiles.TileCache.Generate` | src/evidence_review/drawing_review/visual_pages.py:408-447 | The nested loops write the grid of records and exactly their files, each created once. |
| `PageTiles.LoadTiles` | src/evidence_review/drawing_review/visual_pages.py:316-371 | Accepts a manifest iff it is not empty and every record names a stored file of its digest and a non-empty rectangle inside the page; the tiles are the records' own, field by field, sorted by position. |
| `PageTiles.TilesInBounds` | src/evidence_review/drawing_review/visual_pages.py:408-437 | Every tile lies inside the page, is named for its place in the grid, and carries the digest of just the pixels it covers. |
| `PageTiles.TilesAreOrdered` | src/evidence_review/drawing_review/visual_pages.py:408-437 | Tiles are generated strictly by row, then by column. |
| `PageTiles.TilesPartitionThePage` | src/evidence_review/drawing_review/visual_pages.py:408-437 | For any page size every pixel lies in exactly one tile. |
| `PageTiles.TilesCoverTheArea` | src/evidence_review/drawing_review/visual_pages.py:408-437 | The areas of the tiles add up to width times height. |
| `PageTiles.SortRearranges` | src/evidence_review/drawing_review/visual_pages.py:366-371 | Sorting loses and adds nothing. |
| `PageTiles.GenerateAndLoad` | src/evidence_review/drawing_review/visual_pages.py:316-447 | The loader accepts what the generator wrote and returns it in the order of generation. |
| `ConfidenceScore.ScoreConfidence` | src/evidence_review/confidence/scorer.py:52-116 | A result iff exactly the policy's factors are supplied and each is valid; score, level and contributions are those of the exact weighted sum, rounded half up. |
| `ConfidenceScore.ScoreInRange` | src/evidence_review/confidence/scorer.py:52-116 | The score lies between 0.0000 and 1.0000. |
| `ConfidenceScore.ScoreIsMonotone` | src/evidence_review/confidence/scorer.py:52-116 | Improving a factor lowers neither the score nor, with sources and failures fixed, the level. |
| `ConfidenceScore.ContributionsAddUp` | src/evidence_review/confidence/scorer.py:70-95 | The displayed contributions add up to the displayed score within 0.0005. |
| `ConfidenceScore.InitialConfidenceFactors` | src/evidence_review/confidence/initialization.py:18-75 | The initial value, source and state of each of the ten factors, one by one. |
| `ConfidencePath.RatioShowsOne` | src/evidence_review/confidence/coverage.py:20-28 | A ratio is shown as 1.0000 iff at most a twenty-thousandth is missing. |
| `ConfidencePath.RatioMatchesState` | src/evidence_review/confidence/coverage.py:20-28 | Below twenty thousand it is shown as 1.0000 iff its state is VERIFIED. |
| `ConfidencePath.RatioMismatch` | src/evidence_review/confidence/coverage.py:20-28 | 19999 of 20000 is shown as 1.0000 in state FAILED. |
| `ConfidencePath.ApplyIssueCoverageFactors` | src/evidence_review/confidence/coverage.py:35-149 | Fails iff there are no issues, no roles or a measured factor is missing; otherwise binds each measured factor to its share of issues, rounded half up, with its source and state, keeps freshness only if it was verified, and leaves the rest. |
| `ConfidencePath.RatioRounds` | src/evidence_review/confidence/coverage.py:20-24 | A ratio is rounded half up to ten-thousandths. |
| `ConfidencePath.RolesAddUp` | src/evidence_review/confidence/coverage.py:75-89 | Covered and missing roles are added up issue by issue. |
| `ConfidencePath.CompletenessMeans` | src/evidence_review/confidence/coverage.py:60-149 | Measured completeness is perfect iff every issue is determinate with no required role missing. |
| `ConfidencePath.FinalizerConfidenceFactors` | src/evidence_review/abstention/finalizer.py:192-236 | Rebinds value, source and state of calculation validity and Track B agreement, and nothing else. |
| `ConfidencePath.UnreviewedBound` | src/evidence_review/confidence/policy.py:8-21 | Without human review and verified freshness the exact sum is at most 0.87. |
| `ConfidencePath.PathScore` | src/evidence_review/abstention/finalizer.py:192-236 | Through initialization, coverage and finalizer the score is the quantized exact sum of the run's factors, nothing is scored if coverage cannot be applied, the score never exceeds 0.8700, and the level is never HIGH. |
| `FinalDecision.ReconcileIssueResults` | src/evidence_review/abstention/issue_policy.py:29-88 | Fails iff an audit names an unknown claim; otherwise reconciles each issue. |
| `FinalDecision.ReconciledMeans` | src/evidence_review/abstention/issue_policy.py:29-88 | The status of a reconciled issue in each case: uncovered issues keep theirs; of the covered, exactly the conditions of RESOLVED, CONDITIONAL, SOURCE_MISSING and UNRESOLVED; reconciling twice changes nothing. |
| `FinalDecision.EvaluateAbstentionGates` | src/evidence_review/abstention/gates.py:50-55 | A reason is listed iff its condition is observed. |
| `FinalDecision.NoReason` | src/evidence_review/abstention/gates.py:50-55 | No reason iff every gate is open and the score is at least 0.70. |
| `FinalDecision.ReadyMeans` | src/evidence_review/abstention/finalizer.py:437-486 | No partial resolution and no gate reason iff the packet is ready in the sense below. |
| `FinalDecision.PartialMeans` | src/evidence_review/abstention/finalizer.py:437-486 | Partial resolution and no reason but LOW_CONFIDENCE iff determinate and indeterminate issues coexist and every other gate is open. |
| `FinalDecision.Decide` | src/evidence_review/abstention/finalizer.py:437-486 | For a given score: READY_FOR_HUMAN_REVIEW iff every planned issue is determinate, every rule approved, every calculation successful, no conflict, the semantic gate passed and the score at least 0.70; PARTIALLY_RESOLVED iff determinate and indeterminate issues coexist and no other gate is closed; ABSTAIN iff some reason is listed. A reason is listed iff the evidence gives it, LOW_CONFIDENCE only without a partial resolution, and the reasons come in policy order. |
| `FinalPacket.DerivePacket` | src/evidence_review/abstention/finalizer.py:389-503 | The decision over the score that the run's own factors give: READY iff the gates and issues allow it and the quantized sum of the run reaches 0.70; exactly the reasons the evidence gives, in policy order; a packet never has level HIGH, a READY packet has level MEDIUM, an abstaining one LOW. Without measured coverage the score is the exact sum 0.50 for available evidence, 0.27, 0.05 for calculations and 0.05 for Track B. |
| `FinalPacket.PlannedScore` | src/evidence_review/confidence/coverage.py:35-149 | The exact sum of a planned run, in millionths, from its five coverage ratios, its calculations, the Track B gate and the absence of conflict. |
| `FinalPacket.ReadyOfPlannedRun` | src/evidence_review/abstention/finalizer.py:437-486 | A planned run is READY iff its gates are open, its issues determinate and that sum is at least 0.69995. |
| `FinalPacket.FlawlessRun` | src/evidence_review/abstention/finalizer.py:437-486 | With gap-free coverage a run is READY iff its gates are open and its issues determinate; its score is then 0.8700, or 0.8200 without calculations. |
| `FinalPacket.UnplannedScore` | src/evidence_review/confidence/initialization.py:18-75 | The exact score of a run without measured coverage, from the evidence, the calculations and the Track B gate. |
| `FinalPacket.ReadyOfUnplannedRun` | src/evidence_review/abstention/finalizer.py:437-486 | Such a run is READY iff its gates are open, its issues determinate and the evidence available; its score is then 0.8700, or 0.8200 without calculations. |
| `PathResolution.ResolveRepositoryPath` | src/evidence_review/documentation_integrity/links.py:85-108 | The stack loop computes the walk. |
| `PathResolution.SafeScriptPath` | src/evidence_review/documentation_integrity/commands.py:340-354 | The script walk, refusing backslashes, absolute targets and an empty result. |
| `PathResolution.ResolutionMeans` | src/evidence_review/documentation_integrity/links.py:85-108 | Escape iff some prefix of the walk climbs above the root or the walk ends at the root; otherwise the result is what cancelling every ".." against the nearest name before it leaves, with no empty, "." or ".." component. |
| `PathResolution.RefusalsMean` | src/evidence_review/documentation_integrity/links.py:85-108 | Which targets are refused before any walk: those with a backslash, then absolute ones of either kind of system; the empty target is the document. |
| `PathResolution.SplitMeans` | src/evidence_review/documentation_integrity/links.py:85-108 | Joining the components by slashes gives the text back, and none holds a slash. |
| `PathResolution.WalkOfMeaningful` | src/evidence_review/documentation_integrity/commands.py:340-354 | Dropping empty and "." components does not change the walk. |
| `PathResolution.ResolversAgree` | src/evidence_review/documentation_integrity/commands.py:340-354 | For a root-level document both resolvers agree on every non-empty target without percent escapes. |
| `TrustedFiles.VerifiedRegularDirectory` | src/evidence_review/filesystem_trust.py:47-72 | The component walk stops at the first component that is not a directory in its own right, whatever links the tree holds. |
| `TrustedFiles.VerifiedRegularFileBelow` | src/evidence_review/filesystem_trust.py:113-151 | The walk below a root computes the first misfit. |
| `TrustedFiles.FileBelowMeans` | src/evidence_review/filesystem_trust.py:113-151 | Succeeds iff the root and every component are plain directories and the last a plain file, and then returns exactly root/parts; the "escaped trusted root" error is unreachable. |
| `TrustedFiles.FileRefusals` | src/evidence_review/filesystem_trust.py:113-151 | Which refusal a file gets: not found, link or bad component, by the kind of what stands at the first place that is not what it must be. |
| `TrustedFiles.VerifiedCreateTargetBelow` | src/evidence_review/filesystem_trust.py:154-188 | The create-target walk. |
| `TrustedFiles.CreateTargetMeans` | src/evidence_review/filesystem_trust.py:154-188 | Succeeds iff only directories are met before a missing component, and then the target does not exist. |
| `TrustedFiles.CreateRefusals` | src/evidence_review/filesystem_trust.py:154-188 | Which refusal an existing target gets: as a link on the way, or as the target itself. |
| `TrustedFiles.FileSystem.CreateVerifiedDirectory` | src/evidence_review/contracts/run_context.py:45-65 | Climbs to the nearest verified directory and creates the missing suffix; succeeds iff nothing but absence stood in the way; on failure the tree is unchanged. |
| `TrustedFiles.OnlyMissingAdded` | src/evidence_review/contracts/run_context.py:45-65 | Exactly the missing prefixes are added, and nothing else changes. |
| `MarkdownCode.CheckEscaped` | src/evidence_review/documentation_integrity/markdown.py:91-97 | The backward loop counts the backslashes: escaped iff their number is odd. |
| `MarkdownCode.MaskInlineCode` | src/evidence_review/documentation_integrity/markdown.py:100-118 | The scan with in-place blanking computes the masked line. |
| `MarkdownCode.MaskingChangesOnlySpans` | src/evidence_review/documentation_integrity/markdown.py:100-118 | Length is kept and only characters of closed code spans change, to blanks. |
| `MarkdownCode.SpanMeans` | src/evidence_review/documentation_integrity/markdown.py:100-118 | A code span is an unescaped run of backticks of any length up to the next place where as many stand; the scan takes exactly those for code. |
| `MarkdownCode.ReachedIff` | src/evidence_review/documentation_integrity/markdown.py:100-118 | The scan stands exactly at the places that no earlier stop passes over. |
| `MarkdownCode.MaskingMeans` | src/evidence_review/documentation_integrity/markdown.py:100-118 | A character is blanked iff it lies in a code span that the scan comes to; all others are kept. |
| `MarkdownCode.MaskingTwice` | src/evidence_review/documentation_integrity/markdown.py:100-118 | Masking is idempotent. |
| `MarkdownLinks.FindClosingBracket` | src/evidence_review/documentation_integrity/markdown.py:157-163 | The first unescaped closing bracket, or none. |
| `MarkdownLinks.FindClosingParenthesis` | src/evidence_review/documentation_integrity/markdown.py:166-181 | The least index at which the unescaped depth reaches zero, or none. |
| `MarkdownLinks.FindDestination` | src/evidence_review/documentation_integrity/markdown.py:210-227 | The destination behind a label and where it ends; none iff no destination resolves there. |
| `MarkdownLinks.ExtractLineLinks` | src/evidence_review/documentation_integrity/markdown.py:184-242 | Links and spans in strictly increasing, disjoint, in-bounds order, each being the link that starts there; and every position of the line lies in a link, in the label of a bracket pair that points nowhere, or starts no link. |
| `MarkdownLinks.LinkIsUnique` | src/evidence_review/documentation_integrity/markdown.py:184-242 | What starts at a position is determined: one end, one link. |
| `MarkdownFences.OpensMeans` | src/evidence_review/documentation_integrity/markdown.py:12-12 | A line opens a fence iff three equal fence characters follow at most three spaces. |
| `MarkdownFences.OpenersAgree` | src/evidence_review/documentation_integrity/markdown.py:12-12 | The opening pattern and section 4.5 of CommonMark agree on a line iff it is not a backtick fence with a backtick in its info string. |
| `MarkdownFences.TickedLineOpens` | src/evidence_review/documentation_integrity/markdown.py:12-12 | A line that opens a fence for the code and none by the standard. |
| `MarkdownFences.RegionsAreFenced` | src/evidence_review/documentation_integrity/markdown.py:263-291 | Fenced regions are disjoint and in order, each runs to its first closing fence or the end, and no line outside them opens one. |
| `MarkdownFences.ClosersAgree` | src/evidence_review/documentation_integrity/markdown.py:257-292 | A line closes a fence for the code iff it is a closing fence of section 4.5 of CommonMark for that opening fence. |
| `MarkdownFences.RegionsAgree` | src/evidence_review/documentation_integrity/markdown.py:257-292 | With the opening and closing fences of the standard on one side and the patterns of the code on the other, both find the same regions iff every backtick fence with a backtick in its info string lies inside a region of the standard. |
| `MarkdownFences.TickedDocument` | src/evidence_review/documentation_integrity/markdown.py:257-292 | A one-line document of which the code makes a region and the standard none. |
| `MarkdownFences.CommandsAreInsides` | src/evidence_review/documentation_integrity/markdown.py:283-290 | Each command block is the inside of a region in a command language, and each such region gives its block. |
| `MarkdownFences.CommandsInOrder` | src/evidence_review/documentation_integrity/markdown.py:283-290 | The blocks are, in order, those of the regions in a command language: language, lines between the fences, and number of the first of them. |
| `MarkdownFences.FenceRangesAndCommands` | src/evidence_review/documentation_integrity/markdown.py:257-292 | The blocked lines are exactly those inside the regions, the blocks exactly their command blocks, in order. |
| `MarkdownHeadings.AssignHeadingAnchors` | src/evidence_review/documentation_integrity/markdown.py:79-88 | The loop with its counters gives each heading its base, with a suffix that is the number of earlier headings of that base. |
| `MarkdownHeadings.AnchorsMean` | src/evidence_review/documentation_integrity/markdown.py:79-88 | An anchor is the base alone, or with a dash and the number of the earlier headings of that base. |
| `MarkdownHeadings.DecimalMeans` | src/evidence_review/documentation_integrity/markdown.py:79-88 | The suffix is the number in decimal digits without a leading zero. |
| `MarkdownHeadings.UniqueWithinBase` | src/evidence_review/documentation_integrity/markdown.py:79-88 | Headings with one base get different anchors. |
| `MarkdownHeadings.AnchorsAreStable` | src/evidence_review/documentation_integrity/markdown.py:79-88 | Headings that are added at the end change no earlier anchor. |
| `MarkdownHeadings.DistinctIff` | src/evidence_review/documentation_integrity/markdown.py:79-88 | All anchors of a document differ iff no base is another base followed by a dash and a number n, where that other base occurs more than n times. |
| `MarkdownHeadings.SharedAnchor` | src/evidence_review/documentation_integrity/markdown.py:79-88 | Three headings of which two get one anchor. |

## Left out

The run protocol

- The contents of metric events, and the snapshot `run-metrics.json`, which is replaced atomically: an event counts as its stage, complete or torn.
- `retrieval-guidance.json`, instructions and status files of a preparation: a torn guidance file refuses preparing again, as a torn `evidence-query.json` does, but then `next-action-track-a.json` is missing as well.
- `prepare_review_question_from_request`, which writes the Track A action and the journal before its metric event and removes a half-made directory when it fails, and workflow states outside the formal question flow.
- Errors of the file system: a call ends because it is done, because the code refuses, or because the process dies.
- Concurrent processes on one run directory, the journal lock, and timestamps.
- A submitted path that is another artifact of the same run: a submission is an external file or the run-local artifact itself.
- HTML rendering: a page is a function of its packet, and writing it does not fail. Evidence-database checks are one observation of the environment.

Lineage

- `evidence_fts`, SQLite's own integrity check, file hashes, the remaining fields of the reports, and the reviewer, date and reason of an alias.
- The derived clause tables of schema version 4. Records of `clause_retrieval_records` refer to a document and a revision, and the deletion clears them by clause only, so a record of another clause that names a legacy revision stops a deletion that this model lets pass.
- Page origin and rotation, and faults while the temporary files are written: only links and unlinks may raise.
- LineageTheorems.MigrationPasses: is stated for well-formed databases; the schema and the integrity check give keys, unique page numbers and foreign keys, but not that identifiers differ between tables, which is assumed.
- The `detail` texts of unresolved items; reasons carry their code and the two identifiers.

Clauses, plans, tiles

- Regular expressions over Korean text: an element carries which structural shapes its text matches; the numbers a text cites are a parameter.
- The normalization of element texts before the loop: they arrive normalized, so that normalizing a slice only drops the space at its end.
- The sorting of elements before the loop, and the order of the derived links in their list.
- JSON type errors and unknown fields of question plans: a document's fields have the right types, and a field that its version does not know is refused.
- The patterns of numeric literals and legal citations: their results are parameters.
- The threshold above which a page is tiled, the manifest header, image decoding and encoding.

Score and decision

- The counts at the end of a measured factor's source text.
- The 28-digit precision of the decimal context: the model computes with exact reals, as the context does while factor values have no more than about 25 digits.
- Gate fields that the finalizer never raises appear in the gate table with a constant condition; packet fields that do not influence the status.

Paths and Markdown

- Relative and dotted link targets, permission errors, and ".." components in the path handed to directory creation.
- A tree that changes during a walk.
- The first word of an info string, in lower case, is a parameter of the fence scan; reference definitions, raw URLs and the trimming of targets: they are parameters of link extraction or separate scans. So is the Unicode normalization of a heading's text.
