# Verified model of the ECRKE pipeline

ECRKE answers a research question by running ten checkpointed stages over a relational
database: it searches, collects sources, stores their text as passages, extracts draft
statements, verifies them, groups them into findings, looks for contradictions, writes
conclusions and exports a trace.  This project models the stateful core of that pipeline in
Dafny 4.11 and proves what it keeps over whole histories, including failed, killed, resumed
and interleaved ones.  `dafny verify dfyconfig.toml` checks everything.

How the system is represented:

* A database session is a buffered transaction.  `commit` is one assignment to the `db` field
  of a class; an exception or a dead process leaves what was committed before.  LLM judges,
  fetches, connectors, clocks and database faults are arbitrary inputs of each operation.
* Each service or stage that updates state is a class or method with the loops of the original,
  proved equal to a specification function; the properties are lemmas about those functions.
* Regex redaction, normalization, tokenization, URL parsing and SHA-256 are function parameters
  or already applied; where the hash must be injective (or its digests free of `:`) the lemma says so.
* Money is counted in units of 0.0001 USD, progress in tenths, limiter time in nanoseconds,
  overlap ratios as fractions.

Files:

| file | what it models |
|---|---|
| `Prelude.dfy` | options, order-preserving de-duplication, counting |
| `Chunker.dfy`, `ChunkMinimum.dfy` | paragraph spans, the greedy passage chunker, and when its chunks reach the minimum |
| `Search.dfy`, `Ingest.dfy`, `IngestProofs.dfy`, `IngestStages.dfy` | the URL list, collect and store, with restarts after any durable write |
| `Served.dfy` | where each source row and its passages come from, over every history |
| `CollectReturns.dfy`, `StoreReturns.dfy` | when a collect or a store attempt returns, and with what |
| `StoreRace.dfy`, `StoreOverlap.dfy`, `StoreLoss.dfy` | any number of store attempts at once: the steps, and exactly which tables they keep in order |
| `Executor.dfy`, `ExecutorProofs.dfy`, `Interleaving.dfy`, `StageRecords.dfy` | the stage executor: one attempt, sequential histories, any number of concurrent executors, and what checkpoints, mirror and spend record |
| `Knowledge.dfy`, `Gate.dfy`, `VerifyStage.dfy`, `StuckRun.dfy` | the knowledge tables, extraction, the verification gate and its stage |
| `Overlap.dfy`, `Detector.dfy` | token overlap, candidate pairs, contradiction detection |
| `Findings.dfy`, `Report.dfy`, `Provenance.dfy`, `Demotion.dfy` | findings, conclusions, and the whole knowledge base over every history |
| `KvCache.dfy`, `RateLimiter.dfy`, `CostMeter.dfy`, `Gateway.dfy` | the cache, call pacing, metering, and the completion loop over them |

## Where the code and its documentation differ

The model follows the code.  Each of these is a proved statement.

* `chunk_passages` says its chunks lie within `[min_chars, max_chars]`.  The upper bound holds; the
  lower one does not, also for chunks that are not the last (`ChunksMayStayShort`).  `ReachesMinimumIff` is the exact
  condition on the text: no paragraph overflows what waits before it, and each window of an oversized one has a space
  at least the minimum on, or none at all.
* The breaker compares the spend of the whole run, not of the stage, with a tenth of the budget, so
  the total-budget check never decides (`BreachedIsTenth`) and a run pauses after at most one stage past a tenth of its budget.
* An attempt can answer `completed` for a run marked `failed`: a fault right after the last checkpoint
  leaves ten checkpoints and that status for good (`FinishedRunStaysFailed`, exact condition in `CompletedMeansCompleted`).
* Checkpoint redaction may merge two URLs, and then one URI can get two source rows
  (`TokenLinksMerge`); `OneRowIffRedactionKeepsApart` is the exact condition.
* Collect does not always get to its end, however often it is resumed: unsafe pages are keyed by their bytes
  alone, so two URIs that keep serving the same unsafe bytes stop every attempt (`TwinsNeverCollected`).  `ReturnsIff` says
  exactly when an attempt returns; a refused URI listed twice is another case where it does not (`DeniedTwiceStops`).
* Overlapping store attempts can lose passages.  An attempt reads the fetched sources and then the digests of their
  passages; the session sets no isolation level, so another attempt may commit in between, and then chunks are skipped that
  no one stores.  `SchedulesKeepIff` is the exact condition on the tables, for any number of attempts: every schedule keeps
  the passages exactly when no two of the fetched sources that an attempt gets to have a chunk digest in common.  If two do,
  `SharedIsGone` gives the schedule and shows that, if the racing attempts end there, no later one repairs it.  Such tables are reachable
  (`CollectGivesTwo`, `SameTextsShare`; `RaceLosesPassages` spells out one schedule on them).  If both reads saw one state,
  no condition would be needed (`IsolatedSchedulesKeep`).
* A draft statement without words among the first 25 blocks the verify stage for good (`StuckForever`); without one the
  stage can return (`StageCanReturnIff`).  Words are runs of `[a-z0-9]`, so a statement in another script has none, and a
  run gets into this state (`StuckIsReachable`).
* `detect` says no row is written on failure.  Rows of pairs confirmed before the failure stay: `RaisesIff` says when a call
  fails, `FailureLeavesRowsIff` when that leaves a row, `RowsSurviveFailure` which ones, and `AbortedCallLeavesARow` is a call that does.
* One draft that cites a statement twice loses the whole report (`CommitsIff`, `RepeatedCitationRaises`).
* A forced re-verification can demote a statement that conclusions already cite (`DemotionIsReachable`); `OnlyForceDemotes` is the
  exact condition on its arguments, and nothing else can.
* The limiter says it keeps four seconds between calls; it does so after answers, but not after
  calls that failed for good (`NextCallPacedIff`, `RefusedCallsAreNotPaced`).
* Costs between -0.00005 USD and zero are accepted as zero rather than rejected (`RefusedIff`), an estimate
  under 25 tokens is metered as nothing (`EstimatesFreeBelow25`), and answers that fail validation are never metered
  (`OnlyTheAcceptedAnswerIsMetered`).

## Model

The rows of each component come in the order of the pipeline.  At the end of the table stand facts about a single step, which
only spell out one definition for the results above them.

| member | source | states |
|---|---|---|
| Chunker.ChunksTile | app/services/normalizer.py:182-212 | for every text and positive maximum the chunks are non-empty exact substrings, run on from 0 to the end, none over the maximum, and read back as the text |
| Chunker.ChunksWellCut | app/services/normalizer.py:168-212 | a chunk ends with a paragraph or, inside an oversized paragraph, at the last space of its window (inside a word only if the window has none); a short chunk that is not last would have overflowed with the next paragraph or comes from an oversized one |
| ChunkMinimum.ReachesMinimumIff | app/services/normalizer.py:187-212 | for every text, every chunk but the last reaches the minimum exactly when no paragraph overflows the length that waits before it (the guard of line 203, by a count over paragraph lengths) and each window of an oversized paragraph has a space at least the minimum on or no space at all, with a rest that reaches the minimum unless it ends the text |
| ChunkMinimum.ReachesMinimumByLengths | app/services/normalizer.py:195-209 | with no oversized paragraph that condition is on paragraph lengths alone: none overflows what waits before it |
| Chunker.ChunksReachMinimum | app/services/normalizer.py:193-212 | a bound on paragraphs that is enough for that condition: with none longer than max - min + 1, every chunk but the last reaches the minimum |
| Chunker.ChunksMayStayShort | app/services/normalizer.py:187-212 | a concrete text whose first of two chunks is below the documented minimum |
| Chunker.SpansAreParagraphs | app/services/normalizer.py:142-155 | each span ends at a separator or the end of the text and holds no earlier separator |
| Chunker.HardSplitCuts | app/services/normalizer.py:168-179 | every piece of an oversized paragraph stays inside it and, unless it is the last, is cut at the last space of its window or fills a window without spaces |
| Chunker.ParagraphSpans | app/services/normalizer.py:142-155 | the scan over separators computes the spans |
| Chunker.HardSplitLoop | app/services/normalizer.py:168-179 | the splitting loop terminates and computes the pieces |
| Chunker.ChunkPassages | app/services/normalizer.py:182-212 | the packing loop computes the chunks the lemmas are about |
| Search.RunSearch | app/pipeline/stages/search.py:12-36 | no plan or a raising connector raises; otherwise the first occurrences of all hits in order, replies being arbitrary per query position |
| Search.AllHitsAre | app/pipeline/stages/search.py:28-36 | the search raises exactly if a connector call does; otherwise the hits of each query stand together in its own order, right after those of the queries before it, and there are no others |
| Prelude.DedupeKeepsFirst | app/pipeline/stages/search.py:29-36 | the URL list has exactly the hits, each once, in the order of first occurrence |
| Search.SavedUrlsDistinct | app/pipeline/checkpoint.py:53-67 | the saved list has no repetition exactly when redaction keeps the found URLs apart |
| IngestStages.Tables.RecordSource | app/pipeline/stages/collect.py:42-81 | one source row and its audit row together, or neither when the digest is taken or the process does not reach the commit |
| IngestStages.Tables.CollectUri | app/pipeline/stages/collect.py:103-180 | one turn of the loop: outcome, blob, row, audit row and count |
| IngestStages.Tables.RunCollect | app/pipeline/stages/collect.py:85-185 | the stage from any database, dying after any number of durable writes, is the collect specification |
| IngestStages.Tables.RunStore | app/pipeline/stages/store.py:25-78 | the stage, dying anywhere, is the store specification |
| IngestStages.BuildRows | app/pipeline/stages/store.py:57-71 | one passage per chunk whose digest was not stored, under its sequence number |
| IngestProofs.CollectRunKeeps | app/pipeline/stages/collect.py:85-185 | each row keeps one matching audit row, raw_ref exactly on rows with text and leading to the bytes fetched for that row even when shared; when the stage returns every URL has a row |
| IngestProofs.CollectCounts | app/pipeline/stages/collect.py:99-185 | the reported counts are the numbers of rows added in each status |
| IngestProofs.StoreRunKeeps | app/pipeline/stages/store.py:25-78 | both table invariants are kept, only statuses of fetched rows change, and when the stage returns no fetched source is left |
| IngestProofs.StoredIsAssembled | app/pipeline/stages/store.py:43-71 | a committed source is fully assembled exactly when none of its chunks has a digest in the snapshot |
| IngestProofs.HistoryKeeps | app/pipeline/stages/store.py:50-77 | over every sequence of collect and store attempts the source and passage invariants hold, with one row per URI if the URL list has no repetition |
| Served.RowsAreServed | app/pipeline/stages/collect.py:99-185 | an attempt, wherever it ends, added exactly the rows its visits were served: one per list position without a row before, in list order and without a gap, each with the URI, the allowlist flag, the kind, the digest, the status, the audit action and the bytes of that visit; all of them if it returned |
| Served.HistoryServes | app/pipeline/stages/collect.py:99-185 | in every reachable state each source row is what some collect attempt was served at some position of the list |
| Served.PassagesReadBack | app/pipeline/stages/store.py:50-77 | in every reachable state a source that is not normalized has no passages and a normalized one has passages 0..n-1, of at most 1200 characters and with the digests of their texts, that tile and concatenate to what the page served for it normalizes to under the kind served for it |
| StoreReturns.ReturnsIff | app/pipeline/stages/store.py:50-78 | a store attempt that runs alone returns exactly if the text of every fetched source can be made and it lives for one write per such source; it reports the number of passages it added |
| StoreLoss.SchedulesKeepIff | app/pipeline/stages/store.py:30-76 | from any tables in order, every interleaving of any number of store attempts, each able to die anywhere and to see another's commit between its two reads, keeps the passages exactly when no two of the fetched sources an attempt gets to share a chunk digest |
| StoreOverlap.SchedulesFit | app/pipeline/stages/store.py:30-76 | in that case each state of each schedule keeps both invariants, changes sources only from fetched to normalized, and every digest an attempt holds belongs to a source stored by then |
| StoreLoss.SharedIsGone | app/pipeline/stages/store.py:43-76 | for any two such sources that share one chunk digest some schedule leaves the later one normalized without all its passages, and if the racing attempts end there, any number of later attempts, dying anywhere, leave it so |
| StoreLoss.SameTextsShare | app/pipeline/stages/store.py:57-63 | two fetched pages that normalize to one non-empty text share a chunk, so the condition fails on the state of CollectGivesTwo |
| StoreRace.IsolatedSchedulesKeep | app/pipeline/stages/store.py:30-76 | for reads of one state, which the session does not ask for, no condition is needed: every interleaving of any number of store attempts keeps the source and passage invariants |
| StoreRace.RaceLosesPassages | app/pipeline/stages/store.py:30-76 | one instance, for two sources with the same text: a schedule with a commit between the two reads leaves the second source normalized without its passages, and no later attempt repairs it |
| StoreRace.CollectGivesTwo | app/pipeline/stages/collect.py:140-180 | one collect attempt on an empty run gives such sources, whenever two pages differ and normalize to one text |
| IngestProofs.OneRowIffDistinctUrls | app/pipeline/stages/collect.py:94-105 | each URI has at most one row over all histories exactly when the URL list has no repetition |
| IngestProofs.OneRowIffRedactionKeepsApart | app/pipeline/stages/search.py:28-36 | the same from search on: exactly when redaction does not merge two found URLs |
| IngestProofs.TokenLinksMerge | app/pipeline/checkpoint.py:53-65 | two links that differ only in a redacted token lead to a history with two rows for one URI |
| CollectReturns.ReturnsIff | app/pipeline/stages/collect.py:90-185 | an attempt returns exactly when the checkpoint has URLs, no visit raises anything but a fetch error, the keys of the rows it must insert are free and all different, and it lives for the writes it needs |
| CollectReturns.UninterruptedReturnsIff | app/pipeline/stages/collect.py:90-185 | an attempt that lives for two durable writes per URL returns exactly when there are URLs, no visit raises anything but a fetch error, and the keys are free and all different |
| CollectReturns.TwinsNeverCollected | app/pipeline/stages/collect.py:143-159 | two URIs of one list that keep serving the same unsafe bytes: from an empty run no collect attempt of any history of attempts returns |
| CollectReturns.FirstTwinTakesTheKey | app/pipeline/stages/collect.py:146-159 | from an empty run the first of two twins takes the key and the second gets no row |
| CollectReturns.UnsafeTwinStops | app/pipeline/stages/collect.py:146-159 | once an unsafe page's bytes have a row, another URI serving them stops every attempt |
| CollectReturns.DeniedTwiceStops | app/pipeline/stages/collect.py:107-123 | a refused URI that the checkpoint lists twice stops the attempt |
| Executor.Pipeline.ExecuteStages | app/pipeline/flows.py:110-177 | one attempt, with faults at any access, is the attempt specification |
| Executor.Pipeline.HandleFailure | app/pipeline/flows.py:153-173 | the failure handler marks the run failed with one audit row, or leaves it untouched if its own commit fails |
| ExecutorProofs.AttemptKeeps | app/pipeline/flows.py:110-177 | one attempt keeps the prefix, once-only saving, progress and mirror; loses nothing; keeps the spend bound; pauses and failures leave the status they should |
| ExecutorProofs.HistoryKeeps | app/pipeline/flows.py:88-141 | in every sequential history with budget changes the checkpoints are a prefix, each saved once and its stage never called again, progress is the count or one more, and pauses number at most the first nine checkpoints |
| ExecutorProofs.AtMostNinePauses | app/pipeline/flows.py:136-152 | at most nine attempts of a run can pause |
| ExecutorProofs.PauseAddsCheckpoint | app/pipeline/flows.py:121-152 | a paused attempt added a checkpoint and left one missing; a completed one left all ten; saved states never change |
| ExecutorProofs.HealthyRunsComplete | app/pipeline/flows.py:110-177 | with no failure a run with n checkpoints completes within 10 - n resumes, the budget never being raised |
| ExecutorProofs.SpendBound | app/pipeline/flows.py:136-141 | ten times the final spend is at most the larger of ten times the initial spend and the budget, plus ten times the cost of the last stage called |
| ExecutorProofs.CompletedMeansCompleted | app/pipeline/flows.py:174-177 | a completed answer means a completed status exactly unless the attempt found all ten checkpoints and another status; then it changes nothing |
| ExecutorProofs.FinishedRunStaysFailed | app/pipeline/flows.py:132-133 | a fault between the last checkpoint and its mirror leaves a failed run that no later attempt changes |
| ExecutorProofs.FinishedRunIsSkipped | app/pipeline/flows.py:122-124 | an attempt that can read a run with all ten checkpoints answers completed and changes nothing |
| StageRecords.AttemptRecords | app/pipeline/flows.py:125-152 | after any attempt saved states stay and each new checkpoint holds the detail its stage returned in this attempt, as redaction leaves it; the spend grew by the costs of the stages called, the last of which the row names; a pause means more than a tenth of the budget spent and a new checkpoint; after a pause, or a completion from fewer than ten checkpoints, the mirror equals the checkpoints |
| StageRecords.HistoryRecords | app/pipeline/checkpoint.py:53-66 | in every sequential history each checkpoint holds the detail its stage returned in the attempt that first saved it |
| ExecutorProofs.StepForward | app/pipeline/flows.py:88-141 | no step of a history loses a checkpoint, a log entry, progress or spend |
| Interleaving.ScheduleKeeps | app/pipeline/flows.py:112-133 | under every interleaving of any number of executors with stale snapshots, faults and deaths, the checkpoints are a prefix of the stages |
| Interleaving.CalledStageHasInputs | app/pipeline/flows.py:122-129 | whenever any executor calls a stage all earlier stages have checkpoints, so collect finds search and trace finds conclude |
| Interleaving.OnceIffInTime | app/pipeline/flows.py:112-133 | a schedule of any number of executors never calls or saves a stage again after it was saved exactly when no executor starts or saves a stage whose checkpoint came after its snapshot |
| Interleaving.SavedTwice | app/pipeline/flows.py:112-133 | two executors side by side call and save the first stage twice |
| Interleaving.AttemptIsSchedule | app/pipeline/flows.py:110-177 | every sequential attempt is one executor of the interleaved model left alone |
| StageRecords.ScheduleRecords | app/pipeline/flows.py:129-132 | under every interleaving of executors each checkpoint holds a detail that some executor's task returned for that stage |
| Gate.ScoreMonotone | app/services/support_matrix.py:36-57 | a passage with more words never lowers a score; one with all the words scores full |
| Gate.Extractor.Extract | app/services/extractor.py:65-126 | drafts and one link each in one commit, or nothing |
| Gate.ExtractKeepsGate | app/services/extractor.py:87-116 | extraction keeps the gate invariant and adds exactly the extracted texts in order, as drafts of the passage and run, whose numbers it returns, or nothing; it raises exactly if the passage is blank, the model fails, or there is something to commit and the commit fails |
| Gate.Verifier.Verify | app/services/verifier.py:129-245 | the gate with its counters: skip, raise, or status, link and audit row in one commit |
| Gate.VerifyKeepsGate | app/services/verifier.py:154-232 | over forced, skipped and failed calls: one verify link per verdict, none for drafts, the last verdict is the status, a verified statement's last link supports it with a judge, extract links never change, other statements untouched; a decision adds one link to the passage it used and one audit row with the same score and verdict |
| VerifyStage.RunVerify | app/pipeline/stages/verify.py:21-64 | the capped loop is the stage specification |
| VerifyStage.ChosenIff | app/pipeline/stages/verify.py:41-48 | the stage takes up exactly the drafts of the run that fewer than 25 drafts of it come before, in table order |
| VerifyStage.StageDecides | app/pipeline/stages/verify.py:50-64 | the chosen drafts are decided in order up to the first that does not get through: each with a known passage is verified exactly if the passage is not blank, has a quarter of its words and the judge supports it, else quarantined; all other statements stay; it returns exactly if none stops it, with the number decided |
| VerifyStage.StageReturnsIff | app/pipeline/stages/verify.py:50-64 | the stage returns exactly when each chosen draft has words, its judge answers if asked, and its commit succeeds |
| VerifyStage.StuckForever | app/pipeline/stages/verify.py:50-60 | a wordless draft among the chosen ones is chosen again and stops the stage on every resume |
| VerifyStage.StageCanReturnIff | app/pipeline/stages/verify.py:50-64 | some replies let the stage return exactly when every chosen draft of a known passage has words |
| StuckRun.ReachableStageDecides | app/pipeline/stages/verify.py:50-64 | in every reachable state no draft is passed over: a stage that returns has decided each of the first 25 drafts, verified exactly as above, left all other statements, and reports how many |
| StuckRun.StuckIsReachable | app/services/support_matrix.py:28-46 | a history from nothing leaves a run whose only draft has no `[a-z0-9]+` token, and no number of resumes gets its verify stage to the end |
| Overlap.JaccardBelowContainment | app/services/contradiction_detector.py:181-197 | for non-empty token sets containment reaches every threshold Jaccard reaches |
| Overlap.ContainmentGivesJaccard | app/services/contradiction_detector.py:181-217 | containment of at least 0.4 gives Jaccard of at least 0.25 |
| Overlap.SignalledPairsAreCandidates | app/services/contradiction_detector.py:205-243 | a negation signal implies the candidate overlap; both tests are symmetric |
| Overlap.CandidatePairs | app/services/contradiction_detector.py:229-243 | the double loop over the sorted verified statements computes the candidates |
| Overlap.EachPairOnce | app/services/contradiction_detector.py:229-243 | each unordered pair of distinct verified statements that meets the test comes out exactly once, lower id first, and nothing else |
| Overlap.CandidatesInOrder | app/services/contradiction_detector.py:229-243 | the candidates come in the order of the lower and then the higher id, so it is fixed which are the first ten |
| Overlap.OrderIndependent | app/services/contradiction_detector.py:229-243 | the candidates do not depend on the order of the input |
| Detector.ContradictionDetector.Detect | app/services/contradiction_detector.py:294-397 | flag first, confirm second, one commit per pair, at most two judge calls for each of ten pairs |
| Detector.DetectKeeps | app/services/contradiction_detector.py:294-397 | over completed and aborted calls: only confirmed rows, one per unordered pair, one audit row each, rows from before the call kept, new rows are candidates of the call |
| Detector.RaisesIff | app/services/contradiction_detector.py:309-353 | a call raises exactly when one of the first ten candidate pairs is unrecorded and its flag judge fails, or it is flagged without signal and the second judge fails, or it is confirmed and the commit fails |
| Detector.RowsSurviveFailure | app/services/contradiction_detector.py:288-397 | after a call that raised, a pair before the one that broke it is recorded exactly when it was before or was confirmed, any other of the first ten exactly as before |
| Detector.FailureLeavesRowsIff | app/services/contradiction_detector.py:276-293 | a raising call added a row exactly when some pair before the one that broke it was confirmed and not yet recorded |
| Detector.AbortedCallLeavesARow | app/services/contradiction_detector.py:276-293 | a concrete call that raises and leaves a row |
| Detector.DetectedIff | app/services/contradiction_detector.py:305-397 | after a call that returns, each of the first ten candidate pairs has a confirmed row exactly when it had one before or was flagged and confirmed by the signal or the second judge |
| Detector.LaterPairsStay | app/services/contradiction_detector.py:306-307 | however a call ends, a candidate pair after the first ten is recorded exactly as before |
| Findings.BestScore | app/pipeline/stages/find.py:32-41 | the loop computes the best verify score |
| Findings.BestIsGreatest | app/pipeline/stages/find.py:32-41 | that score is the greatest among the statement's verify links in any order |
| Findings.RunFind | app/pipeline/stages/find.py:45-103 | grouping, tiers and one commit per domain are the stage specification |
| Findings.FindCovers | app/pipeline/stages/find.py:71-103 | when the stage returns every eligible statement is in a new finding and the new links number the eligible statements |
| Findings.FindSeparates | app/pipeline/stages/find.py:71-101 | no statement is in two new findings |
| Findings.InFindingIff | app/pipeline/stages/find.py:71-101 | a statement is in a new finding exactly when it is a verified statement of the run whose passage belongs to a source of the run, and the finding is that of this source's domain |
| Findings.FindReturnsIff | app/pipeline/stages/find.py:71-103 | one finding per domain of the eligible statements until the commits run out; the stage returns exactly if there are enough, with the number of domains |
| Findings.FindingsHaveStatements | app/pipeline/stages/find.py:82-101 | every new finding belongs to the run and has a statement |
| Findings.TiersAreGreatest | app/pipeline/stages/find.py:83-88 | t1 exactly if the run has a full verify link for some statement of the group, t3 exactly if it has neither a full nor a partial one for any |
| Report.LatestVerifyLinks | app/services/report_generator.py:460-472 | the loop over rows computes the newest verify link per statement |
| Report.LatestIsNewest | app/services/report_generator.py:460-472 | whatever the row order the result is a verify link of the statement that none is newer than, and is missing only if there is none |
| Report.SupportIsTheVerdict | app/services/report_generator.py:366-373 | for a verified statement the reported support is the score of its last verdict and never none |
| Report.BalancedIff | app/services/report_generator.py:198-212 | a conclusion is not one-sided exactly when the model clears it and two cited statements have different non-blank domains |
| Report.ReportGenerator.Generate | app/services/report_generator.py:296-447 | the whole call: filter, drafts, rows and report in one commit or nothing |
| Report.CommitsIff | app/services/report_generator.py:306-425 | the call commits exactly when some input is verified, the model answers, the database accepts, and no draft cites a known statement twice |
| Report.GenerateKeeps | app/services/report_generator.py:381-425 | every conclusion keeps at least one evidence row, no repeated one, and one audit row listing exactly them; new citations are verified inputs; an error changes nothing |
| Report.EveryDraftConcluded | app/services/report_generator.py:342-391 | there is an order-preserving map from the report's entries onto the drafts with a known citation; each entry cites the known statements of its draft in its order, as often as the draft does and nothing else, asks for review exactly if the draft or a keyword does, and is one-sided exactly if the draft is or no two cited statements have different non-blank domains |
| Report.RepeatedCitationRaises | app/services/report_generator.py:385-391 | the same call commits with a statement cited once and raises with it cited twice |
| Report.ReportMatchesRows | app/services/report_generator.py:340-425 | the returned report has one entry per new conclusion with its evidence rows, support scores, review flag and exactly the confirmed contradictions it touches, and no other warning |
| Provenance.HistoryKeeps | app/services/extractor.py:87-116 | over every history of collecting, storing, extracting, checking, detecting, finding and concluding for any runs: all references resolve within the run, no finding is t3, and the gate, detector and report invariants hold together |
| Provenance.TraceNeverDeadEnds | app/api/routes.py:355-369 | after any history the trace fails exactly for statements that do not exist, and gives the statement, its own passage and that passage's source, which is of the statement's run |
| Provenance.OnlyForceDemotes | app/services/verifier.py:167-210 | what findings, contradictions and conclusions rest on stays verified across a call exactly unless it is a committed, forced check of such a statement, with words, less than a quarter of which are in its passage or which the judge denies |
| Demotion.DemotionIsReachable | app/services/verifier.py:167-210 | a history from nothing: a statement is extracted, verified and cited, then a forced check denies it and the conclusion rests on a quarantined statement |
| Provenance.ConclusionsStand | app/services/report_generator.py:381-391 | without forced checks every conclusion has evidence, and each cited statement is still verified, supported by a verify link from its own passage, and traces to a source of the conclusion's run |
| KvCache.KVCache.Get | app/services/kv_cache.py:87-97 | a live payload, or a miss that deletes an expired entry |
| KvCache.KVCache.Set | app/services/kv_cache.py:99-130 | refuse a payload with a credential key, else write the entry with its end |
| KvCache.KVCache.Delete | app/services/kv_cache.py:132-138 | the entry is gone and nothing else changes |
| KvCache.RowIsLatestWrite | app/services/kv_cache.py:87-138 | under any clock the stored entry is the latest accepted set, ending its TTL after it, unless it was deleted or a get has read a time at or past that end |
| KvCache.DocumentedIff | app/services/kv_cache.py:87-130 | under any clock the answer is the documented one exactly when no still-live entry was purged by a get that read a later time |
| KvCache.AnswersAsDocumented | app/services/kv_cache.py:87-138 | with a clock that never goes back a get is a hit exactly when the latest write is a set that has no TTL or whose time plus TTL is still ahead, and then with its payload |
| KvCache.PurgeUnobservable | app/services/kv_cache.py:93-96 | with such a clock removing every get from the history changes no later answer |
| KvCache.SteppingBackLosesAnEntry | app/services/kv_cache.py:93-96 | a concrete history in which a clock step back makes the purge visible |
| KvCache.NoSecretStored | app/services/kv_cache.py:66-73 | after any history no stored payload has a credential key |
| RateLimiter.Pacer.CallProvider | app/services/llm_gateway.py:205-306 | waiting, up to four attempts with their delays, and the pruned list are the pacing specification |
| RateLimiter.PacedKeeps | app/services/llm_gateway.py:231-249 | every call keeps successes four seconds apart and the list the recent end of the successes, also when the second clock reading empties it |
| RateLimiter.QuotaKept | app/services/llm_gateway.py:160-162 | after any calls successes are four seconds apart, at most fifteen fall in any half-open minute, and the list has at most fifteen entries |
| RateLimiter.CallsAreApart | app/services/llm_gateway.py:231-306 | provider calls rest four seconds after an answer and at least ten after a failure that is retried |
| RateLimiter.NextCallPacedIff | app/services/llm_gateway.py:232-237 | the next call is sure to start four seconds after the previous one exactly when that one was answered or the time has passed |
| RateLimiter.RefusedCallsAreNotPaced | app/services/llm_gateway.py:250-258 | two calls refused for quota reach the provider at the same moment |
| RateLimiter.ListEndsWithLatest | app/services/llm_gateway.py:243-248 | the list ends with the latest success exactly when less than a minute passes between the two readings, and is empty otherwise |
| RateLimiter.AnsweredIff | app/services/llm_gateway.py:238-306 | a call is answered exactly when one of its first four attempts is and all before it failed with a rate limit that is no quota, an outage or a lost connection |
| RateLimiter.CallTimeline | app/services/llm_gateway.py:231-306 | the first attempt starts at once or exactly four seconds after the latest listed success, and each further one exactly 15, 30 or 60 seconds after a rate limit and 10, 20 or 40 after an outage or a lost connection, plus what the sleep ran over |
| CostMeter.Meter.RecordCall | app/services/cost_meter.py:145-190 | the recorded cost, or a rejection that changes nothing |
| CostMeter.RoundsToNearest | app/services/cost_meter.py:179 | the stored amount is the nearest unit, a tie going away from zero |
| CostMeter.StoredSpend | app/services/cost_meter.py:160-190 | the cost is the caller's figure, else the provider's, else 0.000002 USD for each counted token; the call is refused exactly at half a unit below zero, stored exactly if it is for no run or for one that exists and commits, and the run's spend then grows by the nearest unit |
| CostMeter.RefusedIff | app/services/cost_meter.py:179-181 | a cost is refused as negative exactly at -0.00005 USD and below |
| CostMeter.EstimatesFreeBelow25 | app/services/cost_meter.py:86-105 | estimates are never negative and metered as zero exactly below 25 tokens |
| CostMeter.SpendTracksCost | app/services/cost_meter.py:162-190 | after n stored calls the spend never fell and is within n times 0.00005 USD of the exact sum |
| CostMeter.SpendNeverFalls | app/services/cost_meter.py:184-189 | no later call lowers a run's spend |
| CostMeter.OnlyStoredCallsSpend | app/services/cost_meter.py:179-190 | a call changes a run's spend exactly when it is stored on that run and costs at least half a unit |
| Gateway.LLMGateway.CompleteCall | app/services/llm_gateway.py:408-475 | the loop of paced, validated rounds with metering of the accepted answer |
| Gateway.OnlyTheAcceptedAnswerIsMetered | app/services/llm_gateway.py:408-475 | completing in round k used k + 1 answers and pays for one; a quarantine used all of them and pays for none |
| Gateway.CompletedIff | app/services/llm_gateway.py:408-475 | a call completes in a round exactly if that round's answer is the first acceptable one and its cost can be stored, and then returns and charges the cost of that round's answer, rounded; it is quarantined exactly if every round was rejected |
| Gateway.EndingIs | app/services/llm_gateway.py:408-460 | how the loop ends, told by the rounds: accepted in the first acceptable round, raised in the first whose hooks fail or that gets no readable answer, quarantined if all are rejected |
| Gateway.QuarantinedIff | app/services/llm_gateway.py:439-460 | unless a round raises, the call is quarantined exactly when a model is asked for and no answer in time validates |
| Gateway.RoundsArePaced | app/services/llm_gateway.py:408-434 | the loop's effect on the limiter is a history of paced calls, so the quota results hold around it |
| ExecutorProofs.BreachedIsTenth | app/pipeline/circuit_breaker.py:36-51 | the breaker opens exactly when ten times the run's spend exceeds the budget |
| IngestProofs.VisitDecides | app/pipeline/stages/collect.py:103-180 | the row a URI gets: allowlisted, failed, fetched or quarantined exactly by what allowlist, fetcher and filter said, and a fetched row leads to the fetched bytes |
| Overlap.ThresholdsAre | app/services/contradiction_detector.py:181-243 | a pair is a candidate exactly from 0.15 of the union on or with a negation marker on either side, and signals exactly from 0.4 of each set on with a marker on one side only |
| KvCache.RefusedIff | app/services/kv_cache.py:99-110 | a set is refused exactly if its payload has a credential key, and then changes nothing |
| RateLimiter.RetriedIff | app/services/llm_gateway.py:238-306 | an attempt is retried exactly if it is not the fourth and met a rate limit that is no quota, an outage or a lost connection, after the pause for that |
| Detector.WhenAPairIsRecorded | app/services/contradiction_detector.py:317-397 | a pair asked about has a row afterwards exactly when it had one, or was flagged and confirmed by signal or judge |
| Gate.VerifiedIff | app/services/verifier.py:167-210 | a statement comes out verified exactly when it was open to a decision, a quarter of its words are in the passage, the judge supports it and the commit succeeds; below a quarter no judge matters; the score is full exactly from half on; a statement is skipped exactly if it is no draft and not forced |

## Left out

* FastAPI routes other than the trace lookup, dashboard, Prefect, Alembic, logging, telemetry and metrics: they do not touch the modelled state.
* HTML, PDF, DOCX and RTF parsing, regex redaction, JSON schemas, tiktoken and LiteLLM: foreign code, kept as parameters or arbitrary results.
* URL, RSS, web and mock connectors, fetch transport, S3 and file-system blobs: only their results appear.
* Idempotence of a repeated extract or find stage: the code does not provide it.
* Stage bodies of define and of conclude's markdown and trace's export: one write each, represented by the checkpoint or the run row.
* Row order: queries without ORDER BY are read in table order; BestIsGreatest, LatestIsNewest and OrderIndependent say where the order does not matter, and capped selections in the histories pick any subset.
* Row identifiers: a row is named by its position in its table in place of a uuid4, so ids never collide; the sort by id is by position.
* Deletions: no row of a run is deleted during its life; a missing run row is the error of the first read.
* Floating point: overlap ratios are compared as exact fractions and limiter times are whole nanoseconds.
* Concurrent cost updates and concurrent limiter use: both read and then write, so those results are for callers one after another; a Numeric(12, 4) overflow is not modelled.
* Stale detached statements given to the verifier: the caller is taken to hold the current row.
* Cache branch of `complete`: the services all call it with the cache off; `build_key` collisions are not modelled.
* ExecutorProofs.HistoryKeeps: once-only saving is for attempts one after another; overlapping executors keep the prefix (Interleaving.ScheduleKeeps) and can call and save a stage twice (Interleaving.SavedTwice, exactly when: Interleaving.OnceIffInTime).
* Overlapping collect attempts, and collect beside store: only store attempts are interleaved with each other.
* Provenance.HistoryKeeps: collecting and storing are single steps there; their crashes are in the ingest model.
