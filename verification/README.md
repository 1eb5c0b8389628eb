# Verified model of the research-library backend

This project models, in Dafny, the parts of the repository that carry state or decide something: publishing and removing a
document version across three stores, building and validating the evaluation corpus, fusing and adjudicating retrieval
rankings, and cutting pages into text blocks. Each module proves properties over all inputs or all runs. `dafny verify
dfyconfig.toml` checks everything.

Source that changes state step by step is a class or a method with loops here, proved against specification functions or
predicates; lemmas then say what those specifications mean.

## What is modelled

**Publishing and inactivating a version** (`FactSource`, `ElasticsearchWriter`, `MilvusRows`, `MilvusWriter`,
`LifecycleProtocol`, `IndexLifecycle`). A version lives in the PostgreSQL fact, one Elasticsearch index and one Milvus
collection. Every store is a class behind an unreliable connection: any call may fail before its effect, after it, or with
part of it. `IndexLifecycle` carries publication and inactivation out over the two real writers and shows that each call is
one complete run of a process of `LifecycleProtocol`, where any number of publishers and inactivators of one version
interleave with each other and with the rest of the system.

**Cleanup** (`CleanupQueue`, `CleanupProtocol`, `CleanupWorker`, `CleanupRecovery`, `TableRows`). Leased cleanup jobs, several
workers that may crash between any two calls, the one-off recovery of nine jobs, and the audit that decides from grouped
counts.

**Corpus construction** (`UnionFind`, `LeakageGroups`, `SplitAllocation`, `CorpusBuild`). Union-find with path halving, groups
as connected components, and the greedy allocation that fills three splits exactly.

**Retrieval evaluation** (`RankFusion`, `FusionOrder`, `CandidateLadder`, `LadderAdjudicator`, `LadderChecks`, `LadderLocalization`,
`LadderCompleteness`, `RankingMetrics`, `ChunkRemap`, `RoundedStatistics`, `PairedGate`). Reciprocal rank fusion and its
independent adjudicator, nDCG, the matching of frozen to runtime chunks, and the paired gate with its adjudicator.

**Text and annotation integrity** (`PageText`, `TextSpans`, `FormalCorpus`, `CandidateNormalization`, `EvidenceRotation`).

`Basics`, `Sorting` and `Chunks` hold what the others share.

## Reading the model

- A SHA-256 fingerprint or digest is taken to be injective, so the stored metadata keeps the fingerprinted value itself.
- Embeddings come from a deterministic function of the chunk. Similarities are an arbitrary function of two vectors.
- Identifiers and texts that are only compared or ordered are numbers; the numbering keeps their sort order.
- Faults are nondeterministic choices. A store's `healthy` flag switches them off, so that a contract can say when a call must
  succeed. The clock only moves forward.
- A publication of a version is over before the version becomes INACTIVE. The code does not enforce this: persisting a snapshot
  never looks at the lifecycle status, and the snapshot triggers guard only UPDATE and DELETE (backend/storage/postgres.py:705-837,
  backend/storage/migrations/0004_runtime_snapshots.sql:90-108). Without it rows come back behind a succeeded cleanup job
  (`LateSnapshotReturns`).
- The repository's transactions are atomic: compare-and-swap on the revision, the fact together with its job, and the lease
  token as a fence (backend/storage/postgres.py).
- `1 / (60 + rank)`, nDCG sums, means and percentiles are exact reals; `1 / log2(rank + 1)` is any positive, strictly decreasing
  function. Six-decimal rounding is written out, ties to even.
- Headings and sentence ends are arbitrary tests on text. Two facts about the patterns are assumed where needed: no text with a
  line break is a heading, and an empty next line starts no sentence.

## What the proofs found

- A publisher whose finalization commits but whose answer is lost deactivates both indexes and raises although the version is
  READY (`LostReadyAnswer`). Without lost answers a READY version always has a publisher that returned normally
  (`ReadyHasPublisher`).
- An inactivator whose INACTIVE commit loses its answer stops at once; both indexes can stay active and unreported
  (`LostInactiveAnswer`). That is the only way: an index that is still active behind a version that is not READY is otherwise
  named in some failure report, and the next inactivation that finds the version INACTIVE takes on both indexes
  (`ActiveIndexIsReported`, `NextKeepsAbandoned`).
- Two publishers of one version can end with READY and both indexes inactive: the one refused by the compare-and-swap
  deactivates what the other has activated (`TwoPublishersClash`). With one publisher READY always means fully active
  (`ReadyIsFullyActive`).
- A succeeded runtime-snapshot cleanup has always removed the PDF row and every chunk row. The PDF file can stay: ingestion stores
  it before the transaction that registers it, and a version that becomes INACTIVE in between gives its cleanup no file to delete.
  The file is gone exactly when it was registered at that moment or not stored (`SnapshotCleanupIsComplete`, `LeftoverFile`).
- In the recovery, nine successes already imply the postcondition, whose own checks therefore never decide
  (`NineSuccessesPass`).
- In the case adjudicator the route-coverage check never rejects (`FourRoutesCover`), and for accepted cases the branch "missing
  after fusion, but not missed by both backends" is never taken (`VerdictsAreExact`, `AcceptedVerdict`).
- A lock-ready corpus of 500 primary items is ready for engineering use exactly when it has a low-risk dev or test item: with
  none, the audit ratio counts as zero (`LockReadyMeansEngineeringReady`). A blind corpus of acceptance items is locked but
  refused (`BlindCorpusIsOnlyLockReady`).
- Engineering use waives the size blocker by the beginning of its message, and the message of a blocker about an item begins with
  the item's question identifier. So it demands nothing of an item named `primary_item_count`, which may even be a draft
  (`EngineeringReadyExactly`, `NamedDraftIsEngineeringReady`).
- An accepted candidate need not become a valid item. It does exactly when the slot's own fields, the question and the cutoff date
  are valid, the first judgment of each chunk has a relevance on the scale (for a negative item: not below zero), no further keys
  and evidence with real pages, kept turns and claims have no further keys, names are well formed, and an answerable candidate has
  a supporting judgment (`NormalizedMeetsItemRules`; `AnyNumberIsAccepted`, `NegativeNumbersStay`, `MissingRelevanceStays`,
  `CopiesAreUnchecked`).
- A slot repeats a chunk exactly when it takes more chunks from a document than that document has (`SlotRepeats`).

## Model

| member | source | states |
|---|---|---|
| LifecycleProtocol.ActiveIndexIsReported | backend/ingestion/index_lifecycle.py:236-456 | in every interleaving of any number of publishers and inactivators, whatever answers are lost: once all have ended, an index still active behind a version that is not READY is named in some failure report, or the version is INACTIVE, an inactivator's answer may get lost, and every inactivator raised at its commit |
| LifecycleProtocol.InactiveIsFinal | backend/ingestion/index_lifecycle.py:373-397 | once INACTIVE is committed, the fact never changes again and no publisher succeeds any more, whatever answers are lost |
| LifecycleProtocol.ReadyHasPublisher | backend/ingestion/index_lifecycle.py:331-364 | unless answers to publishers are lost, a READY version has a publisher that returned normally; so if all raised, it is not READY |
| LifecycleProtocol.ReadyIsFullyActive | backend/ingestion/index_lifecycle.py:298-342 | with one publisher and any number of inactivators, READY always has every chunk active in both indexes |
| LifecycleProtocol.NextKeepsCover | backend/ingestion/index_lifecycle.py:199-214 | the invariant, across every step of every process and whatever is lost: each active index is behind READY, somebody's responsibility or already reported, unless the version became INACTIVE by a lost commit and no inactivator has got past its commit since |
| LifecycleProtocol.NextKeepsAbandoned | backend/ingestion/index_lifecycle.py:373-397 | a version abandoned in that way stays so until the next inactivator arrives, which finds it INACTIVE and becomes responsible for both indexes |
| LifecycleProtocol.OnlyFinalizingCommitsReady | backend/storage/postgres.py:1121-1161 | no publisher step but a committed finalization makes a version READY |
| LifecycleProtocol.LostReadyAnswer | backend/ingestion/index_lifecycle.py:331-364 | reachable when the finalization's answer is lost: the publisher raised, the version is READY, both indexes are inactive |
| LifecycleProtocol.LostInactiveAnswer | backend/ingestion/index_lifecycle.py:387-397 | reachable when the INACTIVE commit's answer is lost: everybody has ended, both indexes are active and nobody reported them |
| LifecycleProtocol.TwoPublishersClash | backend/ingestion/index_lifecycle.py:343-364 | reachable with two publishers and no lost answer: READY with both indexes inactive |
| LifecycleProtocol.StepKeepsChecked | backend/ingestion/index_lifecycle.py:298-342 | what a lone publisher has seen active stays active until INACTIVE is committed |
| LifecycleProtocol.NextKeepsInactive | backend/storage/models.py:69-89 | INACTIVE admits no transition, so no step of anybody changes the fact or lets a publisher succeed |
| FactSource.Repository.Commit | backend/storage/postgres.py:499-600 | compare-and-swap: a call that is not refused found the expected revision and an allowed transition, and leaves the patched row one revision later together with its job; a refused one changes nothing |
| FactSource.CommitsExactly | backend/storage/models.py:183-202 | what may be committed: from the expected revision, along an allowed transition, READY only complete and without failure, FAILED only with a reason |
| IndexLifecycle.PublishPreparedIndexes | backend/ingestion/index_lifecycle.py:236-370 | a call is one complete protocol run; success means READY with the job's success, both indexes online and holding exactly the chunks; a raise leaves nothing active that it does not name, READY only after a lost answer, and the job FAILED when the failure was recorded, otherwise as it was unless an answer got lost; a current version's failure is always recorded; an index whose store answers is never named and is offline again after an activation; with answering stores it succeeds, also from what aborted attempts left |
| IndexLifecycle.DefectsAreRefused | backend/ingestion/index_lifecycle.py:146-177 | what makes a preparation unacceptable: each single defect of version, job, parse or chunks |
| IndexLifecycle.InactivateAndScheduleCleanup | backend/ingestion/index_lifecycle.py:373-456 | INACTIVE first; afterwards each index, cleanup request and the visibility call is done or named, and the call raises exactly when something is named; each thing that can be done is done, whatever the others do, and when everything answers the call returns normally; a normal return takes both indexes offline and queues all three cleanups |
| IndexLifecycle.RaisedRun | backend/ingestion/index_lifecycle.py:236-370 | from any run of a publisher that raised: initially inactive indexes are inactive or named in the error, and READY was not entered unless an answer was lost |
| IndexLifecycle.RecordFailure | backend/ingestion/index_lifecycle.py:217-233 | a recorded failure leaves the job FAILED and the blamed index broken, a refused one changes nothing; against the version held in an answering repository it is always recorded; a call that was not confirmed is itself added to the report |
| IndexLifecycle.StageOne | backend/ingestion/index_lifecycle.py:256-296 | after a staged and recorded index the receipt names exactly these chunks; the other index is untouched |
| IndexLifecycle.StageBoth | backend/ingestion/index_lifecycle.py:256-296 | both indexes staged with both receipts verified, or the error of the one that failed |
| IndexLifecycle.ActivateOne | backend/ingestion/index_lifecycle.py:298-329 | an activated index is online; a failed activation deactivates both and records why |
| IndexLifecycle.ActivateBoth | backend/ingestion/index_lifecycle.py:298-329 | both indexes online and still exactly staged, with the fact untouched |
| IndexLifecycle.CompensateDeactivation | backend/ingestion/index_lifecycle.py:199-214 | tries both indexes whatever happens and lists those that refused; each index that can be deactivated ends offline and unlisted; the tries are one stretch of a protocol run |
| IndexLifecycle.Finalize | backend/ingestion/index_lifecycle.py:331-364 | READY and the job's success together, leaving both indexes as they were |
| IndexLifecycle.CommitInactive | backend/ingestion/index_lifecycle.py:386-397 | an already INACTIVE version is not committed again; a refused commit leaves the fact as it was |
| IndexLifecycle.DeactivateAndEnqueue | backend/ingestion/index_lifecycle.py:413-432 | deactivation and request of one index, each reported separately when it fails; the other index is untouched |
| IndexLifecycle.DeactivateAll | backend/ingestion/index_lifecycle.py:411-432 | the accounting of both indexes: done or named, and what is done is inactive and cannot pass the online check |
| IndexLifecycle.MoreAccounted | backend/ingestion/index_lifecycle.py:413-432 | the accounting of one more index keeps every earlier entry and names exactly what failed |
| IndexLifecycle.AllAccounted | backend/ingestion/index_lifecycle.py:434-455 | with the runtime request added, every deactivation, request and the visibility call is done or named |
| IndexLifecycle.NothingPending | backend/ingestion/index_lifecycle.py:446-456 | an empty failure list means everything was done |
| IndexLifecycle.Writers.EnsureStaged | backend/ingestion/index_lifecycle.py:256-270 | either writer: success stages exactly the chunks, nothing is ever activated, the other index keeps its state |
| IndexLifecycle.Writers.ActivateVersion | backend/ingestion/index_lifecycle.py:298-303 | either writer: success puts a staged index online with every chunk active; failure deactivates nothing |
| IndexLifecycle.Writers.DeactivateVersion | backend/ingestion/index_lifecycle.py:413-419 | either writer: it succeeds for every index that an answering store can deactivate; success leaves nothing active and no way to pass the online check; failure activates nothing; the other index keeps its state |
| IndexLifecycle.StagedIsDeactivable | backend/ingestion/index_lifecycle.py:199-214 | whatever a publication has staged in an answering store can be deactivated again, in either index |
| IndexLifecycle.AllDeactivable | backend/ingestion/index_lifecycle.py:199-214 | so after both are staged, every index whose store answers can be compensated |
| Chunks.ContractIdExactly | backend/ingestion/elasticsearch_writer.py:27-27 | the contract identifiers, character by character |
| Chunks.CanStageExactly | backend/ingestion/elasticsearch_writer.py:579-608 | which chunk lists both writers refuse before they touch a store: each single defect of the identity, the list or a chunk |
| ElasticsearchWriter.Writer.EnsureStaged | backend/ingestion/elasticsearch_writer.py:80-160 | success means exactly the given chunks up to the active flag; an incomplete index is re-indexed in full, which deactivates it; a staged one is left alone; nothing is written to an index with foreign or drifted documents; aborted attempts stay resumable and complete |
| ElasticsearchWriter.Writer.OpenIndex | backend/ingestion/elasticsearch_writer.py:102-139 | an existing index is never altered here, and only one with this very identity, source and count is accepted |
| ElasticsearchWriter.Writer.FillIndex | backend/ingestion/elasticsearch_writer.py:140-153 | the counts and one full comparison suffice for exact staging; writes happen only over owned and undrifted documents |
| ElasticsearchWriter.Writer.VerifyOwnedCount | backend/ingestion/elasticsearch_writer.py:443-474 | two counts decide that every stored document is owned and that there are not too many |
| ElasticsearchWriter.Writer.VerifySourcePayloads | backend/ingestion/elasticsearch_writer.py:500-547 | the multi-get answer is compared document by document; success is exactly agreement with every chunk |
| ElasticsearchWriter.Writer.SetActive | backend/ingestion/elasticsearch_writer.py:245-303 | only the active flag of matching documents ever changes, and only towards the wanted state; success demands the full count in that state |
| ElasticsearchWriter.Writer.ActivateVersion | backend/ingestion/elasticsearch_writer.py:162-167 | success leaves as many active documents as the metadata counts |
| ElasticsearchWriter.Writer.DeactivateVersion | backend/ingestion/elasticsearch_writer.py:209-220 | success leaves nothing active; unlike the other index it demands the full count, and with it an answering store always succeeds |
| ElasticsearchWriter.Writer.VerifyOnlineVersion | backend/ingestion/elasticsearch_writer.py:169-207 | succeeds only, and with an answering store always, for an index with this identity whose every document is owned and active |
| ElasticsearchWriter.Writer.DeleteVersion | backend/ingestion/elasticsearch_writer.py:222-243 | afterwards there is no index; only one of this very version is ever deleted; a missing one is reported as such |
| ElasticsearchWriter.ResumableIsOwned | backend/ingestion/elasticsearch_writer.py:140-146 | whatever aborted attempts left passes the ownership and count checks |
| ElasticsearchWriter.WriteKeepsResumable | backend/ingestion/elasticsearch_writer.py:476-498 | any part of a bulk write leaves a resumable index resumable |
| ElasticsearchWriter.ReindexedCount | backend/ingestion/elasticsearch_writer.py:148-158 | after a complete bulk write the count alone tells whether anything but the chunks is stored |
| ElasticsearchWriter.WriteNeverActivates | backend/ingestion/elasticsearch_writer.py:476-498 | any part of a bulk write activates nothing |
| ElasticsearchWriter.StagedMatches | backend/ingestion/elasticsearch_writer.py:245-303 | every document of a staged index answers to the toggle, and a toggled index is still staged |
| ElasticsearchWriter.ToggleIsMonotone | backend/ingestion/elasticsearch_writer.py:264-283 | an interrupted toggle moves the active documents in one direction only |
| ElasticsearchWriter.ActivatedIsOnline | backend/ingestion/elasticsearch_writer.py:169-207 | activating a staged index puts it online for the document it was staged for |
| ElasticsearchWriter.OnlineIsOwned | backend/ingestion/elasticsearch_writer.py:169-207 | an online index carries this identity, and the three counts mean that every document it stores is of this very document version and active |
| ElasticsearchWriter.DeactivatedIsOffline | backend/ingestion/elasticsearch_writer.py:169-207 | an index without active documents fails the online check for every document identifier |
| MilvusWriter.Writer.EnsureStaged | backend/ingestion/milvus_writer.py:102-196 | success means exactly the given chunks up to the active flag, with the fingerprinted embeddings; only missing rows are inserted, stored rows stay; an existing collection with a foreign, duplicate or drifted row is never written; aborted attempts stay resumable and complete |
| MilvusWriter.Writer.CreateCollection | backend/ingestion/milvus_writer.py:124-147 | whatever fails on the way leaves an absent or resumable, inactive collection |
| MilvusWriter.Writer.OpenCollection | backend/ingestion/milvus_writer.py:124-157 | an existing collection is never altered here, and only one with this identity, source, count and provider is accepted |
| MilvusWriter.Writer.InsertMissing | backend/ingestion/milvus_writer.py:165-186 | nothing is inserted unless the embeddings are the fingerprinted ones and every stored row carries its own |
| MilvusWriter.Writer.FillCollection | backend/ingestion/milvus_writer.py:158-190 | the rows afterwards are the stored ones followed by one row per missing chunk, and are exactly the chunks |
| MilvusWriter.Writer.VerifyExpectedRows | backend/ingestion/milvus_writer.py:483-520 | one pass decides exactly: valid, no foreign or duplicate row, no payload or embedding drift, and, if asked, complete |
| MilvusWriter.Writer.VerifyLifecycleRows | backend/ingestion/milvus_writer.py:522-554 | one pass decides exactly: count, validity, no duplicates, the wanted state, and the embedding fingerprint when complete |
| MilvusWriter.Writer.SetActive | backend/ingestion/milvus_writer.py:295-341 | rows differ at most in the active flag and only towards the wanted state; success is confirmed by reading back |
| MilvusWriter.Writer.ActivateVersion | backend/ingestion/milvus_writer.py:198-203 | success leaves a complete collection with every row active |
| MilvusWriter.Writer.DeactivateVersion | backend/ingestion/milvus_writer.py:262-274 | success leaves nothing active; a partial or absent collection is tolerated, unlike in the other index, and an answering store always succeeds on it |
| MilvusWriter.Writer.VerifyOnlineVersion | backend/ingestion/milvus_writer.py:205-260 | succeeds only, and with an answering store always, for a complete, fully active collection of this identity and provider; any other answer is reported as not ready |
| MilvusWriter.Writer.DeleteVersion | backend/ingestion/milvus_writer.py:276-293 | afterwards there is no collection; only one of this very version is ever dropped |
| MilvusRows.RowsStageableExactly | backend/ingestion/milvus_writer.py:611-640 | what a collection demands of its chunks beyond that: at most 16,000, contract identifiers, embeddings of one positive dimension |
| MilvusRows.UpsertToggles | backend/ingestion/milvus_writer.py:322-335 | upserting part of the toggled rows toggles exactly those, in place |
| MilvusRows.AppendKeepsExpected | backend/ingestion/milvus_writer.py:452-463 | any part of the missing rows appended keeps the collection resumable |
| MilvusRows.CompletedRows | backend/ingestion/milvus_writer.py:166-195 | adding the missing rows to a partial collection stages it exactly |
| MilvusRows.ResumableCompletes | backend/ingestion/milvus_writer.py:158-196 | whatever aborted attempts left is completed to exactly the chunks |
| MilvusRows.NothingMissing | backend/ingestion/milvus_writer.py:165-186 | a second call finds nothing to insert |
| MilvusRows.VisibleIsAll | backend/ingestion/milvus_writer.py:465-481 | when the collection was small enough to read, or the chunks leave room, the query limit hides no row |
| MilvusRows.StagedIsComplete | backend/ingestion/milvus_writer.py:483-520 | unique rows over exactly the chunk identifiers are as many as the chunks |
| MilvusRows.ToggleKeepsLifecycle | backend/ingestion/milvus_writer.py:295-341 | the lifecycle check does not depend on the active flag |
| MilvusRows.ToggleKeepsStaged | backend/ingestion/milvus_writer.py:295-341 | any part of a toggle keeps a staged collection staged |
| MilvusRows.ToggleIsMonotone | backend/ingestion/milvus_writer.py:322-335 | an interrupted toggle moves the active rows in one direction only |
| MilvusRows.ActivatedIsOnline | backend/ingestion/milvus_writer.py:205-260 | activating a staged collection puts it online with exactly the chunks active |
| MilvusRows.OnlineIsOwned | backend/ingestion/milvus_writer.py:205-260 | an online collection carries this identity and provider, and every row is of this very document version, active and of the right dimension |
| MilvusRows.DeactivatedIsOffline | backend/ingestion/milvus_writer.py:205-260 | a collection whose rows are inactive fails the online check |
| CleanupQueue.TransitionsKeepSound | backend/storage/models.py:303-326 | claim, completion, rejection and lease recovery keep a job replay-safe and its work the same; it fails exactly when the attempts are used up |
| CleanupQueue.ClaimOrderIsStrict | backend/storage/postgres.py:1264-1272 | due time, then creation, then identifier order the due jobs strictly, so at most one is the earliest |
| CleanupQueue.DueExactly | backend/storage/postgres.py:1264-1268 | a job is due from its due time on unless it runs or has ended; one put back waits until its retry time |
| CleanupQueue.RecoveryTakesExpired | backend/storage/postgres.py:1241-1260 | exactly the leases that have run out are taken back, also at that very moment; every lease left runs on |
| CleanupQueue.ClaimKeepsQueue | backend/storage/postgres.py:1262-1296 | a claim keeps every job sound, jobs distinct and each token held once |
| CleanupQueue.Repository.FindEarliestDue | backend/storage/postgres.py:1264-1272 | the job found is due and first by due time, creation and identifier; none is found only when none is due |
| CleanupQueue.Repository.ClaimCleanup | backend/storage/postgres.py:1234-1299 | takes back expired leases, then leases the earliest due job; a claim that raises changed nothing, or did all of that and lost its answer |
| CleanupQueue.Repository.CompleteCleanup | backend/storage/postgres.py:1301-1338 | only the exact current attempt completes a job; a stale token changes nothing |
| CleanupQueue.Repository.RecordCleanupFailure | backend/storage/postgres.py:1340-1395 | only the exact current attempt puts a job back or fails it for good |
| CleanupProtocol.SucceededMeansGone | backend/ingestion/cleanup.py:163-211 | in every run of several crashing workers, a SUCCEEDED job stays so and leaves nothing, now or later: no index; or no PDF row, no chunk row and, if the PDF was registered when the version became INACTIVE, no file |
| CleanupProtocol.PurgedMeansFileDeleted | backend/ingestion/cleanup.py:112-124 | rows of a version with a registered PDF are purged all together and only after its file is deleted |
| CleanupProtocol.OneHolder | backend/storage/postgres.py:1301-1338 | at most one busy worker holds a job, and only that worker can end it |
| CleanupProtocol.EndedIsFinal | backend/storage/postgres.py:1241-1260 | an ended job never changes again, and no job is attempted more often than allowed |
| CleanupProtocol.NextKeepsInv | backend/ingestion/cleanup.py:163-211 | the invariant of every step: sound queue, fenced workers, deletions in order, chunk rows only of registered versions; jobs only advance and storage of INACTIVE versions only shrinks |
| CleanupProtocol.PublicationIsApart | backend/ingestion/persistent.py:253-292 | the steps of a publication, file and then one transaction for PDF and chunk rows, keep chunk rows registered and touch nothing of INACTIVE versions |
| CleanupProtocol.UnregisteredFileStays | backend/ingestion/cleanup.py:113-118 | the file of a version that became INACTIVE without a registered PDF is never deleted |
| CleanupProtocol.SnapshotCleanupIsComplete | backend/ingestion/cleanup.py:112-124 | a succeeded snapshot cleanup has removed every row of the version; its PDF file is gone exactly when the PDF was registered when the version became INACTIVE or no file was stored then |
| CleanupProtocol.LeftoverFile | backend/ingestion/persistent.py:258-290 | reachable from empty stores: the file is stored but never registered, the version becomes INACTIVE, its snapshot job succeeds and the file is still there |
| CleanupProtocol.LateSnapshotReturns | backend/storage/postgres.py:705-837 | reachable: a succeeded snapshot job of an INACTIVE version, behind which persisting the snapshot would bring the rows back |
| CleanupWorker.RetryDelayGrows | backend/ingestion/cleanup.py:224-229 | delays start at the base, double up to the cap, never shrink with attempts and never leave [base, cap] |
| CleanupWorker.Stores.DeleteSnapshot | backend/ingestion/cleanup.py:112-124 | the file goes before the rows; only things of this version are ever removed; the answer says whether a file was there |
| CleanupWorker.IndexCleanupWorker.RunOnce | backend/ingestion/cleanup.py:163-211 | executes the earliest due job: succeeded with its object removed, or put back with a delay, or failed on the last attempt; an answering queue always gets an answer, and over answering stores an executed job always succeeds; when the claim failed or nothing was persisted it says what may be left behind; however it ends, it is one run of a protocol worker from idle to idle |
| CleanupWorker.IndexCleanupWorker.Execute | backend/ingestion/cleanup.py:174-211 | deletes the object of a claimed job and completes the job, or puts it back with its failure code, or fails it on the last attempt; no other job changes; over answering stores and queue it succeeds |
| CleanupWorker.DeletionRuns | backend/ingestion/cleanup.py:112-131 | the calls of one deletion, up to wherever it stops, are steps of a protocol worker |
| CleanupWorker.WorkerRunReaches | backend/ingestion/cleanup.py:163-222 | a worker run that starts in a reachable state of the whole system ends in one, so every theorem over the interleavings holds for it |
| CleanupWorker.IndexCleanupWorker.RunBatch | backend/ingestion/cleanup.py:213-222 | at most the given number of results; exactly the reported successes became SUCCEEDED, each once and each with its object gone; a short batch stopped because nothing was due, and left out no job that was due at the start; when queue and stores answer, everything executed succeeds; after a raise the executions before it are accounted for the same way; the batch is one run of a protocol worker |
| CleanupWorker.MoreAccounts | backend/ingestion/cleanup.py:213-222 | one more executed job keeps the account: successes are distinct and exactly those recorded |
| CleanupRecovery.EveryJobSucceeded | scripts/recover_phase3_comparison_cleanup.py:383-392 | as many successes as unfinished jobs are exactly those jobs, and nothing unfinished is left |
| CleanupRecovery.EveryVersionRegistered | backend/storage/migrations/0004_runtime_snapshots.sql:12-26 | with one PDF row per version, three rows for three versions mean that each has one |
| CleanupRecovery.FrozenExactly | scripts/recover_phase3_comparison_cleanup.py:227-267 | the frozen state row by row: three inactive versions, nine untouched jobs that cover every version and target, no other unfinished job, 316 chunk and three PDF rows; the count of unfinished jobs follows from the rest |
| CleanupRecovery.NineAreExecuted | scripts/recover_phase3_comparison_cleanup.py:383-392 | a batch that leaves out no due job executes at least the nine frozen ones |
| CleanupRecovery.PairIsGone | scripts/recover_phase3_comparison_cleanup.py:227-267 | each pair of an owner's version and a target had a job, so that index, or PDF row and registered file, is gone |
| CleanupRecovery.NineSuccessesPass | scripts/recover_phase3_comparison_cleanup.py:270-286 | nine successes from the frozen state always meet the postcondition, and both indexes and the PDF file of every version are gone |
| CleanupRecovery.AuditDecidesRows | scripts/audit_phase3_comparison_cleanup_state.py:145-203 | for every database the grouped counts evaluate to CLEAN exactly when nothing is stored or the cleanup is complete row by row |
| CleanupRecovery.RecoveredAuditIsClean | scripts/audit_phase3_comparison_cleanup_state.py:190-203 | after a passing recovery the audit answers CLEAN exactly when every ingestion job has ended |
| CleanupRecovery.RunRecovery | scripts/recover_phase3_comparison_cleanup.py:320-415 | works only from the frozen state, otherwise touches nothing; passes exactly on nine successes, and then postcondition, physical absence and audit follow; from the frozen state with its jobs due and everything answering it passes |
| TableRows.GroupingCounts | scripts/audit_phase3_comparison_cleanup_state.py:82-130 | grouping loses no row and invents none, for every test on the key |
| TableRows.GroupsTellRows | scripts/audit_phase3_comparison_cleanup_state.py:141-178 | sums and keys of the groups tell the number, the absence and the kinds of the rows themselves |
| UnionFind.HalvingKeepsRoots | scripts/build_assisted_formal_corpus.py:168-172 | pointing an element at its grandparent keeps the links acyclic and moves no root, though roots are in no index order |
| UnionFind.LinkStaysAcyclic | scripts/build_assisted_formal_corpus.py:174-178 | hanging one root below another, without ranks, keeps the links acyclic |
| UnionFind.LinkMergesRoots | scripts/build_assisted_formal_corpus.py:174-178 | linking two roots merges exactly their two trees |
| UnionFind.Forest.Find | scripts/build_assisted_formal_corpus.py:168-172 | terminates at the root, and changes no element's root while it shortens paths |
| UnionFind.Forest.Union | scripts/build_assisted_formal_corpus.py:174-178 | everything under the right root moves under the left one, nothing else moves |
| LeakageGroups.MatchingIsMonotone | scripts/build_assisted_formal_corpus.py:206-227 | matching is symmetric, and more similarity or more sharing never unmatches |
| LeakageGroups.MatchesExactly | scripts/build_assisted_formal_corpus.py:32-36 | when two candidates match and for which of the four reasons, with the five thresholds |
| LeakageGroups.MinSlotIsLeast | scripts/build_assisted_formal_corpus.py:244-247 | the sort key of a group is the least slot identifier of its members |
| LeakageGroups.RootsAreComponents | scripts/build_assisted_formal_corpus.py:166-229 | two candidates have one root exactly when a chain of matched pairs connects them |
| LeakageGroups.MergeKeepsRepresentation | scripts/build_assisted_formal_corpus.py:228-230 | each recorded pair keeps roots and chains in step |
| LeakageGroups.ByRootPartitions | scripts/build_assisted_formal_corpus.py:241-243 | grouping by root puts every candidate in exactly one group |
| LeakageGroups.ByRootAreComponents | scripts/build_assisted_formal_corpus.py:241-243 | the groups by root are the connected components |
| LeakageGroups.MatchRow | scripts/build_assisted_formal_corpus.py:186-240 | after each row exactly the matching pairs up to it are recorded, each once, and roots represent them |
| LeakageGroups.Components | scripts/build_assisted_formal_corpus.py:241-247 | a partition into connected components, ordered by least slot |
| LeakageGroups.GroupCandidates | scripts/build_assisted_formal_corpus.py:159-249 | raises exactly on unequal counts; records exactly the matching pairs with the reason that applies first, counts the reasons, and groups by connected component |
| SplitAllocation.GroupChoiceIsBest | scripts/build_assisted_formal_corpus.py:275-288 | a group goes to a split with room for all of it that no other such split beats; none is found only when none has room |
| SplitAllocation.GroupChoiceExactly | scripts/build_assisted_formal_corpus.py:275-288 | among the splits with room for the whole group the one holding most of its original members is chosen, then the one with the greater free share, then dev, test, acceptance; and only that one |
| SplitAllocation.PlacingOrder | scripts/build_assisted_formal_corpus.py:261-296 | the groups are placed largest first, by least slot among equals, and the singletons after them |
| SplitAllocation.SingletonChoiceHasRoom | scripts/build_assisted_formal_corpus.py:297-308 | a singleton keeps its split while there is room, and otherwise finds room exactly when there is any |
| SplitAllocation.SingletonChoiceExactly | scripts/build_assisted_formal_corpus.py:297-308 | a singleton whose split is full goes where most places are free, then dev, test, acceptance |
| SplitAllocation.SingletonsFailWhenFull | scripts/build_assisted_formal_corpus.py:297-306 | the singleton phase fails only for more than 500 candidates |
| SplitAllocation.PartitionSizes | scripts/build_assisted_formal_corpus.py:261-262 | the sizes of a partition's groups add up to the candidates, so the covering check never fails for one |
| SplitAllocation.AllocationOutcome | scripts/build_assisted_formal_corpus.py:258-309 | for a partition: it returns exactly for 500 candidates whose larger groups all fit, and then assigns everyone, fills each split exactly and divides no group; each error has its exact cause |
| SplitAllocation.EnoughSingletons | scripts/build_assisted_formal_corpus.py:273-309 | 500 candidates with at least 2 * (largest group - 1) singletons are always allocated |
| SplitAllocation.OriginalSplitsAreKept | scripts/build_assisted_formal_corpus.py:258-309 | when every group lies within one original split and the splits number 300, 100 and 100, the allocation returns exactly the original splits |
| SplitAllocation.NoPairCrossesSplits | scripts/build_assisted_formal_corpus.py:258-309 | candidates that a chain of matched pairs connects end in the same split |
| SplitAllocation.NoDividedGroup | scripts/build_assisted_formal_corpus.py:577-580 | after a successful allocation the number of divided groups is the reported constant zero |
| SplitAllocation.PlaceInOrder | scripts/build_assisted_formal_corpus.py:273-307 | the placing loops carry out exactly the specified placement, group by group |
| SplitAllocation.AssignGroupSplits | scripts/build_assisted_formal_corpus.py:258-309 | the whole method is the specified allocation, about which the lemmas above speak |
| CorpusBuild.GroupAndAssign | scripts/build_assisted_formal_corpus.py:473-488 | grouping and allocation together: full splits, and no two matching candidates in different splits |
| CorpusBuild.BuiltItemsDoNotLeak | backend/evaluation/formal_corpus.py:416-421 | items built from a successful allocation pass the corpus's own leakage check |
| RankFusion.FusedIsFusion | backend/retrieval/online.py:1020-1060 | the fused list holds every returned chunk once, each strictly ahead of all later ones by score, best rank, identifier |
| RankFusion.FusionIsUnique | scripts/adjudicate_phase3_candidate_ladder_report.py:339-342 | the order is strict: two lists of the same chunks that follow it are equal |
| RankFusion.OnlyFusion | scripts/adjudicate_phase3_candidate_ladder_report.py:339-342 | whatever list follows the order is the recomputed one |
| RankFusion.ScoredExactlyWhenReturned | scripts/adjudicate_phase3_candidate_ladder_report.py:319-331 | a chunk has a positive score, a best rank and memberships exactly when some route returned it, and its best rank is the least of them |
| FusionOrder.ScoreIsTheSum | scripts/adjudicate_phase3_candidate_ladder_report.py:326-331 | a chunk's score is the sum of 1 / (60 + rank) over the routes that return it |
| FusionOrder.ReturnedOnceScores | scripts/adjudicate_phase3_candidate_ladder_report.py:326-331 | returned by one route alone at rank r, a chunk scores 1 / (60 + r) |
| FusionOrder.OneRouteIsKept | scripts/adjudicate_phase3_candidate_ladder_report.py:326-342 | the fusion of one route's list is that list |
| FusionOrder.DominatingStandsAhead | scripts/adjudicate_phase3_candidate_ladder_report.py:326-342 | a chunk that every route returning another one also returns, at a better rank, stands ahead of it |
| FusionOrder.FusionOrderSpelledOut | scripts/adjudicate_phase3_candidate_ladder_report.py:339-342 | earlier in the fusion means a greater sum, or an equal sum and a better best rank, or all equal and a smaller identifier |
| CandidateLadder.FusedCoverage | scripts/run_phase3_candidate_ladder_localization.py:308-335 | fusion observes exactly the target documents that some backend observed |
| CandidateLadder.VerdictsAreExact | scripts/run_phase3_candidate_ladder_localization.py:318-375 | missing after fusion means missed by both backends, each verdict is characterised by what was observed, and a backend is a cause exactly when it missed a required document |
| CandidateLadder.ObservedDocuments | scripts/run_phase3_candidate_ladder_localization.py:308-317 | a document counts as observed exactly where one of its target candidates is listed: on a route of the backend, in the fusion, in the final list |
| CandidateLadder.FinalShowsLess | scripts/run_phase3_candidate_ladder_localization.py:334-339 | a prefix of the fused list observes no more than the fusion |
| LadderAdjudicator.AcceptedFuses | scripts/adjudicate_phase3_candidate_ladder_report.py:343-367 | an accepted fused list carries the routes' identities and lists the chunks in the recomputed order |
| LadderAdjudicator.AcceptedLadderIsTheFusion | scripts/adjudicate_phase3_candidate_ladder_report.py:286-380 | an accepted ladder is the one strict order of all returned chunks; no other is acceptable |
| LadderAdjudicator.AcceptedVerdict | scripts/adjudicate_phase3_candidate_ladder_report.py:460-470 | in an accepted case the verdict is the one the observations determine, and fusion never loses a document |
| LadderAdjudicator.EveryTargetHasABoundary | scripts/adjudicate_phase3_candidate_ladder_report.py:382-398 | an accepted case has a boundary for every required chunk, by counting alone |
| LadderAdjudicator.AcceptedBoundary | scripts/adjudicate_phase3_candidate_ladder_report.py:399-458 | an accepted boundary tells, for each backend's route of its document, the fusion and the final list, the place of the first candidate from its chunk, or that there is none |
| LadderAdjudicator.AcceptedCaseIsFrozen | scripts/adjudicate_phase3_candidate_ladder_report.py:250-300 | an accepted case has the frozen configuration, four routes of at most 20 candidates, a final list of at most three, and scores within 1e-12 of the recomputed ones |
| LadderAdjudicator.FourRoutesCover | scripts/adjudicate_phase3_candidate_ladder_report.py:332-337 | four valid and different routes cover both backends for both documents, so this check never rejects |
| LadderChecks.TallyRoute | scripts/adjudicate_phase3_candidate_ladder_report.py:299-331 | one route is accepted exactly when its candidates are valid, distinct and agree with the identities recorded; the dictionaries then hold the exact tallies |
| LadderChecks.TallyRoutes | scripts/adjudicate_phase3_candidate_ladder_report.py:277-337 | accepted exactly for four valid routes that agree on every identity |
| LadderChecks.TallyOrderIsFusionOrder | scripts/adjudicate_phase3_candidate_ladder_report.py:339-342 | sorting by the dictionaries gives the fusion of the entries |
| LadderChecks.CheckFused | scripts/adjudicate_phase3_candidate_ladder_report.py:343-367 | accepts exactly the recomputed fusion, in identity, order, score and memberships |
| LadderChecks.CheckFinal | scripts/adjudicate_phase3_candidate_ladder_report.py:369-380 | accepts exactly the first three fused candidates |
| LadderChecks.CheckBoundaries | scripts/adjudicate_phase3_candidate_ladder_report.py:382-458 | accepts exactly one true boundary per required chunk |
| LadderChecks.ValidateCase | scripts/adjudicate_phase3_candidate_ladder_report.py:235-470 | a case is accepted exactly when every comparison holds, and its verdict is returned |
| LadderLocalization.SerializeRanking | scripts/run_phase3_candidate_ladder_localization.py:177-197 | the records of one route, and its memberships appended to those before |
| LadderLocalization.RecordExactly | scripts/run_phase3_candidate_ladder_localization.py:126-162 | a candidate is reported as observed, under its source identifiers, as a target match with the judged relevance exactly when its source chunk is a target |
| LadderLocalization.SerializeRankings | scripts/run_phase3_candidate_ladder_localization.py:177-213 | all routes, with every chunk's memberships in route order |
| LadderLocalization.SerializeObservation | scripts/run_phase3_candidate_ladder_localization.py:165-305 | succeeds exactly for a serializable observation, with every identity mapped and both routes for every target, and then yields the specified ladder |
| LadderLocalization.RoutedExactly | scripts/run_phase3_candidate_ladder_localization.py:238-245 | a target can be serialized exactly when both backends have a route for its document |
| LadderCompleteness.SameEntries | scripts/run_phase3_candidate_ladder_localization.py:177-213 | the observed rankings and the serialized routes give the fusion the same entries |
| LadderCompleteness.AllReportsAreMemberships | scripts/run_phase3_candidate_ladder_localization.py:175-189 | the memberships collected by the producer are those the adjudicator recomputes |
| LadderCompleteness.SerializedCaseIsAccepted | scripts/adjudicate_phase3_candidate_ladder_report.py:235-470 | the adjudicator accepts the case specified for any well-formed observation |
| LadderCompleteness.WellFormedIsSerializable | scripts/run_phase3_candidate_ladder_localization.py:165-305 | serialization never fails on a well-formed observation |
| LadderCompleteness.ProduceCase | scripts/run_phase3_candidate_ladder_localization.py:531-537 | serializing and classifying yields a case exactly for serializable observations, and for a well-formed one always a case that is accepted |
| LadderCompleteness.ProduceAndAdjudicate | scripts/adjudicate_phase3_candidate_ladder_report.py:235-470 | run through producer and adjudicator, every well-formed observation ends in the verdict its classification carries |
| RankingMetrics.LeadCounts | backend/evaluation/retrieval_metrics.py:119-127 | summation by parts: a lead in every prefix is worth at least its size at the last discount |
| RankingMetrics.GainsOfGrades | backend/evaluation/retrieval_metrics.py:119-121 | grades 0 to 3 gain 0, 1, 3 and 7, and each further grade twice as much and one |
| RankingMetrics.EachGainIsDiscounted | backend/evaluation/retrieval_metrics.py:119-127 | each gain counts by the discount of its own rank |
| RankingMetrics.JudgedGrade | backend/evaluation/retrieval_metrics.py:109-109 | a judged chunk has the grade of its one judgment |
| RankingMetrics.ReciprocalOfFirst | backend/evaluation/retrieval_metrics.py:115-118 | the first chunk graded 2 or better, at rank r, makes the reciprocal rank 1/r, and without one it is 0 |
| RankingMetrics.RelevantMeansTwo | backend/evaluation/retrieval_metrics.py:110-110 | relevant chunks are exactly those graded 2 or better |
| RankingMetrics.NoLeadMeansEqual | backend/evaluation/retrieval_metrics.py:119-128 | equal discounted sums under domination mean equal sequences |
| RankingMetrics.TopIsGreatest | backend/evaluation/retrieval_metrics.py:123-127 | no selection of n elements adds up to more than the first n of the descending sequence |
| RankingMetrics.SelectedGrades | backend/evaluation/retrieval_metrics.py:109-122 | a ranking without repetitions selects each judgment at most once |
| RankingMetrics.GainAtMostIdeal | backend/evaluation/retrieval_metrics.py:119-127 | no ranking of distinct chunks gains more than the ideal one of its length |
| RankingMetrics.RankingIsDominated | backend/evaluation/retrieval_metrics.py:119-127 | rank by rank, a ranking's gains never run ahead of the ideal ones |
| RankingMetrics.NdcgIsBounded | backend/evaluation/retrieval_metrics.py:104-129 | 0 <= DCG <= ideal DCG, so nDCG lies in [0, 1], for every ranking of distinct chunks |
| RankingMetrics.NdcgIsOneForIdealGrades | backend/evaluation/retrieval_metrics.py:119-128 | with anything to find, nDCG is 1 exactly when the zero-padded grades are the ideal ones at every rank |
| RankingMetrics.ScoresAreBounded | backend/evaluation/retrieval_metrics.py:104-129 | all four scores lie in [0, 1]; recall is 1 exactly when every relevant chunk is shown; recall, precision and reciprocal rank are positive together |
| RankingMetrics.ScoresExactly | backend/evaluation/retrieval_metrics.py:104-129 | the four scores of the first k ranks: hits over relevant chunks, hits over k, the inverse rank of the first hit, discounted gains over the ideal ones; none when nothing is relevant or k is 0 |
| ChunkRemap.RecordedIsInverse | scripts/run_phase3_comparison_paired_dev_gate.py:351-366 | without repeated sources the two recorded maps are mutually inverse |
| ChunkRemap.RuntimeIsCovered | scripts/run_phase3_comparison_paired_dev_gate.py:353-369 | by pigeonhole, distinct matches in equal number use every runtime chunk |
| ChunkRemap.RemapIsBijection | scripts/run_phase3_comparison_paired_dev_gate.py:335-369 | the maps are total on both sides and mutually inverse |
| ChunkRemap.RemapPreservesContent | scripts/run_phase3_comparison_paired_dev_gate.py:325-332 | chunks mapped to each other agree on document, pages, section and text |
| ChunkRemap.RemapRuntimeChunks | scripts/run_phase3_comparison_paired_dev_gate.py:335-369 | succeeds exactly for chunk lists that match one to one, and then returns the bijection |
| ChunkRemap.GateScoreIsRankingScore | scripts/run_phase3_comparison_paired_dev_gate.py:392-415 | the gate's recall and nDCG are the formal metrics of the renamed ranking, for any candidates, mapped or not |
| ChunkRemap.GateScoreIsBounded | scripts/run_phase3_comparison_paired_dev_gate.py:392-415 | for distinct candidates both scores lie in [0, 1], even when some candidates are unmapped and share the empty identifier |
| RoundedStatistics.Round6IsNear | scripts/run_phase3_comparison_paired_dev_gate.py:543-548 | six-decimal rounding is off by at most half a millionth |
| RoundedStatistics.NearestOrEven | scripts/run_phase3_comparison_paired_dev_gate.py:543-548 | rounding goes to the nearest integer, and of two equally near ones to the even one |
| RoundedStatistics.PercentileIsInterpolated | scripts/run_phase3_comparison_paired_dev_gate.py:213-222 | at position i + f of the sorted values the percentile is f of the way from one value to the next |
| RoundedStatistics.Round6KeepsBounds | scripts/run_phase3_comparison_paired_dev_gate.py:543-548 | rounding stays within whole-number bounds |
| RoundedStatistics.Round6OfRounded | scripts/run_phase3_comparison_paired_dev_gate.py:1173-1192 | rounding is idempotent and exact on differences of rounded numbers |
| RoundedStatistics.RoundedDifferenceIsClose | scripts/adjudicate_phase3_comparison_paired_dev_report.py:109-110 | a rounded difference is within 1.5e-6 of the difference of rounded numbers, inside the tolerance |
| RoundedStatistics.PercentilesAreOrdered | scripts/run_phase3_comparison_paired_dev_gate.py:213-222 | interpolated percentiles lie between the extremes and grow with the percentage |
| PairedGate.PassReportIsAccepted | scripts/adjudicate_phase3_comparison_paired_dev_report.py:153-422 | every PASS report the gate emits on the frozen counts is accepted |
| PairedGate.ScoredRunIsInRange | scripts/run_phase3_comparison_paired_dev_gate.py:1067-1109 | a run whose scores come from the gate's scoring through a successful matching has all of them in [0, 1] |
| PairedGate.ScoredPassReportIsAccepted | scripts/adjudicate_phase3_comparison_paired_dev_report.py:153-422 | so every PASS report over such a run and the frozen counts is accepted |
| PairedGate.AcceptedReportMeetsThresholds | scripts/adjudicate_phase3_comparison_paired_dev_report.py:166-422 | what acceptance guarantees of any report: the thresholds for its own arms up to the tolerance, metrics in [0, 1], the frozen counts, and a complete cleanup |
| PairedGate.GatePassesExactly | scripts/run_phase3_comparison_paired_dev_gate.py:1190-1211 | when the gate passes a run, in terms of what the run observed: 3 two-sided targets, gains of 0.2 and 0.1 between rounded means, drops and latencies inside their limits, 15 canary passes, a complete cleanup; the demanded gain in two-sided targets follows from the rest |
| PairedGate.TargetsAgree | scripts/run_phase3_comparison_paired_dev_gate.py:1173-1210 | the gate's target thresholds imply the adjudicator's, with metrics in [0, 1] |
| PairedGate.NonRegressionAgrees | scripts/run_phase3_comparison_paired_dev_gate.py:1098-1121 | reported drops agree with the reported arms within the tolerance |
| PairedGate.CanaryAgrees | scripts/run_phase3_comparison_paired_dev_gate.py:571-639 | 15 passes over the frozen composition pass 9, 3 and 3 of the categories |
| PairedGate.CostAgrees | scripts/run_phase3_comparison_paired_dev_gate.py:683-705 | the reported latency increment agrees with the reported percentiles, which are not negative |
| PageText.NormalizedIsKept | backend/ingestion/parser.py:40-48 | normalized text is a fixed point |
| PageText.NormalizationNormalizes | backend/ingestion/parser.py:40-48 | whatever the extracted text, the result is empty or made of clean lines |
| PageText.NormalizationIsIdempotent | backend/ingestion/parser.py:40-48 | normalizing twice is normalizing once |
| PageText.NormalizationKeepsVisible | backend/ingestion/parser.py:40-48 | normalization keeps every visible character, in order, and adds none |
| PageText.BreaksUnify | backend/ingestion/parser.py:41-41 | line breaks of either form are unified wherever they stand |
| PageText.BlankExactly | backend/ingestion/parser.py:42-48 | which characters are stripped and which are dropped as control characters |
| TextSpans.JoinSlice | backend/ingestion/parser.py:94-123 | the text between two line boundaries is those lines joined |
| TextSpans.TextBlockSpans | backend/ingestion/parser.py:94-123 | the spans are line-aligned blocks: each heading alone, each other block under 1800 characters without its last line, cut only for a reason; joined by line breaks they rebuild the page |
| TextSpans.CutsAreUnique | backend/ingestion/parser.py:94-123 | those rules determine the blocks |
| TextSpans.BlocksRebuildPage | backend/ingestion/parser.py:94-123 | joining a page's block texts by line breaks gives the page back |
| TextSpans.SpansAreAdjacent | backend/ingestion/parser.py:94-123 | spans are ordered and disjoint, one line break apart |
| TextSpans.SecondHeadingTestAgrees | backend/ingestion/parser.py:208-212 | the parser's second heading test, on the block, agrees with the splitter's, on its lines |
| TextSpans.SectionPathIsNested | backend/ingestion/parser.py:87-91 | a section path is its heading below the steps of the path before, as many of them as its level leaves room for |
| TextSpans.PageSlice | backend/ingestion/parser.py:192-204 | each page stands in the clean text at its computed offset |
| TextSpans.ParsePage | backend/ingestion/parser.py:208-221 | one page's blocks are slices of the clean text and rebuild the page; sections follow the headings |
| TextSpans.ParsePages | backend/ingestion/parser.py:192-221 | every block is the slice of the clean text its offsets name, each page's blocks rebuild it, and sections follow the headings across pages |
| FormalCorpus.LineageIsShallow | backend/evaluation/formal_corpus.py:465-495 | annotation lineage has no cycle and no chain of more than two steps |
| FormalCorpus.LineageExactly | backend/evaluation/formal_corpus.py:465-495 | what a correct lineage is: parents of the same question; for an adjudication annotations of two different reviewers, a model being one reviewer whoever ran it; for an expert review the same, or one adjudication |
| FormalCorpus.ReviewsAreIndependent | backend/evaluation/formal_corpus.py:478-495 | every adjudication and expert review rests on at least two different annotator identities |
| FormalCorpus.LinkedCorpusHasLineage | backend/evaluation/formal_corpus.py:453-507 | a corpus that validates has the lineage those theorems speak of |
| FormalCorpus.ParentsAreListed | backend/evaluation/formal_corpus.py:453-507 | in a corpus that validates, whatever a record is based on is listed by the same item that lists the record |
| FormalCorpus.ReviewRestsOnItsItem | backend/evaluation/formal_corpus.py:453-507 | an adjudication or expert review listed by an item rests on at least two different reviewers, all among that item's own independent ones |
| FormalCorpus.UnblockedItemIsReviewed | backend/evaluation/formal_corpus.py:508-593 | an item without blockers has two human annotators, adjudication or expert review where required, and a human final record with its labels |
| FormalCorpus.LockReadyMeansEngineeringReady | backend/evaluation/formal_corpus.py:595-620 | a lock-ready corpus of 500 primary items is engineering-ready exactly when it has a low-risk dev or test item |
| FormalCorpus.GapsAreExact | backend/evaluation/formal_corpus.py:496-593 | when an item gets each of its sixteen kinds of blocker, one per missing record, in terms of the records it lists |
| FormalCorpus.CorpusBlockersAreExact | backend/evaluation/formal_corpus.py:423-451 | apart from the size, the corpus has blockers exactly when a split's or a stratum's number of items is outside its share of the primary items |
| FormalCorpus.EngineeringReadyExactly | backend/evaluation/formal_corpus.py:595-620 | engineering-ready means right proportions, 500 primary items, a tenth of the low-risk items, and at least one, seen by a human, and only waived gaps in every item, except that nothing is demanded of an item named primary_item_count |
| FormalCorpus.EngineeringItemIsReviewed | backend/evaluation/formal_corpus.py:508-620 | an item with only waived gaps is past drafting with all records present, agreed or adjudicated, expert- or human-reviewed where required, with a human final record of its labels; a GPT-assisted one has an uncontradicted GPT annotation |
| FormalCorpus.NamedDraftIsEngineeringReady | backend/evaluation/formal_corpus.py:595-620 | a valid corpus of 500 dev items is engineering-ready although its item named primary_item_count is still a draft |
| FormalCorpus.BlindCorpusIsOnlyLockReady | backend/evaluation/formal_corpus.py:595-620 | a valid corpus of 500 acceptance items, each agreed on by two people, validates and is lock-ready but not engineering-ready |
| FormalCorpus.CheckLeakage | backend/evaluation/formal_corpus.py:416-421 | passes exactly when no leakage group spans two splits |
| FormalCorpus.CheckRecords | backend/evaluation/formal_corpus.py:465-495 | passes exactly when every record has a known question, the manifest's dataset version and a correct lineage; otherwise reports the first rule the first bad record breaks |
| FormalCorpus.CollectBlockers | backend/evaluation/formal_corpus.py:423-593 | the blockers of the corpus and of every item in order, one per missing record, with the audit counts |
| FormalCorpus.ValidateCorpus | backend/evaluation/formal_corpus.py:404-642 | reports exactly for a linked corpus of the manifest's dataset version, with all blockers, and both readiness flags with the filter by message |
| CandidateNormalization.NormalizationIsNormal | scripts/finalize_assisted_candidates.py:79-200 | whatever is accepted comes out in normal form |
| CandidateNormalization.NormalFormIsKept | scripts/finalize_assisted_candidates.py:79-200 | a candidate in normal form is left alone and no action is reported |
| CandidateNormalization.NormalizationIsIdempotent | scripts/finalize_assisted_candidates.py:79-200 | normalizing again changes nothing, reports nothing and never fails |
| CandidateNormalization.AcceptedExactly | scripts/finalize_assisted_candidates.py:79-167 | which candidates are accepted: the slot's own answerability, every claim with an identifier and a text, judgments of the slot's evidence only, and first judgments with listed supports and a relevance that can be used |
| CandidateNormalization.JudgmentBecomes | scripts/finalize_assisted_candidates.py:131-166 | what becomes of a judgment's metadata, links and relevance, and exactly when each of its three actions is reported |
| CandidateNormalization.KeptClaimsExactly | scripts/finalize_assisted_candidates.py:100-117 | the kept claims are the first ones of each identifier, in order, required unless they say otherwise |
| CandidateNormalization.KnownLinksExactly | scripts/finalize_assisted_candidates.py:147-158 | a link is kept exactly when it names a claim, once, in the order of first occurrence |
| CandidateNormalization.CitationsExactly | scripts/finalize_assisted_candidates.py:174-181 | the citations are the chunks judged 2 or better |
| CandidateNormalization.NormalizedFields | scripts/finalize_assisted_candidates.py:88-200 | what an accepted candidate becomes field by field; the first judgment of each chunk is kept in its normal form |
| CandidateNormalization.ActionsExactly | scripts/finalize_assisted_candidates.py:86-200 | when each of the eleven actions is in the report: exactly when it changed something, and each once |
| CandidateNormalization.TextsAppend | scripts/finalize_assisted_candidates.py:194-199 | the text filters work element by element and keep the order |
| CandidateNormalization.UniqueExactly | scripts/finalize_assisted_candidates.py:182-182 | values are kept once each, in the order of first occurrence |
| CandidateNormalization.NormalizedMeetsItemRules | backend/evaluation/formal_corpus.py:75-188 | an accepted candidate becomes a valid item exactly when request and raw candidate fit: valid slot fields, question and cutoff, well-formed names, no further keys in what is kept, first judgments on the relevance scale with real evidence pages, and support for an answerable one |
| CandidateNormalization.AnyNumberIsAccepted | scripts/finalize_assisted_candidates.py:119-167 | an answerable candidate is accepted whatever number it gives as relevance, and becomes a valid item only for 2 and 3 |
| CandidateNormalization.NegativeNumbersStay | scripts/finalize_assisted_candidates.py:158-163 | a negative candidate's relevance is capped at 1 but not at 0: it becomes a valid item exactly when the truncated number is not negative |
| CandidateNormalization.MissingRelevanceStays | scripts/finalize_assisted_candidates.py:119-167 | an answerable candidate without a relevance is accepted and breaks the item rules |
| CandidateNormalization.CopiesAreUnchecked | scripts/finalize_assisted_candidates.py:202-238 | a judgment with further keys, an invalid question and an invalid cutoff date are all accepted, and each breaks the item rules |
| CandidateNormalization.NormalizeClaims | scripts/finalize_assisted_candidates.py:100-117 | the first claim of each identifier, or failure exactly on an invalid claim |
| CandidateNormalization.NormalizeJudgments | scripts/finalize_assisted_candidates.py:119-167 | the first judgment of each chunk in normal form, with the actions taken |
| CandidateNormalization.NormalizeCandidate | scripts/finalize_assisted_candidates.py:79-200 | the loops compute the normalization about which the lemmas above speak, with its five failures: drifting answerability, invalid claim, unknown chunk, supports that are no list, unusable relevance |
| EvidenceRotation.WalkedOffset | scripts/prepare_assisted_evaluation_batches.py:219-224 | walking on from an offset modulo m is the walked offset modulo m |
| EvidenceRotation.DealtUses | scripts/prepare_assisted_evaluation_batches.py:219-224 | dealing moves every chunk from its share of the old offset to its share of the new one |
| EvidenceRotation.DealtRepeats | scripts/prepare_assisted_evaluation_batches.py:233-235 | dealing from one document repeats a chunk exactly when it takes more than the document has |
| EvidenceRotation.SlotRepeats | scripts/prepare_assisted_evaluation_batches.py:204-236 | a whole slot repeats a chunk exactly when it takes more from one of its documents than that document has |
| EvidenceRotation.SlotHolds | scripts/prepare_assisted_evaluation_batches.py:203-236 | what a slot holds, place by place: nothing, two chunks of each of two neighbouring documents, or chunks of one, going on where the slots before left off |
| EvidenceRotation.AllocateEvidence | scripts/prepare_assisted_evaluation_batches.py:196-236 | for any mix of slots, each slot holds the chunks dealt from the offsets that the slots before it left; each document's offset is the total taken from it and each chunk was used its share |
| EvidenceRotation.ChunksAreBalanced | scripts/prepare_assisted_evaluation_batches.py:202-236 | with T takes from m chunks each is used floor(T/m) or ceil(T/m) times |

## Left out

- Transports and files: HTTP, SQL text, PDF extraction, zip packaging, argument parsing, logging and report writing; their
  effects are the state changes and faults of the stores.
- Milvus collections of more than 16,000 rows: a query returns no more, so `Bounded` is required where the whole collection
  matters, and `EnsureStaged` states what the visible rows then guarantee.
- VerifyOnlineVersion: the thread pools and the metadata callback are left out; the reads happen one after the other.
- Online route resolution and readiness reconciliation; the lifecycle is modelled up to what the online check of each writer
  accepts.
- The constant configuration comparisons of index, collection and case metadata are one flag or one constant record each.
- Deletion and expiry timestamps, and which of the two an inactivation sets.
- Commit: the ingestion job's own identity check inside the transaction is left out; the job belongs to the version.
- ClaimCleanup: rows locked by a concurrent claim are not skipped, because each claim is one atomic step.
- Enqueue: a retry policy that differs from the stored job's is not compared.
- RunRecovery: the command line, the repository head check and a failing second snapshot query are left out.
- GroupCandidates: the rounded similarities and slot names copied into each pair, and the list of all similarities, are left
  out.
- Similarity quantiles and the other figures of the corpus build report, except the number of divided groups.
- ValidateCase: which rejection is raised first is not stated, only that there is one; the constants of the cutoff record are
  one flag.
- SerializeObservation: version and physical route names of a route are left out; an unmapped identity and a missing route are
  one failure.
- `_aggregate_backend`, the per-stratum report and latency measurement; `_strict_two_sided` is an input of the gate model.
- RemapRuntimeChunks: which of the four errors is raised is not stated; identifiers are never of the wrong type.
- Report fields that both gate and adjudicator hold constant: schema, boundaries, tokens, operations and hashes.
- ParsePages: pages are taken as normalized, which `NormalizationNormalizes` proves of every extracted page; parse status,
  warnings and size limits are left out.
- ValidateCorpus: which error is raised is not stated, only that there is one; the blind holdout flag, file digests, JSON parsing
  and the wording of the messages are left out, save for what the filter of the engineering blockers reads of them.
- NormalizeCandidate: a relevance of NaN or infinity, a missing or misshapen top-level key, a turn whose role is a list or an object,
  and text that is not valid Unicode are left out; `build_draft_item` only copies fields.
- AllocateEvidence: the seeded shuffles, `_assign_difficulty` and `_assign_answerability` come before it and are left out; every
  document has at least one chunk by construction.
- Rounding of floating-point sums in fusion scores and nDCG; the adjudicator's tolerance is part of the model.
- Rendering, generation, claim verification models, reranking, API wiring and documentation checks.
