# Omni-Sem: a verified model of the local index and retrieval engine

Omni-Sem indexes approved folders into SQLite, keeps a full-text table and an
embedding cache beside the index, answers queries by fusing ranked lists under a
token budget, and exchanges read-only snapshots. This project models the parts
whose correctness spans several functions and proves what they promise.

Every module comes in layers: functions on values that say what a step does,
lemmas about all runs of those functions, and, where the source updates state in
place, a class or method with loops proved to compute the functions.

| area | files | what is proved |
|---|---|---|
| index state machine | `Catalog*`, `Index*` | search rows are exactly the segments of current revisions in every reachable state; failure-free scans forget history, and so does the fingerprint; incremental runs agree with full scans; exactly when a document is refused, a path left pending, a fingerprint undetermined; what each outcome and the removal of a root leave |
| embedding cache | `Embedding*` | soundness over every history including interrupted runs and disk damage; each row holds the answer for its own text; conservation of segments; exactly when a run completes, repair takes two runs and the report tells the tables |
| vectors | `VectorCodec`, `RealArithmetic` | tolerance of the validator, byte layout |
| fusion and packing | `Fusion*`, `Tokens`, `Utf8`, `Packing*`, `Sorting` | closed form, order independence, respect for rankings, determinism; budget and byte bounds |
| metrics | `Metrics*`, `Eval*` | nDCG and recall bounds hold exactly for distinct references; the test on corpus and indexed paths that decides whether all answers stay within them |
| snapshots | `Snapshot*` | export satisfies import's validators exactly when its sources are complete; every step of import and remove is safe; when each succeeds and what it leaves |
| parsers | `QueryParse*`, `Markdown*`, `Frontmatter`, `GitChanges`, `TextTools` | round trips, distinct anchors, heading paths; a document's text comes back block by block, and exactly when any is lost |

Check the whole project with `dafny verify dfyconfig.toml`.

## Findings

Properties the code does not keep, each with its exact condition:

- A file that returns to bytes its source once had cannot be indexed again, because the
  UNIQUE key of `revisions` blocks the promotion. It stays refused through any further
  steps short of removing the root (`IndexingProgress.RefusedForEver`,
  `ReappearingFileIsRefused`; the condition is in `ProcessSucceedsExactly`).
- A path can be left active without a current revision: `IndexingProgress.PendingExactly`
  says when. A snapshot exported then is refused by import
  (`SnapshotExportTheorems.ExportedPayloadAccepted`).
- A run whose starting dimension, configured or found in the tables, is not the provider's
  never completes unless everything is cached already
  (`EmbeddingRepair.RunCompletesExactly`, `HealsInTwoRunsExactly`; the input is in
  `StaleDimensionStays`).
- What the provider refuses while no space is known is counted in the report but leaves no
  failure row (`EmbeddingAccounts.ReportTellsTheTables` has the condition,
  `RefusalIsLost` the input).
- `index_fingerprint` has no root in its ORDER BY: the fingerprint is determined if and
  only if no two roots are tied (`IndexingFingerprint.FingerprintDeterminedExactly`); over
  scanned documents, if and only if no two of them clash
  (`IndexingPlans.PlanDeterminedExactly`; the input is in `TiedPlanIsUndetermined`).
- An import can report success and yet not be queryable, when its last UPDATE fails
  (`SnapshotTheorems.SuccessIsQueryable`).
- `recall_at` and `ndcg_at` exceed 1 on lists with repeated references
  (`MetricsTheorems.RecallBoundIsDistinctness`, `NdcgBoundIsDistinctness`), and an
  accepted bundle can repeat references, because `document_id` need not be unique
  (`EvalReferences.AcceptedBundleRepeats`). All answers over the indexed files stay within
  1 if and only if different files have different names (`EvalBounds.RunsBoundedExactly`);
  with one record for each file, if and only if ids are not repeated
  (`EvalBounds.RunsBoundedByUniqueIds`).
- `truncated` is also set on a response that lost nothing, exactly when its hits just
  reach the limit (`PackingTheorems.NothingLostExactly`).
- The Markdown parser loses text: what a block quote says before a quote within it
  (`MarkdownLosses.NestedQuoteLosesTheOuter`), and the tight text of a list item after a
  list within it (`NestedListLosesTheRest`). `MarkdownLosses.AllTextIsKeptExactly` says when
  all text is kept: no event throws any away (`Discarded`: a new block finds text in its
  buffer, or no open block takes the text) and none is left at the end.
- A line break in a link's label is put before the link: `[a` newline `b](u)` reads
  ` ab (u)`. A link reads in order if and only if no break in its label comes after a word
  (`MarkdownLosses.LinkReadsInOrderExactly`).
- The comment on `parse_lexical_query` promises an implicit AND of terms; the code joins
  them with OR, and so does the model.

## Model

| member | source | states |
|---|---|---|
| `IndexingTheorems.RunKeepsInv` | crates/omnisem-core/src/index.rs:560-738 | Every state reachable by any sequence of document processing, parse failures, uniqueness failures, aborts between the two commits, deletions, scans and root removals satisfies the whole index invariant, and stored segments are what the parser makes of the stored bytes |
| `IndexingTheorems.SearchSurfaceIsExact` | crates/omnisem-core/src/storage.rs:525-686 | In every reachable state full-text rows and segments of current revisions of active sources correspond one to one; each current revision is `Indexed` and belongs to its source; no non-active source has one |
| `IndexingTheorems.FullScanConverges` | crates/omnisem-core/src/index.rs:422-551 | A full scan that reports no failure makes every path of the root show exactly the discovered document's hash, parser and segments, or nothing, whatever the index held before |
| `IndexingTheorems.FullScanCounts` | crates/omnisem-core/src/index.rs:483-520 | On every completed scan additions + modifications + unchanged + failures is the number of discovered documents |
| `IndexingTheorems.FullScanKeeps` | crates/omnisem-core/src/index.rs:422-551 | A full scan, failures and all, keeps the invariant and the faithfulness of stored segments |
| `IndexingTheorems.FullScanKeepsOtherRoots` | crates/omnisem-core/src/index.rs:422-551 | Scanning one root leaves what every other root shows as it was |
| `IndexingTheorems.ProcessAllCounts` | crates/omnisem-core/src/index.rs:486-501 | Each document of the loop is counted in exactly one counter |
| `IndexingProgress.ProcessSucceedsExactly` | crates/omnisem-core/src/index.rs:560-683 | `process_document` succeeds if and only if its reads and commits go through and the revision is either up to date, or parses, is storable and is not blocked by the UNIQUE key of revisions |
| `IndexingProgress.RefusedForEver` | migrations/0001_initial.sql:20 | Once refused, a document stays refused after any run of further steps that does not remove its root, and each attempt fails and leaves the path as it was then or active with nothing to search |
| `IndexingProgress.PendingExactly` | crates/omnisem-core/src/index.rs:560-683 | Processing leaves the path active with nothing to search if and only if it was so and the first commit did not happen, or it happened, the document parses, no revision is current and the second commit is stopped, unstorable or blocked by the UNIQUE key |
| `IndexingProgress.ReappearingFileIsRefused` | crates/omnisem-core/src/storage.rs:525-620 | Any file indexed, then deleted, then found again unchanged is in that situation |
| `IndexingProgress.FullScanForgetsHistory` | crates/omnisem-core/src/index.rs:422-551 | A failure-free scan from any state and a scan of the same documents into an empty database both succeed and show the same at every path |
| `IndexingProgress.ScanSucceedsExactly` | crates/omnisem-core/src/index.rs:483-505 | A scan reports zero failures if and only if every document was indexable before the scan began |
| `IndexingIncremental.IncrementalAgrees` | crates/omnisem-core/src/index.rs:309-376 | From an index that agrees with file map F0, a failure-free incremental run over an exact change list to F1 ends in agreement with F1 |
| `IndexingIncremental.FullScanAgrees` | crates/omnisem-core/src/index.rs:422-551 | A failure-free full scan of F1 ends in agreement with F1 |
| `IndexingIncremental.IncrementalEqualsFullScan` | crates/omnisem-core/src/index.rs:309-510 | The two, each from its own history, show the same at every path |
| `IndexingFingerprint.ProjectionIsSurface` | crates/omnisem-core/src/eval.rs:917-937 | A root shows a line if and only if one of the joined rows `index_fingerprint` reads carries it |
| `IndexingFingerprint.HashedOncePerRoot` | crates/omnisem-core/src/eval.rs:917-945 | In whatever order the query delivers its rows, each line is hashed once for every root that shows it, over all roots and no more |
| `IndexingFingerprint.RowsOfRootAreOrdered` | crates/omnisem-core/src/eval.rs:937-942 | Within a root path and ordinal name one row, so ORDER BY fixes the order |
| `IndexingFingerprint.SameSurfaceSameHash` | crates/omnisem-core/src/eval.rs:945-975 | Two indexes that show the same hash the same lines with the same multiplicity and count, and the same sequence unless rows are tied |
| `IndexingFingerprint.FingerprintDeterminedExactly` | crates/omnisem-core/src/eval.rs:937-975 | The hashed sequence is the same in every order the query may deliver if and only if no two joined rows tie: equal path, ordinal, anchor and text, but another content hash or parser |
| `IndexingFingerprint.TieNeedsTwoRoots` | crates/omnisem-core/src/eval.rs:937-942 | Tied rows belong to different roots |
| `IndexingPlans.ScansForgetHistory` | crates/omnisem-core/src/index.rs:422-551 | Failure-free scans of all roots, from any state whose active sources they cover and from the empty database, end showing the same in every root |
| `IndexingPlans.FingerprintForgetsHistory` | crates/omnisem-core/src/eval.rs:917-975 | After them both indexes hash the same multiset of lines and the same count, and the same sequence unless rows are tied |
| `IndexingPlans.OneRootIsUntied` | crates/omnisem-core/src/eval.rs:937-942 | While all active sources are of one root, no rows are tied |
| `IndexingPlans.PlanTiesExactly` | crates/omnisem-core/src/eval.rs:937-942 | Failure-free scans of all roots leave tied rows if and only if two scanned documents have one path and a common segment, but other bytes or another parser |
| `IndexingPlans.PlanDeterminedExactly` | crates/omnisem-core/src/eval.rs:917-975 | So the fingerprint is determined if and only if no two scanned documents clash in this way |
| `IndexingPlans.TiedPlanIsUndetermined` | crates/omnisem-core/src/eval.rs:917-975 | A concrete plan over two roots, scanned without failure, whose fingerprint is undetermined |
| `CatalogInvariant.PromoteKeepsInv` | crates/omnisem-core/src/storage.rs:525-620 | `promote_revision` swaps one revision's full-text rows for another's and keeps the invariant |
| `CatalogInvariant.FailedRevisionKeepsInv` | crates/omnisem-core/src/index.rs:686-738 | Recording a parse failure keeps the invariant |
| `CatalogInvariant.MarkDeletedKeepsInv` | crates/omnisem-core/src/storage.rs:663-689 | Marking a source deleted takes its full-text rows and pointer with it and keeps the invariant |
| `CatalogInvariant.DeleteRootKeepsInv` | crates/omnisem-core/src/storage.rs:346-408 | Removing a root's derived rows keeps the invariant |
| `IndexingRemoval.RemovalTakesTheRoot` | crates/omnisem-core/src/storage.rs:346-395 | Afterwards the root, its sources, their revisions and segments and its full-text rows are gone, and every other row of every table is as it was |
| `IndexingRemoval.RemovalShows` | crates/omnisem-core/src/storage.rs:346-395 | The removed root shows nothing at any path, and every other root what it showed |
| `IndexingRemoval.RemovalCountsExactly` | crates/omnisem-core/src/storage.rs:352-372 | The reported counts are the numbers of sources, revisions and segments that went |
| `IndexingRemoval.RemovedStaysRemoved` | crates/omnisem-core/src/storage.rs:346-395 | No row of a removed root is there after any run of further steps that does not add the root again |
| `IndexingRemoval.RemovedScansAsNew` | crates/omnisem-core/src/index.rs:422-551 | A root that is removed and scanned again gets the report and the listings of a scan by an empty index, failures and all, whatever had been stored or refused before |
| `CatalogInvariant.UpsertKeepsInv` | crates/omnisem-core/src/storage.rs:624-659 | Storing the identity row alone, the first commit, keeps the invariant |
| `IndexingSurface.ProcessShows` | crates/omnisem-core/src/index.rs:560-683 | What the processed path shows afterwards, for each outcome: the document on success; on failure the old listing, or pending, or nothing, by which commit failed and whether it parses |
| `IndexingSurface.ProcessKeepsOthers` | crates/omnisem-core/src/index.rs:560-683 | Processing a document changes what no other path shows |
| `IndexingOutcomes.OutcomeExactly` | crates/omnisem-core/src/index.rs:560-683 | When a document is counted as added, modified with how many segments, unchanged or failed, in terms of what its path shows, what it parses to and what is stored |
| `IndexingOutcomes.ScanCountsExactly` | crates/omnisem-core/src/index.rs:422-551 | A completed scan counts its documents by those outcomes, judged before the scan, and as deletions the shown paths that it did not find |
| `IndexingOutcomes.ScanLeaves` | crates/omnisem-core/src/index.rs:422-551 | What each path shows after a completed scan in which anything may have failed: nothing where no document was found, and at each document what its outcome leaves |
| `IndexStore.Store.UpsertSourceFile` | crates/omnisem-core/src/storage.rs:624-659 | The method on the stored tables computes the identity-row transaction, or fails and changes nothing |
| `IndexStore.Store.PromoteTransaction` | crates/omnisem-core/src/storage.rs:525-620 | The statement-by-statement transaction computes `Promote`, or rolls back to the old tables |
| `IndexStore.Store.MarkSourceDeleted` | crates/omnisem-core/src/storage.rs:663-689 | The tables become those of `MarkDeleted` |
| `IndexStore.Store.DeleteRootDerived` | crates/omnisem-core/src/storage.rs:346-395 | The tables become those of `DeleteRoot`, and the counts returned are of the rows that were under the root |
| `IndexStore.Store.CountUnder` | crates/omnisem-core/src/storage.rs:352-372 | The three COUNT queries count the rows under the root |
| `IndexStore.Store.ProcessDocument` | crates/omnisem-core/src/index.rs:560-683 | The imperative two-commit procedure reaches exactly the state and outcome the invariant and convergence theorems are about |
| `IndexStore.Store.ProcessDocuments` | crates/omnisem-core/src/index.rs:486-501 | The loop with its counters and `seen_paths` set computes `ProcessAll` and the set of discovered paths |
| `IndexStore.Store.DeleteUnseen` | crates/omnisem-core/src/index.rs:503-511 | The deletion loop deletes exactly the active rows whose path was not seen, and counts them |
| `IndexStore.Store.IndexOneRootFull` | crates/omnisem-core/src/index.rs:422-551 | The full scan computes `FullScan` and keeps the invariant |
| `IndexStore.Store.IndexOneRootIncremental` | crates/omnisem-core/src/index.rs:309-376 | The incremental run computes `Incremental` and keeps the invariant |
| `EmbeddingTheorems.SynchronizeKeeps` | crates/omnisem-core/src/embedding_sync.rs:120-324 | With any provider and model every run keeps the tables sound; when it reports, linked + failed = active, missing = failed, status is completed iff failed = 0, no text went out twice, and the active space is the report's and the model's; when it ends in a storage error the active space is none or the model's, or the starting dimension was out of range and nothing changed |
| `EmbeddingTheorems.EmbedChunkKeeps` | crates/omnisem-core/src/embedding_sync.rs:203-283 | Each turn of the chunk loop accounts for every segment of its chunk, or of everything left on a systemic error |
| `EmbeddingTheorems.ScanCacheKeeps` | crates/omnisem-core/src/embedding_sync.rs:177-202 | The cache pass counts each segment as linked, failed or pending, and what is pending has no vector |
| `EmbeddingContents.RunStoresAnswers` | crates/omnisem-core/src/embedding_sync.rs:160-292 | Whatever the provider answers: after a run past its opening statements the row of the i-th text of each accepted request holds the i-th vector of the answer, normalized on receipt and again on encoding, and every other row is as it was or, if it was damaged and its text is active, gone |
| `EmbeddingContents.RowsHoldTheirText` | crates/omnisem-core/src/embedding_sync.rs:261-282 | Of a provider that answers each text by its own vector, in whatever call, every row a run writes holds the vector of its own text |
| `EmbeddingContents.RequestsAreSent` | crates/omnisem-core/src/embedding_sync.rs:203-220 | A run that reports has sent exactly the texts of those requests, in order |
| `EmbeddingContents.FailuresRaise` | crates/omnisem-core/src/embedding_sync.rs:460-478 | Recording a failure raises the retry count of each of its segments in that space by one, up to the limit, and changes no other count |
| `EmbeddingRuns.HistorySound` | crates/omnisem-core/src/embedding_sync.rs:120-478 | After any history of runs, interrupted runs, re-indexing, root removal and damage that puts any bytes in a cached row: each link carries its segment's hash and names an existing vector, each vector answers a request to its space's model and has its space's length, no segment is both linked and failed in a space, the active space is known |
| `EmbeddingInterrupts.InterruptedKeeps` | crates/omnisem-core/src/embedding_sync.rs:120-324 | A run stopped between any two of its commits leaves sound tables |
| `EmbeddingRepair.RunCompletesExactly` | crates/omnisem-core/src/embedding_sync.rs:160-323 | With a provider that answers well in one length, a run ends completed if and only if it starts without a space, or starts in range and either every nonempty group is cached soundly in the starting space or the space is of that length and no nonempty group is damaged |
| `EmbeddingRepair.HealsInTwoRunsExactly` | crates/omnisem-core/src/embedding_sync.rs:160-323 | The second of two runs ends completed if and only if the first starts without a space, or starts in range and with the provider's length or with everything cached |
| `EmbeddingRepair.HealsInTwoRuns` | crates/omnisem-core/src/embedding_sync.rs:177-292 | Under that condition the second run leaves every active segment linked to a vector that decodes, and a third sends nothing and reports only cache hits |
| `EmbeddingRepair.CompleteThenIdle` | crates/omnisem-core/src/embedding_sync.rs:177-323 | After any completed run every active segment is linked to a vector that decodes and the next run sends nothing |
| `EmbeddingRepair.FullCacheIsIdle` | crates/omnisem-core/src/embedding_sync.rs:177-202 | A run over a complete cache links everything and sends nothing, whatever the provider would say |
| `EmbeddingRepair.StaleDimensionStays` | crates/omnisem-core/src/embedding_sync.rs:160-170 | One text, a provider of length 1 and a starting dimension 2, configured or found: neither this run nor the next completes |
| `EmbeddingAccounts.ReportTellsTheTables` | crates/omnisem-core/src/embedding_sync.rs:177-323 | `linked` is the number of active segments linked in the report's space; every active segment is linked or has a failure row there if and only if the space was known from the start, there was nothing to do, or the first answer was accepted |
| `EmbeddingAccounts.RefusalIsLost` | crates/omnisem-core/src/embedding_sync.rs:213-244 | One text refused before a space is known and one stored: the report counts a failure that no row records |
| `EmbeddingNumerics.StoredBytesDecode` | crates/omnisem-core/src/embedding.rs:309-341 | The bytes stored for an answer are those of the codec, and the cache reads from them the answer normalized once on receipt and once on encoding |
| `EmbeddingNumerics.GoodVectorsAreFinite` | crates/omnisem-core/src/embedding.rs:255-340 | A provider vector survives both normalizations, and its stored bytes the decoder, if and only if its components are finite and its norm is not negligible |
| `EmbeddingNumerics.FiniteProviderIsWellBehaved` | crates/omnisem-core/src/embedding.rs:255-340 | A provider answering finite, nonnegligible vectors of one length is all the repair theorem asks for |
| `EmbeddingTables.StoreGroupsKeepsInv` | crates/omnisem-core/src/embedding_sync.rs:261-282 | Storing and linking a batch in one transaction keeps the tables sound, provided the model that answered is the space's and each vector has its length |
| `EmbeddingTables.FailGroupsKeepsInv` | crates/omnisem-core/src/embedding_sync.rs:460-478 | Failure rows recorded for groups without a vector keep the tables sound |
| `EmbeddingTables.DropVectorKeepsInv` | migrations/0004_embedding_foundation.sql:29-38 | Deleting a vector and its links by cascade keeps the tables sound |
| `EmbeddingTables.RemoveSegmentsKeepsInv` | migrations/0004_embedding_foundation.sql:29-49 | Deleting segments with their links and failures by cascade keeps the tables sound |
| `EmbeddingStore.GroupByHash` | crates/omnisem-core/src/embedding_sync.rs:154-160 | Active segments are grouped by text hash: one group per hash, with all its segments |
| `EmbeddingStore.Store.SynchronizeWithProvider` | crates/omnisem-core/src/embedding_sync.rs:120-324 | The imperative run over the stored tables computes `Synchronize`, delivers the counts of the conservation law for the rows it was given, and on a storage error leaves the active space as `SynchronizeKeeps` says |
| `EmbeddingStore.Store.RunGroups` | crates/omnisem-core/src/embedding_sync.rs:161-323 | The run proper, from resolution to report, computes `Synchronize` |
| `EmbeddingStore.Store.EmbedPending` | crates/omnisem-core/src/embedding_sync.rs:203-283 | The chunk loop with early exit computes `EmbedAll` |
| `EmbeddingStore.Store.ScanGroups` | crates/omnisem-core/src/embedding_sync.rs:177-202 | The loop over the groups computes the cache pass |
| `EmbeddingStore.Store.LinkGroup` | crates/omnisem-core/src/embedding_sync.rs:440-459 | One transaction links every reference and clears its failure row |
| `EmbeddingStore.Store.RecordFailures` | crates/omnisem-core/src/embedding_sync.rs:460-478 | One transaction raises every reference's retry count, capped |
| `VectorCodec.EncodedDecodes` | crates/omnisem-core/src/embedding.rs:310-340 | Every vector that `encode_vector` accepts, up to 65,536 dimensions, decodes to its normalized form |
| `VectorCodec.NormalizedIsValid` | crates/omnisem-core/src/embedding.rs:255-307 | What `normalize_vector` returns passes `validate_normalized_vector` |
| `VectorCodec.NormalizedSum` | crates/omnisem-core/src/embedding.rs:255-280 | With components rounded within relative error 2^-23 and a tiny absolute one, the squared norm after normalization is within 1e-6 of 1 |
| `VectorCodec.NormalizesExactly` | crates/omnisem-core/src/embedding.rs:255-280 | Normalization succeeds if and only if the vector is nonempty, finite and its computed squared norm exceeds the epsilon |
| `VectorCodec.NormalizesTwice` | crates/omnisem-core/src/embedding.rs:310-324 | A normalized vector normalizes again, to a valid one |
| `VectorCodec.LayoutReadsBack` | crates/omnisem-core/src/embedding.rs:318-340 | Writing components as little-endian words and reading them back gives the same components |
| `VectorCodec.LittleEndianReadsBack` | crates/omnisem-core/src/embedding.rs:318-338 | Four little-endian bytes read back as the word they were written from |
| `VectorCodec.LittleEndianWritesBack` | crates/omnisem-core/src/embedding.rs:334-338 | Every four-byte chunk is the image of the word it decodes to |
| `VectorCodec.EncodeVector` | crates/omnisem-core/src/embedding.rs:310-324 | The buffer-filling method computes `Encode` |
| `Fusion.RrfMerge` | crates/omnisem-core/src/retrieval.rs:1285-1373 | The output is the sorted arrangement of one hit per admitted hash with its closed-form score; admitted = min(total, 768); unique is the number of distinct hashes; unique + duplicates = admitted |
| `Fusion.EntryStep` | crates/omnisem-core/src/retrieval.rs:1301-1337 | How one more hit changes the closed form: the local-wins rule in all its branches |
| `Fusion.AdmitOne` | crates/omnisem-core/src/retrieval.rs:1297-1337 | The loop body keeps the accumulator equal to the closed form of the hits seen |
| `Fusion.Accumulate` | crates/omnisem-core/src/retrieval.rs:1293-1339 | Both loops with the cap leave the closed form of all admitted hits |
| `Fusion.AdmitIsPrefix` | crates/omnisem-core/src/retrieval.rs:1295-1300 | The cap admits exactly a prefix of the concatenated lists |
| `Sorting.Sort` | crates/omnisem-core/src/retrieval.rs:1340-1353 | `sort_by` with any strict weak order gives a sorted permutation; hits, grades and changes are sorted with it |
| `Sorting.SortedIsUnique` | crates/omnisem-core/src/retrieval.rs:1340-1353 | Without ties a multiset has one sorted order |
| `FusionTheorems.PermutationKeepsVerdicts` | crates/omnisem-core/src/retrieval.rs:1285-1373 | At most 768 hits in all: permuting the lists leaves the set of (hash, local, score) unchanged |
| `FusionTheorems.FusionRespectsOrder` | crates/omnisem-core/src/retrieval.rs:1293-1353 | Cap or no cap: if a stands above b in every list with b, b at most once per list, both local or both not, then a is output before b |
| `FusionTheorems.FusionIsDeterministic` | crates/omnisem-core/src/retrieval.rs:1340-1362 | With segment ids that belong to one text each, the output does not depend on the hash map's iteration order |
| `FusionTheorems.ScoreOverLists` | crates/omnisem-core/src/retrieval.rs:1300-1307 | A hash's score is the sum over lists of 1/(61 + rank) of its hits that count |
| `FusionTheorems.ChosenIsFirst` | crates/omnisem-core/src/retrieval.rs:1305-1337 | The hit shown for a hash is the first local one, or the first when none is local |
| `FusionTheorems.LocalSignalsUnite` | crates/omnisem-core/src/retrieval.rs:1375-1399 | A fused local hit has a BM25 or cosine signal if and only if some admitted local hit of the text has it |
| `FusionTheorems.FusedSignals` | crates/omnisem-core/src/retrieval.rs:1375-1399 | Each of the five signals of a fused local hit is that of the first admitted local hit of the text that has it, and absent if none has |
| `FusionTheorems.FusedExplanation` | crates/omnisem-core/src/retrieval.rs:1394-1398 | Its explanation is, of those of the first local hit and of the later local neighbors, the first with matched terms, or the last when none has any |
| `FusionTheorems.OutputAscends` | crates/omnisem-core/src/retrieval.rs:1340-1353 | Scores fall along the output; among equal scores paths ascend, among equal paths anchors, among equal anchors segments |
| `FusionTheorems.OneListIsKept` | crates/omnisem-core/src/retrieval.rs:1285-1373 | Fusing a single list of different texts returns it as it was, scored 1/61, 1/62 and so on |
| `Packing.PackResults` | crates/omnisem-core/src/retrieval.rs:1001-1072 | The greedy loop returns the longest prefix that fits, with the first-hit exception, and warns exactly when even the cut top result is over budget |
| `PackingTheorems.ResponseWithinBudget` | crates/omnisem-core/src/retrieval.rs:1001-1072 | With budget at least 25 + estimate(query), the estimate of the packed response is within budget |
| `PackingTheorems.SmallBudgetAtMostOne` | crates/omnisem-core/src/retrieval.rs:1001-1072 | With less, at most one hit is returned |
| `PackingTheorems.PackedWithinLimits` | crates/omnisem-core/src/retrieval.rs:1001-1072 | At most `limit` hits, a prefix of the ranking, at most 48,000 text bytes |
| `PackingTheorems.NothingLostExactly` | crates/omnisem-core/src/retrieval.rs:1001-1072 | Every hit comes back whole if and only if their number is within the limit and together they fit tokens and bytes; such a response is nevertheless marked truncated exactly when the number equals the limit |
| `PackingTheorems.WarningIsExact` | crates/omnisem-core/src/retrieval.rs:1027-1043 | The warning is given if and only if a nonempty response is over budget |
| `PackingTheorems.PackingIsUnique` | crates/omnisem-core/src/retrieval.rs:1001-1072 | Query, ranking, limit and budget determine the packed response |
| `PackingTheorems.PackedTopIsRight` | crates/omnisem-core/src/retrieval.rs:1020-1051 | The top result of a response is whole if it fits. Otherwise, with budget at least 25 + estimate(query), its text keeps every prefix of the hit that fits the budget and 4,000 bytes; with less it is the first character |
| `Packing.ShortenTop` | crates/omnisem-core/src/retrieval.rs:1028-1039 | The top result is cut to the characters the budget leaves, then to 4,000 bytes, and still holds every prefix that fits both; with no room for a token it is the first character |
| `Tokens.TruncateUtf8` | crates/omnisem-core/src/tokens.rs:53-66 | The longest prefix of whole characters within the byte limit, with an ellipsis unless it ends in one; untouched when it fits |
| `Tokens.TruncationBounds` | crates/omnisem-core/src/tokens.rs:53-66 | Truncation never adds characters and adds at most three bytes to the limit |
| `Tokens.EstimateResponseTokens` | crates/omnisem-core/src/tokens.rs:39-49 | The sum over the response's texts of overhead and estimates |
| `Utf8.BytesAreOctets` | crates/omnisem-core/src/tokens.rs:53-66 | Byte lengths and boundary offsets are lengths of UTF-8 encodings (section 3 of RFC 3629), and cutting the encoding at a boundary gives the encoding of the prefix |
| `Utf8.EncodedDecodes` | crates/omnisem-core/src/tokens.rs:53-66 | Every text is read back from its encoding |
| `Utf8.DecodedEncodes` | crates/omnisem-core/src/tokens.rs:53-66 | Whatever octets decode are the encoding of the text they decode to: no overlong forms, no surrogates |
| `PackingTheorems.UsedIsResponse` | crates/omnisem-core/src/retrieval.rs:1009-1051 | The packer's running total is the estimate of the response it returns |
| `MetricsTheorems.NdcgBoundIsDistinctness` | crates/omnisem-core/src/eval.rs:692-710 | nDCG is at most 1 for every grade map if and only if the first k references are pairwise distinct |
| `MetricsTheorems.NdcgAtMostOne` | crates/omnisem-core/src/eval.rs:692-710 | nDCG is at most 1 for every grade map, cut-off and list with distinct first k references, under any lawful discounting |
| `MetricsTheorems.NdcgAtLeastZero` | crates/omnisem-core/src/eval.rs:692-710 | nDCG is at least 0 when no grade is negative |
| `MetricsTheorems.DistinctBelowIdeal` | crates/omnisem-core/src/eval.rs:692-709 | Rearrangement: no list of distinct references gains more than the sorted ideal |
| `MetricsTheorems.IdealScoresOne` | crates/omnisem-core/src/eval.rs:692-710 | An ideal order scores exactly 1 when there is anything to gain |
| `MetricsTheorems.OneRelevantScores` | crates/omnisem-core/src/eval.rs:692-710 | With one relevant reference, found at position p alone, nDCG is discount(p) / discount(0) |
| `MetricsTheorems.DiscountedIsLawful` | crates/omnisem-core/src/eval.rs:695-696 | A growing gain under a positive falling discount satisfies the laws the bound needs |
| `MetricsTheorems.RecallBoundIsDistinctness` | crates/omnisem-core/src/eval.rs:664-675 | recall@k is at most 1 for every set of required labels if and only if the first k references are distinct |
| `EvalReferences.ValidateBundle` | crates/omnisem-core/src/eval.rs:609-647 | The checks accept a bundle if and only if nothing is empty, query ids are unique, and each judgment names a query and has a positive label |
| `EvalReferences.DistinctHitsDistinctRefs` | crates/omnisem-core/src/eval.rs:521-533 | With any anchors: all lists of distinct hits over a set of indexed paths get distinct references if and only if no path's name followed by `#` is a prefix of another's |
| `EvalReferences.ParsedHitsDistinctRefs` | crates/omnisem-core/src/eval.rs:521-533 | With the anchors that the Markdown and plain-text parsers give: if and only if different paths have different names, after backslashes became slashes and paths in the corpus became ids |
| `EvalReferences.AcceptedBundleRepeats` | crates/omnisem-core/src/eval.rs:521-533 | An accepted bundle in which two different hits, with anchors a parser gives, get one reference and recall counts it twice |
| `EvalBounds.RunsBoundedExactly` | crates/omnisem-core/src/eval.rs:521-544 | For cut-offs of two and more: nDCG for every grading and recall for every label set are at most 1 on all distinct answers over the indexed paths if and only if different paths have different names; with any anchors, if and only if no two clash |
| `EvalBounds.UniqueIdsDecide` | crates/omnisem-core/src/eval.rs:478-481 | With one record for each file, its files have different names if and only if document ids are not repeated |
| `EvalBounds.RunsBoundedByUniqueIds` | crates/omnisem-core/src/eval.rs:484-544 | So such a bundle keeps all scores within 1 if and only if its ids are not repeated |
| `EvalBounds.AnswersAreDistinct` | migrations/0001_initial.sql:10-27 | Different full-text rows of one root differ in path or anchor |
| `EvalBounds.UniqueIdsBoundTheScores` | crates/omnisem-core/src/eval.rs:379-544 | Whatever different segments the index of an evaluation returns for a query, unique ids keep the scores within 1 |
| `Metrics.NdcgAt` | crates/omnisem-core/src/eval.rs:692-710 | The two loops and the sort compute the ratio to an ideal order |
| `Metrics.RelevanceGrades` | crates/omnisem-core/src/eval.rs:649-662 | A label's grade is decided by the first of the three lists that names it |
| `Metrics.RecallAt` | crates/omnisem-core/src/eval.rs:664-675 | The share of required labels among the first k, repetitions counted each time |
| `SnapshotExportTheorems.ExportedPayloadAccepted` | crates/omnisem-core/src/snapshot.rs:1154-1314 | From an index that satisfies its invariant, the exported payload passes `validate_payload_database` if and only if every exported source has a current revision and a safe path |
| `SnapshotExportTheorems.ExportedManifestAccepted` | crates/omnisem-core/src/snapshot.rs:1069-1151 | The exported manifest passes `validate_manifest_compatibility` if and only if the export holds at most a million segments |
| `SnapshotExportTheorems.ExportedSearchIsLocalSearch` | crates/omnisem-core/src/snapshot.rs:450-610 | The payload's full-text rows are, as a multiset, the local ones of the enabled selected roots |
| `SnapshotExport.BuildPayload` | crates/omnisem-core/src/snapshot.rs:450-610 | The loops over roots and their queries copy exactly the selected sources, current revisions, segments and rows, and no INSERT meets a primary key |
| `SnapshotExport.ExportSnapshot` | crates/omnisem-core/src/snapshot.rs:86-166 | Payload and manifest of an export, the manifest describing that payload |
| `SnapshotExport.ListPayloadRoots` | crates/omnisem-core/src/snapshot.rs:612-646 | Each payload root once, with its source and row counts |
| `SnapshotFormat.ValidateManifest` | crates/omnisem-core/src/snapshot.rs:1069-1151 | Accepts exactly the manifests in the supported range with distinct nonempty roots and bounded counts |
| `SnapshotFormat.ValidateRoots` | crates/omnisem-core/src/snapshot.rs:1115-1135 | The loop with its `seen_roots` set accepts exactly distinct, nonempty, nonnegatively counted roots |
| `SnapshotFormat.ValidatePayload` | crates/omnisem-core/src/snapshot.rs:1154-1314 | Accepts exactly readable payloads that match the manifest's counts, whose relations resolve and whose rows are safe and declared |
| `SnapshotTheorems.HistorySound` | crates/omnisem-core/src/snapshot.rs:195-367 | After any history of imports and removals, each failing or stopping at any step, and of root changes and lost files: every registered payload path names a file that passes validation or no file, and stored maps are part of a total one-to-one mapping to local roots that were enabled when it was registered |
| `SnapshotTheorems.ImportSound` | crates/omnisem-core/src/snapshot.rs:176-367 | Every state at a step boundary of an import is sound |
| `SnapshotTheorems.RemoveSound` | crates/omnisem-core/src/snapshot.rs:985-1066 | Every state at a step boundary of a removal is sound |
| `SnapshotTheorems.AcceptedMapsAreOneToOne` | crates/omnisem-core/src/snapshot.rs:195-254 | Length, duplicate and membership checks make the mapping total and one to one on the manifest's roots, by pigeonhole, and into enabled local roots |
| `SnapshotTheorems.CommittedMapsAreComplete` | crates/omnisem-core/src/snapshot.rs:195-350 | In the state an import commits, the stored map rows are total on the declared roots, one to one, and all name enabled local roots |
| `SnapshotTheorems.QueryableIsWhole` | crates/omnisem-core/src/snapshot.rs:870-878 | A snapshot listed as queryable has a validated payload and still maps every declared root, one to one, to known local roots |
| `SnapshotTheorems.SuccessIsQueryable` | crates/omnisem-core/src/snapshot.rs:353-367 | An import that reports success is queryable if and only if its last statement, whose error is ignored, went through |
| `SnapshotTheorems.FailureLeavesNothing` | crates/omnisem-core/src/snapshot.rs:340-352 | A failed import leaves a registration if and only if the rename failed and deleting the row again failed too |
| `SnapshotTheorems.ImportKeepsOthers` | crates/omnisem-core/src/snapshot.rs:176-367 | No state of an import's run differs in another snapshot's row, maps or files |
| `SnapshotTheorems.RemoveKeepsOthers` | crates/omnisem-core/src/snapshot.rs:985-1066 | No state of a removal differs in another snapshot's row, maps or files |
| `SnapshotOutcomes.RemovalSucceedsExactly` | crates/omnisem-core/src/snapshot.rs:985-1066 | A removal reports success if and only if the snapshot is registered, the transaction goes through and the file is absent or can be deleted |
| `SnapshotOutcomes.RemovalLeaves` | crates/omnisem-core/src/snapshot.rs:1036-1066 | It then leaves no row, no map and no file; if only the file could not be deleted, the file; and if nothing was committed, the state it found |
| `SnapshotOutcomes.RemovedStaysRemoved` | crates/omnisem-core/src/snapshot.rs:985-1066 | After that transaction the snapshot has no row and no map in any later state, whatever happens, until it is imported again |
| `SnapshotOutcomes.ImportSucceedsExactly` | crates/omnisem-core/src/snapshot.rs:176-367 | An import reports success if and only if every check passes and every step up to the rename goes through |
| `SnapshotOutcomes.SuccessLeaves` | crates/omnisem-core/src/snapshot.rs:327-367 | The copied payload is then stored, the row carries the manifest that was imported, and the maps are exactly those that were asked for |
| `SnapshotOutcomes.FailureLeaves` | crates/omnisem-core/src/snapshot.rs:255-352 | A failed import never takes the final file name; it leaves its temporary file if and only if it created it and could not delete it, and leaves maps if and only if the rename failed and both ways of taking them back failed too |
| `SnapshotStore.Store.ImportSnapshot` | crates/omnisem-core/src/snapshot.rs:176-367 | The imperative import passes through exactly the states of `ImportRun` and ends in the last |
| `SnapshotStore.Store.RemoveSnapshot` | crates/omnisem-core/src/snapshot.rs:985-1066 | The imperative removal passes through exactly the states of `RemoveRun` |
| `SnapshotStore.Store.CheckMaps` | crates/omnisem-core/src/snapshot.rs:195-254 | The loop over the entries accepts exactly mappings that satisfy all the checks |
| `SnapshotStore.Store.IsQueryable` | crates/omnisem-core/src/snapshot.rs:870-878 | In a sound store the flag `list_snapshots` reports is true if and only if the manifest declares roots, the payload file is there and validates, and exactly the declared roots are mapped |
| `SnapshotTheorems.QueryableExactly` | crates/omnisem-core/src/snapshot.rs:870-878 | The same of every sound world |
| `QueryParse.ParseLexicalQuery` | crates/omnisem-core/src/query_parse.rs:34-103 | The character loop computes `Parse`, including both kinds of rejection |
| `QueryParse.ReadTerms` | crates/omnisem-core/src/query_parse.rs:45-84 | The loop reads the terms of the grammar, or nothing when a quote stays open |
| `QueryParseTheorems.AcceptedTermsAreClean` | crates/omnisem-core/src/query_parse.rs:34-103 | Each term of an accepted query is nonempty, quote-free, trimmed and singly spaced, and there is at least one |
| `QueryParseTheorems.MatchLexesToTerms` | crates/omnisem-core/src/query_parse.rs:89-103 | For all terms whatever, lexing the built expression as FTS5 strings separated by OR gives exactly those terms |
| `QueryParseTheorems.AcceptedMatchLexes` | crates/omnisem-core/src/query_parse.rs:89-103 | The expression of an accepted query lexes to its terms |
| `QueryParseTheorems.QuotedQueryReparses` | crates/omnisem-core/src/query_parse.rs:34-103 | The quoted terms joined by spaces are accepted again with the same terms and expression if and only if they fit the length limit |
| `QueryParseTheorems.PlainWordsReadBack` | crates/omnisem-core/src/query_parse.rs:34-147 | Words of any characters but whitespace, quotes and the 27 separators, with any runs of whitespace and separators between them, are accepted as exactly those words if they fit the length limit: a hyphen, dot or underscore does not split |
| `QueryParseTheorems.TidyIsNormal` | crates/omnisem-core/src/query_parse.rs:144-147 | `normalize_spaces` leaves a tidy text unchanged |
| `QueryParseTheorems.LexQuoted` | crates/omnisem-core/src/query_parse.rs:149-152 | A quoted literal followed by anything but a quote lexes to the term and the rest |
| `MarkdownTheorems.ParsedSegmentsAreSound` | crates/omnisem-core/src/parsing/markdown.rs:74-135 | For every event sequence anchors are pairwise distinct and hold no `#`, ordinals are positions, and the heading segments' anchors are in order the paths of the headings visible from each |
| `MarkdownTheorems.VisibleGrows` | crates/omnisem-core/src/parsing/markdown.rs:112-121 | `retain` and push keep the stack equal to the headings whose level is below that of every heading since |
| `MarkdownTheorems.AnchorParts` | crates/omnisem-core/src/parsing/markdown.rs:74-82 | Base and count can be read back from an anchor |
| `MarkdownTheorems.SlugShape` | crates/omnisem-core/src/parsing/markdown.rs:425-445 | A slug is nonempty lower-case letters, digits and single inner dashes |
| `MarkdownSlugs.SlugIsItsWords` | crates/omnisem-core/src/parsing/markdown.rs:425-445 | A slug is the runs of letters and digits of its text in lower case with one dash between each two, and "section" if there are none |
| `MarkdownTheorems.SplitIsLossless` | crates/omnisem-core/src/parsing/markdown.rs:447-472 | For any limit, zero counting as one: the pieces concatenate to the text, keep to the limit, and every piece but the last ends at a break or is full without one |
| `MarkdownText.DocumentTexts` | crates/omnisem-core/src/parsing/markdown.rs:74-375 | For any document of headings, paragraphs, block quotes, lists, code blocks and tables with emphasis, code, line breaks and links in them: from the events of the document come segments that have, in order, exactly the kinds and texts of its blocks, and its title; no text is lost or reaches another block |
| `MarkdownText.ParagraphReadsBack` | crates/omnisem-core/src/parsing/markdown.rs:136-152 | The pieces of a paragraph, each within the limit, concatenate to its trimmed text |
| `MarkdownText.FilledTableText` | crates/omnisem-core/src/parsing/markdown.rs:268-319 | A table without empty cells reads as its rows, cells between bars, each row on a line of its own |
| `MarkdownLosses.RunBalances` | crates/omnisem-core/src/parsing/markdown.rs:215-333 | Conservation, for every event sequence however nested: each character that the parser neither trims nor inserts is as often in segments, buffers and what events threw away as in the text that came in |
| `MarkdownLosses.AllTextIsKeptExactly` | crates/omnisem-core/src/parsing/markdown.rs:215-333 | All the text of a document is in its segments if and only if no event throws any away and none is left gathered at the end |
| `MarkdownLosses.NestedQuoteLosesTheOuter` | crates/omnisem-core/src/parsing/markdown.rs:249-252 | Whatever a block quote says before a quote within it is in no segment |
| `MarkdownLosses.NestedListLosesTheRest` | crates/omnisem-core/src/parsing/markdown.rs:253-262 | Whatever tight text a list item has after a list within it is in no segment |
| `MarkdownLosses.LinkReadsInOrderExactly` | crates/omnisem-core/src/parsing/markdown.rs:215-333 | A link with text reads in the order of the document if and only if no line break in its label comes after a word |
| `MarkdownIndexing.MarkdownIsStorable` | migrations/0001_initial.sql:26 | No parsed Markdown document violates either UNIQUE clause on segments |
| `MarkdownParser.ParseMarkdown` | crates/omnisem-core/src/parsing/markdown.rs:336-375 | The mutable parser, event by event, produces the segments and title of `ParseEvents`, with distinct anchors and positional ordinals |
| `MarkdownParser.Slugify` | crates/omnisem-core/src/parsing/markdown.rs:425-445 | The loops compute the slug |
| `MarkdownParser.Split` | crates/omnisem-core/src/parsing/markdown.rs:447-472 | The loop computes the pieces |
| `MarkdownParser.Parser.PushSegment` | crates/omnisem-core/src/parsing/markdown.rs:74-89 | `push` appends one segment whose ordinal is its position and whose anchor no earlier segment has, and keeps what is known of the counters |
| `MarkdownParser.Parser.PushHeadingSegments` | crates/omnisem-core/src/parsing/markdown.rs:110-134 | The heading's stack, title and segments on the mutable state |
| `MarkdownParser.Parser.HandleEvent` | crates/omnisem-core/src/parsing/markdown.rs:215-234 | Each event changes the mutable state as `Handle` says |
| `Frontmatter.SplitFrontmatter` | crates/omnisem-core/src/parsing/markdown.rs:377-410 | The input is cut at the first closing fence, or is all body |
| `Frontmatter.SplitIsLossless` | crates/omnisem-core/src/parsing/markdown.rs:377-410 | Fences, their line breaks, front matter and body put the input together again |
| `GitChanges.PrintedRecordsParse` | crates/omnisem-core/src/git.rs:162-240 | Printing any list of records in NUL-delimited form and parsing it returns each record's changes in order, renames and copies as deleted then added, paths outside the root dropped |
| `GitChanges.EditsParse` | crates/omnisem-core/src/git.rs:162-240 | What Git prints for files under the root is read back as what happened to them: letter A as added, D as deleted, any other letter of a single path as modified, R and C as the old path deleted and the new one added |
| `GitChanges.CutOutputParses` | crates/omnisem-core/src/git.rs:162-240 | Output cut off inside its last record still gives the changes of the records before it |
| `GitChanges.ParseNameStatusZ` | crates/omnisem-core/src/git.rs:162-240 | Appends the changes the chunks describe, or fails when any chunk is not UTF-8 |
| `GitChanges.SplitZ` | crates/omnisem-core/src/git.rs:271-285 | The nonempty chunks between NULs, all of them UTF-8, or nothing |
| `GitChanges.SplitUndoesPrint` | crates/omnisem-core/src/git.rs:271-285 | Splitting NUL-terminated chunks gives the chunks back |
| `GitChanges.PrintedPathMaps` | crates/omnisem-core/src/git.rs:242-259 | A path of normal components, printed with `/`, maps back to the components behind the root prefix if it starts with it, and to nothing otherwise |
| `GitChanges.DedupeChanges` | crates/omnisem-core/src/git.rs:287-296 | The same set of (path, kind) pairs in strictly increasing order |
| `GitChanges.AscendingIsUnique` | crates/omnisem-core/src/git.rs:287-296 | That list is determined by the set, so input order and repeats do not matter |

## Left out

- Rust's u32 counters, ordinals and token totals: modelled as unbounded naturals; overflow at 2^32 (or saturation, in the packer) is outside the model. `tokenEstimate` alone keeps its saturating cast.
- BLAKE3, UUIDs: a digest is identified with what it digests, identifiers are fresh values.
- Clock values, durations, mtimes, `scan_runs`, `query_activity`, `embedding_sync_runs`, warnings text: not modelled.
- Discovery, glob and gitignore matching, `is_safe_relative_path`, root validation: discovered documents are inputs; a change whose path does not validate is skipped as in the source.
- SQLite itself: a transaction is one atomic step; `ORDER BY` of the listing queries is left open where no caller depends on it. BM25, `highlight` and the tokenizer of FTS5 are not part of the model.
- MarkdownText.DocumentTexts: blocks within blocks are limited to paragraphs in quotes and list items; deeper nesting is under `MarkdownLosses`, where text is lost. Paragraphs of one quote or item run on without a separator, as in the source. It speaks of kinds and texts; of anchors `ParsedSegmentsAreSound` says that they differ and how headings' are built, not which number is in the others.
- EmbeddingContents.RunStoresAnswers: that `normalize_vector` keeps the number of components is a hypothesis (`KeepsLength`), proved of the codec (`EmbeddingNumerics.CodecKeepsLength`).
- EmbeddingContents.FailuresRaise: the references are of different segments, as rows found by primary key are.
- The pulldown-cmark tokenizer: the Markdown parser takes its events as input. `frontmatter_title` is an input as well.
- A storage error in the middle of a full scan's deletion loop: covered as separate deletions in `IndexingTheorems.Run`, not inside `FullScan`.
- The bytes `index_fingerprint` feeds its hasher: the sequence of lines stands for the digest.
- IndexingIncremental.IncrementalAgrees: asks for an exact change list, because `collect_changes` can give one path two kinds and a changed path that no longer validates stays active.
- EmbeddingRepair.HealsInTwoRuns: takes groups as `by_hash` makes them, none empty, and `find_existing_dimensions` as a function of the model's spaces.
- SnapshotTheorems.CommittedMapsAreComplete: assumes that stored root ids are in canonical form, since the check reads a root by the canonical form and stores the string it was given.
- Embedding errors of SQLite statements inside a run: a run stopped by one is an interrupted run (`EmbeddingInterrupts`); the report is then not produced.
- Floating point in fusion and metrics: exact reals; only `VectorCodec` models rounding, through stated error bounds.
- EvalBounds.UniqueIdsBoundTheScores: takes the indexed paths as the corpus spells them; for any other spelling `RunsBoundedExactly` asks about the indexed paths themselves.
- VectorCodec.NormalizedSum: the bounds on f64 sums and on the rounded quotient are hypotheses about the machine (`Faithful`), not derived from bit-level arithmetic.
- `2^x - 1` and `1 / log2(i + 2)`: any growing gain with gain(0) = 0 and any positive falling discount.
- Federation (`federate_with_snapshots`, `eligible_snapshot_sources`), sensitivity filtering, duplicate suppression and the top-k cut of the exact vector search: not modelled; they select the lists fusion is given.
- Paths, anchors and printed segment ids in `Fusion`: only compared by the source, so each is its position in its order. In `GitChanges` the order on paths is any strict total order.
- Snapshot files: contents are payload tables or unreadable bytes; sizes, permissions, symlink checks and the directory-tree validation are one input flag. The branch of `remove_snapshot` that refuses payloads outside the managed directory is not reached by rows that import wrote and is left out.
- `aggregate_metrics`, `mrr_one`, `percentile`, `split_plain_text`, enum conversions, budget presets, configuration, CLI, HTTP server and provider transport: they would only add easy members.
